/** Two runs, one device each, that end with a sha for a file that has no version. */
module SyncExamples {
  import opened Options
  import opened Basics
  import opened SyncModel
  import opened SyncSafety

  /** t is registered and pushed to; u is registered before the push comes back. */
  function AnswerEvent(k: nat, t: Target, u: Target): Event {
    if k == 0 then Registers(0, t)
    else if k == 1 then CheckPasses(0, 0)
    else if k == 2 then Saves(0, 0)
    else if k == 3 then StartsPush(0)
    else if k == 4 then Puts(0, 0, None, true)
    else if k == 5 then Registers(0, u)
    else if k == 6 then CheckPasses(0, 1)
    else PushReturns(0, 0)
  }

  function AnswerDevice(k: nat, t: Target, u: Target): Device {
    Device(
      if k < 2 then [] else if k < 7 then [Registration(t, None)]
      else [Registration(t, None), Registration(u, if k == 7 then None else Some(0))],
      if k < 2 then None else if k < 7 then Some(0) else Some(1),
      if k == 1 then [Checking(t)] else if k == 2 then [Saving(Some(0))] else if k == 4 then [Pushing(0)]
      else if k == 5 then [Pushed(0)] else if k == 6 then [Pushed(0), Checking(u)]
      else if k == 7 then [Pushed(0), Saving(Some(1))] else if k == 8 then [Saving(Some(1)), Saving(Some(1))] else [],
      None, if k < 3 then None else Some(Registration(t, None)), if k == 0 then {} else if k < 6 then {t} else {t, u}, {})
  }

  function AnswerWorld(k: nat, t: Target, u: Target): World {
    World(if k < 5 then [] else [Version(t, 0, None, None)], if k < 5 then map[] else map[t := 0], [AnswerDevice(k, t, u)])
  }

  lemma AnswerDeviceStep(k: nat, t: Target, u: Target)
    requires t.file != u.file && k < 8
    ensures EnabledAt(AnswerWorld(k, t, u).log, AnswerDevice(k, t, u), AnswerEvent(k, t, u))
    ensures DeviceAfter(AnswerWorld(k, t, u).log, AnswerWorld(k, t, u).heads, AnswerDevice(k, t, u), AnswerEvent(k, t, u))
            == AnswerDevice(k + 1, t, u)
  {
    var dev, dev' := AnswerDevice(k, t, u), AnswerDevice(k + 1, t, u);
    var after := DeviceAfter(AnswerWorld(k, t, u).log, AnswerWorld(k, t, u).heads, dev, AnswerEvent(k, t, u));
    if k == 0 || k == 5 {
      assert after.jobs == dev'.jobs && after.registered == dev'.registered;
    } else if k == 1 || k == 6 || k == 7 {
      assert after.jobs == dev'.jobs && after.objects == dev'.objects;
    } else {
      assert after.jobs == dev'.jobs;
    }
  }

  lemma AnswerStep(k: nat, t: Target, u: Target)
    requires t.file != u.file && k < 8
    ensures Enabled(AnswerWorld(k, t, u), AnswerEvent(k, t, u))
    ensures AnswerWorld(k + 1, t, u) == After(AnswerWorld(k, t, u), AnswerEvent(k, t, u))
  {
    var w := AnswerWorld(k, t, u);
    AnswerDeviceStep(k, t, u);
    assert w.devices[0 := AnswerDevice(k + 1, t, u)] == [AnswerDevice(k + 1, t, u)];
    assert Accepted(w, AnswerEvent(k, t, u)) <==> k == 4;
  }

  /** An upload that returns after another file was registered leaves its sha with the new registration. */
  lemma ALateAnswerStrands(t: Target, u: Target)
    requires t.file != u.file
    ensures exists run: seq<World>, events: seq<Event> ::
              IsRun(run, events) && |events| == 8 && events[7].PushReturns? && !Stranded(run[7], 0) && Stranded(run[8], 0)
  {
    var run, events := seq(9, (k: nat) => AnswerWorld(k, t, u)), seq(8, (k: nat) => AnswerEvent(k, t, u));
    forall k | 0 <= k < 8 ensures Enabled(run[k], events[k]) && run[k + 1] == After(run[k], events[k]) {
      AnswerStep(k, t, u);
    }
    assert IsRun(run, events) && events[7].PushReturns? && !Stranded(run[7], 0) && Stranded(run[8], 0);
  }

  /** t is registered, pushed to and pulled; u is registered before what was pulled comes back. */
  function FetchEvent(k: nat, t: Target, u: Target): Event {
    if k == 0 then Registers(0, t)
    else if k == 1 then CheckPasses(0, 0)
    else if k == 2 then Saves(0, 0)
    else if k == 3 then StartsPush(0)
    else if k == 4 then Puts(0, 0, None, false)
    else if k == 5 then StartsPull(0)
    else if k == 6 then Gets(0, 0)
    else if k == 7 then Registers(0, u)
    else if k == 8 then CheckPasses(0, 1)
    else if k == 9 then FetchReturns(0, 0)
    else if k == 10 then Saves(0, 0)
    else if k == 11 then Confirms(0)
    else if k == 12 then Applies(0, 0)
    else ApplyReturns(0, 0)
  }

  function FetchDevice(k: nat, t: Target, u: Target): Device {
    Device(
      if k < 2 then [] else if k < 9 then [Registration(t, None)] else if k < 14 then [Registration(t, None), Registration(u, None)]
      else [Registration(t, None), Registration(u, None), Registration(u, Some(0))],
      if k < 2 then None else if k < 9 then Some(0) else if k < 14 then Some(1) else Some(2),
      FetchJobs(k, t, u),
      if k == 10 || k == 11 then Some(Offer(0, Some(1))) else None,
      if k < 3 then None else if k < 11 then Some(Registration(t, None)) else if k < 13 then Some(Registration(u, None))
      else Some(Registration(u, Some(0))),
      if k == 0 then {} else if k < 8 then {t} else {t, u},
      if k < 13 then {} else {0})
  }

  function FetchJobs(k: nat, t: Target, u: Target): seq<Job> {
    if k == 1 then [Checking(t)] else if k == 2 then [Saving(Some(0))] else if k == 4 then [Pushing(0)]
    else if k == 6 then [Pulling(0)] else if k == 7 then [Fetched(0)] else if k == 8 then [Fetched(0), Checking(u)]
    else if k == 9 then [Fetched(0), Saving(Some(1))] else if k == 10 then [Saving(Some(1))]
    else if k == 12 then [Applying(0, Some(1))] else if k == 13 then [Applied(Some(Registration(u, Some(0))))] else []
  }

  function FetchWorld(k: nat, t: Target, u: Target): World {
    World(if k < 5 then [] else [Version(t, 0, None, None)], if k < 5 then map[] else map[t := 0], [FetchDevice(k, t, u)])
  }

  lemma FetchDeviceBegins(k: nat, t: Target, u: Target)
    requires t.file != u.file && k < 4
    ensures EnabledAt(FetchWorld(k, t, u).log, FetchDevice(k, t, u), FetchEvent(k, t, u))
    ensures DeviceAfter(FetchWorld(k, t, u).log, FetchWorld(k, t, u).heads, FetchDevice(k, t, u), FetchEvent(k, t, u))
            == FetchDevice(k + 1, t, u)
  {
    var dev, dev' := FetchDevice(k, t, u), FetchDevice(k + 1, t, u);
    var after := DeviceAfter(FetchWorld(k, t, u).log, FetchWorld(k, t, u).heads, dev, FetchEvent(k, t, u));
    if k == 0 {
      assert after.jobs == dev'.jobs && after.registered == dev'.registered;
    } else if k == 1 {
      assert after.jobs == dev'.jobs && after.objects == dev'.objects;
    } else {
      assert after.jobs == dev'.jobs;
    }
  }

  lemma FetchDevicePulls(k: nat, t: Target, u: Target)
    requires t.file != u.file && 4 <= k < 7
    ensures EnabledAt(FetchWorld(k, t, u).log, FetchDevice(k, t, u), FetchEvent(k, t, u))
    ensures DeviceAfter(FetchWorld(k, t, u).log, FetchWorld(k, t, u).heads, FetchDevice(k, t, u), FetchEvent(k, t, u))
            == FetchDevice(k + 1, t, u)
  {
    var dev, dev' := FetchDevice(k, t, u), FetchDevice(k + 1, t, u);
    var after := DeviceAfter(FetchWorld(k, t, u).log, FetchWorld(k, t, u).heads, dev, FetchEvent(k, t, u));
    assert after.jobs == dev'.jobs;
  }

  lemma FetchDeviceArrives(k: nat, t: Target, u: Target)
    requires t.file != u.file && 7 <= k < 11
    ensures EnabledAt(FetchWorld(k, t, u).log, FetchDevice(k, t, u), FetchEvent(k, t, u))
    ensures DeviceAfter(FetchWorld(k, t, u).log, FetchWorld(k, t, u).heads, FetchDevice(k, t, u), FetchEvent(k, t, u))
            == FetchDevice(k + 1, t, u)
  {
    var dev, dev' := FetchDevice(k, t, u), FetchDevice(k + 1, t, u);
    var after := DeviceAfter(FetchWorld(k, t, u).log, FetchWorld(k, t, u).heads, dev, FetchEvent(k, t, u));
    if k == 7 {
      assert after.jobs == dev'.jobs && after.registered == dev'.registered;
    } else if k == 8 {
      assert after.jobs == dev'.jobs && after.objects == dev'.objects;
    } else {
      assert after.jobs == dev'.jobs;
    }
  }

  lemma FetchDeviceEnds(k: nat, t: Target, u: Target)
    requires t.file != u.file && 11 <= k < 14
    ensures EnabledAt(FetchWorld(k, t, u).log, FetchDevice(k, t, u), FetchEvent(k, t, u))
    ensures DeviceAfter(FetchWorld(k, t, u).log, FetchWorld(k, t, u).heads, FetchDevice(k, t, u), FetchEvent(k, t, u))
            == FetchDevice(k + 1, t, u)
  {
    var dev, dev' := FetchDevice(k, t, u), FetchDevice(k + 1, t, u);
    var after := DeviceAfter(FetchWorld(k, t, u).log, FetchWorld(k, t, u).heads, dev, FetchEvent(k, t, u));
    if k == 11 {
      assert after.jobs == dev'.jobs;
    } else if k == 12 {
      assert after.jobs == dev'.jobs && after.pulled == dev'.pulled;
    } else {
      assert after.jobs == dev'.jobs && after.objects == dev'.objects;
    }
  }

  /** The fifth step is the upload. */
  lemma FetchUpload(t: Target, u: Target)
    requires t.file != u.file
    ensures Enabled(FetchWorld(4, t, u), FetchEvent(4, t, u)) && FetchWorld(5, t, u) == After(FetchWorld(4, t, u), FetchEvent(4, t, u))
  {
    FetchDevicePulls(4, t, u);
    assert [FetchDevice(4, t, u)][0 := FetchDevice(5, t, u)] == [FetchDevice(5, t, u)];
  }

  /** Where nothing is uploaded only the device changes. */
  lemma OneDevice(log: seq<Version>, heads: map<Target, Sha>, dev: Device, dev': Device, e: Event)
    requires EnabledAt(log, dev, e) && e.d == 0 && !e.Puts? && dev' == DeviceAfter(log, heads, dev, e)
    ensures Enabled(World(log, heads, [dev]), e) && After(World(log, heads, [dev]), e) == World(log, heads, [dev'])
  {
    assert [dev][0 := dev'] == [dev'];
  }

  lemma FetchDeviceStep(k: nat, t: Target, u: Target)
    requires t.file != u.file && k < 14
    ensures EnabledAt(FetchWorld(k, t, u).log, FetchDevice(k, t, u), FetchEvent(k, t, u))
    ensures DeviceAfter(FetchWorld(k, t, u).log, FetchWorld(k, t, u).heads, FetchDevice(k, t, u), FetchEvent(k, t, u))
            == FetchDevice(k + 1, t, u)
  {
    if k < 4 {
      FetchDeviceBegins(k, t, u);
    } else if k < 7 {
      FetchDevicePulls(k, t, u);
    } else if k < 11 {
      FetchDeviceArrives(k, t, u);
    } else {
      FetchDeviceEnds(k, t, u);
    }
  }

  lemma FetchStep(k: nat, t: Target, u: Target)
    requires t.file != u.file && k < 14
    ensures Enabled(FetchWorld(k, t, u), FetchEvent(k, t, u))
    ensures FetchWorld(k + 1, t, u) == After(FetchWorld(k, t, u), FetchEvent(k, t, u))
  {
    if k == 4 {
      FetchUpload(t, u);
    } else {
      var w, e := FetchWorld(k, t, u), FetchEvent(k, t, u);
      FetchDeviceStep(k, t, u);
      OneDevice(w.log, w.heads, FetchDevice(k, t, u), FetchDevice(k + 1, t, u), e);
    }
  }

  /** A pull that arrives after another file was registered is asked about, and taken, under that registration. */
  lemma ALateFetchStrands(t: Target, u: Target)
    requires t.file != u.file
    ensures exists run: seq<World>, events: seq<Event> ::
              IsRun(run, events) && |events| == 14 && events[13].ApplyReturns? && !Stranded(run[13], 0) && Stranded(run[14], 0)
  {
    var run, events := seq(15, (k: nat) => FetchWorld(k, t, u)), seq(14, (k: nat) => FetchEvent(k, t, u));
    forall k | 0 <= k < 14 ensures Enabled(run[k], events[k]) && run[k + 1] == After(run[k], events[k]) {
      FetchStep(k, t, u);
    }
    assert IsRun(run, events) && events[13].ApplyReturns? && !Stranded(run[13], 0) && Stranded(run[14], 0);
  }
}

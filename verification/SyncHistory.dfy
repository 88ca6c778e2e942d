/** Whose doing it was: every sha a device holds goes back to its own upload or to a yes of its user's. */
module SyncHistory {
  import opened Options
  import opened Basics
  import opened SyncModel
  import opened SyncSafety
  import opened SyncEvents

  // ---------------------------------------------------------------- what a step may add

  /** What is new of what a device's user agreed to, and of what it fetched. */
  lemma StepAdds(log: seq<Version>, heads: map<Target, Sha>, dev: Device, e: Event)
    requires EnabledAt(log, dev, e)
    ensures var dev' := DeviceAfter(log, heads, dev, e);
            && (forall sha | sha in dev'.pulled && sha !in dev.pulled ::
                  exists j :: j in dev.jobs && j.Applying? && j.sha == sha)
            && (dev'.offer.Some? && dev'.offer != dev.offer ==> Fetched(dev'.offer.value.sha) in dev.jobs)
  {
    if e.FetchReturns? {
      assert dev.jobs[e.i].Fetched?;
    }
    if e.Applies? {
      assert dev.jobs[e.i].Applying?;
    }
  }

  lemma NewJob(log: seq<Version>, heads: map<Target, Sha>, dev: Device, e: Event, j: Job)
    requires EnabledAt(log, dev, e) && j in DeviceAfter(log, heads, dev, e).jobs && j !in dev.jobs
    ensures j.Applying? ==> e.Confirms? && dev.offer.value.sha == j.sha
    ensures j.Fetched? ==> e.Gets? && j.sha in heads.Values
  {
  }

  // ---------------------------------------------------------------- the whole history

  lemma Later(run: seq<World>, events: seq<Event>, n: nat, d: nat, sha: Sha)
    requires n < |events| < |run|
    ensures Got(run, events, n, d, sha) ==> Got(run, events, n + 1, d, sha)
    ensures Agreed(run, events, n, d, sha) ==> Agreed(run, events, n + 1, d, sha)
    ensures Uploaded(run, events, n, d, sha) ==> Uploaded(run, events, n + 1, d, sha)
  {
  }

  lemma JobsTold(run: seq<World>, events: seq<Event>, n: nat, d: nat, j: Job)
    requires IsRun(run, events) && n < |events| && Told(run, events, n, d)
    requires d < |run[n + 1].devices| && j in run[n + 1].devices[d].jobs
    ensures j.Applying? ==> Agreed(run, events, n + 1, d, j.sha)
    ensures j.Fetched? ==> Got(run, events, n + 1, d, j.sha)
  {
    var w, e := run[n], events[n];
    assert run[n + 1] == After(w, e);
    if j in w.devices[d].jobs {
      if j.Applying? || j.Fetched? {
        Later(run, events, n, d, j.sha);
      }
    } else {
      assert e.d == d;
      NewJob(w.log, w.heads, w.devices[d], e, j);
    }
  }

  lemma PulledTold(run: seq<World>, events: seq<Event>, n: nat, d: nat, sha: Sha)
    requires IsRun(run, events) && n < |events| && Told(run, events, n, d)
    requires d < |run[n + 1].devices| && sha in run[n + 1].devices[d].pulled
    ensures Agreed(run, events, n + 1, d, sha)
  {
    var w, e := run[n], events[n];
    assert run[n + 1] == After(w, e);
    Later(run, events, n, d, sha);
    if sha !in w.devices[d].pulled {
      assert e.d == d;
      StepAdds(w.log, w.heads, w.devices[d], e);
    }
  }

  lemma OfferTold(run: seq<World>, events: seq<Event>, n: nat, d: nat)
    requires IsRun(run, events) && n < |events| && Told(run, events, n, d)
    requires d < |run[n + 1].devices| && run[n + 1].devices[d].offer.Some?
    ensures Got(run, events, n + 1, d, run[n + 1].devices[d].offer.value.sha)
  {
    var w, e := run[n], events[n];
    assert run[n + 1] == After(w, e);
    Later(run, events, n, d, run[n + 1].devices[d].offer.value.sha);
    if run[n + 1].devices[d].offer != w.devices[d].offer {
      assert e.d == d;
      StepAdds(w.log, w.heads, w.devices[d], e);
    }
  }

  lemma {:induction false} RunTells(run: seq<World>, events: seq<Event>, n: nat, d: nat)
    requires IsRun(run, events) && n < |run|
    ensures Told(run, events, n, d)
  {
    if n > 0 {
      RunTells(run, events, n - 1, d);
      assert run[n - 1 + 1] == After(run[n - 1], events[n - 1]);
      if d < |run[n].devices| {
        var dev := run[n].devices[d];
        forall sha | sha in dev.pulled ensures Agreed(run, events, n, d, sha) {
          PulledTold(run, events, n - 1, d, sha);
        }
        forall j | j in dev.jobs ensures (j.Applying? ==> Agreed(run, events, n, d, j.sha)) && (j.Fetched? ==> Got(run, events, n, d, j.sha)) {
          JobsTold(run, events, n - 1, d, j);
        }
        if dev.offer.Some? {
          OfferTold(run, events, n - 1, d);
        }
      }
    }
  }

  /** A list is replaced only after the user said yes to that very version, fetched by a pull of this device. */
  lemma AppliesOnlyAgreed(run: seq<World>, events: seq<Event>, n: nat, i: nat)
    requires IsRun(run, events) && n < |events| && events[n] == Applies(events[n].d, i)
    ensures Agreed(run, events, n, events[n].d, run[n].devices[events[n].d].jobs[i].sha)
  {
    RunTells(run, events, n, events[n].d);
    assert Enabled(run[n], events[n]);
    assert run[n].devices[events[n].d].jobs[i] in run[n].devices[events[n].d].jobs;
  }

  lemma {:induction false} LogTells(run: seq<World>, events: seq<Event>, n: nat, sha: Sha)
    requires IsRun(run, events) && n < |run| && sha < |run[n].log|
    ensures Uploaded(run, events, n, run[n].log[sha].author, sha)
  {
    if n > 0 {
      var w, e := run[n - 1], events[n - 1];
      assert run[n - 1 + 1] == After(w, e);
      if sha < |w.log| {
        LogTells(run, events, n - 1, sha);
        Later(run, events, n - 1, w.log[sha].author, sha);
      } else {
        assert Accepted(w, e) && sha == |w.log|;
        assert run[n - 1 + 1].log[sha].author == e.d;
      }
    }
  }

  /** The device uploaded the version itself, or its user agreed to it. */
  ghost predicate Owned(run: seq<World>, events: seq<Event>, n: nat, d: nat, sha: Sha)
    requires n <= |events| < |run|
  {
    Uploaded(run, events, n, d, sha) || Agreed(run, events, n, d, sha)
  }

  lemma SeenIsOwned(run: seq<World>, events: seq<Event>, n: nat, d: nat, sha: Sha)
    requires IsRun(run, events) && n < |run| && d < |run[n].devices| && Seen(run[n].log, d, run[n].devices[d], sha)
    ensures Owned(run, events, n, d, sha)
  {
    RunTells(run, events, n, d);
    LogTells(run, events, n, sha);
  }

  /** An upload that is accepted replaces what its device had uploaded itself, or what its user had agreed to pull. */
  lemma OverwritesOnlyOwned(run: seq<World>, events: seq<Event>, n: nat)
    requires IsRun(run, events) && n < |events| && |run[n + 1].log| > |run[n].log|
    ensures var v := run[n + 1].log[|run[n].log|];
            && events[n].Puts? && v.author == events[n].d && v.base == Head(run[n].heads, v.target)
            && (v.base.Some? ==> Owned(run, events, n, v.author, v.base.value))
  {
    NoUnseenOverwrite(run, events, n);
    var v := run[n + 1].log[|run[n].log|];
    assert Enabled(run[n], events[n]);
    if v.base.Some? {
      SeenIsOwned(run, events, n, v.author, v.base.value);
    }
  }

  /** And every sha a device holds in a registration is of such a version. */
  lemma HoldsOnlyOwned(run: seq<World>, events: seq<Event>, n: nat, d: nat, o: nat)
    requires IsRun(run, events) && n < |run| && d < |run[n].devices| && o < |run[n].devices[d].objects|
    requires run[n].devices[d].objects[o].sha.Some?
    ensures Owned(run, events, n, d, run[n].devices[d].objects[o].sha.value)
  {
    HeldShasWereSeen(run, events, n, d, o);
    SeenIsOwned(run, events, n, d, run[n].devices[d].objects[o].sha.value);
  }

  // ---------------------------------------------------------------- which registration

  lemma NewTransfer(log: seq<Version>, heads: map<Target, Sha>, dev: Device, e: Event, j: Job)
    requires EnabledAt(log, dev, e) && j in DeviceAfter(log, heads, dev, e).jobs && j !in dev.jobs
    ensures j.Pushing? ==> e.StartsPush? && dev.current == Some(j.reg)
    ensures j.Pulling? ==> e.StartsPull? && dev.current == Some(j.reg)
  {
  }

  lemma StartedLater(run: seq<World>, events: seq<Event>, n: nat, d: nat, push: bool, reg: nat)
    requires n < |events| < |run|
    ensures StartedWith(run, events, n, d, push, reg) ==> StartedWith(run, events, n + 1, d, push, reg)
  {
  }

  lemma {:induction false} StartsInRun(run: seq<World>, events: seq<Event>, n: nat, d: nat)
    requires IsRun(run, events) && n < |run|
    ensures StartsTold(run, events, n, d)
  {
    if n > 0 {
      var w, e := run[n - 1], events[n - 1];
      StartsInRun(run, events, n - 1, d);
      assert Enabled(w, e) && run[n - 1 + 1] == After(w, e);
      if d < |run[n].devices| {
        forall j | j in run[n].devices[d].jobs && (j.Pushing? || j.Pulling?)
          ensures StartedWith(run, events, n, d, j.Pushing?, j.reg)
        {
          StartedLater(run, events, n - 1, d, j.Pushing?, j.reg);
          if j !in w.devices[d].jobs {
            NewTransfer(w.log, w.heads, w.devices[d], e, j);
          }
        }
      }
    }
  }

  lemma {:induction false} RegisteredByUser(run: seq<World>, events: seq<Event>, n: nat, d: nat, t: Target)
    requires IsRun(run, events) && n < |run| && d < |run[n].devices| && t in run[n].devices[d].registered
    ensures Registers(d, t) in events[..n]
  {
    if n > 0 {
      var w, e := run[n - 1], events[n - 1];
      assert Enabled(w, e) && run[n - 1 + 1] == After(w, e) && events[..n] == events[..n - 1] + [e];
      if t in w.devices[d].registered {
        RegisteredByUser(run, events, n - 1, d, t);
      } else {
        NewTarget(w.log, w.heads, w.devices[d], e, t);
      }
    }
  }

  lemma NewTarget(log: seq<Version>, heads: map<Target, Sha>, dev: Device, e: Event, t: Target)
    requires EnabledAt(log, dev, e) && t in DeviceAfter(log, heads, dev, e).registered && t !in dev.registered
    ensures e == Registers(e.d, t)
  {
  }

  /** Every version of every file was uploaded by a device whose user had submitted that very file there. */
  lemma UploadsOnlyRegistered(run: seq<World>, events: seq<Event>, n: nat, k: Sha)
    requires IsRun(run, events) && n < |run| && k < |run[n].log|
    ensures Registers(run[n].log[k].author, run[n].log[k].target) in events[..n]
  {
    OnlyOwnTargets(run, events, n, k);
    RegisteredByUser(run, events, n, run[n].log[k].author, run[n].log[k].target);
  }

  /** An accepted upload goes to the file that was registered when its user started the push. */
  lemma UploadsWhatWasStarted(run: seq<World>, events: seq<Event>, n: nat)
    requires IsRun(run, events) && n < |events| && |run[n + 1].log| > |run[n].log|
    ensures var e, v := events[n], run[n + 1].log[|run[n].log|];
            && e.Puts? && e.d < |run[n].devices|
            && exists reg :: 0 <= reg < |run[n].devices[e.d].objects| && run[n].devices[e.d].objects[reg].target == v.target
                             && StartedWith(run, events, n, e.d, true, reg)
  {
    var w, e := run[n], events[n];
    assert Enabled(w, e) && run[n + 1] == After(w, e) && Accepted(w, e);
    StartsInRun(run, events, n, e.d);
    var j := w.devices[e.d].jobs[e.i];
    assert j in w.devices[e.d].jobs;
    assert StartedWith(run, events, n, e.d, true, j.reg);
  }

  /** The present registration and the one in the vault change by these steps and in these ways only. */
  lemma RegistrationDecides(run: seq<World>, events: seq<Event>, n: nat)
    requires IsRun(run, events) && n < |events|
    ensures Enabled(run[n], events[n])
    ensures var dev' := run[n + 1].devices[events[n].d];
            && Refers(dev', dev'.current) && PresentIs(run[n], events[n], Present(dev')) && SavedIs(run[n], events[n], dev'.saved)
    ensures forall d | 0 <= d < |run[n].devices| && d != events[n].d :: run[n + 1].devices[d] == run[n].devices[d]
  {
    InvInEveryRun(run, events, n);
    PresentDecides(run[n], events[n]);
    SavedDecides(run[n], events[n]);
  }

  lemma PresentDecides(w: World, e: Event)
    requires Enabled(w, e) && Refers(w.devices[e.d], w.devices[e.d].current)
    ensures var dev' := After(w, e).devices[e.d]; Refers(dev', dev'.current) && PresentIs(w, e, Present(dev'))
  {
  }

  lemma SavedDecides(w: World, e: Event)
    requires Enabled(w, e)
    ensures SavedIs(w, e, After(w, e).devices[e.d].saved)
  {
  }

  // ---------------------------------------------------------------- single steps

  /** Only device d differs. */
  predicate OnDevice(w: World, d: nat, dev: Device, w': World) { d < |w.devices| && w' == w.(devices := w.devices[d := dev]) }

  /** Saying no drops the question and does nothing else. */
  lemma DeclineOnlyDrops(w: World, d: nat)
    requires Enabled(w, Declines(d))
    ensures OnDevice(w, d, w.devices[d].(offer := None), After(w, Declines(d)))
  {
  }

  /** A job that fails is over and leaves nothing behind. */
  lemma FailureEnds(w: World, d: nat, i: nat)
    requires Enabled(w, JobFails(d, i))
    ensures var dev := w.devices[d];
            OnDevice(w, d, dev.(jobs := dev.jobs[..i] + dev.jobs[i + 1..]), After(w, JobFails(d, i)))
  {
  }

  /** Saying yes starts replacing the list by the version asked about, and drops the question. */
  lemma ConfirmStarts(w: World, d: nat)
    requires Enabled(w, Confirms(d))
    ensures var dev, o := w.devices[d], w.devices[d].offer.value;
            OnDevice(w, d, dev.(offer := None, jobs := dev.jobs + [Applying(o.sha, o.captured)]), After(w, Confirms(d)))
  {
  }

  /** The question that a finished fetch puts is about the version it fetched, for the registration of the moment. */
  lemma FetchAsks(w: World, d: nat, i: nat)
    requires Enabled(w, FetchReturns(d, i))
    ensures var dev := w.devices[d];
            OnDevice(w, d, dev.(offer := Some(Offer(dev.jobs[i].sha, dev.current)), jobs := dev.jobs[..i] + dev.jobs[i + 1..]),
                     After(w, FetchReturns(d, i)))
  {
  }

  /** A fetch gets what the registration's file holds, or fails if it holds nothing. */
  lemma FetchGets(w: World, d: nat, i: nat)
    requires Enabled(w, Gets(d, i))
    ensures var dev := w.devices[d];
            var t := dev.objects[dev.jobs[i].reg].target;
            OnDevice(w, d, dev.(jobs := if t in w.heads then dev.jobs[i := Fetched(w.heads[t])] else dev.jobs[..i] + dev.jobs[i + 1..]),
                     After(w, Gets(d, i)))
  {
  }

  /**
   * An upload adds a version exactly if the file holds what the registration
   * says it does, the very version or none; only then may there be an answer.
   */
  lemma UploadDecides(w: World, d: nat, i: nat, inner: Option<Registration>, answered: bool)
    requires Enabled(w, Puts(d, i, inner, answered))
    ensures var dev, w' := w.devices[d], After(w, Puts(d, i, inner, answered));
            var r := dev.objects[dev.jobs[i].reg];
            if Head(w.heads, r.target) == r.sha then
              && w'.log == w.log + [Version(r.target, d, r.sha, inner)] && w'.heads == w.heads[r.target := |w.log|]
              && w'.devices == w.devices[d := dev.(jobs := if answered then dev.jobs[i := Pushed(|w.log|)]
                                                          else dev.jobs[..i] + dev.jobs[i + 1..])]
            else OnDevice(w, d, dev.(jobs := dev.jobs[..i] + dev.jobs[i + 1..]), w')
  {
  }
}

/**
 * What holds of every run of SyncModel: nothing is overwritten unseen, each
 * file's versions are one chain, and no device takes over another's registration.
 */
module SyncSafety {
  import opened Options
  import opened Basics
  import opened SyncModel

  // ---------------------------------------------------------------- one device's step

  lemma DropOk(log: seq<Version>, d: nat, dev: Device, i: nat)
    requires DeviceOk(log, d, dev) && i < |dev.jobs|
    ensures DeviceOk(log, d, dev.(jobs := Without(dev.jobs, i)))
  {
    var dev' := dev.(jobs := Without(dev.jobs, i));
    forall k | 0 <= k < |dev'.jobs| ensures JobOk(log, d, dev', dev'.jobs[k]) {
      JobStaysOk(log, log, d, dev, dev', dev.jobs[if k < i then k else k + 1]);
    }
  }

  lemma JobSetOk(log: seq<Version>, d: nat, dev: Device, i: nat, j: Job)
    requires DeviceOk(log, d, dev) && i < |dev.jobs| && JobOk(log, d, dev, j)
    ensures DeviceOk(log, d, dev.(jobs := dev.jobs[i := j]))
  {
    var dev' := dev.(jobs := dev.jobs[i := j]);
    forall k | 0 <= k < |dev'.jobs| ensures JobOk(log, d, dev', dev'.jobs[k]) {
      JobStaysOk(log, log, d, dev, dev', dev'.jobs[k]);
    }
  }

  lemma WithJobOk(log: seq<Version>, d: nat, dev: Device, j: Job)
    requires DeviceOk(log, d, dev) && JobOk(log, d, dev, j)
    ensures DeviceOk(log, d, WithJob(dev, j))
  {
    var dev' := WithJob(dev, j);
    forall k | 0 <= k < |dev'.jobs| ensures JobOk(log, d, dev', dev'.jobs[k]) {
      JobStaysOk(log, log, d, dev, dev', dev'.jobs[k]);
    }
  }

  lemma WithCurrentOk(log: seq<Version>, d: nat, dev: Device, r: Registration)
    requires DeviceOk(log, d, dev) && RegOk(log, d, dev, r)
    ensures DeviceOk(log, d, WithCurrent(dev, r))
  {
    var dev' := WithCurrent(dev, r);
    forall k | 0 <= k < |dev'.jobs| ensures JobOk(log, d, dev', dev'.jobs[k]) {
      JobStaysOk(log, log, d, dev, dev', dev.jobs[k]);
    }
  }

  /** More registered or pulled, nothing else: still as good. */
  lemma GrownOk(log: seq<Version>, d: nat, dev: Device, registered: set<Target>, pulled: set<Sha>)
    requires DeviceOk(log, d, dev) && dev.registered <= registered && dev.pulled <= pulled
    ensures DeviceOk(log, d, dev.(registered := registered, pulled := pulled))
  {
    var dev' := dev.(registered := registered, pulled := pulled);
    forall k | 0 <= k < |dev'.jobs| ensures JobOk(log, d, dev', dev'.jobs[k]) {
      JobStaysOk(log, log, d, dev, dev', dev.jobs[k]);
    }
  }

  lemma CheckedOk(log: seq<Version>, d: nat, dev: Device, i: nat)
    requires DeviceOk(log, d, dev) && i < |dev.jobs| && dev.jobs[i].Checking?
    ensures DeviceOk(log, d, Checked(dev.(jobs := Without(dev.jobs, i)), dev.jobs[i].target))
  {
    assert JobOk(log, d, dev, dev.jobs[i]);
    DropOk(log, d, dev, i);
    var dropped, t := dev.(jobs := Without(dev.jobs, i)), dev.jobs[i].target;
    var keep := if dev.current.Some? && dev.objects[dev.current.value].target.file == t.file
                then dev.objects[dev.current.value].sha else None;
    WithCurrentOk(log, d, dropped, Registration(t, keep));
  }

  lemma PushedOk(log: seq<Version>, d: nat, dev: Device, sha: Sha)
    requires DeviceOk(log, d, dev) && Seen(log, d, dev, sha)
    ensures DeviceOk(log, d, PushedMsg(dev, sha))
  {
    var dev' := PushedMsg(dev, sha);
    forall k | 0 <= k < |dev'.jobs| ensures JobOk(log, d, dev', dev'.jobs[k]) {
      JobStaysOk(log, log, d, dev, dev', dev.jobs[k]);
    }
  }

  lemma AppliesOk(log: seq<Version>, d: nat, dev: Device, i: nat)
    requires DeviceOk(log, d, dev) && i < |dev.jobs| && dev.jobs[i].Applying? && dev.jobs[i].sha < |log|
    requires Refers(dev, dev.jobs[i].captured)
    ensures var r := Result(dev.objects, dev.jobs[i].captured, dev.jobs[i].sha, log[dev.jobs[i].sha].inner);
            DeviceOk(log, d, dev.(jobs := dev.jobs[i := Applied(r)], saved := r, pulled := dev.pulled + {dev.jobs[i].sha}))
  {
    var j := dev.jobs[i];
    assert JobOk(log, d, dev, j);
    var r := Registration(dev.objects[j.captured.value].target, Some(j.sha));
    var grown := dev.(pulled := dev.pulled + {j.sha});
    GrownOk(log, d, dev, dev.registered, dev.pulled + {j.sha});
    assert RegOk(log, d, dev, dev.objects[j.captured.value]);
    JobSetOk(log, d, grown, i, Applied(Some(r)));
    SavedOk(log, d, grown.(jobs := dev.jobs[i := Applied(Some(r))]), r);
  }

  lemma SavedOk(log: seq<Version>, d: nat, dev: Device, r: Registration)
    requires DeviceOk(log, d, dev) && RegOk(log, d, dev, r)
    ensures DeviceOk(log, d, dev.(saved := Some(r)))
  {
    var dev' := dev.(saved := Some(r));
    forall k | 0 <= k < |dev'.jobs| ensures JobOk(log, d, dev', dev'.jobs[k]) {
      JobStaysOk(log, log, d, dev, dev', dev.jobs[k]);
    }
  }

  lemma OfferOk(log: seq<Version>, d: nat, dev: Device, offer: Option<Offer>)
    requires DeviceOk(log, d, dev)
    requires offer.Some? ==> offer.value.sha < |log| && offer.value.captured.Some? && Refers(dev, offer.value.captured)
    ensures DeviceOk(log, d, dev.(offer := offer))
  {
    var dev' := dev.(offer := offer);
    forall k | 0 <= k < |dev'.jobs| ensures JobOk(log, d, dev', dev'.jobs[k]) {
      JobStaysOk(log, log, d, dev, dev', dev.jobs[k]);
    }
  }

  /** Every step but an upload. */
  lemma DeviceKept(log: seq<Version>, heads: map<Target, Sha>, d: nat, dev: Device, e: Event)
    requires DeviceOk(log, d, dev) && EnabledAt(log, dev, e) && !e.Puts?
    requires forall t | t in heads :: heads[t] < |log|
    ensures DeviceOk(log, d, DeviceAfter(log, heads, dev, e))
  {
    match e
    case Registers(_, t) =>
      GrownOk(log, d, dev, dev.registered + {t}, dev.pulled);
      WithJobOk(log, d, dev.(registered := dev.registered + {t}), Checking(t));
    case CheckPasses(_, i) =>
      CheckedOk(log, d, dev, i);
      PersistingOk(log, d, Checked(dev.(jobs := Without(dev.jobs, i)), dev.jobs[i].target));
    case StartsPush(_) =>
      WithJobOk(log, d, dev, Pushing(dev.current.value));
    case PushReturns(_, i) =>
      assert JobOk(log, d, dev, dev.jobs[i]);
      DropOk(log, d, dev, i);
      PushedOk(log, d, dev.(jobs := Without(dev.jobs, i)), dev.jobs[i].sha);
      PersistingOk(log, d, PushedMsg(dev.(jobs := Without(dev.jobs, i)), dev.jobs[i].sha));
    case StartsPull(_) =>
      WithJobOk(log, d, dev, Pulling(dev.current.value));
    case Gets(_, i) =>
      assert JobOk(log, d, dev, dev.jobs[i]);
      DropOk(log, d, dev, i);
      var t := dev.objects[dev.jobs[i].reg].target;
      if t in heads {
        JobSetOk(log, d, dev, i, Fetched(heads[t]));
      }
    case FetchReturns(_, i) =>
      assert JobOk(log, d, dev, dev.jobs[i]);
      DropOk(log, d, dev, i);
      OfferOk(log, d, dev.(jobs := Without(dev.jobs, i)), Some(Offer(dev.jobs[i].sha, dev.current)));
    case Confirms(_) =>
      WithJobOk(log, d, dev, Applying(dev.offer.value.sha, dev.offer.value.captured));
      OfferOk(log, d, WithJob(dev, Applying(dev.offer.value.sha, dev.offer.value.captured)), None);
    case Declines(_) =>
      OfferOk(log, d, dev, None);
    case Applies(_, i) =>
      AppliesOk(log, d, dev, i);
    case ApplyReturns(_, i) =>
      assert JobOk(log, d, dev, dev.jobs[i]);
      DropOk(log, d, dev, i);
      WithCurrentOk(log, d, dev.(jobs := Without(dev.jobs, i)), dev.jobs[i].result.value);
    case JobFails(_, i) =>
      DropOk(log, d, dev, i);
    case StartsSave(_) =>
      PersistingOk(log, d, dev);
    case Saves(_, i) =>
      DropOk(log, d, dev, i);
      if dev.jobs[i].captured.Some? {
        SavedOk(log, d, dev.(jobs := Without(dev.jobs, i)), dev.objects[dev.jobs[i].captured.value]);
      } else {
        UnsavedOk(log, d, dev.(jobs := Without(dev.jobs, i)));
      }
    case Restarts(_) =>
  }

  lemma PersistingOk(log: seq<Version>, d: nat, dev: Device)
    requires DeviceOk(log, d, dev)
    ensures DeviceOk(log, d, Persisting(dev))
  {
    WithJobOk(log, d, dev, Saving(dev.current));
  }

  lemma UnsavedOk(log: seq<Version>, d: nat, dev: Device)
    requires DeviceOk(log, d, dev)
    ensures DeviceOk(log, d, dev.(saved := None))
  {
    var dev' := dev.(saved := None);
    forall k | 0 <= k < |dev'.jobs| ensures JobOk(log, d, dev', dev'.jobs[k]) {
      JobStaysOk(log, log, d, dev, dev', dev.jobs[k]);
    }
  }

  /** An upload, accepted or not. */
  lemma UploaderKept(w: World, e: Event)
    requires Enabled(w, e) && e.Puts? && DeviceOk(w.log, e.d, w.devices[e.d])
    ensures DeviceOk(After(w, e).log, e.d, After(w, e).devices[e.d])
  {
    var dev, log' := w.devices[e.d], After(w, e).log;
    DropOk(w.log, e.d, dev, e.i);
    DeviceStaysOk(w.log, log', e.d, dev);
    DeviceStaysOk(w.log, log', e.d, dev.(jobs := Without(dev.jobs, e.i)));
    if Accepted(w, e) && e.answered {
      JobSetOk(log', e.d, dev, e.i, Pushed(|w.log|));
    }
  }

  // ---------------------------------------------------------------- the files

  predicate HeadsOk(log: seq<Version>, heads: map<Target, Sha>) {
    && (forall t | t in heads :: heads[t] < |log| && log[heads[t]].target == t)
    && (forall k | 0 <= k < |log| :: log[k].target in heads)
  }

  /** A version replaces an earlier one of its own file, or is the file's first. */
  predicate BasesOk(log: seq<Version>) {
    forall k | 0 <= k < |log| && log[k].base.Some? ::
      log[k].base.value < k && log[log[k].base.value].target == log[k].target
  }

  /** No version is replaced twice, and no file begun twice. */
  predicate NoForks(log: seq<Version>) {
    forall j, k | 0 <= j < k < |log| && log[j].target == log[k].target :: log[j].base != log[k].base
  }

  /** The present version of a file has not been replaced. */
  predicate HeadsLast(log: seq<Version>, heads: map<Target, Sha>)
    requires HeadsOk(log, heads)
  {
    forall k | 0 <= k < |log| :: log[k].base != Some(heads[log[k].target])
  }

  predicate HasNext(log: seq<Version>, j: Sha) { exists k | 0 <= k < |log| :: log[k].base == Some(j) }

  /** Every other version has. */
  predicate RestReplaced(log: seq<Version>, heads: map<Target, Sha>)
    requires HeadsOk(log, heads)
  {
    forall j | 0 <= j < |log| && j != heads[log[j].target] :: HasNext(log, j)
  }

  predicate ChainOk(log: seq<Version>, heads: map<Target, Sha>) {
    HeadsOk(log, heads) && BasesOk(log) && NoForks(log) && HeadsLast(log, heads) && RestReplaced(log, heads)
  }

  lemma HeadsGrow(log: seq<Version>, heads: map<Target, Sha>, v: Version)
    requires HeadsOk(log, heads) && BasesOk(log) && v.base == Head(heads, v.target)
    ensures HeadsOk(log + [v], heads[v.target := |log|]) && BasesOk(log + [v])
  {
  }

  lemma ForksGrow(log: seq<Version>, heads: map<Target, Sha>, v: Version)
    requires HeadsOk(log, heads) && NoForks(log) && HeadsLast(log, heads) && v.base == Head(heads, v.target)
    ensures NoForks(log + [v])
  {
    forall k | 0 <= k < |log| && log[k].target == v.target ensures log[k].base != v.base {
      assert log[k].target in heads;
    }
  }

  lemma LastGrow(log: seq<Version>, heads: map<Target, Sha>, v: Version)
    requires HeadsOk(log, heads) && BasesOk(log) && HeadsLast(log, heads) && v.base == Head(heads, v.target)
    requires HeadsOk(log + [v], heads[v.target := |log|])
    ensures HeadsLast(log + [v], heads[v.target := |log|])
  {
  }

  lemma NextStays(log: seq<Version>, v: Version, j: Sha)
    ensures HasNext(log, j) || v.base == Some(j) ==> HasNext(log + [v], j)
  {
    if HasNext(log, j) {
      var k :| 0 <= k < |log| && log[k].base == Some(j);
      assert (log + [v])[k].base == Some(j);
    }
    assert (log + [v])[|log|] == v;
  }

  lemma RestGrow(log: seq<Version>, heads: map<Target, Sha>, v: Version)
    requires HeadsOk(log, heads) && RestReplaced(log, heads) && v.base == Head(heads, v.target)
    requires HeadsOk(log + [v], heads[v.target := |log|])
    ensures RestReplaced(log + [v], heads[v.target := |log|])
  {
    var log', heads' := log + [v], heads[v.target := |log|];
    forall j | 0 <= j < |log'| && j != heads'[log'[j].target] ensures HasNext(log', j) {
      assert log'[j] == log[j];
      NextStays(log, v, j);
    }
  }

  lemma ChainGrows(log: seq<Version>, heads: map<Target, Sha>, v: Version)
    requires ChainOk(log, heads) && v.base == Head(heads, v.target)
    ensures ChainOk(log + [v], heads[v.target := |log|])
  {
    HeadsGrow(log, heads, v);
    ForksGrow(log, heads, v);
    LastGrow(log, heads, v);
    RestGrow(log, heads, v);
  }

  /** Who made the k-th version had registered its file and seen the version it replaced. */
  predicate BaseSeen(log: seq<Version>, devices: seq<Device>, k: Sha)
    requires k < |log|
  {
    var v := log[k];
    && v.author < |devices| && v.target in devices[v.author].registered
    && (v.base.Some? ==> Seen(log, v.author, devices[v.author], v.base.value))
  }

  predicate BasesSeen(w: World) { forall k | 0 <= k < |w.log| :: BaseSeen(w.log, w.devices, k) }

  ghost predicate Inv(w: World) {
    && ChainOk(w.log, w.heads)
    && BasesSeen(w)
    && (forall d | 0 <= d < |w.devices| :: DeviceOk(w.log, d, w.devices[d]))
  }

  lemma BaseStaysSeen(log: seq<Version>, devices: seq<Device>, log': seq<Version>, devices': seq<Device>, k: Sha)
    requires k < |log| && BaseSeen(log, devices, k) && log <= log' && |devices| == |devices'|
    requires var d := log[k].author;
             devices[d].registered <= devices'[d].registered && devices[d].pulled <= devices'[d].pulled
    ensures BaseSeen(log', devices', k)
  {
  }

  /** Whoever uploads has seen what the upload replaces. */
  lemma NewBaseSeen(w: World, e: Event)
    requires Enabled(w, e) && Accepted(w, e) && DeviceOk(w.log, e.d, w.devices[e.d])
    ensures BaseSeen(After(w, e).log, After(w, e).devices, |w.log|)
  {
    var dev := w.devices[e.d];
    var r := dev.objects[dev.jobs[e.i].reg];
    assert RegOk(w.log, e.d, dev, r);
    DeviceOnlyGrows(w.log, w.heads, dev, e);
    assert After(w, e).log == w.log + [Version(r.target, e.d, r.sha, e.inner)];
  }

  lemma BasesKept(w: World, e: Event)
    requires BasesSeen(w) && Enabled(w, e) && DeviceOk(w.log, e.d, w.devices[e.d])
    ensures BasesSeen(After(w, e))
  {
    var w' := After(w, e);
    DeviceOnlyGrows(w.log, w.heads, w.devices[e.d], e);
    forall k | 0 <= k < |w'.log| ensures BaseSeen(w'.log, w'.devices, k) {
      if k < |w.log| {
        BaseStaysSeen(w.log, w.devices, w'.log, w'.devices, k);
      } else {
        NewBaseSeen(w, e);
      }
    }
  }

  /** A device never forgets what it registered or pulled. */
  lemma DeviceOnlyGrows(log: seq<Version>, heads: map<Target, Sha>, dev: Device, e: Event)
    requires EnabledAt(log, dev, e)
    ensures dev.registered <= DeviceAfter(log, heads, dev, e).registered
    ensures dev.pulled <= DeviceAfter(log, heads, dev, e).pulled
  {
  }

  lemma InvKept(w: World, e: Event)
    requires Inv(w) && Enabled(w, e)
    ensures Inv(After(w, e))
  {
    var w' := After(w, e);
    assert DeviceOk(w.log, e.d, w.devices[e.d]);
    BasesKept(w, e);
    if Accepted(w, e) {
      ChainGrows(w.log, w.heads, w'.log[|w.log|]);
    }
    forall d | 0 <= d < |w'.devices| ensures DeviceOk(w'.log, d, w'.devices[d]) {
      if d != e.d {
        DeviceStaysOk(w.log, w'.log, d, w.devices[d]);
      } else if e.Puts? {
        UploaderKept(w, e);
      } else {
        DeviceKept(w.log, w.heads, d, w.devices[d], e);
      }
    }
  }

  // ---------------------------------------------------------------- runs

  const NEW_DEVICE := Device([], None, [], None, None, {}, {})

  /** Any number of devices, nothing uploaded yet. */
  predicate Starting(w: World) {
    w.log == [] && w.heads == map[] && forall d | 0 <= d < |w.devices| :: w.devices[d] == NEW_DEVICE
  }

  ghost predicate IsRun(run: seq<World>, events: seq<Event>) {
    && |run| == |events| + 1 && Starting(run[0])
    && forall i | 0 <= i < |events| :: Enabled(run[i], events[i]) && run[i + 1] == After(run[i], events[i])
  }

  lemma {:induction false} InvInEveryRun(run: seq<World>, events: seq<Event>, i: nat)
    requires IsRun(run, events) && i < |run|
    ensures Inv(run[i])
  {
    if i > 0 {
      InvInEveryRun(run, events, i - 1);
      InvKept(run[i - 1], events[i - 1]);
    }
  }

  /** An accepted upload replaces the file's present version, which the device made itself or its user had pulled. */
  lemma NoUnseenOverwrite(run: seq<World>, events: seq<Event>, i: nat)
    requires IsRun(run, events) && i < |events| && run[i + 1].log != run[i].log
    ensures events[i].Puts? && |run[i + 1].log| == |run[i].log| + 1 && run[i].log <= run[i + 1].log
    ensures var v := run[i + 1].log[|run[i].log|];
            && v.author == events[i].d && v.base == Head(run[i].heads, v.target)
            && (v.base.Some? ==> Seen(run[i].log, v.author, run[i].devices[v.author], v.base.value))
  {
    InvInEveryRun(run, events, i);
    var w, e := run[i], events[i];
    assert run[i + 1] == After(w, e);
    if Accepted(w, e) {
      assert DeviceOk(w.log, e.d, w.devices[e.d]);
      assert RegOk(w.log, e.d, w.devices[e.d], w.devices[e.d].objects[w.devices[e.d].jobs[e.i].reg]);
    }
  }

  /** The versions of each file are one chain, from its first to the one it holds. */
  lemma OneChainEach(run: seq<World>, events: seq<Event>, i: nat)
    requires IsRun(run, events) && i < |run|
    ensures ChainOk(run[i].log, run[i].heads)
  {
    InvInEveryRun(run, events, i);
  }

  /** A device uploads only to what its own user registered on it. */
  lemma OnlyOwnTargets(run: seq<World>, events: seq<Event>, i: nat, k: Sha)
    requires IsRun(run, events) && i < |run| && k < |run[i].log|
    ensures var v := run[i].log[k];
            v.author < |run[i].devices| && v.target in run[i].devices[v.author].registered
  {
    InvInEveryRun(run, events, i);
    assert BaseSeen(run[i].log, run[i].devices, k);
  }

  /** Whatever registration a pulled bundle carries, the device keeps its own target, with the sha of what it pulled. */
  lemma InnerIsNeverAdopted(run: seq<World>, events: seq<Event>, i: nat)
    requires IsRun(run, events) && i < |events| && events[i].Applies?
    ensures var dev, dev' := run[i].devices[events[i].d], run[i + 1].devices[events[i].d];
            var j := dev.jobs[events[i].i];
            && j.captured.Some? && j.captured.value < |dev.objects|
            && dev'.saved == Some(Registration(dev.objects[j.captured.value].target, Some(j.sha)))
            && dev'.jobs[events[i].i] == Applied(dev'.saved)
            && dev'.pulled == dev.pulled + {j.sha}
  {
    InvInEveryRun(run, events, i);
    var dev := run[i].devices[events[i].d];
    assert DeviceOk(run[i].log, events[i].d, dev);
    assert JobOk(run[i].log, events[i].d, dev, dev.jobs[events[i].i]);
  }

  /** Every sha a device holds is of a version it made or its user pulled. */
  lemma HeldShasWereSeen(run: seq<World>, events: seq<Event>, i: nat, d: nat, o: nat)
    requires IsRun(run, events) && i < |run| && d < |run[i].devices| && o < |run[i].devices[d].objects|
    ensures var r := run[i].devices[d].objects[o];
            r.sha.Some? ==> Seen(run[i].log, d, run[i].devices[d], r.sha.value)
  {
    InvInEveryRun(run, events, i);
    assert DeviceOk(run[i].log, d, run[i].devices[d]);
  }

  // ---------------------------------------------------------------- a lock for another file

  /** A sha for a file that has no version at all. */
  predicate Mislocked(heads: map<Target, Sha>, r: Registration) { r.sha.Some? && r.target !in heads }

  function Present(dev: Device): Option<Registration>
    requires Refers(dev, dev.current)
  {
    if dev.current.Some? then Some(dev.objects[dev.current.value]) else None
  }

  /** The present registration is locked to something its file never held. */
  predicate Stranded(w: World, d: nat) {
    && d < |w.devices| && Refers(w.devices[d], w.devices[d].current)
    && var r := Present(w.devices[d]); r.Some? && Mislocked(w.heads, r.value)
  }

  /** The steps that change which registration is present, or its sha. */
  predicate Reregisters(e: Event) { e.PushReturns? || e.ApplyReturns? || e.CheckPasses? || e.Restarts? }

  /** Whether such a step ends stranded, told from what it starts from. */
  predicate Strands(heads: map<Target, Sha>, dev: Device, e: Event)
    requires Reregisters(e) && Refers(dev, dev.current) && (!e.Restarts? ==> IsJob(dev, e.i))
    requires e.ApplyReturns? ==> dev.jobs[e.i].Applied?
    requires e.CheckPasses? ==> dev.jobs[e.i].Checking?
  {
    match e
    // an upload's answer: the file registered by now holds nothing
    case PushReturns(_, _) => Present(dev).Some? && Present(dev).value.target !in heads
    // a pull's end: the registration it captured names another file than was pulled, and that holds nothing
    case ApplyReturns(_, i) => dev.jobs[i].result.Some? && Mislocked(heads, dev.jobs[i].result.value)
    // the same file on another branch, and that holds nothing; the sha is kept (only a vault edited by hand names a branch)
    case CheckPasses(_, i) =>
      && Present(dev).Some? && Present(dev).value.sha.Some?
      && Present(dev).value.target.file == dev.jobs[i].target.file && dev.jobs[i].target !in heads
    // what was saved last was stranded
    case Restarts(_) => dev.saved.Some? && Mislocked(heads, dev.saved.value)
    case _ => false
  }

  /** The file of this registration gets a version. */
  predicate GetsVersion(w: World, e: Event, r: Option<Registration>) {
    && Enabled(w, e) && Accepted(w, e) && r.Some?
    && r.value.target == w.devices[e.d].objects[w.devices[e.d].jobs[e.i].reg].target
  }

  lemma OwnStep(log: seq<Version>, heads: map<Target, Sha>, dev: Device, e: Event)
    requires EnabledAt(log, dev, e)
    ensures var dev' := DeviceAfter(log, heads, dev, e);
            && Refers(dev', dev'.current)
            && (if Reregisters(e) then (Present(dev').Some? && Mislocked(heads, Present(dev').value)) <==> Strands(heads, dev, e)
                else Present(dev') == Present(dev))
  {
  }

  lemma HeadsAfter(w: World, e: Event, t: Target)
    requires Enabled(w, e)
    ensures t in After(w, e).heads <==>
            t in w.heads || (Accepted(w, e) && t == w.devices[e.d].objects[w.devices[e.d].jobs[e.i].reg].target)
  {
  }

  lemma OwnStranded(w: World, e: Event)
    requires Enabled(w, e)
    ensures Stranded(After(w, e), e.d) <==>
            if Reregisters(e) then Strands(w.heads, w.devices[e.d], e)
            else Stranded(w, e.d) && !GetsVersion(w, e, Present(w.devices[e.d]))
  {
    OwnStep(w.log, w.heads, w.devices[e.d], e);
    var dev' := DeviceAfter(w.log, w.heads, w.devices[e.d], e);
    assert After(w, e).devices[e.d] == dev';
    if Present(dev').Some? {
      HeadsAfter(w, e, Present(dev').value.target);
    }
  }

  lemma OtherStranded(w: World, e: Event, d: nat)
    requires Enabled(w, e) && d < |w.devices| && e.d != d && Refers(w.devices[d], w.devices[d].current)
    ensures Stranded(After(w, e), d) <==> Stranded(w, d) && !GetsVersion(w, e, Present(w.devices[d]))
  {
    assert After(w, e).devices[d] == w.devices[d];
    if Present(w.devices[d]).Some? {
      HeadsAfter(w, e, Present(w.devices[d]).value.target);
    }
  }

  /**
   * Exactly when a device is stranded after a step: its own step to another
   * registration or sha strands it, or it was stranded and neither such a step
   * was taken nor its file got a version.
   */
  lemma StrandedWhen(w: World, e: Event, d: nat)
    requires Inv(w) && Enabled(w, e) && d < |w.devices|
    ensures Refers(w.devices[d], w.devices[d].current)
    ensures Stranded(After(w, e), d) <==>
            if e.d == d && Reregisters(e) then Strands(w.heads, w.devices[d], e)
            else Stranded(w, d) && !GetsVersion(w, e, Present(w.devices[d]))
  {
    assert DeviceOk(w.log, d, w.devices[d]);
    if e.d == d {
      OwnStranded(w, e);
    } else {
      OtherStranded(w, e, d);
    }
  }

  /** The step gives device d another registration, or another sha, that does not strand it, or its file a version. */
  predicate Frees(w: World, e: Event, d: nat) {
    && Enabled(w, e) && d < |w.devices| && Refers(w.devices[d], w.devices[d].current)
    && if e.d == d && Reregisters(e) then !Strands(w.heads, w.devices[d], e) else GetsVersion(w, e, Present(w.devices[d]))
  }

  lemma StaysStranded(w: World, e: Event, d: nat)
    requires Inv(w) && Enabled(w, e) && Stranded(w, d)
    ensures Stranded(After(w, e), d) <==> !Frees(w, e, d)
  {
    StrandedWhen(w, e, d);
  }

  /** Over any run: stranded until another registration comes that is not, or the file gets a version. */
  lemma {:induction false} StrandedUntilFreed(run: seq<World>, events: seq<Event>, i: nat, j: nat, d: nat)
    requires IsRun(run, events) && i <= j < |run| && Stranded(run[i], d)
    requires forall k | i <= k < j :: !Frees(run[k], events[k], d)
    ensures Stranded(run[j], d)
    decreases j
  {
    if i < j {
      StrandedUntilFreed(run, events, i, j - 1, d);
      InvInEveryRun(run, events, j - 1);
      StaysStranded(run[j - 1], events[j - 1], d);
    }
  }

  /** Meanwhile no upload under the present registration is accepted, and no pull of it finds anything. */
  lemma StrandedIsStuck(w: World, e: Event)
    requires Enabled(w, e) && Stranded(w, e.d)
    requires e.Puts? || e.Gets?
    requires w.devices[e.d].jobs[e.i].reg == w.devices[e.d].current.value
    ensures After(w, e).log == w.log && After(w, e).heads == w.heads
    ensures After(w, e).devices[e.d].jobs == Without(w.devices[e.d].jobs, e.i)
  {
  }
}

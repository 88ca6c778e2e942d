/** What the events of a run say a device's user did. */
module SyncEvents {
  import opened Options
  import opened SyncModel
  import opened SyncSafety

  /** A pull of device d found a file holding this version, by step n. */
  ghost predicate Got(run: seq<World>, events: seq<Event>, n: nat, d: nat, sha: Sha)
    requires n <= |events| < |run|
  {
    exists k :: 0 <= k < n && events[k].Gets? && events[k].d == d && sha in run[k].heads.Values
  }

  /** Asked about this version, fetched by a pull of its own, d's user said yes, by step n. */
  ghost predicate Agreed(run: seq<World>, events: seq<Event>, n: nat, d: nat, sha: Sha)
    requires n <= |events| < |run|
  {
    exists k :: 0 <= k < n && events[k] == Confirms(d) && IsOffered(run[k], d, sha) && Got(run, events, k, d, sha)
  }

  predicate IsOffered(w: World, d: nat, sha: Sha) {
    d < |w.devices| && w.devices[d].offer.Some? && w.devices[d].offer.value.sha == sha
  }

  /** The version is the one an upload of d's added, by step n. */
  ghost predicate Uploaded(run: seq<World>, events: seq<Event>, n: nat, d: nat, sha: Sha)
    requires n <= |events| < |run|
  {
    exists k :: 0 <= k < n && events[k].Puts? && events[k].d == d && |run[k].log| == sha && |run[k + 1].log| == sha + 1
  }

  /** What a device holds of others' versions goes back to a yes of its user's, and what it has fetched to a pull. */
  ghost predicate Told(run: seq<World>, events: seq<Event>, n: nat, d: nat)
    requires n <= |events| < |run|
  {
    d < |run[n].devices| ==>
      var dev := run[n].devices[d];
      && (forall sha | sha in dev.pulled :: Agreed(run, events, n, d, sha))
      && (forall j | j in dev.jobs && j.Applying? :: Agreed(run, events, n, d, j.sha))
      && (forall j | j in dev.jobs && j.Fetched? :: Got(run, events, n, d, j.sha))
      && (dev.offer.Some? ==> Got(run, events, n, d, dev.offer.value.sha))
  }

  /** d's user started a push, or a pull, when this registration object was the present one. */
  ghost predicate StartedWith(run: seq<World>, events: seq<Event>, n: nat, d: nat, push: bool, reg: nat)
    requires n <= |events| < |run|
  {
    exists k :: 0 <= k < n && events[k] == (if push then StartsPush(d) else StartsPull(d))
                && d < |run[k].devices| && run[k].devices[d].current == Some(reg)
  }

  /** Every upload and every fetch on its way is of the registration it was started with. */
  ghost predicate StartsTold(run: seq<World>, events: seq<Event>, n: nat, d: nat)
    requires n <= |events| < |run|
  {
    d < |run[n].devices| ==>
      && (forall j | j in run[n].devices[d].jobs && j.Pushing? :: StartedWith(run, events, n, d, true, j.reg))
      && (forall j | j in run[n].devices[d].jobs && j.Pulling? :: StartedWith(run, events, n, d, false, j.reg))
  }

  /** What is registered after a step: another registration, another sha, or what was. */
  predicate PresentIs(w: World, e: Event, r: Option<Registration>)
    requires Enabled(w, e)
  {
    var dev := w.devices[e.d];
    match e
    case CheckPasses(_, i) =>
      var t, was := dev.jobs[i].target, Present(dev);
      r == Some(Registration(t, if was.Some? && was.value.target.file == t.file then was.value.sha else None))
    case PushReturns(_, i) =>
      r == if Present(dev).None? then None else Some(Registration(Present(dev).value.target, Some(dev.jobs[i].sha)))
    case ApplyReturns(_, i) => r == dev.jobs[i].result
    case Restarts(_) => r == dev.saved
    case _ => r == Present(dev)
  }

  /** What the vault holds after a step: what a finished save found then in the registration it was for, or what a pull left. */
  predicate SavedIs(w: World, e: Event, r: Option<Registration>)
    requires Enabled(w, e)
  {
    var dev := w.devices[e.d];
    match e
    case Saves(_, i) => r == if dev.jobs[i].captured.Some? then Some(dev.objects[dev.jobs[i].captured.value]) else None
    case Applies(_, i) =>
      var c := dev.jobs[i].captured;
      r == if c.Some? then Some(Registration(dev.objects[c.value].target, Some(dev.jobs[i].sha))) else w.log[dev.jobs[i].sha].inner
    case _ => r == dev.saved
  }
}

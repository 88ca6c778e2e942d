/**
 * Any number of devices sharing bundles through files that are replaced only
 * under the sha of what they hold (internal/ui/sync.go, the sync messages in
 * internal/ui/app.go, internal/sync/github.go).
 */
module SyncModel {
  import opened Options
  import opened Basics

  /** Owner, repository and path make the file; the branch does not count when a registration is compared. */
  datatype Target = Target(file: string, branch: string)

  /** Every upload gets a sha of its own: its number in the log. */
  type Sha = nat

  datatype Registration = Registration(target: Target, sha: Option<Sha>)

  /** One accepted upload; `inner` is the registration sealed inside the bundle. */
  datatype Version = Version(target: Target, author: nat, base: Option<Sha>, inner: Option<Registration>)

  /** What runs outside the program, or came back and is not handled yet. */
  datatype Job =
    | Checking(target: Target)
    | Pushing(reg: nat)
    | Pushed(sha: Sha)
    | Pulling(reg: nat)
    | Fetched(sha: Sha)
    | Applying(sha: Sha, captured: Option<nat>)
    | Applied(result: Option<Registration>)
    | Saving(captured: Option<nat>)

  /** The question before a pull replaces anything, with the registration of the moment it was put. */
  datatype Offer = Offer(sha: Sha, captured: Option<nat>)

  /**
   * Registrations are objects, and commands hold on to the one they started
   * with. `saved` is the one in the vault; `registered` every target the user
   * submitted here; `pulled` every version the user agreed to replace the list with.
   */
  datatype Device = Device(
    objects: seq<Registration>, current: Option<nat>, jobs: seq<Job>, offer: Option<Offer>,
    saved: Option<Registration>, registered: set<Target>, pulled: set<Sha>)

  datatype World = World(log: seq<Version>, heads: map<Target, Sha>, devices: seq<Device>)

  datatype Event =
    | Registers(d: nat, target: Target)
    | CheckPasses(d: nat, i: nat)
    | StartsPush(d: nat)
    | Puts(d: nat, i: nat, inner: Option<Registration>, answered: bool)
    | PushReturns(d: nat, i: nat)
    | StartsPull(d: nat)
    | Gets(d: nat, i: nat)
    | FetchReturns(d: nat, i: nat)
    | Confirms(d: nat)
    | Declines(d: nat)
    | Applies(d: nat, i: nat)
    | ApplyReturns(d: nat, i: nat)
    | JobFails(d: nat, i: nat)
    | StartsSave(d: nat)
    | Saves(d: nat, i: nat)
    | Restarts(d: nat)

  function Head(heads: map<Target, Sha>, t: Target): Option<Sha> { if t in heads then Some(heads[t]) else None }

  function WithJob(dev: Device, j: Job): Device { dev.(jobs := dev.jobs + [j]) }

  function WithCurrent(dev: Device, r: Registration): Device {
    dev.(objects := dev.objects + [r], current := Some(|dev.objects|))
  }

  // ---------------------------------------------------------------- the handlers

  /** syncCheckedMsg: for the same file the lock is kept. */
  function Checked(dev: Device, t: Target): Device
    requires dev.current.Some? ==> dev.current.value < |dev.objects|
  {
    var keep := if dev.current.Some? && dev.objects[dev.current.value].target.file == t.file
                then dev.objects[dev.current.value].sha else None;
    WithCurrent(dev, Registration(t, keep))
  }

  /** syncPushedMsg: whatever is registered by now gets the sha. */
  function PushedMsg(dev: Device, sha: Sha): Device
    requires dev.current.Some? ==> dev.current.value < |dev.objects|
  {
    if dev.current.None? then dev
    else dev.(objects := dev.objects[dev.current.value := dev.objects[dev.current.value].(sha := Some(sha))])
  }

  /** applyPullCmd: the registration stays this machine's, with the sha of what was pulled. */
  function Result(objects: seq<Registration>, captured: Option<nat>, sha: Sha, inner: Option<Registration>): Option<Registration>
    requires captured.Some? ==> captured.value < |objects|
  {
    if captured.Some? then Some(Registration(objects[captured.value].target, Some(sha))) else inner
  }

  function AppliedMsg(dev: Device, result: Option<Registration>): Device {
    if result.Some? then WithCurrent(dev, result.value) else dev.(current := None)
  }

  /** persistSecrets: the secrets of the moment are written later, with what their registration holds by then. */
  function Persisting(dev: Device): Device { WithJob(dev, Saving(dev.current)) }

  // ---------------------------------------------------------------- steps

  predicate IsJob(dev: Device, i: nat) { i < |dev.jobs| }

  predicate Refers(dev: Device, o: Option<nat>) { o.Some? ==> o.value < |dev.objects| }

  predicate EnabledAt(log: seq<Version>, dev: Device, e: Event) {
    && Refers(dev, dev.current)
    && match e
       case Registers(_, _) => true
       case CheckPasses(_, i) => IsJob(dev, i) && dev.jobs[i].Checking?
       case StartsPush(_) => dev.current.Some?
       case Puts(_, i, _, _) => IsJob(dev, i) && dev.jobs[i].Pushing? && dev.jobs[i].reg < |dev.objects|
       case PushReturns(_, i) => IsJob(dev, i) && dev.jobs[i].Pushed?
       case StartsPull(_) => dev.current.Some?
       case Gets(_, i) => IsJob(dev, i) && dev.jobs[i].Pulling? && dev.jobs[i].reg < |dev.objects|
       case FetchReturns(_, i) => IsJob(dev, i) && dev.jobs[i].Fetched?
       case Confirms(_) => dev.offer.Some?
       case Declines(_) => dev.offer.Some?
       case Applies(_, i) =>
         IsJob(dev, i) && dev.jobs[i].Applying? && dev.jobs[i].sha < |log| && Refers(dev, dev.jobs[i].captured)
       case ApplyReturns(_, i) => IsJob(dev, i) && dev.jobs[i].Applied?
       case JobFails(_, i) => IsJob(dev, i)
       case StartsSave(_) => true
       case Saves(_, i) => IsJob(dev, i) && dev.jobs[i].Saving? && Refers(dev, dev.jobs[i].captured)
       case Restarts(_) => true
  }

  predicate Enabled(w: World, e: Event) { e.d < |w.devices| && EnabledAt(w.log, w.devices[e.d], e) }

  /** The upload goes through: the file still holds what the registration says. */
  predicate Accepted(w: World, e: Event)
    requires Enabled(w, e)
  {
    && e.Puts?
    && var r := w.devices[e.d].objects[w.devices[e.d].jobs[e.i].reg];
       Head(w.heads, r.target) == r.sha
  }

  function DeviceAfter(log: seq<Version>, heads: map<Target, Sha>, dev: Device, e: Event): Device
    requires EnabledAt(log, dev, e)
  {
    match e
    case Registers(_, t) => WithJob(dev, Checking(t)).(registered := dev.registered + {t})
    case CheckPasses(_, i) => Persisting(Checked(dev.(jobs := Without(dev.jobs, i)), dev.jobs[i].target))
    case StartsPush(_) => WithJob(dev, Pushing(dev.current.value))
    case Puts(_, i, _, answered) =>
      var r := dev.objects[dev.jobs[i].reg];
      dev.(jobs := if answered && Head(heads, r.target) == r.sha then dev.jobs[i := Pushed(|log|)] else Without(dev.jobs, i))
    case PushReturns(_, i) => Persisting(PushedMsg(dev.(jobs := Without(dev.jobs, i)), dev.jobs[i].sha))
    case StartsPull(_) => WithJob(dev, Pulling(dev.current.value))
    case Gets(_, i) =>
      var t := dev.objects[dev.jobs[i].reg].target;
      dev.(jobs := if t in heads then dev.jobs[i := Fetched(heads[t])] else Without(dev.jobs, i))
    case FetchReturns(_, i) => dev.(jobs := Without(dev.jobs, i), offer := Some(Offer(dev.jobs[i].sha, dev.current)))
    case Confirms(_) => WithJob(dev, Applying(dev.offer.value.sha, dev.offer.value.captured)).(offer := None)
    case Declines(_) => dev.(offer := None)
    case Applies(_, i) =>
      var r := Result(dev.objects, dev.jobs[i].captured, dev.jobs[i].sha, log[dev.jobs[i].sha].inner);
      dev.(jobs := dev.jobs[i := Applied(r)], saved := r, pulled := dev.pulled + {dev.jobs[i].sha})
    case ApplyReturns(_, i) => AppliedMsg(dev.(jobs := Without(dev.jobs, i)), dev.jobs[i].result)
    case JobFails(_, i) => dev.(jobs := Without(dev.jobs, i))
    case StartsSave(_) => Persisting(dev)
    case Saves(_, i) =>
      var o := dev.jobs[i].captured;
      dev.(jobs := Without(dev.jobs, i), saved := if o.Some? then Some(dev.objects[o.value]) else None)
    case Restarts(_) =>
      dev.(objects := if dev.saved.Some? then [dev.saved.value] else [],
           current := if dev.saved.Some? then Some(0) else None, jobs := [], offer := None)
  }

  function After(w: World, e: Event): World
    requires Enabled(w, e)
  {
    var dev := w.devices[e.d];
    var w' := w.(devices := w.devices[e.d := DeviceAfter(w.log, w.heads, dev, e)]);
    if Accepted(w, e) then
      var r := dev.objects[dev.jobs[e.i].reg];
      w'.(log := w.log + [Version(r.target, e.d, r.sha, e.inner)], heads := w.heads[r.target := |w.log|])
    else w'
  }

  // ---------------------------------------------------------------- what every step keeps

  /** The device made this version, or its user took it in place of the list. */
  predicate Seen(log: seq<Version>, d: nat, dev: Device, sha: Sha) {
    sha < |log| && (log[sha].author == d || sha in dev.pulled)
  }

  predicate RegOk(log: seq<Version>, d: nat, dev: Device, r: Registration) {
    r.target in dev.registered && (r.sha.Some? ==> Seen(log, d, dev, r.sha.value))
  }

  predicate JobOk(log: seq<Version>, d: nat, dev: Device, j: Job) {
    match j
    case Checking(t) => t in dev.registered
    case Pushing(o) => o < |dev.objects|
    case Pushed(sha) => Seen(log, d, dev, sha)
    case Pulling(o) => o < |dev.objects| && dev.current.Some?
    case Fetched(sha) => sha < |log| && dev.current.Some?
    case Applying(sha, o) => sha < |log| && o.Some? && o.value < |dev.objects|
    case Applied(r) => r.Some? && RegOk(log, d, dev, r.value)
    case Saving(o) => Refers(dev, o)
  }

  predicate DeviceOk(log: seq<Version>, d: nat, dev: Device) {
    && Refers(dev, dev.current)
    && (forall o | 0 <= o < |dev.objects| :: RegOk(log, d, dev, dev.objects[o]))
    && (forall i | 0 <= i < |dev.jobs| :: JobOk(log, d, dev, dev.jobs[i]))
    && (dev.offer.Some? ==> dev.offer.value.sha < |log| && dev.offer.value.captured.Some? && Refers(dev, dev.offer.value.captured))
    && (dev.saved.Some? ==> RegOk(log, d, dev, dev.saved.value))
  }

  lemma JobStaysOk(log: seq<Version>, log': seq<Version>, d: nat, dev: Device, dev': Device, j: Job)
    requires JobOk(log, d, dev, j) && log <= log' && dev.registered <= dev'.registered && dev.pulled <= dev'.pulled
    requires |dev.objects| <= |dev'.objects| && (dev.current.Some? ==> dev'.current.Some?)
    ensures JobOk(log', d, dev', j)
  {
  }

  /** A device is as it was after anyone's upload. */
  lemma DeviceStaysOk(log: seq<Version>, log': seq<Version>, d: nat, dev: Device)
    requires DeviceOk(log, d, dev) && log <= log'
    ensures DeviceOk(log', d, dev)
  {
    forall i | 0 <= i < |dev.jobs| ensures JobOk(log', d, dev, dev.jobs[i]) {
      JobStaysOk(log, log', d, dev, dev, dev.jobs[i]);
    }
  }
}

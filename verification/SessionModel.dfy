/**
 * One shell session (internal/ssh/session.go) as its goroutines' atomic steps:
 * two pumps, the waiter, the keepalive, whoever calls Close, and the reader of
 * the output channel.
 */
module SessionModel {
  import opened Options

  type Chunk = seq<int>

  datatype Side = Stdout | Stderr

  datatype Error = Lost | Remote(code: int)

  /** What the goroutines share: the fields under the mutex, and the channel. */
  datatype Shared = Shared(exitErr: Option<Error>, closed: bool, channel: seq<(Side, Chunk)>, ended: bool)

  const CHANNEL_SIZE := 64

  // ---------------------------------------------------------------- the critical sections

  /** fail: the first reason wins, and none is recorded once closed. */
  function Failed(s: Shared, err: Error): Shared {
    if !s.closed && s.exitErr.None? then s.(exitErr := Some(err)) else s
  }

  /** The waiter's: how the shell exited, unless something was recorded or the session is closed. */
  function Recorded(s: Shared, err: Option<Error>): Shared {
    if s.exitErr.None? && !s.closed then s.(exitErr := err) else s
  }

  function Shut(s: Shared): Shared { s.(closed := true) }

  function Sent(s: Shared, side: Side, c: Chunk): Shared { s.(channel := s.channel + [(side, c)]) }

  function Ended(s: Shared): Shared { s.(ended := true) }

  // ---------------------------------------------------------------- the goroutines

  /**
   * Reading blocks in Read; Holding has a chunk and has not looked at closed;
   * Sending found it open and is on its way into the channel. `last` is a read
   * that came with an error. A chunk dropped on the way out is kept in Done.
   */
  datatype Pump =
    | Reading
    | Holding(chunk: Chunk, last: bool)
    | Sending(chunk: Chunk, last: bool)
    | Done(dropped: seq<Chunk>)

  /** `read` is all this side has read. */
  datatype Lane = Lane(pump: Pump, read: seq<Chunk>)

  datatype Waiter = Waiting | Exited(err: Option<Error>) | Drained(err: Option<Error>) | Noted(err: Option<Error>)
                  | Finishing(err: Option<Error>) | Finished(err: Option<Error>)

  datatype Keeper = Ticking | Asking | Failing | Gone

  /**
   * A whole session. `byUser`: Close found it open; `lost`: the keepalive's
   * reason was recorded; `noted`: the waiter found it open; `closes`,
   * `panicked`: the channel was closed that often, or sent to when closed.
   */
  datatype Session = Session(
    sh: Shared, out: Lane, err: Lane, waiter: Waiter, keeper: Keeper,
    received: seq<(Side, Chunk)>, sawEnd: bool,
    byUser: bool, lost: bool, noted: bool, closes: nat, panicked: bool)

  const NEW_LANE := Lane(Reading, [])

  const CONNECTED := Session(Shared(None, false, [], false), NEW_LANE, NEW_LANE, Waiting, Ticking, [], false,
                             false, false, false, 0, false)

  function LaneOf(s: Session, side: Side): Lane { if side.Stdout? then s.out else s.err }

  function WithLane(s: Session, side: Side, l: Lane): Session {
    if side.Stdout? then s.(out := l) else s.(err := l)
  }

  /** ShellExits carries what the shell's exit was, which is never the keepalive's own reason. */
  datatype Event =
    | Reads(side: Side, chunk: Chunk, last: bool)
    | ReadStops(side: Side)
    | Checks(side: Side)
    | Sends(side: Side)
    | ShellExits(err: Option<Error>)
    | PumpsDone
    | NotesExit
    | MarksClosed
    | ClosesChannel
    | UserCloses
    | Ticks
    | Answered
    | NoAnswer
    | Fails
    | Receives
    | SeesEnd

  predicate Enabled(s: Session, e: Event) {
    match e
    case Reads(side, _, _) => LaneOf(s, side).pump.Reading?
    case ReadStops(side) => LaneOf(s, side).pump.Reading?
    case Checks(side) => LaneOf(s, side).pump.Holding?
    case Sends(side) => LaneOf(s, side).pump.Sending? && (s.sh.ended || |s.sh.channel| < CHANNEL_SIZE)
    case ShellExits(err) => s.waiter.Waiting? && err != Some(Lost)
    case PumpsDone => s.waiter.Exited? && s.out.pump.Done? && s.err.pump.Done?
    case NotesExit => s.waiter.Drained?
    case MarksClosed => s.waiter.Noted?
    case ClosesChannel => s.waiter.Finishing?
    case UserCloses => true
    case Ticks => s.keeper.Ticking?
    case Answered => s.keeper.Asking?
    case NoAnswer => s.keeper.Asking?
    case Fails => s.keeper.Failing?
    case Receives => s.sh.channel != []
    case SeesEnd => s.sh.channel == [] && s.sh.ended
  }

  function After(s: Session, e: Event): Session
    requires Enabled(s, e)
  {
    match e
    case Reads(side, chunk, last) =>
      var l := LaneOf(s, side);
      WithLane(s, side, Lane(Holding(chunk, last), l.read + [chunk]))
    case ReadStops(side) => WithLane(s, side, LaneOf(s, side).(pump := Done([])))
    case Checks(side) =>
      var l := LaneOf(s, side);
      WithLane(s, side, l.(pump := if s.sh.closed then Done([l.pump.chunk]) else Sending(l.pump.chunk, l.pump.last)))
    case Sends(side) =>
      var l := LaneOf(s, side);
      if s.sh.ended then WithLane(s, side, l.(pump := Done([l.pump.chunk]))).(panicked := true)
      else WithLane(s, side, l.(pump := if l.pump.last then Done([]) else Reading)).(sh := Sent(s.sh, side, l.pump.chunk))
    case ShellExits(err) => s.(waiter := Exited(err))
    case PumpsDone => s.(waiter := Drained(s.waiter.err))
    case NotesExit => s.(waiter := Noted(s.waiter.err), sh := Recorded(s.sh, s.waiter.err), noted := !s.sh.closed)
    case MarksClosed => s.(waiter := Finishing(s.waiter.err), sh := Shut(s.sh))
    case ClosesChannel =>
      s.(waiter := Finished(s.waiter.err), sh := Ended(s.sh), closes := s.closes + 1, panicked := s.panicked || s.sh.ended)
    case UserCloses => s.(sh := Shut(s.sh), byUser := s.byUser || !s.sh.closed)
    case Ticks => s.(keeper := if s.sh.closed then Gone else Asking)
    case Answered => s.(keeper := Ticking)
    case NoAnswer => s.(keeper := Failing)
    case Fails => s.(keeper := Gone, sh := Failed(s.sh, Lost), lost := s.lost || (!s.sh.closed && s.sh.exitErr.None?))
    case Receives => s.(received := s.received + [s.sh.channel[0]], sh := s.sh.(channel := s.sh.channel[1..]))
    case SeesEnd => s.(sawEnd := true)
  }

  // ---------------------------------------------------------------- what every step keeps

  /** What of a stream came from one side. */
  function From(stream: seq<(Side, Chunk)>, side: Side): seq<Chunk> {
    if stream == [] then []
    else From(stream[..|stream| - 1], side) + if stream[|stream| - 1].0 == side then [stream[|stream| - 1].1] else []
  }

  function InHand(p: Pump): seq<Chunk> {
    match p
    case Holding(c, _) => [c]
    case Sending(c, _) => [c]
    case Done(dropped) => dropped
    case Reading => []
  }

  /** Everything this side read is in the stream, in order, but for what is in hand. */
  predicate LaneKept(s: Session, side: Side) {
    && From(s.received + s.sh.channel, side) + InHand(LaneOf(s, side).pump) == LaneOf(s, side).read
    && |InHand(LaneOf(s, side).pump)| <= 1
    && (LaneOf(s, side).pump.Done? && !s.byUser ==> LaneOf(s, side).pump.dropped == [])
  }

  /** How the session's end is told: the keepalive's reason, else the shell's, else none. */
  predicate ExitKept(s: Session) {
    && (s.lost ==> s.sh.exitErr == Some(Lost))
    && (s.waiter.Noted? || s.waiter.Finishing? || s.waiter.Finished? ==>
          s.sh.exitErr == if s.lost then Some(Lost) else if s.noted then s.waiter.err else None)
    && (s.waiter.Noted? || s.waiter.Finishing? || s.waiter.Finished? ==> s.noted || s.byUser)
    && (!s.waiter.Noted? && !s.waiter.Finishing? && !s.waiter.Finished? ==> !s.noted && (!s.lost ==> s.sh.exitErr == None))
  }

  predicate WaiterKept(s: Session) {
    && s.sh.ended == s.waiter.Finished?
    && s.closes == (if s.sh.ended then 1 else 0)
    && (!s.waiter.Waiting? && !s.waiter.Exited? ==> s.out.pump.Done? && s.err.pump.Done?)
    && (s.waiter.Finishing? || s.waiter.Finished? ==> s.sh.closed)
    && (s.sh.closed ==> s.byUser || s.waiter.Finishing? || s.waiter.Finished?)
    && (s.byUser ==> s.sh.closed)
    && !s.panicked
    && (s.sawEnd ==> s.sh.ended && s.sh.channel == [])
    && |s.sh.channel| <= CHANNEL_SIZE
  }

  predicate Inv(s: Session) { WaiterKept(s) && ExitKept(s) && LaneKept(s, Stdout) && LaneKept(s, Stderr) }

  lemma ConnectedKeeps()
    ensures Inv(CONNECTED)
  {
  }

  lemma {:induction false} FromOneMore(stream: seq<(Side, Chunk)>, x: (Side, Chunk), side: Side)
    ensures From(stream + [x], side) == From(stream, side) + if x.0 == side then [x.1] else []
  {
    assert (stream + [x])[..|stream|] == stream;
  }

  /** Only a send puts something into the stream. */
  lemma StreamAfter(s: Session, e: Event)
    requires Enabled(s, e) && e.Sends? && !s.sh.ended
    ensures After(s, e).received + After(s, e).sh.channel ==
            s.received + s.sh.channel + [(e.side, LaneOf(s, e.side).pump.chunk)]
  {
  }

  lemma StreamStays(s: Session, e: Event)
    requires Enabled(s, e) && !e.Sends?
    ensures After(s, e).received + After(s, e).sh.channel == s.received + s.sh.channel
  {
    if e.Receives? {
      assert s.received + [s.sh.channel[0]] + s.sh.channel[1..] == s.received + s.sh.channel;
    } else {
      assert After(s, e).received == s.received && After(s, e).sh.channel == s.sh.channel;
    }
  }

  /** Only a pump's own send and its own read change what it has read and holds. */
  lemma SendAfter(s: Session, side: Side)
    requires Enabled(s, Sends(side)) && !s.sh.ended
    ensures var l, l' := LaneOf(s, side), LaneOf(After(s, Sends(side)), side);
            l'.read == l.read && InHand(l.pump) == [l.pump.chunk] && InHand(l'.pump) == []
  {
  }

  lemma ReadAfter(s: Session, e: Event)
    requires e.Reads? && Enabled(s, e)
    ensures var l, l' := LaneOf(s, e.side), LaneOf(After(s, e), e.side);
            l'.read == l.read + [e.chunk] && InHand(l.pump) == [] && InHand(l'.pump) == [e.chunk]
  {
  }

  predicate OfPump(e: Event) { e.Reads? || e.ReadStops? || e.Checks? || e.Sends? }

  predicate OfWaiter(e: Event) { e.ShellExits? || e.PumpsDone? || e.NotesExit? || e.MarksClosed? || e.ClosesChannel? }

  predicate OfKeeper(e: Event) { e.Ticks? || e.Answered? || e.NoAnswer? || e.Fails? }

  lemma OthersLeaveLanes(s: Session, e: Event)
    requires Enabled(s, e) && !OfPump(e)
    ensures After(s, e).out == s.out && After(s, e).err == s.err
  {
  }

  lemma OtherPumpAfter(s: Session, e: Event, side: Side)
    requires Enabled(s, e) && OfPump(e) && e.side != side
    ensures LaneOf(After(s, e), side) == LaneOf(s, side)
  {
  }

  lemma RestAfter(s: Session, e: Event, side: Side)
    requires Enabled(s, e) && !(e.Reads? && e.side == side) && e != Sends(side)
    ensures var l, l' := LaneOf(s, side), LaneOf(After(s, e), side);
            l'.read == l.read && InHand(l'.pump) == InHand(l.pump)
  {
    if !OfPump(e) {
      OthersLeaveLanes(s, e);
    } else if e.side != side {
      OtherPumpAfter(s, e, side);
    }
  }

  lemma DropAfter(s: Session, e: Event, side: Side)
    requires WaiterKept(s) && Enabled(s, e)
    requires LaneOf(s, side).pump.Done? && !s.byUser ==> LaneOf(s, side).pump.dropped == []
    ensures var p := LaneOf(After(s, e), side).pump; p.Done? && !After(s, e).byUser ==> p.dropped == []
  {
  }

  lemma LaneOn(stream: seq<(Side, Chunk)>, x: (Side, Chunk), side: Side, l: Lane, l': Lane)
    requires From(stream, side) + InHand(l.pump) == l.read && l'.read == l.read
    requires InHand(l.pump) == if x.0 == side then [x.1] else InHand(l'.pump)
    requires x.0 == side ==> InHand(l'.pump) == []
    ensures From(stream + [x], side) + InHand(l'.pump) == l'.read
  {
    FromOneMore(stream, x, side);
  }

  lemma StepKeepsLane(s: Session, e: Event, side: Side)
    requires WaiterKept(s) && LaneKept(s, side) && Enabled(s, e)
    ensures LaneKept(After(s, e), side)
  {
    DropAfter(s, e, side);
    if e.Reads? && e.side == side {
      ReadAfter(s, e);
    } else if e != Sends(side) {
      RestAfter(s, e, side);
    }
    if e.Sends? {
      SendsOpen(s, e.side);
      SendAfter(s, e.side);
      StreamAfter(s, e);
      LaneOn(s.received + s.sh.channel, (e.side, LaneOf(s, e.side).pump.chunk), side, LaneOf(s, side), LaneOf(After(s, e), side));
    } else {
      StreamStays(s, e);
    }
  }

  lemma SendsOpen(s: Session, side: Side)
    requires WaiterKept(s) && LaneOf(s, side).pump.Sending?
    ensures !s.sh.ended
  {
  }

  lemma PumpStepKeeps(s: Session, e: Event)
    requires WaiterKept(s) && ExitKept(s) && Enabled(s, e) && OfPump(e)
    ensures WaiterKept(After(s, e)) && ExitKept(After(s, e))
  {
  }

  lemma WaiterStepKeeps(s: Session, e: Event)
    requires WaiterKept(s) && ExitKept(s) && Enabled(s, e) && OfWaiter(e)
    ensures WaiterKept(After(s, e)) && ExitKept(After(s, e))
  {
  }

  lemma KeeperStepKeeps(s: Session, e: Event)
    requires WaiterKept(s) && ExitKept(s) && Enabled(s, e) && OfKeeper(e)
    ensures WaiterKept(After(s, e)) && ExitKept(After(s, e))
  {
  }

  /** Close and the reader of the channel. */
  lemma OwnerStepKeeps(s: Session, e: Event)
    requires WaiterKept(s) && ExitKept(s) && Enabled(s, e) && (e.UserCloses? || e.Receives? || e.SeesEnd?)
    ensures WaiterKept(After(s, e)) && ExitKept(After(s, e))
  {
  }

  lemma StepKeeps(s: Session, e: Event)
    requires Inv(s) && Enabled(s, e)
    ensures Inv(After(s, e))
  {
    if OfPump(e) {
      PumpStepKeeps(s, e);
    } else if OfWaiter(e) {
      WaiterStepKeeps(s, e);
    } else if OfKeeper(e) {
      KeeperStepKeeps(s, e);
    } else {
      OwnerStepKeeps(s, e);
    }
    StepKeepsLane(s, e, Stdout);
    StepKeepsLane(s, e, Stderr);
  }

  /** What is recorded stays, what is closed stays closed with its reason, what is over stays over. */
  predicate Frozen(s: Session, s': Session) {
    && (s.sh.exitErr.Some? || s.sh.closed ==> s'.sh.exitErr == s.sh.exitErr)
    && (s.sh.closed ==> s'.sh.closed)
    && (s.sawEnd ==> s'.sawEnd && s'.received == s.received)
  }

  lemma StepFreezes(s: Session, e: Event)
    requires Inv(s) && Enabled(s, e)
    ensures Frozen(s, After(s, e))
  {
  }

  // ---------------------------------------------------------------- runs

  ghost predicate Next(s: Session, s': Session) { exists e :: Enabled(s, e) && s' == After(s, e) }

  ghost predicate IsRun(run: seq<Session>) {
    && run != [] && run[0] == CONNECTED
    && forall i | 0 <= i < |run| - 1 :: Next(run[i], run[i + 1])
  }

  lemma NextKeeps(s: Session, s': Session)
    requires Inv(s) && Next(s, s')
    ensures Inv(s') && Frozen(s, s')
  {
    var e :| Enabled(s, e) && s' == After(s, e);
    StepKeeps(s, e);
    StepFreezes(s, e);
  }

  lemma {:induction false} InvInEveryRun(run: seq<Session>, i: nat)
    requires IsRun(run) && i < |run|
    ensures Inv(run[i])
  {
    if i == 0 {
      ConnectedKeeps();
    } else {
      InvInEveryRun(run, i - 1);
      assert Next(run[i - 1], run[i - 1 + 1]);
      NextKeeps(run[i - 1], run[i]);
    }
  }

  // ---------------------------------------------------------------- what a session guarantees

  /** The channel is closed at most once, by then both pumps are done, and nothing is ever sent to it closed. */
  lemma ClosedOnceAfterThePumps(run: seq<Session>, i: nat)
    requires IsRun(run) && i < |run|
    ensures run[i].closes <= 1 && !run[i].panicked
    ensures run[i].sh.ended ==> run[i].closes == 1 && run[i].out.pump.Done? && run[i].err.pump.Done?
  {
    InvInEveryRun(run, i);
  }

  predicate EachStepFreezes(run: seq<Session>) {
    forall i | 0 < i < |run| :: Frozen(run[i - 1], run[i])
  }

  lemma RunFreezes(run: seq<Session>)
    requires IsRun(run)
    ensures EachStepFreezes(run)
  {
    forall i | 0 < i < |run| ensures Frozen(run[i - 1], run[i]) {
      InvInEveryRun(run, i - 1);
      assert Next(run[i - 1], run[i - 1 + 1]);
      NextKeeps(run[i - 1], run[i]);
    }
  }

  lemma {:induction false} FrozenFrom(run: seq<Session>, i: nat, j: nat)
    requires EachStepFreezes(run) && i <= j < |run|
    ensures Frozen(run[i], run[j])
    decreases j
  {
    if i < j {
      FrozenFrom(run, i, j - 1);
      FrozenOn(run[i], run[j - 1], run[j]);
    }
  }

  /** A reason once recorded is never overwritten, and none changes once the session is closed. */
  lemma ExitErrIsFrozen(run: seq<Session>, i: nat, j: nat)
    requires IsRun(run) && i <= j < |run|
    ensures Frozen(run[i], run[j])
  {
    RunFreezes(run);
    FrozenFrom(run, i, j);
  }

  lemma FrozenOn(a: Session, b: Session, c: Session)
    requires Frozen(a, b) && Frozen(b, c)
    ensures Frozen(a, c)
  {
  }

  /**
   * Who sees the channel closed reads the final reason: that the connection was
   * lost, if the keepalive recorded it; else how the shell exited, unless Close
   * came first.
   */
  lemma EndIsFinal(run: seq<Session>, i: nat, j: nat)
    requires IsRun(run) && i <= j < |run| && run[i].sawEnd
    ensures run[i].waiter.Finished?
    ensures run[j].sh.exitErr == if run[i].lost then Some(Lost) else if run[i].noted then run[i].waiter.err else None
    ensures !run[i].byUser ==> run[i].noted
  {
    InvInEveryRun(run, i);
    ExitErrIsFrozen(run, i, j);
  }

  /** Once the end is seen the reader has all each side read, in order; if Close was called, all but one chunk at most. */
  lemma NothingIsLost(run: seq<Session>, i: nat, side: Side)
    requires IsRun(run) && i < |run| && run[i].sawEnd
    ensures !run[i].byUser ==> From(run[i].received, side) == LaneOf(run[i], side).read
    ensures From(run[i].received, side) <= LaneOf(run[i], side).read
    ensures |LaneOf(run[i], side).read| <= |From(run[i].received, side)| + 1
  {
    InvInEveryRun(run, i);
    assert LaneKept(run[i], side);
    assert run[i].received + run[i].sh.channel == run[i].received;
  }
}

/** The fields of the session and the sections that change them under the mutex. */
module SessionState {
  import opened Options
  import M = SessionModel

  class Session {
    var exitErr: Option<M.Error>
    var closed: bool
    var channel: seq<(M.Side, M.Chunk)>
    var ended: bool

    function View(): M.Shared
      reads this
    {
      M.Shared(exitErr, closed, channel, ended)
    }

    constructor ()
      ensures View() == M.CONNECTED.sh
    {
      exitErr, closed, channel, ended := None, false, [], false;
    }

    /** Whether there is a transport to close. */
    method Fail(err: M.Error) returns (drop: bool)
      modifies this
      ensures View() == M.Failed(old(View()), err) && drop == !old(closed)
    {
      if closed {
        return false;
      }
      if exitErr == None {
        exitErr := Some(err);
      }
      return true;
    }

    method NoteExit(err: Option<M.Error>)
      modifies this
      ensures View() == M.Recorded(old(View()), err)
    {
      if exitErr == None && !closed {
        exitErr := err;
      }
    }

    /** The mutex section of Close and of finish; `already` when there is nothing left to tear down. */
    method MarkClosed() returns (already: bool)
      modifies this
      ensures View() == M.Shut(old(View())) && already == old(closed)
    {
      already := closed;
      closed := true;
    }

    method Send(side: M.Side, chunk: M.Chunk)
      requires !ended && |channel| < M.CHANNEL_SIZE
      modifies this
      ensures View() == M.Sent(old(View()), side, chunk)
    {
      channel := channel + [(side, chunk)];
    }

    /** Closing twice would panic. */
    method CloseChannel()
      requires !ended
      modifies this
      ensures View() == M.Ended(old(View()))
    {
      ended := true;
    }
  }
}

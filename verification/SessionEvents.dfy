/** What the events of a session's run say its end will be. */
module SessionEvents {
  import opened Options
  import opened SessionModel

  /** A run told by its events. */
  ghost predicate IsHistory(run: seq<Session>, events: seq<Event>) {
    && |run| == |events| + 1 && run[0] == CONNECTED
    && forall i | 0 <= i < |events| :: Enabled(run[i], events[i]) && run[i + 1] == After(run[i], events[i])
  }

  /** Somebody closed the session, or the waiter did at its end. */
  ghost predicate ClosedIn(h: seq<Event>) { exists k :: 0 <= k < |h| && (h[k].UserCloses? || h[k].MarksClosed?) }

  ghost predicate ExitedWith(h: seq<Event>, err: Option<Error>) { exists k :: 0 <= k < |h| && h[k] == ShellExits(err) }

  /** The waiter looked while the session was open. */
  ghost predicate NotedIn(h: seq<Event>) { exists k :: 0 <= k < |h| && h[k].NotesExit? && !ClosedIn(h[..k]) }

  /** By then the shell's exit had been recorded, and it was not a clean one. */
  ghost predicate ReportedIn(h: seq<Event>) {
    NotedIn(h) && exists c :: ExitedWith(h, Some(c))
  }

  /** The keepalive gave up while the session was open and had no reason yet. */
  ghost predicate LostIn(h: seq<Event>) {
    exists k :: 0 <= k < |h| && h[k].Fails? && !ClosedIn(h[..k]) && !ReportedIn(h[..k])
  }

  /** h[k] is the keepalive's last event. */
  predicate LastOfKeeper(h: seq<Event>, k: int) {
    0 <= k < |h| && OfKeeper(h[k]) && forall j | k < j < |h| :: !OfKeeper(h[j])
  }

  /** What the keepalive may do next: after an answer tick again, after a tick be answered or not, after no answer only fail. */
  predicate KeeperMay(h: seq<Event>, k: int, closedThen: bool, e: Event)
    requires 0 <= k < |h|
  {
    match h[k]
    case Ticks => !closedThen && (e.Answered? || e.NoAnswer?)
    case Answered => e.Ticks?
    case NoAnswer => e.Fails?
    case _ => false
  }

  /** The keepalive stands where its last event left it. */
  ghost predicate KeeperTold(s: Session, h: seq<Event>) {
    && ((forall k | 0 <= k < |h| :: !OfKeeper(h[k])) ==> s.keeper.Ticking?)
    && forall k | LastOfKeeper(h, k) ::
         match h[k]
         case Ticks => s.keeper == if ClosedIn(h[..k]) then Gone else Asking
         case Answered => s.keeper == Ticking
         case NoAnswer => s.keeper == Failing
         case _ => s.keeper == Gone
  }

  predicate OfSide(e: Event, side: Side) { OfPump(e) && e.side == side }

  /** h[k] is the last event of this side's pump. */
  predicate LastOfPump(h: seq<Event>, side: Side, k: int) {
    0 <= k < |h| && OfSide(h[k], side) && forall j | k < j < |h| :: !OfSide(h[j], side)
  }

  /** The last chunk this side read came with the end. */
  predicate ReadTheLast(h: seq<Event>, side: Side) {
    exists r :: 0 <= r < |h| && h[r].Reads? && h[r].side == side && h[r].last
                && forall j | r < j < |h| :: !(h[j].Reads? && h[j].side == side)
  }

  /**
   * The pump stands where its last event left it: a chunk read is looked at
   * next; once looked at it is sent if the session was open then, and dropped
   * if it was closed, and with it the pump is done; once sent the next is
   * read, unless that was the last.
   */
  ghost predicate PumpTold(s: Session, h: seq<Event>, side: Side) {
    && ((forall k | 0 <= k < |h| :: !OfSide(h[k], side)) ==> LaneOf(s, side).pump.Reading?)
    && (LaneOf(s, side).pump.Holding? || LaneOf(s, side).pump.Sending? ==>
          (LaneOf(s, side).pump.last <==> ReadTheLast(h, side)))
    && forall k | LastOfPump(h, side, k) ::
         match h[k]
         case Reads(_, chunk, last) => LaneOf(s, side).pump == Holding(chunk, last)
         case Checks(_) => if ClosedIn(h[..k]) then LaneOf(s, side).pump.Done? else LaneOf(s, side).pump.Sending?
         case Sends(_) => if ReadTheLast(h, side) then LaneOf(s, side).pump == Done([]) else LaneOf(s, side).pump.Reading?
         case _ => LaneOf(s, side).pump.Done?
  }

  /** What a pump may do next; a send also needs room in the channel. */
  ghost predicate PumpMay(h: seq<Event>, side: Side, k: int, e: Event)
    requires 0 <= k < |h|
  {
    match h[k]
    case Reads(_, _, _) => e.Checks?
    case Checks(_) => !ClosedIn(h[..k]) && e.Sends?
    case Sends(_) => !ReadTheLast(h, side) && (e.Reads? || e.ReadStops?)
    case _ => false
  }

  /** What the run's end is, told by its events alone. */
  ghost predicate EndsFor(h: seq<Event>, reason: Option<Error>) {
    if LostIn(h) then reason == Some(Lost)
    else if NotedIn(h) then ExitedWith(h, reason)
    else reason == None
  }

  /** The state is what the events say. */
  ghost predicate Told(s: Session, h: seq<Event>) {
    && (s.sh.closed <==> ClosedIn(h))
    && (forall err :: ExitedWith(h, err) <==> !s.waiter.Waiting? && s.waiter.err == err)
    && (s.noted <==> NotedIn(h))
    && (s.lost <==> LostIn(h))
    && KeeperTold(s, h)
  }
}

/**
 * Trust on first use (internal/ssh/hostkey.go): any number of handshakes, the
 * questions they ask, and answers that come late, twice or not at all.
 */
module HostKey {
  import opened Options

  /** What known_hosts says of an offered key. */
  datatype Verdict = Known | Revoked | Changed | Unreadable | NotListed

  datatype Outcome = Trusted | Mismatch | NotTrusted | OtherError

  /**
   * Offering blocks on handing the question over, Asking on its answer;
   * Accepted took a yes and has yet to write the line.
   */
  datatype Stage = Checking | Offering | Asking | Accepted | Over(outcome: Outcome)

  /**
   * One handshake: the options it dials with, the line its question would add,
   * the one-slot reply. `verdict` is what the check found; `answers` is every
   * answer anyone ever gave, `added` how often the line was written.
   */
  datatype Dial = Dial(
    prompts: bool, append: bool, line: string, stage: Stage, reply: Option<bool>,
    verdict: Option<Verdict>, asked: bool, answers: seq<bool>, added: nat)

  /** Handshakes in the order they started; known_hosts grows as they get to it. */
  datatype World = World(dials: seq<Dial>, known: seq<string>)

  datatype Event =
    | Starts(prompts: bool, append: bool, line: string)
    | Checks(d: nat, verdict: Verdict)
    | HandsOver(d: nat)
    | TimesOut(d: nat)
    | Answers(d: nat, ok: bool)
    | Takes(d: nat)
    | Appends(d: nat, works: bool)

  // ---------------------------------------------------------------- one handshake

  /** hostKeyCallback, up to the point where it may block. */
  function Checked(d: Dial, v: Verdict): Dial {
    d.(verdict := Some(v),
       stage := match v
                case Known => Over(Trusted)
                case Revoked => Over(Mismatch)
                case Changed => Over(Mismatch)
                case Unreadable => Over(OtherError)
                case NotListed => if d.prompts && d.append then Offering else Over(NotTrusted))
  }

  /** answer: the slot takes one, any other is dropped. */
  function Answered(d: Dial, ok: bool): Dial {
    d.(reply := if d.reply.None? then Some(ok) else d.reply, answers := d.answers + [ok])
  }

  function Taken(d: Dial): Dial
    requires d.reply.Some?
  {
    d.(reply := None, stage := if d.reply.value then Accepted else Over(NotTrusted))
  }

  function Appended(d: Dial, works: bool): Dial {
    if works then d.(stage := Over(Trusted), added := d.added + 1) else d.(stage := Over(NotTrusted))
  }

  // ---------------------------------------------------------------- all of them

  predicate Enabled(w: World, e: Event) {
    if e.Starts? then true
    else
      && e.d < |w.dials|
      && var d := w.dials[e.d];
         match e
         case Checks(_, _) => d.stage.Checking?
         case HandsOver(_) => d.stage.Offering?
         case TimesOut(_) => d.stage.Offering? || d.stage.Asking?
         case Answers(_, _) => d.asked
         case Takes(_) => d.stage.Asking? && d.reply.Some?
         case Appends(_, _) => d.stage.Accepted?
  }

  function DialAfter(d: Dial, e: Event): Dial
    requires e.Takes? ==> d.reply.Some?
  {
    match e
    case Starts(_, _, _) => d
    case Checks(_, v) => Checked(d, v)
    case HandsOver(_) => d.(stage := Asking, asked := true)
    case TimesOut(_) => d.(stage := Over(NotTrusted))
    case Answers(_, ok) => Answered(d, ok)
    case Takes(_) => Taken(d)
    case Appends(_, works) => Appended(d, works)
  }

  function After(w: World, e: Event): World
    requires Enabled(w, e)
  {
    match e
    case Starts(prompts, append, line) =>
      w.(dials := w.dials + [Dial(prompts, append, line, Checking, None, None, false, [], 0)])
    case Appends(d, true) => World(w.dials[d := DialAfter(w.dials[d], e)], w.known + [w.dials[d].line])
    case _ => w.(dials := w.dials[e.d := DialAfter(w.dials[e.d], e)])
  }

  // ---------------------------------------------------------------- what every step keeps

  predicate DialInv(d: Dial) {
    && (d.stage.Checking? <==> d.verdict.None?)
    && (d.asked ==> d.prompts && d.append && d.verdict == Some(NotListed) && !d.stage.Offering?)
    && (d.stage.Offering? || d.stage.Asking? || d.stage.Accepted? ==> d.prompts && d.append && d.verdict == Some(NotListed))
    && (d.stage.Asking? || d.stage.Accepted? ==> d.asked)
    && (!d.asked ==> d.answers == [] && d.reply == None)
    && (d.stage.Asking? ==> d.reply == if d.answers == [] then None else Some(d.answers[0]))
    && (d.stage.Accepted? ==> d.answers != [] && d.answers[0])
    && (d.added > 0 ==> d.added == 1 && d.stage == Over(Trusted) && d.asked && d.answers != [] && d.answers[0])
    && (d.stage == Over(Trusted) <==> d.verdict == Some(Known) || d.added == 1)
    && (d.stage == Over(Mismatch) <==> d.verdict == Some(Changed) || d.verdict == Some(Revoked))
    && (d.stage == Over(OtherError) <==> d.verdict == Some(Unreadable))
  }

  predicate Inv(w: World) { forall d | 0 <= d < |w.dials| :: DialInv(w.dials[d]) }

  lemma DialKept(d: Dial, e: Event)
    requires DialInv(d)
    requires match e
             case Starts(_, _, _) => true
             case Checks(_, _) => d.stage.Checking?
             case HandsOver(_) => d.stage.Offering?
             case TimesOut(_) => d.stage.Offering? || d.stage.Asking?
             case Answers(_, _) => d.asked
             case Takes(_) => d.stage.Asking? && d.reply.Some?
             case Appends(_, _) => d.stage.Accepted?
    ensures DialInv(DialAfter(d, e))
  {
  }

  lemma InvKept(w: World, e: Event)
    requires Inv(w) && Enabled(w, e)
    ensures Inv(After(w, e))
  {
    if !e.Starts? {
      DialKept(w.dials[e.d], e);
    }
  }

  // ---------------------------------------------------------------- runs

  ghost predicate IsRun(run: seq<World>, events: seq<Event>) {
    && |run| == |events| + 1 && run[0].dials == []
    && forall i | 0 <= i < |events| :: Enabled(run[i], events[i]) && run[i + 1] == After(run[i], events[i])
  }

  lemma {:induction false} InvInEveryRun(run: seq<World>, events: seq<Event>, i: nat)
    requires IsRun(run, events) && i < |run|
    ensures Inv(run[i])
  {
    if i > 0 {
      InvInEveryRun(run, events, i - 1);
      InvKept(run[i - 1], events[i - 1]);
    }
  }

  /**
   * A line gets into known_hosts only by a handshake that was asked about, for
   * a host not listed before, and whose first answer was yes; then its own
   * line, and for the first time.
   */
  lemma AddedOnlyWhenAccepted(run: seq<World>, events: seq<Event>, i: nat)
    requires IsRun(run, events) && i < |events| && run[i + 1].known != run[i].known
    ensures events[i].Appends? && events[i].d < |run[i].dials|
    ensures var d := run[i].dials[events[i].d];
            && run[i + 1].known == run[i].known + [d.line]
            && d.asked && d.verdict == Some(NotListed) && d.answers != [] && d.answers[0] && d.added == 0
  {
    InvInEveryRun(run, events, i);
  }

  /** Over the whole run as many lines are added as handshakes that were let through by an answer. */
  lemma {:induction false} LinesAreHandshakes(run: seq<World>, events: seq<Event>, i: nat)
    requires IsRun(run, events) && i < |run|
    ensures |run[i].known| == |run[0].known| + |LetThrough(run[i])|
    ensures run[0].known <= run[i].known
  {
    InvInEveryRun(run, events, i);
    if i > 0 {
      LinesAreHandshakes(run, events, i - 1);
      InvInEveryRun(run, events, i - 1);
      assert run[i - 1 + 1] == After(run[i - 1], events[i - 1]);
      LetThroughAfter(run[i - 1], events[i - 1]);
    }
  }

  lemma AddedAfter(d: Dial, e: Event)
    requires e.Takes? ==> d.reply.Some?
    ensures DialAfter(d, e).added == if e.Appends? && e.works then d.added + 1 else d.added
  {
  }

  lemma OneMoreThrough(w: World, w': World, k: nat)
    requires k < |w.dials| == |w'.dials| && w.dials[k].added == 0 && w'.dials[k].added == 1
    requires forall d | 0 <= d < |w.dials| && d != k :: w'.dials[d].added == w.dials[d].added
    ensures |LetThrough(w')| == |LetThrough(w)| + 1
  {
    assert LetThrough(w') == LetThrough(w) + {k} && k !in LetThrough(w);
  }

  /** A line written lets one more handshake through; nothing else does. */
  lemma LetThroughAfter(w: World, e: Event)
    requires Inv(w) && Enabled(w, e)
    ensures var w' := After(w, e);
            if e.Appends? && e.works then |LetThrough(w')| == |LetThrough(w)| + 1 && |w'.known| == |w.known| + 1
            else LetThrough(w') == LetThrough(w) && w'.known == w.known
    ensures w.known <= After(w, e).known
  {
    if !e.Starts? {
      AddedAfter(w.dials[e.d], e);
      if e.Appends? && e.works {
        OneMoreThrough(w, After(w, e), e.d);
      }
    }
  }

  function LetThrough(w: World): set<int> { set d | 0 <= d < |w.dials| && w.dials[d].added == 1 }

  /** A handshake with nobody to ask, as every automatic reconnect's, asks nothing and adds nothing. */
  lemma UnattendedNeverAsks(run: seq<World>, events: seq<Event>, i: nat, d: nat)
    requires IsRun(run, events) && i < |run| && d < |run[i].dials| && !(run[i].dials[d].prompts && run[i].dials[d].append)
    ensures !run[i].dials[d].asked && run[i].dials[d].added == 0
    ensures run[i].dials[d].stage == Over(Trusted) <==> run[i].dials[d].verdict == Some(Known)
    ensures run[i].dials[d].verdict == Some(NotListed) ==> run[i].dials[d].stage == Over(NotTrusted)
  {
    InvInEveryRun(run, events, i);
    NotListedUnattended(run, events, i, d);
  }

  lemma {:induction false} NotListedUnattended(run: seq<World>, events: seq<Event>, i: nat, d: nat)
    requires IsRun(run, events) && i < |run| && d < |run[i].dials| && !(run[i].dials[d].prompts && run[i].dials[d].append)
    ensures run[i].dials[d].verdict == Some(NotListed) ==> run[i].dials[d].stage == Over(NotTrusted)
  {
    if i > 0 {
      InvInEveryRun(run, events, i - 1);
      var w, e := run[i - 1], events[i - 1];
      assert run[i] == After(w, e);
      if 0 <= d < |w.dials| {
        assert run[i].dials[d].prompts == w.dials[d].prompts && run[i].dials[d].append == w.dials[d].append;
        NotListedUnattended(run, events, i - 1, d);
      }
    }
  }

  /** A changed or revoked key cannot be approved: it is never asked about and always refused. */
  lemma ChangedIsNeverApproved(run: seq<World>, events: seq<Event>, i: nat, d: nat)
    requires IsRun(run, events) && i < |run| && d < |run[i].dials|
    requires run[i].dials[d].verdict == Some(Changed) || run[i].dials[d].verdict == Some(Revoked)
    ensures !run[i].dials[d].asked && run[i].dials[d].added == 0 && run[i].dials[d].stage == Over(Mismatch)
  {
    InvInEveryRun(run, events, i);
  }

  /** Getting through means being known already or being added by this handshake, never both. */
  lemma TrustedMeansKnownOrAdded(run: seq<World>, events: seq<Event>, i: nat, d: nat)
    requires IsRun(run, events) && i < |run| && d < |run[i].dials|
    ensures run[i].dials[d].stage == Over(Trusted) <==>
            (run[i].dials[d].verdict == Some(Known) && run[i].dials[d].added == 0) ||
            (run[i].dials[d].verdict == Some(NotListed) && run[i].dials[d].added == 1)
  {
    InvInEveryRun(run, events, i);
  }

  // ---------------------------------------------------------------- the slot

  /** The question in the user's hands. */
  class HostKeyPrompt {
    const line: string
    var reply: Option<bool>

    constructor (line: string)
      ensures this.line == line && reply == None
    {
      this.line, reply := line, None;
    }

    /** The first answer since the slot was last emptied stays. */
    method Answer(ok: bool)
      modifies this
      ensures forall d: Dial | d.reply == old(reply) :: reply == Answered(d, ok).reply
    {
      if reply == None {
        reply := Some(ok);
      }
    }

    method Accept()
      modifies this
      ensures forall d: Dial | d.reply == old(reply) :: reply == Answered(d, true).reply
    {
      Answer(true);
    }

    method Reject()
      modifies this
      ensures forall d: Dial | d.reply == old(reply) :: reply == Answered(d, false).reply
    {
      Answer(false);
    }
  }
}

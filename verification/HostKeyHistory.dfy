/** What the events of a run say of one handshake. */
module HostKeyEvents {
  import opened Options
  import opened HostKey

  /** The answers given to handshake d, in order. */
  function AnswersIn(h: seq<Event>, d: nat): seq<bool> {
    if h == [] then []
    else
      var e := h[|h| - 1];
      AnswersIn(h[..|h| - 1], d) + if e.Answers? && e.d == d then [e.ok] else []
  }

  /** The handshake's fields are what the events say. */
  ghost predicate Told(dial: Dial, h: seq<Event>, d: nat) {
    && dial.answers == AnswersIn(h, d)
    && (forall v :: dial.verdict == Some(v) <==> Checks(d, v) in h)
    && (dial.asked <==> HandsOver(d) in h)
    && Starts(dial.prompts, dial.append, dial.line) in h
    && (dial.added == 1 <==> Appends(d, true) in h)
    && (TimesOut(d) in h || Appends(d, false) in h ==> dial.stage == Over(NotTrusted))
  }

  ghost predicate AllTold(w: World, h: seq<Event>) {
    && (forall d | 0 <= d < |w.dials| :: Told(w.dials[d], h, d))
    && (forall e | e in h && !e.Starts? :: 0 <= e.d < |w.dials|)
  }
}

/** The questions and answers of a run decide who is trusted. */
module HostKeyHistory {
  import opened Options
  import opened HostKey
  import opened HostKeyEvents

  lemma OneMore(h: seq<Event>, e: Event, d: nat)
    ensures AnswersIn(h + [e], d) == AnswersIn(h, d) + if e.Answers? && e.d == d then [e.ok] else []
    ensures forall x :: x in h + [e] <==> x in h || x == e
  {
    assert (h + [e])[..|h|] == h;
  }

  lemma {:induction false} NoAnswers(h: seq<Event>, d: nat)
    requires forall e | e in h && !e.Starts? :: e.d != d
    ensures AnswersIn(h, d) == []
  {
    if h != [] {
      NoAnswers(h[..|h| - 1], d);
      assert h[|h| - 1] in h;
    }
  }

  lemma OwnStepTells(dial: Dial, h: seq<Event>, d: nat, e: Event)
    requires DialInv(dial) && Told(dial, h, d) && !e.Starts? && e.d == d
    requires Enabled(World([dial], []), e.(d := 0))
    ensures Told(DialAfter(dial, e), h + [e], d)
  {
    OneMore(h, e, d);
  }

  lemma OtherStepTells(dial: Dial, h: seq<Event>, d: nat, e: Event)
    requires Told(dial, h, d) && (e.Starts? || e.d != d)
    ensures Told(dial, h + [e], d)
  {
    OneMore(h, e, d);
  }

  lemma StartTells(h: seq<Event>, d: nat, e: Event)
    requires e.Starts? && forall x | x in h && !x.Starts? :: x.d != d
    ensures Told(Dial(e.prompts, e.append, e.line, Checking, None, None, false, [], 0), h + [e], d)
  {
    NoAnswers(h, d);
    OneMore(h, e, d);
  }

  lemma StepTells(w: World, h: seq<Event>, e: Event)
    requires Inv(w) && AllTold(w, h) && Enabled(w, e)
    ensures AllTold(After(w, e), h + [e])
  {
    var w' := After(w, e);
    OneMore(h, e, 0);
    forall d | 0 <= d < |w'.dials| ensures Told(w'.dials[d], h + [e], d) {
      if d == |w.dials| {
        StartTells(h, d, e);
      } else if !e.Starts? && e.d == d {
        OwnStepTells(w.dials[d], h, d, e);
      } else {
        OtherStepTells(w.dials[d], h, d, e);
      }
    }
  }

  lemma {:induction false} RunTells(run: seq<World>, events: seq<Event>, n: nat)
    requires IsRun(run, events) && n < |run|
    ensures AllTold(run[n], events[..n])
  {
    if n > 0 {
      var w, e := run[n - 1], events[n - 1];
      RunTells(run, events, n - 1);
      InvInEveryRun(run, events, n - 1);
      assert Enabled(w, e) && run[n - 1 + 1] == After(w, e);
      StepTells(w, events[..n - 1], e);
      assert events[..n] == events[..n - 1] + [e];
    }
  }

  lemma DialTold(run: seq<World>, events: seq<Event>, n: nat, d: nat)
    requires IsRun(run, events) && n < |run| && d < |run[n].dials|
    ensures DialInv(run[n].dials[d]) && Told(run[n].dials[d], events[..n], d)
  {
    InvInEveryRun(run, events, n);
    RunTells(run, events, n);
  }

  /** A handshake gets through exactly if its host is found on file, or its line is written. */
  lemma TrustDecides(run: seq<World>, events: seq<Event>, n: nat, d: nat)
    requires IsRun(run, events) && n < |run| && d < |run[n].dials|
    ensures run[n].dials[d].stage == Over(Trusted) <==> Checks(d, Known) in events[..n] || Appends(d, true) in events[..n]
  {
    DialTold(run, events, n, d);
  }

  lemma FirstAnswerTaken(w: World, d: nat)
    requires Enabled(w, Takes(d)) && DialInv(w.dials[d])
    ensures w.dials[d].answers != []
    ensures var w', yes := After(w, Takes(d)), w.dials[d].answers[0];
            && d < |w'.dials| && w'.known == w.known
            && w'.dials[d].stage == if yes then Accepted else Over(NotTrusted)
  {
  }

  /**
   * Reading the reply decides by the first answer given: yes leaves nothing to
   * do but writing the line, and no refuses.
   */
  lemma TakeDecides(run: seq<World>, events: seq<Event>, n: nat, d: nat)
    requires IsRun(run, events) && n < |events| && events[n] == Takes(d)
    ensures d < |run[n + 1].dials| && AnswersIn(events[..n], d) != []
    ensures var yes := AnswersIn(events[..n], d)[0];
            && (forall works :: Enabled(run[n + 1], Appends(d, works)) <==> yes)
            && (run[n + 1].dials[d].stage == Over(NotTrusted) <==> !yes)
            && !Enabled(run[n + 1], Takes(d)) && !Enabled(run[n + 1], TimesOut(d)) && run[n + 1].known == run[n].known
  {
    assert Enabled(run[n], events[n]) && run[n + 1] == After(run[n], events[n]);
    DialTold(run, events, n, d);
    FirstAnswerTaken(run[n], d);
  }

  /** The line written is the handshake's own, after a question answered yes first; written, it makes the key trusted, and else refused. */
  lemma AppendDecides(run: seq<World>, events: seq<Event>, n: nat, d: nat, works: bool)
    requires IsRun(run, events) && n < |events| && events[n] == Appends(d, works)
    ensures d < |run[n].dials| == |run[n + 1].dials|
    ensures HandsOver(d) in events[..n] && Checks(d, NotListed) in events[..n] && [true] <= AnswersIn(events[..n], d)
    ensures Starts(true, true, run[n].dials[d].line) in events[..n]
    ensures run[n + 1].known == run[n].known + if works then [run[n].dials[d].line] else []
    ensures run[n + 1].dials[d].stage == Over(if works then Trusted else NotTrusted)
  {
    assert Enabled(run[n], events[n]) && run[n + 1] == After(run[n], events[n]);
    DialTold(run, events, n, d);
  }

  /** A key found changed or revoked is refused, and so is one that could not be looked up: without a question, without a line. */
  lemma ChangedIsRefused(run: seq<World>, events: seq<Event>, n: nat, d: nat, v: Verdict)
    requires IsRun(run, events) && n < |run| && Checks(d, v) in events[..n] && v in {Changed, Revoked, Unreadable}
    ensures d < |run[n].dials| && run[n].dials[d].stage == Over(if v == Unreadable then OtherError else Mismatch)
    ensures HandsOver(d) !in events[..n] && Appends(d, true) !in events[..n] && Appends(d, false) !in events[..n]
  {
    RunTells(run, events, n);
    DialTold(run, events, n, d);
  }
}

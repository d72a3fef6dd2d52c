/** Calls in the whole system, overlapping as they like with one in flight per volume: every
    history of them is one that could have happened call after call. */
module Histories {
  import opened States
  import opened Calls
  import opened Convergence
  import opened Interleavings
  import opened Systems

  datatype Answer = Answer(call: Call, reply: Reply)

  predicate OfCalls(e: Event) { e.Begin? || e.Advance? || e.Return? }

  /** The calls a run answers, in the order of their answers. */
  function Answers(y: System, events: seq<Event>): seq<Answer>
    decreases |events|
  {
    if events == [] then []
    else
      var rest := Answers(Next(y, events[0]), events[1..]);
      var e := events[0];
      if e.Return? && e.handle in y.pool && y.pool[e.handle].pc.Finished? then
        [Answer(y.pool[e.handle].call, y.pool[e.handle].pc.reply)] + rest
      else rest
  }

  /** And those of calls made one after another. */
  function AnswersOf(s: State, made: seq<Made>): seq<Answer>
    decreases |made|
  {
    if made == [] then []
    else
      var e := Perform(s, made[0].call, made[0].oracle);
      [Answer(made[0].call, e.reply)] + AnswersOf(e.state, made[1..])
  }

  /** Every answer of a run is one call's return, with the reply it stands at. */
  lemma {:induction false} AnswersAreReturns(y: System, before: seq<Event>, h: Handle, after: seq<Event>)
    ensures var z := After(y, before);
            h in z.pool && z.pool[h].pc.Finished? ==>
              Answers(y, before + ([Return(h)] + after)) ==
                Answers(y, before) + [Answer(z.pool[h].call, z.pool[h].pc.reply)] + Answers(Next(z, Return(h)), after)
    decreases |before|
  {
    if before == [] {
      assert before + ([Return(h)] + after) == [Return(h)] + after;
      assert ([Return(h)] + after)[1..] == after;
    } else {
      assert (before + ([Return(h)] + after))[1..] == before[1..] + ([Return(h)] + after);
      AnswersAreReturns(Next(y, before[0]), before[1..], h, after);
    }
  }

  lemma FirstAnswer(s: State, made: seq<Made>)
    requires made != []
    ensures var e := Perform(s, made[0].call, made[0].oracle);
            && AnswersOf(s, made) == [Answer(made[0].call, e.reply)] + AnswersOf(e.state, made[1..])
            && PerformAll(s, made) == PerformAll(e.state, made[1..])
  {
  }

  lemma {:induction false} AnswersCount(s: State, made: seq<Made>)
    ensures |AnswersOf(s, made)| == |made|
    decreases |made|
  {
    if made != [] {
      FirstAnswer(s, made);
      AnswersCount(Perform(s, made[0].call, made[0].oracle).state, made[1..]);
    }
  }

  /** And every answer of a sequence of calls is the reply of that call after those before it. */
  lemma {:induction false} AnswerAt(s: State, made: seq<Made>, i: nat)
    requires i < |made|
    ensures |AnswersOf(s, made)| == |made|
    ensures AnswersOf(s, made)[i] ==
              Answer(made[i].call, Perform(PerformAll(s, made[..i]), made[i].call, made[i].oracle).reply)
    decreases |made|
  {
    AnswersCount(s, made);
    FirstAnswer(s, made);
    if i > 0 {
      var next := Perform(s, made[0].call, made[0].oracle).state;
      AnswerAt(next, made[1..], i - 1);
      FirstAnswer(s, made[..i]);
      assert made[..i][1..] == made[1..][..i - 1];
    }
  }

  /** The calls in flight have done what they would have done alone from the state `a` that the
      answered calls left, with the outcomes in `done`. */
  predicate ThreadMatches(y: System, a: State, done: map<Handle, seq<Outcome>>, own: Kubelet, h: Handle) {
    h in y.pool ==>
      var c := y.pool[h].call;
      && h in done && c.handle == h && own(c.target).handle == h
      && var p := Partway(a, c, First(c), done[h]);
         p.pc == y.pool[h].pc && SameFor(y.s, p.state, h, c.target)
  }

  predicate Busy(y: System, own: Kubelet, t: Path) {
    own(t).handle in y.pool && y.pool[own(t).handle].call.target == t
  }

  /** What no call in flight is about is as the answered calls left it. */
  predicate RestMatches(y: System, a: State, own: Kubelet, h: Handle, t: Path) {
    (h !in y.pool ==> SameHandle(y.s, a, h)) && (!Busy(y, own, t) ==> SameTarget(y.s, a, t))
  }

  ghost predicate Matches(y: System, a: State, done: map<Handle, seq<Outcome>>, own: Kubelet) {
    && (forall h: Handle :: ThreadMatches(y, a, done, own, h))
    && (forall h: Handle, t: Path :: RestMatches(y, a, own, h, t))
  }

  lemma {:induction false} PartwaySnoc(s: State, c: Call, pc: Pc, outcomes: seq<Outcome>, o: Outcome)
    ensures var p := Partway(s, c, pc, outcomes); Partway(s, c, pc, outcomes + [o]) == Step(p.state, c, p.pc, o)
    decreases |outcomes|
  {
    if outcomes == [] {
      assert ([] + [o])[1..] == [];
    } else {
      assert (outcomes + [o])[1..] == outcomes[1..] + [o];
      var p := Step(s, c, pc, outcomes[0]);
      PartwaySnoc(p.state, c, p.pc, outcomes[1..], o);
    }
  }

  lemma {:induction false} PartwayIsLocal(a: State, b: State, c: Call, pc: Pc, outcomes: seq<Outcome>)
    requires SameFor(a, b, c.handle, c.target)
    ensures SameFor(Partway(a, c, pc, outcomes).state, Partway(b, c, pc, outcomes).state, c.handle, c.target)
    ensures Partway(a, c, pc, outcomes).pc == Partway(b, c, pc, outcomes).pc
    decreases |outcomes|
  {
    if outcomes != [] {
      StepIsLocal(a, b, c, pc, outcomes[0]);
      var p, q := Step(a, c, pc, outcomes[0]), Step(b, c, pc, outcomes[0]);
      PartwayIsLocal(p.state, q.state, c, p.pc, outcomes[1..]);
    }
  }

  lemma BeginMatches(y: System, a: State, done: map<Handle, seq<Outcome>>, own: Kubelet, c: Call)
    requires Matches(y, a, done, own) && Enabled(y, Begin(c), own)
    ensures Matches(Next(y, Begin(c)), a, done[c.handle := []], own)
  {
    var z, begun := Next(y, Begin(c)), done[c.handle := []];
    assert RestMatches(y, a, own, c.handle, c.target);
    forall h: Handle ensures ThreadMatches(z, a, begun, own, h) {
      assert ThreadMatches(y, a, done, own, h);
    }
    forall h: Handle, t: Path ensures RestMatches(z, a, own, h, t) { assert RestMatches(y, a, own, h, t); }
  }

  /** The stepping call itself. */
  lemma StepMatches(y: System, a: State, done: map<Handle, seq<Outcome>>, own: Kubelet, h: Handle, o: Outcome)
    requires h in y.pool && ThreadMatches(y, a, done, own, h)
    ensures ThreadMatches(AfterStep(y, h, o), a, done[h := done[h] + [o]], own, h)
  {
    var c, pc := y.pool[h].call, y.pool[h].pc;
    PartwaySnoc(a, c, First(c), done[h], o);
    StepIsLocal(y.s, Partway(a, c, First(c), done[h]).state, c, pc, o);
  }

  lemma AdvanceMatches(y: System, a: State, done: map<Handle, seq<Outcome>>, own: Kubelet, h: Handle, o: Outcome)
    requires Matches(y, a, done, own) && h in y.pool
    ensures h in done && Matches(AfterStep(y, h, o), a, done[h := done[h] + [o]], own)
  {
    assert ThreadMatches(y, a, done, own, h);
    var c, pc := y.pool[h].call, y.pool[h].pc;
    var z, stepped := AfterStep(y, h, o), done[h := done[h] + [o]];
    StepMatches(y, a, done, own, h, o);
    forall g: Handle | g != h ensures ThreadMatches(z, a, stepped, own, g) {
      assert ThreadMatches(y, a, done, own, g);
      if g in y.pool { StepFrame(y.s, c, pc, o, g, y.pool[g].call.target); }
    }
    forall g: Handle, t: Path ensures RestMatches(z, a, own, g, t) {
      assert RestMatches(y, a, own, g, t);
      StepFrame(y.s, c, pc, o, g, t);
    }
  }

  /** Another call in flight when one is answered: it might as well have begun after it. */
  lemma AnsweredMatches(y: System, a: State, done: map<Handle, seq<Outcome>>, own: Kubelet, h: Handle, g: Handle)
    requires h in y.pool && g in y.pool && g != h
    requires ThreadMatches(y, a, done, own, h) && ThreadMatches(y, a, done, own, g)
    ensures var c := y.pool[h].call;
            ThreadMatches(AfterReturn(y, h), Partway(a, c, First(c), done[h]).state, done, own, g)
  {
    var c, d := y.pool[h].call, y.pool[g].call;
    var b := Partway(a, c, First(c), done[h]).state;
    PartwayFrame(a, c, First(c), done[h], g, d.target);
    PartwayIsLocal(b, a, d, First(d), done[g]);
  }

  lemma ReturnMatches(y: System, a: State, done: map<Handle, seq<Outcome>>, own: Kubelet, h: Handle)
    requires Matches(y, a, done, own) && h in y.pool && h in done
    ensures var c := y.pool[h].call;
            Matches(AfterReturn(y, h), Partway(a, c, First(c), done[h]).state, done, own)
  {
    assert ThreadMatches(y, a, done, own, h);
    var c := y.pool[h].call;
    var b, z := Partway(a, c, First(c), done[h]).state, AfterReturn(y, h);
    forall g: Handle ensures ThreadMatches(z, b, done, own, g) {
      assert ThreadMatches(y, a, done, own, g);
      if g in y.pool && g != h { AnsweredMatches(y, a, done, own, h, g); }
    }
    forall g: Handle, t: Path ensures RestMatches(z, b, own, g, t) {
      assert RestMatches(y, a, own, g, t);
      PartwayFrame(a, c, First(c), done[h], g, t);
    }
  }

  lemma {:induction false} RunMatches(
      y: System, events: seq<Event>, a: State, done: map<Handle, seq<Outcome>>, own: Kubelet)
    returns (made: seq<Made>)
    requires Matches(y, a, done, own) && IsRun(y, events, own) && forall e | e in events :: OfCalls(e)
    requires After(y, events).pool == map[]
    ensures After(y, events).s == PerformAll(a, made)
    ensures Answers(y, events) == AnswersOf(a, made)
    decreases |events|
  {
    made := [];
    if events == [] {
      forall h: Handle ensures SameHandle(y.s, a, h) { assert RestMatches(y, a, own, h, Path("")); }
      forall t: Path ensures SameTarget(y.s, a, t) { assert RestMatches(y, a, own, Handle(""), t); }
      SameEverywhere(y.s, a);
    } else {
      var e, rest := events[0], events[1..];
      assert OfCalls(e);
      match e
      case Begin(c) =>
        BeginMatches(y, a, done, own, c);
        made := RunMatches(Next(y, e), rest, a, done[c.handle := []], own);
      case Advance(h, o) =>
        AdvanceMatches(y, a, done, own, h, o);
        made := RunMatches(Next(y, e), rest, a, done[h := done[h] + [o]], own);
      case Return(h) =>
        var c := y.pool[h].call;
        assert ThreadMatches(y, a, done, own, h);
        ReturnMatches(y, a, done, own, h);
        var p := Partway(a, c, First(c), done[h]);
        var later := RunMatches(Next(y, e), rest, p.state, done, own);
        FinishedIsPerformed(a, c, First(c), done[h]);
        made := [Made(c, OracleOf(a, c, First(c), done[h]))] + later;
        assert made[1..] == later;
    }
  }

  /** Any run of calls that begin, step and return as they like, with one in flight per volume
      and as many per volume in sequence as there are, ends in the state and gives the replies
      of the same calls made one after another, in the order of their answers. */
  lemma HistoriesAreSerial(y: System, events: seq<Event>, own: Kubelet) returns (made: seq<Made>)
    requires IsRun(y, events, own) && forall e | e in events :: OfCalls(e)
    requires y.pool == map[] && After(y, events).pool == map[]
    ensures After(y, events).s == PerformAll(y.s, made)
    ensures Answers(y, events) == AnswersOf(y.s, made)
  {
    forall h: Handle, t: Path ensures RestMatches(y, y.s, own, h, t) {}
    made := RunMatches(y, events, y.s, map[], own);
  }

  // ---- one call as a run ----

  function Advances(h: Handle, outcomes: seq<Outcome>): seq<Event> {
    seq(|outcomes|, i requires 0 <= i < |outcomes| => Advance(h, outcomes[i]))
  }

  /** Steps of one call with nothing in between are the step program, and a run. */
  lemma {:induction false} AdvancesArePartway(y: System, h: Handle, outcomes: seq<Outcome>, own: Kubelet)
    requires h in y.pool
    ensures IsRun(y, Advances(h, outcomes), own)
    ensures var th := y.pool[h];
            var p := Partway(y.s, th.call, th.pc, outcomes);
            var z := After(y, Advances(h, outcomes));
            && z == y.(s := p.state, pool := y.pool[h := Thread(th.call, p.pc)], half := z.half, acked := z.acked)
            && forall t | t != th.call.target :: t in z.acked <==> t in y.acked
    decreases |outcomes|
  {
    if outcomes == [] {
      assert y.pool[h := y.pool[h]] == y.pool;
    } else {
      var events := Advances(h, outcomes);
      assert events[0] == Advance(h, outcomes[0]) && events[1..] == Advances(h, outcomes[1..]);
      AdvancesArePartway(Next(y, events[0]), h, outcomes[1..], own);
    }
  }

  /** The outcomes a call meets. */
  function OutcomesOf(s: State, c: Call, pc: Pc, o: Oracle): seq<Outcome>
    decreases Rank(pc)
  {
    if pc.Finished? then []
    else var p := Step(s, c, pc, o(pc)); [o(pc)] + OutcomesOf(p.state, c, p.pc, o)
  }

  lemma {:induction false} OutcomesComplete(s: State, c: Call, pc: Pc, o: Oracle)
    ensures var e := Complete(s, c, pc, o);
            Partway(s, c, pc, OutcomesOf(s, c, pc, o)) == Point(e.state, Finished(e.reply))
    ensures (forall q :: o(q).Works?) ==> forall x | x in OutcomesOf(s, c, pc, o) :: x.Works?
    decreases Rank(pc)
  {
    if !pc.Finished? {
      var p := Step(s, c, pc, o(pc));
      OutcomesComplete(p.state, c, p.pc, o);
      assert ([o(pc)] + OutcomesOf(p.state, c, p.pc, o))[1..] == OutcomesOf(p.state, c, p.pc, o);
    }
  }

  function WholeCall(s: State, c: Call, o: Oracle): seq<Event> {
    [Begin(c)] + Advances(c.handle, OutcomesOf(s, c, First(c), o)) + [Return(c.handle)]
  }

  /** A call from beginning to answer, with nothing else in between, is a run that does what the
      handler does; and an acknowledged publish whose target is mounted counts from then on. */
  lemma WholeCallIsARun(y: System, c: Call, o: Oracle, own: Kubelet)
    requires y.phase.Serving? && y.pool == map[] && Conforms(c, own)
    ensures IsRun(y, WholeCall(y.s, c, o), own)
    ensures var e := Perform(y.s, c, o);
            var z := After(y, WholeCall(y.s, c, o));
            && z == y.(s := e.state, half := z.half, acked := z.acked)
            && (forall t | t != c.target :: t in z.acked <==> t in y.acked)
            && (c.Publish? && e.reply == Success && Mounted(z, c.target) ==> c.target in z.acked)
  {
    var h, outcomes := c.handle, OutcomesOf(y.s, c, First(c), o);
    var y1 := Next(y, Begin(c));
    var y2 := After(y1, Advances(h, outcomes));
    OutcomesComplete(y.s, c, First(c), o);
    AdvancesArePartway(y1, h, outcomes, own);
    OneEvent(y, Begin(c), own);
    Joined(y, [Begin(c)], Advances(h, outcomes), own);
    OneMore(y, [Begin(c)] + Advances(h, outcomes), Return(h), own);
    assert y2.pool - {h} == map[];
  }
}

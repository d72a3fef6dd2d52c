/** Calls on different volumes run side by side. However their steps interleave, the outcome
    is that of the same calls made one after another, in whatever order one likes. */
module Interleavings {
  import opened States
  import opened Calls
  import opened Convergence

  /** A call in flight. */
  datatype Thread = Thread(call: Call, pc: Pc)

  /** At most one call is in flight per volume, so threads go by handle. */
  datatype Config = Config(state: State, pool: map<Handle, Thread>)

  /** The scheduler lets one call take its next step, with that outcome. */
  datatype Turn = Turn(handle: Handle, outcome: Outcome)

  function Take(g: Config, u: Turn): Config {
    if u.handle !in g.pool then g
    else
      var th := g.pool[u.handle];
      var p := Step(g.state, th.call, th.pc, u.outcome);
      Config(p.state, g.pool[u.handle := Thread(th.call, p.pc)])
  }

  function Run(g: Config, turns: seq<Turn>): Config
    decreases |turns|
  {
    if turns == [] then g else Run(Take(g, turns[0]), turns[1..])
  }

  /** Threads stand under their own handles, and no two share a target. */
  ghost predicate Apart(pool: map<Handle, Thread>) {
    && (forall h | h in pool :: pool[h].call.handle == h)
    && (forall h, g | h in pool && g in pool && h != g :: pool[h].call.target != pool[g].call.target)
  }

  function Of(turns: seq<Turn>, h: Handle): seq<Turn> {
    if turns == [] then []
    else if turns[0].handle == h then [turns[0]] + Of(turns[1..], h)
    else Of(turns[1..], h)
  }

  function Without(turns: seq<Turn>, h: Handle): seq<Turn> {
    if turns == [] then []
    else if turns[0].handle == h then Without(turns[1..], h)
    else [turns[0]] + Without(turns[1..], h)
  }

  /** Two steps of calls on different handles and targets commute. */
  lemma StepsCommute(s: State, x: Thread, y: Thread, ox: Outcome, oy: Outcome)
    requires x.call.handle != y.call.handle && x.call.target != y.call.target
    ensures var px := Step(s, x.call, x.pc, ox);
            var py := Step(s, y.call, y.pc, oy);
            && Step(px.state, y.call, y.pc, oy).pc == py.pc
            && Step(py.state, x.call, x.pc, ox).pc == px.pc
            && Step(px.state, y.call, y.pc, oy).state == Step(py.state, x.call, x.pc, ox).state
  {
    var px := Step(s, x.call, x.pc, ox);
    var py := Step(s, y.call, y.pc, oy);
    StepFrame(s, x.call, x.pc, ox, y.call.handle, y.call.target);
    StepFrame(s, y.call, y.pc, oy, x.call.handle, x.call.target);
    StepIsLocal(px.state, s, y.call, y.pc, oy);
    StepIsLocal(py.state, s, x.call, x.pc, ox);
    var a, b := Step(px.state, y.call, y.pc, oy).state, Step(py.state, x.call, x.pc, ox).state;
    forall h: Handle ensures SameHandle(a, b, h) { CommuteAt(s, x, y, ox, oy, h, x.call.target); }
    forall t: Path ensures SameTarget(a, b, t) { CommuteAt(s, x, y, ox, oy, x.call.handle, t); }
    SameEverywhere(a, b);
  }

  lemma CommuteAt(s: State, x: Thread, y: Thread, ox: Outcome, oy: Outcome, h: Handle, t: Path)
    requires x.call.handle != y.call.handle && x.call.target != y.call.target
    ensures var px := Step(s, x.call, x.pc, ox);
            var py := Step(s, y.call, y.pc, oy);
            var a, b := Step(px.state, y.call, y.pc, oy).state, Step(py.state, x.call, x.pc, ox).state;
            SameHandle(a, b, h) && SameTarget(a, b, t)
  {
    var px := Step(s, x.call, x.pc, ox);
    var py := Step(s, y.call, y.pc, oy);
    StepFrame(s, x.call, x.pc, ox, h, t);
    StepFrame(s, y.call, y.pc, oy, h, t);
    StepFrame(px.state, y.call, y.pc, oy, h, t);
    StepFrame(py.state, x.call, x.pc, ox, h, t);
    StepFrame(s, x.call, x.pc, ox, y.call.handle, y.call.target);
    StepFrame(s, y.call, y.pc, oy, x.call.handle, x.call.target);
    StepIsLocal(px.state, s, y.call, y.pc, oy);
    StepIsLocal(py.state, s, x.call, x.pc, ox);
  }

  lemma TurnsCommute(g: Config, u: Turn, v: Turn)
    requires Apart(g.pool) && u.handle != v.handle
    ensures Take(Take(g, u), v) == Take(Take(g, v), u)
  {
    if u.handle in g.pool && v.handle in g.pool {
      var x, y := g.pool[u.handle], g.pool[v.handle];
      StepsCommute(g.state, x, y, u.outcome, v.outcome);
      var px := Step(g.state, x.call, x.pc, u.outcome).pc;
      var py := Step(g.state, y.call, y.pc, v.outcome).pc;
      assert g.pool[u.handle := Thread(x.call, px)][v.handle := Thread(y.call, py)] ==
             g.pool[v.handle := Thread(y.call, py)][u.handle := Thread(x.call, px)];
    }
  }

  lemma TakeStaysApart(g: Config, u: Turn)
    requires Apart(g.pool)
    ensures Apart(Take(g, u).pool) && Take(g, u).pool.Keys == g.pool.Keys
  {
  }

  /** One turn of another thread can come after any run of this thread instead of before it. */
  lemma {:induction false} TurnPastThread(g: Config, u: Turn, turns: seq<Turn>, h: Handle)
    requires Apart(g.pool) && u.handle != h && forall v | v in turns :: v.handle == h
    ensures Run(Take(g, u), turns) == Take(Run(g, turns), u)
    decreases |turns|
  {
    if turns != [] {
      TurnsCommute(g, u, turns[0]);
      TakeStaysApart(g, turns[0]);
      TurnPastThread(Take(g, turns[0]), u, turns[1..], h);
    }
  }

  lemma {:induction false} OfIsOnly(turns: seq<Turn>, h: Handle)
    ensures forall u | u in Of(turns, h) :: u.handle == h
    ensures forall u | u in Without(turns, h) :: u.handle != h
    ensures forall u | u in Without(turns, h) :: u in turns
  {
    if turns != [] { OfIsOnly(turns[1..], h); }
  }

  /** Any one call can be pulled out of an interleaving and run first, all at once. */
  lemma {:induction false} PullOut(g: Config, turns: seq<Turn>, h: Handle)
    requires Apart(g.pool)
    ensures Run(g, turns) == Run(Run(g, Of(turns, h)), Without(turns, h))
    decreases |turns|
  {
    if turns != [] {
      var u, rest := turns[0], turns[1..];
      TakeStaysApart(g, u);
      PullOut(Take(g, u), rest, h);
      OfIsOnly(rest, h);
      if u.handle == h {
        assert ([u] + Of(rest, h))[1..] == Of(rest, h);
      } else {
        TurnPastThread(g, u, Of(rest, h), h);
        assert ([u] + Without(rest, h))[1..] == Without(rest, h);
      }
    }
  }

  function Outcomes(turns: seq<Turn>): seq<Outcome> {
    seq(|turns|, i requires 0 <= i < |turns| => turns[i].outcome)
  }

  /** Turns of one thread alone are its steps in sequence. */
  lemma {:induction false} AloneIsPartway(g: Config, turns: seq<Turn>, h: Handle)
    requires h in g.pool && forall u | u in turns :: u.handle == h
    ensures var th := g.pool[h];
            var p := Partway(g.state, th.call, th.pc, Outcomes(turns));
            Run(g, turns) == Config(p.state, g.pool[h := Thread(th.call, p.pc)])
    decreases |turns|
  {
    if turns == [] {
      assert g.pool[h := g.pool[h]] == g.pool;
    } else {
      AloneIsPartway(Take(g, turns[0]), turns[1..], h);
      assert Outcomes(turns)[1..] == Outcomes(turns[1..]);
    }
  }

  /** The outcomes of a run that finished, as an oracle for its steps. */
  function OracleOf(s: State, c: Call, pc: Pc, outcomes: seq<Outcome>): Oracle
    decreases |outcomes|
  {
    if outcomes == [] || pc.Finished? then _ => Works
    else
      var p := Step(s, c, pc, outcomes[0]);
      var rest := OracleOf(p.state, c, p.pc, outcomes[1..]);
      (q: Pc) => if q == pc then outcomes[0] else rest(q)
  }

  /** An oracle's answer for a step that is past makes no difference. */
  lemma {:induction false} PastDoesNotMatter(s: State, c: Call, pc: Pc, a: Oracle, b: Oracle)
    requires forall q: Pc :: Rank(q) <= Rank(pc) ==> a(q) == b(q)
    ensures Complete(s, c, pc, a) == Complete(s, c, pc, b)
    decreases Rank(pc)
  {
    if !pc.Finished? {
      var p := Step(s, c, pc, a(pc));
      PastDoesNotMatter(p.state, c, p.pc, a, b);
    }
  }

  /** A call that ran to its end step by step did what the handler does in one go. */
  lemma {:induction false} FinishedIsPerformed(s: State, c: Call, pc: Pc, outcomes: seq<Outcome>)
    requires Partway(s, c, pc, outcomes).pc.Finished?
    ensures var p := Partway(s, c, pc, outcomes);
            Complete(s, c, pc, OracleOf(s, c, pc, outcomes)) == Ended(p.state, p.pc.reply)
    decreases |outcomes|
  {
    if pc.Finished? {
      StaysFinished(s, c, pc, outcomes);
    } else {
      var p := Step(s, c, pc, outcomes[0]);
      FinishedIsPerformed(p.state, c, p.pc, outcomes[1..]);
      PastDoesNotMatter(p.state, c, p.pc, OracleOf(s, c, pc, outcomes), OracleOf(p.state, c, p.pc, outcomes[1..]));
    }
  }

  // ---- the main result ----

  /** The given calls, all about to start. */
  function Started(calls: seq<Call>): map<Handle, Thread> {
    if calls == [] then map[] else Started(calls[1..])[calls[0].handle := Thread(calls[0], First(calls[0]))]
  }

  predicate Distinct(calls: seq<Call>) {
    forall i, j | 0 <= i < j < |calls| ::
      calls[i].handle != calls[j].handle && calls[i].target != calls[j].target
  }

  lemma {:induction false} StartedApart(calls: seq<Call>)
    requires Distinct(calls)
    ensures Apart(Started(calls))
    ensures forall h :: h in Started(calls) <==> exists c :: c in calls && c.handle == h
    ensures forall c | c in calls :: Started(calls)[c.handle] == Thread(c, First(c))
  {
    if calls != [] {
      StartedApart(calls[1..]);
      forall c | c in calls[1..] ensures c.handle != calls[0].handle && c.target != calls[0].target {
        var i :| 0 < i < |calls| && calls[i] == c;
      }
      forall h ensures h in Started(calls) <==> exists c :: c in calls && c.handle == h {
        if h in Started(calls[1..]) {
          var c :| c in calls[1..] && c.handle == h;
          assert c in calls;
        }
        if exists c :: c in calls && c.handle == h {
          var c :| c in calls && c.handle == h;
          assert c == calls[0] || c in calls[1..];
        }
        assert calls[0] in calls;
      }
    }
  }

  /** A thread that takes no turn can be left out. */
  lemma {:induction false} Bystander(g: Config, turns: seq<Turn>, h: Handle, th: Thread)
    requires h !in g.pool && forall u | u in turns :: u.handle != h
    ensures Run(Config(g.state, g.pool[h := th]), turns) == Config(Run(g, turns).state, Run(g, turns).pool[h := th])
    ensures h !in Run(g, turns).pool
    decreases |turns|
  {
    if turns != [] {
      var u := turns[0];
      var with := Config(g.state, g.pool[h := th]);
      assert Take(with, u).pool == Take(g, u).pool[h := th];
      Bystander(Take(g, u), turns[1..], h, th);
    }
  }

  /** What each of the calls answers when they are made one after another. */
  function Replies(s: State, calls: seq<Made>): seq<Reply>
    decreases |calls|
  {
    if calls == [] then []
    else
      var e := Perform(s, calls[0].call, calls[0].oracle);
      [e.reply] + Replies(e.state, calls[1..])
  }

  /** The serial run that an interleaving amounts to, in the order the calls are listed. */
  function Serial(s: State, calls: seq<Call>, turns: seq<Turn>): seq<Made>
    decreases |calls|
  {
    if calls == [] then []
    else
      var c := calls[0];
      var o := OracleOf(s, c, First(c), Outcomes(Of(turns, c.handle)));
      [Made(c, o)] + Serial(Perform(s, c, o).state, calls[1..], Without(turns, c.handle))
  }

  /** An interleaving is the first call on its own, then an interleaving of the others. */
  lemma FirstOut(s: State, calls: seq<Call>, turns: seq<Turn>)
    requires Distinct(calls) && calls != []
    ensures var c, h := calls[0], calls[0].handle;
            var p := Partway(s, c, First(c), Outcomes(Of(turns, h)));
            var rest := Run(Config(p.state, Started(calls[1..])), Without(turns, h));
            && h !in Started(calls[1..]) && h !in rest.pool
            && Run(Config(s, Started(calls)), turns) == Config(rest.state, rest.pool[h := Thread(c, p.pc)])
  {
    StartedApart(calls);
    StartedApart(calls[1..]);
    var c, h := calls[0], calls[0].handle;
    var g := Config(s, Started(calls));
    OfIsOnly(turns, h);
    PullOut(g, turns, h);
    AloneIsPartway(g, Of(turns, h), h);
    var p := Partway(s, c, First(c), Outcomes(Of(turns, h)));
    assert h !in Started(calls[1..]) by {
      assert forall d | d in calls[1..] :: exists i :: 0 < i < |calls| && calls[i] == d;
    }
    var rest0 := Config(p.state, Started(calls[1..]));
    assert g.pool[h := Thread(c, p.pc)] == rest0.pool[h := Thread(c, p.pc)];
    Bystander(rest0, Without(turns, h), h, Thread(c, p.pc));
  }

  ghost predicate AllAnswered(pool: map<Handle, Thread>) {
    forall h | h in pool :: pool[h].pc.Finished?
  }

  /** Every interleaving of the steps of calls on distinct handles and targets, run until all
      have answered, leaves the state and gives the replies of those calls made one after
      another. The order of `calls` is any order: the interleaving does not depend on it. */
  lemma {:induction false} InterleavingsAreSerial(s: State, calls: seq<Call>, turns: seq<Turn>)
    requires Distinct(calls) && AllAnswered(Run(Config(s, Started(calls)), turns).pool)
    ensures var end := Run(Config(s, Started(calls)), turns);
            var made := Serial(s, calls, turns);
            && |made| == |calls| == |Replies(s, made)|
            && (forall i | 0 <= i < |calls| :: made[i].call == calls[i])
            && end.state == PerformAll(s, made)
            && (forall i | 0 <= i < |calls| :: calls[i].handle in end.pool &&
                  end.pool[calls[i].handle].pc == Finished(Replies(s, made)[i]))
    decreases |calls|
  {
    if calls == [] {
      NobodyRuns(Config(s, map[]), turns);
    } else {
      var c, h := calls[0], calls[0].handle;
      FirstOut(s, calls, turns);
      var p := Partway(s, c, First(c), Outcomes(Of(turns, h)));
      var rest := Run(Config(p.state, Started(calls[1..])), Without(turns, h));
      var end := Run(Config(s, Started(calls)), turns);
      assert p.pc == end.pool[h].pc;
      FinishedIsPerformed(s, c, First(c), Outcomes(Of(turns, h)));
      forall k | k in rest.pool ensures rest.pool[k].pc.Finished? { assert end.pool[k] == rest.pool[k]; }
      InterleavingsAreSerial(p.state, calls[1..], Without(turns, h));
      SerialStep(s, calls, turns, p);
    }
  }

  lemma SerialStep(s: State, calls: seq<Call>, turns: seq<Turn>, p: Point)
    requires calls != [] && p == Partway(s, calls[0], First(calls[0]), Outcomes(Of(turns, calls[0].handle)))
    requires p.pc.Finished?
    requires Perform(s, calls[0], OracleOf(s, calls[0], First(calls[0]), Outcomes(Of(turns, calls[0].handle))))
          == Ended(p.state, p.pc.reply)
    ensures var made := Serial(s, calls, turns);
            var later := Serial(p.state, calls[1..], Without(turns, calls[0].handle));
            && made != [] && made[0].call == calls[0] && made[1..] == later
            && PerformAll(s, made) == PerformAll(p.state, later)
            && Replies(s, made) == [p.pc.reply] + Replies(p.state, later)
  {
    var made := Serial(s, calls, turns);
    var later := Serial(p.state, calls[1..], Without(turns, calls[0].handle));
    assert made == [made[0]] + later;
    assert made[1..] == later;
  }

  lemma {:induction false} NobodyRuns(g: Config, turns: seq<Turn>)
    requires g.pool == map[]
    ensures Run(g, turns) == g
    decreases |turns|
  {
    if turns != [] { NobodyRuns(g, turns[1..]); }
  }
}

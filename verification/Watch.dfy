/** sweep.go's event loop: deletions wake it through a channel with one slot, a ticker wakes it
    as well, and every turn lists the volumes anew. */
module Watch {
  import opened Wrappers
  import opened States
  import opened Calls
  import opened Convergence
  import Restart
  import opened Sweeps

  /** The loop waits at its select, has received and not yet listed, or goes through a pass. */
  datatype Stage = Waiting | Received | Sweeping

  /** The handles this driver's volumes in the store name. */
  function Named(volumes: map<string, Object>): set<Handle> {
    set name | name in volumes && IsOurs(volumes[name]) :: volumes[name].source.value.handle
  }

  predicate IsOurs(o: Object) { o.Volume? && o.source.Some? && o.source.value.driver == "per-node.liken.sh" }

  /** `volumes` is the informer's store, the volumes of every driver by name. `deleted` counts the
      deletions the store has taken in, `woken` those whose handler has run, and `covered` those
      the store had taken in at the last list, which named `named`. */
  datatype Loop = Loop(
    volumes: map<string, Object>,
    deleted: nat,
    woken: nat,
    queued: nat,
    turn: Stage,
    covered: nat,
    named: set<Handle>)

  datatype Event =
    | Add(name: string, object: Object)
    | Delete(name: string)
    | Wake
    | Receive
    | Tick
    | List(listing: Option<seq<Handle>>, removals: Handle -> Removal)
    | Done
    | Serve(call: Call, oracle: Oracle)

  /** client-go takes a deletion into its store before it calls the handler, once for each. What a
      volume's source names never changes under the volume's name. */
  predicate Enabled(l: Loop, e: Event) {
    match e
    case Add(name, o) => name in l.volumes ==> l.volumes[name] == o
    case Delete(name) => name in l.volumes
    case Wake => l.woken < l.deleted
    case Receive => l.turn.Waiting? && l.queued > 0
    case Tick => l.turn.Waiting?
    case List(_, _) => l.turn.Received?
    case Done => l.turn.Sweeping?
    case Serve(_, _) => true
  }

  /** A send on a channel with one slot that never blocks: a full slot stays full. */
  function Sent(queued: nat): nat { if queued < 1 then queued + 1 else queued }

  function Next(l: Loop, e: Event): Loop {
    match e
    case Add(name, o) => l.(volumes := l.volumes[name := o])
    case Delete(name) => l.(volumes := l.volumes - {name}, deleted := l.deleted + 1)
    case Wake => l.(woken := l.woken + 1, queued := Sent(l.queued))
    case Receive => l.(turn := Received, queued := if l.queued > 0 then l.queued - 1 else 0)
    case Tick => l.(turn := Received)
    case List(_, _) => l.(turn := Sweeping, covered := l.deleted, named := Named(l.volumes))
    case Done => l.(turn := Waiting)
    case Serve(_, _) => l
  }

  ghost predicate IsRun(l: Loop, events: seq<Event>)
    decreases |events|
  {
    events != [] ==> Enabled(l, events[0]) && IsRun(Next(l, events[0]), events[1..])
  }

  function After(l: Loop, events: seq<Event>): Loop
    decreases |events|
  {
    if events == [] then l else After(Next(l, events[0]), events[1..])
  }

  /** The first read is in, and the first pass, which nothing has to wake, is about to list. */
  predicate Synced(l: Loop) {
    l.deleted == l.woken == l.queued == l.covered == 0 && l.turn.Received? && l.named == {}
  }

  /** A deletion whose handler has run, by its number, has a turn coming or was listed over. */
  predicate Covered(l: Loop, i: nat) {
    i < l.covered || l.queued > 0 || l.turn.Received?
  }

  ghost predicate Inv(l: Loop) {
    && l.queued <= 1 && l.woken <= l.deleted && l.covered <= l.deleted
    && (forall i: nat | i < l.woken :: Covered(l, i))
    && (l.covered == l.deleted ==> l.named <= Named(l.volumes))
  }

  lemma EventKeeps(l: Loop, e: Event)
    requires Inv(l) && Enabled(l, e)
    ensures Inv(Next(l, e))
  {
    var m := Next(l, e);
    forall i: nat | i < m.woken ensures Covered(m, i) {
      if i < l.woken { assert Covered(l, i); }
    }
    if e.Add? {
      forall h | h in Named(l.volumes) ensures h in Named(m.volumes) {
        var name :| name in l.volumes && IsOurs(l.volumes[name]) && l.volumes[name].source.value.handle == h;
        assert m.volumes[name] == l.volumes[name];
      }
    }
  }

  lemma {:induction false} RunKeeps(l: Loop, events: seq<Event>)
    requires Inv(l) && IsRun(l, events)
    ensures Inv(After(l, events))
    decreases |events|
  {
    if events != [] {
      EventKeeps(l, events[0]);
      RunKeeps(Next(l, events[0]), events[1..]);
    }
  }

  /** No deletion is lost: in every interleaving of deletions, their handlers, ticks and passes,
      each deletion whose handler has run is covered by the full slot, by a turn that has yet to
      list, or by a list taken after it; and the slot never holds more than one wake. */
  lemma NoLostDeletion(l: Loop, events: seq<Event>)
    requires Synced(l) && IsRun(l, events)
    ensures var m := After(l, events);
            m.queued <= 1 && forall i: nat | i < m.woken :: Covered(m, i)
  {
    RunKeeps(l, events);
  }

  /** Once every handler has run, the slot is empty and no turn has still to list, the last list
      names no volume that is gone: nothing keeps an orphan's copy but a hold. */
  lemma QuietMeansListed(l: Loop, events: seq<Event>)
    requires Synced(l) && IsRun(l, events)
    ensures var m := After(l, events);
            m.woken == m.deleted && m.queued == 0 && !m.turn.Received? ==>
              m.covered == m.deleted && m.named <= Named(m.volumes)
  {
    RunKeeps(l, events);
    var m := After(l, events);
    if m.woken == m.deleted && m.queued == 0 && !m.turn.Received? && m.deleted > 0 {
      assert Covered(m, m.deleted - 1);
    }
  }

  /** What the loop does next by itself, up to and including a list, if a wake waits for it. */
  function Onward(l: Loop, removals: Handle -> Removal): seq<Event> {
    if l.turn.Received? then [List(None, removals)]
    else if l.queued == 0 then []
    else if l.turn.Waiting? then [Receive, List(None, removals)]
    else [Done, Receive, List(None, removals)]
  }

  /** Whatever state a deletion's handler leaves behind, the loop's own next events are enabled
      and end in a list that covers it, with nothing else having to happen. */
  lemma WakeIsEnough(l: Loop, removals: Handle -> Removal)
    requires Inv(l)
    ensures IsRun(l, Onward(l, removals))
    ensures l.woken <= After(l, Onward(l, removals)).covered
  {
    var listing := List(None, removals);
    if l.turn.Received? {
      assert [listing][1..] == [];
    } else if l.queued == 0 {
      if l.woken > 0 { assert Covered(l, l.woken - 1); }
    } else {
      assert [Receive, listing][1..] == [listing] && [listing][1..] == [];
      if l.turn.Waiting? {
        RunOfTwo(l, Receive, listing);
      } else {
        assert [Done, Receive, listing][1..] == [Receive, listing];
        RunOfTwo(Next(l, Done), Receive, listing);
      }
    }
  }

  lemma RunOfTwo(l: Loop, d: Event, e: Event)
    ensures IsRun(l, [d, e]) <==> Enabled(l, d) && Enabled(Next(l, d), e)
    ensures After(l, [d, e]) == Next(Next(l, d), e)
  {
    var m := Next(l, d);
    assert [d, e][0] == d && [d, e][1..] == [e] && [e][0] == e && [e][1..] == [];
    assert IsRun(m, [e]) <==> Enabled(m, e);
    assert After(m, [e]) == After(Next(m, e), []);
  }

  function Receives(events: seq<Event>): nat {
    if events == [] then 0 else (if events[0].Receive? then 1 else 0) + Receives(events[1..])
  }

  /** However many deletions came before, the loop is woken for them once. */
  lemma {:induction false} BurstCostsOnePass(l: Loop, events: seq<Event>)
    requires Inv(l) && IsRun(l, events) && forall e | e in events :: !e.Wake?
    ensures Receives(events) + After(l, events).queued == l.queued <= 1
    decreases |events|
  {
    if events != [] {
      EventKeeps(l, events[0]);
      BurstCostsOnePass(Next(l, events[0]), events[1..]);
    }
  }

  /** What an event does to memory, disk and kernel: a turn's pass keeps what its own list names
      and what is held at that moment, and between the loop's steps calls are served. */
  function WorldAfter(l: Loop, s: State, e: Event): State {
    match e
    case List(Some(listing), removals) =>
      s.(disk := SweepEach(s.disk, Named(l.volumes) + s.holds.Keys, listing, removals))
    case Serve(c, o) => Perform(s, c, o).state
    case _ => s
  }

  function WorldAfterAll(l: Loop, s: State, events: seq<Event>): State
    decreases |events|
  {
    if events == [] then s else WorldAfterAll(Next(l, events[0]), WorldAfter(l, s, events[0]), events[1..])
  }

  /** A handler that ran before the store had taken its deletion in would lose it: the turn it
      wakes still lists the volume, and nothing wakes another. */
  lemma EarlyWakeLosesDeletion(l: Loop, name: string, listing: Event)
    requires Synced(l) && name in l.volumes && IsOurs(l.volumes[name]) && listing.List?
    ensures var woken := Next(Next(Next(Next(l, listing), Done), Wake), Receive);
            var m := Next(Next(Next(woken, listing), Done), Delete(name));
            && m.turn.Waiting? && m.queued == 0 && m.woken == m.deleted && name !in m.volumes
            && l.volumes[name].source.value.handle in m.named
  {
  }

  // ---- a copy dies with its volume ----

  /** After the last list nothing lists again, and nobody publishes the handle. */
  predicate Settling(e: Event, h: Handle) {
    !e.List? && (e.Serve? && e.call.Publish? ==> e.call.handle != h)
  }

  lemma {:induction false} AfterAppend(l: Loop, a: seq<Event>, b: seq<Event>)
    ensures After(l, a + b) == After(After(l, a), b)
    ensures IsRun(l, a + b) <==> IsRun(l, a) && IsRun(After(l, a), b)
    decreases |a|
  {
    if a == [] {
      assert a + b == b;
    } else {
      assert (a + b)[1..] == a[1..] + b;
      AfterAppend(Next(l, a[0]), a[1..], b);
    }
  }

  lemma {:induction false} WorldAppend(l: Loop, s: State, a: seq<Event>, b: seq<Event>)
    ensures WorldAfterAll(l, s, a + b) == WorldAfterAll(After(l, a), WorldAfterAll(l, s, a), b)
    decreases |a|
  {
    if a == [] {
      assert a + b == b;
    } else {
      assert (a + b)[1..] == a[1..] + b;
      WorldAppend(Next(l, a[0]), WorldAfter(l, s, a[0]), a[1..], b);
    }
  }

  /** A call on another handle, and any unpublish, neither makes nor takes the copy. */
  lemma CallLeavesCopy(s: State, c: Call, o: Oracle, h: Handle)
    requires c.Publish? ==> c.handle != h
    ensures h in Perform(s, c, o).state.disk.copies <==> h in s.disk.copies
  {
    if c.Unpublish? {
      UnpublishDestroysNothing(s, c, First(c), o);
    } else {
      CompleteFrame(s, c, First(c), o, h, c.target);
    }
  }

  lemma {:induction false} SettlingLeavesCopy(l: Loop, s: State, events: seq<Event>, h: Handle)
    requires forall e | e in events :: Settling(e, h)
    ensures h in WorldAfterAll(l, s, events).disk.copies <==> h in s.disk.copies
    ensures After(l, events).covered == l.covered && After(l, events).named == l.named
    decreases |events|
  {
    if events != [] {
      var e := events[0];
      assert Settling(e, h);
      if e.Serve? { CallLeavesCopy(s, e.call, e.oracle, h); }
      SettlingLeavesCopy(Next(l, e), WorldAfter(l, s, e), events[1..], h);
    }
  }

  predicate AtRest(l: Loop) { l.woken == l.deleted && l.queued == 0 && !l.turn.Received? }

  /** A copy dies with its volume: over every run of the loop from its start, whatever came
      before its last list, once no volume names a handle, every deletion's handler has run and
      the loop rests, the handle's copy is there if and only if it was there at that list, and
      then the copies could not be listed, a pod held it, or its removal failed. */
  lemma CopyDiesWithItsVolume(l: Loop, s: State, before: seq<Event>, listing: Option<seq<Handle>>,
                              removals: Handle -> Removal, later: seq<Event>, h: Handle)
    requires Synced(l) && IsRun(l, before + ([List(listing, removals)] + later))
    requires forall e | e in later :: Settling(e, h)
    requires listing.Some? ==> Restart.IsListing(listing.value, WorldAfterAll(l, s, before).disk.copies)
    ensures var events := before + ([List(listing, removals)] + later);
            var w := WorldAfterAll(l, s, before);
            AtRest(After(l, events)) && h !in Named(After(l, events).volumes) ==>
              (h in WorldAfterAll(l, s, events).disk.copies <==>
                 h in w.disk.copies && (listing.None? || h in w.holds || removals(h).Leaves?))
  {
    var e := List(listing, removals);
    var events := before + ([e] + later);
    var k, w := After(l, before), WorldAfterAll(l, s, before);
    AfterAppend(l, before, [e] + later);
    WorldAppend(l, s, before, [e] + later);
    assert ([e] + later)[1..] == later;
    QuietMeansListed(l, events);
    SettlingLeavesCopy(Next(k, e), WorldAfter(k, w, e), later, h);
    if listing.Some? { SweepIsExact(w.disk, Named(k.volumes) + w.holds.Keys, listing.value, removals); }
  }

  // ---- the ticker ----

  /** From the select a tick starts a pass, which keeps exactly the copies that a volume names or
      a pod holds and those it fails to remove. */
  lemma TickSweeps(l: Loop, s: State, listing: seq<Handle>, removals: Handle -> Removal)
    requires l.turn.Waiting? && Restart.IsListing(listing, s.disk.copies)
    ensures var events := [Tick, List(Some(listing), removals)];
            var z := WorldAfterAll(l, s, events);
            && IsRun(l, events)
            && z == s.(disk := z.disk) && z.disk.records == s.disk.records
            && forall h :: h in z.disk.copies <==>
                 h in s.disk.copies && (h in Named(l.volumes) || h in s.holds || removals(h).Leaves?)
  {
    var e := List(Some(listing), removals);
    RunOfTwo(l, Tick, e);
    var m := Next(l, Tick);
    assert [Tick, e][1..] == [e] && [e][1..] == [];
    assert WorldAfterAll(m, s, [e]) == WorldAfterAll(Next(m, e), WorldAfter(m, s, e), []);
    SweepIsExact(s.disk, Named(l.volumes) + s.holds.Keys, listing, removals);
  }

  /** The loop's first pass waits for no deletion and no tick, and keeps the same. */
  lemma FirstPassSweeps(l: Loop, s: State, listing: seq<Handle>, removals: Handle -> Removal)
    requires Synced(l) && Restart.IsListing(listing, s.disk.copies)
    ensures var events := [List(Some(listing), removals)];
            && IsRun(l, events)
            && forall h :: h in WorldAfterAll(l, s, events).disk.copies <==>
                 h in s.disk.copies && (h in Named(l.volumes) || h in s.holds || removals(h).Leaves?)
  {
    var e := List(Some(listing), removals);
    assert [e][1..] == [];
    assert WorldAfterAll(l, s, [e]) == WorldAfterAll(Next(l, e), WorldAfter(l, s, e), []);
    SweepIsExact(s.disk, Named(l.volumes) + s.holds.Keys, listing, removals);
  }

  /** One turn of the ticker: calls served while the loop waits, and then a pass. */
  datatype Lap = Lap(served: seq<Made>, listing: Option<seq<Handle>>, removals: Handle -> Removal)

  function Serves(made: seq<Made>): seq<Event> {
    seq(|made|, i requires 0 <= i < |made| => Serve(made[i].call, made[i].oracle))
  }

  function Laps(laps: seq<Lap>): seq<Event> {
    if laps == [] then []
    else Serves(laps[0].served) + ([Tick, List(laps[0].listing, laps[0].removals), Done] + Laps(laps[1..]))
  }

  /** The state a lap's pass meets, and the state it leaves. */
  function Met(s: State, lap: Lap): State { PerformAll(s, lap.served) }

  function Left(l: Loop, s: State, lap: Lap): State {
    WorldAfter(l, Met(s, lap), List(lap.listing, lap.removals))
  }

  /** Each pass that can list the copies lists those there are. */
  ghost predicate Listed(l: Loop, s: State, laps: seq<Lap>)
    decreases |laps|
  {
    laps != [] ==>
      && (laps[0].listing.Some? ==> Restart.IsListing(laps[0].listing.value, Met(s, laps[0]).disk.copies))
      && Listed(l, Left(l, s, laps[0]), laps[1..])
  }

  /** No pass could take the copy: each could not list it, met a hold, or failed to remove it. */
  predicate NonePossible(l: Loop, s: State, laps: seq<Lap>, h: Handle)
    decreases |laps|
  {
    laps != [] ==>
      && (laps[0].listing.None? || h in Met(s, laps[0]).holds || laps[0].removals(h).Leaves?)
      && NonePossible(l, Left(l, s, laps[0]), laps[1..], h)
  }

  lemma {:induction false} ServesRun(l: Loop, s: State, made: seq<Made>)
    ensures IsRun(l, Serves(made)) && After(l, Serves(made)) == l
    ensures WorldAfterAll(l, s, Serves(made)) == PerformAll(s, made)
    decreases |made|
  {
    if made != [] {
      var e := Serve(made[0].call, made[0].oracle);
      assert Serves(made)[0] == e && Serves(made)[1..] == Serves(made[1..]);
      ServesRun(l, WorldAfter(l, s, e), made[1..]);
    }
  }

  lemma LapRuns(l: Loop, s: State, lap: Lap)
    requires l.turn.Waiting?
    ensures var events := [Tick, List(lap.listing, lap.removals), Done];
            && IsRun(l, events)
            && After(l, events) == l.(covered := l.deleted, named := Named(l.volumes))
            && WorldAfterAll(l, s, events) == WorldAfter(l, s, List(lap.listing, lap.removals))
  {
    var e := List(lap.listing, lap.removals);
    var m := Next(l, Tick);
    RunOfTwo(m, e, Done);
    assert [Tick, e, Done][1..] == [e, Done] && [e, Done][1..] == [Done] && [Done][1..] == [];
    var n := Next(m, e);
    assert WorldAfterAll(m, s, [e, Done]) == WorldAfterAll(n, WorldAfter(m, s, e), [Done]);
    assert WorldAfterAll(n, WorldAfter(m, s, e), [Done]) == WorldAfterAll(Next(n, Done), WorldAfter(m, s, e), []);
  }

  lemma {:induction false} PerformAllLeavesCopy(s: State, made: seq<Made>, h: Handle)
    requires forall m | m in made :: m.call.Publish? ==> m.call.handle != h
    ensures h in PerformAll(s, made).disk.copies <==> h in s.disk.copies
    decreases |made|
  {
    if made != [] {
      assert made[0] in made;
      CallLeavesCopy(s, made[0].call, made[0].oracle, h);
      PerformAllLeavesCopy(Perform(s, made[0].call, made[0].oracle).state, made[1..], h);
    }
  }

  /** The backstop: with no deletion to wake the loop, the ticker alone collects a copy that no
      volume names, whatever calls come in between and nobody publishing it. It is still there
      after any number of laps if and only if it was there before and no lap's pass could take
      it; so it goes at the first tick that finds it listed, not held and removable, be it left
      over from a failed removal or from a hold that was dropped since. */
  lemma {:induction false} TickerCollectsOrphans(l: Loop, s: State, laps: seq<Lap>, h: Handle)
    requires l.turn.Waiting? && h !in Named(l.volumes) && Listed(l, s, laps)
    requires forall lap | lap in laps :: forall m | m in lap.served :: m.call.Publish? ==> m.call.handle != h
    ensures IsRun(l, Laps(laps))
    ensures h in WorldAfterAll(l, s, Laps(laps)).disk.copies <==> h in s.disk.copies && NonePossible(l, s, laps, h)
    decreases |laps|
  {
    if laps != [] {
      var lap, rest := laps[0], laps[1..];
      assert lap in laps;
      var turn := [Tick, List(lap.listing, lap.removals), Done];
      var met, left := Met(s, lap), Left(l, s, lap);
      ServesRun(l, s, lap.served);
      LapRuns(l, met, lap);
      PerformAllLeavesCopy(s, lap.served, h);
      if lap.listing.Some? {
        SweepIsExact(met.disk, Named(l.volumes) + met.holds.Keys, lap.listing.value, lap.removals);
      }
      var m := After(l, turn);
      SameVolumes(l, m, left, rest, h);
      TickerCollectsOrphans(m, left, rest, h);
      AfterAppend(l, Serves(lap.served), turn + Laps(rest));
      AfterAppend(l, turn, Laps(rest));
      WorldAppend(l, s, Serves(lap.served), turn + Laps(rest));
      WorldAppend(l, met, turn, Laps(rest));
    }
  }

  /** Of the loop a lap asks only which volumes there are. */
  lemma {:induction false} SameVolumes(l: Loop, m: Loop, s: State, laps: seq<Lap>, h: Handle)
    requires l.volumes == m.volumes
    ensures Listed(l, s, laps) <==> Listed(m, s, laps)
    ensures NonePossible(l, s, laps, h) <==> NonePossible(m, s, laps, h)
    decreases |laps|
  {
    if laps != [] { SameVolumes(l, m, Left(l, s, laps[0]), laps[1..], h); }
  }

  /** The loop as the driver runs it. */
  class Follower {
    const sweeping: Sweeps.Sweeping
    var volumes: map<string, Object>
    var slot: nat
    var turn: Stage
    ghost var deleted: nat
    ghost var woken: nat
    ghost var covered: nat
    ghost var named: set<Handle>

    ghost function State(): Loop
      reads this
    {
      Loop(volumes, deleted, woken, slot, turn, covered, named)
    }

    constructor (sweeping: Sweeps.Sweeping, volumes: map<string, Object>)
      ensures this.sweeping == sweeping && this.volumes == volumes && Synced(State())
    {
      this.sweeping, this.volumes, slot, turn := sweeping, volumes, 0, Received;
      deleted, woken, covered, named := 0, 0, 0, {};
    }

    /** wake, as a deletion's handler. */
    method Wake()
      modifies this
      ensures State() == Next(old(State()), Event.Wake)
    {
      if slot < 1 { slot := slot + 1; }
      woken := woken + 1;
    }

    /** store.List: every object in the store. */
    method Objects() returns (objects: seq<Object>)
      ensures forall o :: o in objects <==> o in volumes.Values
    {
      objects := [];
      var rest := volumes.Keys;
      while rest != {}
        invariant rest <= volumes.Keys
        invariant forall o | o in objects :: o in volumes.Values
        invariant forall name | name in volumes && name !in rest :: volumes[name] in objects
        decreases rest
      {
        var name :| name in rest;
        objects, rest := objects + [volumes[name]], rest - {name};
      }
    }

    lemma ListNames(objects: seq<Object>, list: set<Handle>)
      requires forall o :: o in objects <==> o in volumes.Values
      requires forall h :: h in list <==> exists i | 0 <= i < |objects| :: Names(objects[i], h)
      ensures list == Named(volumes)
    {
      forall h ensures h in list <==> h in Named(volumes) {
        if h in list {
          var i :| 0 <= i < |objects| && Names(objects[i], h);
          assert objects[i] in volumes.Values;
        }
        if h in Named(volumes) {
          var name :| name in volumes && IsOurs(volumes[name]) && volumes[name].source.value.handle == h;
          assert volumes[name] in volumes.Values;
          var i :| 0 <= i < |objects| && objects[i] == volumes[name];
          assert Names(objects[i], h);
        }
      }
    }

    /** One turn's pass: the list, then the sweep. */
    method ListAndSweep(listing: Option<seq<Handle>>, removals: Handle -> Removal)
      modifies this, sweeping.node.machine
      ensures State() == Next(old(State()), List(listing, removals))
      ensures sweeping.node.World() == WorldAfter(old(State()), old(sweeping.node.World()), List(listing, removals))
    {
      var objects := Objects();
      var list := HandlesOf(objects);
      ListNames(objects, list);
      sweeping.Sweep(list, listing, removals);
      turn := Sweeping;
      covered, named := deleted, list;
    }

    /** A call of the kubelet's, served by the node while the loop is between two steps. */
    method Serve(c: Call, o: Oracle)
      modifies sweeping.node, sweeping.node.machine
      ensures sweeping.node.World() == old(Perform(sweeping.node.World(), c, o).state)
    {
      if c.Publish? {
        var reply := sweeping.node.NodePublishVolume(c, o);
      } else {
        var reply := sweeping.node.NodeUnpublishVolume(c, o);
      }
    }

    /** follow, under any schedule of its own steps and of what reaches it, with the holds
        coming and going between them. */
    method Follow(events: seq<Event>)
      requires IsRun(State(), events)
      modifies this, sweeping.node, sweeping.node.machine
      ensures State() == After(old(State()), events)
      ensures sweeping.node.World() == WorldAfterAll(old(State()), old(sweeping.node.World()), events)
    {
      var i := 0;
      while i < |events|
        invariant 0 <= i <= |events|
        invariant IsRun(State(), events[i..])
        invariant After(State(), events[i..]) == After(old(State()), events)
        invariant WorldAfterAll(State(), sweeping.node.World(), events[i..])
               == WorldAfterAll(old(State()), old(sweeping.node.World()), events)
      {
        ghost var before, world := State(), sweeping.node.World();
        assert events[i..][0] == events[i] && events[i..][1..] == events[i + 1..];
        Do(events[i]);
        assert State() == Next(before, events[i]) && sweeping.node.World() == WorldAfter(before, world, events[i]);
        i := i + 1;
      }
      assert events[i..] == [];
    }

    method Do(e: Event)
      requires Enabled(State(), e)
      modifies this, sweeping.node, sweeping.node.machine
      ensures State() == Next(old(State()), e)
      ensures sweeping.node.World() == WorldAfter(old(State()), old(sweeping.node.World()), e)
    {
      match e {
        case Add(name, o) => volumes := volumes[name := o];
        case Delete(name) => volumes, deleted := volumes - {name}, deleted + 1;
        case Wake => Wake();
        case Receive => slot, turn := slot - 1, Received;
        case Tick => turn := Received;
        case List(listing, removals) => ListAndSweep(listing, removals);
        case Done => turn := Waiting;
        case Serve(c, o) => Serve(c, o);
      }
    }
  }
}

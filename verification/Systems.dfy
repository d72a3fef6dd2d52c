/** The whole node plugin as one transition system: calls in flight on different volumes, step
    by step; the sweep's passes, step by step; crashes at any moment and recoveries entry by
    entry; pods that write; volumes that come and go. Every system call may fail. */
module Systems {
  import opened Wrappers
  import opened States
  import opened Calls
  import opened Restart
  import opened Interleavings

  /** Whose a target path is. The kubelet makes one path per pod and volume. */
  datatype Owner = Owner(uid: string, handle: Handle)
  type Kubelet = Path -> Owner

  datatype Phase = Serving | Down | Resuming(todo: seq<Handle>)

  /** Where a pass of the sweep stands: it lists the volumes, then the holds, then the copies,
      and then goes through the copies. */
  datatype Pass =
    | Idle
    | Listed(named: set<Handle>)
    | Snapped(named: set<Handle>, held: set<Handle>)
    | Removing(named: set<Handle>, held: set<Handle>, todo: seq<Handle>)

  /** `acked` and `half` are history: the targets with an acknowledged publish whose bind has
      been there since, and the handles whose unpublish detached the mount and then could not
      remove the target. */
  datatype System = System(
    s: State,
    pool: map<Handle, Thread>,
    phase: Phase,
    pass: Pass,
    volumes: set<Handle>,
    acked: set<Path>,
    half: set<Handle>)

  datatype Event =
    | Begin(call: Call)
    | Advance(handle: Handle, outcome: Outcome)
    | Return(handle: Handle)
    | Die
    | Boot(listing: Option<seq<Handle>>)
    | Recover(luck: Luck)
    | Ready
    | AddVolume(handle: Handle)
    | DeleteVolume(handle: Handle)
    | ListVolumes
    | SnapHolds
    | ListCopies(listing: Option<seq<Handle>>)
    | SweepNext(removal: Removal)
    | EndPass
    | PodWrites(target: Path, content: Content)

  predicate Mounted(y: System, t: Path) { Stack(y.s.kernel, t) != [] }

  predicate Conforms(c: Call, own: Kubelet) {
    && own(c.target).handle == c.handle
    && (c.Publish? ==> own(c.target).uid == c.pod.uid)
  }

  /** When an event can happen. A call begins only if it keeps to the kubelet's rules: its own
      target path, and no second call in flight on the volume. */
  ghost predicate Enabled(y: System, e: Event, own: Kubelet) {
    match e
    case Begin(c) => y.phase.Serving? && c.handle !in y.pool && Conforms(c, own)
    case Advance(h, _) => h in y.pool
    case Return(h) => h in y.pool && y.pool[h].pc.Finished?
    case Die => !y.phase.Down?
    case Boot(listing) => y.phase.Down? && (listing.Some? ==> IsListing(listing.value, y.s.disk.records))
    case Recover(_) => y.phase.Resuming? && y.phase.todo != []
    case Ready => y.phase.Resuming? && y.phase.todo == []
    case AddVolume(_) => true
    case DeleteVolume(_) => true
    case ListVolumes => y.phase.Serving? && y.pass.Idle?
    case SnapHolds => y.pass.Listed?
    case ListCopies(listing) => y.pass.Snapped? && (listing.Some? ==> IsListing(listing.value, y.s.disk.copies))
    case SweepNext(_) => y.pass.Removing? && y.pass.todo != []
    case EndPass => y.pass.Removing? && y.pass.todo == []
    case PodWrites(t, _) => Mounted(y, t)
  }

  /** What a pod writes at a target lands in the copy the visible bind shows, if the bind is
      writable and that copy is still the one in the store. */
  function AfterWrite(s: State, t: Path, content: Content): State {
    var binds := Stack(s.kernel, t);
    if binds == [] then s
    else
      var b := binds[|binds| - 1];
      if b.readOnly || b.handle !in s.disk.copies || s.disk.copies[b.handle].generation != b.generation then s
      else s.(disk := s.disk.(copies := s.disk.copies[b.handle := Copy(b.generation, content)]))
  }

  function HalfAfter(y: System, th: Thread, p: Point): set<Handle> {
    var h, t := th.call.handle, th.call.target;
    if th.pc.RemovingTarget? && p.pc.Finished? && h in y.s.holds && y.s.holds[h].target == t then y.half + {h}
    else if th.pc.KeepingMemory? || th.pc.DroppingMemory? then y.half - {h}
    else y.half
  }

  function AfterStep(y: System, h: Handle, o: Outcome): System
    requires h in y.pool
  {
    var th := y.pool[h];
    var p := Step(y.s, th.call, th.pc, o);
    y.(s := p.state,
       pool := y.pool[h := Thread(th.call, p.pc)],
       half := HalfAfter(y, th, p),
       acked := if Stack(p.state.kernel, th.call.target) == [] then y.acked - {th.call.target} else y.acked)
  }

  predicate Acknowledges(th: Thread) { th.call.Publish? && th.pc == Finished(Success) }

  function AfterReturn(y: System, h: Handle): System
    requires h in y.pool
  {
    var th := y.pool[h];
    y.(pool := y.pool - {h},
       acked := if Acknowledges(th) && Mounted(y, th.call.target) then y.acked + {th.call.target} else y.acked)
  }

  function AfterSweep(y: System, r: Removal): System
    requires y.pass.Removing? && y.pass.todo != []
  {
    var h := y.pass.todo[0];
    var next := y.(pass := Removing(y.pass.named, y.pass.held, y.pass.todo[1..]));
    if h in y.pass.named || h in y.pass.held then next
    else next.(s := y.s.(disk := RemoveCopy(y.s.disk, h, r).disk))
  }

  function Next(y: System, e: Event): System {
    match e
    case Begin(c) => y.(pool := y.pool[c.handle := Thread(c, First(c))])
    case Advance(h, o) => if h in y.pool then AfterStep(y, h, o) else y
    case Return(h) => if h in y.pool then AfterReturn(y, h) else y
    case Die => y.(s := Crash(y.s), pool := map[], phase := Down, pass := Idle, half := {})
    case Boot(listing) => y.(phase := Resuming(if listing.Some? then listing.value else []))
    case Recover(luck) =>
      if y.phase.Resuming? && y.phase.todo != [] then
        y.(s := ResumeEntry(y.s, y.phase.todo[0], luck), phase := Resuming(y.phase.todo[1..]))
      else y
    case Ready => y.(phase := Serving)
    case AddVolume(h) => y.(volumes := y.volumes + {h})
    case DeleteVolume(h) => y.(volumes := y.volumes - {h})
    case ListVolumes => y.(pass := Listed(y.volumes))
    case SnapHolds => if y.pass.Listed? then y.(pass := Snapped(y.pass.named, y.s.holds.Keys)) else y
    case ListCopies(listing) =>
      if y.pass.Snapped? then
        y.(pass := Removing(y.pass.named, y.pass.held, if listing.Some? then listing.value else []))
      else y
    case SweepNext(r) => if y.pass.Removing? && y.pass.todo != [] then AfterSweep(y, r) else y
    case EndPass => y.(pass := Idle)
    case PodWrites(t, content) => y.(s := AfterWrite(y.s, t, content))
  }

  /** A run: each event is enabled when it happens. */
  ghost predicate IsRun(y: System, events: seq<Event>, own: Kubelet)
    decreases |events|
  {
    events != [] ==> Enabled(y, events[0], own) && IsRun(Next(y, events[0]), events[1..], own)
  }

  function After(y: System, events: seq<Event>): System
    decreases |events|
  {
    if events == [] then y else After(Next(y, events[0]), events[1..])
  }

  lemma {:induction false} AfterAppend(y: System, a: seq<Event>, b: seq<Event>)
    ensures After(y, a + b) == After(After(y, a), b)
    decreases |a|
  {
    if a == [] {
      assert a + b == b;
    } else {
      assert (a + b)[1..] == a[1..] + b;
      AfterAppend(Next(y, a[0]), a[1..], b);
    }
  }

  /** A run goes on from where another ended. */
  lemma {:induction false} RunAppend(y: System, a: seq<Event>, b: seq<Event>, own: Kubelet)
    ensures IsRun(y, a + b, own) <==> IsRun(y, a, own) && IsRun(After(y, a), b, own)
    decreases |a|
  {
    if a == [] {
      assert a + b == b;
    } else {
      assert (a + b)[1..] == a[1..] + b;
      RunAppend(Next(y, a[0]), a[1..], b, own);
    }
  }

  lemma Joined(y: System, a: seq<Event>, b: seq<Event>, own: Kubelet)
    requires IsRun(y, a, own) && IsRun(After(y, a), b, own)
    ensures IsRun(y, a + b, own) && After(y, a + b) == After(After(y, a), b)
  {
    RunAppend(y, a, b, own);
    AfterAppend(y, a, b);
  }

  lemma OneEvent(y: System, e: Event, own: Kubelet)
    requires Enabled(y, e, own)
    ensures IsRun(y, [e], own) && After(y, [e]) == Next(y, e)
  {
    assert [e][1..] == [];
    assert After(Next(y, e), []) == Next(y, e);
  }

  lemma OneMore(y: System, events: seq<Event>, e: Event, own: Kubelet)
    requires IsRun(y, events, own) && Enabled(After(y, events), e, own)
    ensures IsRun(y, events + [e], own) && After(y, events + [e]) == Next(After(y, events), e)
  {
    OneEvent(After(y, events), e, own);
    Joined(y, events, [e], own);
  }

  lemma ThreeEvents(y: System, a: Event, b: Event, c: Event, own: Kubelet)
    requires Enabled(y, a, own) && Enabled(Next(y, a), b, own) && Enabled(Next(Next(y, a), b), c, own)
    ensures IsRun(y, [a, b, c], own)
    ensures After(y, [a, b, c]) == Next(Next(Next(y, a), b), c)
  {
    OneEvent(y, a, own);
    OneMore(y, [a], b, own);
    OneMore(y, [a] + [b], c, own);
    assert [a] + [b] + [c] == [a, b, c];
  }

  /** A machine on which the driver never ran: nothing mounted, no hold files. Copies may be
      there already. */
  predicate Fresh(y: System) {
    && (forall h | h in y.s.disk.copies :: y.s.disk.copies[h].generation == Erased(y.s.disk, h))
    && y.s.holds == map[] && y.s.disk.records == map[] && y.s.kernel == Kernel(map[], map[])
    && y.pool == map[] && y.phase.Serving? && y.pass.Idle? && y.acked == {} && y.half == {}
  }
}

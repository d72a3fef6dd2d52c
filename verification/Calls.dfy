/** The two handlers of node.go as programs of atomic steps. Every step is one system call
    or one section under the driver's lock, so the process may die, and another call may
    run, between any two of them. */
module Calls {
  import opened States
  import Handles

  datatype Call =
    | Publish(handle: Handle, target: Path, pod: Pod, readOnly: bool)
    | Unpublish(handle: Handle, target: Path)

  datatype Reply = Success | InvalidArgument | FailedPrecondition | Internal

  /** Where a call stands: the step it takes next. */
  datatype Pc =
    | Check | MakingCopy | ChmodingCopy | MakingTarget | Detaching | Binding | Remounting | Undoing
    | KeepingMemory | MakingHolds | OpeningRecord | WritingRecord
    | CheckArguments | Unmounting | RemovingTarget | CheckHolder | DroppingMemory | RemovingRecord
    | Finished(reply: Reply)

  function Rank(pc: Pc): nat {
    match pc
    case Check => 12 case MakingCopy => 11 case ChmodingCopy => 10 case MakingTarget => 9
    case Detaching => 8 case Binding => 7 case Remounting => 6 case Undoing => 5
    case KeepingMemory => 4 case MakingHolds => 3 case OpeningRecord => 2 case WritingRecord => 1
    case CheckArguments => 6 case Unmounting => 5 case RemovingTarget => 4 case CheckHolder => 3
    case DroppingMemory => 2 case RemovingRecord => 1
    case Finished(_) => 0
  }

  /** A state and where the call stands in it. */
  datatype Point = Point(state: State, pc: Pc)

  /** A state and what the call answered. */
  datatype Ended = Ended(state: State, reply: Reply)

  function First(call: Call): Pc { if call.Publish? then Check else CheckArguments }

  function HoldOf(call: Call): Hold
    requires call.Publish?
  {
    Hold(call.pod, call.target)
  }

  /** unbind: a target with no mount is not an error. */
  predicate Detached(e: Errno) { e == OK || e == EINVAL || e == ENOENT }

  function OrInternal(e: Errno, next: Pc): Pc { if e == OK then next else Finished(Internal) }

  /** What the driver accepts as a volume and a target. */
  predicate Usable(h: Handle, t: Path) { Handles.CheckHandle(h.name).Accepted? && t.text != "" }

  function CheckPublish(s: State, c: Call): Pc
    requires c.Publish?
  {
    var standing := Lookup(s.holds, c.handle);
    if !Usable(c.handle, c.target) then Finished(InvalidArgument)
    else if standing.Some? && standing.value.pod.uid != c.pod.uid then Finished(FailedPrecondition)
    else if standing.Some? && standing.value.target == c.target then Finished(Success)
    else MakingCopy
  }

  /** A call's next step after a system call: on an error it ends. */
  function OnDisk(s: State, a: DiskAnswer, next: Pc): Point {
    Point(s.(disk := a.disk), OrInternal(a.errno, next))
  }

  function OnKernel(s: State, a: KernelAnswer, next: Pc): Point {
    Point(s.(kernel := a.kernel), OrInternal(a.errno, next))
  }

  /** A call's next step after an unbind, where a target with no mount is not an error. */
  function AfterUnbind(s: State, a: KernelAnswer, next: Pc): Point {
    Point(s.(kernel := a.kernel), if Detached(a.errno) then next else Finished(Internal))
  }

  function StepPublish(s: State, c: Call, pc: Pc, o: Outcome): Point
    requires c.Publish?
  {
    var h, t := c.handle, c.target;
    match pc
    case Check => Point(s, CheckPublish(s, c))
    case MakingCopy => OnDisk(s, MakeCopy(s.disk, h, o), ChmodingCopy)
    case ChmodingCopy => Point(s, OrInternal(ChmodCopy(s.disk, h, o), MakingTarget))
    case MakingTarget => OnKernel(s, MakeTarget(s.kernel, t, o), Detaching)
    case Detaching => AfterUnbind(s, Unmount(s.kernel, t, o), Binding)
    case Binding =>
      OnKernel(s, MountBind(s.disk, s.kernel, h, t, o), if c.readOnly then Remounting else KeepingMemory)
    case Remounting =>
      var a := RemountReadOnly(s.kernel, t, o);
      Point(s.(kernel := a.kernel), if a.errno == OK then KeepingMemory else Undoing)
    case Undoing => Point(s.(kernel := Unmount(s.kernel, t, o).kernel), Finished(Internal))
    case KeepingMemory => Point(s.(holds := s.holds[h := HoldOf(c)]), MakingHolds)
    case MakingHolds => Point(s, if o.Works? then OpeningRecord else Finished(Success))
    case OpeningRecord =>
      if o.Works? then Point(s.(disk := WithRecord(s.disk, h, Unreadable)), WritingRecord)
      else Point(s, Finished(Success))
    case WritingRecord =>
      Point(if o.Works? then s.(disk := WithRecord(s.disk, h, Readable(HoldOf(c)))) else s, Finished(Success))
    case _ => Point(s, Finished(Internal))
  }

  function StepUnpublish(s: State, c: Call, pc: Pc, o: Outcome): Point
    requires c.Unpublish?
  {
    var h, t := c.handle, c.target;
    match pc
    case CheckArguments =>
      Point(s, if h.name == "" || t.text == "" then Finished(InvalidArgument) else Unmounting)
    case Unmounting => AfterUnbind(s, Unmount(s.kernel, t, o), RemovingTarget)
    case RemovingTarget =>
      var a := RemoveTarget(s.kernel, t, o);
      Point(s.(kernel := a.kernel), if a.errno == OK || a.errno == ENOENT then CheckHolder else Finished(Internal))
    case CheckHolder =>
      Point(s, if h in s.holds && s.holds[h].target != t then Finished(Success) else DroppingMemory)
    case DroppingMemory => Point(s.(holds := s.holds - {h}), RemovingRecord)
    case RemovingRecord => Point(s.(disk := RemoveRecord(s.disk, h, o).disk), Finished(Success))
    case _ => Point(s, Finished(Internal))
  }

  /** One atomic step of a call. */
  function Step(s: State, c: Call, pc: Pc, o: Outcome): (r: Point)
    ensures !pc.Finished? ==> Rank(r.pc) < Rank(pc)
  {
    if pc.Finished? then Point(s, pc)
    else if c.Publish? then StepPublish(s, c, pc, o)
    else StepUnpublish(s, c, pc, o)
  }

  /** The outcome of each step of one call. No step happens twice in a call. */
  type Oracle = Pc -> Outcome

  /** The rest of the call, run with nothing else in between. */
  function Complete(s: State, c: Call, pc: Pc, o: Oracle): Ended
    decreases Rank(pc)
  {
    if pc.Finished? then Ended(s, pc.reply)
    else var Point(s1, pc1) := Step(s, c, pc, o(pc)); Complete(s1, c, pc1, o)
  }

  /** The whole call. */
  function Perform(s: State, c: Call, o: Oracle): Ended {
    Complete(s, c, First(c), o)
  }

  /** The first steps of the call with the given outcomes, and where it then stands. A
      process that dies leaves this behind. */
  function Partway(s: State, c: Call, pc: Pc, outcomes: seq<Outcome>): Point
    decreases |outcomes|
  {
    if outcomes == [] then Point(s, pc)
    else var Point(s1, pc1) := Step(s, c, pc, outcomes[0]); Partway(s1, c, pc1, outcomes[1..])
  }

  lemma StepPublishIsLocal(a: State, b: State, c: Call, pc: Pc, o: Outcome)
    requires c.Publish? && SameFor(a, b, c.handle, c.target)
    ensures SameFor(StepPublish(a, c, pc, o).state, StepPublish(b, c, pc, o).state, c.handle, c.target)
    ensures StepPublish(a, c, pc, o).pc == StepPublish(b, c, pc, o).pc
  {
    match pc
    case MakingCopy => DiskLocal(a.disk, b.disk, c.handle, o);
    case MakingTarget => TargetsLocal(a.kernel, b.kernel, c.target, o);
    case Detaching => UnmountLocal(a.kernel, b.kernel, c.target, o);
    case Binding => MountLocal(a, b, c.handle, c.target, o);
    case Remounting => RemountLocal(a.kernel, b.kernel, c.target, o);
    case Undoing => UnmountLocal(a.kernel, b.kernel, c.target, o);
    case _ =>
  }

  lemma StepUnpublishIsLocal(a: State, b: State, c: Call, pc: Pc, o: Outcome)
    requires c.Unpublish? && SameFor(a, b, c.handle, c.target)
    ensures SameFor(StepUnpublish(a, c, pc, o).state, StepUnpublish(b, c, pc, o).state, c.handle, c.target)
    ensures StepUnpublish(a, c, pc, o).pc == StepUnpublish(b, c, pc, o).pc
  {
    match pc
    case Unmounting => UnmountLocal(a.kernel, b.kernel, c.target, o);
    case RemovingTarget => TargetsLocal(a.kernel, b.kernel, c.target, o);
    case RemovingRecord => DiskLocal(a.disk, b.disk, c.handle, o);
    case _ =>
  }

  /** A step reads and writes only what its own handle and target name. */
  lemma StepIsLocal(a: State, b: State, c: Call, pc: Pc, o: Outcome)
    requires SameFor(a, b, c.handle, c.target)
    ensures SameFor(Step(a, c, pc, o).state, Step(b, c, pc, o).state, c.handle, c.target)
    ensures Step(a, c, pc, o).pc == Step(b, c, pc, o).pc
  {
    if pc.Finished? {
    } else if c.Publish? {
      StepPublishIsLocal(a, b, c, pc, o);
    } else {
      StepUnpublishIsLocal(a, b, c, pc, o);
    }
  }

  lemma StepPublishFrame(s: State, c: Call, pc: Pc, o: Outcome, h: Handle, t: Path)
    requires c.Publish?
    ensures h != c.handle ==> SameHandle(StepPublish(s, c, pc, o).state, s, h)
    ensures t != c.target ==> SameTarget(StepPublish(s, c, pc, o).state, s, t)
  {
    match pc
    case MakingCopy =>
    case MakingTarget =>
    case Detaching =>
    case Binding =>
    case Remounting =>
    case Undoing =>
    case KeepingMemory =>
    case OpeningRecord =>
    case WritingRecord =>
    case _ =>
  }

  lemma StepUnpublishFrame(s: State, c: Call, pc: Pc, o: Outcome, h: Handle, t: Path)
    requires c.Unpublish?
    ensures h != c.handle ==> SameHandle(StepUnpublish(s, c, pc, o).state, s, h)
    ensures t != c.target ==> SameTarget(StepUnpublish(s, c, pc, o).state, s, t)
  {
    match pc
    case Unmounting =>
    case RemovingTarget =>
    case DroppingMemory =>
    case RemovingRecord =>
    case _ =>
  }

  /** And a step changes nothing kept under any other handle or target. */
  lemma StepFrame(s: State, c: Call, pc: Pc, o: Outcome, h: Handle, t: Path)
    ensures h != c.handle ==> SameHandle(Step(s, c, pc, o).state, s, h)
    ensures t != c.target ==> SameTarget(Step(s, c, pc, o).state, s, t)
  {
    if pc.Finished? {
    } else if c.Publish? {
      StepPublishFrame(s, c, pc, o, h, t);
    } else {
      StepUnpublishFrame(s, c, pc, o, h, t);
    }
  }
}

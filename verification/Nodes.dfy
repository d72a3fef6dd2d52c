/** node.go, holds.go and mount.go as the driver runs them: an object that keeps the holds in
    memory and makes system calls on a machine. Every method is proved against the step
    programs of module Calls, about which the other modules prove what matters. */
module Nodes {
  import opened Wrappers
  import opened States
  import opened Calls
  import opened Restart
  import Handles
  import Mountinfo
  import Handlers

  /** The node's disk and kernel. */
  class Machine {
    var disk: Disk
    var kernel: Kernel

    constructor (disk: Disk, kernel: Kernel)
      ensures this.disk == disk && this.kernel == kernel
    {
      this.disk, this.kernel := disk, kernel;
    }

    /** mount(2) with MS_BIND. */
    method Mount(source: Handle, target: Path, o: Outcome) returns (e: Errno)
      modifies `kernel
      ensures KernelAnswer(kernel, e) == MountBind(old(disk), old(kernel), source, target, o)
    {
      var a := MountBind(disk, kernel, source, target, o);
      kernel, e := a.kernel, a.errno;
    }

    /** mount(2) with MS_BIND, MS_REMOUNT and MS_RDONLY. */
    method Remount(target: Path, o: Outcome) returns (e: Errno)
      modifies `kernel
      ensures KernelAnswer(kernel, e) == RemountReadOnly(old(kernel), target, o)
    {
      var a := RemountReadOnly(kernel, target, o);
      kernel, e := a.kernel, a.errno;
    }

    /** umount2(2) with MNT_DETACH. */
    method Detach(target: Path, o: Outcome) returns (e: Errno)
      modifies `kernel
      ensures KernelAnswer(kernel, e) == Unmount(old(kernel), target, o)
    {
      var a := Unmount(kernel, target, o);
      kernel, e := a.kernel, a.errno;
    }

    method MakeDirectory(target: Path, o: Outcome) returns (e: Errno)
      modifies `kernel
      ensures KernelAnswer(kernel, e) == MakeTarget(old(kernel), target, o)
    {
      var a := MakeTarget(kernel, target, o);
      kernel, e := a.kernel, a.errno;
    }

    method RemoveDirectory(target: Path, o: Outcome) returns (e: Errno)
      modifies `kernel
      ensures KernelAnswer(kernel, e) == RemoveTarget(old(kernel), target, o)
    {
      var a := RemoveTarget(kernel, target, o);
      kernel, e := a.kernel, a.errno;
    }

    method MakeCopyDirectory(h: Handle, o: Outcome) returns (e: Errno)
      modifies `disk
      ensures DiskAnswer(disk, e) == MakeCopy(old(disk), h, o)
    {
      var a := MakeCopy(disk, h, o);
      disk, e := a.disk, a.errno;
    }

    /** Opening a hold file for writing empties it; the bytes come with a second call. */
    method WriteHoldFile(h: Handle, hold: Hold, open: Outcome, write: Outcome) returns (ok: bool)
      modifies `disk
      ensures ok <==> open.Works? && write.Works?
      ensures disk == if open.Fails? then old(disk)
                      else if write.Fails? then WithRecord(old(disk), h, Unreadable)
                      else WithRecord(WithRecord(old(disk), h, Unreadable), h, Readable(hold))
    {
      if open.Fails? { return false; }
      disk := WithRecord(disk, h, Unreadable);
      if write.Fails? { return false; }
      disk := WithRecord(disk, h, Readable(hold));
      return true;
    }

    method RemoveHoldFile(h: Handle, o: Outcome) returns (e: Errno)
      modifies `disk
      ensures DiskAnswer(disk, e) == RemoveRecord(old(disk), h, o)
    {
      var a := RemoveRecord(disk, h, o);
      disk, e := a.disk, a.errno;
    }

    /** os.RemoveAll on a copy. */
    method RemoveCopyDirectory(h: Handle, r: Removal) returns (e: Errno)
      modifies `disk
      ensures DiskAnswer(disk, e) == RemoveCopy(old(disk), h, r)
    {
      var a := RemoveCopy(disk, h, r);
      disk, e := a.disk, a.errno;
    }
  }

  /** The text of the mount table is the kernel's printing of entries that agree with the
      driver's own binds at the target. */
  ghost predicate IsTableOf(text: string, k: Kernel, t: Path) {
    exists entries: seq<Mountinfo.Entry> ::
      && (forall e | e in entries :: Mountinfo.Printable(e))
      && text == Mountinfo.Print(entries)
      && (Mountinfo.Shows(entries, t.text) <==> Stack(k, t) != [])
  }

  class Node {
    const machine: Machine
    var holds: map<Handle, Hold>

    ghost function World(): State
      reads this, machine
    {
      State(holds, machine.disk, machine.kernel)
    }

    /** A process that starts remembers nothing. */
    constructor (machine: Machine)
      ensures this.machine == machine && holds == map[]
    {
      this.machine, holds := machine, map[];
    }

    method Holder(h: Handle) returns (standing: Option<Hold>)
      ensures standing == Lookup(holds, h)
    {
      standing := if h in holds then Some(holds[h]) else None;
    }

    /** The hold goes into memory, then into its file; a file that cannot be written is only
        logged. What is left of the call afterwards is to answer success. */
    method KeepHold(c: Call, o: Oracle)
      requires c.Publish?
      modifies this, machine
      ensures holds == old(holds)[c.handle := HoldOf(c)] && machine.kernel == old(machine.kernel)
      ensures Ended(World(), Success) == old(Complete(World(), c, KeepingMemory, o))
    {
      ghost var want := Complete(World(), c, KeepingMemory, o);
      holds := holds[c.handle := HoldOf(c)];
      assert want == Complete(World(), c, MakingHolds, o);
      if o(MakingHolds).Works? {
        assert want == Complete(World(), c, OpeningRecord, o);
        ghost var emptied := World().(disk := WithRecord(machine.disk, c.handle, Unreadable));
        var ok := machine.WriteHoldFile(c.handle, HoldOf(c), o(OpeningRecord), o(WritingRecord));
        if o(OpeningRecord).Works? { assert want == Complete(emptied, c, WritingRecord, o); }
      }
    }

    method DropHold(h: Handle, remove: Outcome)
      modifies this, machine
      ensures holds == old(holds) - {h} && machine.kernel == old(machine.kernel)
      ensures machine.disk == RemoveRecord(old(machine.disk), h, remove).disk
    {
      holds := holds - {h};
      var e := machine.RemoveHoldFile(h, remove);
    }

    /** Every handle some pod holds. */
    method HeldHandles() returns (held: set<Handle>)
      ensures held == holds.Keys
    {
      held := {};
      var rest := holds.Keys;
      while rest != {}
        invariant held + rest == holds.Keys
        decreases rest
      {
        var h :| h in rest;
        held, rest := held + {h}, rest - {h};
      }
    }

    /** bindReadWrite. */
    method BindReadWrite(c: Call, o: Oracle) returns (ok: bool)
      requires c.Publish? && !c.readOnly
      modifies machine
      ensures machine.disk == old(machine.disk)
      ensures Complete(World(), c, if ok then KeepingMemory else Finished(Internal), o)
           == old(Complete(World(), c, Binding, o))
      ensures ok ==> Stack(machine.kernel, c.target) ==
                       old(Stack(machine.kernel, c.target)) +
                       [Bind(c.handle, machine.disk.copies[c.handle].generation, false)]
      ensures !ok ==> machine.kernel == old(machine.kernel)
    {
      var e := machine.Mount(c.handle, c.target, o(Binding));
      return e == OK;
    }

    /** bindReadOnly: a remount that fails takes the bind away again, as far as that works. */
    method BindReadOnly(c: Call, o: Oracle) returns (ok: bool)
      requires c.Publish? && c.readOnly
      modifies machine
      ensures machine.disk == old(machine.disk)
      ensures Complete(World(), c, if ok then KeepingMemory else Finished(Internal), o)
           == old(Complete(World(), c, Binding, o))
      ensures ok ==> Stack(machine.kernel, c.target) ==
                       old(Stack(machine.kernel, c.target)) +
                       [Bind(c.handle, machine.disk.copies[c.handle].generation, true)]
      ensures !ok && o(Undoing).Works? ==> Stack(machine.kernel, c.target) == old(Stack(machine.kernel, c.target))
    {
      ghost var want := Complete(World(), c, Binding, o);
      ghost var was := Stack(machine.kernel, c.target);
      var e := machine.Mount(c.handle, c.target, o(Binding));
      if e != OK { return false; }
      assert want == Complete(World(), c, Remounting, o);
      assert Below(Stack(machine.kernel, c.target)) == was;
      e := machine.Remount(c.target, o(Remounting));
      if e != OK {
        assert want == Complete(World(), c, Undoing, o);
        e := machine.Detach(c.target, o(Undoing));
        return false;
      }
      return true;
    }

    /** bind: the request decides the mode, and a bind that fails leaves nothing, as far as the
        unmount after a failed remount works. */
    method BindCopy(c: Call, o: Oracle) returns (ok: bool)
      requires c.Publish?
      modifies machine
      ensures machine.disk == old(machine.disk)
      ensures Complete(World(), c, if ok then KeepingMemory else Finished(Internal), o)
           == old(Complete(World(), c, Binding, o))
      ensures ok ==> Stack(machine.kernel, c.target) ==
                       old(Stack(machine.kernel, c.target)) +
                       [Bind(c.handle, machine.disk.copies[c.handle].generation, c.readOnly)]
      ensures !ok && (c.readOnly ==> o(Undoing).Works?) ==>
                Stack(machine.kernel, c.target) == old(Stack(machine.kernel, c.target))
    {
      if c.readOnly {
        ok := BindReadOnly(c, o);
      } else {
        ok := BindReadWrite(c, o);
      }
    }

    /** unbind: no mount at the target, or no target, is not an error. */
    method Unbind(target: Path, o: Outcome) returns (ok: bool)
      modifies machine
      ensures machine.disk == old(machine.disk)
      ensures machine.kernel == Unmount(old(machine.kernel), target, o).kernel
      ensures ok <==> o.Works?
    {
      var e := machine.Detach(target, o);
      return e == OK || e == EINVAL || e == ENOENT;
    }

    /** mount: the copy, the target, the old mount away, the bind. */
    method Mount(c: Call, o: Oracle) returns (ok: bool)
      requires c.Publish?
      modifies machine
      ensures Complete(World(), c, if ok then KeepingMemory else Finished(Internal), o)
           == old(Complete(World(), c, MakingCopy, o))
    {
      ghost var want := Complete(World(), c, MakingCopy, o);
      var e := machine.MakeCopyDirectory(c.handle, o(MakingCopy));
      if e != OK { return false; }
      assert want == Complete(World(), c, ChmodingCopy, o);
      e := ChmodCopy(machine.disk, c.handle, o(ChmodingCopy));
      if e != OK { return false; }
      assert want == Complete(World(), c, MakingTarget, o);
      e := machine.MakeDirectory(c.target, o(MakingTarget));
      if e != OK { return false; }
      assert want == Complete(World(), c, Detaching, o);
      ok := Unbind(c.target, o(Detaching));
      if !ok { return false; }
      assert want == Complete(World(), c, Binding, o);
      ok := BindCopy(c, o);
    }

    /** The handler leaves the world and answers as the step program does when nothing else
        runs in between. */
    method NodePublishVolume(c: Call, o: Oracle) returns (reply: Reply)
      requires c.Publish?
      modifies this, machine
      ensures Ended(World(), reply) == old(Perform(World(), c, o))
      ensures reply ==
                if !Handlers.Acceptable(c) then InvalidArgument
                else if old(Handlers.HeldByAnother(World(), c)) then FailedPrecondition
                else if old(Handlers.HeldHere(World(), c)) || Handlers.Mounts(c, o) then Success
                else Internal
      ensures holds ==
                if reply == Success && !old(Handlers.HeldHere(World(), c))
                then old(holds)[c.handle := Hold(c.pod, c.target)] else old(holds)
    {
      PublishContract(World(), c, o);
      ghost var want := Perform(World(), c, o);
      var verdict := Handles.CheckHandle(c.handle.name);
      if !verdict.Accepted? || c.target.text == "" { return InvalidArgument; }
      var standing := Holder(c.handle);
      if standing.Some? && standing.value.pod.uid != c.pod.uid { return FailedPrecondition; }
      if standing.Some? && standing.value.target == c.target { return Success; }
      assert want == Complete(World(), c, MakingCopy, o);
      var ok := Mount(c, o);
      if !ok { return Internal; }
      KeepHold(c, o);
      return Success;
    }

    lemma PublishContract(s: State, c: Call, o: Oracle)
      requires c.Publish?
      ensures var e := Perform(s, c, o);
              && e.reply == (if !Handlers.Acceptable(c) then InvalidArgument
                             else if Handlers.HeldByAnother(s, c) then FailedPrecondition
                             else if Handlers.HeldHere(s, c) || Handlers.Mounts(c, o) then Success
                             else Internal)
              && e.state.holds == (if e.reply == Success && !Handlers.HeldHere(s, c)
                                   then s.holds[c.handle := Hold(c.pod, c.target)] else s.holds)
    {
      Handlers.PublishAnswersExactly(s, c, o);
      if Handlers.Acceptable(c) && !Handlers.HeldByAnother(s, c) && !Handlers.HeldHere(s, c) {
        Handlers.PublishLeavesExactly(s, c, o);
      }
    }

    method NodeUnpublishVolume(c: Call, o: Oracle) returns (reply: Reply)
      requires c.Unpublish?
      modifies this, machine
      ensures Ended(World(), reply) == old(Perform(World(), c, o))
      ensures reply ==
                if c.handle.name == "" || c.target.text == "" then InvalidArgument
                else if old(Handlers.Clears(World(), c, o)) then Success
                else Internal
      ensures reply == Success ==> Stack(machine.kernel, c.target) == [] && c.target !in machine.kernel.targets
      ensures reply == Success && c.handle in holds ==> holds[c.handle].target != c.target
      ensures reply != Success ==> holds == old(holds) && machine.disk == old(machine.disk)
    {
      Handlers.UnpublishAnswersExactly(World(), c, o);
      ghost var want := Perform(World(), c, o);
      if c.handle.name == "" || c.target.text == "" { return InvalidArgument; }
      assert want == Complete(World(), c, Unmounting, o);
      var ok := Unbind(c.target, o(Unmounting));
      if !ok { return Internal; }
      assert want == Complete(World(), c, RemovingTarget, o);
      var e := machine.RemoveDirectory(c.target, o(RemovingTarget));
      if e != OK && e != ENOENT { return Internal; }
      assert want == Complete(World(), c, CheckHolder, o);
      var standing := Holder(c.handle);
      if standing.Some? && standing.value.target != c.target { return Success; }
      ReleaseEndsCall(World(), c, o);
      DropHold(c.handle, o(RemovingRecord));
      return Success;
    }

    lemma ReleaseEndsCall(s: State, c: Call, o: Oracle)
      requires c.Unpublish? && (c.handle in s.holds ==> s.holds[c.handle].target == c.target)
      ensures Complete(s, c, CheckHolder, o) ==
                var disk := RemoveRecord(s.disk, c.handle, o(RemovingRecord)).disk;
                Ended(State(s.holds - {c.handle}, disk, s.kernel), Success)
    {
      var dropped := s.(holds := s.holds - {c.handle});
      assert Complete(s, c, CheckHolder, o) == Complete(s, c, DroppingMemory, o)
          == Complete(dropped, c, RemovingRecord, o);
    }

    /** mountedNow: a table that cannot be opened shows nothing, and neither does one that the
        reader gives up before it meets the target. */
    method MountedNow(table: Option<string>, target: Path) returns (yes: bool)
      requires table.Some? ==> IsTableOf(table.value, machine.kernel, target)
      ensures yes <==> Read(table, target) && Stack(machine.kernel, target) != []
    {
      if table.None? { return false; }
      yes := Mountinfo.MountedIn(table.value, target.text);
      ghost var entries: seq<Mountinfo.Entry> :|
        && (forall e | e in entries :: Mountinfo.Printable(e))
        && table.value == Mountinfo.Print(entries)
        && (Mountinfo.Shows(entries, target.text) <==> Stack(machine.kernel, target) != []);
      Mountinfo.FindsWhatIsMounted(entries, target.text);
    }

    /** The table can be opened, and read far enough to tell. */
    predicate Read(table: Option<string>, target: Path) {
      table.Some? && Mountinfo.Tells(table.value, target.text)
    }

    /** resume over the listing of the holds directory, None when it cannot be listed. Each
        entry's record may be unreadable and its file may not go, and the table is opened anew
        for each. */
    method Resume(listing: Option<seq<Handle>>, tables: Handle -> Option<string>, luck: Handle -> Luck)
      requires forall h | h in machine.disk.records && machine.disk.records[h].Readable? ::
                 var t := machine.disk.records[h].hold.target;
                 && (tables(h).Some? ==> IsTableOf(tables(h).value, machine.kernel, t))
                 && (luck(h).table.Works? <==> Read(tables(h), t))
      modifies this, machine
      ensures World() == old(if listing.None? then World() else ResumeEach(World(), listing.value, luck))
    {
      if listing.None? { return; }
      var entries := listing.value;
      var i := 0;
      while i < |entries|
        invariant 0 <= i <= |entries|
        invariant machine.kernel == old(machine.kernel)
        invariant forall h | h in machine.disk.records ::
                    h in old(machine.disk.records) && machine.disk.records[h] == old(machine.disk.records[h])
        invariant ResumeEach(World(), entries[i..], luck) == old(ResumeEach(World(), entries, luck))
      {
        var h := entries[i];
        ghost var next := ResumeEntry(World(), h, luck(h));
        assert entries[i..][1..] == entries[i + 1..];
        var record := if luck(h).read.Works? && h in machine.disk.records then machine.disk.records[h] else Unreadable;
        if record.Unreadable? {
          DropHold(h, luck(h).remove);
        } else {
          var mounted := MountedNow(tables(h), record.hold.target);
          if mounted {
            holds := holds[h := record.hold];
          } else {
            DropHold(h, luck(h).remove);
          }
        }
        assert World() == next;
        i := i + 1;
      }
      assert entries[i..] == [];
    }
  }
}

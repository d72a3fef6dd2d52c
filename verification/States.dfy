/** What the driver remembers, what is on the disk and what the kernel has mounted, with the
    filesystem and mount calls that change them. Copies and hold files are maps keyed by
    handle, which module Paths justifies for the handles the driver accepts. */
module States {
  import opened Wrappers

  datatype Handle = Handle(name: string)
  datatype Path = Path(text: string)

  /** The files of a directory. */
  datatype Content = Empty | File(name: string, bytes: string, rest: Content)

  datatype Pod = Pod(uid: string, name: string, namespace: string)

  /** One pod's claim on one copy. */
  datatype Hold = Hold(pod: Pod, target: Path)

  /** A hold file: a record that decodes, or bytes that do not, as a truncated write leaves. */
  datatype Record = Readable(hold: Hold) | Unreadable

  /** A copy is a directory. The generation tells it from an earlier directory of the same
      name that was removed, which a bind made earlier still shows. */
  datatype Copy = Copy(generation: nat, content: Content)

  datatype Bind = Bind(handle: Handle, generation: nat, readOnly: bool)

  /** The binds on a mount point, the visible one last: at least one. */
  type Binds = binds: seq<Bind> | binds != [] witness [Bind(Handle(""), 0, false)]

  /** The store: hold files, copies, and how often a copy of each name was removed. */
  datatype Disk = Disk(records: map<Handle, Record>, copies: map<Handle, Copy>, erased: map<Handle, nat>)

  /** The directories binds go onto, as they are underneath, and the mount points. */
  datatype Kernel = Kernel(targets: map<Path, Content>, mounts: map<Path, Binds>)

  /** `holds` is memory and goes with the process; the rest outlives it. */
  datatype State = State(holds: map<Handle, Hold>, disk: Disk, kernel: Kernel)

  /** Whether the environment lets a call through. */
  datatype Outcome = Works | Fails

  datatype Errno = OK | EINVAL | ENOENT | EBUSY | ENOTEMPTY | EIO

  /** What a system call leaves behind and what it returns. */
  datatype KernelAnswer = KernelAnswer(kernel: Kernel, errno: Errno)
  datatype DiskAnswer = DiskAnswer(disk: Disk, errno: Errno)

  function Lookup<K, V>(m: map<K, V>, k: K): Option<V> { if k in m then Some(m[k]) else None }

  // ---- mounts ----

  function Stack(k: Kernel, t: Path): seq<Bind> { if t in k.mounts then k.mounts[t] else [] }

  function WithStack(k: Kernel, t: Path, binds: seq<Bind>): Kernel {
    k.(mounts := if binds == [] then k.mounts - {t} else k.mounts[t := binds])
  }

  /** The binds below the visible one. */
  function Below(binds: seq<Bind>): seq<Bind>
    requires binds != []
  {
    binds[..|binds| - 1]
  }

  function ReadOnlyTop(binds: seq<Bind>): seq<Bind>
    requires binds != []
  {
    Below(binds) + [binds[|binds| - 1].(readOnly := true)]
  }

  /** A bind mount of a handle's copy on top of whatever is at the target. */
  function MountErrno(d: Disk, k: Kernel, h: Handle, t: Path, o: Outcome): Errno {
    if o.Fails? then EIO else if h !in d.copies || t !in k.targets then ENOENT else OK
  }

  function MountBind(d: Disk, k: Kernel, h: Handle, t: Path, o: Outcome): KernelAnswer {
    var e := MountErrno(d, k, h, t, o);
    KernelAnswer(
      if e == OK then WithStack(k, t, Stack(k, t) + [Bind(h, d.copies[h].generation, false)]) else k, e)
  }

  function RemountErrno(k: Kernel, t: Path, o: Outcome): Errno {
    if o.Fails? then EIO else if Stack(k, t) == [] then EINVAL else OK
  }

  function RemountReadOnly(k: Kernel, t: Path, o: Outcome): KernelAnswer {
    var e := RemountErrno(k, t, o);
    KernelAnswer(if e == OK then WithStack(k, t, ReadOnlyTop(Stack(k, t))) else k, e)
  }

  function UnmountErrno(k: Kernel, t: Path, o: Outcome): Errno {
    if o.Fails? then EIO
    else if Stack(k, t) != [] then OK
    else if t in k.targets then EINVAL
    else ENOENT
  }

  /** Detaches the visible mount at the target. */
  function Unmount(k: Kernel, t: Path, o: Outcome): KernelAnswer {
    var e := UnmountErrno(k, t, o);
    KernelAnswer(if e == OK then WithStack(k, t, Below(Stack(k, t))) else k, e)
  }

  // ---- targets ----

  function WithTarget(k: Kernel, t: Path): Kernel {
    if t in k.targets then k else k.(targets := k.targets[t := Empty])
  }

  function WithoutTarget(k: Kernel, t: Path): Kernel { k.(targets := k.targets - {t}) }

  function MakeTarget(k: Kernel, t: Path, o: Outcome): KernelAnswer {
    if o.Fails? then KernelAnswer(k, EIO) else KernelAnswer(WithTarget(k, t), OK)
  }

  function RemoveErrno(k: Kernel, t: Path, o: Outcome): Errno {
    if o.Fails? then EIO
    else if Stack(k, t) != [] then EBUSY
    else if t !in k.targets then ENOENT
    else if !k.targets[t].Empty? then ENOTEMPTY
    else OK
  }

  /** os.Remove: only an empty directory that is no mount point goes. */
  function RemoveTarget(k: Kernel, t: Path, o: Outcome): KernelAnswer {
    var e := RemoveErrno(k, t, o);
    KernelAnswer(if e == OK then WithoutTarget(k, t) else k, e)
  }

  // ---- copies and hold files ----

  function Erased(d: Disk, h: Handle): nat { if h in d.erased then d.erased[h] else 0 }

  function WithCopy(d: Disk, h: Handle): Disk {
    if h in d.copies then d else d.(copies := d.copies[h := Copy(Erased(d, h), Empty)])
  }

  function MakeCopy(d: Disk, h: Handle, o: Outcome): DiskAnswer {
    if o.Fails? then DiskAnswer(d, EIO) else DiskAnswer(WithCopy(d, h), OK)
  }

  function ChmodCopy(d: Disk, h: Handle, o: Outcome): Errno {
    if o.Fails? then EIO else if h !in d.copies then ENOENT else OK
  }

  function Keep(content: Content, names: set<string>): Content {
    match content
    case Empty => Empty
    case File(name, bytes, rest) =>
      if name in names then File(name, bytes, Keep(rest, names)) else Keep(rest, names)
  }

  /** os.RemoveAll: on failure the directory stays with some of its files, those in `left`. */
  datatype Removal = Removes | Leaves(left: set<string>)

  function WithoutCopy(d: Disk, h: Handle): Disk {
    d.(copies := d.copies - {h}, erased := d.erased[h := Erased(d, h) + 1])
  }

  function RemoveCopy(d: Disk, h: Handle, r: Removal): DiskAnswer {
    if h !in d.copies then DiskAnswer(d, OK)
    else if r.Removes? then DiskAnswer(WithoutCopy(d, h), OK)
    else
      var was := d.copies[h];
      DiskAnswer(d.(copies := d.copies[h := was.(content := Keep(was.content, r.left))]), EIO)
  }

  function WithRecord(d: Disk, h: Handle, r: Record): Disk { d.(records := d.records[h := r]) }

  function RemoveRecord(d: Disk, h: Handle, o: Outcome): DiskAnswer {
    if o.Fails? then DiskAnswer(d, EIO)
    else if h !in d.records then DiskAnswer(d, ENOENT)
    else DiskAnswer(d.(records := d.records - {h}), OK)
  }

  /** The live copy is visible at the target in the given mode, and nothing is under it. */
  predicate Shows(s: State, t: Path, h: Handle, readOnly: bool) {
    h in s.disk.copies && Stack(s.kernel, t) == [Bind(h, s.disk.copies[h].generation, readOnly)]
  }

  /** The bind a pod would see at the target lets it write. */
  predicate Writable(k: Kernel, t: Path) {
    var binds := Stack(k, t);
    binds != [] && !binds[|binds| - 1].readOnly
  }

  // ---- agreement ----

  /** The two maps agree at one key. */
  predicate SameKey<K, V(==)>(a: map<K, V>, b: map<K, V>, k: K) {
    (k in a <==> k in b) && (k in a ==> a[k] == b[k])
  }

  predicate SameDisk(a: Disk, b: Disk, h: Handle) {
    SameKey(a.records, b.records, h) && SameKey(a.copies, b.copies, h) && SameKey(a.erased, b.erased, h)
  }

  predicate SameKernel(a: Kernel, b: Kernel, t: Path) {
    SameKey(a.targets, b.targets, t) && SameKey(a.mounts, b.mounts, t)
  }

  /** The two states agree on everything kept under a handle, and under a target. */
  predicate SameHandle(a: State, b: State, h: Handle) {
    SameKey(a.holds, b.holds, h) && SameDisk(a.disk, b.disk, h)
  }

  predicate SameTarget(a: State, b: State, t: Path) { SameKernel(a.kernel, b.kernel, t) }

  predicate SameFor(a: State, b: State, h: Handle, t: Path) {
    SameHandle(a, b, h) && SameTarget(a, b, t)
  }

  lemma WithStackLocal(a: Kernel, b: Kernel, t: Path, binds: seq<Bind>)
    requires SameKernel(a, b, t)
    ensures SameKernel(WithStack(a, t, binds), WithStack(b, t, binds), t)
  {
    if binds == [] {} else {}
  }

  lemma UnmountLocal(a: Kernel, b: Kernel, t: Path, o: Outcome)
    requires SameKernel(a, b, t)
    ensures Unmount(a, t, o).errno == Unmount(b, t, o).errno
    ensures SameKernel(Unmount(a, t, o).kernel, Unmount(b, t, o).kernel, t)
  {
    if Stack(a, t) != [] { WithStackLocal(a, b, t, Below(Stack(a, t))); }
  }

  lemma RemountLocal(a: Kernel, b: Kernel, t: Path, o: Outcome)
    requires SameKernel(a, b, t)
    ensures RemountReadOnly(a, t, o).errno == RemountReadOnly(b, t, o).errno
    ensures SameKernel(RemountReadOnly(a, t, o).kernel, RemountReadOnly(b, t, o).kernel, t)
  {
    if Stack(a, t) != [] { WithStackLocal(a, b, t, ReadOnlyTop(Stack(a, t))); }
  }

  lemma MountLocal(a: State, b: State, h: Handle, t: Path, o: Outcome)
    requires SameFor(a, b, h, t)
    ensures MountBind(a.disk, a.kernel, h, t, o).errno == MountBind(b.disk, b.kernel, h, t, o).errno
    ensures SameKernel(MountBind(a.disk, a.kernel, h, t, o).kernel, MountBind(b.disk, b.kernel, h, t, o).kernel, t)
  {
    if h in a.disk.copies {
      var made := Bind(h, a.disk.copies[h].generation, false);
      WithStackLocal(a.kernel, b.kernel, t, Stack(a.kernel, t) + [made]);
    }
  }

  lemma TargetsLocal(a: Kernel, b: Kernel, t: Path, o: Outcome)
    requires SameKernel(a, b, t)
    ensures MakeTarget(a, t, o).errno == MakeTarget(b, t, o).errno
    ensures SameKernel(MakeTarget(a, t, o).kernel, MakeTarget(b, t, o).kernel, t)
    ensures RemoveTarget(a, t, o).errno == RemoveTarget(b, t, o).errno
    ensures SameKernel(RemoveTarget(a, t, o).kernel, RemoveTarget(b, t, o).kernel, t)
  {
    assert Stack(a, t) == Stack(b, t);
    if t in a.targets {} else {}
  }

  lemma DiskLocal(a: Disk, b: Disk, h: Handle, o: Outcome)
    requires SameDisk(a, b, h)
    ensures MakeCopy(a, h, o).errno == MakeCopy(b, h, o).errno
    ensures SameDisk(MakeCopy(a, h, o).disk, MakeCopy(b, h, o).disk, h)
    ensures SameDisk(RemoveRecord(a, h, o).disk, RemoveRecord(b, h, o).disk, h)
  {
    assert Erased(a, h) == Erased(b, h);
    if h in a.copies {} else {}
  }

  ghost predicate SameMap<K(!new), V>(a: map<K, V>, b: map<K, V>) {
    forall k: K :: SameKey(a, b, k)
  }

  lemma SameMapIsEqual<K(!new), V>(a: map<K, V>, b: map<K, V>)
    requires SameMap(a, b)
    ensures a == b
  {
    forall k ensures (k in a <==> k in b) && (k in a ==> a[k] == b[k]) {
      assert SameKey(a, b, k);
    }
    assert a.Keys == b.Keys;
  }

  /** States that agree at every handle and target are equal. */
  lemma SameEverywhere(a: State, b: State)
    requires forall h: Handle :: SameHandle(a, b, h)
    requires forall t: Path :: SameTarget(a, b, t)
    ensures a == b
  {
    forall h: Handle ensures SameKey(a.holds, b.holds, h) { assert SameHandle(a, b, h); }
    forall h: Handle ensures SameKey(a.disk.records, b.disk.records, h) { assert SameHandle(a, b, h); }
    forall h: Handle ensures SameKey(a.disk.copies, b.disk.copies, h) { assert SameHandle(a, b, h); }
    forall h: Handle ensures SameKey(a.disk.erased, b.disk.erased, h) { assert SameHandle(a, b, h); }
    forall t: Path ensures SameKey(a.kernel.targets, b.kernel.targets, t) { assert SameTarget(a, b, t); }
    forall t: Path ensures SameKey(a.kernel.mounts, b.kernel.mounts, t) { assert SameTarget(a, b, t); }
    SameMapIsEqual(a.holds, b.holds);
    SameMapIsEqual(a.disk.records, b.disk.records);
    SameMapIsEqual(a.disk.copies, b.disk.copies);
    SameMapIsEqual(a.disk.erased, b.disk.erased);
    SameMapIsEqual(a.kernel.targets, b.kernel.targets);
    SameMapIsEqual(a.kernel.mounts, b.kernel.mounts);
  }
}

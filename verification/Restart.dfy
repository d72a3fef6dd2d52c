/** holds.go's recovery after a restart. Memory is gone; the hold files and the mounts are
    what the last process left. */
module Restart {
  import opened Wrappers
  import opened States

  /** What the environment does to the recovery of one hold file: whether it can be read, whether
      the mount table can be opened, and whether the file can be removed if it must go. */
  datatype Luck = Luck(read: Outcome, table: Outcome, remove: Outcome)

  const GOOD := Luck(Works, Works, Works)

  /** Whether recovery takes the hold back. */
  predicate Restores(d: Disk, k: Kernel, h: Handle, luck: Luck) {
    && luck.read.Works? && h in d.records && d.records[h].Readable?
    && luck.table.Works? && Stack(k, d.records[h].hold.target) != []
  }

  function ResumeEntry(s: State, h: Handle, luck: Luck): State {
    if Restores(s.disk, s.kernel, h, luck) then s.(holds := s.holds[h := s.disk.records[h].hold])
    else s.(holds := s.holds - {h}, disk := RemoveRecord(s.disk, h, luck.remove).disk)
  }

  /** The loop over the entries of the holds directory. */
  function ResumeEach(s: State, entries: seq<Handle>, luck: Handle -> Luck): State
    decreases |entries|
  {
    if entries == [] then s else ResumeEach(ResumeEntry(s, entries[0], luck(entries[0])), entries[1..], luck)
  }

  /** The process dies: memory is lost and nothing else. */
  function Crash(s: State): State { s.(holds := map[]) }

  /** The whole recovery, from a listing of the holds directory or none: without one, no hold
      comes back. */
  function Resumed(s: State, listing: Option<seq<Handle>>, luck: Handle -> Luck): State {
    if listing.None? then Crash(s) else ResumeEach(Crash(s), listing.value, luck)
  }

  predicate NoRepeats(entries: seq<Handle>) {
    forall i, j | 0 <= i < j < |entries| :: entries[i] != entries[j]
  }

  /** A directory listing names every entry once. */
  predicate IsListing<V>(entries: seq<Handle>, m: map<Handle, V>) {
    && NoRepeats(entries)
    && (forall h | h in entries :: h in m)
    && (forall h | h in m :: h in entries)
  }

  /** One entry's recovery changes nothing about any other handle, and no copy or mount. */
  lemma EntryFrame(s: State, e: Handle, luck: Luck, h: Handle)
    requires h != e
    ensures SameHandle(ResumeEntry(s, e, luck), s, h)
    ensures ResumeEntry(s, e, luck).kernel == s.kernel
    ensures ResumeEntry(s, e, luck).disk.copies == s.disk.copies
    ensures ResumeEntry(s, e, luck).disk.erased == s.disk.erased
  {
  }

  /** Recovery is exact: a listed handle is held afterwards precisely when its record could be
      read and its target is still mounted, under the recorded claim; its file stays precisely
      when it is held or could not be removed; no handle off the list is touched. */
  lemma {:induction false} ResumeIsExact(s: State, entries: seq<Handle>, luck: Handle -> Luck, h: Handle)
    requires NoRepeats(entries)
    ensures ResumeEach(s, entries, luck).kernel == s.kernel
    ensures ResumeEach(s, entries, luck).disk.copies == s.disk.copies
    ensures ResumeEach(s, entries, luck).disk.erased == s.disk.erased
    ensures h !in entries ==> SameHandle(ResumeEach(s, entries, luck), s, h)
    ensures h in entries ==> SameHandle(ResumeEach(s, entries, luck), ResumeEntry(s, h, luck(h)), h)
    decreases |entries|
  {
    if entries != [] {
      var e, rest := entries[0], entries[1..];
      var s1 := ResumeEntry(s, e, luck(e));
      ResumeIsExact(s1, rest, luck, h);
      if h == e {
        assert forall i | 0 <= i < |rest| :: rest[i] == entries[i + 1] != h;
        EntryKeepsDirectories(s, e, luck(e));
      } else {
        EntryFrame(s, e, luck(e), h);
        if h in rest { EntryIsLocal(s1, s, h, luck(h)); }
      }
    }
  }

  lemma EntryKeepsDirectories(s: State, e: Handle, luck: Luck)
    ensures ResumeEntry(s, e, luck).kernel == s.kernel
    ensures ResumeEntry(s, e, luck).disk.copies == s.disk.copies
    ensures ResumeEntry(s, e, luck).disk.erased == s.disk.erased
  {
  }

  lemma EntryIsLocal(a: State, b: State, h: Handle, luck: Luck)
    requires SameHandle(a, b, h) && a.kernel == b.kernel
    ensures SameHandle(ResumeEntry(a, h, luck), ResumeEntry(b, h, luck), h)
  {
    DiskLocal(a.disk, b.disk, h, luck.remove);
  }

  /** What is left of the state when everything can be read and removed. */
  function Restarted(s: State): State {
    var kept := set h | h in s.disk.records && Restores(s.disk, s.kernel, h, GOOD);
    var holds := map h | h in kept :: s.disk.records[h].hold;
    var records := map h | h in kept :: s.disk.records[h];
    State(holds, s.disk.(records := records), s.kernel)
  }

  lemma RestartedAt(s: State, h: Handle)
    ensures h in Restarted(s).holds <==> Restores(s.disk, s.kernel, h, GOOD)
    ensures h in Restarted(s).disk.records <==> Restores(s.disk, s.kernel, h, GOOD)
    ensures h in Restarted(s).disk.records ==> Restarted(s).disk.records[h] == s.disk.records[h]
    ensures h in Restarted(s).holds ==> Restarted(s).holds[h] == s.disk.records[h].hold
  {
  }

  /** In a good restart the loop, in whatever order it meets the entries, leaves exactly the
      holds whose records decode and whose targets are mounted, and exactly their files. */
  lemma ResumeRestarts(s: State, entries: seq<Handle>)
    requires IsListing(entries, s.disk.records)
    ensures ResumeEach(Crash(s), entries, _ => GOOD) == Restarted(s)
  {
    var luck := (_: Handle) => GOOD;
    var r := ResumeEach(Crash(s), entries, luck);
    forall h: Handle ensures SameHandle(r, Restarted(s), h) {
      ResumeIsExact(Crash(s), entries, luck, h);
      RestartedAt(s, h);
    }
    ResumeIsExact(Crash(s), entries, luck, Handle(""));
    SameEverywhere(r, Restarted(s));
  }

  /** Memory and disk agree, and every hold's target is mounted. */
  ghost predicate Agreed(s: State) {
    && s.holds.Keys == s.disk.records.Keys
    && forall h | h in s.holds ::
         s.disk.records[h] == Readable(s.holds[h]) && Stack(s.kernel, s.holds[h].target) != []
  }

  /** A restart from agreement loses nothing, and a second one changes nothing. */
  lemma RestartFromAgreement(s: State)
    requires Agreed(s)
    ensures Restarted(s) == s
  {
    forall h: Handle ensures SameHandle(Restarted(s), s, h) { RestartedAt(s, h); }
    SameEverywhere(Restarted(s), s);
  }

  /** A recovery reaches agreement, whatever it could read, if and only if the file of every
      hold it did not take back could be removed. */
  lemma RecoveryAgreesExactly(s: State, entries: seq<Handle>, luck: Handle -> Luck)
    requires IsListing(entries, s.disk.records)
    ensures Agreed(ResumeEach(Crash(s), entries, luck)) <==>
              forall h | h in s.disk.records :: Restores(s.disk, s.kernel, h, luck(h)) || luck(h).remove.Works?
  {
    var r := ResumeEach(Crash(s), entries, luck);
    forall h: Handle
      ensures h in r.holds <==> Restores(s.disk, s.kernel, h, luck(h))
      ensures h in r.holds ==> h in r.disk.records && r.disk.records[h] == s.disk.records[h]
      ensures h in r.holds ==> r.holds[h] == s.disk.records[h].hold
      ensures h in r.disk.records <==>
                h in s.disk.records && (Restores(s.disk, s.kernel, h, luck(h)) || luck(h).remove.Fails?)
      ensures r.kernel == s.kernel
    {
      ResumeIsExact(Crash(s), entries, luck, h);
    }
  }

  /** A good restart reaches agreement, so a second one changes nothing. */
  lemma RestartReachesAgreement(s: State)
    ensures Agreed(Restarted(s))
    ensures Restarted(Restarted(s)) == Restarted(s)
  {
    forall h: Handle
      ensures h in Restarted(s).holds <==> h in Restarted(s).disk.records
      ensures h in Restarted(s).holds ==> Restores(s.disk, s.kernel, h, GOOD)
      ensures h in Restarted(s).holds ==> Restarted(s).disk.records[h] == Readable(Restarted(s).holds[h])
    {
      RestartedAt(s, h);
    }
    RestartFromAgreement(Restarted(s));
  }

  /** A crash keeps memory's holds if and only if the disk agrees about every one of them and
      of no other whose target is mounted. */
  lemma CrashKeepsHoldsExactly(s: State)
    ensures Restarted(s).holds == s.holds <==>
              (forall h :: h in s.holds <==> Restores(s.disk, s.kernel, h, GOOD)) &&
              (forall h | h in s.holds :: s.disk.records[h] == Readable(s.holds[h]))
  {
    forall h: Handle ensures h in Restarted(s).holds <==> Restores(s.disk, s.kernel, h, GOOD) {
      RestartedAt(s, h);
    }
    if Restarted(s).holds == s.holds {
      forall h | h in s.holds ensures s.disk.records[h] == Readable(s.holds[h]) { RestartedAt(s, h); }
    }
    if (forall h :: h in s.holds <==> Restores(s.disk, s.kernel, h, GOOD)) &&
       (forall h | h in s.holds :: s.disk.records[h] == Readable(s.holds[h])) {
      forall h: Handle ensures SameKey(Restarted(s).holds, s.holds, h) { RestartedAt(s, h); }
      SameMapIsEqual(Restarted(s).holds, s.holds);
    }
  }

  /** One handle of an interrupted restart: whether the next restart takes its hold back. */
  lemma InterruptedAt(s: State, entries: seq<Handle>, luck: Handle -> Luck, h: Handle)
    requires NoRepeats(entries)
    requires luck(h).read.Works? && luck(h).table.Works?
    ensures var r := ResumeEach(Crash(s), entries, luck);
            && (Restores(r.disk, r.kernel, h, GOOD) <==> Restores(s.disk, s.kernel, h, GOOD))
            && (Restores(s.disk, s.kernel, h, GOOD) ==> r.disk.records[h] == s.disk.records[h])
  {
    ResumeIsExact(Crash(s), entries, luck, h);
    var r := ResumeEach(Crash(s), entries, luck);
    if h in entries {
      var one := ResumeEntry(Crash(s), h, luck(h));
      assert SameKey(r.disk.records, one.disk.records, h);
      if Restores(s.disk, s.kernel, h, GOOD) { assert one.disk == s.disk; }
    } else {
      assert SameKey(r.disk.records, s.disk.records, h);
    }
  }

  /** A restart that itself dies partway, or cannot remove files, is made up for by the next,
      as long as it could read the records and the mount table. */
  lemma InterruptedRestart(s: State, entries: seq<Handle>, luck: Handle -> Luck)
    requires NoRepeats(entries)
    requires forall h :: luck(h).read.Works? && luck(h).table.Works?
    ensures Restarted(ResumeEach(Crash(s), entries, luck)) == Restarted(s)
  {
    var r := ResumeEach(Crash(s), entries, luck);
    forall h: Handle ensures SameHandle(Restarted(r), Restarted(s), h) {
      InterruptedAt(s, entries, luck, h);
      ResumeIsExact(Crash(s), entries, luck, h);
      RestartedAt(r, h);
      RestartedAt(s, h);
    }
    ResumeIsExact(Crash(s), entries, luck, Handle(""));
    SameEverywhere(Restarted(r), Restarted(s));
  }
}

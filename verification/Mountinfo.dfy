/** holds.go's reader of the kernel's mount table, against the kernel's own printing of it. */
module Mountinfo {
  import opened Text

  /** `unicode.IsSpace`. */
  predicate IsSpace(c: char) {
    var n := c as int;
    || 0x09 <= n <= 0x0d || n == 0x20 || n == 0x85 || n == 0xa0 || n == 0x1680
    || 0x2000 <= n <= 0x200a || n == 0x2028 || n == 0x2029 || n == 0x202f || n == 0x205f
    || n == 0x3000
  }

  function TokenLength(s: string): (n: nat)
    ensures n <= |s| && (forall i | 0 <= i < n :: !IsSpace(s[i])) && (n < |s| ==> IsSpace(s[n]))
  {
    if s == "" || IsSpace(s[0]) then 0 else 1 + TokenLength(s[1..])
  }

  /** `strings.Fields`. */
  function Fields(s: string): seq<string>
    decreases |s|
  {
    if s == "" then []
    else if IsSpace(s[0]) then Fields(s[1..])
    else var n := TokenLength(s); [s[..n]] + Fields(s[n..])
  }

  /** The driver's replacer: at each position the first escape that matches is taken, and
      what it stands for is not looked at again. */
  function Unescape(s: string): string {
    if s == "" then ""
    else if "\\040" <= s then " " + Unescape(s[4..])
    else if "\\011" <= s then "\t" + Unescape(s[4..])
    else if "\\012" <= s then "\n" + Unescape(s[4..])
    else if "\\134" <= s then "\\" + Unescape(s[4..])
    else [s[0]] + Unescape(s[1..])
  }

  /** What the kernel prints for one character of a path. */
  function EscapeOne(c: char): string {
    match c
    case ' ' => "\\040"
    case '\t' => "\\011"
    case '\n' => "\\012"
    case '\\' => "\\134"
    case _ => [c]
  }

  function Escape(path: string): string {
    if path == "" then "" else EscapeOne(path[0]) + Escape(path[1..])
  }

  function WithoutReturn(line: string): string {
    if line != "" && line[|line| - 1] == '\r' then line[..|line| - 1] else line
  }

  /** The most bytes a `bufio.Scanner` takes for one line and its line break. */
  const SCAN_LIMIT := 0x1_0000

  /** A line that fills the scanner's buffer ends the scan. */
  function BeforeLong(parts: seq<string>): seq<string> {
    if parts == [] || ByteLength(parts[0]) >= SCAN_LIMIT then [] else [parts[0]] + BeforeLong(parts[1..])
  }

  /** The lines a `bufio.Scanner` hands out: those before the first that is too long, without
      a carriage return before the line break. An empty rest after the last line break is no
      line. */
  function Lines(text: string): seq<string> {
    var parts := Split(text, '\n');
    var whole := if parts[|parts| - 1] == "" then parts[..|parts| - 1] else parts;
    var read := BeforeLong(whole);
    seq(|read|, i requires 0 <= i < |read| => WithoutReturn(read[i]))
  }

  predicate LineShows(line: string, path: string) {
    var fields := Fields(line);
    |fields| > 4 && Unescape(fields[4]) == path
  }

  /** mountedIn: whether some line of the table names the path in its fifth field. */
  method MountedIn(table: string, path: string) returns (found: bool)
    ensures found <==> Finds(table, path)
  {
    var lines := Lines(table);
    var i := 0;
    while i < |lines|
      invariant 0 <= i <= |lines|
      invariant forall k | 0 <= k < i :: !LineShows(lines[k], path)
    {
      var fields := Fields(lines[i]);
      if |fields| > 4 && Unescape(fields[4]) == path {
        assert lines[i] in lines && LineShows(lines[i], path);
        return true;
      }
      i := i + 1;
    }
    return false;
  }

  /** One line of the kernel's table: mount ID, parent ID, device and root, the mount point,
      and everything after it. */
  datatype Entry = Entry(id: string, parent: string, device: string, root: string, point: string, rest: string)

  predicate Solid(s: string) {
    s != "" && forall i | 0 <= i < |s| :: !IsSpace(s[i])
  }

  /** No whitespace but what the kernel escapes. */
  predicate CleanPath(path: string) {
    path != "" && forall i | 0 <= i < |path| :: IsSpace(path[i]) ==> path[i] in " \t\n"
  }

  predicate Printable(e: Entry) {
    && Solid(e.id) && Solid(e.parent) && Solid(e.device)
    && CleanPath(e.root) && CleanPath(e.point) && '\n' !in e.rest
  }

  function Line(e: Entry): string {
    e.id + " " + (e.parent + " " + (e.device + " " + (Escape(e.root) + " " + (Escape(e.point) + " " + e.rest))))
  }

  function Print(entries: seq<Entry>): string {
    if entries == [] then "" else Line(entries[0]) + "\n" + Print(entries[1..])
  }

  lemma UnescapeOne(c: char, rest: string)
    ensures Unescape(EscapeOne(c) + rest) == [c] + Unescape(rest)
  {
    var one := EscapeOne(c);
    var whole := one + rest;
    assert whole[|one|..] == rest && whole[..|one|] == one;
    if |one| == 1 {
      assert whole[0] != '\\';
    } else {
      assert whole[1] == one[1] && whole[2] == one[2] && whole[3] == one[3];
    }
  }

  lemma {:induction false} UnescapeEscape(path: string)
    ensures Unescape(Escape(path)) == path
  {
    if path != "" {
      UnescapeEscape(path[1..]);
      UnescapeOne(path[0], Escape(path[1..]));
    }
  }

  lemma {:induction false} EscapeIsSolid(path: string)
    requires forall i | 0 <= i < |path| :: IsSpace(path[i]) ==> path[i] in " \t\n"
    ensures forall i | 0 <= i < |Escape(path)| :: !IsSpace(Escape(path)[i])
    ensures path != "" ==> Escape(path) != ""
  {
    if path != "" {
      EscapeIsSolid(path[1..]);
      var one, rest := EscapeOne(path[0]), Escape(path[1..]);
      forall i | 0 <= i < |one| ensures !IsSpace(one[i]) {
        assert IsSpace(path[0]) ==> path[0] in " \t\n";
      }
    }
  }

  lemma FieldsOfToken(token: string, rest: string)
    requires Solid(token)
    ensures Fields(token + " " + rest) == [token] + Fields(rest)
  {
    var s := token + " " + rest;
    assert s[0] == token[0];
    var n := TokenLength(s);
    assert n == |token| by {
      assert s[|token|] == ' ';
      assert forall i | 0 <= i < |token| :: s[i] == token[i];
    }
    assert s[..n] == token && s[n..] == " " + rest;
    assert (" " + rest)[1..] == rest;
  }

  /** The fifth field of a printed line is the escaped mount point. */
  lemma LineShowsPoint(e: Entry, path: string)
    requires Printable(e)
    ensures LineShows(WithoutReturn(Line(e)), path) <==> path == e.point
  {
    var rest := WithoutReturn(e.rest);
    var line := Line(e.(rest := rest));
    assert WithoutReturn(Line(e)) == line by { LastOfLine(e); }
    EscapeIsSolid(e.root);
    EscapeIsSolid(e.point);
    var five := Escape(e.point) + " " + rest;
    var four := Escape(e.root) + " " + five;
    var three := e.device + " " + four;
    var two := e.parent + " " + three;
    FieldsOfToken(e.id, two);
    FieldsOfToken(e.parent, three);
    FieldsOfToken(e.device, four);
    FieldsOfToken(Escape(e.root), five);
    FieldsOfToken(Escape(e.point), rest);
    assert Fields(line)[4] == Escape(e.point);
    UnescapeEscape(e.point);
  }

  lemma ReturnIsInTail(head: string, tail: string)
    requires head != "" && head[|head| - 1] != '\r'
    ensures WithoutReturn(head + tail) == head + WithoutReturn(tail)
  {
    if tail != "" {
      assert (head + tail)[|head + tail| - 1] == tail[|tail| - 1];
      assert (head + tail)[..|head + tail| - 1] == head + tail[..|tail| - 1];
    }
  }

  /** A line up to its mount point, and what follows. */
  function Head(e: Entry): string {
    e.id + " " + e.parent + " " + e.device + " " + Escape(e.root) + " " + Escape(e.point) + " "
  }

  lemma HeadThenRest(e: Entry)
    ensures Line(e) == Head(e) + e.rest
  {
    var root, point := Escape(e.root), Escape(e.point);
    assert Line(e) == e.id + " " + e.parent + " " + (e.device + " " + (root + " " + (point + " " + e.rest)));
    assert Line(e) == e.id + " " + e.parent + " " + e.device + " " + (root + " " + (point + " " + e.rest));
    assert Line(e) == e.id + " " + e.parent + " " + e.device + " " + root + " " + (point + " " + e.rest);
  }

  lemma LastOfLine(e: Entry)
    ensures WithoutReturn(Line(e)) == Line(e.(rest := WithoutReturn(e.rest)))
  {
    HeadThenRest(e);
    HeadThenRest(e.(rest := WithoutReturn(e.rest)));
    ReturnIsInTail(Head(e), e.rest);
  }

  lemma NoBreakInLine(e: Entry)
    requires Printable(e)
    ensures '\n' !in Line(e)
  {
    EscapeIsSolid(e.root);
    EscapeIsSolid(e.point);
    var five := Escape(e.point) + " " + e.rest;
    var four := Escape(e.root) + " " + five;
    var three := e.device + " " + four;
    SolidHasNoBreak(Escape(e.point));
    SolidHasNoBreak(Escape(e.root));
    SolidHasNoBreak(e.device);
    SolidHasNoBreak(e.parent);
    SolidHasNoBreak(e.id);
    NoBreakInBoth(Escape(e.point), e.rest);
    NoBreakInBoth(Escape(e.root), five);
    NoBreakInBoth(e.device, four);
    NoBreakInBoth(e.parent, three);
    NoBreakInBoth(e.id, e.parent + " " + three);
  }

  lemma SolidHasNoBreak(s: string)
    requires forall i | 0 <= i < |s| :: !IsSpace(s[i])
    ensures '\n' !in s
  {
    assert IsSpace('\n');
  }

  lemma NoBreakInBoth(a: string, b: string)
    requires '\n' !in a && '\n' !in b
    ensures '\n' !in a + " " + b
  {
  }

  function LinesOf(entries: seq<Entry>): seq<string> {
    seq(|entries|, i requires 0 <= i < |entries| => Line(entries[i]))
  }

  /** The entries whose lines the scanner hands out. */
  function Read(entries: seq<Entry>): seq<Entry> {
    if entries == [] || ByteLength(Line(entries[0])) >= SCAN_LIMIT then [] else [entries[0]] + Read(entries[1..])
  }

  /** A printed table splits into its lines. */
  lemma {:induction false} SplitOfPrint(entries: seq<Entry>)
    requires forall e | e in entries :: Printable(e)
    ensures Split(Print(entries), '\n') == LinesOf(entries) + [""]
  {
    if entries == [] {
      assert LinesOf(entries) == [];
    } else {
      var first, rest := Line(entries[0]), entries[1..];
      SplitOfPrint(rest);
      NoBreakInLine(entries[0]);
      SplitSolid(first, '\n');
      SplitAppend(first, Print(rest), '\n');
      assert Print(entries) == first + "\n" + Print(rest);
      LinesOfCons(entries);
      assert [first] + (LinesOf(rest) + [""]) == [first] + LinesOf(rest) + [""];
    }
  }

  lemma LinesOfCons(entries: seq<Entry>)
    requires entries != []
    ensures LinesOf(entries) == [Line(entries[0])] + LinesOf(entries[1..])
  {
  }

  lemma {:induction false} BeforeLongOfLines(entries: seq<Entry>)
    ensures BeforeLong(LinesOf(entries)) == LinesOf(Read(entries))
  {
    if entries != [] {
      LinesOfCons(entries);
      assert LinesOf(entries)[1..] == LinesOf(entries[1..]);
      BeforeLongOfLines(entries[1..]);
      if ByteLength(Line(entries[0])) < SCAN_LIMIT {
        LinesOfCons(Read(entries));
        assert Read(entries)[1..] == Read(entries[1..]);
      }
    }
  }

  lemma {:induction false} ReadIsPrefix(entries: seq<Entry>)
    ensures forall e | e in Read(entries) :: e in entries
    ensures (forall e | e in entries :: ByteLength(Line(e)) < SCAN_LIMIT) ==> Read(entries) == entries
  {
    if entries != [] { ReadIsPrefix(entries[1..]); }
  }

  predicate Shows(entries: seq<Entry>, path: string) {
    exists e | e in entries :: e.point == path
  }

  predicate Finds(text: string, path: string) {
    exists line | line in Lines(text) :: LineShows(line, path)
  }

  /** A printed table reads back line by line. */
  lemma LinesOfPrint(entries: seq<Entry>)
    requires forall e | e in entries :: Printable(e)
    ensures |Lines(Print(entries))| == |Read(entries)|
    ensures forall i | 0 <= i < |Read(entries)| :: Lines(Print(entries))[i] == WithoutReturn(Line(Read(entries)[i]))
  {
    SplitOfPrint(entries);
    BeforeLongOfLines(entries);
    var parts := Split(Print(entries), '\n');
    assert parts[..|parts| - 1] == LinesOf(entries);
  }

  /** Reading undoes printing: on any table the kernel prints, the reader finds a path exactly
      when it is the mount point of an entry before the first whose line is too long. */
  lemma ReadsWhatTheKernelPrints(entries: seq<Entry>, path: string)
    requires forall e | e in entries :: Printable(e)
    ensures Finds(Print(entries), path) <==> Shows(Read(entries), path)
  {
    LinesOfPrint(entries);
    ReadIsPrefix(entries);
    var lines, read := Lines(Print(entries)), Read(entries);
    forall i | 0 <= i < |read|
      ensures LineShows(lines[i], path) <==> read[i].point == path
    {
      assert read[i] in entries;
      LineShowsPoint(read[i], path);
    }
    SameIndices(lines, read, path);
  }

  lemma SameIndices(lines: seq<string>, entries: seq<Entry>, path: string)
    requires |lines| == |entries|
    requires forall i | 0 <= i < |entries| :: LineShows(lines[i], path) <==> entries[i].point == path
    ensures (exists line | line in lines :: LineShows(line, path)) <==> Shows(entries, path)
  {
    if Shows(entries, path) {
      var e :| e in entries && e.point == path;
      var i :| 0 <= i < |entries| && entries[i] == e;
      assert lines[i] in lines;
    }
    if line :| line in lines && LineShows(line, path) {
      var i :| 0 <= i < |lines| && lines[i] == line;
      assert entries[i] in entries;
    }
  }

  /** The reader gets far enough to tell: no line is too long, or the path comes before. */
  predicate Tells(text: string, path: string) {
    Finds(text, path) || forall part | part in Split(text, '\n') :: ByteLength(part) < SCAN_LIMIT
  }

  /** What the reader answers is whether the path is a mount point, except that behind a line
      that is too long it finds nothing. */
  lemma FindsWhatIsMounted(entries: seq<Entry>, path: string)
    requires forall e | e in entries :: Printable(e)
    ensures Finds(Print(entries), path) <==> Shows(entries, path) && Tells(Print(entries), path)
  {
    ReadsWhatTheKernelPrints(entries, path);
    ReadIsPrefix(entries);
    var parts := Split(Print(entries), '\n');
    if forall part | part in parts :: ByteLength(part) < SCAN_LIMIT {
      SplitOfPrint(entries);
      forall e | e in entries ensures ByteLength(Line(e)) < SCAN_LIMIT {
        var i :| 0 <= i < |entries| && entries[i] == e;
        assert parts[i] == Line(e) && parts[i] in parts;
      }
    }
  }

  // ---- the same from explicit characters ----

  /** Go's whitespace, one code point at a time. */
  lemma SpacesByValue(c: char)
    ensures IsSpace(c) <==> c as int in {
              9, 10, 11, 12, 13, 32, 133, 160, 5760, 8192, 8193, 8194, 8195, 8196, 8197, 8198, 8199, 8200, 8201,
              8202, 8232, 8233, 8239, 8287, 12288 }
  {
  }

  /** The kernel writes a backslash and the three octal digits of the character. */
  function Octal(c: char): string
    requires c as int < 0x200
  {
    var n := c as int;
    ['\\', '0' + (n / 64) as char, '0' + (n / 8 % 8) as char, '0' + (n % 8) as char]
  }

  /** Which characters it writes so, and that the driver reads each back. */
  lemma EscapesAreOctal(c: char)
    ensures c in " \t\n\\" ==> EscapeOne(c) == Octal(c) && Unescape(Octal(c)) == [c]
    ensures c !in " \t\n\\" ==> EscapeOne(c) == [c]
  {
    if c in " \t\n\\" {
      UnescapeOne(c, "");
      assert EscapeOne(c) + "" == EscapeOne(c);
    }
  }

  /** A visible ASCII character. */
  predicate IsVisible(c: char) { 0x21 <= c as int <= 0x7e }

  /** An entry of visible characters, with spaces, tabs and line breaks in its paths; a line of
      the kubelet's own paths is one, tilde and all. */
  predicate IsOrdinary(e: Entry) {
    && e.id != "" && e.parent != "" && e.device != "" && e.root != "" && e.point != ""
    && (forall i | 0 <= i < |e.id| :: IsVisible(e.id[i]))
    && (forall i | 0 <= i < |e.parent| :: IsVisible(e.parent[i]))
    && (forall i | 0 <= i < |e.device| :: IsVisible(e.device[i]))
    && (forall i | 0 <= i < |e.root| :: IsVisible(e.root[i]) || e.root[i] in " \t\n")
    && (forall i | 0 <= i < |e.point| :: IsVisible(e.point[i]) || e.point[i] in " \t\n")
    && '\n' !in e.rest
    && ByteLength(Line(e)) < 65536
  }

  lemma OrdinaryIsPrintable(e: Entry)
    requires IsOrdinary(e)
    ensures Printable(e) && ByteLength(Line(e)) < SCAN_LIMIT
  {
    forall c: char | IsVisible(c) ensures !IsSpace(c) {}
  }

  /** On every table of ordinary entries with lines of less than 64 KiB, the reader finds exactly
      the mount points, also when the last line has no line break. */
  lemma ReadsOrdinaryTables(entries: seq<Entry>, path: string)
    requires forall e | e in entries :: IsOrdinary(e)
    ensures Finds(Print(entries), path) <==> exists e | e in entries :: e.point == path
    ensures entries != [] ==> (Finds(Unfinished(entries), path) <==> exists e | e in entries :: e.point == path)
  {
    forall e | e in entries ensures Printable(e) && ByteLength(Line(e)) < SCAN_LIMIT { OrdinaryIsPrintable(e); }
    ReadIsPrefix(entries);
    ReadsWhatTheKernelPrints(entries, path);
    if entries != [] { LinesOfUnfinished(entries); }
  }

  /** A table whose last line has no line break. */
  function Unfinished(entries: seq<Entry>): string
    requires entries != []
  {
    PrintEnds(entries);
    Print(entries)[..|Print(entries)| - 1]
  }

  lemma {:induction false} PrintEnds(entries: seq<Entry>)
    requires entries != []
    ensures Print(entries) != "" && Print(entries)[|Print(entries)| - 1] == '\n'
  {
    var first, rest := Line(entries[0]) + "\n", Print(entries[1..]);
    assert Print(entries) == first + rest;
    if |entries| > 1 { PrintEnds(entries[1..]); }
  }

  lemma SameButLast(parts: seq<string>, lines: seq<string>, last: string)
    requires parts + [last] == lines + [last]
    ensures parts == lines
  {
    assert parts == (parts + [last])[..|parts|] && lines == (lines + [last])[..|lines|];
  }

  lemma LineIsNotEmpty(e: Entry)
    ensures Line(e) != ""
  {
  }

  lemma SplitOfUnfinished(entries: seq<Entry>)
    requires entries != [] && forall e | e in entries :: Printable(e)
    ensures Split(Unfinished(entries), '\n') == LinesOf(entries)
  {
    var text := Unfinished(entries);
    PrintEnds(entries);
    assert Print(entries) == text + "\n" + "";
    SplitAppend(text, "", '\n');
    SplitSolid("", '\n');
    SplitOfPrint(entries);
    SameButLast(Split(text, '\n'), LinesOf(entries), "");
  }

  lemma LinesOfUnfinished(entries: seq<Entry>)
    requires entries != [] && forall e | e in entries :: Printable(e)
    ensures Lines(Unfinished(entries)) == Lines(Print(entries))
  {
    SplitOfUnfinished(entries);
    SplitOfPrint(entries);
    var lines := LinesOf(entries);
    LineIsNotEmpty(entries[|entries| - 1]);
    assert (lines + [""])[..|lines|] == lines;
  }

  lemma {:induction false} ReadStopsAtLong(before: seq<Entry>, e: Entry, after: seq<Entry>)
    requires forall x | x in before :: ByteLength(Line(x)) < SCAN_LIMIT
    requires ByteLength(Line(e)) >= SCAN_LIMIT
    ensures Read(before + ([e] + after)) == before
  {
    if before != [] {
      assert (before + ([e] + after))[1..] == before[1..] + ([e] + after);
      ReadStopsAtLong(before[1..], e, after);
    }
  }

  /** A line of 64 KiB or more hides itself and every mount point behind it, and nothing before. */
  lemma LongLineHidesTheRest(before: seq<Entry>, e: Entry, after: seq<Entry>, path: string)
    requires forall x | x in before :: IsOrdinary(x)
    requires Printable(e) && ByteLength(Line(e)) >= 65536
    requires forall x | x in after :: Printable(x)
    ensures Finds(Print(before + ([e] + after)), path) <==> exists x | x in before :: x.point == path
  {
    forall x | x in before ensures Printable(x) && ByteLength(Line(x)) < SCAN_LIMIT { OrdinaryIsPrintable(x); }
    ReadStopsAtLong(before, e, after);
    ReadsWhatTheKernelPrints(before + ([e] + after), path);
  }
}

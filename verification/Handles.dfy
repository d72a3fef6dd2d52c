/** handle.go: which volume handles the driver accepts. */
module Handles {
  import opened Text

  /** The character classes of the pattern. */
  datatype Class = Alnum | AlnumDash | Dot

  predicate In(c: char, kind: Class) {
    var letterOrDigit := 'a' <= c <= 'z' || '0' <= c <= '9';
    match kind
    case Alnum => letterOrDigit
    case AlnumDash => letterOrDigit || c == '-'
    case Dot => c == '.'
  }

  datatype Regex =
    | One(kind: Class)
    | Cat(left: Regex, right: Regex)
    | Opt(body: Regex)
    | Star(body: Regex)

  /** The strings a pattern anchored at both ends matches. */
  predicate Matches(r: Regex, s: string)
    decreases |s|, r
  {
    match r
    case One(kind) => |s| == 1 && In(s[0], kind)
    case Cat(a, b) => exists i | 0 <= i <= |s| :: Matches(a, s[..i]) && Matches(b, s[i..])
    case Opt(a) => s == "" || Matches(a, s)
    case Star(a) => s == "" || exists i | 0 < i <= |s| :: Matches(a, s[..i]) && Matches(r, s[i..])
  }

  const LABEL := Cat(One(Alnum), Opt(Cat(Star(One(AlnumDash)), One(Alnum))))
  const TAIL := Star(Cat(One(Dot), LABEL))
  const HANDLE_SHAPE := Cat(LABEL, TAIL)
  const HANDLE_LIMIT := 253

  /** The grammar the pattern stands for, written from its own code points: labels of lower-case
      letters, digits and dashes, with no dash at either end, between dots. */
  predicate IsLowerOrDigit(c: char) { 0x61 <= c as int <= 0x7a || 0x30 <= c as int <= 0x39 }

  predicate IsLabel(l: string) {
    && l != ""
    && IsLowerOrDigit(l[0])
    && IsLowerOrDigit(l[|l| - 1])
    && forall i | 0 <= i < |l| :: IsLowerOrDigit(l[i]) || l[i] as int == 0x2d
  }

  predicate IsDnsName(s: string) {
    forall l | l in Split(s, '.') :: IsLabel(l)
  }

  datatype Verdict = Accepted | NoVolume | TooLong | NotDns

  /** A handle is accepted exactly when it is a DNS-1123 subdomain name of at most 253
      characters; the verdict says which of the three rules a refused one breaks first. */
  function CheckHandle(handle: string): (v: Verdict)
    ensures v.Accepted? <==> IsDnsName(handle) && |handle| <= 253
    ensures v.NoVolume? <==> handle == ""
    ensures v.TooLong? <==> ByteLength(handle) > 253
    ensures v.NotDns? <==> handle != "" && ByteLength(handle) <= 253 && !IsDnsName(handle)
  {
    ShapeIsDns(handle);
    if handle == "" then NoVolume
    else if ByteLength(handle) > HANDLE_LIMIT then
      (if IsDnsName(handle) then DnsIsAscii(handle); TooLong else TooLong)
    else if !Matches(HANDLE_SHAPE, handle) then NotDns
    else DnsIsAscii(handle); Accepted
  }

  lemma {:induction false} StarOfClass(kind: Class, s: string)
    ensures Matches(Star(One(kind)), s) <==> forall i | 0 <= i < |s| :: In(s[i], kind)
  {
    if s != "" {
      StarOfClass(kind, s[1..]);
      assert s[..1] == [s[0]];
      if forall i | 0 <= i < |s| :: In(s[i], kind) {
        assert Matches(One(kind), s[..1]) && Matches(Star(One(kind)), s[1..]);
      }
      if Matches(Star(One(kind)), s) {
        var i :| 0 < i <= |s| && Matches(One(kind), s[..i]) && Matches(Star(One(kind)), s[i..]);
        assert i == 1;
        assert forall j | 0 <= j < |s[1..]| :: In(s[1..][j], kind);
        assert forall j | 1 <= j < |s| :: s[j] == s[1..][j - 1];
      }
    }
  }

  /** One way to cut a match of a concatenation. */
  lemma CutCat(a: Regex, b: Regex, s: string) returns (i: nat)
    requires Matches(Cat(a, b), s)
    ensures i <= |s| && Matches(a, s[..i]) && Matches(b, s[i..])
  {
    i :| 0 <= i <= |s| && Matches(a, s[..i]) && Matches(b, s[i..]);
  }

  const INNER := Cat(Star(One(AlnumDash)), One(Alnum))

  lemma MatchIsLabel(s: string)
    requires Matches(LABEL, s)
    ensures IsLabel(s)
  {
    var i := CutCat(One(Alnum), Opt(INNER), s);
    var rest := s[i..];
    if rest != "" {
      assert Matches(INNER, rest);
      var j := CutCat(Star(One(AlnumDash)), One(Alnum), rest);
      StarOfClass(AlnumDash, rest[..j]);
      assert forall k | 1 <= k < |s| - 1 :: s[k] == rest[..j][k - 1];
      assert s[|s| - 1] == rest[j..][0];
    }
  }

  lemma LabelMatches(s: string)
    requires IsLabel(s)
    ensures Matches(LABEL, s)
  {
    assert Matches(One(Alnum), s[..1]);
    var rest := s[1..];
    if rest != "" {
      var j := |rest| - 1;
      StarOfClass(AlnumDash, rest[..j]);
      assert Matches(Star(One(AlnumDash)), rest[..j]) && Matches(One(Alnum), rest[j..]);
    }
    assert rest == "" || Matches(INNER, rest);
    assert Matches(Opt(INNER), rest);
  }

  lemma LabelShape(s: string)
    ensures Matches(LABEL, s) <==> IsLabel(s)
  {
    if Matches(LABEL, s) { MatchIsLabel(s); }
    if IsLabel(s) { LabelMatches(s); }
  }

  /** Splitting at the first dot, when the part before it holds none. */
  lemma SplitAtDot(first: string, rest: string)
    requires '.' !in first
    ensures Split(first + "." + rest, '.') == [first] + Split(rest, '.')
  {
    SplitAppend(first, rest, '.');
    SplitSolid(first, '.');
  }

  lemma NoDotInLabel(l: string)
    requires IsLabel(l)
    ensures '.' !in l
  {
    forall i | 0 <= i < |l| ensures l[i] != '.' { assert IsLowerOrDigit(l[i]) || l[i] == '-'; }
  }

  ghost predicate IsTail(s: string) {
    s == "" || (s[0] == '.' && IsDnsName(s[1..]))
  }

  lemma {:induction false} TailIsDns(s: string)
    requires Matches(TAIL, s)
    ensures IsTail(s)
    decreases |s|
  {
    if s != "" {
      var step := Cat(One(Dot), LABEL);
      var i :| 0 < i <= |s| && Matches(step, s[..i]) && Matches(TAIL, s[i..]);
      var j := CutCat(One(Dot), LABEL, s[..i]);
      var first, rest := s[..i][1..], s[i..];
      assert s[..i][j..] == first;
      LabelShape(first);
      TailIsDns(rest);
      LabelThenTail(first, rest);
      assert s[1..] == first + rest;
    }
  }

  lemma {:induction false} DnsIsTail(s: string)
    requires IsTail(s)
    ensures Matches(TAIL, s)
    decreases |s|
  {
    if s != "" {
      var first, rest := FirstLabel(s[1..]);
      LabelShape(first);
      DnsIsTail(rest);
      var i := 1 + |first|;
      assert s[..i] == "." + first && s[i..] == rest;
      assert s[..i][..1] == "." && s[..i][1..] == first;
      assert Matches(One(Dot), s[..i][..1]);
      assert Matches(Cat(One(Dot), LABEL), s[..i]);
    }
  }

  /** A label and a tail make a name. */
  lemma LabelThenTail(first: string, rest: string)
    requires IsLabel(first) && IsTail(rest)
    ensures IsDnsName(first + rest)
  {
    NoDotInLabel(first);
    if rest == "" {
      SplitSolid(first, '.');
      assert first + rest == first;
    } else {
      SplitAtDot(first, rest[1..]);
      assert first + rest == first + "." + rest[1..];
    }
  }

  /** A name is its first label and what follows it. */
  lemma FirstLabel(s: string) returns (first: string, rest: string)
    requires IsDnsName(s)
    ensures s == first + rest && IsLabel(first)
    ensures IsTail(rest)
  {
    first := Split(s, '.')[0];
    var more, after := SplitHead(s, '.');
    rest := if more then "." + after else "";
    if more {
      assert rest[1..] == after;
      assert forall l | l in Split(after, '.') :: l in Split(s, '.')[1..];
    }
  }

  /** The pattern's language is the DNS-1123 subdomain grammar. */
  lemma ShapeIsDns(s: string)
    ensures Matches(HANDLE_SHAPE, s) <==> IsDnsName(s)
  {
    if Matches(HANDLE_SHAPE, s) {
      var i := CutCat(LABEL, TAIL, s);
      LabelShape(s[..i]);
      TailIsDns(s[i..]);
      LabelThenTail(s[..i], s[i..]);
      assert s == s[..i] + s[i..];
    }
    if IsDnsName(s) {
      var first, rest := FirstLabel(s);
      LabelShape(first);
      DnsIsTail(rest);
      assert s[..|first|] == first && s[|first|..] == rest;
    }
  }

  predicate IsNameCharacter(c: char) {
    0x61 <= c as int <= 0x7a || 0x30 <= c as int <= 0x39 || c as int == 0x2d || c as int == 0x2e
  }

  /** Every character of a name is one byte long, so its length in bytes is its length. */
  lemma DnsIsAscii(s: string)
    requires IsDnsName(s)
    ensures forall i | 0 <= i < |s| :: IsNameCharacter(s[i])
    ensures ByteLength(s) == |s|
    decreases |s|
  {
    var first, rest := FirstLabel(s);
    if rest != "" { DnsIsAscii(rest[1..]); }
    forall i | 0 <= i < |s| ensures IsNameCharacter(s[i]) {
      if i > |first| { assert s[i] == rest[1..][i - |first| - 1]; }
    }
    AsciiBytes(s);
  }

  lemma {:induction false} AsciiBytes(s: string)
    requires forall i | 0 <= i < |s| :: IsNameCharacter(s[i])
    ensures ByteLength(s) == |s|
  {
    if s != "" {
      AsciiBytes(s[1..]);
      assert Utf8Width(s[0]) == 1;
    }
  }

  /** The same names letter by letter, with no splitting: letters, digits, dashes and dots, with
      a letter or a digit at both ends, and no dot or dash beside a dot. */
  predicate IsSpelledWell(s: string) {
    && s != ""
    && (forall i | 0 <= i < |s| ::
          'a' <= s[i] <= 'z' || '0' <= s[i] <= '9' || s[i] == '-' || s[i] == '.')
    && IsEnd(s[0]) && IsEnd(s[|s| - 1])
    && forall i | 0 <= i < |s| - 1 :: Touch(s, i)
  }

  predicate IsEnd(c: char) { c != '-' && c != '.' }

  predicate Touch(s: string, i: nat)
    requires i < |s| - 1
  {
    (s[i] == '.' ==> IsEnd(s[i + 1])) && (s[i + 1] == '.' ==> IsEnd(s[i]))
  }

  /** What the driver accepts, character by character. */
  lemma AcceptedIsLiteral(handle: string)
    ensures CheckHandle(handle).Accepted? <==> IsSpelledWell(handle) && |handle| <= 253
  {
    if CheckHandle(handle).Accepted? { NameIsSpelledWell(handle); }
    if IsSpelledWell(handle) { SpelledWellIsName(handle); }
  }

  lemma {:induction false} NameIsSpelledWell(s: string)
    requires IsDnsName(s)
    ensures IsSpelledWell(s)
    decreases |s|
  {
    var first, rest := FirstLabel(s);
    NoDotInLabel(first);
    assert IsLowerOrDigit(first[0]) && IsLowerOrDigit(first[|first| - 1]);
    DnsIsAscii(s);
    forall i | 0 <= i < |s| ensures 'a' <= s[i] <= 'z' || '0' <= s[i] <= '9' || s[i] == '-' || s[i] == '.' {
      assert IsNameCharacter(s[i]);
    }
    if rest == "" {
      assert s == first;
    } else {
      var n, tail := |first|, rest[1..];
      NameIsSpelledWell(tail);
      assert s[|s| - 1] == tail[|tail| - 1] && s[n] == '.';
      forall i | 0 <= i < |s| - 1 ensures Touch(s, i) {
        if i < n - 1 {
          assert s[i] == first[i] && s[i + 1] == first[i + 1];
        } else if i > n {
          assert Touch(tail, i - n - 1);
        }
      }
    }
  }

  lemma FirstIsLabel(first: string)
    requires IsSpelledWell(first) && '.' !in first
    ensures IsLabel(first)
  {
    forall i | 0 <= i < |first| ensures IsLowerOrDigit(first[i]) || first[i] as int == 0x2d {
      assert first[i] != '.';
    }
  }

  /** What is before a dot, and what is behind it. */
  lemma BesideDot(first: string, rest: string)
    requires IsSpelledWell(first + "." + rest)
    ensures IsSpelledWell(first) && IsSpelledWell(rest)
  {
    var s, n := first + "." + rest, |first|;
    assert s[n] == '.' && IsEnd(s[0]) && IsEnd(s[|s| - 1]);
    assert first != "" && Touch(s, n - 1) && s[n - 1] == first[n - 1] && s[0] == first[0];
    assert rest != "" && Touch(s, n) && s[n + 1] == rest[0] && s[|s| - 1] == rest[|rest| - 1];
    forall i | 0 <= i < |first| - 1 ensures Touch(first, i) { assert Touch(s, i); }
    forall i | 0 <= i < |rest| - 1 ensures Touch(rest, i) { assert Touch(s, n + 1 + i); }
    assert first == s[..n] && rest == s[n + 1..];
  }

  lemma {:induction false} SpelledWellIsName(s: string)
    requires IsSpelledWell(s)
    ensures IsDnsName(s)
    decreases |s|
  {
    var first := Split(s, '.')[0];
    var more, rest := SplitHead(s, '.');
    if more {
      assert s == first + "." + rest;
      BesideDot(first, rest);
      FirstIsLabel(first);
      SpelledWellIsName(rest);
      assert Split(s, '.') == [first] + Split(rest, '.');
    } else {
      FirstIsLabel(s);
    }
  }

  /** A single path element: what the filesystem reads as one name in one directory. */
  predicate IsElement(name: string) {
    name != "" && name != "." && name != ".." && '/' !in name
  }

  /** An accepted handle is a single path element. */
  lemma AcceptedIsElement(handle: string)
    requires CheckHandle(handle).Accepted?
    ensures IsElement(handle)
  {
    DnsIsAscii(handle);
    var first, rest := FirstLabel(handle);
    assert IsLowerOrDigit(handle[0]);
    forall i | 0 <= i < |handle| ensures handle[i] != '/' { assert IsNameCharacter(handle[i]); }
  }
}

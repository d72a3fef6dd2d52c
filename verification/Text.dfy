/** The string functions of Go's standard library that the driver calls. A string is a
    sequence of Unicode code points. */
module Text {

  function Utf8Width(c: char): nat {
    var n := c as int;
    if n < 0x80 then 1 else if n < 0x800 then 2 else if n < 0x1_0000 then 3 else 4
  }

  /** Go's `len` of a string: its bytes in UTF-8. */
  function ByteLength(s: string): nat {
    if s == "" then 0 else Utf8Width(s[0]) + ByteLength(s[1..])
  }

  /** A character takes one to four bytes, and bytes add up. */
  lemma {:induction false} BytesAddUp(a: string, c: char, b: string)
    ensures ByteLength([c]) == (if c as int <= 0x7f then 1 else if c as int <= 0x7ff then 2
                                else if c as int <= 0xffff then 3 else 4)
    ensures ByteLength(a + [c] + b) == ByteLength(a) + ByteLength([c]) + ByteLength(b)
  {
    assert [c][1..] == [];
    if a == "" {
      assert a + [c] + b == [c] + b && ([c] + b)[1..] == b;
    } else {
      assert (a + [c] + b)[1..] == a[1..] + [c] + b;
      BytesAddUp(a[1..], c, b);
    }
  }

  /** `strings.Split` at a one-character separator: always at least one part. */
  function Split(s: string, sep: char): (parts: seq<string>)
    ensures |parts| >= 1
    ensures forall p | p in parts :: sep !in p
  {
    if s == "" then [""]
    else
      Cons(s[0], Split(s[1..], sep), sep)
  }

  /** `strings.Join`. */
  function Join(parts: seq<string>, sep: char): string
  {
    if parts == [] then ""
    else if |parts| == 1 then parts[0]
    else parts[0] + [sep] + Join(parts[1..], sep)
  }

  lemma {:induction false} SplitAppend(a: string, b: string, sep: char)
    ensures Split(a + [sep] + b, sep) == Split(a, sep) + Split(b, sep)
  {
    var whole := a + [sep] + b;
    if a == "" {
      assert whole[1..] == b && whole[0] == sep;
    } else {
      SplitAppend(a[1..], b, sep);
      assert whole[1..] == a[1..] + [sep] + b && whole[0] == a[0];
      ConsSplit(a[0], Split(a[1..], sep), Split(b, sep), sep);
    }
  }

  /** One step of splitting: the first character joins the first part, or ends an empty one. */
  function Cons(c: char, parts: seq<string>, sep: char): seq<string>
    requires parts != []
  {
    if c == sep then [""] + parts else [[c] + parts[0]] + parts[1..]
  }

  lemma ConsSplit(c: char, head: seq<string>, tail: seq<string>, sep: char)
    requires head != []
    ensures Cons(c, head + tail, sep) == Cons(c, head, sep) + tail
  {
    assert (head + tail)[1..] == head[1..] + tail;
  }

  lemma {:induction false} SplitSolid(a: string, sep: char)
    requires sep !in a
    ensures Split(a, sep) == [a]
  {
    if a != "" {
      SplitSolid(a[1..], sep);
      assert a == [a[0]] + a[1..];
    }
  }

  /** A string is its first part alone, or its first part, a separator, and the rest. */
  lemma {:induction false} SplitHead(s: string, sep: char) returns (more: bool, rest: string)
    ensures !more ==> Split(s, sep) == [s]
    ensures more ==> s == Split(s, sep)[0] + [sep] + rest && Split(s, sep)[1..] == Split(rest, sep)
  {
    if s == "" {
      more, rest := false, "";
    } else if s[0] == sep {
      more, rest := true, s[1..];
    } else {
      more, rest := SplitHead(s[1..], sep);
      assert s == [s[0]] + s[1..];
    }
  }

  lemma {:induction false} JoinAppend(parts: seq<string>, last: string, sep: char)
    requires parts != []
    ensures Join(parts + [last], sep) == Join(parts, sep) + [sep] + last
  {
    if |parts| > 1 {
      JoinAppend(parts[1..], last, sep);
      assert (parts + [last])[1..] == parts[1..] + [last];
    }
  }
}

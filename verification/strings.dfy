/** The small part of Go's `strings` and `unicode` packages the update-map
    builder relies on: splitting on a one-character separator, joining back,
    ASCII lower-casing and the decimal-digit test. Strings are sequences of
    characters; only ASCII names are in view. */
module Strings {

  /** The decimal digits `0`..`9`. `unicode.IsDigit` is applied to a single
      byte of the name, and no byte other than these is a decimal digit. */
  predicate IsDigit(c: char) {
    '0' <= c <= '9'
  }

  function LowerChar(c: char): char {
    if 'A' <= c <= 'Z' then (c as int - 'A' as int + 'a' as int) as char else c
  }

  /** ASCII lower-casing, character by character. */
  function Lower(s: string): string {
    seq(|s|, i requires 0 <= i < |s| => LowerChar(s[i]))
  }

  /** `strings.Split(s, sep)` for a one-character separator: the pieces of `s`
      between separators, in order; there is always at least one. */
  function Split(s: string, sep: char): (segs: seq<string>)
    ensures |segs| >= 1
    decreases |s|
  {
    if |s| == 0 then [""]
    else
      var rest := Split(s[1..], sep);
      if s[0] == sep then [""] + rest
      else [[s[0]] + rest[0]] + rest[1..]
  }

  /** `strings.Join(segs, sep)`: the pieces with one separator between
      neighbours. */
  function Join(segs: seq<string>, sep: char): string
    decreases |segs|
  {
    if |segs| == 0 then ""
    else if |segs| == 1 then segs[0]
    else segs[0] + [sep] + Join(segs[1..], sep)
  }

  /** `strings.Index` for one character: the position of the first `c` in
      `s`, or `|s|` when there is none. */
  function IndexOf(s: string, c: char): (k: nat)
    ensures k <= |s|
    ensures c !in s[..k]
    ensures k < |s| ==> s[k] == c
    decreases |s|
  {
    if |s| == 0 then 0
    else if s[0] == c then 0
    else
      assert s[..1 + IndexOf(s[1..], c)] == [s[0]] + s[1..][..IndexOf(s[1..], c)];
      1 + IndexOf(s[1..], c)
  }

  /** `strings.Split(s, sep)[0]`: the part of `s` before its first `sep`. */
  function FirstSegment(s: string, sep: char): string {
    s[..IndexOf(s, sep)]
  }

  /** No piece of a split contains the separator, and the first piece is
      the longest prefix of `s` free of the separator. */
  lemma {:induction false} SplitPieces(s: string, sep: char)
    ensures forall i :: 0 <= i < |Split(s, sep)| ==> sep !in Split(s, sep)[i]
    ensures Split(s, sep)[0] <= s
    ensures |Split(s, sep)[0]| < |s| ==> s[|Split(s, sep)[0]|] == sep
    decreases |s|
  {
    if |s| > 0 {
      SplitPieces(s[1..], sep);
      var rest := Split(s[1..], sep);
      var segs := Split(s, sep);
      if s[0] == sep {
        assert segs == [""] + rest;
        forall i | 1 <= i < |segs| ensures segs[i] == rest[i - 1] { }
      } else {
        var first := [s[0]] + rest[0];
        assert segs == [first] + rest[1..];
        forall i | 1 <= i < |segs| ensures segs[i] == rest[i] { }
        assert sep !in first by {
          forall i | 0 <= i < |first| ensures first[i] != sep {
            if i > 0 { assert first[i] == rest[0][i - 1]; }
          }
        }
        assert first <= s by {
          assert s == [s[0]] + s[1..];
        }
        if |first| < |s| {
          assert s[|first|] == s[1..][|rest[0]|];
        }
      }
    }
  }

  /** Joining the pieces of a split gives back the original string. */
  lemma {:induction false} JoinSplit(s: string, sep: char)
    ensures Join(Split(s, sep), sep) == s
    decreases |s|
  {
    if |s| > 0 {
      JoinSplit(s[1..], sep);
      var rest := Split(s[1..], sep);
      var segs := Split(s, sep);
      if s[0] == sep {
        assert segs[1..] == rest;
        assert s == [sep] + s[1..];
      } else if |rest| == 1 {
        assert s == [s[0]] + s[1..];
      } else {
        assert segs[1..] == rest[1..];
        assert Join(rest, sep) == rest[0] + [sep] + Join(rest[1..], sep);
        assert s == [s[0]] + s[1..];
      }
    }
  }

  /** Splitting a string that starts with a separator-free prefix `a`: the
      prefix is glued to the first piece of the rest. */
  lemma {:induction false} SplitAfterPrefix(a: string, t: string, sep: char)
    requires sep !in a
    ensures Split(a + t, sep) == [a + Split(t, sep)[0]] + Split(t, sep)[1..]
    decreases |a|
  {
    if |a| == 0 {
      var rest := Split(t, sep);
      assert a + t == t;
      assert a + rest[0] == rest[0];
      assert rest == [rest[0]] + rest[1..];
    } else {
      var rest := Split(t, sep);
      assert (a + t)[0] == a[0] != sep;
      assert (a + t)[1..] == a[1..] + t;
      SplitAfterPrefix(a[1..], t, sep);
      var inner := Split(a[1..] + t, sep);
      assert inner[0] == a[1..] + rest[0];
      assert inner[1..] == rest[1..];
      assert Split(a + t, sep) == [[a[0]] + inner[0]] + inner[1..];
      assert [a[0]] + (a[1..] + rest[0]) == a + rest[0];
    }
  }

  /** Splitting a join of separator-free pieces gives back the pieces. */
  lemma {:induction false} SplitJoin(segs: seq<string>, sep: char)
    requires |segs| >= 1
    requires forall i :: 0 <= i < |segs| ==> sep !in segs[i]
    ensures Split(Join(segs, sep), sep) == segs
    decreases |segs|
  {
    if |segs| == 1 {
      SplitAfterPrefix(segs[0], "", sep);
      assert segs[0] + "" == segs[0];
    } else {
      var tail := segs[1..];
      SplitJoin(tail, sep);
      var t := [sep] + Join(tail, sep);
      SplitAfterPrefix(segs[0], t, sep);
      assert Join(segs, sep) == segs[0] + t;
      assert t[1..] == Join(tail, sep);
      var st := Split(t, sep);
      assert st == [""] + tail;
      assert st[0] == "" && st[1..] == tail;
      assert segs[0] + "" == segs[0];
      assert segs == [segs[0]] + tail;
    }
  }

  /** Without a separator the first piece is the whole string. */
  lemma FirstSegmentWhole(s: string, sep: char)
    requires sep !in s
    ensures FirstSegment(s, sep) == s
  {
    assert IndexOf(s, sep) == |s|;
  }

  /** The first piece stops at the first separator. */
  lemma FirstSegmentBefore(a: string, b: string, sep: char)
    requires sep !in a
    ensures FirstSegment(a + [sep] + b, sep) == a
  {
    var s := a + [sep] + b;
    var k := IndexOf(s, sep);
    assert s[|a|] == sep;
    assert s[..|a|] == a;
  }

  /** Cutting at the first separator gives the first piece of the split. */
  lemma {:induction false} FirstSegmentIsFirstPiece(s: string, sep: char)
    ensures FirstSegment(s, sep) == Split(s, sep)[0]
  {
    SplitPieces(s, sep);
    var r := Split(s, sep)[0];
    var k := IndexOf(s, sep);
    assert r == s[..|r|];
  }
}

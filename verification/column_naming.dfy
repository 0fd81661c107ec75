/** The column-naming rewrite applied to a resolved field name so that it
    follows GORM's column naming: split on `_`, drop the underscore in front
    of every piece that starts with a digit, keep the others, and lower-case
    the result (`limit_24` becomes `limit24`, `field_one` stays). */
module ColumnNaming {
  import opened Strings

  /** The rewrite loop reads the first character of every piece after the
      first; it can only do so when none of those pieces is empty. */
  predicate SegmentsIndexable(name: string) {
    var segs := Split(name, '_');
    forall i :: 1 <= i < |segs| ==> |segs[i]| > 0
  }

  /** The same condition read off the characters: every underscore is
      followed by a character that is not an underscore (no `__`, no
      trailing `_`). */
  predicate NoBareUnderscore(name: string) {
    forall k :: 0 <= k < |name| && name[k] == '_' ==> k + 1 < |name| && name[k + 1] != '_'
  }

  /** The pieces glued back together left to right: a piece is followed by
      `_` unless the next piece starts with a digit; the last piece is
      appended as it is. */
  function CollapseSegments(segs: seq<string>): string
    requires forall i :: 1 <= i < |segs| ==> |segs[i]| > 0
    decreases |segs|
  {
    if |segs| == 0 then ""
    else if |segs| == 1 then segs[0]
    else segs[0] + (if IsDigit(segs[1][0]) then "" else "_") + CollapseSegments(segs[1..])
  }

  /** Reference definition on characters: delete every underscore whose
      next character is a digit, keep everything else. */
  function DropDigitUnderscores(s: string): string
    decreases |s|
  {
    if |s| == 0 then ""
    else if s[0] == '_' && |s| > 1 && IsDigit(s[1]) then DropDigitUnderscores(s[1..])
    else [s[0]] + DropDigitUnderscores(s[1..])
  }

  /** Whether the character at position `k` survives the rewrite. */
  predicate Kept(s: string, k: int)
    requires 0 <= k < |s|
  {
    !(s[k] == '_' && k + 1 < |s| && IsDigit(s[k + 1]))
  }

  /** The characters of `s` at the positions `keep` marks, in order. */
  function Select(s: string, keep: seq<bool>): string
    requires |keep| == |s|
    decreases |s|
  {
    if |s| == 0 then ""
    else (if keep[0] then [s[0]] else "") + Select(s[1..], keep[1..])
  }

  /** The column name GORM expects for a resolved field name: the pieces
      between underscores collapsed as the loop does, then lower-cased. It is
      the name with exactly its digit-preceding underscores removed,
      lower-cased. */
  function ColumnName(name: string): (col: string)
    requires SegmentsIndexable(name)
    ensures col == Lower(DropDigitUnderscores(name))
  {
    CollapseMatchesDrop(name);
    Lower(CollapseSegments(Split(name, '_')))
  }

  /** The piece-level guard and the character-level one agree. */
  lemma {:induction false} SegmentsIndexableIff(s: string)
    ensures SegmentsIndexable(s) <==> NoBareUnderscore(s)
    decreases |s|
  {
    if |s| > 0 {
      SegmentsIndexableIff(s[1..]);
      var rest := Split(s[1..], '_');
      var segs := Split(s, '_');
      NoBareUnderscoreStep(s);
      // the first piece of the remainder is empty exactly when the remainder
      // is empty or starts with an underscore
      assert |rest[0]| > 0 <==> |s| > 1 && s[1] != '_' by {
        SplitPieces(s[1..], '_');
        if |s| > 1 && s[1] != '_' {
          assert s[1..][0] == s[1];
          assert |rest[0]| != 0;
        }
        if |rest[0]| > 0 {
          assert rest[0][0] == s[1..][0];
        }
      }
      if s[0] == '_' {
        assert segs == [""] + rest;
        assert SegmentsIndexable(s) <==> forall i :: 0 <= i < |rest| ==> |rest[i]| > 0 by {
          forall i | 0 <= i < |rest| ensures segs[i + 1] == rest[i] { }
        }
        assert (forall i :: 0 <= i < |rest| ==> |rest[i]| > 0)
           <==> |rest[0]| > 0 && SegmentsIndexable(s[1..]);
      } else {
        assert segs == [[s[0]] + rest[0]] + rest[1..];
        assert SegmentsIndexable(s) <==> SegmentsIndexable(s[1..]) by {
          forall i | 1 <= i < |rest| ensures segs[i] == rest[i] { }
        }
      }
    }
  }

  /** Unfolding `NoBareUnderscore` by one character. */
  lemma NoBareUnderscoreStep(s: string)
    requires |s| > 0
    ensures NoBareUnderscore(s) <==>
      (s[0] == '_' ==> |s| > 1 && s[1] != '_') && NoBareUnderscore(s[1..])
  {
    var t := s[1..];
    if NoBareUnderscore(s) {
      forall k | 0 <= k < |t| && t[k] == '_' ensures k + 1 < |t| && t[k + 1] != '_' {
        assert s[k + 1] == '_';
      }
    }
    if (s[0] == '_' ==> |s| > 1 && s[1] != '_') && NoBareUnderscore(t) {
      forall k | 0 <= k < |s| && s[k] == '_' ensures k + 1 < |s| && s[k + 1] != '_' {
        if k > 0 {
          assert t[k - 1] == '_';
        }
      }
    }
  }

  /** An underscore-free prefix passes through the reference rewrite
      untouched. */
  lemma {:induction false} DropAfterPlainPrefix(a: string, t: string)
    requires '_' !in a
    ensures DropDigitUnderscores(a + t) == a + DropDigitUnderscores(t)
    decreases |a|
  {
    if |a| == 0 {
      assert a + t == t;
    } else {
      assert DropDigitUnderscores(a + t) == [a[0]] + DropDigitUnderscores(a[1..] + t) by {
        var s := a + t;
        assert s[0] == a[0] && a[0] != '_';
        assert s[1..] == a[1..] + t;
      }
      assert '_' !in a[1..] by {
        forall i | 0 <= i < |a[1..]| ensures a[1..][i] != '_' {
          assert a[1..][i] == a[i + 1];
        }
      }
      DropAfterPlainPrefix(a[1..], t);
      assert [a[0]] + (a[1..] + DropDigitUnderscores(t)) == a + DropDigitUnderscores(t) by {
        assert a == [a[0]] + a[1..];
      }
    }
  }

  /** A join starts with its first piece. */
  lemma {:induction false} JoinStartsWithFirst(segs: seq<string>, sep: char)
    requires |segs| >= 1
    ensures segs[0] <= Join(segs, sep)
  {
  }

  /** No piece contains an underscore. */
  predicate PlainPieces(segs: seq<string>) {
    forall i :: 0 <= i < |segs| ==> '_' !in segs[i]
  }

  /** Collapsing the pieces of a join is the reference rewrite of the join. */
  lemma {:induction false} CollapseJoin(segs: seq<string>)
    requires |segs| >= 1
    requires PlainPieces(segs)
    requires forall i :: 1 <= i < |segs| ==> |segs[i]| > 0
    ensures CollapseSegments(segs) == DropDigitUnderscores(Join(segs, '_'))
    decreases |segs|
  {
    if |segs| == 1 {
      DropAfterPlainPrefix(segs[0], "");
      assert segs[0] + "" == segs[0];
      assert CollapseSegments(segs) == segs[0];
      assert Join(segs, '_') == segs[0];
    } else {
      CollapseJoinStep(segs);
      CollapseJoin(segs[1..]);
    }
  }

  /** One step of `CollapseJoin`: both sides peel off the first piece and
      the same glue. */
  lemma CollapseJoinStep(segs: seq<string>)
    requires |segs| >= 2
    requires PlainPieces(segs)
    requires forall i :: 1 <= i < |segs| ==> |segs[i]| > 0
    ensures PlainPieces(segs[1..])
    ensures forall i :: 1 <= i < |segs[1..]| ==> |segs[1..][i]| > 0
    ensures var glue := if IsDigit(segs[1][0]) then "" else "_";
      && CollapseSegments(segs) == segs[0] + glue + CollapseSegments(segs[1..])
      && DropDigitUnderscores(Join(segs, '_')) == segs[0] + glue + DropDigitUnderscores(Join(segs[1..], '_'))
  {
    var tail := segs[1..];
    forall i | 0 <= i < |tail| ensures tail[i] == segs[i + 1] { }
    DropJoinStep(segs[0], tail);
  }

  /** The reference rewrite of `a_j`, for an underscore-free `a` and a join
      `j` of pieces whose first is not empty. */
  lemma DropJoinStep(a: string, tail: seq<string>)
    requires '_' !in a && |tail| >= 1 && |tail[0]| > 0
    ensures DropDigitUnderscores(Join([a] + tail, '_'))
         == a + (if IsDigit(tail[0][0]) then "" else "_") + DropDigitUnderscores(Join(tail, '_'))
  {
    var j := Join(tail, '_');
    var glue: string := if IsDigit(tail[0][0]) then "" else "_";
    assert Join([a] + tail, '_') == a + ("_" + j) by {
      assert ([a] + tail)[1..] == tail;
    }
    assert DropDigitUnderscores(a + ("_" + j)) == a + DropDigitUnderscores("_" + j) by {
      DropAfterPlainPrefix(a, "_" + j);
    }
    assert DropDigitUnderscores("_" + j) == glue + DropDigitUnderscores(j) by {
      JoinStartsWithFirst(tail, '_');
      assert j[0] == tail[0][0];
      DropAfterUnderscore(j);
    }
    assert a + (glue + DropDigitUnderscores(j)) == a + glue + DropDigitUnderscores(j);
  }

  /** An underscore in front of a non-empty rest disappears exactly when the
      rest starts with a digit. */
  lemma DropAfterUnderscore(j: string)
    requires |j| > 0
    ensures DropDigitUnderscores("_" + j)
         == (if IsDigit(j[0]) then "" else "_") + DropDigitUnderscores(j)
  {
    var u := "_" + j;
    assert u[0] == '_' && u[1] == j[0];
    assert u[1..] == j;
  }

  /** The loop's piece-by-piece rewrite equals the reference rewrite. */
  lemma {:induction false} CollapseMatchesDrop(name: string)
    requires SegmentsIndexable(name)
    ensures CollapseSegments(Split(name, '_')) == DropDigitUnderscores(name)
  {
    SplitPieces(name, '_');
    CollapseJoin(Split(name, '_'));
    JoinSplit(name, '_');
  }

  /** The reference rewrite deletes exactly the underscores that stand in
      front of a digit and keeps every other character in order. */
  lemma {:induction false} DropDeletesExactly(s: string)
    ensures DropDigitUnderscores(s) == Select(s, seq(|s|, k requires 0 <= k < |s| => Kept(s, k)))
    decreases |s|
  {
    if |s| > 0 {
      var keep := seq(|s|, k requires 0 <= k < |s| => Kept(s, k));
      var keep' := seq(|s| - 1, k requires 0 <= k < |s| - 1 => Kept(s[1..], k));
      DropDeletesExactly(s[1..]);
      assert keep[1..] == keep';
    }
  }

  /** No underscore is directly followed by a digit: the shape of a name
      the rewrite leaves alone (up to case). */
  predicate NoDigitUnderscore(s: string) {
    forall k :: 0 <= k && k + 1 < |s| && s[k] == '_' ==> !IsDigit(s[k + 1])
  }

  lemma NoDigitUnderscoreStep(s: string)
    requires |s| > 0
    ensures NoDigitUnderscore(s) <==>
      (s[0] == '_' && |s| > 1 ==> !IsDigit(s[1])) && NoDigitUnderscore(s[1..])
  {
    var t := s[1..];
    if NoDigitUnderscore(s) {
      forall k | 0 <= k && k + 1 < |t| && t[k] == '_' ensures !IsDigit(t[k + 1]) {
        assert s[k + 1] == '_';
      }
    }
    if (s[0] == '_' && |s| > 1 ==> !IsDigit(s[1])) && NoDigitUnderscore(t) {
      forall k | 0 <= k && k + 1 < |s| && s[k] == '_' ensures !IsDigit(s[k + 1]) {
        if k > 0 {
          assert t[k - 1] == '_';
        }
      }
    }
  }

  /** A name with no underscore in front of a digit passes through the
      reference rewrite unchanged. */
  lemma {:induction false} DropKeepsPlainName(s: string)
    requires NoDigitUnderscore(s)
    ensures DropDigitUnderscores(s) == s
    decreases |s|
  {
    if |s| > 0 {
      NoDigitUnderscoreStep(s);
      DropKeepsPlainName(s[1..]);
      assert s == [s[0]] + s[1..];
    }
  }

  /** The reference rewrite of a well-formed name is well-formed and has no
      underscore left in front of a digit. */
  lemma {:induction false} DropLeavesPlainName(s: string)
    requires NoBareUnderscore(s)
    ensures NoBareUnderscore(DropDigitUnderscores(s))
    ensures NoDigitUnderscore(DropDigitUnderscores(s))
    decreases |s|
  {
    if |s| > 0 {
      NoBareUnderscoreStep(s);
      DropLeavesPlainName(s[1..]);
      var d' := DropDigitUnderscores(s[1..]);
      if !(s[0] == '_' && |s| > 1 && IsDigit(s[1])) {
        var d := [s[0]] + d';
        assert DropDigitUnderscores(s) == d;
        assert d[1..] == d';
        if s[0] == '_' {
          assert s[1..][0] == s[1];
          assert d'[0] == s[1];
        }
        NoBareUnderscoreStep(d);
        NoDigitUnderscoreStep(d);
      }
    }
  }

  /** Lower-casing touches neither underscores nor digits. */
  lemma LowerKeepsShape(t: string)
    ensures NoBareUnderscore(Lower(t)) <==> NoBareUnderscore(t)
    ensures NoDigitUnderscore(Lower(t)) <==> NoDigitUnderscore(t)
    ensures Lower(Lower(t)) == Lower(t)
  {
    var l := Lower(t);
    forall k | 0 <= k < |t| ensures (l[k] == '_' <==> t[k] == '_') && (IsDigit(l[k]) <==> IsDigit(t[k])) {
    }
  }

  /** Column names are fixed points of the rewrite: rewriting a rewritten
      name again changes nothing. */
  lemma ColumnNameIdempotent(name: string)
    requires SegmentsIndexable(name)
    ensures SegmentsIndexable(ColumnName(name))
    ensures ColumnName(ColumnName(name)) == ColumnName(name)
  {
    var d := DropDigitUnderscores(name);
    SegmentsIndexableIff(name);
    DropLeavesPlainName(name);
    LowerKeepsShape(d);
    var c := Lower(d);
    SegmentsIndexableIff(c);
    DropKeepsPlainName(c);
    LowerKeepsShape(c);
  }
}

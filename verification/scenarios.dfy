/** The behaviours the repository's own test suite pins down, and a few
    edge cases of the column rewrite, stated as facts about the model.
    Each case is proved once for arbitrary tag names with the shape the
    case needs, then instantiated with the test's own struct. */
module Scenarios {
  import opened Strings
  import opened ColumnNaming
  import opened Fields
  import opened UpdateMap

  // ---------------------------------------------------------------------
  // Plain tags
  // ---------------------------------------------------------------------

  /** Position `i` of `s` holds a lower-case ASCII letter, or a `_` followed
      by one. */
  predicate PlainAt(s: string, i: int)
    requires 0 <= i < |s|
  {
    'a' <= s[i] <= 'z' || (s[i] == '_' && i + 1 < |s| && 'a' <= s[i + 1] <= 'z')
  }

  /** A name made of lower-case ASCII letters in which every `_` is
      followed by a letter. */
  predicate PlainColumn(s: string) {
    forall i :: 0 <= i < |s| ==> PlainAt(s, i)
  }

  /** A plain name has no comma, is not `-`, cannot make the rewrite panic,
      and is its own column name. */
  lemma PlainColumnIsColumnName(s: string)
    requires PlainColumn(s)
    ensures ',' !in s && s != "-"
    ensures NoBareUnderscore(s) && Lower(DropDigitUnderscores(s)) == s
  {
    assert ',' !in s by {
      forall i | 0 <= i < |s| ensures s[i] != ',' {
        assert PlainAt(s, i);
      }
    }
    assert s != "-" by {
      if |s| == 1 {
        assert PlainAt(s, 0);
      }
    }
    assert NoBareUnderscore(s) by {
      forall k | 0 <= k < |s| && s[k] == '_' ensures k + 1 < |s| && s[k + 1] != '_' {
        assert PlainAt(s, k);
      }
    }
    assert NoDigitUnderscore(s) by {
      forall k | 0 <= k && k + 1 < |s| && s[k] == '_' ensures !IsDigit(s[k + 1]) {
        assert PlainAt(s, k);
      }
    }
    assert Lower(s) == s by {
      forall i | 0 <= i < |s| ensures Lower(s)[i] == s[i] {
        assert PlainAt(s, i);
      }
    }
    DropKeepsPlainName(s);
  }

  /** A field that a caller with admin rights `isAdmin` may set, holding a
      storable value. */
  predicate Settable(f: FieldDesc, isAdmin: bool) {
    f.slot.Ptr? && f.exported && (f.adminOnlyTag == "" || isAdmin) && Extract(f.slot.target).Some?
  }

  /** The value a storing field contributes. */
  function Stored(f: FieldDesc): Value
    requires f.slot.Ptr? && Extract(f.slot.target).Some?
  {
    Extract(f.slot.target).value
  }

  // ---------------------------------------------------------------------
  // The pass, one field at a time
  // ---------------------------------------------------------------------

  lemma SkipAt(fs: seq<FieldDesc>, k: nat, isAdmin: bool, acc: map<string, Value>)
    requires k < |fs| && !fs[k].slot.Ptr?
    ensures Run(fs[k..], isAdmin, acc) == Run(fs[k + 1..], isAdmin, acc)
  {
    assert fs[k..][1..] == fs[k + 1..];
  }

  lemma StoreAt(fs: seq<FieldDesc>, k: nat, isAdmin: bool, acc: map<string, Value>, col: string)
    requires k < |fs|
    requires fs[k].slot.Ptr? && fs[k].exported && fs[k].jsonTag != "-" && (fs[k].adminOnlyTag == "" || isAdmin)
    requires NoBareUnderscore(TagName(fs[k])) && Lower(DropDigitUnderscores(TagName(fs[k]))) == col
    requires Extract(fs[k].slot.target).Some?
    ensures Run(fs[k..], isAdmin, acc) == Run(fs[k + 1..], isAdmin, acc[col := Stored(fs[k])])
  {
    assert FieldVerdict(fs[k], isAdmin) == Column(col, Some(Stored(fs[k])));
    assert fs[k..][0] == fs[k];
    assert fs[k..][1..] == fs[k + 1..];
  }

  lemma StorePlainAt(fs: seq<FieldDesc>, k: nat, isAdmin: bool, acc: map<string, Value>, tag: string)
    requires k < |fs| && Settable(fs[k], isAdmin)
    requires fs[k].jsonTag == tag && tag != "" && PlainColumn(tag)
    ensures Run(fs[k..], isAdmin, acc) == Run(fs[k + 1..], isAdmin, acc[tag := Stored(fs[k])])
  {
    PlainColumnIsColumnName(tag);
    FirstSegmentWhole(tag, ',');
    StoreAt(fs, k, isAdmin, acc, tag);
  }

  lemma DenyAt(fs: seq<FieldDesc>, k: nat, acc: map<string, Value>)
    requires k < |fs|
    requires fs[k].slot.Ptr? && fs[k].exported && fs[k].jsonTag != "-" && fs[k].adminOnlyTag != ""
    ensures Run(fs[k..], false, acc) == Rejected(AdminMessage(TagName(fs[k])))
  {
    assert fs[k..][0] == fs[k];
  }

  lemma CrashAt(fs: seq<FieldDesc>, k: nat, isAdmin: bool, acc: map<string, Value>)
    requires k < |fs|
    requires fs[k].slot.Ptr? && fs[k].exported && fs[k].jsonTag != "-" && (fs[k].adminOnlyTag == "" || isAdmin)
    requires !NoBareUnderscore(TagName(fs[k]))
    ensures Run(fs[k..], isAdmin, acc) == Panicked
  {
    assert fs[k..][0] == fs[k];
  }

  /** Fields that are all nil or plain leave the map as it is. */
  lemma {:induction false} NoPointersLeaveMap(fs: seq<FieldDesc>, k: nat, isAdmin: bool, acc: map<string, Value>)
    requires k <= |fs|
    requires forall j :: k <= j < |fs| ==> !fs[j].slot.Ptr?
    ensures Run(fs[k..], isAdmin, acc) == Updates(acc)
    decreases |fs| - k
  {
    if k < |fs| {
      SkipAt(fs, k, isAdmin, acc);
      NoPointersLeaveMap(fs, k + 1, isAdmin, acc);
    }
  }

  // ---------------------------------------------------------------------
  // The test suite's cases, for any tag names of the same shape
  // ---------------------------------------------------------------------

  /** Only the first field is set: the map holds its column alone. */
  lemma OnlyFirstFieldSet(fs: seq<FieldDesc>, isAdmin: bool, t1: string)
    requires |fs| > 0 && Settable(fs[0], isAdmin)
    requires fs[0].jsonTag == t1 && t1 != "" && PlainColumn(t1)
    requires forall j :: 1 <= j < |fs| ==> !fs[j].slot.Ptr?
    ensures CreateUpdateMap(fs, isAdmin) == Updates(map[t1 := Stored(fs[0])])
  {
    StorePlainAt(fs, 0, isAdmin, map[], t1);
    NoPointersLeaveMap(fs, 1, isAdmin, map[t1 := Stored(fs[0])]);
    assert fs[0..] == fs;
  }

  /** Two stored fields followed by an admin-only one: a non-admin is
      refused with the third field's tag, whatever the first two held. */
  lemma ThirdFieldRefused(fs: seq<FieldDesc>, t1: string, t2: string, t3: string)
    requires |fs| >= 3 && Settable(fs[0], false) && Settable(fs[1], false)
    requires fs[2].slot.Ptr? && fs[2].exported && fs[2].adminOnlyTag != ""
    requires fs[0].jsonTag == t1 && t1 != "" && PlainColumn(t1)
    requires fs[1].jsonTag == t2 && t2 != "" && PlainColumn(t2)
    requires fs[2].jsonTag == t3 && t3 != "" && PlainColumn(t3)
    ensures CreateUpdateMap(fs, false) == Rejected(AdminMessage(t3))
  {
    PlainColumnIsColumnName(t3);
    FirstSegmentWhole(t3, ',');
    var m1 := map[t1 := Stored(fs[0])];
    var m2 := m1[t2 := Stored(fs[1])];
    DenyAt(fs, 2, m2);
    StorePlainAt(fs, 1, false, m1, t2);
    StorePlainAt(fs, 0, false, map[], t1);
    assert fs[0..] == fs;
  }

  /** Three stored fields and no later pointer: all three columns. */
  lemma FirstThreeFieldsSet(fs: seq<FieldDesc>, isAdmin: bool, t1: string, t2: string, t3: string)
    requires |fs| >= 3 && Settable(fs[0], isAdmin) && Settable(fs[1], isAdmin) && Settable(fs[2], isAdmin)
    requires fs[0].jsonTag == t1 && t1 != "" && PlainColumn(t1)
    requires fs[1].jsonTag == t2 && t2 != "" && PlainColumn(t2)
    requires fs[2].jsonTag == t3 && t3 != "" && PlainColumn(t3)
    requires forall j :: 3 <= j < |fs| ==> !fs[j].slot.Ptr?
    ensures CreateUpdateMap(fs, isAdmin)
         == Updates(map[t1 := Stored(fs[0]), t2 := Stored(fs[1]), t3 := Stored(fs[2])])
  {
    var m1 := map[t1 := Stored(fs[0])];
    var m2 := m1[t2 := Stored(fs[1])];
    var m3 := m2[t3 := Stored(fs[2])];
    NoPointersLeaveMap(fs, 3, isAdmin, m3);
    StorePlainAt(fs, 2, isAdmin, m2, t3);
    StorePlainAt(fs, 1, isAdmin, m1, t2);
    StorePlainAt(fs, 0, isAdmin, map[], t1);
    assert fs[0..] == fs;
  }

  /** A field whose tag is a plain name followed by options is stored
      under that name. */
  lemma OptionsCutFromTag(f: FieldDesc, name: string, options: string)
    requires name != "" && PlainColumn(name) && f.jsonTag == name + [','] + options
    ensures TagName(f) == name
    ensures NoBareUnderscore(TagName(f)) && Lower(DropDigitUnderscores(TagName(f))) == name
  {
    PlainColumnIsColumnName(name);
    FirstSegmentBefore(name, options, ',');
  }

  /** The second and fifth fields set, the fifth tagged with options: the
      map holds the second's column and the fifth's name before the comma. */
  lemma SecondAndFifthSet(fs: seq<FieldDesc>, isAdmin: bool, t2: string, name: string, options: string)
    requires |fs| == 5 && Settable(fs[1], isAdmin) && Settable(fs[4], isAdmin)
    requires !fs[0].slot.Ptr? && !fs[2].slot.Ptr? && !fs[3].slot.Ptr?
    requires fs[1].jsonTag == t2 && t2 != "" && PlainColumn(t2)
    requires fs[4].jsonTag == name + [','] + options && name != "" && PlainColumn(name)
    ensures CreateUpdateMap(fs, isAdmin) == Updates(map[t2 := Stored(fs[1]), name := Stored(fs[4])])
  {
    var m2 := map[t2 := Stored(fs[1])];
    OptionsCutFromTag(fs[4], name, options);
    StoreAt(fs, 4, isAdmin, m2, name);
    NoPointersLeaveMap(fs, 5, isAdmin, m2[name := Stored(fs[4])]);
    SkipAt(fs, 3, isAdmin, m2);
    SkipAt(fs, 2, isAdmin, m2);
    StorePlainAt(fs, 1, isAdmin, map[], t2);
    SkipAt(fs, 0, isAdmin, map[]);
    assert fs[0..] == fs;
  }

  // ---------------------------------------------------------------------
  // The test suite's struct
  // ---------------------------------------------------------------------

  /** The test suite's request struct: three `*bool` fields, the third
      admin-only, a plain `bool`, and a `*bool` whose tag carries
      `omitempty`. */
  function TestRequest(field1: Slot, field2: Slot, field3: Slot, field4: bool, field5: Slot): seq<FieldDesc> {
    [ FieldDesc("Field1", true, field1, "field_one", ""),
      FieldDesc("Field2", true, field2, "field_two", ""),
      FieldDesc("Field3", true, field3, "field_three", "true"),
      FieldDesc("Field4", true, NonPointer(Bool(field4)), "field_four", ""),
      FieldDesc("Field5", true, field5, "field_five,omitempty", "") ]
  }

  /** Field by field, what the test struct holds. */
  lemma TestRequestFields(field1: Slot, field2: Slot, field3: Slot, field4: bool, field5: Slot)
    ensures var fs := TestRequest(field1, field2, field3, field4, field5);
      && |fs| == 5
      && fs[0].exported && fs[0].slot == field1 && fs[0].jsonTag == "field_one" && fs[0].adminOnlyTag == ""
      && fs[1].exported && fs[1].slot == field2 && fs[1].jsonTag == "field_two" && fs[1].adminOnlyTag == ""
      && fs[2].exported && fs[2].slot == field3 && fs[2].jsonTag == "field_three" && fs[2].adminOnlyTag == "true"
      && !fs[3].slot.Ptr?
      && fs[4].exported && fs[4].slot == field5 && fs[4].jsonTag == "field_five,omitempty" && fs[4].adminOnlyTag == ""
  {
  }

  function BoolPtr(b: bool): Slot {
    Ptr(Bool(b))
  }

  lemma FieldOnePlain() ensures PlainColumn("field_one") { }
  lemma FieldTwoPlain() ensures PlainColumn("field_two") { }
  lemma FieldThreePlain() ensures PlainColumn("field_three") { }
  lemma FieldFivePlain() ensures PlainColumn("field_five") { }

  /** Nil pointer fields produce no keys, and the plain field is never
      looked at, whatever it holds. */
  lemma IgnoresNilFields(field4: bool)
    ensures CreateUpdateMap(TestRequest(NilPtr, NilPtr, NilPtr, field4, NilPtr), false) == Updates(map[])
  {
    var fs := TestRequest(NilPtr, NilPtr, NilPtr, field4, NilPtr);
    NoPointersLeaveMap(fs, 0, false, map[]);
    assert fs[0..] == fs;
  }

  /** A pointer to `false` is an update all the same; the plain field is
      left out even when it holds `true`. */
  lemma SetsNonNilFields(b: bool, field4: bool)
    ensures CreateUpdateMap(TestRequest(BoolPtr(b), NilPtr, NilPtr, field4, NilPtr), false)
         == Updates(map["field_one" := BoolValue(b)])
  {
    FieldOnePlain();
    TestRequestFields(BoolPtr(b), NilPtr, NilPtr, field4, NilPtr);
    OnlyFirstFieldSet(TestRequest(BoolPtr(b), NilPtr, NilPtr, field4, NilPtr), false, "field_one");
  }

  /** A non-admin setting the admin-only field is refused, naming it. */
  lemma RefusesNonAdmin(b1: bool, b2: bool, b3: bool, field4: bool, field5: Slot)
    ensures CreateUpdateMap(TestRequest(BoolPtr(b1), BoolPtr(b2), BoolPtr(b3), field4, field5), false)
         == Rejected(AdminMessage("field_three"))
  {
    FieldOnePlain();
    FieldTwoPlain();
    FieldThreePlain();
    TestRequestFields(BoolPtr(b1), BoolPtr(b2), BoolPtr(b3), field4, field5);
    ThirdFieldRefused(TestRequest(BoolPtr(b1), BoolPtr(b2), BoolPtr(b3), field4, field5),
                      "field_one", "field_two", "field_three");
  }

  /** An admin setting the same fields gets all three. */
  lemma AcceptsAdmin(b1: bool, b2: bool, b3: bool, field4: bool)
    ensures CreateUpdateMap(TestRequest(BoolPtr(b1), BoolPtr(b2), BoolPtr(b3), field4, NilPtr), true)
         == Updates(map["field_one" := BoolValue(b1), "field_two" := BoolValue(b2),
                        "field_three" := BoolValue(b3)])
  {
    FieldOnePlain();
    FieldTwoPlain();
    FieldThreePlain();
    TestRequestFields(BoolPtr(b1), BoolPtr(b2), BoolPtr(b3), field4, NilPtr);
    FirstThreeFieldsSet(TestRequest(BoolPtr(b1), BoolPtr(b2), BoolPtr(b3), field4, NilPtr), true,
                        "field_one", "field_two", "field_three");
  }

  /** Only the part of the tag before the first comma names the column. */
  lemma UsesFirstTagSegment(b2: bool, b5: bool, field4: bool)
    ensures CreateUpdateMap(TestRequest(NilPtr, BoolPtr(b2), NilPtr, field4, BoolPtr(b5)), false)
         == Updates(map["field_two" := BoolValue(b2), "field_five" := BoolValue(b5)])
  {
    FieldTwoPlain();
    FieldFivePlain();
    assert "field_five,omitempty" == "field_five" + [','] + "omitempty";
    TestRequestFields(NilPtr, BoolPtr(b2), NilPtr, field4, BoolPtr(b5));
    SecondAndFifthSet(TestRequest(NilPtr, BoolPtr(b2), NilPtr, field4, BoolPtr(b5)), false,
                      "field_two", "field_five", "omitempty");
  }

  // ---------------------------------------------------------------------
  // The column rewrite
  // ---------------------------------------------------------------------

  /** A single field stored under `col`. */
  lemma SingleFieldStored(f: FieldDesc, isAdmin: bool, name: string, col: string)
    requires Settable(f, isAdmin) && f.jsonTag != "-"
    requires (if f.jsonTag == "" then f.name else f.jsonTag) == name && ',' !in name
    requires NoBareUnderscore(name) && Lower(DropDigitUnderscores(name)) == col
    ensures CreateUpdateMap([f], isAdmin) == Updates(map[col := Stored(f)])
  {
    FirstSegmentWhole(name, ',');
    StoreAt([f], 0, isAdmin, map[], col);
    assert [f][0..] == [f];
    assert [f][1..] == [];
  }

  /** Two fields stored under the same column: the later value wins. */
  lemma LaterFieldWins(f: FieldDesc, g: FieldDesc, isAdmin: bool, a: string, b: string, col: string)
    requires Settable(f, isAdmin) && f.jsonTag == a && a != "" && a != "-" && ',' !in a
    requires Settable(g, isAdmin) && g.jsonTag == b && b != "" && b != "-" && ',' !in b
    requires NoBareUnderscore(a) && Lower(DropDigitUnderscores(a)) == col
    requires NoBareUnderscore(b) && Lower(DropDigitUnderscores(b)) == col
    ensures CreateUpdateMap([f, g], isAdmin) == Updates(map[col := Stored(g)])
  {
    var fs := [f, g];
    FirstSegmentWhole(a, ',');
    FirstSegmentWhole(b, ',');
    StoreAt(fs, 0, isAdmin, map[], col);
    StoreAt(fs, 1, isAdmin, map[col := Stored(f)], col);
    assert map[col := Stored(f)][col := Stored(g)] == map[col := Stored(g)];
    assert fs[0..] == fs;
    assert fs[2..] == [];
  }

  /** A single admin-only field set by a non-admin: refused with its tag
      name as written, before any rewrite. */
  lemma SingleFieldRefused(f: FieldDesc, name: string)
    requires f.slot.Ptr? && f.exported && f.adminOnlyTag != ""
    requires f.jsonTag == name && name != "" && name != "-" && ',' !in name
    ensures CreateUpdateMap([f], false) == Rejected(AdminMessage(name))
  {
    FirstSegmentWhole(name, ',');
    DenyAt([f], 0, map[]);
    assert [f][0..] == [f];
  }

  /** A single field whose name has `__` or a trailing `_`: the rewrite
      panics. */
  lemma SingleFieldPanics(f: FieldDesc, isAdmin: bool, name: string)
    requires f.slot.Ptr? && f.exported && (f.adminOnlyTag == "" || isAdmin)
    requires f.jsonTag == name && name != "" && name != "-" && ',' !in name
    requires !NoBareUnderscore(name)
    ensures CreateUpdateMap([f], isAdmin) == Panicked
  {
    FirstSegmentWhole(name, ',');
    CrashAt([f], 0, isAdmin, map[]);
    assert [f][0..] == [f];
  }

  /** A letters-only prefix, `_` and a run of digits: no comma and no bare
      underscore. */
  lemma DigitSuffixShape(a: string, d: string)
    requires forall i :: 0 <= i < |a| ==> a[i] != '_' && a[i] != ','
    requires |d| > 0 && forall i :: 0 <= i < |d| ==> IsDigit(d[i])
    ensures ',' !in a + "_" + d && NoBareUnderscore(a + "_" + d)
  {
    var s := a + "_" + d;
    assert forall i :: 0 <= i < |a| ==> s[i] == a[i];
    assert s[|a|] == '_';
    assert forall i :: 0 <= i < |d| ==> s[|a| + 1 + i] == d[i];
    forall k | 0 <= k < |s| && s[k] == '_' ensures k + 1 < |s| && s[k + 1] != '_' {
      assert k == |a|;
      assert s[k + 1] == d[0];
    }
  }

  /** The rewrite drops exactly the `_` in front of the digits. */
  lemma DigitSuffixDrop(a: string, d: string)
    requires '_' !in a
    requires |d| > 0 && forall i :: 0 <= i < |d| ==> IsDigit(d[i])
    ensures DropDigitUnderscores(a + "_" + d) == a + d
  {
    assert NoDigitUnderscore(d);
    DropKeepsPlainName(d);
    assert a + "_" + d == a + ("_" + d);
    DropAfterPlainPrefix(a, "_" + d);
    DropAfterUnderscore(d);
  }

  lemma LowerLimit24Column()
    ensures ',' !in "limit_24" && NoBareUnderscore("limit_24") && Lower(DropDigitUnderscores("limit_24")) == "limit24"
  {
    assert "limit_24" == "limit" + "_" + "24";
    DigitSuffixShape("limit", "24");
    DigitSuffixDrop("limit", "24");
  }

  lemma UpperLimit24Column()
    ensures ',' !in "Limit_24" && NoBareUnderscore("Limit_24") && Lower(DropDigitUnderscores("Limit_24")) == "limit24"
  {
    assert "Limit_24" == "Limit" + "_" + "24";
    DigitSuffixShape("Limit", "24");
    DigitSuffixDrop("Limit", "24");
  }

  lemma Limit24IsColumn()
    ensures ',' !in "limit24" && NoBareUnderscore("limit24") && Lower(DropDigitUnderscores("limit24")) == "limit24"
  {
    assert DropDigitUnderscores("limit24") == "limit24";
  }

  /** `limit_24` is stored under `limit24`. */
  lemma RemovesUnderscoreBeforeDigits(x: Float64)
    ensures CreateUpdateMap([FieldDesc("Limit24", true, Ptr(Float(x)), "limit_24", "")], false)
         == Updates(map["limit24" := FloatValue(x)])
  {
    LowerLimit24Column();
    SingleFieldStored(FieldDesc("Limit24", true, Ptr(Float(x)), "limit_24", ""), false, "limit_24", "limit24");
  }

  /** Upper-case letters are lowered as well. */
  lemma LowersTheColumn(x: Float64)
    ensures CreateUpdateMap([FieldDesc("Limit24", true, Ptr(Float(x)), "Limit_24", "")], false)
         == Updates(map["limit24" := FloatValue(x)])
  {
    UpperLimit24Column();
    SingleFieldStored(FieldDesc("Limit24", true, Ptr(Float(x)), "Limit_24", ""), false, "Limit_24", "limit24");
  }

  lemma CountColumn()
    ensures ',' !in "Count" && NoBareUnderscore("Count") && Lower(DropDigitUnderscores("Count")) == "count"
  {
    assert DropDigitUnderscores("Count") == "Count";
  }

  /** Without a `json` tag the declared field name is rewritten instead. */
  lemma FallsBackToFieldName(i: Int64)
    ensures CreateUpdateMap([FieldDesc("Count", true, Ptr(Int(i)), "", "")], false)
         == Updates(map["count" := IntValue(i)])
  {
    CountColumn();
    SingleFieldStored(FieldDesc("Count", true, Ptr(Int(i)), "", ""), false, "Count", "count");
  }

  /** Two tags naming the same column: the later field's value is kept. */
  lemma LaterFieldOverwrites(x: Float64, y: Float64)
    ensures CreateUpdateMap([FieldDesc("A", true, Ptr(Float(x)), "limit_24", ""),
                             FieldDesc("B", true, Ptr(Float(y)), "limit24", "")], false)
         == Updates(map["limit24" := FloatValue(y)])
  {
    var g := FieldDesc("B", true, Ptr(Float(y)), "limit24", "");
    assert CreateUpdateMap([FieldDesc("A", true, Ptr(Float(x)), "limit_24", ""), g], false)
        == Updates(map["limit24" := Stored(g)]) by {
      LowerLimit24Column();
      Limit24IsColumn();
      LaterFieldWins(FieldDesc("A", true, Ptr(Float(x)), "limit_24", ""), g, false, "limit_24", "limit24", "limit24");
    }
  }

  /** The refusal message quotes the tag as written, not the column it
      would have become. */
  lemma RefusalQuotesTagBeforeRewrite(x: Float64)
    ensures CreateUpdateMap([FieldDesc("Limit24", true, Ptr(Float(x)), "Limit_24", "true")], false)
         == Rejected(AdminMessage("Limit_24"))
  {
    UpperLimit24Column();
    SingleFieldRefused(FieldDesc("Limit24", true, Ptr(Float(x)), "Limit_24", "true"), "Limit_24");
  }

  /** A doubled or trailing underscore makes the rewrite panic, but only
      once the admin check has let the field through. */
  lemma PanicsOnEmptyPiece(b: bool)
    ensures CreateUpdateMap([FieldDesc("A", true, BoolPtr(b), "a__b", "")], false) == Panicked
    ensures CreateUpdateMap([FieldDesc("A", true, BoolPtr(b), "a_", "")], false) == Panicked
    ensures CreateUpdateMap([FieldDesc("A", true, BoolPtr(b), "a_", "true")], true) == Panicked
    ensures CreateUpdateMap([FieldDesc("A", true, BoolPtr(b), "a_", "true")], false) == Rejected(AdminMessage("a_"))
  {
    assert "a__b"[1] == '_' && "a__b"[2] == '_';
    assert "a_"[1] == '_' && |"a_"| == 2;
    SingleFieldPanics(FieldDesc("A", true, BoolPtr(b), "a__b", ""), false, "a__b");
    SingleFieldPanics(FieldDesc("A", true, BoolPtr(b), "a_", ""), false, "a_");
    SingleFieldPanics(FieldDesc("A", true, BoolPtr(b), "a_", "true"), true, "a_");
    SingleFieldRefused(FieldDesc("A", true, BoolPtr(b), "a_", "true"), "a_");
  }
}

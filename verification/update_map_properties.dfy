/** Properties of `CreateUpdateMap` that relate several calls or several
    fields: which fields can matter at all, what an admin sees, where the
    pass stops, and where every key of the finished map comes from. */
module UpdateMapProperties {
  import opened Strings
  import opened ColumnNaming
  import opened Fields
  import opened UpdateMap

  /** Verdicts that leave the map as it was and let the pass go on. */
  predicate Inert(v: Verdict) {
    v.Skipped? || (v.Column? && v.value.None?)
  }

  /** A field that neither stops the pass nor stores anything can be added
      anywhere without changing the result. */
  lemma {:induction false} InertFieldIrrelevantInRun(
    p: seq<FieldDesc>, f: FieldDesc, s: seq<FieldDesc>, isAdmin: bool, acc: map<string, Value>)
    requires Inert(FieldVerdict(f, isAdmin))
    ensures Run(p + [f] + s, isAdmin, acc) == Run(p + s, isAdmin, acc)
    decreases |p|
  {
    if |p| == 0 {
      assert p + [f] + s == [f] + s;
      assert ([f] + s)[1..] == s;
      assert p + s == s;
    } else {
      assert (p + [f] + s)[0] == p[0];
      assert (p + [f] + s)[1..] == p[1..] + [f] + s;
      assert (p + s)[0] == p[0];
      assert (p + s)[1..] == p[1..] + s;
      var v := FieldVerdict(p[0], isAdmin);
      if Proceeds(v) {
        var acc' := if v.Column? && v.value.Some? then acc[v.column := v.value.value] else acc;
        InertFieldIrrelevantInRun(p[1..], f, s, isAdmin, acc');
      }
    }
  }

  /** Inserting a field that neither stops the pass nor stores anything, at
      any position, leaves the outcome unchanged. */
  lemma InertFieldIrrelevant(fs: seq<FieldDesc>, k: nat, f: FieldDesc, isAdmin: bool)
    requires k <= |fs|
    requires Inert(FieldVerdict(f, isAdmin))
    ensures CreateUpdateMap(fs[..k] + [f] + fs[k..], isAdmin) == CreateUpdateMap(fs, isAdmin)
  {
    InertFieldIrrelevantInRun(fs[..k], f, fs[k..], isAdmin, map[]);
    assert fs[..k] + fs[k..] == fs;
  }

  /** A nil pointer or a plain (non-pointer) field never changes the outcome,
      whatever value the plain field holds and whatever its tags say. */
  lemma NilOrPlainFieldIgnored(fs: seq<FieldDesc>, k: nat, f: FieldDesc, isAdmin: bool)
    requires k <= |fs|
    requires f.slot.NilPtr? || f.slot.NonPointer?
    ensures CreateUpdateMap(fs[..k] + [f] + fs[k..], isAdmin) == CreateUpdateMap(fs, isAdmin)
  {
    InertFieldIrrelevant(fs, k, f, isAdmin);
  }

  /** An unexported field, or one whose `json` tag is exactly `-`, never
      changes the outcome, even when it is admin-only. */
  lemma HiddenFieldIgnored(fs: seq<FieldDesc>, k: nat, f: FieldDesc, isAdmin: bool)
    requires k <= |fs|
    requires !f.exported || f.jsonTag == "-"
    ensures CreateUpdateMap(fs[..k] + [f] + fs[k..], isAdmin) == CreateUpdateMap(fs, isAdmin)
  {
    InertFieldIrrelevant(fs, k, f, isAdmin);
  }

  /** A field pointing to a kind that is not stored (a struct other than
      `time.Time`, a slice, a nested pointer, ...) is dropped silently, as
      long as it is not refused and its name does not make the rewrite
      panic. */
  lemma UnstorableKindIgnored(fs: seq<FieldDesc>, k: nat, f: FieldDesc, isAdmin: bool)
    requires k <= |fs|
    requires f.slot.Ptr? && (f.slot.target == OtherStruct || f.slot.target == Other)
    requires f.adminOnlyTag == "" || isAdmin
    requires NoBareUnderscore(TagName(f))
    ensures CreateUpdateMap(fs[..k] + [f] + fs[k..], isAdmin) == CreateUpdateMap(fs, isAdmin)
  {
    InertFieldIrrelevant(fs, k, f, isAdmin);
  }

  /** The fields with their `admin_only` tags removed. */
  function ClearAdminTags(fs: seq<FieldDesc>): seq<FieldDesc> {
    seq(|fs|, i requires 0 <= i < |fs| => fs[i].(adminOnlyTag := ""))
  }

  lemma {:induction false} AdminRunSeesUnrestricted(fs: seq<FieldDesc>, acc: map<string, Value>)
    ensures Run(fs, true, acc) == Run(ClearAdminTags(fs), false, acc)
    decreases |fs|
  {
    if |fs| > 0 {
      var cs := ClearAdminTags(fs);
      assert cs[0] == fs[0].(adminOnlyTag := "");
      assert cs[1..] == ClearAdminTags(fs[1..]);
      var v := FieldVerdict(fs[0], true);
      assert FieldVerdict(cs[0], false) == v;
      if Proceeds(v) {
        var acc' := if v.Column? && v.value.Some? then acc[v.column := v.value.value] else acc;
        AdminRunSeesUnrestricted(fs[1..], acc');
      }
    }
  }

  /** For an admin the `admin_only` tags make no difference: the outcome is
      the one a non-admin gets for the same fields with those tags removed. */
  lemma AdminSeesUnrestricted(fs: seq<FieldDesc>)
    ensures CreateUpdateMap(fs, true) == CreateUpdateMap(ClearAdminTags(fs), false)
  {
    AdminRunSeesUnrestricted(fs, map[]);
  }

  /** The first stopping field of a prefix is the first stopping field of
      any extension of it. */
  lemma FirstHaltOfExtension(fs: seq<FieldDesc>, more: seq<FieldDesc>, isAdmin: bool)
    requires FirstHalt(fs, isAdmin) < |fs|
    ensures FirstHalt(fs + more, isAdmin) == FirstHalt(fs, isAdmin)
  {
    var k := FirstHalt(fs, isAdmin);
    var h := FirstHalt(fs + more, isAdmin);
    assert (fs + more)[k] == fs[k];
    assert forall j :: 0 <= j < k ==> (fs + more)[j] == fs[j];
  }

  /** Once a field stops the pass no later field is looked at: appending
      fields to a request that is refused, or that panics, changes nothing. */
  lemma StopIgnoresLaterFields(fs: seq<FieldDesc>, more: seq<FieldDesc>, isAdmin: bool)
    requires !CreateUpdateMap(fs, isAdmin).Updates?
    ensures CreateUpdateMap(fs + more, isAdmin) == CreateUpdateMap(fs, isAdmin)
  {
    var k := FirstHalt(fs, isAdmin);
    FirstHaltOfExtension(fs, more, isAdmin);
    RunHalts(fs, isAdmin, map[]);
    RunHalts(fs + more, isAdmin, map[]);
    assert (fs + more)[k] == fs[k];
  }

  /** A non-admin is refused exactly when some field is admin-only and
      would otherwise be looked at, and no earlier field stops the pass; the
      message names that field by its tag name before the column rewrite. */
  lemma NonAdminRefusal(fs: seq<FieldDesc>)
    ensures CreateUpdateMap(fs, false).Rejected? <==>
              exists k :: 0 <= k < |fs| && Considered(fs[k]) && fs[k].adminOnlyTag != ""
                          && forall j :: 0 <= j < k ==> Proceeds(FieldVerdict(fs[j], false))
    ensures CreateUpdateMap(fs, false).Rejected? ==>
              exists k :: 0 <= k < |fs| && Considered(fs[k]) && fs[k].adminOnlyTag != ""
                          && CreateUpdateMap(fs, false).message == AdminMessage(TagName(fs[k]))
  {
    var r := CreateUpdateMap(fs, false);
    var h := FirstHalt(fs, false);
    if r.Rejected? {
      var v := FieldVerdict(fs[h], false);
      assert v.Denied?;
      assert Considered(fs[h]) && fs[h].adminOnlyTag != "" && v.name == TagName(fs[h]);
      assert r.message == AdminMessage(TagName(fs[h]));
    }
    forall k | 0 <= k < |fs| && Considered(fs[k]) && fs[k].adminOnlyTag != ""
                && (forall j :: 0 <= j < k ==> Proceeds(FieldVerdict(fs[j], false)))
      ensures r.Rejected?
    {
      assert FieldVerdict(fs[k], false).Denied?;
      assert h == k;
    }
  }

  /** Every key of a finished map is the rewritten name of a non-nil,
      exported, non-ignored pointer field holding the stored value, and no
      later field stores the same key. */
  lemma KeysComeFromPointerFields(fs: seq<FieldDesc>, isAdmin: bool, col: string)
    requires CreateUpdateMap(fs, isAdmin).Updates?
    requires col in CreateUpdateMap(fs, isAdmin).columns
    ensures exists k :: 0 <= k < |fs|
              && fs[k].slot.Ptr? && fs[k].exported && fs[k].jsonTag != "-"
              && col == Lower(DropDigitUnderscores(TagName(fs[k])))
              && Extract(fs[k].slot.target) == Some(CreateUpdateMap(fs, isAdmin).columns[col])
              && forall j :: k < j < |fs| ==> !Stores(fs[j], isAdmin, col)
  {
    var m := CreateUpdateMap(fs, isAdmin).columns;
    assert Get(m, col) == Lookup(fs, isAdmin, col);
    LookupIsLastStore(fs, isAdmin, col);
  }

  /** Every field that stores a column in a pass nobody stops shows up in
      the finished map, even when its value is a default such as `false`,
      `0` or `""`. */
  lemma StoringFieldAppears(fs: seq<FieldDesc>, isAdmin: bool, k: nat)
    requires k < |fs|
    requires CreateUpdateMap(fs, isAdmin).Updates?
    requires fs[k].slot.Ptr? && fs[k].exported && fs[k].jsonTag != "-"
    requires fs[k].adminOnlyTag == "" || isAdmin
    requires Extract(fs[k].slot.target).Some?
    ensures Lower(DropDigitUnderscores(TagName(fs[k]))) in CreateUpdateMap(fs, isAdmin).columns
  {
    var col := Lower(DropDigitUnderscores(TagName(fs[k])));
    var v := FieldVerdict(fs[k], isAdmin);
    assert Proceeds(v);
    assert Stores(fs[k], isAdmin, col);
    assert Get(CreateUpdateMap(fs, isAdmin).columns, col) == Lookup(fs, isAdmin, col);
  }

  /** When no looked-at name has `__` or a trailing `_`, the pass never
      panics. */
  lemma WellFormedNamesNeverPanic(fs: seq<FieldDesc>, isAdmin: bool)
    requires forall k :: 0 <= k < |fs| && Considered(fs[k]) ==> NoBareUnderscore(TagName(fs[k]))
    ensures !CreateUpdateMap(fs, isAdmin).Panicked?
  {
    var h := FirstHalt(fs, isAdmin);
    if h < |fs| {
      assert !FieldVerdict(fs[h], isAdmin).Crash?;
    }
  }
}

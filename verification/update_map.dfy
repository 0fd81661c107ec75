/** `CreateUpdateMap`: one left-to-right pass over a request struct's fields
    that builds the column -> value map handed to GORM's `Updates`, or stops
    at the first admin-only field a non-admin tries to set. */
module UpdateMap {
  import opened Strings
  import opened ColumnNaming
  import opened Fields

  /** What the pass does with one field. `Crash` is the index-out-of-range
      panic of the column rewrite on a name with `__` or a trailing `_`. */
  datatype Verdict =
    | Skipped
    | Denied(name: string)
    | Crash
    | Column(column: string, value: Option<Value>)

  /** The result of the whole pass. `Rejected` stands for the nil map paired
      with a validation message; `Panicked` for the runtime panic. */
  datatype Outcome =
    | Updates(columns: map<string, Value>)
    | Rejected(message: string)
    | Panicked

  /** The validation message for an admin-only field. */
  function AdminMessage(name: string): string {
    "Only admins can update field '" + name + "'."
  }

  /** The fate of one field: skipped unless it passes the pointer, exported
      and `-` filters; then refused if it is admin-only and the caller is
      not an admin, where the message carries the tag name as it was before
      the rewrite; then stored under its rewritten column name when its kind
      is storable. */
  function FieldVerdict(f: FieldDesc, isAdmin: bool): (v: Verdict)
    ensures v.Skipped? <==> !Considered(f)
    ensures v.Denied? <==> Considered(f) && f.adminOnlyTag != "" && !isAdmin
    ensures v.Denied? ==> v.name == TagName(f)
    ensures v.Crash? <==> Considered(f) && (f.adminOnlyTag == "" || isAdmin) && !NoBareUnderscore(TagName(f))
    ensures v.Column? ==> v.column == Lower(DropDigitUnderscores(TagName(f)))
    ensures v.Column? ==> v.value == Extract(f.slot.target)
  {
    if !f.slot.Ptr? || !f.exported || f.jsonTag == "-" then Skipped
    else
      var name := TagName(f);
      if f.adminOnlyTag != "" && !isAdmin then Denied(name)
      else
        SegmentsIndexableIff(name);
        if !SegmentsIndexable(name) then Crash
        else Column(ColumnName(name), Extract(f.slot.target))
  }

  /** The verdicts that let the pass go on to the next field. */
  predicate Proceeds(v: Verdict) {
    v.Skipped? || v.Column?
  }

  /** The pass proper, `acc` being the map built so far; a later store to
      the same column overwrites an earlier one. */
  function Run(fs: seq<FieldDesc>, isAdmin: bool, acc: map<string, Value>): Outcome
    decreases |fs|
  {
    if |fs| == 0 then Updates(acc)
    else
      match FieldVerdict(fs[0], isAdmin)
      case Skipped => Run(fs[1..], isAdmin, acc)
      case Denied(name) => Rejected(AdminMessage(name))
      case Crash => Panicked
      case Column(col, None) => Run(fs[1..], isAdmin, acc)
      case Column(col, Some(v)) => Run(fs[1..], isAdmin, acc[col := v])
  }

  /** The position of the first field that stops the pass, or `|fs|` when
      every field lets it go on. */
  function FirstHalt(fs: seq<FieldDesc>, isAdmin: bool): (k: nat)
    ensures k <= |fs|
    ensures forall j :: 0 <= j < k ==> Proceeds(FieldVerdict(fs[j], isAdmin))
    ensures k < |fs| ==> !Proceeds(FieldVerdict(fs[k], isAdmin))
    decreases |fs|
  {
    if |fs| == 0 || !Proceeds(FieldVerdict(fs[0], isAdmin)) then 0
    else
      var k := FirstHalt(fs[1..], isAdmin);
      assert forall j :: 0 < j <= k ==> fs[j] == fs[1..][j - 1];
      1 + k
  }

  /** Whether the field stores `col`. */
  predicate Stores(f: FieldDesc, isAdmin: bool, col: string) {
    var v := FieldVerdict(f, isAdmin);
    v.Column? && v.column == col && v.value.Some?
  }

  /** Reference for the finished map: the value of the last field that
      stores `col`, if any does. */
  function Lookup(fs: seq<FieldDesc>, isAdmin: bool, col: string): (r: Option<Value>)
    ensures r.Some? <==> exists k :: 0 <= k < |fs| && Stores(fs[k], isAdmin, col)
    decreases |fs|
  {
    if |fs| == 0 then None
    else
      var later := Lookup(fs[1..], isAdmin, col);
      if later.Some? then
        later
      else if Stores(fs[0], isAdmin, col) then FieldVerdict(fs[0], isAdmin).value
      else None
  }

  /** The value `Lookup` finds is the one of a field that stores the column
      and is not followed by another such field. */
  lemma {:induction false} LookupIsLastStore(fs: seq<FieldDesc>, isAdmin: bool, col: string)
    requires Lookup(fs, isAdmin, col).Some?
    ensures exists k :: 0 <= k < |fs| && FieldVerdict(fs[k], isAdmin) == Column(col, Lookup(fs, isAdmin, col))
                        && forall j :: k < j < |fs| ==> !Stores(fs[j], isAdmin, col)
    decreases |fs|
  {
    var later := Lookup(fs[1..], isAdmin, col);
    if later.Some? {
      LookupIsLastStore(fs[1..], isAdmin, col);
      var k :| 0 <= k < |fs| - 1 && FieldVerdict(fs[1..][k], isAdmin) == Column(col, later)
               && forall j :: k < j < |fs| - 1 ==> !Stores(fs[1..][j], isAdmin, col);
      assert FieldVerdict(fs[k + 1], isAdmin) == Column(col, later);
      forall j | k + 1 < j < |fs| ensures !Stores(fs[j], isAdmin, col) {
        assert fs[j] == fs[1..][j - 1];
      }
    } else {
      assert forall j :: 0 < j < |fs| ==> !Stores(fs[j], isAdmin, col) by {
        forall j | 0 < j < |fs| ensures !Stores(fs[j], isAdmin, col) {
          assert fs[j] == fs[1..][j - 1];
        }
      }
      assert FieldVerdict(fs[0], isAdmin) == Column(col, Lookup(fs, isAdmin, col));
    }
  }

  function Get(m: map<string, Value>, col: string): Option<Value> {
    if col in m then Some(m[col]) else None
  }

  /** Builds the update map for the request struct `fs`. The pass stops at
      the first field that is refused or panics; if it is refused the result
      is the admin message naming that field, and if no field stops it the
      map holds, for each column, the value of the last field storing it.
      An admin is never refused. */
  function CreateUpdateMap(fs: seq<FieldDesc>, isAdmin: bool): (r: Outcome)
    ensures r.Updates? <==> FirstHalt(fs, isAdmin) == |fs|
    ensures r.Rejected? <==> FirstHalt(fs, isAdmin) < |fs| && FieldVerdict(fs[FirstHalt(fs, isAdmin)], isAdmin).Denied?
    ensures r.Rejected? ==>
              FirstHalt(fs, isAdmin) < |fs|
              && r.message == AdminMessage(FieldVerdict(fs[FirstHalt(fs, isAdmin)], isAdmin).name)
    ensures r.Updates? ==> forall col :: Get(r.columns, col) == Lookup(fs, isAdmin, col)
    ensures isAdmin ==> !r.Rejected?
  {
    if FirstHalt(fs, isAdmin) == |fs| then RunCompletes(fs, isAdmin, map[]); Run(fs, isAdmin, map[])
    else RunHalts(fs, isAdmin, map[]); Run(fs, isAdmin, map[])
  }

  /** The outcome a stopping verdict ends the pass with. */
  function Halt(v: Verdict): Outcome {
    if v.Denied? then Rejected(AdminMessage(v.name)) else Panicked
  }

  /** The map a proceeding verdict leaves behind: its value stored under
      its column, if it has one. */
  function After(v: Verdict, acc: map<string, Value>): map<string, Value> {
    if v.Column? && v.value.Some? then acc[v.column := v.value.value] else acc
  }

  /** One step of the pass: a proceeding field hands the updated map on to
      the rest; a stopping field ends the pass. */
  lemma RunStep(fs: seq<FieldDesc>, isAdmin: bool, acc: map<string, Value>)
    requires |fs| > 0
    ensures var v := FieldVerdict(fs[0], isAdmin);
      Run(fs, isAdmin, acc) == if Proceeds(v) then Run(fs[1..], isAdmin, After(v, acc)) else Halt(v)
  {
  }

  /** A pass that meets a stopping field ends with that field's refusal or
      panic, whatever was built before it. */
  lemma {:induction false} RunHalts(fs: seq<FieldDesc>, isAdmin: bool, acc: map<string, Value>)
    requires FirstHalt(fs, isAdmin) < |fs|
    ensures Run(fs, isAdmin, acc) == Halt(FieldVerdict(fs[FirstHalt(fs, isAdmin)], isAdmin))
    decreases |fs|
  {
    var v := FieldVerdict(fs[0], isAdmin);
    RunStep(fs, isAdmin, acc);
    if Proceeds(v) {
      var k := FirstHalt(fs[1..], isAdmin);
      assert FirstHalt(fs, isAdmin) == 1 + k;
      assert fs[1..][k] == fs[k + 1];
      RunHalts(fs[1..], isAdmin, After(v, acc));
    } else {
      assert FirstHalt(fs, isAdmin) == 0;
    }
  }

  /** A pass that nobody stops ends with `acc` overridden, column by column,
      by the last field storing that column. */
  lemma {:induction false} RunCompletes(fs: seq<FieldDesc>, isAdmin: bool, acc: map<string, Value>)
    requires FirstHalt(fs, isAdmin) == |fs|
    ensures Run(fs, isAdmin, acc).Updates?
    ensures forall col ::
              Get(Run(fs, isAdmin, acc).columns, col)
              == (if Lookup(fs, isAdmin, col).Some? then Lookup(fs, isAdmin, col) else Get(acc, col))
    decreases |fs|
  {
    if |fs| > 0 {
      var v := FieldVerdict(fs[0], isAdmin);
      var acc' := if v.Column? && v.value.Some? then acc[v.column := v.value.value] else acc;
      assert Run(fs, isAdmin, acc) == Run(fs[1..], isAdmin, acc');
      RunCompletes(fs[1..], isAdmin, acc');
    }
  }
}

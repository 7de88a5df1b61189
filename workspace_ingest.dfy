/**
  The normalisation `WorkspacesService.ingestWorkspace` applies to an
  introspected schema before it is written: case-insensitive deduplication of
  tables, columns and foreign keys, and the best-effort reading of the
  business names an LLM proposes for each table.
 */
module WorkspaceIngest {
  import opened Wrappers
  import opened Text
  import opened Js
  import WorkspacesUtil

  /** What the schema reader returns. */
  datatype TableInfo = TableInfo(schemaName: string, tableName: string)

  datatype ColumnInfo = ColumnInfo(
    schemaName: string, tableName: string, columnName: string,
    dataType: string, isNullable: bool, isPrimaryKey: bool)

  datatype FkInfo = FkInfo(
    constraintName: Option<string>,
    fromSchema: string, fromTable: string, fromColumn: string,
    toSchema: string, toTable: string, toColumn: string)

  datatype IntrospectedSchema = IntrospectedSchema(tables: seq<TableInfo>, columns: seq<ColumnInfo>, fks: seq<FkInfo>)

  // ---------------------------------------------------------------------
  // Keys
  // ---------------------------------------------------------------------

  /** `tblKeyLc` */
  function TableKeyLc(schema: string, table: string): string {
    Lower(schema + "." + table)
  }

  /** `colKeyLc` */
  function ColumnKeyLc(schema: string, table: string, column: string): string {
    Lower(schema + "." + table + "." + column)
  }

  function TableKey(t: TableInfo): string { TableKeyLc(t.schemaName, t.tableName) }

  function ColumnKey(c: ColumnInfo): string { ColumnKeyLc(c.schemaName, c.tableName, c.columnName) }

  /** `fkFromKeyLc`: the source column only. */
  function FkFromKey(f: FkInfo): string { ColumnKeyLc(f.fromSchema, f.fromTable, f.fromColumn) }

  /** The exact-case key of `tableBizMap`. */
  function ExactTableKey(schema: string, table: string): string {
    schema + "." + table
  }

  // ---------------------------------------------------------------------
  // Keeping the first element per key
  // ---------------------------------------------------------------------

  function KeysOf<T>(xs: seq<T>, key: T -> string): set<string> {
    set i | 0 <= i < |xs| :: key(xs[i])
  }

  /** Index of the first element with key k, or |xs|. */
  function FirstWithKey<T>(xs: seq<T>, key: T -> string, k: string): (i: nat)
    ensures i <= |xs|
    ensures i < |xs| ==> key(xs[i]) == k
    ensures forall j :: 0 <= j < i ==> key(xs[j]) != k
    ensures i < |xs| <==> k in KeysOf(xs, key)
  {
    if xs == [] then 0
    else
      var init := xs[..|xs| - 1];
      var f := FirstWithKey(init, key, k);
      assert forall j :: 0 <= j < |init| ==> init[j] == xs[j];
      if f < |init| then f else if key(xs[|xs| - 1]) == k then |init| else |xs|
  }

  /** The elements in input order, each kept only when no earlier one has its key. */
  function KeepFirst<T>(xs: seq<T>, key: T -> string): seq<T> {
    if xs == [] then []
    else
      var r := KeepFirst(xs[..|xs| - 1], key);
      if key(xs[|xs| - 1]) in KeysOf(r, key) then r else r + [xs[|xs| - 1]]
  }

  lemma KeysOfSnoc<T>(xs: seq<T>, x: T, key: T -> string)
    ensures KeysOf(xs + [x], key) == KeysOf(xs, key) + {key(x)}
  {
    var ys := xs + [x];
    assert forall i :: 0 <= i < |xs| ==> ys[i] == xs[i];
    assert ys[|xs|] == x;
  }

  /** The first index with a key, in a list one element longer. */
  lemma FirstWithKeySnoc<T>(xs: seq<T>, x: T, key: T -> string, k: string)
    ensures FirstWithKey(xs + [x], key, k) ==
      if k in KeysOf(xs, key) then FirstWithKey(xs, key, k) else if key(x) == k then |xs| else |xs| + 1
  {
    assert (xs + [x])[..|xs|] == xs;
  }

  /** The kept elements come in the order their keys first occur in `xs`. */
  predicate InFirstOccurrenceOrder<T>(r: seq<T>, xs: seq<T>, key: T -> string) {
    forall i, j :: 0 <= i < j < |r| ==> FirstWithKey(xs, key, key(r[i])) < FirstWithKey(xs, key, key(r[j]))
  }

  /** Appending to the input leaves the order of keys already present unchanged. */
  lemma OrderSnocKeep<T>(r: seq<T>, init: seq<T>, x: T, key: T -> string)
    requires KeysOf(r, key) <= KeysOf(init, key) && InFirstOccurrenceOrder(r, init, key)
    ensures InFirstOccurrenceOrder(r, init + [x], key)
  {
    forall i | 0 <= i < |r|
      ensures FirstWithKey(init + [x], key, key(r[i])) == FirstWithKey(init, key, key(r[i]))
    {
      assert key(r[i]) in KeysOf(r, key);
      FirstWithKeySnoc(init, x, key, key(r[i]));
    }
  }

  /** A new key appended to both lists comes after every earlier key. */
  lemma OrderSnocNew<T>(r: seq<T>, init: seq<T>, x: T, key: T -> string)
    requires KeysOf(r, key) <= KeysOf(init, key) && InFirstOccurrenceOrder(r, init, key)
    requires key(x) !in KeysOf(init, key)
    ensures InFirstOccurrenceOrder(r + [x], init + [x], key)
  {
    OrderSnocKeep(r, init, x, key);
    FirstWithKeySnoc(init, x, key, key(x));
    forall i | 0 <= i < |r|
      ensures FirstWithKey(init + [x], key, key(r[i])) < |init|
    {
      assert key(r[i]) in KeysOf(r, key);
      FirstWithKeySnoc(init, x, key, key(r[i]));
    }
    var r' := r + [x];
    assert forall i :: 0 <= i < |r| ==> r'[i] == r[i];
  }

  /**
    Deduplication keeps exactly one element per key, the first one, and
    loses no key.
   */
  lemma {:induction false} KeepFirstMeaning<T>(xs: seq<T>, key: T -> string)
    ensures var r := KeepFirst(xs, key);
      && KeysOf(r, key) == KeysOf(xs, key)
      && (forall i, j :: 0 <= i < j < |r| ==> key(r[i]) != key(r[j]))
      && (forall i :: 0 <= i < |r| ==> r[i] == xs[FirstWithKey(xs, key, key(r[i]))])
      && InFirstOccurrenceOrder(r, xs, key)
  {
    if xs != [] {
      var init := xs[..|xs| - 1];
      var x := xs[|xs| - 1];
      var r0 := KeepFirst(init, key);
      KeepFirstMeaning(init, key);
      KeysOfSnoc(init, x, key);
      assert xs == init + [x];
      var r := KeepFirst(xs, key);
      if key(x) in KeysOf(r0, key) {
        assert r == r0;
        OrderSnocKeep(r0, init, x, key);
        forall i | 0 <= i < |r|
          ensures r[i] == xs[FirstWithKey(xs, key, key(r[i]))]
        {
          var f := FirstWithKey(init, key, key(r0[i]));
          FirstWithKeySnoc(init, x, key, key(r0[i]));
          assert init[f] == xs[f];
        }
      } else {
        assert r == r0 + [x];
        KeysOfSnoc(r0, x, key);
        OrderSnocNew(r0, init, x, key);
        forall i, j | 0 <= i < j < |r|
          ensures key(r[i]) != key(r[j])
        {
          if j == |r0| {
            assert r[i] == r0[i] && key(r0[i]) in KeysOf(r0, key);
          } else {
            assert r[i] == r0[i] && r[j] == r0[j];
          }
        }
        forall i | 0 <= i < |r|
          ensures r[i] == xs[FirstWithKey(xs, key, key(r[i]))]
        {
          if i < |r0| {
            assert r[i] == r0[i];
            var f := FirstWithKey(init, key, key(r0[i]));
            FirstWithKeySnoc(init, x, key, key(r0[i]));
            assert init[f] == xs[f];
          } else {
            FirstWithKeySnoc(init, x, key, key(x));
          }
        }
      }
    }
  }

  /** The `seen`-set loop over the tables. */
  method DedupTables(tables: seq<TableInfo>) returns (out: seq<TableInfo>)
    ensures out == KeepFirst(tables, TableKey)
  {
    out := [];
    var seen: set<string> := {};
    for i := 0 to |tables|
      invariant out == KeepFirst(tables[..i], TableKey)
      invariant seen == KeysOf(out, TableKey)
    {
      assert tables[..i + 1][..i] == tables[..i];
      var t := tables[i];
      var k := TableKeyLc(t.schemaName, t.tableName);
      if k !in seen {
        seen := seen + {k};
        KeysOfSnoc(out, t, TableKey);
        out := out + [t];
      }
    }
    assert tables[..|tables|] == tables;
  }

  /** The `fkSeen`-set loop over the foreign keys, keyed on the source column. */
  method DedupFks(fks: seq<FkInfo>) returns (out: seq<FkInfo>)
    ensures out == KeepFirst(fks, FkFromKey)
  {
    out := [];
    var seen: set<string> := {};
    for i := 0 to |fks|
      invariant out == KeepFirst(fks[..i], FkFromKey)
      invariant seen == KeysOf(out, FkFromKey)
    {
      assert fks[..i + 1][..i] == fks[..i];
      var f := fks[i];
      var k := ColumnKeyLc(f.fromSchema, f.fromTable, f.fromColumn);
      if k !in seen {
        seen := seen + {k};
        KeysOfSnoc(out, f, FkFromKey);
        out := out + [f];
      }
    }
    assert fks[..|fks|] == fks;
  }

  /** Two foreign keys from the same column, in any letter case: only the first is kept. */
  lemma SecondFkFromSameColumnDropped(f: FkInfo, g: FkInfo)
    requires FkFromKey(f) == FkFromKey(g)
    ensures KeepFirst([f, g], FkFromKey) == [f]
  {
    assert [f, g][..1] == [f];
    assert [f][..0] == [];
    assert KeepFirst([f], FkFromKey) == [f];
    assert KeysOf([f], FkFromKey) == {FkFromKey(f)};
  }

  // ---------------------------------------------------------------------
  // Merging duplicate columns
  // ---------------------------------------------------------------------

  /** `||=` on the two flags; the first column's data type stays. */
  function MergeFlags(a: ColumnInfo, c: ColumnInfo): ColumnInfo {
    a.(isPrimaryKey := a.isPrimaryKey || c.isPrimaryKey, isNullable := a.isNullable || c.isNullable)
  }

  /** The column list after the `colSeen` loop. */
  function MergeColumns(cols: seq<ColumnInfo>, key: ColumnInfo -> string): seq<ColumnInfo> {
    if cols == [] then []
    else
      var r := MergeColumns(cols[..|cols| - 1], key);
      var c := cols[|cols| - 1];
      var idx := FirstWithKey(r, key, key(c));
      if idx == |r| then r + [c] else r[idx := MergeFlags(r[idx], c)]
  }

  predicate AnyPrimaryKey(cols: seq<ColumnInfo>, key: ColumnInfo -> string, k: string) {
    exists j | 0 <= j < |cols| :: key(cols[j]) == k && cols[j].isPrimaryKey
  }

  predicate AnyNullable(cols: seq<ColumnInfo>, key: ColumnInfo -> string, k: string) {
    exists j | 0 <= j < |cols| :: key(cols[j]) == k && cols[j].isNullable
  }

  /** The merged column for key k: the first such column, with each flag set if any duplicate sets it. */
  function Merged(cols: seq<ColumnInfo>, key: ColumnInfo -> string, k: string): ColumnInfo
    requires k in KeysOf(cols, key)
  {
    var first := cols[FirstWithKey(cols, key, k)];
    first.(isPrimaryKey := AnyPrimaryKey(cols, key, k), isNullable := AnyNullable(cols, key, k))
  }

  lemma MergedSnocOther(cols: seq<ColumnInfo>, key: ColumnInfo -> string, k: string)
    requires cols != [] && k in KeysOf(cols[..|cols| - 1], key)
    ensures k in KeysOf(cols, key)
    ensures key(cols[|cols| - 1]) != k ==> Merged(cols, key, k) == Merged(cols[..|cols| - 1], key, k)
    ensures key(cols[|cols| - 1]) == k ==> Merged(cols, key, k) == MergeFlags(Merged(cols[..|cols| - 1], key, k), cols[|cols| - 1])
  {
    var init := cols[..|cols| - 1];
    var c := cols[|cols| - 1];
    assert forall j :: 0 <= j < |init| ==> init[j] == cols[j];
    var f := FirstWithKey(init, key, k);
    assert FirstWithKey(cols, key, k) == f;
    assert AnyPrimaryKey(cols, key, k) == (AnyPrimaryKey(init, key, k) || (key(c) == k && c.isPrimaryKey));
    assert AnyNullable(cols, key, k) == (AnyNullable(init, key, k) || (key(c) == k && c.isNullable));
  }

  lemma MergedSnocNew(cols: seq<ColumnInfo>, key: ColumnInfo -> string)
    requires cols != [] && key(cols[|cols| - 1]) !in KeysOf(cols[..|cols| - 1], key)
    ensures key(cols[|cols| - 1]) in KeysOf(cols, key)
    ensures Merged(cols, key, key(cols[|cols| - 1])) == cols[|cols| - 1]
  {
    var init := cols[..|cols| - 1];
    var c := cols[|cols| - 1];
    var k := key(c);
    assert forall j :: 0 <= j < |init| ==> init[j] == cols[j] && key(cols[j]) != k;
    assert FirstWithKey(cols, key, k) == |init|;
    assert AnyPrimaryKey(cols, key, k) == c.isPrimaryKey;
    assert AnyNullable(cols, key, k) == c.isNullable;
  }

  /** Deduplicating loses and adds no key. */
  predicate SameKeys(r: seq<ColumnInfo>, cols: seq<ColumnInfo>, key: ColumnInfo -> string) {
    KeysOf(r, key) == KeysOf(cols, key)
  }

  /** No two elements share a key. */
  predicate UniqueKeys(r: seq<ColumnInfo>, key: ColumnInfo -> string) {
    forall i, j :: 0 <= i < j < |r| ==> key(r[i]) != key(r[j])
  }

  /** Each element is the merge of the columns of its key. */
  predicate AllMerged(r: seq<ColumnInfo>, cols: seq<ColumnInfo>, key: ColumnInfo -> string) {
    forall i :: 0 <= i < |r| ==> key(r[i]) in KeysOf(cols, key) && r[i] == Merged(cols, key, key(r[i]))
  }

  /** The key is read from the names only, so merging flags does not move a column to another key. */
  ghost predicate KeyIgnoresFlags(key: ColumnInfo -> string) {
    forall a, c :: key(MergeFlags(a, c)) == key(a)
  }

  /** The three facts MergeColumnsMeaning states, for a result r of deduplicating cols. */
  predicate MergedFrom(r: seq<ColumnInfo>, cols: seq<ColumnInfo>, key: ColumnInfo -> string) {
    SameKeys(r, cols, key) && UniqueKeys(r, key) && AllMerged(r, cols, key)
  }

  lemma SnocSameKeys(r0: seq<ColumnInfo>, init: seq<ColumnInfo>, c: ColumnInfo, key: ColumnInfo -> string)
    requires SameKeys(r0, init, key)
    ensures SameKeys(r0 + [c], init + [c], key)
  {
    KeysOfSnoc(init, c, key);
    KeysOfSnoc(r0, c, key);
  }

  lemma SnocUniqueKeys(r0: seq<ColumnInfo>, c: ColumnInfo, key: ColumnInfo -> string)
    requires UniqueKeys(r0, key) && FirstWithKey(r0, key, key(c)) == |r0|
    ensures UniqueKeys(r0 + [c], key)
  {
  }

  lemma SnocAllMerged(r0: seq<ColumnInfo>, init: seq<ColumnInfo>, c: ColumnInfo, key: ColumnInfo -> string)
    requires AllMerged(r0, init, key) && key(c) !in KeysOf(init, key)
    ensures AllMerged(r0 + [c], init + [c], key)
  {
    var cols := init + [c];
    var r := r0 + [c];
    assert cols[..|cols| - 1] == init;
    MergedSnocNew(cols, key);
    forall i | 0 <= i < |r0|
      ensures key(r[i]) in KeysOf(cols, key) && r[i] == Merged(cols, key, key(r[i]))
    {
      assert r[i] == r0[i];
      MergedSnocOther(cols, key, key(r0[i]));
    }
  }

  lemma UpdateSameKeys(r0: seq<ColumnInfo>, init: seq<ColumnInfo>, c: ColumnInfo, key: ColumnInfo -> string, idx: nat)
    requires SameKeys(r0, init, key) && idx < |r0| && key(r0[idx]) == key(c) && KeyIgnoresFlags(key)
    ensures SameKeys(r0[idx := MergeFlags(r0[idx], c)], init + [c], key)
  {
    var r := r0[idx := MergeFlags(r0[idx], c)];
    KeysOfSnoc(init, c, key);
    assert forall i :: 0 <= i < |r| ==> key(r[i]) == key(r0[i]);
    assert KeysOf(r, key) == KeysOf(r0, key);
  }

  lemma UpdateUniqueKeys(r0: seq<ColumnInfo>, c: ColumnInfo, key: ColumnInfo -> string, idx: nat)
    requires UniqueKeys(r0, key) && idx < |r0| && key(r0[idx]) == key(c) && KeyIgnoresFlags(key)
    ensures UniqueKeys(r0[idx := MergeFlags(r0[idx], c)], key)
  {
    var r := r0[idx := MergeFlags(r0[idx], c)];
    assert forall i :: 0 <= i < |r| ==> key(r[i]) == key(r0[i]);
  }

  lemma UpdateAllMerged(r0: seq<ColumnInfo>, init: seq<ColumnInfo>, c: ColumnInfo, key: ColumnInfo -> string, idx: nat)
    requires AllMerged(r0, init, key) && UniqueKeys(r0, key) && idx < |r0| && key(r0[idx]) == key(c)
    requires KeyIgnoresFlags(key)
    ensures AllMerged(r0[idx := MergeFlags(r0[idx], c)], init + [c], key)
  {
    var cols := init + [c];
    var r := r0[idx := MergeFlags(r0[idx], c)];
    assert cols[..|cols| - 1] == init;
    forall i | 0 <= i < |r|
      ensures key(r[i]) in KeysOf(cols, key) && r[i] == Merged(cols, key, key(r[i]))
    {
      MergedSnocOther(cols, key, key(r0[i]));
    }
  }

  /**
    Column deduplication keeps one column per key, loses no key, and each
    kept column is the first of its key with the flags OR-ed over all of
    its duplicates.
   */
  lemma {:induction false} MergeColumnsMeaning(cols: seq<ColumnInfo>, key: ColumnInfo -> string)
    requires KeyIgnoresFlags(key)
    ensures MergedFrom(MergeColumns(cols, key), cols, key)
    ensures InFirstOccurrenceOrder(MergeColumns(cols, key), cols, key)
  {
    if cols != [] {
      var init := cols[..|cols| - 1];
      var c := cols[|cols| - 1];
      assert cols == init + [c];
      var r0 := MergeColumns(init, key);
      MergeColumnsMeaning(init, key);
      var idx := FirstWithKey(r0, key, key(c));
      if idx == |r0| {
        SnocSameKeys(r0, init, c, key);
        SnocUniqueKeys(r0, c, key);
        SnocAllMerged(r0, init, c, key);
        OrderSnocNew(r0, init, c, key);
      } else {
        UpdateSameKeys(r0, init, c, key, idx);
        UpdateUniqueKeys(r0, c, key, idx);
        UpdateAllMerged(r0, init, c, key, idx);
        OrderSnocKeep(r0, init, c, key);
        OrderUpdate(r0, cols, key, idx, MergeFlags(r0[idx], c));
      }
    }
  }

  /** The order depends on the keys only, so merging flags into a column keeps it. */
  lemma OrderUpdate(r: seq<ColumnInfo>, xs: seq<ColumnInfo>, key: ColumnInfo -> string, idx: nat, v: ColumnInfo)
    requires InFirstOccurrenceOrder(r, xs, key) && idx < |r| && key(v) == key(r[idx])
    ensures InFirstOccurrenceOrder(r[idx := v], xs, key)
  {
    var r' := r[idx := v];
    assert forall i :: 0 <= i < |r| ==> key(r'[i]) == key(r[i]);
  }

  lemma FirstWithKeyUpdate(r: seq<ColumnInfo>, key: ColumnInfo -> string, idx: nat, v: ColumnInfo, k: string)
    requires idx < |r| && key(v) == key(r[idx])
    ensures FirstWithKey(r[idx := v], key, k) == FirstWithKey(r, key, k)
  {
    var r' := r[idx := v];
    assert forall j :: 0 <= j < |r| ==> key(r'[j]) == key(r[j]);
  }

  lemma FirstWithKeyAppend(r: seq<ColumnInfo>, key: ColumnInfo -> string, c: ColumnInfo, k: string)
    ensures FirstWithKey(r + [c], key, k) ==
      if FirstWithKey(r, key, k) < |r| then FirstWithKey(r, key, k)
      else if key(c) == k then |r| else |r| + 1
  {
    assert (r + [c])[..|r|] == r;
  }

  /** `colSeen` maps exactly the keys present in `out` to their positions. */
  ghost predicate SeenIndex(out: seq<ColumnInfo>, key: ColumnInfo -> string, colSeen: map<string, nat>) {
    && (forall k :: k in colSeen <==> FirstWithKey(out, key, k) < |out|)
    && (forall k :: k in colSeen ==> colSeen[k] == FirstWithKey(out, key, k))
  }

  lemma SeenIndexAppend(out: seq<ColumnInfo>, key: ColumnInfo -> string, colSeen: map<string, nat>, c: ColumnInfo)
    requires SeenIndex(out, key, colSeen) && key(c) !in colSeen
    ensures SeenIndex(out + [c], key, colSeen[key(c) := |out|])
  {
    forall k' ensures FirstWithKey(out + [c], key, k') ==
      if FirstWithKey(out, key, k') < |out| then FirstWithKey(out, key, k')
      else if key(c) == k' then |out| else |out| + 1
    {
      FirstWithKeyAppend(out, key, c, k');
    }
  }

  lemma SeenIndexUpdate(out: seq<ColumnInfo>, key: ColumnInfo -> string, colSeen: map<string, nat>, idx: nat, v: ColumnInfo)
    requires SeenIndex(out, key, colSeen) && idx < |out| && key(v) == key(out[idx])
    ensures SeenIndex(out[idx := v], key, colSeen)
  {
    forall k' ensures FirstWithKey(out[idx := v], key, k') == FirstWithKey(out, key, k') {
      FirstWithKeyUpdate(out, key, idx, v, k');
    }
  }

  /** The `colSeen` loop: the first column of each key is copied, later ones only OR their flags into it. */
  method DedupColumns(cols: seq<ColumnInfo>) returns (out: seq<ColumnInfo>)
    ensures out == MergeColumns(cols, ColumnKey)
  {
    out := [];
    var colSeen: map<string, nat> := map[];
    for i := 0 to |cols|
      invariant out == MergeColumns(cols[..i], ColumnKey)
      invariant SeenIndex(out, ColumnKey, colSeen)
    {
      var c := cols[i];
      var k := ColumnKeyLc(c.schemaName, c.tableName, c.columnName);
      ghost var step := cols[..i + 1];
      assert step[..|step| - 1] == cols[..i] && step[|step| - 1] == c;
      assert k == ColumnKey(c);
      ghost var f := FirstWithKey(out, ColumnKey, k);
      assert MergeColumns(step, ColumnKey) == if f == |out| then out + [c] else out[f := MergeFlags(out[f], c)];
      if k !in colSeen {
        assert f == |out|;
        SeenIndexAppend(out, ColumnKey, colSeen, c);
        colSeen := colSeen[k := |out|];
        out := out + [c];
      } else {
        var idx := colSeen[k];
        assert idx == f;
        var merged := out[idx].(isPrimaryKey := out[idx].isPrimaryKey || c.isPrimaryKey,
                                isNullable := out[idx].isNullable || c.isNullable);
        assert merged == MergeFlags(out[f], c);
        SeenIndexUpdate(out, ColumnKey, colSeen, idx, merged);
        out := out[idx := merged];
      }
    }
    assert cols[..|cols|] == cols;
  }

  /**
    After column deduplication every case-insensitive column key appears
    once, none is lost, and each kept column is the first of its key with
    `isPrimaryKey` and `isNullable` OR-ed over all of its duplicates.
   */
  lemma DedupColumnsMeaning(cols: seq<ColumnInfo>)
    ensures MergedFrom(MergeColumns(cols, ColumnKey), cols, ColumnKey)
    ensures InFirstOccurrenceOrder(MergeColumns(cols, ColumnKey), cols, ColumnKey)
  {
    assert KeyIgnoresFlags(ColumnKey);
    MergeColumnsMeaning(cols, ColumnKey);
  }

  // ---------------------------------------------------------------------
  // Business names proposed by the LLM
  // ---------------------------------------------------------------------

  /** `ColumnBiz` */
  datatype ColumnBiz = ColumnBiz(name: Option<string>, description: Option<string>)

  /** `TableBiz`; `columns` is keyed by the original column name. */
  datatype TableBiz = TableBiz(businessName: Option<string>, description: Option<string>, columns: map<string, ColumnBiz>)

  const NoBiz: TableBiz := TableBiz(None, None, map[])

  /** `typeof v.k === 'string' ? v.k : undefined` */
  function StrProp(v: JsValue, k: string): Option<string> {
    var p := WorkspacesUtil.Prop(v, k);
    if p.Str? then Some(p.s) else None
  }

  /** The entry a `columns` item yields, when its `columnName` is a non-empty string. */
  function ColumnEntry(col: JsValue): Option<(string, ColumnBiz)> {
    var cname := StrProp(col, "columnName");
    if cname.Some? && cname.value != "" then
      Some((cname.value, ColumnBiz(StrProp(col, "businessName"), StrProp(col, "description"))))
    else None
  }

  /** A map built by setting each item's entry in turn, so a later item overwrites an earlier one of the same name. */
  function LastEntries<V>(items: seq<JsValue>, entry: JsValue -> Option<(string, V)>): map<string, V> {
    if items == [] then map[]
    else
      var m := LastEntries(items[..|items| - 1], entry);
      var e := entry(items[|items| - 1]);
      if e.Some? then m[e.value.0 := e.value.1] else m
  }

  /** `columnBusiness` after the loop over `obj.columns`. */
  function ColumnEntries(items: seq<JsValue>): map<string, ColumnBiz> {
    LastEntries(items, ColumnEntry)
  }

  /** What a parsed reply names: nothing unless it is an object. */
  function BizFromJson(parsed: Option<JsValue>): TableBiz {
    if parsed.None? || !WorkspacesUtil.IsObjectLike(parsed.value) then NoBiz
    else
      var obj := parsed.value;
      var t := WorkspacesUtil.Prop(obj, "table");
      var cols := WorkspacesUtil.Prop(obj, "columns");
      TableBiz(
        if WorkspacesUtil.IsObjectLike(t) then StrProp(t, "businessName") else None,
        if WorkspacesUtil.IsObjectLike(t) then StrProp(t, "description") else None,
        if cols.Arr? then ColumnEntries(cols.items) else map[])
  }

  /**
    The business names of one table, from the LLM reply (`None` when the
    completion failed or had no text). A failed parse is swallowed.
   */
  function TableBusiness(reply: Option<string>, b: Builtins): TableBiz {
    if reply.None? || reply.value == "" then NoBiz
    else BizFromJson(b.parse(WorkspacesUtil.CleanMarkdownJson(reply.value)))
  }

  /** Item i yields an entry for `name`. */
  predicate Names<V>(items: seq<JsValue>, entry: JsValue -> Option<(string, V)>, i: int, name: string)
    requires 0 <= i < |items|
  {
    entry(items[i]).Some? && entry(items[i]).value.0 == name
  }

  /** Item i is the last one that yields an entry for `name`. */
  predicate LastNaming<V>(items: seq<JsValue>, entry: JsValue -> Option<(string, V)>, i: int, name: string)
    requires 0 <= i < |items|
  {
    Names(items, entry, i, name) && forall j :: i < j < |items| ==> !Names(items, entry, j, name)
  }

  lemma {:induction false} LastEntriesMeaning<V>(items: seq<JsValue>, entry: JsValue -> Option<(string, V)>, name: string)
    ensures name in LastEntries(items, entry) <==> exists i :: 0 <= i < |items| && Names(items, entry, i, name)
    ensures name in LastEntries(items, entry) ==>
      exists i :: 0 <= i < |items| && LastNaming(items, entry, i, name) && entry(items[i]).value.1 == LastEntries(items, entry)[name]
  {
    if items != [] {
      var n := |items| - 1;
      var init := items[..n];
      LastEntriesMeaning(init, entry, name);
      assert forall i :: 0 <= i < n ==> init[i] == items[i];
      assert forall i :: 0 <= i < n ==> Names(init, entry, i, name) == Names(items, entry, i, name);
      if Names(items, entry, n, name) {
        assert LastNaming(items, entry, n, name);
      } else if name in LastEntries(items, entry) {
        assert LastEntries(items, entry)[name] == LastEntries(init, entry)[name];
        var i :| 0 <= i < n && LastNaming(init, entry, i, name) && entry(init[i]).value.1 == LastEntries(init, entry)[name];
        assert LastNaming(items, entry, i, name);
      }
    }
  }

  /**
    A column name has an entry exactly when some item of `columns` carries
    it as a non-empty string `columnName`, and the entry is read from the
    last such item.
   */
  lemma ColumnEntriesMeaning(items: seq<JsValue>, name: string)
    ensures name in ColumnEntries(items) <==>
      exists i :: 0 <= i < |items| && StrProp(items[i], "columnName") == Some(name) && name != ""
    ensures name in ColumnEntries(items) ==>
      exists i :: && 0 <= i < |items| && StrProp(items[i], "columnName") == Some(name)
                  && ColumnEntries(items)[name] == ColumnBiz(StrProp(items[i], "businessName"), StrProp(items[i], "description"))
                  && forall j :: i < j < |items| ==> StrProp(items[j], "columnName") != Some(name)
  {
    LastEntriesMeaning(items, ColumnEntry, name);
    forall i | 0 <= i < |items|
      ensures Names(items, ColumnEntry, i, name) <==> StrProp(items[i], "columnName") == Some(name) && name != ""
    {
    }
    if name in ColumnEntries(items) {
      var i :| 0 <= i < |items| && LastNaming(items, ColumnEntry, i, name) && ColumnEntry(items[i]).value.1 == ColumnEntries(items)[name];
      assert StrProp(items[i], "columnName") == Some(name);
    }
  }

  /** An item without a non-empty string `columnName` is skipped. */
  lemma UnnamedColumnIgnored(items: seq<JsValue>, col: JsValue)
    requires !StrProp(col, "columnName").Some? || StrProp(col, "columnName").value == ""
    ensures ColumnEntries(items + [col]) == ColumnEntries(items)
  {
    assert (items + [col])[..|items|] == items;
  }

  /** The loop over the `columns` array of a parsed reply. */
  method ReadColumnEntries(items: seq<JsValue>) returns (columnBusiness: map<string, ColumnBiz>)
    ensures columnBusiness == ColumnEntries(items)
  {
    columnBusiness := map[];
    for i := 0 to |items|
      invariant columnBusiness == ColumnEntries(items[..i])
    {
      assert items[..i + 1][..i] == items[..i];
      var col := items[i];
      var cnameProp := WorkspacesUtil.Prop(col, "columnName");
      if cnameProp.Str? && cnameProp.s != "" {
        var bn := WorkspacesUtil.Prop(col, "businessName");
        var ds := WorkspacesUtil.Prop(col, "description");
        var entry := ColumnBiz(if bn.Str? then Some(bn.s) else None, if ds.Str? then Some(ds.s) else None);
        columnBusiness := columnBusiness[cnameProp.s := entry];
      }
    }
    assert items[..|items|] == items;
  }

  /** A reply that does not parse, or parses to something other than an object, leaves the table unnamed. */
  lemma UnparsableReplyIgnored(reply: string, b: Builtins)
    requires var p := b.parse(WorkspacesUtil.CleanMarkdownJson(reply)); p.None? || !WorkspacesUtil.IsObjectLike(p.value)
    ensures TableBusiness(Some(reply), b) == NoBiz
  {
  }

  /** A reply fenced as a JSON code block is parsed from its trimmed body. */
  lemma FencedReplyParsesBody(body: string, b: Builtins)
    ensures TableBusiness(Some("```json\n" + body + "\n```"), b) == BizFromJson(b.parse(Trim(body)))
  {
    var reply := "```json\n" + body + "\n```";
    assert reply != "" by { assert reply[0] == '`'; }
    WorkspacesUtil.CleanLowerCaseFence(reply, body);
  }

  /** The parse of one reply: the statements inside the `if (txt)` of the per-table loop. */
  method ReadBusinessNames(reply: Option<string>, b: Builtins) returns (biz: TableBiz)
    ensures biz == TableBusiness(reply, b)
  {
    biz := NoBiz;
    if reply.Some? && reply.value != "" {
      var parsed := b.parse(WorkspacesUtil.CleanMarkdownJson(reply.value));
      if parsed.Some? && WorkspacesUtil.IsObjectLike(parsed.value) {
        var obj := parsed.value;
        var tInfo := WorkspacesUtil.Prop(obj, "table");
        if WorkspacesUtil.IsObjectLike(tInfo) {
          biz := biz.(businessName := StrProp(tInfo, "businessName"), description := StrProp(tInfo, "description"));
        }
        var cols := WorkspacesUtil.Prop(obj, "columns");
        if cols.Arr? {
          var columnBusiness := ReadColumnEntries(cols.items);
          biz := biz.(columns := columnBusiness);
        }
      }
    }
  }

  // ---------------------------------------------------------------------
  // Business names of every table
  // ---------------------------------------------------------------------

  /**
    The completion for one table, given the table and its columns (the
    prompt is built from them). `None` stands for a failed call or a reply
    without text.
   */
  type Replies = (TableInfo, seq<ColumnInfo>) -> Option<string>

  /** `colsForTable`: the columns whose schema and table names match exactly. */
  function ColumnsOf(cols: seq<ColumnInfo>, t: TableInfo): (r: seq<ColumnInfo>)
    ensures forall c :: c in r <==> c in cols && c.schemaName == t.schemaName && c.tableName == t.tableName
  {
    if cols == [] then []
    else
      var r := ColumnsOf(cols[..|cols| - 1], t);
      var c := cols[|cols| - 1];
      assert forall x :: x in cols <==> x in cols[..|cols| - 1] || x == c;
      if c.schemaName == t.schemaName && c.tableName == t.tableName then r + [c] else r
  }

  function ExactKey(t: TableInfo): string { ExactTableKey(t.schemaName, t.tableName) }

  /** A map filled by setting one entry per element, in order. */
  function PerKey<T, V>(xs: seq<T>, key: T -> string, value: T -> V): map<string, V> {
    if xs == [] then map[]
    else PerKey(xs[..|xs| - 1], key, value)[key(xs[|xs| - 1]) := value(xs[|xs| - 1])]
  }

  /** With distinct keys, no entry is overwritten: each element finds its own value. */
  lemma {:induction false} PerKeyMeaning<T, V>(xs: seq<T>, key: T -> string, value: T -> V)
    requires forall i, j :: 0 <= i < j < |xs| ==> key(xs[i]) != key(xs[j])
    ensures PerKey(xs, key, value).Keys == KeysOf(xs, key)
    ensures forall i :: 0 <= i < |xs| ==> PerKey(xs, key, value)[key(xs[i])] == value(xs[i])
  {
    if xs != [] {
      var init := xs[..|xs| - 1];
      var last := xs[|xs| - 1];
      assert forall i :: 0 <= i < |init| ==> init[i] == xs[i];
      PerKeyMeaning(init, key, value);
      KeysOfSnoc(init, last, key);
      assert xs == init + [last];
    }
  }

  /** What the reply for table t names. */
  function TableReply(t: TableInfo, cols: seq<ColumnInfo>, replies: Replies, b: Builtins): TableBiz {
    TableBusiness(replies(t, ColumnsOf(cols, t)), b)
  }

  /** `tableBizMap`, keyed by the exact-case `schema.table`. */
  function BizMap(tables: seq<TableInfo>, cols: seq<ColumnInfo>, replies: Replies, b: Builtins): map<string, TableBiz> {
    PerKey(tables, ExactKey, t => TableReply(t, cols, replies, b))
  }

  /** The case-insensitive key of a table is the lower-cased exact key, so equal exact keys mean equal keys. */
  lemma ExactKeyDeterminesKey(t: TableInfo, u: TableInfo)
    requires ExactKey(t) == ExactKey(u)
    ensures TableKey(t) == TableKey(u)
  {
  }

  /**
    After deduplication every table has its own entry: the business names
    read from the reply for that table and its exact-case columns.
   */
  lemma BizMapMeaning(tables: seq<TableInfo>, cols: seq<ColumnInfo>, replies: Replies, b: Builtins)
    requires forall i, j :: 0 <= i < j < |tables| ==> TableKey(tables[i]) != TableKey(tables[j])
    ensures BizMap(tables, cols, replies, b).Keys == KeysOf(tables, ExactKey)
    ensures forall i :: 0 <= i < |tables| ==>
      BizMap(tables, cols, replies, b)[ExactKey(tables[i])] == TableReply(tables[i], cols, replies, b)
  {
    forall i, j | 0 <= i < j < |tables|
      ensures ExactKey(tables[i]) != ExactKey(tables[j])
    {
      if ExactKey(tables[i]) == ExactKey(tables[j]) {
        ExactKeyDeterminesKey(tables[i], tables[j]);
      }
    }
    PerKeyMeaning(tables, ExactKey, t => TableReply(t, cols, replies, b));
  }

  /**
    A failed or unreadable reply for one table affects no other table: two
    runs whose replies agree on table t give t the same entry.
   */
  lemma OtherTablesUnaffected(tables: seq<TableInfo>, cols: seq<ColumnInfo>, replies: Replies, replies': Replies,
                              b: Builtins, i: nat)
    requires forall i, j :: 0 <= i < j < |tables| ==> TableKey(tables[i]) != TableKey(tables[j])
    requires i < |tables|
    requires replies(tables[i], ColumnsOf(cols, tables[i])) == replies'(tables[i], ColumnsOf(cols, tables[i]))
    ensures ExactKey(tables[i]) in BizMap(tables, cols, replies, b) && ExactKey(tables[i]) in BizMap(tables, cols, replies', b)
    ensures BizMap(tables, cols, replies, b)[ExactKey(tables[i])] == BizMap(tables, cols, replies', b)[ExactKey(tables[i])]
  {
    BizMapMeaning(tables, cols, replies, b);
    BizMapMeaning(tables, cols, replies', b);
  }

  /** The per-table loop that asks for and reads business names. */
  method BuildBizMap(tables: seq<TableInfo>, cols: seq<ColumnInfo>, replies: Replies, b: Builtins)
    returns (tableBizMap: map<string, TableBiz>)
    ensures tableBizMap == BizMap(tables, cols, replies, b)
  {
    tableBizMap := map[];
    for i := 0 to |tables|
      invariant tableBizMap == BizMap(tables[..i], cols, replies, b)
    {
      assert tables[..i + 1][..i] == tables[..i];
      var t := tables[i];
      var colsForTable := ColumnsOf(cols, t);
      var biz := ReadBusinessNames(replies(t, colsForTable), b);
      assert biz == TableReply(t, cols, replies, b);
      tableBizMap := tableBizMap[t.schemaName + "." + t.tableName := biz];
    }
    assert tables[..|tables|] == tables;
  }

  // ---------------------------------------------------------------------
  // The snapshot written in the transaction
  // ---------------------------------------------------------------------

  /** A `DataTable` row. */
  datatype StoredTable = StoredTable(
    id: nat, schemaName: string, tableName: string, businessName: Option<string>, description: Option<string>)

  /** A `DataColumn` row. */
  datatype StoredColumn = StoredColumn(
    id: nat, tableId: nat, columnName: string, dataType: string, isNullable: bool, isPrimaryKey: bool,
    businessName: Option<string>, description: Option<string>)

  /** A `ForeignKey` row. */
  datatype StoredFk = StoredFk(
    fromTableId: nat, fromColumnId: nat, toTableId: nat, toColumnId: nat, constraintName: Option<string>)

  /** What a workspace's ingestion leaves in the database. */
  datatype Snapshot = Snapshot(tables: seq<StoredTable>, columns: seq<StoredColumn>, fks: seq<StoredFk>)

  const EmptySnapshot: Snapshot := Snapshot([], [], [])

  /** The ids handed out in order from `firstId`, recorded per key (`tableMap`, `columnKeyToId`). */
  function IdMap<T>(xs: seq<T>, key: T -> string, firstId: nat): map<string, nat> {
    if xs == [] then map[]
    else IdMap(xs[..|xs| - 1], key, firstId)[key(xs[|xs| - 1]) := firstId + |xs| - 1]
  }

  /** With distinct keys, the i-th element's key maps to the i-th id, and nothing else is mapped. */
  lemma {:induction false} IdMapMeaning<T>(xs: seq<T>, key: T -> string, firstId: nat)
    requires forall i, j :: 0 <= i < j < |xs| ==> key(xs[i]) != key(xs[j])
    ensures IdMap(xs, key, firstId).Keys == KeysOf(xs, key)
    ensures forall i :: 0 <= i < |xs| ==> IdMap(xs, key, firstId)[key(xs[i])] == firstId + i
  {
    if xs != [] {
      var init := xs[..|xs| - 1];
      var last := xs[|xs| - 1];
      assert forall i, j :: 0 <= i < j < |init| ==> key(init[i]) != key(init[j]) by {
        assert forall i :: 0 <= i < |init| ==> init[i] == xs[i];
      }
      IdMapMeaning(init, key, firstId);
      KeysOfSnoc(init, last, key);
      assert xs == init + [last];
      var m := IdMap(xs, key, firstId);
      assert m == IdMap(init, key, firstId)[key(last) := firstId + |xs| - 1];
      forall i | 0 <= i < |xs|
        ensures m[key(xs[i])] == firstId + i
      {
        if i < |init| {
          assert init[i] == xs[i] && key(xs[i]) != key(last);
        }
      }
    }
  }

  /** Every id in an id map is one of the ids handed out, to an element of that key. */
  lemma {:induction false} IdMapValues<T>(xs: seq<T>, key: T -> string, firstId: nat, k: string)
    requires k in IdMap(xs, key, firstId)
    ensures exists i :: 0 <= i < |xs| && key(xs[i]) == k && IdMap(xs, key, firstId)[k] == firstId + i
  {
    var init := xs[..|xs| - 1];
    if key(xs[|xs| - 1]) != k {
      IdMapValues(init, key, firstId, k);
      var i :| 0 <= i < |init| && key(init[i]) == k && IdMap(init, key, firstId)[k] == firstId + i;
      assert init[i] == xs[i];
    }
  }

  /** `map.get(k)` followed by the `!id` test: a missing key and id 0 both read as 0. */
  function IdOf(m: map<string, nat>, k: string): nat {
    if k in m then m[k] else 0
  }

  function TableBizOf(biz: map<string, TableBiz>, schema: string, table: string): TableBiz {
    var k := ExactTableKey(schema, table);
    if k in biz then biz[k] else NoBiz
  }

  /** The `dataTable.create` of one table. */
  function TableRow(t: TableInfo, id: nat, biz: map<string, TableBiz>): StoredTable {
    var bz := TableBizOf(biz, t.schemaName, t.tableName);
    StoredTable(id, t.schemaName, t.tableName, bz.businessName, bz.description)
  }

  function TableRows(tables: seq<TableInfo>, firstId: nat, biz: map<string, TableBiz>): (r: seq<StoredTable>)
    ensures |r| == |tables|
    ensures forall i :: 0 <= i < |tables| ==> r[i] == TableRow(tables[i], firstId + i, biz)
  {
    seq(|tables|, i requires 0 <= i < |tables| => TableRow(tables[i], firstId + i, biz))
  }

  /** A column is written when its table, matched case-insensitively, received an id. */
  predicate Resolves(c: ColumnInfo, tableIds: map<string, nat>) {
    IdOf(tableIds, TableKeyLc(c.schemaName, c.tableName)) != 0
  }

  /** The columns that pass the `if (!tableId) continue` test, in order. */
  function Written(cols: seq<ColumnInfo>, tableIds: map<string, nat>): (r: seq<ColumnInfo>)
    ensures |r| <= |cols|
    ensures forall i :: 0 <= i < |r| ==> Resolves(r[i], tableIds)
  {
    if cols == [] then []
    else
      var r := Written(cols[..|cols| - 1], tableIds);
      var c := cols[|cols| - 1];
      if Resolves(c, tableIds) then r + [c] else r
  }

  /** Exactly the columns whose table key resolves are written. */
  lemma {:induction false} WrittenMembers(cols: seq<ColumnInfo>, tableIds: map<string, nat>)
    ensures forall c :: c in Written(cols, tableIds) <==> c in cols && Resolves(c, tableIds)
  {
    if cols != [] {
      var init := cols[..|cols| - 1];
      WrittenMembers(init, tableIds);
      assert cols == init + [cols[|cols| - 1]];
    }
  }

  /**
    The `dataColumn.upsert` of one column. Its business names are looked up
    under the column's exact-case table key and column name.
   */
  function ColumnRow(c: ColumnInfo, id: nat, tableIds: map<string, nat>, biz: map<string, TableBiz>): StoredColumn {
    var bz := TableBizOf(biz, c.schemaName, c.tableName);
    var colBiz := if c.columnName in bz.columns then bz.columns[c.columnName] else ColumnBiz(None, None);
    StoredColumn(id, IdOf(tableIds, TableKeyLc(c.schemaName, c.tableName)), c.columnName, c.dataType,
                 c.isNullable, c.isPrimaryKey, colBiz.name, colBiz.description)
  }

  function ColumnRows(written: seq<ColumnInfo>, firstId: nat, tableIds: map<string, nat>, biz: map<string, TableBiz>): (r: seq<StoredColumn>)
    ensures |r| == |written|
    ensures forall i {:trigger r[i]} :: 0 <= i < |written| ==> r[i] == ColumnRow(written[i], firstId + i, tableIds, biz)
  {
    seq(|written|, i requires 0 <= i < |written| => ColumnRow(written[i], firstId + i, tableIds, biz))
  }

  /** The `foreignKey.upsert` of one foreign key, unless one of its four ids is missing. */
  function FkRow(f: FkInfo, tableIds: map<string, nat>, columnIds: map<string, nat>): (r: Option<StoredFk>)
    ensures r.Some? <==>
      && IdOf(tableIds, TableKeyLc(f.fromSchema, f.fromTable)) != 0
      && IdOf(tableIds, TableKeyLc(f.toSchema, f.toTable)) != 0
      && IdOf(columnIds, ColumnKeyLc(f.fromSchema, f.fromTable, f.fromColumn)) != 0
      && IdOf(columnIds, ColumnKeyLc(f.toSchema, f.toTable, f.toColumn)) != 0
  {
    var fromTableId := IdOf(tableIds, TableKeyLc(f.fromSchema, f.fromTable));
    var toTableId := IdOf(tableIds, TableKeyLc(f.toSchema, f.toTable));
    var fromColumnId := IdOf(columnIds, ColumnKeyLc(f.fromSchema, f.fromTable, f.fromColumn));
    var toColumnId := IdOf(columnIds, ColumnKeyLc(f.toSchema, f.toTable, f.toColumn));
    if fromTableId == 0 || toTableId == 0 || fromColumnId == 0 || toColumnId == 0 then None
    else Some(StoredFk(fromTableId, fromColumnId, toTableId, toColumnId, f.constraintName))
  }

  function FkRows(fks: seq<FkInfo>, tableIds: map<string, nat>, columnIds: map<string, nat>): (r: seq<StoredFk>)
    ensures forall x :: x in r <==> exists f :: f in fks && FkRow(f, tableIds, columnIds) == Some(x)
  {
    if fks == [] then []
    else
      var r := FkRows(fks[..|fks| - 1], tableIds, columnIds);
      var f := fks[|fks| - 1];
      assert forall x :: x in fks <==> x in fks[..|fks| - 1] || x == f;
      var row := FkRow(f, tableIds, columnIds);
      if row.Some? then r + [row.value] else r
  }

  /** The deduplicated schema an ingestion writes. */
  datatype Deduped = Deduped(tables: seq<TableInfo>, columns: seq<ColumnInfo>, fks: seq<FkInfo>)

  function Dedup(meta: IntrospectedSchema): Deduped {
    Deduped(KeepFirst(meta.tables, TableKey), MergeColumns(meta.columns, ColumnKey), KeepFirst(meta.fks, FkFromKey))
  }

  /**
    Deduplication keeps one table per schema and name, one column per
    case-insensitive key (flags merged) and one foreign key per source column,
    each the first of its key and in input order, and loses no key.
   */
  lemma DedupMeaning(meta: IntrospectedSchema)
    ensures KeysOf(Dedup(meta).tables, TableKey) == KeysOf(meta.tables, TableKey)
    ensures forall i, j :: 0 <= i < j < |Dedup(meta).tables| ==>
      TableKey(Dedup(meta).tables[i]) != TableKey(Dedup(meta).tables[j])
    ensures InFirstOccurrenceOrder(Dedup(meta).tables, meta.tables, TableKey)
    ensures MergedFrom(Dedup(meta).columns, meta.columns, ColumnKey)
    ensures InFirstOccurrenceOrder(Dedup(meta).columns, meta.columns, ColumnKey)
    ensures KeysOf(Dedup(meta).fks, FkFromKey) == KeysOf(meta.fks, FkFromKey)
    ensures forall i, j :: 0 <= i < j < |Dedup(meta).fks| ==>
      FkFromKey(Dedup(meta).fks[i]) != FkFromKey(Dedup(meta).fks[j])
    ensures InFirstOccurrenceOrder(Dedup(meta).fks, meta.fks, FkFromKey)
  {
    KeepFirstMeaning(meta.tables, TableKey);
    DedupColumnsMeaning(meta.columns);
    KeepFirstMeaning(meta.fks, FkFromKey);
  }

  /**
    The whole of `ingestWorkspace` after the schema is read: deduplication,
    business names, then the tables, columns and foreign keys, with table
    and column ids handed out in order from `firstTableId` and
    `firstColumnId`.
   */
  function Ingest(meta: IntrospectedSchema, replies: Replies, b: Builtins, firstTableId: nat, firstColumnId: nat): Snapshot {
    var d := Dedup(meta);
    var biz := BizMap(d.tables, d.columns, replies, b);
    var tableIds := IdMap(d.tables, TableKey, firstTableId);
    var written := Written(d.columns, tableIds);
    var columnIds := IdMap(written, ColumnKey, firstColumnId);
    Snapshot(TableRows(d.tables, firstTableId, biz), ColumnRows(written, firstColumnId, tableIds, biz),
             FkRows(d.fks, tableIds, columnIds))
  }

  /** Every stored column belongs to a stored table. */
  predicate ColumnsBelong(s: Snapshot) {
    forall c :: c in s.columns ==> exists t :: t in s.tables && t.id == c.tableId
  }

  /** Every stored foreign key joins stored tables and columns. */
  predicate FksJoin(s: Snapshot) {
    forall f :: f in s.fks ==>
      && (exists t :: t in s.tables && t.id == f.fromTableId)
      && (exists t :: t in s.tables && t.id == f.toTableId)
      && (exists c :: c in s.columns && c.id == f.fromColumnId)
      && (exists c :: c in s.columns && c.id == f.toColumnId)
  }

  lemma TableIdStored(tables: seq<TableInfo>, firstId: nat, biz: map<string, TableBiz>, k: string)
    requires k in IdMap(tables, TableKey, firstId)
    ensures exists t :: t in TableRows(tables, firstId, biz) && t.id == IdMap(tables, TableKey, firstId)[k]
  {
    IdMapValues(tables, TableKey, firstId, k);
    var i :| 0 <= i < |tables| && TableKey(tables[i]) == k && IdMap(tables, TableKey, firstId)[k] == firstId + i;
    assert TableRows(tables, firstId, biz)[i].id == firstId + i;
  }

  lemma ColumnIdStored(written: seq<ColumnInfo>, firstId: nat, tableIds: map<string, nat>, biz: map<string, TableBiz>, k: string)
    requires k in IdMap(written, ColumnKey, firstId)
    ensures exists c :: c in ColumnRows(written, firstId, tableIds, biz) && c.id == IdMap(written, ColumnKey, firstId)[k]
  {
    IdMapValues(written, ColumnKey, firstId, k);
    var i :| 0 <= i < |written| && ColumnKey(written[i]) == k && IdMap(written, ColumnKey, firstId)[k] == firstId + i;
    assert ColumnRows(written, firstId, tableIds, biz)[i].id == firstId + i;
  }

  lemma ColumnsBelongToTables(tables: seq<TableInfo>, firstTableId: nat, cols: seq<ColumnInfo>, firstColumnId: nat,
                              biz: map<string, TableBiz>, fks: seq<StoredFk>)
    ensures var tableIds := IdMap(tables, TableKey, firstTableId);
      ColumnsBelong(Snapshot(TableRows(tables, firstTableId, biz),
                             ColumnRows(Written(cols, tableIds), firstColumnId, tableIds, biz), fks))
  {
    var tableIds := IdMap(tables, TableKey, firstTableId);
    var written := Written(cols, tableIds);
    var rows := ColumnRows(written, firstColumnId, tableIds, biz);
    forall c | c in rows
      ensures exists t :: t in TableRows(tables, firstTableId, biz) && t.id == c.tableId
    {
      var i :| 0 <= i < |rows| && rows[i] == c;
      assert Resolves(written[i], tableIds);
      TableIdStored(tables, firstTableId, biz, TableKeyLc(written[i].schemaName, written[i].tableName));
    }
  }

  lemma FksJoinStored(tables: seq<TableInfo>, firstTableId: nat, written: seq<ColumnInfo>, firstColumnId: nat,
                      biz: map<string, TableBiz>, fks: seq<FkInfo>)
    ensures var tableIds := IdMap(tables, TableKey, firstTableId);
      var columnIds := IdMap(written, ColumnKey, firstColumnId);
      FksJoin(Snapshot(TableRows(tables, firstTableId, biz), ColumnRows(written, firstColumnId, tableIds, biz),
                       FkRows(fks, tableIds, columnIds)))
  {
    var tableIds := IdMap(tables, TableKey, firstTableId);
    var columnIds := IdMap(written, ColumnKey, firstColumnId);
    forall x | x in FkRows(fks, tableIds, columnIds)
      ensures && (exists t :: t in TableRows(tables, firstTableId, biz) && t.id == x.fromTableId)
              && (exists t :: t in TableRows(tables, firstTableId, biz) && t.id == x.toTableId)
              && (exists c :: c in ColumnRows(written, firstColumnId, tableIds, biz) && c.id == x.fromColumnId)
              && (exists c :: c in ColumnRows(written, firstColumnId, tableIds, biz) && c.id == x.toColumnId)
    {
      var f :| f in fks && FkRow(f, tableIds, columnIds) == Some(x);
      TableIdStored(tables, firstTableId, biz, TableKeyLc(f.fromSchema, f.fromTable));
      TableIdStored(tables, firstTableId, biz, TableKeyLc(f.toSchema, f.toTable));
      ColumnIdStored(written, firstColumnId, tableIds, biz, ColumnKeyLc(f.fromSchema, f.fromTable, f.fromColumn));
      ColumnIdStored(written, firstColumnId, tableIds, biz, ColumnKeyLc(f.toSchema, f.toTable, f.toColumn));
    }
  }

  /**
    Referential integrity of a snapshot: table ids and column ids are
    handed out in order, every stored column belongs to a stored table and
    every stored foreign key joins stored tables and columns.
   */
  lemma IngestReferentialIntegrity(meta: IntrospectedSchema, replies: Replies, b: Builtins, firstTableId: nat, firstColumnId: nat)
    ensures var s := Ingest(meta, replies, b, firstTableId, firstColumnId);
      && (forall i :: 0 <= i < |s.tables| ==> s.tables[i].id == firstTableId + i)
      && (forall i :: 0 <= i < |s.columns| ==> s.columns[i].id == firstColumnId + i)
      && ColumnsBelong(s) && FksJoin(s)
  {
    var d := Dedup(meta);
    WrittenSnapshotIntegrity(d.tables, firstTableId, d.columns, firstColumnId, BizMap(d.tables, d.columns, replies, b), d.fks);
  }

  /** The same facts about the rows the three write loops produce from any table, column and key lists. */
  lemma WrittenSnapshotIntegrity(tables: seq<TableInfo>, firstTableId: nat, cols: seq<ColumnInfo>, firstColumnId: nat,
                                 biz: map<string, TableBiz>, fks: seq<FkInfo>)
    ensures var tableIds := IdMap(tables, TableKey, firstTableId);
      var written := Written(cols, tableIds);
      var s := Snapshot(TableRows(tables, firstTableId, biz), ColumnRows(written, firstColumnId, tableIds, biz),
                        FkRows(fks, tableIds, IdMap(written, ColumnKey, firstColumnId)));
      && (forall i :: 0 <= i < |s.tables| ==> s.tables[i].id == firstTableId + i)
      && (forall i :: 0 <= i < |s.columns| ==> s.columns[i].id == firstColumnId + i)
      && ColumnsBelong(s) && FksJoin(s)
  {
    var tableIds := IdMap(tables, TableKey, firstTableId);
    var written := Written(cols, tableIds);
    var columnIds := IdMap(written, ColumnKey, firstColumnId);
    ColumnsBelongToTables(tables, firstTableId, cols, firstColumnId, biz, FkRows(fks, tableIds, columnIds));
    FksJoinStored(tables, firstTableId, written, firstColumnId, biz, fks);
  }

  /**
    A deduplicated column is written exactly when some introspected table
    has its schema and table name, compared case-insensitively.
   */
  lemma ColumnWrittenIffTableKnown(meta: IntrospectedSchema, firstTableId: nat, c: ColumnInfo)
    requires firstTableId >= 1
    requires c in Dedup(meta).columns
    ensures c in Written(Dedup(meta).columns, IdMap(Dedup(meta).tables, TableKey, firstTableId)) <==>
      TableKeyLc(c.schemaName, c.tableName) in KeysOf(meta.tables, TableKey)
  {
    var d := Dedup(meta);
    var tableIds := IdMap(d.tables, TableKey, firstTableId);
    WrittenMembers(d.columns, tableIds);
    KeepFirstMeaning(meta.tables, TableKey);
    IdMapMeaning(d.tables, TableKey, firstTableId);
    var k := TableKeyLc(c.schemaName, c.tableName);
    if k in tableIds {
      IdMapValues(d.tables, TableKey, firstTableId, k);
    }
  }

  /**
    Business names are looked up by the column's exact-case schema and
    table: a column whose table is spelt differently from every
    deduplicated table is still written, without business names.
   */
  lemma CaseMismatchLosesBusinessNames(meta: IntrospectedSchema, replies: Replies, b: Builtins,
                                       firstTableId: nat, firstColumnId: nat, i: nat)
    requires i < |Ingest(meta, replies, b, firstTableId, firstColumnId).columns|
    requires var d := Dedup(meta);
      var c := Written(d.columns, IdMap(d.tables, TableKey, firstTableId))[i];
      forall t :: t in d.tables ==> ExactKey(t) != ExactTableKey(c.schemaName, c.tableName)
    ensures var col := Ingest(meta, replies, b, firstTableId, firstColumnId).columns[i];
      col.businessName.None? && col.description.None? && col.tableId != 0
  {
    var d := Dedup(meta);
    KeepFirstMeaning(meta.tables, TableKey);
    RowWithoutTableReply(d.tables, d.columns, replies, b, Written(d.columns, IdMap(d.tables, TableKey, firstTableId)),
                         firstColumnId, IdMap(d.tables, TableKey, firstTableId), i);
  }

  /** The column rows of the write loop, for a column whose exact-case table has no entry in the business names. */
  lemma RowWithoutTableReply(tables: seq<TableInfo>, cols: seq<ColumnInfo>, replies: Replies, b: Builtins,
                             written: seq<ColumnInfo>, firstId: nat, tableIds: map<string, nat>, i: nat)
    requires forall i, j :: 0 <= i < j < |tables| ==> TableKey(tables[i]) != TableKey(tables[j])
    requires i < |written| && Resolves(written[i], tableIds)
    requires forall t :: t in tables ==> ExactKey(t) != ExactTableKey(written[i].schemaName, written[i].tableName)
    ensures var col := ColumnRows(written, firstId, tableIds, BizMap(tables, cols, replies, b))[i];
      col.businessName.None? && col.description.None? && col.tableId != 0
  {
    var c := written[i];
    BizMapMeaning(tables, cols, replies, b);
    assert ExactTableKey(c.schemaName, c.tableName) !in BizMap(tables, cols, replies, b);
  }

  /**
    A column whose table matches a deduplicated table exactly carries the
    names the reply for that table gave under its exact column name.
   */
  lemma ColumnTakesTableReply(meta: IntrospectedSchema, replies: Replies, b: Builtins,
                              firstTableId: nat, firstColumnId: nat, i: nat, t: TableInfo)
    requires i < |Ingest(meta, replies, b, firstTableId, firstColumnId).columns|
    requires t in Dedup(meta).tables
    requires var d := Dedup(meta);
      var c := Written(d.columns, IdMap(d.tables, TableKey, firstTableId))[i];
      ExactKey(t) == ExactTableKey(c.schemaName, c.tableName)
    ensures var d := Dedup(meta);
      var c := Written(d.columns, IdMap(d.tables, TableKey, firstTableId))[i];
      var col := Ingest(meta, replies, b, firstTableId, firstColumnId).columns[i];
      var names := TableReply(t, d.columns, replies, b).columns;
      && (c.columnName in names ==> col.businessName == names[c.columnName].name && col.description == names[c.columnName].description)
      && (c.columnName !in names ==> col.businessName.None? && col.description.None?)
  {
    var d := Dedup(meta);
    KeepFirstMeaning(meta.tables, TableKey);
    RowWithTableReply(d.tables, d.columns, replies, b, Written(d.columns, IdMap(d.tables, TableKey, firstTableId)),
                      firstColumnId, IdMap(d.tables, TableKey, firstTableId), i, t);
  }

  /** The column rows of the write loop, for a column whose exact-case table is one of the tables. */
  lemma RowWithTableReply(tables: seq<TableInfo>, cols: seq<ColumnInfo>, replies: Replies, b: Builtins,
                          written: seq<ColumnInfo>, firstId: nat, tableIds: map<string, nat>, i: nat, t: TableInfo)
    requires forall i, j :: 0 <= i < j < |tables| ==> TableKey(tables[i]) != TableKey(tables[j])
    requires i < |written| && t in tables
    requires ExactKey(t) == ExactTableKey(written[i].schemaName, written[i].tableName)
    ensures var c := written[i];
      var col := ColumnRows(written, firstId, tableIds, BizMap(tables, cols, replies, b))[i];
      var names := TableReply(t, cols, replies, b).columns;
      && (c.columnName in names ==> col.businessName == names[c.columnName].name && col.description == names[c.columnName].description)
      && (c.columnName !in names ==> col.businessName.None? && col.description.None?)
  {
    BizMapMeaning(tables, cols, replies, b);
    var j :| 0 <= j < |tables| && tables[j] == t;
  }

  // ---------------------------------------------------------------------
  // The write loops
  // ---------------------------------------------------------------------

  lemma TableStep(tables: seq<TableInfo>, i: nat, rows: seq<StoredTable>, m: map<string, nat>,
                  biz: map<string, TableBiz>, firstId: nat)
    requires i < |tables|
    requires rows == TableRows(tables[..i], firstId, biz) && m == IdMap(tables[..i], TableKey, firstId)
    ensures rows + [TableRow(tables[i], firstId + i, biz)] == TableRows(tables[..i + 1], firstId, biz)
    ensures m[TableKeyLc(tables[i].schemaName, tables[i].tableName) := firstId + i] == IdMap(tables[..i + 1], TableKey, firstId)
  {
    assert tables[..i + 1] == tables[..i] + [tables[i]];
    IdMapSnoc(tables[..i], tables[i], TableKey, firstId);
  }

  /** The table loop: one `create` per table, its new id recorded under the lower-cased key in `tableMap`. */
  method WriteTables(tables: seq<TableInfo>, tableBizMap: map<string, TableBiz>, firstId: nat)
    returns (rows: seq<StoredTable>, tableMap: map<string, nat>)
    ensures rows == TableRows(tables, firstId, tableBizMap)
    ensures tableMap == IdMap(tables, TableKey, firstId)
  {
    rows := [];
    tableMap := map[];
    var nextId := firstId;
    for i := 0 to |tables|
      invariant nextId == firstId + i
      invariant rows == TableRows(tables[..i], firstId, tableBizMap)
      invariant tableMap == IdMap(tables[..i], TableKey, firstId)
    {
      var t := tables[i];
      var biz := TableBizOf(tableBizMap, t.schemaName, t.tableName);
      var tbl := StoredTable(nextId, t.schemaName, t.tableName, biz.businessName, biz.description);
      nextId := nextId + 1;
      TableStep(tables, i, rows, tableMap, tableBizMap, firstId);
      rows := rows + [tbl];
      tableMap := tableMap[TableKeyLc(t.schemaName, t.tableName) := tbl.id];
    }
    assert tables[..|tables|] == tables;
  }

  lemma WrittenSnoc(cols: seq<ColumnInfo>, i: nat, tableMap: map<string, nat>)
    requires i < |cols|
    ensures Written(cols[..i + 1], tableMap) ==
      if Resolves(cols[i], tableMap) then Written(cols[..i], tableMap) + [cols[i]] else Written(cols[..i], tableMap)
  {
    assert cols[..i + 1][..i] == cols[..i];
  }

  lemma ColumnRowsSnoc(w: seq<ColumnInfo>, c: ColumnInfo, firstId: nat, tableMap: map<string, nat>, biz: map<string, TableBiz>)
    ensures ColumnRows(w + [c], firstId, tableMap, biz) == ColumnRows(w, firstId, tableMap, biz) + [ColumnRow(c, firstId + |w|, tableMap, biz)]
  {
  }

  lemma IdMapSnoc<T>(xs: seq<T>, x: T, key: T -> string, firstId: nat)
    ensures IdMap(xs + [x], key, firstId) == IdMap(xs, key, firstId)[key(x) := firstId + |xs|]
  {
    assert (xs + [x])[..|xs|] == xs;
  }

  /** The column loop: columns of an unknown table are skipped, the others created with the next id. */
  method WriteColumns(cols: seq<ColumnInfo>, tableMap: map<string, nat>, tableBizMap: map<string, TableBiz>, firstId: nat)
    returns (rows: seq<StoredColumn>, columnKeyToId: map<string, nat>)
    ensures rows == ColumnRows(Written(cols, tableMap), firstId, tableMap, tableBizMap)
    ensures columnKeyToId == IdMap(Written(cols, tableMap), ColumnKey, firstId)
  {
    rows := [];
    columnKeyToId := map[];
    var nextId := firstId;
    ghost var written: seq<ColumnInfo> := [];
    for i := 0 to |cols|
      invariant written == Written(cols[..i], tableMap)
      invariant nextId == firstId + |written|
      invariant rows == ColumnRows(written, firstId, tableMap, tableBizMap)
      invariant columnKeyToId == IdMap(written, ColumnKey, firstId)
    {
      var c := cols[i];
      WrittenSnoc(cols, i, tableMap);
      var tableId := IdOf(tableMap, TableKeyLc(c.schemaName, c.tableName));
      if tableId != 0 {
        var col := ColumnRow(c, nextId, tableMap, tableBizMap);
        ColumnRowsSnoc(written, c, firstId, tableMap, tableBizMap);
        IdMapSnoc(written, c, ColumnKey, firstId);
        nextId := nextId + 1;
        rows := rows + [col];
        columnKeyToId := columnKeyToId[ColumnKey(c) := col.id];
        written := written + [c];
      }
    }
    assert cols[..|cols|] == cols;
  }

  /** The foreign-key loop: a key is written only when its two tables and two columns all have ids. */
  method WriteFks(fks: seq<FkInfo>, tableMap: map<string, nat>, columnKeyToId: map<string, nat>) returns (rows: seq<StoredFk>)
    ensures rows == FkRows(fks, tableMap, columnKeyToId)
  {
    rows := [];
    for i := 0 to |fks|
      invariant rows == FkRows(fks[..i], tableMap, columnKeyToId)
    {
      assert fks[..i + 1][..i] == fks[..i];
      var f := fks[i];
      var fromTableId := IdOf(tableMap, TableKeyLc(f.fromSchema, f.fromTable));
      var toTableId := IdOf(tableMap, TableKeyLc(f.toSchema, f.toTable));
      var fromColumnId := IdOf(columnKeyToId, ColumnKeyLc(f.fromSchema, f.fromTable, f.fromColumn));
      var toColumnId := IdOf(columnKeyToId, ColumnKeyLc(f.toSchema, f.toTable, f.toColumn));
      if fromTableId != 0 && toTableId != 0 && fromColumnId != 0 && toColumnId != 0 {
        rows := rows + [StoredFk(fromTableId, fromColumnId, toTableId, toColumnId, f.constraintName)];
      }
    }
    assert fks[..|fks|] == fks;
  }

  /** Deduplication, the business-name loop and the three write loops, in the order `ingestWorkspace` runs them. */
  method WriteSnapshot(meta: IntrospectedSchema, replies: Replies, b: Builtins, firstTableId: nat, firstColumnId: nat)
    returns (snapshot: Snapshot)
    ensures snapshot == Ingest(meta, replies, b, firstTableId, firstColumnId)
  {
    var dedupTables := DedupTables(meta.tables);
    var dedupColumns := DedupColumns(meta.columns);
    var dedupFks := DedupFks(meta.fks);
    var tableBizMap := BuildBizMap(dedupTables, dedupColumns, replies, b);
    var tables, tableMap := WriteTables(dedupTables, tableBizMap, firstTableId);
    var columns, columnKeyToId := WriteColumns(dedupColumns, tableMap, tableBizMap, firstColumnId);
    var fks := WriteFks(dedupFks, tableMap, columnKeyToId);
    snapshot := Snapshot(tables, columns, fks);
  }
}

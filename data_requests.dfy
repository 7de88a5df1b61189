/**
  The data-request pipeline of `DataRequestsService`: a natural-language
  prompt becomes SQL (from the LLM or a stub), the SQL passes the guard, runs
  against the workspace's data source, and the rows are limited, masked,
  renamed to business names and stored in columnar form.

  The metadata store, the LLM, the database drivers and the JSON built-ins
  are parameters; the guard and the result processing are the modelled ones.
 */
module DataRequests {
  import opened Wrappers
  import opened Text
  import opened Js
  import opened Status
  import SqlGuard
  import RP = ResultProcessing
  import Seqs

  /** A column of the workspace metadata. */
  datatype ColumnMeta = ColumnMeta(
    id: int, columnName: string, businessName: Option<string>, description: Option<string>)

  /** A table of the workspace metadata, with its columns. */
  datatype TableMeta = TableMeta(
    id: int, schemaName: string, tableName: string,
    businessName: Option<string>, description: Option<string>, columns: seq<ColumnMeta>)

  // ---------------------------------------------------------------------
  // generateSqlStub
  // ---------------------------------------------------------------------

  /** How many columns the stub selects. */
  const StubColumnLimit: nat := 5

  function QualifiedColumn(t: TableMeta, c: ColumnMeta): string {
    t.schemaName + "." + t.tableName + "." + c.columnName
  }

  function QualifiedColumns(t: TableMeta, cols: seq<ColumnMeta>): (r: seq<string>)
    ensures |r| == |cols|
    ensures forall i :: 0 <= i < |cols| ==> r[i] == QualifiedColumn(t, cols[i])
  {
    if cols == [] then [] else QualifiedColumns(t, cols[..|cols| - 1]) + [QualifiedColumn(t, cols[|cols| - 1])]
  }

  /** `selected || '*'` over the first five columns. */
  function SelectList(t: TableMeta): string {
    var cols := if |t.columns| <= StubColumnLimit then t.columns else t.columns[..StubColumnLimit];
    var selected := Join(QualifiedColumns(t, cols), ", ");
    if selected == [] then "*" else selected
  }

  /**
    `generateSqlStub`: `first` is the workspace's first table as the store
    returns it, and its first five columns are the ones selected.
   */
  function GenerateSqlStub(first: Option<TableMeta>): (r: string)
    ensures first.None? ==> r == "SELECT 1"
    ensures first.Some? ==>
      StartsWith(r, "SELECT ") && EndsWith(r, " FROM " + first.value.schemaName + "." + first.value.tableName)
    ensures first.Some? ==>
      r == "SELECT " + SelectList(first.value) + " FROM " + first.value.schemaName + "." + first.value.tableName
  {
    match first
    case None => "SELECT 1"
    case Some(t) =>
      var from := " FROM " + t.schemaName + "." + t.tableName;
      var r := "SELECT " + SelectList(t) + from;
      assert r[..7] == "SELECT ";
      assert r[|r| - |from|..] == from;
      r
  }

  /** A table without columns is stubbed with `*`. */
  lemma StubWithoutColumns(t: TableMeta)
    requires t.columns == []
    ensures GenerateSqlStub(Some(t)) == "SELECT * FROM " + t.schemaName + "." + t.tableName
  {
    assert QualifiedColumns(t, t.columns) == [];
  }

  /**
    The stub selects the table's first `min(5, n)` columns, each written
    `schema.table.column` and separated by ", ", and `*` when it has none
    (`GenerateSqlStub` places this list between `SELECT ` and ` FROM`).
   */
  lemma StubSelectsLeadingColumns(t: TableMeta, k: nat)
    requires k == if |t.columns| <= StubColumnLimit then |t.columns| else StubColumnLimit
    ensures SelectList(t) ==
      if k == 0 then "*" else Join(seq(k, i requires 0 <= i < k => QualifiedColumn(t, t.columns[i])), ", ")
  {
    var cols := if |t.columns| <= StubColumnLimit then t.columns else t.columns[..StubColumnLimit];
    assert QualifiedColumns(t, cols) == seq(k, i requires 0 <= i < k => QualifiedColumn(t, t.columns[i]));
    if k > 0 {
      assert |QualifiedColumn(t, t.columns[0])| > 0;
    }
  }

  // ---------------------------------------------------------------------
  // The SQL chosen from the LLM reply
  // ---------------------------------------------------------------------

  /** `obj.sql`: an own member of a plain object, `undefined` otherwise. */
  function SqlField(obj: JsValue): JsValue {
    if obj.Obj? then Get(obj.members, "sql") else Undefined
  }

  /**
    The value of `sql` after the LLM step; None is `undefined`. `reply` is
    the first text of the LLM response, None when there is none or when the
    call failed.
   */
  function SqlFromReply(reply: Option<string>, b: Builtins): (r: Option<string>)
    ensures r.Some? ==> reply.Some? && !IsBlank(reply.value)
  {
    match reply
    case None => None
    case Some(text) =>
      var raw := Trim(text);
      if raw == [] then None
      else
        var cleaned := RP.StripCodeFences(raw);
        match b.parse(cleaned)
        case None => Some(cleaned)
        case Some(obj) =>
          var field := SqlField(obj);
          if Truthy(obj) && IsTypeofObject(obj) && field.Str? then Some(Trim(field.s)) else None
  }

  /** `if (!sql) sql = await this.generateSqlStub(...)`: an undefined or empty `sql` falls back to the stub. */
  function ChooseSql(reply: Option<string>, stub: string, b: Builtins): (r: string)
    ensures r == stub || r != []
    ensures reply.None? ==> r == stub
  {
    var sql := SqlFromReply(reply, b);
    if sql.Some? && sql.value != [] then sql.value else stub
  }

  /** A reply that parses to an object with a string `sql` yields that string, trimmed. */
  lemma ChooseSqlFromJson(text: string, stub: string, b: Builtins, ms: Row, s: string)
    requires !IsBlank(text)
    requires b.parse(RP.StripCodeFences(Trim(text))) == Some(Obj(ms))
    requires Get(ms, "sql") == Str(s) && !IsBlank(s)
    ensures ChooseSql(Some(text), stub, b) == Trim(s)
  {
  }

  /** A reply that does not parse is used as raw SQL once the fences are stripped. */
  lemma ChooseSqlRawText(text: string, stub: string, b: Builtins)
    requires !IsBlank(text)
    requires b.parse(RP.StripCodeFences(Trim(text))).None?
    requires RP.StripCodeFences(Trim(text)) != []
    ensures ChooseSql(Some(text), stub, b) == RP.StripCodeFences(Trim(text))
  {
  }

  /** A reply that parses to anything without a string `sql` falls back to the stub. */
  lemma ChooseSqlNoField(text: string, stub: string, b: Builtins, v: JsValue)
    requires b.parse(RP.StripCodeFences(Trim(text))) == Some(v)
    requires !SqlField(v).Str?
    ensures ChooseSql(Some(text), stub, b) == stub
  {
  }

  // ---------------------------------------------------------------------
  // applyBusinessNamesToRows
  // ---------------------------------------------------------------------

  /** `c.businessName && c.businessName.trim()` */
  predicate HasBusinessName(c: ColumnMeta) {
    c.businessName.Some? && !IsBlank(c.businessName.value)
  }

  /** `m.get(n) || 0` */
  function CountOf(m: map<string, nat>, n: string): nat {
    if n in m then m[n] else 0
  }

  /** The first loop over one table's columns: count each non-blank business name. */
  function CountColumns(m: map<string, nat>, cols: seq<ColumnMeta>): map<string, nat> {
    if cols == [] then m
    else
      var m' := CountColumns(m, cols[..|cols| - 1]);
      var c := cols[|cols| - 1];
      if HasBusinessName(c) then m'[c.businessName.value := CountOf(m', c.businessName.value) + 1] else m'
  }

  /** `bizNameCount` after the first loop. */
  function CountNames(metadata: seq<TableMeta>): map<string, nat> {
    if metadata == [] then map[]
    else CountColumns(CountNames(metadata[..|metadata| - 1]), metadata[|metadata| - 1].columns)
  }

  /** How many columns, in some table's column list, carry the non-blank business name n. */
  function OccurrencesIn(cols: seq<ColumnMeta>, n: string): nat {
    if cols == [] then 0
    else
      var c := cols[|cols| - 1];
      OccurrencesIn(cols[..|cols| - 1], n) + (if HasBusinessName(c) && c.businessName.value == n then 1 else 0)
  }

  /** How many columns of the whole workspace carry the non-blank business name n. */
  function Occurrences(metadata: seq<TableMeta>, n: string): nat {
    if metadata == [] then 0
    else Occurrences(metadata[..|metadata| - 1], n) + OccurrencesIn(metadata[|metadata| - 1].columns, n)
  }

  /** The column's business name is used for renaming, judged by the name counts. */
  predicate Renames(c: ColumnMeta, counts: map<string, nat>) {
    c.businessName.Some? && c.businessName.value != [] && CountOf(counts, c.businessName.value) == 1
  }

  /** The second loop over one table's columns. */
  function TechColumns(m: map<string, string>, cols: seq<ColumnMeta>, counts: map<string, nat>): map<string, string> {
    if cols == [] then m
    else
      var m' := TechColumns(m, cols[..|cols| - 1], counts);
      var c := cols[|cols| - 1];
      if Renames(c, counts) then m'[c.columnName := c.businessName.value] else m'
  }

  function TechMap(metadata: seq<TableMeta>, counts: map<string, nat>): map<string, string> {
    if metadata == [] then map[]
    else TechColumns(TechMap(metadata[..|metadata| - 1], counts), metadata[|metadata| - 1].columns, counts)
  }

  /** `techToBiz` */
  function TechToBiz(metadata: seq<TableMeta>): map<string, string> {
    TechMap(metadata, CountNames(metadata))
  }

  /** The name a row key is stored under: `techToBiz.get(k) || k`. */
  function Renamed(tm: map<string, string>, k: string): string {
    if k in tm && tm[k] != [] then tm[k] else k
  }

  /** `out[renamed] = v` for every entry of the row, in order. */
  function RenameRow(row: Row, tm: map<string, string>): Row {
    if row == [] then []
    else
      var m := row[|row| - 1];
      Put(RenameRow(row[..|row| - 1], tm), Renamed(tm, m.key), m.value)
  }

  lemma CountColumnsSnoc(m: map<string, nat>, cols: seq<ColumnMeta>, c: ColumnMeta)
    ensures CountColumns(m, cols + [c]) ==
      var m' := CountColumns(m, cols);
      if HasBusinessName(c) then m'[c.businessName.value := CountOf(m', c.businessName.value) + 1] else m'
  {
    assert (cols + [c])[..|cols|] == cols;
  }

  lemma CountNamesSnoc(metadata: seq<TableMeta>, t: TableMeta)
    ensures CountNames(metadata + [t]) == CountColumns(CountNames(metadata), t.columns)
  {
    assert (metadata + [t])[..|metadata|] == metadata;
  }

  /** The first loop of `applyBusinessNamesToRows`: `bizNameCount`. */
  method CountBusinessNames(metadata: seq<TableMeta>) returns (counts: map<string, nat>)
    ensures counts == CountNames(metadata)
  {
    counts := map[];
    ghost var tables: seq<TableMeta> := [];
    for i := 0 to |metadata|
      invariant tables == metadata[..i]
      invariant counts == CountNames(tables)
    {
      var cols := metadata[i].columns;
      ghost var base := counts;
      ghost var seen: seq<ColumnMeta> := [];
      for j := 0 to |cols|
        invariant seen == cols[..j]
        invariant counts == CountColumns(base, seen)
      {
        var c := cols[j];
        CountColumnsSnoc(base, seen, c);
        if HasBusinessName(c) {
          var n := c.businessName.value;
          counts := counts[n := CountOf(counts, n) + 1];
        }
        seen := seen + [c];
        Seqs.PrefixSnoc(cols, j);
      }
      assert seen == cols;
      CountNamesSnoc(tables, metadata[i]);
      tables := tables + [metadata[i]];
      Seqs.PrefixSnoc(metadata, i);
    }
    assert metadata[..|metadata|] == metadata;
  }

  /** The second loop of `applyBusinessNamesToRows`: `techToBiz`, later columns overwriting earlier ones. */
  method BuildTechToBiz(metadata: seq<TableMeta>, counts: map<string, nat>) returns (techToBiz: map<string, string>)
    ensures techToBiz == TechMap(metadata, counts)
  {
    techToBiz := map[];
    for i := 0 to |metadata|
      invariant techToBiz == TechMap(metadata[..i], counts)
    {
      assert metadata[..i + 1][..i] == metadata[..i];
      var cols := metadata[i].columns;
      for j := 0 to |cols|
        invariant techToBiz == TechColumns(TechMap(metadata[..i], counts), cols[..j], counts)
      {
        assert cols[..j + 1][..j] == cols[..j];
        var c := cols[j];
        if c.businessName.Some? && c.businessName.value != [] {
          var n := c.businessName.value;
          if n in counts && counts[n] == 1 {
            techToBiz := techToBiz[c.columnName := n];
          }
        }
      }
      assert cols[..|cols|] == cols;
    }
    assert metadata[..|metadata|] == metadata;
  }

  /** The copy of one row under the renamed keys, `out[techToBiz.get(k) || k] = v`. */
  method RenameKeys(r: Row, techToBiz: map<string, string>) returns (o: Row)
    ensures o == RenameRow(r, techToBiz)
  {
    o := [];
    for j := 0 to |r|
      invariant o == RenameRow(r[..j], techToBiz)
    {
      assert r[..j + 1][..j] == r[..j];
      var k := r[j].key;
      var renamed := if k in techToBiz && techToBiz[k] != [] then techToBiz[k] else k;
      o := Put(o, renamed, r[j].value);
    }
    assert r[..|r|] == r;
  }

  /** `applyBusinessNamesToRows` */
  method ApplyBusinessNamesToRows(rows: seq<Row>, metadata: seq<TableMeta>) returns (out: seq<Row>)
    ensures |out| == |rows|
    ensures forall i :: 0 <= i < |rows| ==>
      out[i] == if TechToBiz(metadata) == map[] then rows[i] else RenameRow(rows[i], TechToBiz(metadata))
  {
    var counts := CountBusinessNames(metadata);
    var techToBiz := BuildTechToBiz(metadata, counts);
    if |techToBiz| == 0 {
      assert techToBiz == map[];
      return rows;
    }
    assert techToBiz != map[];
    out := RenameRows(rows, techToBiz);
  }

  /** The loop of `applyBusinessNamesToRows`: every row renamed with the same map. */
  method RenameRows(rows: seq<Row>, techToBiz: map<string, string>) returns (out: seq<Row>)
    ensures |out| == |rows|
    ensures forall i :: 0 <= i < |rows| ==> out[i] == RenameRow(rows[i], techToBiz)
  {
    out := [];
    for i := 0 to |rows|
      invariant |out| == i
      invariant forall i' :: 0 <= i' < i ==> out[i'] == RenameRow(rows[i'], techToBiz)
    {
      var o := RenameKeys(rows[i], techToBiz);
      RenamedPrefixSnoc(out, rows, techToBiz, o);
      out := out + [o];
    }
  }

  lemma RenamedPrefixSnoc(out: seq<Row>, rows: seq<Row>, techToBiz: map<string, string>, o: Row)
    requires |out| < |rows|
    requires forall i :: 0 <= i < |out| ==> out[i] == RenameRow(rows[i], techToBiz)
    requires o == RenameRow(rows[|out|], techToBiz)
    ensures forall i :: 0 <= i <= |out| ==> (out + [o])[i] == RenameRow(rows[i], techToBiz)
  {
    forall i | 0 <= i <= |out|
      ensures (out + [o])[i] == RenameRow(rows[i], techToBiz)
    {
      if i < |out| {
        assert (out + [o])[i] == out[i];
      }
    }
  }

  lemma {:induction false} CountColumnsMeaning(m: map<string, nat>, cols: seq<ColumnMeta>, n: string)
    ensures CountOf(CountColumns(m, cols), n) == CountOf(m, n) + OccurrencesIn(cols, n)
    ensures n in CountColumns(m, cols) <==> n in m || OccurrencesIn(cols, n) > 0
    decreases |cols|
  {
    if cols != [] {
      CountColumnsMeaning(m, cols[..|cols| - 1], n);
    }
  }

  /** `bizNameCount` holds exactly the non-blank business names, each with its number of columns. */
  lemma {:induction false} CountNamesMeaning(metadata: seq<TableMeta>, n: string)
    ensures CountOf(CountNames(metadata), n) == Occurrences(metadata, n)
    ensures n in CountNames(metadata) <==> Occurrences(metadata, n) > 0
  {
    if metadata != [] {
      CountNamesMeaning(metadata[..|metadata| - 1], n);
      CountColumnsMeaning(CountNames(metadata[..|metadata| - 1]), metadata[|metadata| - 1].columns, n);
    }
  }

  lemma {:induction false} TechColumnsMeaning(
    m: map<string, string>, cols: seq<ColumnMeta>, counts: map<string, nat>, tech: string)
    ensures var r := TechColumns(m, cols, counts);
      (tech in r <==> tech in m || exists j :: 0 <= j < |cols| && Renames(cols[j], counts) && cols[j].columnName == tech)
    ensures var r := TechColumns(m, cols, counts);
      tech in r ==>
        (tech in m && r[tech] == m[tech])
        || exists j :: 0 <= j < |cols| && Renames(cols[j], counts) && cols[j].columnName == tech
             && r[tech] == cols[j].businessName.value
    decreases |cols|
  {
    if cols != [] {
      var init := cols[..|cols| - 1];
      TechColumnsMeaning(m, init, counts, tech);
      assert forall j :: 0 <= j < |init| ==> init[j] == cols[j];
    }
  }

  /** The column `(i, j)` carries a business name that no other column of the workspace carries. */
  predicate UniqueNameAt(metadata: seq<TableMeta>, i: nat, j: nat)
    requires i < |metadata| && j < |metadata[i].columns|
  {
    var c := metadata[i].columns[j];
    HasBusinessName(c) && Occurrences(metadata, c.businessName.value) == 1
  }

  lemma {:induction false} TechMapMeaning(metadata: seq<TableMeta>, counts: map<string, nat>, tech: string)
    ensures var r := TechMap(metadata, counts);
      tech in r <==> (exists i, j :: 0 <= i < |metadata| && 0 <= j < |metadata[i].columns|
                         && Renames(metadata[i].columns[j], counts) && metadata[i].columns[j].columnName == tech)
    ensures var r := TechMap(metadata, counts);
      tech in r ==> (exists i, j :: 0 <= i < |metadata| && 0 <= j < |metadata[i].columns|
                        && Renames(metadata[i].columns[j], counts) && metadata[i].columns[j].columnName == tech
                        && r[tech] == metadata[i].columns[j].businessName.value)
  {
    if metadata != [] {
      var init := metadata[..|metadata| - 1];
      var last := |metadata| - 1;
      TechMapMeaning(init, counts, tech);
      TechColumnsMeaning(TechMap(init, counts), metadata[last].columns, counts, tech);
      assert forall i :: 0 <= i < |init| ==> init[i] == metadata[i];
    }
  }

  /** With the real counts, "renames" is "carries a non-blank business name used by no other column". */
  lemma RenamesIffUnique(metadata: seq<TableMeta>, i: nat, j: nat)
    requires i < |metadata| && j < |metadata[i].columns|
    ensures Renames(metadata[i].columns[j], CountNames(metadata)) <==> UniqueNameAt(metadata, i, j)
  {
    var c := metadata[i].columns[j];
    if c.businessName.Some? {
      var n := c.businessName.value;
      CountNamesMeaning(metadata, n);
      if Occurrences(metadata, n) > 0 && !HasBusinessName(c) {
        OccurrencesNonBlank(metadata, n);
      }
    }
  }

  /** Only non-blank names are ever counted. */
  lemma {:induction false} OccurrencesNonBlank(metadata: seq<TableMeta>, n: string)
    requires Occurrences(metadata, n) > 0
    ensures !IsBlank(n)
  {
    var init := metadata[..|metadata| - 1];
    if Occurrences(init, n) > 0 {
      OccurrencesNonBlank(init, n);
    } else {
      OccurrencesInNonBlank(metadata[|metadata| - 1].columns, n);
    }
  }

  lemma {:induction false} OccurrencesInNonBlank(cols: seq<ColumnMeta>, n: string)
    requires OccurrencesIn(cols, n) > 0
    ensures !IsBlank(n)
  {
    var init := cols[..|cols| - 1];
    if OccurrencesIn(init, n) > 0 {
      OccurrencesInNonBlank(init, n);
    }
  }

  /**
    A technical name is renamed exactly when some column with that name
    carries a business name that is non-blank and unique in the workspace,
    and it is renamed to such a name.
   */
  lemma TechToBizMeaning(metadata: seq<TableMeta>, tech: string)
    ensures tech in TechToBiz(metadata) <==>
      (exists i, j :: 0 <= i < |metadata| && 0 <= j < |metadata[i].columns|
         && UniqueNameAt(metadata, i, j) && metadata[i].columns[j].columnName == tech)
    ensures tech in TechToBiz(metadata) ==>
      (exists i, j :: 0 <= i < |metadata| && 0 <= j < |metadata[i].columns|
         && UniqueNameAt(metadata, i, j) && metadata[i].columns[j].columnName == tech
         && TechToBiz(metadata)[tech] == metadata[i].columns[j].businessName.value)
  {
    var counts := CountNames(metadata);
    TechMapMeaning(metadata, counts, tech);
    forall i, j | 0 <= i < |metadata| && 0 <= j < |metadata[i].columns|
      ensures Renames(metadata[i].columns[j], counts) <==> UniqueNameAt(metadata, i, j)
    {
      RenamesIffUnique(metadata, i, j);
    }
  }

  /** The renamed row has a key exactly for each renamed key of the row. */
  lemma {:induction false} RenameRowKeys(row: Row, tm: map<string, string>, x: string)
    ensures HasKey(RenameRow(row, tm), x) <==> exists i :: 0 <= i < |row| && Renamed(tm, row[i].key) == x
  {
    if row != [] {
      var init := row[..|row| - 1];
      var last := row[|row| - 1];
      RenameRowKeys(init, tm, x);
      RenamedKeySnoc(row, tm, x);
      assert RenameRow(row, tm) == Put(RenameRow(init, tm), Renamed(tm, last.key), last.value);
    }
  }

  lemma RenamedKeySnoc(row: Row, tm: map<string, string>, x: string)
    requires row != []
    ensures var init := row[..|row| - 1];
      (exists i :: 0 <= i < |row| && Renamed(tm, row[i].key) == x) <==>
      (exists i :: 0 <= i < |init| && Renamed(tm, init[i].key) == x) || Renamed(tm, row[|row| - 1].key) == x
  {
    var init := row[..|row| - 1];
    if exists i :: 0 <= i < |init| && Renamed(tm, init[i].key) == x {
      var i :| 0 <= i < |init| && Renamed(tm, init[i].key) == x;
      assert init[i] == row[i];
    }
    if exists i :: 0 <= i < |row| && Renamed(tm, row[i].key) == x {
      var i :| 0 <= i < |row| && Renamed(tm, row[i].key) == x;
      if i < |init| {
        assert init[i] == row[i];
      }
    }
  }

  /**
    Each value survives under its renamed key unless a later entry is
    renamed to the same key, in which case the later one wins.
   */
  lemma {:induction false} RenameRowGet(row: Row, tm: map<string, string>, i: nat)
    requires i < |row|
    requires forall j :: i < j < |row| ==> Renamed(tm, row[j].key) != Renamed(tm, row[i].key)
    ensures Get(RenameRow(row, tm), Renamed(tm, row[i].key)) == row[i].value
  {
    var init := row[..|row| - 1];
    var last := row[|row| - 1];
    assert RenameRow(row, tm) == Put(RenameRow(init, tm), Renamed(tm, last.key), last.value);
    if i < |row| - 1 {
      assert init[i] == row[i];
      assert forall j :: i < j < |init| ==> init[j] == row[j];
      RenameRowGet(init, tm, i);
      assert Renamed(tm, last.key) != Renamed(tm, row[i].key);
    }
  }

  /** The renamed row keeps only values of the row. */
  lemma {:induction false} RenameRowValues(row: Row, tm: map<string, string>)
    ensures forall m :: m in RenameRow(row, tm) ==> exists i :: 0 <= i < |row| && m.value == row[i].value
  {
    if row != [] {
      var init := row[..|row| - 1];
      var last := row[|row| - 1];
      RenameRowValues(init, tm);
      PutMembers(RenameRow(init, tm), Renamed(tm, last.key), last.value);
      assert forall i :: 0 <= i < |init| ==> init[i] == row[i];
    }
  }

  // ---------------------------------------------------------------------
  // createAndExecute
  // ---------------------------------------------------------------------

  datatype DataSourceType = PostgreSQL | MySQL

  /** The three LLM calls, each as the first text of its response (None: no text, or the call failed). */
  datatype Llm = Llm(
    sqlReply: Option<string>,
    resultTextReply: seq<Row> -> Option<string>,
    graphReply: seq<Row> -> Option<string>)

  /** Running SQL against the data source: rows, or the driver's error. */
  type Executor = (SqlGuard.Dialect, string) -> Result<seq<Row>, string>

  /** A stored `userRequest` record. */
  datatype UserRequest = UserRequest(
    id: nat, userId: int, workspaceId: int, prompt: string, status: RequestStatus,
    sqlScript: Option<string>, resultText: Option<string>,
    resultTable: Option<Row>, graphConfig: Option<JsValue>)

  /** The response of a successful run (`responseId`, a random UUID, is not modelled). */
  datatype DataRequestResult = DataRequestResult(
    requestId: nat, status: RequestStatus, sqlScript: string, resultText: string,
    resultTable: Row, graphConfig: Option<JsValue>)

  /** Why `createAndExecute` throws; NeverReturns stands for the call that does not come back. */
  datatype PipelineError =
    | WorkspaceNotFound
    | DataSourceNotConfigured
    | Rejected(guardError: SqlGuard.GuardError)
    | ExecutionFailed(message: string)
    | NeverReturns

  /** Row budget of the result. */
  const MaxRows: int := 100
  /** Byte budget of the result's JSON text (200 KiB). */
  const MaxBytes: int := 200 * 1024
  /** Timeout handed to the guard and the drivers. */
  const QueryTimeoutMs: int := 10000

  function DialectOf(ds: DataSourceType): SqlGuard.Dialect {
    if ds == PostgreSQL then SqlGuard.Postgresql else SqlGuard.Mysql
  }

  function SchemaNames(metadata: seq<TableMeta>): (r: seq<string>)
    ensures |r| == |metadata|
    ensures forall i :: 0 <= i < |metadata| ==> r[i] == metadata[i].schemaName
  {
    if metadata == [] then [] else SchemaNames(metadata[..|metadata| - 1]) + [metadata[|metadata| - 1].schemaName]
  }

  /** The guard options `createAndExecute` always passes. */
  function PipelineGuardOptions(workspaceId: int, ds: DataSourceType, metadata: seq<TableMeta>): (o: SqlGuard.GuardOptions)
    ensures o.forceLimit == Some(101) && o.forbidFreeJoins && o.queryTimeoutMs == Some(10000)
    ensures forall s :: s in o.allowedSchemas <==> exists t :: t in metadata && t.schemaName == s
    ensures forall i, j :: 0 <= i < j < |o.allowedSchemas| ==> o.allowedSchemas[i] != o.allowedSchemas[j]
  {
    var names := SchemaNames(metadata);
    assert forall t :: t in metadata ==> t.schemaName in names;
    SqlGuard.GuardOptions(workspaceId, DialectOf(ds), Distinct(names), Some(101), true, Some(QueryTimeoutMs))
  }

  /** The default result text, `Returned ${rows.length} rows`. */
  function DefaultResultText(n: nat): string {
    "Returned " + NatToString(n) + " rows"
  }

  /** `resultText`: the trimmed LLM text when it is not empty, else the default. */
  function ResultText(reply: Option<string>, rowCount: nat): (r: string)
    ensures r == DefaultResultText(rowCount) || (reply.Some? && r == Trim(reply.value) && r != [])
    ensures reply.Some? && !IsBlank(reply.value) ==> r == Trim(reply.value)
  {
    if reply.Some? && Trim(reply.value) != [] then Trim(reply.value) else DefaultResultText(rowCount)
  }

  /** `graphConfig`: set only when the fence-stripped reply parses to a plain object. */
  function GraphConfig(reply: Option<string>, b: Builtins): (r: Option<JsValue>)
    ensures r.Some? ==> r.value.Obj? && RP.IsJson(r.value)
    ensures reply.None? ==> r.None?
    ensures reply.Some? && b.parse(RP.StripCodeFences(reply.value)).None? ==> r.None?
  {
    var text := RP.StripCodeFences(if reply.Some? then reply.value else "");
    if text == [] then None
    else
      match b.parse(text)
      case None => None
      case Some(v) => RP.AsJsonObject(v)
  }

  /**
    A fenced reply whose trimmed body parses to `v` yields `v` converted to a
    JSON object, and nothing when `v` is not an object.
   */
  lemma GraphConfigOfFencedReply(lang: string, body: string, v: JsValue, b: Builtins)
    requires forall k :: 0 <= k < |lang| ==> IsAlnum(lang[k])
    requires Trim(body) != [] && b.parse(Trim(body)) == Some(v)
    ensures GraphConfig(Some("```" + lang + "\n" + body + "\n```"), b) == RP.AsJsonObject(v)
    ensures !v.Obj? && !v.Date? ==> GraphConfig(Some("```" + lang + "\n" + body + "\n```"), b).None?
  {
    RP.StripFencedBlock(lang, body);
  }

  /** Steps 5 and 5.1: limit, mask, rename; None when the limit step never returns. */
  function ProcessRows(rows: seq<Row>, metadata: seq<TableMeta>, b: Builtins): Option<seq<Row>> {
    match RP.Shrink(rows[..RP.SliceEnd(|rows|, MaxRows)], MaxBytes, b)
    case None => None
    case Some(kept) =>
      var limited := b.reparseRows(kept);
      var tm := TechToBiz(metadata);
      Some(seq(|limited|, i requires 0 <= i < |limited| =>
        var masked := RP.MaskRow(limited[i]);
        if tm == map[] then masked else RenameRow(masked, tm)))
  }

  /** Limiting, masking and renaming one after another is what ProcessRows describes. */
  lemma ProcessRowsSteps(
    rows: seq<Row>, metadata: seq<TableMeta>, b: Builtins, kept: seq<Row>, masked: seq<Row>, renamed: seq<Row>)
    requires RP.Shrink(rows[..RP.SliceEnd(|rows|, MaxRows)], MaxBytes, b) == Some(kept)
    requires |masked| == |b.reparseRows(kept)|
    requires forall i :: 0 <= i < |masked| ==> masked[i] == RP.MaskRow(b.reparseRows(kept)[i])
    requires |renamed| == |masked|
    requires forall i :: 0 <= i < |masked| ==>
      renamed[i] == if TechToBiz(metadata) == map[] then masked[i] else RenameRow(masked[i], TechToBiz(metadata))
    ensures ProcessRows(rows, metadata, b) == Some(renamed)
  {
    var limited := b.reparseRows(kept);
    var tm := TechToBiz(metadata);
    var expected := seq(|limited|, i requires 0 <= i < |limited| =>
      var m := RP.MaskRow(limited[i]);
      if tm == map[] then m else RenameRow(m, tm));
    assert ProcessRows(rows, metadata, b) == Some(expected);
    assert expected == renamed;
  }

  /** Step 5 of `createAndExecute`: the row and size limits, then PII masking, then business names. */
  method ProcessResultRows(rows: seq<Row>, metadata: seq<TableMeta>, b: Builtins) returns (processed: Option<seq<Row>>)
    ensures processed == ProcessRows(rows, metadata, b)
  {
    var limited := RP.LimitRowsAndSize(rows, MaxRows, MaxBytes, b);
    if limited.None? {
      return None;
    }
    var masked := RP.MaskPII(limited.value);
    var renamed := ApplyBusinessNamesToRows(masked, metadata);
    ProcessRowsSteps(rows, metadata, b, RP.Shrink(rows[..RP.SliceEnd(|rows|, MaxRows)], MaxBytes, b).value,
      masked, renamed);
    processed := Some(renamed);
  }

  /**
    What `createAndExecute` answers once the workspace and its data source
    are found, for the request numbered id: steps 2 to 8 in order, stopping
    at the first that throws.
   */
  function Outcome(
    id: nat, workspaceId: int, ds: DataSourceType,
    metadata: seq<TableMeta>, stubTable: Option<TableMeta>, fks: seq<SqlGuard.ForeignKey>,
    llm: Llm, exec: Executor, b: Builtins): Result<DataRequestResult, PipelineError>
  {
    var sql := ChooseSql(llm.sqlReply, GenerateSqlStub(stubTable), b);
    match SqlGuard.Guard(sql, PipelineGuardOptions(workspaceId, ds, metadata), fks)
    case Failure(e) => Failure(Rejected(e))
    case Success(safeSql) =>
      match exec(DialectOf(ds), safeSql)
      case Failure(message) => Failure(ExecutionFailed(message))
      case Success(rows) =>
        match ProcessRows(rows, metadata, b)
        case None => Failure(NeverReturns)
        case Some(renamed) =>
          Success(DataRequestResult(id, Succeeded, safeSql,
            ResultText(llm.resultTextReply(renamed), |renamed|),
            RP.Columnar(renamed, b), GraphConfig(llm.graphReply(renamed), b)))
  }

  /**
    Only SQL the guard accepted reaches the driver and the stored result:
    a rejection, a driver error and the non-returning limit step each end
    the pipeline with their own error, and a success carries the guarded
    text, a columnar table with distinct column names and a JSON object or
    nothing as its graph.
   */
  lemma OutcomeCases(
    id: nat, workspaceId: int, ds: DataSourceType,
    metadata: seq<TableMeta>, stubTable: Option<TableMeta>, fks: seq<SqlGuard.ForeignKey>,
    llm: Llm, exec: Executor, b: Builtins)
    ensures var r := Outcome(id, workspaceId, ds, metadata, stubTable, fks, llm, exec, b);
      var sql := ChooseSql(llm.sqlReply, GenerateSqlStub(stubTable), b);
      var guarded := SqlGuard.Guard(sql, PipelineGuardOptions(workspaceId, ds, metadata), fks);
      && (guarded.Failure? ==> r == Failure(Rejected(guarded.error)))
      && (guarded.Success? && exec(DialectOf(ds), guarded.value).Failure? ==>
            r == Failure(ExecutionFailed(exec(DialectOf(ds), guarded.value).error)))
      && (r.Success? ==>
            && guarded.Success?
            && r.value.requestId == id && r.value.status == Succeeded
            && r.value.sqlScript == guarded.value
            && exec(DialectOf(ds), guarded.value).Success?
            && ProcessRows(exec(DialectOf(ds), guarded.value).value, metadata, b).Some?
            && RP.IsColumnar(r.value.resultTable) && DistinctKeys(r.value.resultTable)
            && (r.value.graphConfig.Some? ==> r.value.graphConfig.value.Obj? && RP.IsJson(r.value.graphConfig.value)))
      && (r.Failure? ==> r.error.Rejected? || r.error.ExecutionFailed? || r.error.NeverReturns?)
  {
  }

  /** Steps 2 to 8 of `createAndExecute`: choose the SQL, guard it, run it, post-process the rows, build the result. */
  method RunPipeline(
    id: nat, workspaceId: int, ds: DataSourceType,
    metadata: seq<TableMeta>, stubTable: Option<TableMeta>, fks: seq<SqlGuard.ForeignKey>,
    llm: Llm, exec: Executor, b: Builtins)
    returns (r: Result<DataRequestResult, PipelineError>)
    ensures r == Outcome(id, workspaceId, ds, metadata, stubTable, fks, llm, exec, b)
  {
    // 2. SQL from the LLM, or the stub
    var sql := ChooseSql(llm.sqlReply, GenerateSqlStub(stubTable), b);

    // 3. Guard and rewrite
    var opts := PipelineGuardOptions(workspaceId, ds, metadata);
    var guarded := SqlGuard.ValidateAndRewrite(sql, opts, fks);
    if guarded.Failure? {
      return Failure(Rejected(guarded.error));
    }
    var safeSql := guarded.value;

    // 4. Execute
    var executed := exec(DialectOf(ds), safeSql);
    if executed.Failure? {
      return Failure(ExecutionFailed(executed.error));
    }
    var rows := executed.value;

    // 5. Row and size limits, PII masking, business names
    var processed := ProcessResultRows(rows, metadata, b);
    if processed.None? {
      return Failure(NeverReturns);
    }
    var renamed := processed.value;

    // 6. Columnar table
    var table := RP.RowsToColumnar(renamed, b);

    // 7. and 8. Result text and graph configuration
    var resultText := ResultText(llm.resultTextReply(renamed), |renamed|);
    var graphConfig := GraphConfig(llm.graphReply(renamed), b);
    r := Success(DataRequestResult(id, Succeeded, safeSql, resultText, table, graphConfig));
  }

  /** The record store of data requests (the `userRequest` table). */
  class RequestStore {
    var requests: seq<UserRequest>

    /** No record was ever marked FAILED. */
    predicate NeverFailed()
      reads this
    {
      forall i :: 0 <= i < |requests| ==> requests[i].status != Failed
    }

    constructor()
      ensures requests == []
    {
      requests := [];
    }

    /** `userRequest.create` of a PENDING record; the new id is the next free one. */
    method CreatePending(userId: int, workspaceId: int, prompt: string) returns (id: nat)
      modifies this
      ensures id == |old(requests)|
      ensures requests == old(requests) + [UserRequest(id, userId, workspaceId, prompt, Pending, None, None, None, None)]
      ensures old(NeverFailed()) ==> NeverFailed()
    {
      id := |requests|;
      requests := requests + [UserRequest(id, userId, workspaceId, prompt, Pending, None, None, None, None)];
    }

    /** `userRequest.update` of a finished run: the record becomes SUCCEEDED with the result's fields. */
    method MarkSucceeded(id: nat, res: DataRequestResult)
      requires id < |requests|
      modifies this
      ensures requests == old(requests)[id := old(requests)[id].(status := Succeeded, sqlScript := Some(res.sqlScript),
        resultText := Some(res.resultText), resultTable := Some(res.resultTable), graphConfig := res.graphConfig)]
      ensures old(NeverFailed()) ==> NeverFailed()
    {
      requests := requests[id := requests[id].(status := Succeeded, sqlScript := Some(res.sqlScript),
        resultText := Some(res.resultText), resultTable := Some(res.resultTable), graphConfig := res.graphConfig)];
    }

    /**
      `createAndExecute`. The workspace check, the data source, the metadata,
      the foreign keys the guard loads, the LLM replies and the drivers are
      parameters; `stubTable` is the table `generateSqlStub` finds first.
     */
    method CreateAndExecute(
      userId: int, workspaceId: int, prompt: string,
      ownsWorkspace: bool, dataSource: Option<DataSourceType>,
      metadata: seq<TableMeta>, stubTable: Option<TableMeta>, fks: seq<SqlGuard.ForeignKey>,
      llm: Llm, exec: Executor, b: Builtins)
      returns (r: Result<DataRequestResult, PipelineError>)
      modifies this
      ensures !ownsWorkspace ==> r == Failure(WorkspaceNotFound) && requests == old(requests)
      ensures ownsWorkspace && dataSource.None? ==> r == Failure(DataSourceNotConfigured) && requests == old(requests)
      ensures ownsWorkspace && dataSource.Some? ==>
        var id := |old(requests)|;
        && r == Outcome(id, workspaceId, dataSource.value, metadata, stubTable, fks, llm, exec, b)
        && |requests| == id + 1
        && requests[..id] == old(requests)
        && (r.Failure? ==> requests[id] == UserRequest(id, userId, workspaceId, prompt, Pending, None, None, None, None))
        && (r.Success? ==> requests[id] == UserRequest(id, userId, workspaceId, prompt, Succeeded,
              Some(r.value.sqlScript), Some(r.value.resultText), Some(r.value.resultTable), r.value.graphConfig))
      ensures old(NeverFailed()) ==> NeverFailed()
    {
      if !ownsWorkspace {
        return Failure(WorkspaceNotFound);
      }
      if dataSource.None? {
        return Failure(DataSourceNotConfigured);
      }
      var id := CreatePending(userId, workspaceId, prompt);
      r := RunPipeline(id, workspaceId, dataSource.value, metadata, stubTable, fks, llm, exec, b);
      if r.Success? {
        MarkSucceeded(id, r.value);
      }
    }
  }
}

/**
  What happens to a query result before a data request stores it: fence
  stripping of LLM replies, truncation under a row and a byte budget, PII
  masking, the row-to-column transposition and its lenient inverse, and the
  JSON-shape checks (result-processing.util.ts).

  A row and a columnar table are both JavaScript objects (`Js.Row`); a table
  maps each column name to an `Arr` of column primitives.
 */
module ResultProcessing {
  import opened Wrappers
  import opened Text
  import opened Js
  import Seqs

  // ---------------------------------------------------------------------
  // stripCodeFences
  // ---------------------------------------------------------------------

  /** End of the run of `[a-zA-Z0-9]` characters starting at i. */
  function AlnumRunEnd(s: string, i: nat): (j: nat)
    requires i <= |s|
    ensures i <= j <= |s|
    ensures forall k :: i <= k < j ==> IsAlnum(s[k])
    ensures j < |s| ==> !IsAlnum(s[j])
    decreases |s| - i
  {
    if i < |s| && IsAlnum(s[i]) then AlnumRunEnd(s, i + 1) else i
  }

  /**
    The capture group of ^```[a-zA-Z0-9]*\n([\s\S]*?)\n```$ (no flags).
    The language tag cannot hold a newline, so it is the whole alphanumeric
    run; without the `m` flag `$` matches only at the very end, so the lazy
    group stretches to the closing fence in the last four characters, and
    that fence needs a newline of its own.
   */
  function FenceBody(s: string): (r: Option<string>)
    ensures r.Some? ==> StartsWith(s, "```") && EndsWith(s, "\n```") && |r.value| + 8 <= |s|
  {
    if !StartsWith(s, "```") then None
    else
      var e := AlnumRunEnd(s, 3);
      if e < |s| && s[e] == '\n' && e + 1 <= |s| - 4 && s[|s| - 4..] == "\n```" then
        Some(s[e + 1..|s| - 4])
      else None
  }

  /** `stripCodeFences`: the trimmed body of a whole-string fenced block, or the input. */
  function StripCodeFences(s: string): (r: string)
    ensures !(StartsWith(s, "```") && EndsWith(s, "\n```")) ==> r == s
    ensures |r| <= |s|
  {
    match FenceBody(s)
    case Some(body) => TrimShape(body); Trim(body)
    case None => s
  }

  /** Any fenced block with an alphanumeric tag yields its trimmed body. */
  lemma StripFencedBlock(lang: string, body: string)
    requires forall k :: 0 <= k < |lang| ==> IsAlnum(lang[k])
    ensures StripCodeFences("```" + lang + "\n" + body + "\n```") == Trim(body)
  {
    var s := "```" + lang + "\n" + body + "\n```";
    var n := 3 + |lang|;
    assert forall k :: 3 <= k < n ==> s[k] == lang[k - 3];
    assert s[n] == '\n';
    assert forall k :: 3 <= k < n ==> IsAlnum(s[k]);
    assert !IsAlnum(s[n]);
    assert AlnumRunEnd(s, 3) == n;
    assert s[|s| - 4..] == "\n```";
    assert s[n + 1..|s| - 4] == body;
    assert StartsWith(s, "```");
    assert FenceBody(s) == Some(body);
  }

  /** Conversely, a stripped fence had exactly that shape. */
  lemma FenceBodyShape(s: string)
    requires FenceBody(s).Some?
    ensures var body := FenceBody(s).value;
      var lang := s[3..|s| - 5 - |body|];
      && (forall k :: 0 <= k < |lang| ==> IsAlnum(lang[k]))
      && s == "```" + lang + "\n" + body + "\n```"
  {
    var e := AlnumRunEnd(s, 3);
    var body := FenceBody(s).value;
    assert e == |s| - 5 - |body|;
    var lang := s[3..e];
    assert s == s[..3] + lang + [s[e]] + body + s[|s| - 4..];
  }

  // ---------------------------------------------------------------------
  // limitRowsAndSize
  // ---------------------------------------------------------------------

  /** The end index `Array.prototype.slice(0, end)` uses on a list of length len. */
  function SliceEnd(len: nat, end: int): (r: nat)
    ensures r <= len
    ensures 0 <= end <= len ==> r == end
    ensures end > len ==> r == len
  {
    if end < 0 then (if len + end < 0 then 0 else len + end)
    else if end < len then end
    else len
  }

  /** `Math.max(1, Math.floor(n * 0.8))`, with the factor taken exactly. */
  function ShrinkLength(n: nat): (m: nat)
    requires n > 0
    ensures 1 <= m <= n
    ensures n >= 2 <==> m < n
  {
    var f := (4 * n) / 5;
    if f < 1 then 1 else f
  }

  /**
    The rows left when the shrink loop exits, or None when it never exits:
    a single row whose JSON is over budget maps to itself forever.
   */
  function Shrink(limited: seq<Row>, maxBytes: int, b: Builtins): (r: Option<seq<Row>>)
    ensures r.Some? ==> |r.value| <= |limited| && r.value == limited[..|r.value|]
    ensures r.Some? ==> b.rowsByteLength(r.value) <= maxBytes || limited == []
    ensures r.Some? && |limited| > 0 ==> |r.value| >= 1
    ensures b.rowsByteLength(limited) <= maxBytes ==> r == Some(limited)
    ensures r.None? ==> |limited| >= 1 && b.rowsByteLength(limited[..1]) > maxBytes
    decreases |limited|
  {
    if b.rowsByteLength(limited) > maxBytes && |limited| > 0 then
      if |limited| == 1 then
        assert limited[..1] == limited;
        None
      else
        var next := limited[..ShrinkLength(|limited|)];
        var r := Shrink(next, maxBytes, b);
        assert r.Some? ==> r.value == next[..|r.value|] == limited[..|r.value|];
        assert r.None? ==> next[..1] == limited[..1];
        r
    else Some(limited)
  }

  /** When no non-empty prefix fits, the loop never exits. */
  lemma {:induction false} ShrinkHangs(limited: seq<Row>, maxBytes: int, b: Builtins)
    requires |limited| >= 1
    requires forall k :: 1 <= k <= |limited| ==> b.rowsByteLength(limited[..k]) > maxBytes
    ensures Shrink(limited, maxBytes, b).None?
    decreases |limited|
  {
    assert limited[..|limited|] == limited;
    if |limited| > 1 {
      var next := limited[..ShrinkLength(|limited|)];
      forall k | 1 <= k <= |next|
        ensures b.rowsByteLength(next[..k]) > maxBytes
      {
        assert next[..k] == limited[..k];
      }
      ShrinkHangs(next, maxBytes, b);
    }
  }

  /**
    `limitRowsAndSize(rows, maxRows, maxBytes)`. The byte length of the JSON
    text and the final `JSON.parse(json)` are built-ins; None stands for the
    call that never returns.
   */
  method LimitRowsAndSize(rows: seq<Row>, maxRows: int, maxBytes: int, b: Builtins)
    returns (r: Option<seq<Row>>)
    ensures var kept := Shrink(rows[..SliceEnd(|rows|, maxRows)], maxBytes, b);
      && (r.None? <==> kept.None?)
      && (r.Some? ==> r.value == b.reparseRows(kept.value))
  {
    var limited := rows[..SliceEnd(|rows|, maxRows)];
    ghost var start := limited;
    while b.rowsByteLength(limited) > maxBytes && |limited| > 0
      invariant Shrink(limited, maxBytes, b) == Shrink(start, maxBytes, b)
      decreases |limited|
    {
      if |limited| == 1 {
        return None;
      }
      limited := limited[..ShrinkLength(|limited|)];
    }
    r := Some(b.reparseRows(limited));
  }

  // ---------------------------------------------------------------------
  // maskString and maskPII
  // ---------------------------------------------------------------------

  /** `'*'.repeat(n)` */
  function Stars(n: nat): (r: string)
    ensures |r| == n
    ensures forall k :: 0 <= k < n ==> r[k] == '*'
  {
    if n == 0 then [] else Stars(n - 1) + "*"
  }

  /** `maskString`: short strings become stars, longer ones keep two characters at each end. */
  function MaskString(s: string): (r: string)
    ensures |r| == if |s| <= 4 then |s| else 7
    ensures |s| <= 4 ==> forall k :: 0 <= k < |r| ==> r[k] == '*'
    ensures |s| > 4 ==> r[..2] == s[..2] && r[2..5] == "***" && r[5..] == s[|s| - 2..]
  {
    if |s| <= 4 then Stars(|s|) else s[..2] + "***" + s[|s| - 2..]
  }

  lemma MaskStringIdempotent(s: string)
    ensures MaskString(MaskString(s)) == MaskString(s)
  {
    var r := MaskString(s);
    if |s| <= 4 {
      assert Stars(|r|) == r;
    } else {
      assert r == r[..2] + r[2..5] + r[5..];
    }
  }

  /** The patterns /email/i, /phone/i, /mobile/i, /ssn/i and /tax/i. */
  const PiiPatterns: seq<string> := ["email", "phone", "mobile", "ssn", "tax"]

  /** Some pattern occurs in the key, ignoring ASCII case. */
  predicate IsPiiKey(k: string) {
    exists p :: p in PiiPatterns && Contains(Lower(k), p)
  }

  /** The patterns carry the `i` flag: a key and its upper-case form are PII together. */
  lemma PiiKeyIgnoresCase(k: string)
    ensures IsPiiKey(Upper(k)) <==> IsPiiKey(k)
  {
    assert Lower(Upper(k)) == Lower(k);
  }

  /** What `maskPII` stores for the value of a PII key. */
  function MaskValue(v: JsValue): (r: JsValue)
    ensures r == v || r.Str?
    ensures v.Str? ==> r == Str(MaskString(v.s))
    ensures v.Num? ==> r == Str("***")
    ensures !v.Str? && Truthy(v) ==> r == Str("***")
    ensures !v.Str? && !v.Num? && !Truthy(v) ==> r == v
  {
    if v.Str? then Str(MaskString(v.s))
    else if v.Num? then Str("***")
    else if Truthy(v) then Str("***")
    else v
  }

  lemma MaskValueIdempotent(v: JsValue)
    ensures MaskValue(MaskValue(v)) == MaskValue(v)
  {
    if v.Str? {
      MaskStringIdempotent(v.s);
    }
  }

  function MaskMember(m: Member): Member {
    if IsPiiKey(m.key) then Member(m.key, MaskValue(m.value)) else m
  }

  /** The masked copy of one row, member by member. */
  function MaskRow(row: Row): (r: Row)
    ensures |r| == |row| && Keys(r) == Keys(row)
  {
    var r := seq(|row|, i requires 0 <= i < |row| => MaskMember(row[i]));
    assert forall i :: 0 <= i < |row| ==> Keys(r)[i] == Keys(row)[i];
    r
  }

  /** `maskPII`: a masked copy of every row; the input rows are values and stay as they are. */
  method MaskPII(rows: seq<Row>) returns (masked: seq<Row>)
    ensures |masked| == |rows|
    ensures forall i :: 0 <= i < |rows| ==> masked[i] == MaskRow(rows[i])
  {
    masked := [];
    for i := 0 to |rows|
      invariant |masked| == i
      invariant forall i' :: 0 <= i' < i ==> masked[i'] == MaskRow(rows[i'])
    {
      var copy := rows[i];
      // Object.keys(copy) in order; `copy[k] = …` writes the member at that position.
      for j := 0 to |copy|
        invariant |copy| == |rows[i]|
        invariant forall j' :: 0 <= j' < j ==> copy[j'] == MaskMember(rows[i][j'])
        invariant forall j' :: j <= j' < |copy| ==> copy[j'] == rows[i][j']
      {
        var k := copy[j].key;
        if IsPiiKey(k) {
          copy := copy[j := Member(k, MaskValue(copy[j].value))];
        }
      }
      masked := masked + [copy];
    }
  }

  /** Only PII keys change, and each changes to its masked value; no key is added or lost. */
  lemma MaskRowGet(row: Row, k: string)
    ensures HasKey(MaskRow(row), k) <==> HasKey(row, k)
    ensures Get(MaskRow(row), k) == if IsPiiKey(k) then MaskValue(Get(row, k)) else Get(row, k)
  {
    IndexOfKeyByKeys(MaskRow(row), row, k);
  }

  /** Masking twice is masking once. */
  lemma MaskRowIdempotent(row: Row)
    ensures MaskRow(MaskRow(row)) == MaskRow(row)
  {
    var r := MaskRow(row);
    forall i | 0 <= i < |row|
      ensures MaskRow(r)[i] == r[i]
    {
      MaskValueIdempotent(row[i].value);
    }
  }

  // ---------------------------------------------------------------------
  // toColumnPrimitive, rowsToColumnar, parseColumnarTable
  // ---------------------------------------------------------------------

  /** `ColumnPrimitive`: null, a string, a number or a boolean. */
  predicate IsColumnPrimitive(v: JsValue) {
    v.Null? || v.Str? || v.Num? || v.Bool?
  }

  /** A column: an array of column primitives. */
  predicate IsColumn(v: JsValue) {
    v.Arr? && forall j :: 0 <= j < |v.items| ==> IsColumnPrimitive(v.items[j])
  }

  /** `ColumnarTable`: every own property is a column. */
  ghost predicate IsColumnar(t: Row) {
    forall k :: HasKey(t, k) ==> IsColumn(Get(t, k))
  }

  /** The elements of an array value; nothing for any other value. */
  function Items(v: JsValue): seq<JsValue> {
    if v.Arr? then v.items else []
  }

  const Unserializable: string := "[unserializable]"

  /** `JSON.stringify(v) ?? '[unserializable]'` inside a try that also maps a throw to the fallback. */
  function StringifyOr(v: JsValue, b: Builtins): string {
    match b.stringify(v)
    case Some(s) => s
    case None => Unserializable
  }

  /** `toColumnPrimitive` */
  function ToColumnPrimitive(v: JsValue, b: Builtins): (r: JsValue)
    ensures IsColumnPrimitive(r)
    ensures IsColumnPrimitive(v) ==> r == v
    ensures v.Date? ==> r == Str(b.isoString(v.time))
    ensures !IsColumnPrimitive(v) && !v.Date? ==> r == Str(StringifyOr(v, b))
  {
    match v
    case Null => v
    case Str(_) => v
    case Num(_) => v
    case Bool(_) => v
    case Date(t) => Str(b.isoString(t))
    case _ => Str(StringifyOr(v, b))
  }

  /** `if (!result[k]) result[k] = []; result[k].push(p)` */
  function PushValue(t: Row, k: string, p: JsValue): (r: Row)
    requires IsColumnar(t) && IsColumnPrimitive(p)
    ensures IsColumnar(r)
    ensures DistinctKeys(t) ==> DistinctKeys(r)
    ensures Keys(r) == if HasKey(t, k) then Keys(t) else Keys(t) + [k]
    ensures Items(Get(r, k)) == Items(Get(t, k)) + [p]
    ensures forall k' :: k' != k ==> Get(r, k') == Get(t, k')
  {
    var col := Get(t, k);
    var items := if Truthy(col) then col.items else [];
    assert IsColumn(Arr(items + [p])) by {
      if Truthy(col) {
        assert HasKey(t, k) && IsColumn(col);
      }
    }
    var r := Put(t, k, Arr(items + [p]));
    assert IsColumnar(r) by {
      forall k' | HasKey(r, k')
        ensures IsColumn(Get(r, k'))
      {
        if k' != k {
          assert HasKey(t, k');
        }
      }
    }
    r
  }

  /** The two statements of the loop body make one `PushValue`. */
  lemma PushValueSteps(t: Row, k: string, p: JsValue)
    requires IsColumnar(t) && IsColumnPrimitive(p)
    ensures var t1 := if !Truthy(Get(t, k)) then Put(t, k, Arr([])) else t;
      && Get(t1, k).Arr?
      && Put(t1, k, Arr(Get(t1, k).items + [p])) == PushValue(t, k, p)
  {
    if !Truthy(Get(t, k)) {
      var t1 := Put(t, k, Arr([]));
      assert Get(t1, k) == Arr([]);
      assert Get(t1, k).items + [p] == [p];
      PutTwice(t, k, Arr([]), Arr([p]));
    } else {
      assert HasKey(t, k);
    }
  }

  /** The table after the members of one row have been pushed, in order. */
  function PushRow(t: Row, row: Row, b: Builtins): (r: Row)
    requires IsColumnar(t)
    ensures IsColumnar(r)
    ensures DistinctKeys(t) ==> DistinctKeys(r)
    decreases |row|
  {
    if row == [] then t
    else
      var m := row[|row| - 1];
      PushValue(PushRow(t, row[..|row| - 1], b), m.key, ToColumnPrimitive(m.value, b))
  }

  lemma PushRowSnoc(t: Row, row: Row, m: Member, b: Builtins)
    requires IsColumnar(t)
    ensures PushRow(t, row + [m], b) == PushValue(PushRow(t, row, b), m.key, ToColumnPrimitive(m.value, b))
  {
    assert (row + [m])[..|row|] == row;
  }

  /** The table `rowsToColumnar` builds. */
  function Columnar(rows: seq<Row>, b: Builtins): (t: Row)
    ensures IsColumnar(t) && DistinctKeys(t)
  {
    if rows == [] then [] else PushRow(Columnar(rows[..|rows| - 1], b), rows[|rows| - 1], b)
  }

  /** `rowsToColumnar` */
  method RowsToColumnar(rows: seq<Row>, b: Builtins) returns (result: Row)
    ensures result == Columnar(rows, b)
  {
    result := [];
    for i := 0 to |rows|
      invariant result == Columnar(rows[..i], b)
    {
      var r := rows[i];
      ghost var before := result;
      ghost var pushed: Row := [];
      for j := 0 to |r|
        invariant pushed == r[..j]
        invariant IsColumnar(before) && result == PushRow(before, pushed, b)
      {
        var k := r[j].key;
        var p := ToColumnPrimitive(r[j].value, b);
        PushValueSteps(result, k, p);
        PushRowSnoc(before, pushed, r[j], b);
        if !Truthy(Get(result, k)) {
          result := Put(result, k, Arr([]));
        }
        var col := Get(result, k).items;
        result := Put(result, k, Arr(col + [p]));
        pushed := pushed + [r[j]];
        Seqs.PrefixSnoc(r, j);
      }
      assert r[..|r|] == r;
      assert rows[..i + 1][..i] == rows[..i];
    }
    assert rows[..|rows|] == rows;
  }

  /** Every key of every row, row by row and in each row's member order. */
  function AllKeys(rows: seq<Row>): seq<string> {
    if rows == [] then [] else AllKeys(rows[..|rows| - 1]) + Keys(rows[|rows| - 1])
  }

  /** The primitives a row contributes to column k, in member order. */
  function RowColumn(row: Row, k: string, b: Builtins): seq<JsValue> {
    if row == [] then []
    else
      var m := row[|row| - 1];
      RowColumn(row[..|row| - 1], k, b) + (if m.key == k then [ToColumnPrimitive(m.value, b)] else [])
  }

  /** Column k as the rows define it: their contributions in row order. */
  function ColumnOf(rows: seq<Row>, k: string, b: Builtins): seq<JsValue> {
    if rows == [] then [] else ColumnOf(rows[..|rows| - 1], k, b) + RowColumn(rows[|rows| - 1], k, b)
  }


  lemma {:induction false} PushRowKeys(t: Row, row: Row, b: Builtins, ks: seq<string>)
    requires IsColumnar(t) && Keys(t) == Distinct(ks)
    ensures Keys(PushRow(t, row, b)) == Distinct(ks + Keys(row))
    decreases |row|
  {
    if row == [] {
      assert ks + Keys(row) == ks;
    } else {
      var init := row[..|row| - 1];
      var m := row[|row| - 1];
      PushRowKeys(t, init, b, ks);
      var t' := PushRow(t, init, b);
      HasKeyIffInKeys(t', m.key);
      KeysSnoc(row);
      Seqs.AppendAssoc(ks, Keys(init), [m.key]);
      DistinctAppendOne(ks + Keys(init), m.key);
      assert PushRow(t, row, b) == PushValue(t', m.key, ToColumnPrimitive(m.value, b));
    }
  }

  lemma {:induction false} PushRowItems(t: Row, row: Row, b: Builtins, k: string)
    requires IsColumnar(t)
    ensures Items(Get(PushRow(t, row, b), k)) == Items(Get(t, k)) + RowColumn(row, k, b)
    decreases |row|
  {
    if row == [] {
      assert Items(Get(t, k)) + [] == Items(Get(t, k));
    } else {
      var init := row[..|row| - 1];
      var m := row[|row| - 1];
      var p := ToColumnPrimitive(m.value, b);
      var t' := PushRow(t, init, b);
      PushRowItems(t, init, b, k);
      var extra := if m.key == k then [p] else [];
      assert PushRow(t, row, b) == PushValue(t', m.key, p);
      assert RowColumn(row, k, b) == RowColumn(init, k, b) + extra;
      assert Items(Get(PushValue(t', m.key, p), k)) == Items(Get(t', k)) + extra;
      Seqs.AppendAssoc(Items(Get(t, k)), RowColumn(init, k, b), extra);
    }
  }

  /** The columns are the distinct keys of the rows, in first-seen order. */
  lemma {:induction false} ColumnarKeys(rows: seq<Row>, b: Builtins)
    ensures Keys(Columnar(rows, b)) == Distinct(AllKeys(rows))
  {
    if rows != [] {
      ColumnarKeys(rows[..|rows| - 1], b);
      PushRowKeys(Columnar(rows[..|rows| - 1], b), rows[|rows| - 1], b, AllKeys(rows[..|rows| - 1]));
    }
  }

  /** Each column holds one value per occurrence of its key, in row order. */
  lemma {:induction false} ColumnarItems(rows: seq<Row>, k: string, b: Builtins)
    ensures Items(Get(Columnar(rows, b), k)) == ColumnOf(rows, k, b)
  {
    if rows != [] {
      ColumnarItems(rows[..|rows| - 1], k, b);
      PushRowItems(Columnar(rows[..|rows| - 1], b), rows[|rows| - 1], b, k);
    }
  }

  /** A row with distinct keys contributes exactly its own value of k, if it has one. */
  lemma {:induction false} RowColumnDistinct(row: Row, k: string, b: Builtins)
    requires DistinctKeys(row)
    ensures RowColumn(row, k, b) == if HasKey(row, k) then [ToColumnPrimitive(Get(row, k), b)] else []
    decreases |row|
  {
    if row != [] {
      var init := row[..|row| - 1];
      var m := row[|row| - 1];
      DistinctSnoc(row);
      RowColumnDistinct(init, k, b);
      IndexOfKeyAppend(init, m, k);
    }
  }

  /** When every row holds key k once, column k has one value per row, in row order. */
  lemma {:induction false} ColumnOfUniform(rows: seq<Row>, k: string, b: Builtins)
    requires forall i :: 0 <= i < |rows| ==> DistinctKeys(rows[i]) && HasKey(rows[i], k)
    ensures |ColumnOf(rows, k, b)| == |rows|
    ensures forall i :: 0 <= i < |rows| ==> ColumnOf(rows, k, b)[i] == ToColumnPrimitive(Get(rows[i], k), b)
  {
    if rows != [] {
      var init := rows[..|rows| - 1];
      var last := rows[|rows| - 1];
      assert forall i :: 0 <= i < |init| ==> init[i] == rows[i];
      ColumnOfUniform(init, k, b);
      RowColumnDistinct(last, k, b);
      assert ColumnOf(rows, k, b) == ColumnOf(init, k, b) + [ToColumnPrimitive(Get(last, k), b)];
    }
  }

  /** `parseColumnarTable`'s treatment of one array element. */
  function ParseItem(item: JsValue, b: Builtins): (r: JsValue)
    ensures IsColumnPrimitive(r)
    ensures IsColumnPrimitive(item) ==> r == item
    ensures !IsColumnPrimitive(item) ==> r == Str(StringifyOr(item, b))
  {
    if IsColumnPrimitive(item) then item else Str(StringifyOr(item, b))
  }

  function ParseItems(items: seq<JsValue>, b: Builtins): (r: seq<JsValue>)
    ensures |r| == |items|
    ensures forall i :: 0 <= i < |items| ==> r[i] == ParseItem(items[i], b)
  {
    if items == [] then [] else ParseItems(items[..|items| - 1], b) + [ParseItem(items[|items| - 1], b)]
  }

  /** The table built from an object's members, or None once one of them is not an array. */
  function ParseColumns(ms: seq<Member>, b: Builtins): (r: Option<Row>)
    ensures r.Some? ==> IsColumnar(r.value)
    ensures r.Some? <==> forall i :: 0 <= i < |ms| ==> ms[i].value.Arr?
  {
    if ms == [] then Some([])
    else
      assert forall i :: 0 <= i < |ms| - 1 ==> ms[..|ms| - 1][i] == ms[i];
      match ParseColumns(ms[..|ms| - 1], b)
      case None => None
      case Some(out) =>
        var m := ms[|ms| - 1];
        if !m.value.Arr? then None
        else
          var col := Arr(ParseItems(m.value.items, b));
          PutColumn(out, m.key, col);
          Some(Put(out, m.key, col))
  }

  lemma PutColumn(t: Row, k: string, col: JsValue)
    requires IsColumnar(t) && IsColumn(col)
    ensures IsColumnar(Put(t, k, col))
  {
  }

  /** The value `parseColumnarTable` returns (None for `undefined`). */
  function ParsedTable(value: JsValue, b: Builtins): (r: Option<Row>)
    ensures r.Some? ==> IsColumnar(r.value)
    ensures r.Some? ==> value.Obj? || value.Date?
  {
    if !Truthy(value) || !IsTypeofObject(value) || value.Arr? then None
    else if value.Obj? then ParseColumns(value.members, b)
    else Some([])  // a Date has no own enumerable properties
  }

  /** `parseColumnarTable` */
  method ParseColumnarTable(value: JsValue, b: Builtins) returns (r: Option<Row>)
    ensures r == ParsedTable(value, b)
  {
    if !Truthy(value) || !IsTypeofObject(value) || value.Arr? {
      return None;
    }
    var entries := if value.Obj? then value.members else [];
    var out: Row := [];
    ghost var done: seq<Member> := [];
    for i := 0 to |entries|
      invariant done == entries[..i]
      invariant ParseColumns(done, b) == Some(out)
    {
      var v := entries[i].value;
      if !v.Arr? {
        ParseColumnsNone(entries, i, b);
        return None;
      }
      var arr: seq<JsValue> := [];
      ghost var seen: seq<JsValue> := [];
      for j := 0 to |v.items|
        invariant seen == v.items[..j]
        invariant arr == ParseItems(seen, b)
      {
        ParseItemsSnoc(seen, v.items[j], b);
        arr := arr + [ParseItem(v.items[j], b)];
        seen := seen + [v.items[j]];
        Seqs.PrefixSnoc(v.items, j);
      }
      assert seen == v.items;
      ParseColumnsSnoc(done, out, entries[i], b);
      out := Put(out, entries[i].key, Arr(arr));
      done := done + [entries[i]];
      Seqs.PrefixSnoc(entries, i);
    }
    assert done == entries;
    r := Some(out);
  }

  lemma ParseItemsSnoc(items: seq<JsValue>, x: JsValue, b: Builtins)
    ensures ParseItems(items + [x], b) == ParseItems(items, b) + [ParseItem(x, b)]
  {
    assert (items + [x])[..|items|] == items;
  }

  lemma ParseColumnsSnoc(ms: seq<Member>, out: Row, m: Member, b: Builtins)
    requires ParseColumns(ms, b) == Some(out) && m.value.Arr?
    ensures ParseColumns(ms + [m], b) == Some(Put(out, m.key, Arr(ParseItems(m.value.items, b))))
  {
    assert (ms + [m])[..|ms|] == ms;
  }

  lemma ParseColumnsNone(ms: seq<Member>, i: nat, b: Builtins)
    requires i < |ms| && !ms[i].value.Arr?
    ensures ParseColumns(ms, b).None?
  {
  }

  lemma {:induction false} ParseColumnsIdentity(ms: seq<Member>, b: Builtins)
    requires DistinctKeys(ms)
    requires forall i :: 0 <= i < |ms| ==> IsColumn(ms[i].value)
    ensures ParseColumns(ms, b) == Some(ms)
  {
    if ms != [] {
      var init := ms[..|ms| - 1];
      var m := ms[|ms| - 1];
      DistinctSnoc(ms);
      ParseColumnsIdentity(init, b);
      assert ParseItems(m.value.items, b) == m.value.items;
      assert ParseColumns(ms, b) == Some(Put(init, m.key, m.value));
    }
  }

  /** Parsing what `rowsToColumnar` built gives the same table back. */
  lemma ColumnarRoundTrip(rows: seq<Row>, b: Builtins)
    ensures ParsedTable(Obj(Columnar(rows, b)), b) == Some(Columnar(rows, b))
  {
    ParsedColumnarTable(Columnar(rows, b), b);
  }

  /** A table with distinct names whose members all hold columns is parsed back unchanged. */
  lemma ParsedColumnarTable(t: Row, b: Builtins)
    requires DistinctKeys(t) && IsColumnar(t)
    ensures ParsedTable(Obj(t), b) == Some(t)
  {
    ColumnarMembers(t);
    ParseColumnsIdentity(t, b);
    assert ParsedTable(Obj(t), b) == ParseColumns(t, b);
  }

  /** In a table with distinct names, every member holds a column. */
  lemma ColumnarMembers(t: Row)
    requires DistinctKeys(t) && IsColumnar(t)
    ensures forall i :: 0 <= i < |t| ==> IsColumn(t[i].value)
  {
    forall i | 0 <= i < |t|
      ensures IsColumn(t[i].value)
    {
      IndexOfDistinct(t, i);
      assert HasKey(t, t[i].key);
    }
  }

  // ---------------------------------------------------------------------
  // toJsonValue and asJsonObject
  // ---------------------------------------------------------------------

  /** Deepest nesting level `toJsonValue` accepts. */
  const MaxDepth: nat := 8

  /** x, found at nesting level depth, is within the depth bound and holds only convertible values. */
  predicate Convertible(x: JsValue, depth: nat)
    decreases x
  {
    depth <= MaxDepth &&
    match x
    case Undefined => false
    case BigInt(_) => false
    case Sym => false
    case Func => false
    case Arr(items) => forall i :: 0 <= i < |items| ==> Convertible(items[i], depth + 1)
    case Obj(ms) => forall i :: 0 <= i < |ms| ==> Convertible(ms[i].value, depth + 1)
    case _ => true
  }

  /** A JSON value: null, strings, numbers, booleans, arrays and objects with distinct keys. */
  predicate IsJson(x: JsValue)
    decreases x
  {
    match x
    case Null => true
    case Str(_) => true
    case Num(_) => true
    case Bool(_) => true
    case Arr(items) => forall i :: 0 <= i < |items| ==> IsJson(items[i])
    case Obj(ms) => DistinctKeys(ms) && forall i :: 0 <= i < |ms| ==> IsJson(ms[i].value)
    case _ => false
  }

  /** `toJsonValue(x, depth)`, with None for `undefined`. */
  function ToJsonValue(x: JsValue, depth: nat): (r: Option<JsValue>)
    ensures r.Some? <==> Convertible(x, depth)
    ensures r.Some? ==> IsJson(r.value)
    ensures r.Some? ==> (r.value.Obj? <==> x.Obj? || x.Date?) && (r.value.Arr? <==> x.Arr?)
    decreases x
  {
    if depth > MaxDepth then None
    else
      match x
      case Null => Some(Null)
      case Str(_) => Some(x)
      case Num(_) => Some(x)
      case Bool(_) => Some(x)
      case Arr(items) =>
        (match ToJsonItems(items, depth + 1)
         case Some(vs) => Some(Arr(vs))
         case None => None)
      case Obj(ms) =>
        (match ToJsonMembers(ms, depth + 1)
         case Some(out) => Some(Obj(out))
         case None => None)
      case Date(_) => Some(Obj([]))  // typeof 'object' with no own entries
      case _ => None
  }

  /** The array loop: every element converted, or None at the first that is not. */
  function ToJsonItems(items: seq<JsValue>, depth: nat): (r: Option<seq<JsValue>>)
    ensures r.Some? <==> forall i :: 0 <= i < |items| ==> Convertible(items[i], depth)
    ensures r.Some? ==> |r.value| == |items| && forall i :: 0 <= i < |items| ==> IsJson(r.value[i])
    decreases items
  {
    if items == [] then Some([])
    else
      assert forall i :: 0 <= i < |items| - 1 ==> items[..|items| - 1][i] == items[i];
      match ToJsonItems(items[..|items| - 1], depth)
      case None => None
      case Some(vs) =>
        match ToJsonValue(items[|items| - 1], depth)
        case None => None
        case Some(v) => Some(vs + [v])
  }

  /** The object loop: `out[k] = j` for every entry, or None at the first that fails. */
  function ToJsonMembers(ms: seq<Member>, depth: nat): (r: Option<Row>)
    ensures r.Some? <==> forall i :: 0 <= i < |ms| ==> Convertible(ms[i].value, depth)
    ensures r.Some? ==> DistinctKeys(r.value) && forall i :: 0 <= i < |r.value| ==> IsJson(r.value[i].value)
    decreases ms
  {
    if ms == [] then Some([])
    else
      assert forall i :: 0 <= i < |ms| - 1 ==> ms[..|ms| - 1][i] == ms[i];
      match ToJsonMembers(ms[..|ms| - 1], depth)
      case None => None
      case Some(out) =>
        var m := ms[|ms| - 1];
        match ToJsonValue(m.value, depth)
        case None => None
        case Some(j) => PutJsonMember(out, m.key, j); Some(Put(out, m.key, j))
  }

  lemma PutJsonMember(out: Row, k: string, j: JsValue)
    requires DistinctKeys(out) && forall i :: 0 <= i < |out| ==> IsJson(out[i].value)
    requires IsJson(j)
    ensures var r := Put(out, k, j);
      DistinctKeys(r) && forall i :: 0 <= i < |r| ==> IsJson(r[i].value)
  {
    PutMembers(out, k, j);
    var r := Put(out, k, j);
    forall i | 0 <= i < |r|
      ensures IsJson(r[i].value)
    {
      assert r[i] in r;
    }
  }

  /** A JSON value within the depth bound comes back unchanged. */
  lemma {:induction false} ToJsonIdentity(x: JsValue, depth: nat)
    requires IsJson(x) && Convertible(x, depth)
    ensures ToJsonValue(x, depth) == Some(x)
    decreases x
  {
    match x
    case Arr(items) => ToJsonItemsIdentity(items, depth + 1);
    case Obj(ms) => ToJsonMembersIdentity(ms, depth + 1);
    case _ =>
  }

  lemma {:induction false} ToJsonItemsIdentity(items: seq<JsValue>, depth: nat)
    requires forall i :: 0 <= i < |items| ==> IsJson(items[i]) && Convertible(items[i], depth)
    ensures ToJsonItems(items, depth) == Some(items)
    decreases items
  {
    if items != [] {
      ToJsonItemsIdentity(items[..|items| - 1], depth);
      ToJsonIdentity(items[|items| - 1], depth);
      assert items == items[..|items| - 1] + [items[|items| - 1]];
    }
  }

  lemma {:induction false} ToJsonMembersIdentity(ms: seq<Member>, depth: nat)
    requires DistinctKeys(ms)
    requires forall i :: 0 <= i < |ms| ==> IsJson(ms[i].value) && Convertible(ms[i].value, depth)
    ensures ToJsonMembers(ms, depth) == Some(ms)
    decreases ms
  {
    if ms != [] {
      var init := ms[..|ms| - 1];
      var m := ms[|ms| - 1];
      DistinctSnoc(ms);
      ToJsonMembersIdentity(init, depth);
      ToJsonIdentity(m.value, depth);
      assert ToJsonMembers(ms, depth) == Some(Put(init, m.key, m.value));
    }
  }

  /** `asJsonObject`: the converted value when it is a plain object. */
  function AsJsonObject(x: JsValue): (r: Option<JsValue>)
    ensures r.Some? <==> (x.Obj? || x.Date?) && Convertible(x, 0)
    ensures r.Some? ==> r.value.Obj? && IsJson(r.value)
  {
    var v := ToJsonValue(x, 0);
    if v.Some? && Truthy(v.value) && IsTypeofObject(v.value) && !v.value.Arr? then v else None
  }
}

/**
  The JavaScript values the backend and frontend code handle, and the
  built-ins whose behaviour this model does not spell out.

  A plain object is an ordered list of members (enumeration order); the
  source only ever builds objects with distinct keys.
 */
module Js {
  import opened Wrappers

  /** An IEEE number, with the finite values kept exact. */
  datatype Number = Finite(value: real) | NaN | Infinity(negative: bool) {
    /** `Number.isFinite` */
    predicate IsFinite() { Finite? }
  }

  datatype JsValue =
    | Undefined
    | Null
    | Bool(b: bool)
    | Num(n: Number)
    | Str(s: string)
    | BigInt(i: int)
    | Sym
    | Func
    | Date(time: Number)
    | Arr(items: seq<JsValue>)
    | Obj(members: seq<Member>)

  datatype Member = Member(key: string, value: JsValue)

  /** A database row: `Record<string, unknown>`. */
  type Row = seq<Member>

  /** JavaScript truthiness (`if (v)`, `!v`, `||`). */
  predicate Truthy(v: JsValue) {
    match v
    case Undefined => false
    case Null => false
    case Bool(b) => b
    case Num(n) => !(n.NaN? || n == Finite(0.0))
    case Str(s) => s != []
    case BigInt(i) => i != 0
    case _ => true
  }

  /** `typeof v === 'object'` (null included, as in JavaScript). */
  predicate IsTypeofObject(v: JsValue) {
    v.Null? || v.Date? || v.Arr? || v.Obj?
  }

  /** `Object.keys(row)` */
  function Keys(row: Row): (ks: seq<string>)
    ensures |ks| == |row|
    ensures forall i :: 0 <= i < |row| ==> ks[i] == row[i].key
  {
    seq(|row|, i requires 0 <= i < |row| => row[i].key)
  }

  predicate DistinctKeys(row: Row) {
    forall i, j :: 0 <= i < j < |row| ==> row[i].key != row[j].key
  }

  /** Position of the member named `k`, or |row|. */
  function IndexOfKey(row: Row, k: string): (i: nat)
    ensures i <= |row|
    ensures i < |row| ==> row[i].key == k
    ensures forall j :: 0 <= j < i ==> row[j].key != k
  {
    if row == [] then 0 else if row[0].key == k then 0 else 1 + IndexOfKey(row[1..], k)
  }

  predicate HasKey(row: Row, k: string) {
    IndexOfKey(row, k) < |row|
  }

  /** `obj[k]`, where a missing own property reads as `undefined`. */
  function Get(row: Row, k: string): JsValue {
    var i := IndexOfKey(row, k);
    if i < |row| then row[i].value else Undefined
  }

  /** `obj[k] = v`: an existing key keeps its position, a new key goes last. */
  function Put(row: Row, k: string, v: JsValue): (r: Row)
    ensures Get(r, k) == v
    ensures forall k' :: k' != k ==> Get(r, k') == Get(row, k')
    ensures forall k' :: HasKey(r, k') <==> HasKey(row, k') || k' == k
    ensures DistinctKeys(row) ==> DistinctKeys(r)
    ensures HasKey(row, k) ==> |r| == |row| && Keys(r) == Keys(row)
    ensures !HasKey(row, k) ==> Keys(r) == Keys(row) + [k]
  {
    var i := IndexOfKey(row, k);
    if i < |row| then
      PutExisting(row, k, v);
      row[i := Member(k, v)]
    else
      PutNew(row, k, v);
      row + [Member(k, v)]
  }

  lemma PutExisting(row: Row, k: string, v: JsValue)
    requires HasKey(row, k)
    ensures var r := row[IndexOfKey(row, k) := Member(k, v)];
      && Get(r, k) == v
      && (forall k' :: k' != k ==> Get(r, k') == Get(row, k'))
      && (forall k' :: HasKey(r, k') <==> HasKey(row, k'))
      && (DistinctKeys(row) ==> DistinctKeys(r))
      && Keys(r) == Keys(row)
  {
    var i := IndexOfKey(row, k);
    var r := row[i := Member(k, v)];
    forall k' ensures IndexOfKey(r, k') == IndexOfKey(row, k') {
      IndexOfKeyUpdate(row, i, Member(k, v), k');
    }
    assert Keys(r) == Keys(row);
  }

  lemma PutNew(row: Row, k: string, v: JsValue)
    requires !HasKey(row, k)
    ensures var r := row + [Member(k, v)];
      && Get(r, k) == v
      && (forall k' :: k' != k ==> Get(r, k') == Get(row, k'))
      && (forall k' :: HasKey(r, k') <==> HasKey(row, k') || k' == k)
      && (DistinctKeys(row) ==> DistinctKeys(r))
      && Keys(r) == Keys(row) + [k]
  {
    var r := row + [Member(k, v)];
    forall k' ensures IndexOfKey(r, k') == if IndexOfKey(row, k') < |row| || k' == k then IndexOfKey(row, k') else |row| + 1 {
      IndexOfKeyAppend(row, Member(k, v), k');
    }
    assert Keys(r) == Keys(row) + [k];
  }

  lemma IndexOfKeyUpdate(row: Row, i: nat, m: Member, k: string)
    requires i < |row| && m.key == row[i].key
    ensures IndexOfKey(row[i := m], k) == IndexOfKey(row, k)
  {
    var r := row[i := m];
    assert forall j :: 0 <= j < |row| ==> r[j].key == row[j].key;
  }

  lemma IndexOfKeyAppend(row: Row, m: Member, k: string)
    ensures IndexOfKey(row + [m], k) ==
      if IndexOfKey(row, k) < |row| || m.key == k then IndexOfKey(row, k) else |row| + 1
  {
    var r := row + [m];
    assert forall j :: 0 <= j < |row| ==> r[j] == row[j];
    assert r[|row|] == m;
  }

  /** The keys of an object whose last member is m are the others' keys, then m's. */
  lemma KeysSnoc(row: Row)
    requires row != []
    ensures Keys(row) == Keys(row[..|row| - 1]) + [row[|row| - 1].key]
  {
    var init := row[..|row| - 1];
    var a := Keys(row);
    var c := Keys(init) + [row[|row| - 1].key];
    forall i | 0 <= i < |a| ensures a[i] == c[i] {
      if i < |init| {
        assert init[i] == row[i];
        assert c[i] == Keys(init)[i];
      }
    }
  }

  /** Dropping the last member of an object with distinct keys leaves one without that key. */
  lemma DistinctSnoc(row: Row)
    requires row != [] && DistinctKeys(row)
    ensures var init := row[..|row| - 1];
      && row == init + [row[|row| - 1]]
      && DistinctKeys(init)
      && !HasKey(init, row[|row| - 1].key)
  {
    var init := row[..|row| - 1];
    var k := row[|row| - 1].key;
    forall j | 0 <= j < |init|
      ensures init[j].key != k
    {
      assert init[j] == row[j];
    }
  }

  /** Two objects with the same key sequence find every key at the same position. */
  lemma IndexOfKeyByKeys(a: Row, b: Row, k: string)
    requires Keys(a) == Keys(b)
    ensures IndexOfKey(a, k) == IndexOfKey(b, k)
  {
    assert |a| == |Keys(a)| == |b|;
    var i := IndexOfKey(a, k);
    assert forall j :: 0 <= j < |a| ==> a[j].key == Keys(a)[j] == b[j].key;
    if i < |a| {
      assert b[i].key == k;
    }
  }

  lemma HasKeyIffInKeys(row: Row, k: string)
    ensures HasKey(row, k) <==> k in Keys(row)
  {
    if k in Keys(row) {
      var j :| 0 <= j < |row| && Keys(row)[j] == k;
      assert row[j].key == k;
    }
  }

  /** In an object with distinct keys, each member is where its key is found. */
  lemma IndexOfDistinct(row: Row, i: nat)
    requires DistinctKeys(row) && i < |row|
    ensures IndexOfKey(row, row[i].key) == i && Get(row, row[i].key) == row[i].value
  {
  }

  /** Writing the same key twice leaves only the second write. */
  lemma PutTwice(row: Row, k: string, v: JsValue, w: JsValue)
    ensures Put(Put(row, k, v), k, w) == Put(row, k, w)
  {
    var i := IndexOfKey(row, k);
    if i == |row| {
      IndexOfKeyAppend(row, Member(k, v), k);
    }
  }

  /** A write keeps the old members and adds only the written one. */
  lemma PutMembers(row: Row, k: string, v: JsValue)
    ensures forall m :: m in Put(row, k, v) ==> m in row || m == Member(k, v)
  {
  }

  /**
    The JavaScript built-ins the model leaves uninterpreted. Each is a pure
    function of its argument, handed in by the caller.
   */
  datatype Builtins = Builtins(
    /** `JSON.stringify(v)`; None when it returns undefined or throws. */
    stringify: JsValue -> Option<string>,
    /** `JSON.parse(s)`; None when it throws. */
    parse: string -> Option<JsValue>,
    /** `Number(v)` */
    toNumber: JsValue -> Number,
    /** `new Date(t).toISOString()` */
    isoString: Number -> string,
    /** `Buffer.byteLength(JSON.stringify(rows), 'utf8')` */
    rowsByteLength: seq<Row> -> nat,
    /** `JSON.parse(JSON.stringify(rows))` */
    reparseRows: seq<Row> -> seq<Row>
  )
}

/**
  The lexical SQL guard: it decides from the text alone whether a generated
  query may run, and returns the text to run with a row limit appended.

  Every regular expression of the guard is written out below as a scanner
  over characters that follows the JavaScript engine's matching order
  (leftmost start, greedy runs, lazy groups, backtracking), so that odd
  inputs behave exactly as they do in the service.
 */
module SqlGuard {
  import opened Wrappers
  import opened Text
  import Seqs

  datatype Dialect = Postgresql | Mysql

  /**
    The options the guard reads. An absent `allowedSchemas` is the empty list
    (both skip the schema check); `forceLimit` falls back to 101 when absent.
    The dialect, the timeout and the unused size options are carried but read
    by no check.
   */
  datatype GuardOptions = GuardOptions(
    workspaceId: int,
    dialect: Dialect,
    allowedSchemas: seq<string>,
    forceLimit: Option<int>,
    forbidFreeJoins: bool,
    queryTimeoutMs: Option<int>)

  const DefaultForceLimit: int := 101

  /** A declared foreign key of the workspace, as the metadata store returns it. */
  datatype ForeignKey = ForeignKey(
    fromSchema: string, fromTable: string, fromColumn: string,
    toSchema: string, toTable: string, toColumn: string)

  datatype GuardError =
    | NotSelect
    | CteNotAllowed
    | KeywordNotAllowed(keyword: string)
    | SchemasNotAllowed(schemas: seq<string>)
    | UnqualifiedJoin
    | JoinNotForeignKey

  /** The text of the BadRequestException each violation raises. */
  function Message(e: GuardError): string {
    match e
    case NotSelect => "Only SELECT queries are allowed"
    case CteNotAllowed => "CTE (WITH) is not allowed"
    case KeywordNotAllowed(kw) => "Keyword not allowed: " + kw
    case SchemasNotAllowed(names) => "Access to schemas not allowed: " + Join(names, ", ")
    case UnqualifiedJoin => "JOINs must use qualified column names and match declared FKs"
    case JoinNotForeignKey => "JOINs must follow foreign key relationships for safety"
  }

  // ---------------------------------------------------------------------------
  // Comment stripping: `/--[^\n]*\n/g` -> "\n", then `/\/\*[\s\S]*?\*\//g` -> ""
  // ---------------------------------------------------------------------------

  /** Index of the first "*" "/" pair at or after `from`, or |s| when there is none. */
  function CloseIndex(s: string, from: nat): (j: nat)
    requires from <= |s|
    ensures from <= j <= |s|
    ensures j < |s| ==> j + 1 < |s| && s[j] == '*' && s[j + 1] == '/'
    ensures forall k :: from <= k < j && k + 1 < |s| ==> !(s[k] == '*' && s[k + 1] == '/')
    decreases |s| - from
  {
    if from + 1 >= |s| then |s|
    else if s[from] == '*' && s[from + 1] == '/' then from
    else CloseIndex(s, from + 1)
  }

  /** The first pass: a `--` comment is replaced by the newline that ends it. */
  function StripLineComments(s: string): string
    decreases |s|
  {
    if |s| < 2 then s
    else if s[0] == '-' && s[1] == '-' && '\n' in s[2..] then
      var j := 2 + FirstIndex(s[2..], '\n');
      "\n" + StripLineComments(s[j + 1..])
    else [s[0]] + StripLineComments(s[1..])
  }

  /** The second pass: a block comment is removed up to its nearest close. */
  function StripBlockComments(s: string): string
    decreases |s|
  {
    if |s| < 2 then s
    else if s[0] == '/' && s[1] == '*' && CloseIndex(s, 2) < |s| then
      StripBlockComments(s[CloseIndex(s, 2) + 2..])
    else [s[0]] + StripBlockComments(s[1..])
  }

  function StripComments(sql: string): string {
    StripBlockComments(StripLineComments(sql))
  }

  /** Text on one line without a slash holds no comment that either pass removes. */
  lemma StripCommentsPlain(sql: string)
    requires '\n' !in sql && '/' !in sql
    ensures StripComments(sql) == sql
  {
    LineStripWithoutNewline(sql);
    BlockStripWithoutSlash(sql);
  }

  // ---------------------------------------------------------------------------
  // Statement shape and keyword bans
  // ---------------------------------------------------------------------------

  /** The characters before the first `\s`. */
  function LeadingToken(s: string): (t: string)
    ensures StartsWith(s, t)
    ensures forall k :: 0 <= k < |t| ==> !IsSpace(t[k])
    ensures |t| < |s| ==> IsSpace(s[|t|])
  {
    if s == [] || IsSpace(s[0]) then [] else [s[0]] + LeadingToken(s[1..])
  }

  /** `sql.trim().toUpperCase().split(/\s+/)[0]` */
  function FirstToken(sql: string): string {
    LeadingToken(Upper(Trim(sql)))
  }

  predicate IsOnlySelect(sql: string) {
    var t := FirstToken(sql);
    t == "SELECT" || StartsWith(t, "WITH")
  }

  /** The first token covers any upper-case word the text begins with. */
  lemma LeadingTokenCovers(u: string, w: string)
    requires StartsWith(u, w) && forall k :: 0 <= k < |w| ==> 'A' <= w[k] <= 'Z'
    ensures |LeadingToken(u)| >= |w| && LeadingToken(u)[..|w|] == w
  {
    assert forall k :: 0 <= k < |w| ==> !IsSpace(w[k]);
    var t := LeadingToken(u);
    assert t[..|w|] == u[..|w|];
  }

  /** The first token is SELECT exactly when the text begins with SELECT followed by whitespace or the end. */
  lemma SelectToken(u: string, t: string)
    requires t == LeadingToken(u)
    ensures t == "SELECT" <==> StartsWith(u, "SELECT") && (|u| == 6 || IsSpace(u[6]))
  {
    if StartsWith(u, "SELECT") {
      var w := "SELECT";
      forall k | 0 <= k < |w|
        ensures 'A' <= w[k] <= 'Z'
      {
        assert k == 0 || k == 1 || k == 2 || k == 3 || k == 4 || k == 5;
      }
      LeadingTokenCovers(u, w);
      assert |t| > 6 ==> t[6] == u[6];
      if |u| == 6 || IsSpace(u[6]) {
        assert |t| == 6;
      }
    }
  }

  /** The first token begins with WITH exactly when the text does. */
  lemma WithToken(u: string, t: string)
    requires t == LeadingToken(u)
    ensures StartsWith(t, "WITH") <==> StartsWith(u, "WITH")
  {
    if StartsWith(u, "WITH") {
      LeadingTokenCovers(u, "WITH");
    }
    if StartsWith(t, "WITH") {
      assert u[..4] == t[..4];
    }
  }

  /**
    The statement test: the trimmed, upper-cased text begins with the word
    SELECT followed by whitespace or the end, or begins with WITH.
   */
  lemma OnlySelectIff(sql: string, u: string)
    requires u == Upper(Trim(sql))
    ensures IsOnlySelect(sql) <==>
      (StartsWith(u, "SELECT") && (|u| == 6 || IsSpace(u[6]))) || StartsWith(u, "WITH")
  {
    SelectToken(u, FirstToken(sql));
    WithToken(u, FirstToken(sql));
  }

  /** `w` occurs at i with a `\b` on both sides (w starts and ends with a word character). */
  predicate WordAt(s: string, w: string, i: int) {
    OccursAt(s, w, i)
    && (i == 0 || !IsWordChar(s[i - 1]))
    && (i + |w| == |s| || !IsWordChar(s[i + |w|]))
  }

  /** `/\bW\b/.test(s)`, scanning from position i. */
  predicate HasWordFrom(s: string, w: string, i: nat)
    decreases |s| - i
  {
    i + |w| <= |s| && (WordAt(s, w, i) || HasWordFrom(s, w, i + 1))
  }

  predicate HasWord(s: string, w: string) {
    HasWordFrom(s, w, 0)
  }

  /** `/\bWITH\s+/.test(s)` */
  predicate HasCteFrom(s: string, i: nat)
    decreases |s| - i
  {
    i + 5 <= |s|
    && ((OccursAt(s, "WITH", i) && (i == 0 || !IsWordChar(s[i - 1])) && IsSpace(s[i + 4]))
        || HasCteFrom(s, i + 1))
  }

  const ForbiddenKeywords: seq<string> :=
    ["INSERT", "UPDATE", "DELETE", "DROP", "ALTER", "CREATE", "TRUNCATE", "REINDEX", "ANALYZE", "VACUUM"]

  const DangerousKeywords: seq<string> := ["EXEC", "CALL", "COPY", "GRANT", "REVOKE"]

  /** `w` is the list's j-th keyword, occurs in `up`, and no keyword listed before it does. */
  predicate ListedFirstAt(up: string, kws: seq<string>, w: string, j: int) {
    0 <= j < |kws| && kws[j] == w && HasWord(up, w)
    && forall k :: 0 <= k < j ==> !HasWord(up, kws[k])
  }

  /** The first keyword of the list, in list order, that occurs in `up` as a whole word. */
  function FirstKeywordIn(up: string, kws: seq<string>): (r: Option<string>)
    ensures r.Some? ==> exists j :: ListedFirstAt(up, kws, r.value, j)
    ensures r.None? <==> forall k :: k in kws ==> !HasWord(up, k)
  {
    if kws == [] then None
    else if HasWord(up, kws[0]) then
      assert ListedFirstAt(up, kws, kws[0], 0);
      Some(kws[0])
    else
      var r := FirstKeywordIn(up, kws[1..]);
      if r.Some? then
        var j :| ListedFirstAt(up, kws[1..], r.value, j);
        assert ListedFirstAt(up, kws, r.value, j + 1);
        r
      else r
  }

  /**
    The CTE test runs first; otherwise the first forbidden keyword, in list
    order, is the one the message names.
   */
  function CteOrDdlOrDmlError(sql: string): (r: Option<GuardError>)
    ensures r.Some? ==> r.value.CteNotAllowed? || r.value.KeywordNotAllowed?
    ensures r == Some(CteNotAllowed) <==> HasCteFrom(Upper(sql), 0)
    ensures r.Some? && r.value.KeywordNotAllowed? ==>
      exists j :: ListedFirstAt(Upper(sql), ForbiddenKeywords, r.value.keyword, j)
  {
    var up := Upper(sql);
    if HasCteFrom(up, 0) then Some(CteNotAllowed)
    else match FirstKeywordIn(up, ForbiddenKeywords)
      case Some(kw) => Some(KeywordNotAllowed(kw))
      case None => None
  }

  /** The first dangerous keyword, in list order, is the one the message names. */
  function DangerousKeywordError(sql: string): (r: Option<GuardError>)
    ensures r.Some? ==> r.value.KeywordNotAllowed?
    ensures r.Some? ==> exists j :: ListedFirstAt(Upper(sql), DangerousKeywords, r.value.keyword, j)
  {
    match FirstKeywordIn(Upper(sql), DangerousKeywords)
    case Some(kw) => Some(KeywordNotAllowed(kw))
    case None => None
  }

  // ---------------------------------------------------------------------------
  // Schema references: `/([a-zA-Z_][\w]*)\.[a-zA-Z_][\w]*/g`, first part of each match
  // ---------------------------------------------------------------------------

  /** A match starting at i: its first part and the position where it ends. */
  function SchemaRefAt(s: string, i: nat): (r: Option<(string, nat)>)
    requires i < |s|
    ensures r.Some? ==> i < r.value.1 <= |s| && IsIdentifier(r.value.0)
    ensures r.Some? ==> OccursAt(s, r.value.0 + ".", i)
  {
    if !IsIdentStart(s[i]) then None
    else
      var a := WordRunEnd(s, i);
      if a + 1 < |s| && s[a] == '.' && IsIdentStart(s[a + 1]) then
        Some((s[i..a], WordRunEnd(s, a + 1)))
      else None
  }

  /** `[a-zA-Z_][\w]*` */
  predicate IsIdentifier(x: string) {
    x != [] && IsIdentStart(x[0]) && forall k :: 0 <= k < |x| ==> IsWordChar(x[k])
  }

  /**
    The global scan from `from`: the first part of every match, in text order,
    each search resuming where the previous match ended.
   */
  function ReferencedSchemasFrom(s: string, from: nat): (r: seq<string>)
    requires from <= |s|
    ensures forall x :: x in r ==> IsIdentifier(x) && Contains(s, x + ".")
    ensures r == [] <==> forall i :: from <= i < |s| ==> SchemaRefAt(s, i).None?
    decreases |s| - from
  {
    if from == |s| then []
    else match SchemaRefAt(s, from)
      case Some((name, e)) => [name] + ReferencedSchemasFrom(s, e)
      case None => ReferencedSchemasFrom(s, from + 1)
  }

  /** i is where the scan from `from` finds its next match. */
  predicate FirstSchemaRefFrom(s: string, from: nat, i: nat) {
    from <= i < |s| && SchemaRefAt(s, i).Some?
    && forall k :: from <= k < i ==> SchemaRefAt(s, k).None?
  }

  /** The scan reports the leftmost match first and continues after its end. */
  lemma {:induction false} ReferencedSchemasStep(s: string, from: nat, i: nat)
    requires FirstSchemaRefFrom(s, from, i)
    ensures ReferencedSchemasFrom(s, from)
        == [SchemaRefAt(s, i).value.0] + ReferencedSchemasFrom(s, SchemaRefAt(s, i).value.1)
    decreases i - from
  {
    if from < i {
      assert SchemaRefAt(s, from).None?;
      assert FirstSchemaRefFrom(s, from + 1, i);
      ReferencedSchemasStep(s, from + 1, i);
    }
  }

  /**
    `findReferencedSchemas`: every name before a dot of a dotted pair of
    identifiers, none when the text has no such pair.
   */
  function ReferencedSchemas(sql: string): (r: seq<string>)
    ensures forall x :: x in r ==> IsIdentifier(x) && Contains(sql, x + ".")
    ensures r == [] <==> forall i :: 0 <= i < |sql| ==> SchemaRefAt(sql, i).None?
  {
    ReferencedSchemasFrom(sql, 0)
  }

  /** The references not in the allowlist, in order, repeats included. */
  function Violations(refs: seq<string>, allowed: seq<string>): (v: seq<string>)
    ensures forall x :: x in v <==> x in refs && x !in allowed
  {
    if refs == [] then []
    else (if refs[0] in allowed then [] else [refs[0]]) + Violations(refs[1..], allowed)
  }

  /** Filtering keeps the relative order of the references it lets through. */
  lemma {:induction false} ViolationsOrder(refs: seq<string>, allowed: seq<string>, x: string, y: string)
    requires x in Violations(refs, allowed) && y in Violations(refs, allowed)
    ensures FirstIndex(Violations(refs, allowed), x) < FirstIndex(Violations(refs, allowed), y)
        <==> FirstIndex(refs, x) < FirstIndex(refs, y)
    decreases |refs|
  {
    var v := Violations(refs, allowed);
    var a, t := refs[0], refs[1..];
    assert refs == [a] + t;
    FirstIndexCons(a, t, x);
    FirstIndexCons(a, t, y);
    var vt := Violations(t, allowed);
    if a in allowed {
      assert v == vt;
      ViolationsOrder(t, allowed, x, y);
    } else {
      assert v == [a] + vt;
      FirstIndexCons(a, vt, x);
      FirstIndexCons(a, vt, y);
      if x != a && y != a {
        assert x in vt && y in vt;
        ViolationsOrder(t, allowed, x, y);
      }
    }
  }

  // ---------------------------------------------------------------------------
  // Joins: `/JOIN\s+([\w_]+\.)?([\w_]+)\s+ON\s+([^\n]+?)(?=\bJOIN\b|$)/gi`
  // ---------------------------------------------------------------------------

  /** c is the upper-case letter u or its lower-case form: one letter under the `i` flag. */
  predicate LetterCi(c: char, u: char) {
    c == u || c as int == u as int + 32
  }

  /** `JOIN` under the `i` flag at e. */
  predicate JoinWordAt(s: string, e: nat) {
    e + 4 <= |s|
    && LetterCi(s[e], 'J') && LetterCi(s[e + 1], 'O')
    && LetterCi(s[e + 2], 'I') && LetterCi(s[e + 3], 'N')
  }

  /** `ON` under the `i` flag at c. */
  predicate OnWordAt(s: string, c: nat) {
    c + 2 <= |s| && LetterCi(s[c], 'O') && LetterCi(s[c + 1], 'N')
  }

  /** The lookahead `(?=\bJOIN\b|$)` at position e. */
  predicate JoinLookahead(s: string, e: nat)
    requires e <= |s|
  {
    e == |s|
    || (JoinWordAt(s, e) && (e == 0 || !IsWordChar(s[e - 1]))
        && (e + 4 == |s| || !IsWordChar(s[e + 4])))
  }

  /** First position at or after p holding a newline, or |s|. */
  function LineEnd(s: string, p: nat): (l: nat)
    requires p <= |s|
    ensures p <= l <= |s|
    ensures forall k :: p <= k < l ==> s[k] != '\n'
    ensures l < |s| ==> s[l] == '\n'
    decreases |s| - p
  {
    if p == |s| || s[p] == '\n' then p else LineEnd(s, p + 1)
  }

  /** The lazy `([^\n]+?)`: the least end in [e, l] where the lookahead holds. */
  function LazyEnd(s: string, e: nat, l: nat): (r: Option<nat>)
    requires e <= l <= |s|
    ensures r.Some? ==> e <= r.value <= l && JoinLookahead(s, r.value)
    decreases l - e
  {
    if JoinLookahead(s, e) then Some(e) else if e == l then None else LazyEnd(s, e + 1, l)
  }

  /** The lazy group stops at the first position where the lookahead holds, and fails when there is none. */
  lemma {:induction false} LazyEndLeast(s: string, e: nat, l: nat)
    requires e <= l <= |s|
    ensures LazyEnd(s, e, l).Some? ==> forall k :: e <= k < LazyEnd(s, e, l).value ==> !JoinLookahead(s, k)
    ensures LazyEnd(s, e, l).None? <==> forall k :: e <= k <= l ==> !JoinLookahead(s, k)
    decreases l - e
  {
    if !JoinLookahead(s, e) && e < l {
      LazyEndLeast(s, e + 1, l);
    }
  }

  /** The ON predicate that starts at p, if the rest of the pattern can match from p. */
  function PredicateEnd(s: string, p: nat): (r: Option<nat>)
    requires p <= |s|
    ensures r.Some? ==> p < r.value <= |s|
  {
    var l := LineEnd(s, p);
    if l == p then None else LazyEnd(s, p + 1, l)
  }

  /**
    A predicate is at least one character long and ends at the first position
    of its own line where JOIN or the end of the text follows; there is none
    when no such position exists.
   */
  lemma PredicateEndMeaning(s: string, p: nat)
    requires p <= |s|
    ensures PredicateEnd(s, p).Some? ==>
      var e := PredicateEnd(s, p).value;
      && p < e <= LineEnd(s, p) && JoinLookahead(s, e)
      && forall k :: p < k < e ==> !JoinLookahead(s, k)
    ensures PredicateEnd(s, p).None? <==> forall k :: p < k <= LineEnd(s, p) ==> !JoinLookahead(s, k)
  {
    if LineEnd(s, p) > p {
      LazyEndLeast(s, p + 1, LineEnd(s, p));
    }
  }

  /** A predicate line that a newline ends before any JOIN gives no predicate. */
  lemma PredicateStopsAtNewline(s: string, p: nat, n: nat)
    requires p < n < |s| && s[n] == '\n'
    requires forall k :: p < k < n ==> !JoinWordAt(s, k)
    ensures PredicateEnd(s, p).None?
  {
    var l := LineEnd(s, p);
    assert l <= n;
    assert forall k :: p < k <= l ==> !JoinLookahead(s, k);
    PredicateEndMeaning(s, p);
  }

  /**
    The `\s+` after ON gives back characters one at a time when the predicate
    cannot end: starts are tried from p down to d + 1.
   */
  function PredicateFrom(s: string, d: nat, p: nat): (r: Option<(nat, nat)>)
    requires d < p <= |s|
    ensures r.Some? ==> d < r.value.0 < r.value.1 <= |s|
    decreases p
  {
    match PredicateEnd(s, p)
    case Some(e) => Some((p, e))
    case None => if p == d + 1 then None else PredicateFrom(s, d, p - 1)
  }

  /** Backtracking keeps the latest start in (d, p] that has a predicate. */
  lemma {:induction false} PredicateFromLatest(s: string, d: nat, p: nat, q: nat, e: nat)
    requires d < p <= |s| && PredicateFrom(s, d, p) == Some((q, e))
    ensures q <= p && PredicateEnd(s, q) == Some(e)
    ensures forall k :: q < k <= p ==> PredicateEnd(s, k).None?
    decreases p
  {
    if PredicateEnd(s, p).None? {
      PredicateFromLatest(s, d, p - 1, q, e);
    }
  }

  /** Backtracking reaches every start in (d, p], so one with a predicate is found. */
  lemma {:induction false} PredicateFromFinds(s: string, d: nat, p: nat, k: nat)
    requires d < k <= p <= |s| && PredicateEnd(s, k).Some?
    ensures PredicateFrom(s, d, p).Some?
    decreases p
  {
    if k < p && PredicateEnd(s, p).None? {
      PredicateFromFinds(s, d, p - 1, k);
    }
  }

  /** Backtracking fails exactly when no start in (d, p] has a predicate. */
  lemma PredicateFromNone(s: string, d: nat, p: nat)
    requires d < p <= |s|
    ensures PredicateFrom(s, d, p).None? <==> forall k :: d < k <= p ==> PredicateEnd(s, k).None?
  {
    if PredicateFrom(s, d, p).None? {
      forall k | d < k <= p ensures PredicateEnd(s, k).None? {
        if PredicateEnd(s, k).Some? {
          PredicateFromFinds(s, d, p, k);
        }
      }
    } else {
      var (q, e) := PredicateFrom(s, d, p).value;
      PredicateFromLatest(s, d, p, q, e);
    }
  }

  /** `JOIN\s+([\w_]+\.)?([\w_]+)\s+ON` anchored at i: the position right after ON. */
  function JoinHead(s: string, i: nat): (r: Option<nat>)
    requires i <= |s|
    ensures r.Some? ==> i + 4 < r.value <= |s| && JoinWordAt(s, i)
  {
    if !JoinWordAt(s, i) then None
    else
      var b := SpaceRunEnd(s, i + 4);
      if b == i + 4 then None
      else
        var w1 := WordRunEnd(s, b);
        if w1 == b then None
        else
          var dotted := w1 < |s| && s[w1] == '.';
          var t := if dotted then WordRunEnd(s, w1 + 1) else w1;
          if dotted && t == w1 + 1 then None
          else
            var c := SpaceRunEnd(s, t);
            if c == t || !OnWordAt(s, c) then None
            else Some(c + 2)
  }

  /** The join pattern anchored at i: the bounds of its third group. */
  function JoinMatchAt(s: string, i: nat): (r: Option<(nat, nat)>)
    requires i <= |s|
    ensures r.Some? ==> i < r.value.0 < r.value.1 <= |s|
  {
    match JoinHead(s, i)
    case None => None
    case Some(d) =>
      var f := SpaceRunEnd(s, d);
      if f == d then None else PredicateFrom(s, d, f)
  }

  /**
    A match has a head ending in ON, and its predicate starts after the
    spaces that follow ON and is one in the sense of PredicateEnd.
   */
  lemma JoinMatchAtShape(s: string, i: nat)
    requires i <= |s|
    ensures JoinMatchAt(s, i).Some? ==>
      && JoinHead(s, i).Some?
      && var d := JoinHead(s, i).value;
      var (p, e) := JoinMatchAt(s, i).value;
      && d < p <= SpaceRunEnd(s, d) && PredicateEnd(s, p) == Some(e)
  {
    if JoinHead(s, i).Some? {
      var d := JoinHead(s, i).value;
      var f := SpaceRunEnd(s, d);
      if f > d && PredicateFrom(s, d, f).Some? {
        var (p, e) := PredicateFrom(s, d, f).value;
        PredicateFromLatest(s, d, f, p, e);
      }
    }
  }

  /** `joinRegex.exec(sql)` with `lastIndex == from`. */
  function NextJoinMatch(s: string, from: nat): (r: Option<(nat, nat)>)
    requires from <= |s|
    ensures r.Some? ==> from < r.value.0 < r.value.1 <= |s|
    decreases |s| - from
  {
    match JoinMatchAt(s, from)
    case Some(m) => Some(m)
    case None => if from == |s| then None else NextJoinMatch(s, from + 1)
  }

  /** The pattern matches at no position in [from, i). */
  predicate NoJoinMatchIn(s: string, from: nat, i: nat)
    requires from <= i <= |s|
    decreases i - from
  {
    from == i || (JoinMatchAt(s, from).None? && NoJoinMatchIn(s, from + 1, i))
  }

  lemma {:induction false} NoJoinMatchInAll(s: string, from: nat, i: nat)
    requires from <= i <= |s|
    requires forall k :: from <= k < i ==> JoinMatchAt(s, k).None?
    ensures NoJoinMatchIn(s, from, i)
    decreases i - from
  {
    if from < i {
      NoJoinMatchInAll(s, from + 1, i);
    }
  }

  lemma {:induction false} NextJoinMatchSkipIn(s: string, from: nat, i: nat)
    requires from <= i <= |s| && NoJoinMatchIn(s, from, i)
    ensures NextJoinMatch(s, from) == NextJoinMatch(s, i)
    decreases i - from
  {
    if from < i {
      assert JoinMatchAt(s, from).None? && NoJoinMatchIn(s, from + 1, i);
      NextJoinMatchStep(s, from);
      NextJoinMatchSkipIn(s, from + 1, i);
      assert NextJoinMatch(s, from) == NextJoinMatch(s, from + 1) == NextJoinMatch(s, i);
    }
  }

  /**
    The search skips the positions where the pattern does not match, so the
    leftmost match wins.
   */
  lemma NextJoinMatchSkip(s: string, from: nat, i: nat)
    requires from <= i <= |s|
    requires forall k :: from <= k < i ==> JoinMatchAt(s, k).None?
    ensures NextJoinMatch(s, from) == NextJoinMatch(s, i)
  {
    NoJoinMatchInAll(s, from, i);
    NextJoinMatchSkipIn(s, from, i);
  }

  lemma NextJoinMatchStep(s: string, from: nat)
    requires from < |s| && JoinMatchAt(s, from).None?
    ensures NextJoinMatch(s, from) == NextJoinMatch(s, from + 1)
  {
  }

  /** The search fails when no position from `from` on matches. */
  lemma NextJoinMatchNone(s: string, from: nat)
    requires from <= |s|
    requires forall k :: from <= k < |s| ==> JoinMatchAt(s, k).None?
    ensures NextJoinMatch(s, from).None?
  {
    NextJoinMatchSkip(s, from, |s|);
    assert JoinHead(s, |s|).None?;
  }

  /** One `a.b = c.d` found in an ON predicate, each side kept as "x.y" text. */
  datatype Comparison = Comparison(left: string, right: string)

  /**
    Where the equality pattern's runs end: the first word run ends at a (a
    dot), the second at b, the spaces before `=` at c, those after it at d,
    the third word run at e (a dot) and the last at f.
   */
  datatype EqualitySpan = EqualitySpan(a: nat, b: nat, c: nat, d: nat, e: nat, f: nat)

  /** The runs of `p` make up the equality pattern from j. */
  predicate SpanRuns(t: string, j: nat, p: EqualitySpan) {
    j < p.a && p.a + 1 < p.b <= p.c < p.d < p.e && p.e + 1 < p.f <= |t|
    && t[p.a] == '.' && t[p.c] == '=' && t[p.e] == '.'
    && (forall k :: j <= k < p.a ==> IsWordChar(t[k]))
    && (forall k :: p.a < k < p.b ==> IsWordChar(t[k]))
    && (forall k :: p.b <= k < p.c ==> IsSpace(t[k]))
    && (forall k :: p.c < k < p.d ==> IsSpace(t[k]))
    && (forall k :: p.d <= k < p.e ==> IsWordChar(t[k]))
    && (forall k :: p.e < k < p.f ==> IsWordChar(t[k]))
    && (p.f == |t| || !IsWordChar(t[p.f]))
  }

  /** `([\w_]+)\.([\w_]+)` anchored at i, greedy runs: where the dot is and where the pair ends. */
  function DottedPairAt(t: string, i: nat): Option<(nat, nat)>
    requires i <= |t|
  {
    var a := WordRunEnd(t, i);
    if a == i || a == |t| || t[a] != '.' then None
    else
      var b := WordRunEnd(t, a + 1);
      if b == a + 1 then None else Some((a, b))
  }

  /** `\s*=\s*` anchored at b: where `=` is and where the spaces after it end. */
  function EqualsSignAt(t: string, b: nat): Option<(nat, nat)>
    requires b <= |t|
  {
    var c := SpaceRunEnd(t, b);
    if c == |t| || t[c] != '=' then None else Some((c, SpaceRunEnd(t, c + 1)))
  }

  /** `/([\w_]+)\.([\w_]+)\s*=\s*([\w_]+)\.([\w_]+)/` anchored at j, greedy runs. */
  function EqualitySpanAt(t: string, j: nat): Option<EqualitySpan>
    requires j <= |t|
  {
    match DottedPairAt(t, j)
    case None => None
    case Some((a, b)) =>
      match EqualsSignAt(t, b)
      case None => None
      case Some((c, d)) =>
        match DottedPairAt(t, d)
        case None => None
        case Some((e, f)) => Some(EqualitySpan(a, b, c, d, e, f))
  }

  /** What the scan finds at j is a layout of the pattern's runs. */
  lemma EqualitySpanAtRuns(t: string, j: nat)
    requires j <= |t|
    ensures EqualitySpanAt(t, j).Some? ==> SpanRuns(t, j, EqualitySpanAt(t, j).value)
  {
  }

  /**
    The match at j with the position where it ends. `${e[1]}.${e[2]}` is the
    text of the first two runs and the dot between them, and likewise for the
    right side.
   */
  function EqualityAt(t: string, j: nat): (r: Option<(Comparison, nat)>)
    requires j <= |t|
    ensures r.Some? ==> j < r.value.1 <= |t|
  {
    match EqualitySpanAt(t, j)
    case None => None
    case Some(p) =>
      EqualitySpanAtRuns(t, j);
      Some((Comparison(t[j..p.b], t[p.d..p.f]), p.f))
  }

  /** Both sides of a match have the "x.y" form. */
  lemma EqualityAtQualified(t: string, j: nat, cmp: Comparison, f: nat)
    requires j <= |t| && EqualityAt(t, j) == Some((cmp, f))
    ensures Qualified(cmp.left) && Qualified(cmp.right)
  {
    var p := EqualitySpanAt(t, j).value;
    EqualitySpanAtRuns(t, j);
    WordRunQualified(t, j, p.a, p.b);
    WordRunQualified(t, p.d, p.e, p.f);
  }

  /**
    The comparison read at j and ending at f: the runs of the pattern start at
    j, and each side is the text of one `name.name` pair.
   */
  ghost predicate EqualityText(t: string, j: nat, cmp: Comparison, f: nat) {
    exists p :: SpanRuns(t, j, p) && p.f == f && cmp == Comparison(t[j..p.b], t[p.d..p.f])
  }

  /** A match is the `a.b = c.d` text at j, each side the pair of runs it captured. */
  lemma EqualityAtText(t: string, j: nat, cmp: Comparison, f: nat)
    requires j <= |t| && EqualityAt(t, j) == Some((cmp, f))
    ensures EqualityText(t, j, cmp, f)
  {
    var p := EqualitySpanAt(t, j).value;
    EqualitySpanAtRuns(t, j);
  }

  /** "x.y" with x and y non-empty and free of dots: what the equality pattern captures per side. */
  predicate Qualified(x: string) {
    var parts := Split(x, '.');
    |parts| == 2 && parts[0] != [] && parts[1] != []
  }

  lemma WordRunQualified(t: string, i: nat, a: nat, b: nat)
    requires i < a && a + 1 < b <= |t|
    requires forall k :: i <= k < a ==> IsWordChar(t[k])
    requires forall k :: a < k < b ==> IsWordChar(t[k])
    requires t[a] == '.'
    ensures Qualified(t[i..b])
  {
    assert t[i..b] == t[i..a] + "." + t[a + 1..b];
    var x, y := t[i..a], t[a + 1..b];
    assert forall k :: 0 <= k < |x| ==> IsWordChar(x[k]);
    assert forall k :: 0 <= k < |y| ==> IsWordChar(y[k]);
    SplitPair(x, '.', y);
  }

  /**
    `onExpr.matchAll(...)` from position `from`: the comparison of every
    match, in text order, each search resuming where the previous match ended.
   */
  function Equalities(t: string, from: nat): (r: seq<Comparison>)
    requires from <= |t|
    decreases |t| - from
  {
    if from == |t| then []
    else match EqualityAt(t, from)
      case Some((cmp, f)) => [cmp] + Equalities(t, f)
      case None => Equalities(t, from + 1)
  }

  predicate NoEqualityIn(t: string, from: nat, i: nat)
    requires from <= i <= |t|
    decreases i - from
  {
    from == i || (EqualityAt(t, from).None? && NoEqualityIn(t, from + 1, i))
  }

  lemma {:induction false} NoEqualityInAll(t: string, from: nat, i: nat)
    requires from <= i <= |t|
    requires forall k :: from <= k < i ==> EqualityAt(t, k).None?
    ensures NoEqualityIn(t, from, i)
    decreases i - from
  {
    if from < i {
      NoEqualityInAll(t, from + 1, i);
    }
  }

  lemma EqualitiesStep(t: string, from: nat)
    requires from < |t| && EqualityAt(t, from).None?
    ensures Equalities(t, from) == Equalities(t, from + 1)
  {
  }

  lemma {:induction false} EqualitiesSkipIn(t: string, from: nat, i: nat)
    requires from <= i <= |t| && NoEqualityIn(t, from, i)
    ensures Equalities(t, from) == Equalities(t, i)
    decreases i - from
  {
    if from < i {
      EqualitiesStep(t, from);
      EqualitiesSkipIn(t, from + 1, i);
    }
  }

  /** The scan skips the positions where no equality starts. */
  lemma EqualitiesSkip(t: string, from: nat, i: nat)
    requires from <= i <= |t|
    requires forall k :: from <= k < i ==> EqualityAt(t, k).None?
    ensures Equalities(t, from) == Equalities(t, i)
  {
    NoEqualityInAll(t, from, i);
    EqualitiesSkipIn(t, from, i);
  }

  /** The scan reports nothing when no equality starts at or after `from`. */
  lemma EqualitiesNone(t: string, from: nat)
    requires from <= |t|
    requires forall k :: from <= k < |t| ==> EqualityAt(t, k).None?
    ensures Equalities(t, from) == []
  {
    EqualitiesSkip(t, from, |t|);
  }

  /** An equality found at i is reported, and the scan resumes at its end. */
  lemma EqualitiesFound(t: string, i: nat, cmp: Comparison, f: nat)
    requires i < |t| && EqualityAt(t, i) == Some((cmp, f))
    ensures Equalities(t, i) == [cmp] + Equalities(t, f)
  {
  }

  /** All comparisons of the joins found at or after `from`, in text order. */
  function ComparisonsFrom(s: string, from: nat): (r: seq<Comparison>)
    requires from <= |s|
    decreases |s| - from
  {
    match NextJoinMatch(s, from)
    case Some((p, e)) => Equalities(s[p..e], 0) + ComparisonsFrom(s, e)
    case None => []
  }

  function Comparisons(sql: string): seq<Comparison> {
    ComparisonsFrom(sql, 0)
  }

  /** Every comparison has the "x.y" form on both sides. */
  predicate AllQualified(cs: seq<Comparison>) {
    forall c :: c in cs ==> Qualified(c.left) && Qualified(c.right)
  }

  lemma QualifiedCons(cmp: Comparison, rest: seq<Comparison>)
    requires Qualified(cmp.left) && Qualified(cmp.right)
    requires AllQualified(rest)
    ensures AllQualified([cmp] + rest)
  {
  }

  lemma EqualitiesQualifiedFound(t: string, from: nat, cmp: Comparison, f: nat)
    requires from < |t| && EqualityAt(t, from) == Some((cmp, f))
    requires AllQualified(Equalities(t, f))
    ensures AllQualified(Equalities(t, from))
  {
    EqualitiesFound(t, from, cmp, f);
    EqualityAtQualified(t, from, cmp, f);
    QualifiedCons(cmp, Equalities(t, f));
  }

  /** Every comparison the scan of a predicate reports has the "x.y" form on both sides. */
  lemma {:induction false} EqualitiesQualified(t: string, from: nat)
    requires from <= |t|
    ensures AllQualified(Equalities(t, from))
    decreases |t| - from
  {
    if from < |t| {
      var m := EqualityAt(t, from);
      if m.Some? {
        EqualitiesQualified(t, m.value.1);
        EqualitiesQualifiedFound(t, from, m.value.0, m.value.1);
      } else {
        EqualitiesQualified(t, from + 1);
        EqualitiesStep(t, from);
      }
    }
  }

  /** Every comparison extracted from the joins has the "x.y" form on both sides. */
  lemma {:induction false} ComparisonsQualified(s: string, from: nat)
    requires from <= |s|
    ensures AllQualified(ComparisonsFrom(s, from))
    decreases |s| - from
  {
    match NextJoinMatch(s, from)
    case Some((p, e)) =>
      EqualitiesQualified(s[p..e], 0);
      ComparisonsQualified(s, e);
    case None =>
  }

  /** `schema.table.column->schema.table.column` */
  function PairKey(s1: string, t1: string, c1: string, s2: string, t2: string, c2: string): string {
    s1 + "." + t1 + "." + c1 + "->" + s2 + "." + t2 + "." + c2
  }

  /** The key of a foreign key read from its referencing side. */
  function Forward(fk: ForeignKey): string {
    PairKey(fk.fromSchema, fk.fromTable, fk.fromColumn, fk.toSchema, fk.toTable, fk.toColumn)
  }

  /** The key of a foreign key read from its referenced side. */
  function Backward(fk: ForeignKey): string {
    PairKey(fk.toSchema, fk.toTable, fk.toColumn, fk.fromSchema, fk.fromTable, fk.fromColumn)
  }

  /** The `allowedPairs` set: each foreign key in both directions. */
  function PairKeys(fks: seq<ForeignKey>): set<string> {
    if fks == [] then {}
    else PairKeys(fks[..|fks| - 1]) + {Forward(fks[|fks| - 1]), Backward(fks[|fks| - 1])}
  }

  /** The one candidate key built for a comparison; the schema slot is filled only for three parts. */
  function Candidate(lp: seq<string>, rp: seq<string>): string
    requires |lp| >= 2 && |rp| >= 2
  {
    (if |lp| == 3 then lp[0] else "") + "." + lp[|lp| - 2] + "." + lp[|lp| - 1] + "->"
    + (if |rp| == 3 then rp[0] else "") + "." + rp[|rp| - 2] + "." + rp[|rp| - 1]
  }

  /** The verdict on one comparison. */
  function ComparisonError(cmp: Comparison, allowed: set<string>): (r: Option<GuardError>)
    ensures r.Some? ==> r.value.UnqualifiedJoin? || r.value.JoinNotForeignKey?
  {
    var lp := Split(cmp.left, '.');
    var rp := Split(cmp.right, '.');
    if |lp| < 2 || |rp| < 2 then Some(UnqualifiedJoin)
    else if Candidate(lp, rp) !in allowed then Some(JoinNotForeignKey)
    else None
  }

  /** The verdict on the first failing comparison, if any. */
  function FirstJoinError(cmps: seq<Comparison>, allowed: set<string>): (r: Option<GuardError>)
    ensures r.Some? ==> r.value.UnqualifiedJoin? || r.value.JoinNotForeignKey?
  {
    if cmps == [] then None
    else
      var earlier := FirstJoinError(cmps[..|cmps| - 1], allowed);
      if earlier.Some? then earlier else ComparisonError(cmps[|cmps| - 1], allowed)
  }

  /** The join rule: no extracted comparison passes; otherwise every one must match a key. */
  function JoinError(sql: string, fks: seq<ForeignKey>): (r: Option<GuardError>)
    ensures r.Some? ==> r.value.UnqualifiedJoin? || r.value.JoinNotForeignKey?
  {
    var cmps := Comparisons(sql);
    if cmps == [] then None else FirstJoinError(cmps, PairKeys(fks))
  }

  /** The first loop of `ensureJoinsAreForeignKeys`: every comparison of every join match. */
  method CollectComparisons(sql: string) returns (comparisons: seq<Comparison>)
    ensures comparisons == Comparisons(sql)
  {
    comparisons := [];
    var lastIndex := 0;
    ghost var all := Comparisons(sql);
    var m := NextJoinMatch(sql, lastIndex);
    while m.Some?
      invariant lastIndex <= |sql|
      invariant m == NextJoinMatch(sql, lastIndex)
      invariant comparisons + ComparisonsFrom(sql, lastIndex) == all
      decreases |sql| - lastIndex
    {
      var p := m.value.0;
      var e := m.value.1;
      var eqs := Equalities(sql[p..e], 0);
      ComparisonsFromStep(sql, lastIndex, p, e);
      Seqs.AppendAssoc(comparisons, eqs, ComparisonsFrom(sql, e));
      comparisons := comparisons + eqs;
      lastIndex := e;
      m := NextJoinMatch(sql, lastIndex);
    }
    ComparisonsFromEnd(sql, lastIndex);
    assert comparisons + [] == comparisons;
  }

  lemma ComparisonsFromStep(s: string, from: nat, p: nat, e: nat)
    requires from <= |s|
    requires NextJoinMatch(s, from) == Some((p, e))
    ensures p <= e <= |s|
    ensures ComparisonsFrom(s, from) == Equalities(s[p..e], 0) + ComparisonsFrom(s, e)
  {
  }

  lemma ComparisonsFromEnd(s: string, from: nat)
    requires from <= |s|
    requires NextJoinMatch(s, from).None?
    ensures ComparisonsFrom(s, from) == []
  {
  }

  /** The `allowedPairs` set built from the workspace's foreign keys. */
  method AllowedPairs(fks: seq<ForeignKey>) returns (allowedPairs: set<string>)
    ensures allowedPairs == PairKeys(fks)
  {
    allowedPairs := {};
    for i := 0 to |fks|
      invariant allowedPairs == PairKeys(fks[..i])
    {
      assert fks[..i + 1][..i] == fks[..i];
      allowedPairs := allowedPairs + {Forward(fks[i]), Backward(fks[i])};
    }
    assert fks[..|fks|] == fks;
  }

  /** `ensureJoinsAreForeignKeys`, with the workspace's foreign keys handed in. */
  method EnsureJoinsAreForeignKeys(sql: string, fks: seq<ForeignKey>) returns (err: Option<GuardError>)
    ensures err == JoinError(sql, fks)
  {
    var comparisons := CollectComparisons(sql);
    if |comparisons| == 0 {
      return None;
    }
    ComparisonsQualified(sql, 0);
    var allowedPairs := AllowedPairs(fks);
    err := CheckComparisons(comparisons, allowedPairs);
  }

  /** The last loop of `ensureJoinsAreForeignKeys`: the first comparison without a declared key fails. */
  method CheckComparisons(comparisons: seq<Comparison>, allowedPairs: set<string>) returns (err: Option<GuardError>)
    requires AllQualified(comparisons)
    ensures err == FirstJoinError(comparisons, allowedPairs)
  {
    var i := 0;
    while i < |comparisons|
      invariant i <= |comparisons|
      invariant FirstJoinError(comparisons[..i], allowedPairs) == None
    {
      var leftParts := Split(comparisons[i].left, '.');
      var rightParts := Split(comparisons[i].right, '.');
      if |leftParts| < 2 || |rightParts| < 2 {
        // The equality pattern always captures "x.y" on both sides, so this
        // branch (UnqualifiedJoin) cannot be taken.
        assert false;
      }
      if Candidate(leftParts, rightParts) !in allowedPairs {
        FirstJoinErrorAt(comparisons, allowedPairs, i);
        return Some(JoinNotForeignKey);
      }
      assert comparisons[..i + 1][..i] == comparisons[..i];
      i := i + 1;
    }
    assert comparisons[..i] == comparisons;
    return None;
  }

  /** The first failing comparison decides the verdict on the whole list. */
  lemma FirstJoinErrorAt(cmps: seq<Comparison>, allowed: set<string>, i: nat)
    requires i < |cmps|
    requires FirstJoinError(cmps[..i], allowed) == None
    requires ComparisonError(cmps[i], allowed).Some?
    ensures FirstJoinError(cmps, allowed) == ComparisonError(cmps[i], allowed)
    decreases |cmps|
  {
    if i < |cmps| - 1 {
      assert cmps[..|cmps| - 1][..i] == cmps[..i];
      FirstJoinErrorAt(cmps[..|cmps| - 1], allowed, i);
    } else {
      assert cmps[..|cmps| - 1] == cmps[..i];
    }
  }

  // ---------------------------------------------------------------------------
  // Limit and the whole guard
  // ---------------------------------------------------------------------------

  /** `enforceLimit`: `/\bLIMIT\b/` on the upper-cased text. */
  function EnforceLimit(sql: string, limit: int): string {
    if HasWord(Upper(sql), "LIMIT") then sql else Trim(sql) + " LIMIT " + IntToString(limit)
  }

  /** The schema rule: an empty allowlist switches it off. */
  function SchemaError(sql: string, allowed: seq<string>): (r: Option<GuardError>)
    ensures r.Some? ==> r.value.SchemasNotAllowed?
  {
    var violations := Violations(ReferencedSchemas(sql), allowed);
    if |allowed| > 0 && violations != [] then Some(SchemasNotAllowed(Distinct(violations))) else None
  }

  /** The first rule the comment-stripped text breaks, in the order the checks run. */
  function FirstViolation(sanitized: string, opts: GuardOptions, fks: seq<ForeignKey>): Option<GuardError> {
    if !IsOnlySelect(sanitized) then Some(NotSelect)
    else if CteOrDdlOrDmlError(sanitized).Some? then CteOrDdlOrDmlError(sanitized)
    else if DangerousKeywordError(sanitized).Some? then DangerousKeywordError(sanitized)
    else if SchemaError(sanitized, opts.allowedSchemas).Some? then SchemaError(sanitized, opts.allowedSchemas)
    else if opts.forbidFreeJoins then JoinError(sanitized, fks)
    else None
  }

  /** What `validateAndRewrite` returns or throws. */
  function Guard(sql: string, opts: GuardOptions, fks: seq<ForeignKey>): Result<string, GuardError> {
    var sanitized := StripComments(sql);
    match FirstViolation(sanitized, opts, fks)
    case Some(e) => Failure(e)
    case None => Success(EnforceLimit(sanitized, opts.forceLimit.GetOr(DefaultForceLimit)))
  }

  /** `validateAndRewrite`, with the foreign-key lookup handed in as `fks`. */
  method ValidateAndRewrite(sql: string, opts: GuardOptions, fks: seq<ForeignKey>)
    returns (r: Result<string, GuardError>)
    ensures r == Guard(sql, opts, fks)
  {
    var sanitized := StripComments(sql);
    if !IsOnlySelect(sanitized) {
      return Failure(NotSelect);
    }
    var cte := CteOrDdlOrDmlError(sanitized);
    if cte.Some? {
      return Failure(cte.value);
    }
    var dangerous := DangerousKeywordError(sanitized);
    if dangerous.Some? {
      return Failure(dangerous.value);
    }
    var schemaErr := SchemaError(sanitized, opts.allowedSchemas);
    if schemaErr.Some? {
      return Failure(schemaErr.value);
    }
    if opts.forbidFreeJoins {
      var joinErr := EnsureJoinsAreForeignKeys(sanitized, fks);
      if joinErr.Some? {
        return Failure(joinErr.value);
      }
    }
    return Success(EnforceLimit(sanitized, opts.forceLimit.GetOr(DefaultForceLimit)));
  }

  // ---------------------------------------------------------------------------
  // Properties
  // ---------------------------------------------------------------------------

  lemma {:induction false} HasWordFromIff(s: string, w: string, from: nat)
    ensures HasWordFrom(s, w, from) <==> exists i | from <= i <= |s| - |w| :: WordAt(s, w, i)
    decreases |s| - from
  {
    if from + |w| <= |s| {
      HasWordFromIff(s, w, from + 1);
      if HasWordFrom(s, w, from + 1) {
        var i :| from + 1 <= i <= |s| - |w| && WordAt(s, w, i);
        assert from <= i;
      }
      if exists i | from <= i <= |s| - |w| :: WordAt(s, w, i) {
        var i :| from <= i <= |s| - |w| && WordAt(s, w, i);
        if i != from {
          assert from + 1 <= i;
        }
      }
    }
  }

  /** The scan finds `w` exactly when it occurs somewhere as a whole word. */
  lemma HasWordIff(s: string, w: string)
    ensures HasWord(s, w) <==> exists i | 0 <= i <= |s| - |w| :: WordAt(s, w, i)
  {
    HasWordFromIff(s, w, 0);
  }

  /** A word LIMIT between spaces is found by the LIMIT scan. */
  lemma LimitWordAppended(p: string, d: string)
    ensures HasWord(Upper(p + " LIMIT " + d), "LIMIT")
  {
    var t := p + " LIMIT " + d;
    var u := Upper(t);
    var i := |p| + 1;
    assert t[i - 1] == ' ' && t[i + 5] == ' ';
    assert t[i..i + 5] == "LIMIT";
    assert u[i..i + 5] == Upper(t[i..i + 5]);
    assert WordAt(u, "LIMIT", i);
    HasWordIff(u, "LIMIT");
  }

  /** After `enforceLimit` the text always holds LIMIT as a word, so a second pass changes nothing. */
  lemma EnforceLimitAddsLimit(sql: string, limit: int)
    ensures HasWord(Upper(EnforceLimit(sql, limit)), "LIMIT")
    ensures HasWord(Upper(sql), "LIMIT") ==> EnforceLimit(sql, limit) == sql
    ensures EnforceLimit(EnforceLimit(sql, limit), limit) == EnforceLimit(sql, limit)
  {
    if !HasWord(Upper(sql), "LIMIT") {
      LimitWordAppended(Trim(sql), IntToString(limit));
    }
  }

  /** The verdict on a list is empty exactly when every comparison passes. */
  lemma {:induction false} FirstJoinErrorNone(cmps: seq<Comparison>, allowed: set<string>)
    ensures FirstJoinError(cmps, allowed) == None
        <==> forall k :: 0 <= k < |cmps| ==> ComparisonError(cmps[k], allowed) == None
    decreases |cmps|
  {
    if cmps != [] {
      var init := cmps[..|cmps| - 1];
      FirstJoinErrorNone(init, allowed);
      var last := ComparisonError(cmps[|cmps| - 1], allowed);
      assert FirstJoinError(cmps, allowed) == if FirstJoinError(init, allowed).Some? then FirstJoinError(init, allowed) else last;
      assert forall k :: 0 <= k < |init| ==> init[k] == cmps[k];
    }
  }

  /** A verdict on a list is the verdict on one of its comparisons. */
  lemma {:induction false} FirstJoinErrorSome(cmps: seq<Comparison>, allowed: set<string>)
    requires FirstJoinError(cmps, allowed) != None
    ensures exists k :: 0 <= k < |cmps| && FirstJoinError(cmps, allowed) == ComparisonError(cmps[k], allowed)
    decreases |cmps|
  {
    var init := cmps[..|cmps| - 1];
    if FirstJoinError(init, allowed) != None {
      FirstJoinErrorSome(init, allowed);
      var k :| 0 <= k < |init| && FirstJoinError(init, allowed) == ComparisonError(init[k], allowed);
      assert init[k] == cmps[k];
    } else {
      assert FirstJoinError(cmps, allowed) == ComparisonError(cmps[|cmps| - 1], allowed);
    }
  }

  /** `allowedPairs` holds exactly the two directed keys of each declared foreign key. */
  lemma {:induction false} PairKeysMembers(fks: seq<ForeignKey>, key: string)
    ensures key in PairKeys(fks) <==> exists fk :: fk in fks && (key == Forward(fk) || key == Backward(fk))
    decreases |fks|
  {
    if fks != [] {
      var init := fks[..|fks| - 1];
      PairKeysMembers(init, key);
      assert fks == init + [fks[|fks| - 1]];
      if exists fk :: fk in fks && (key == Forward(fk) || key == Backward(fk)) {
        var fk :| fk in fks && (key == Forward(fk) || key == Backward(fk));
        if fk != fks[|fks| - 1] {
          assert fk in init;
        }
      }
    }
  }

  /** The candidate key built for an extracted comparison: the schema slots are always empty. */
  function JoinKey(c: Comparison): string
    requires Qualified(c.left) && Qualified(c.right)
  {
    Candidate(Split(c.left, '.'), Split(c.right, '.'))
  }

  /** Every join comparison's candidate key is one of the declared keys. */
  predicate JoinsFollowKeys(sql: string, fks: seq<ForeignKey>) {
    ComparisonsQualified(sql, 0);
    forall c :: c in Comparisons(sql) ==>
      exists fk :: fk in fks && (JoinKey(c) == Forward(fk) || JoinKey(c) == Backward(fk))
  }

  /** An extracted comparison is rejected exactly when its candidate key is not declared. */
  lemma ComparisonErrorQualified(c: Comparison, allowed: set<string>)
    requires Qualified(c.left) && Qualified(c.right)
    ensures ComparisonError(c, allowed) == if JoinKey(c) in allowed then None else Some(JoinNotForeignKey)
  {
  }

  /**
    The join rule passes exactly when every comparison matches a declared key
    in one of its directions; it never reports unqualified columns.
   */
  lemma JoinErrorIff(sql: string, fks: seq<ForeignKey>)
    ensures JoinError(sql, fks) == None <==> JoinsFollowKeys(sql, fks)
    ensures JoinError(sql, fks) != Some(UnqualifiedJoin)
  {
    ComparisonsQualified(sql, 0);
    FirstJoinErrorIff(Comparisons(sql), fks);
  }

  /** The same rule over a list of "x.y = x.y" comparisons. */
  lemma FirstJoinErrorIff(cmps: seq<Comparison>, fks: seq<ForeignKey>)
    requires AllQualified(cmps)
    ensures FirstJoinError(cmps, PairKeys(fks)) == None
        <==> forall c :: c in cmps ==>
               exists fk :: fk in fks && (JoinKey(c) == Forward(fk) || JoinKey(c) == Backward(fk))
    ensures FirstJoinError(cmps, PairKeys(fks)) != Some(UnqualifiedJoin)
  {
    var allowed := PairKeys(fks);
    forall c | c in cmps
      ensures ComparisonError(c, allowed) == None
          <==> exists fk :: fk in fks && (JoinKey(c) == Forward(fk) || JoinKey(c) == Backward(fk))
      ensures ComparisonError(c, allowed) != Some(UnqualifiedJoin)
    {
      ComparisonErrorQualified(c, allowed);
      PairKeysMembers(fks, JoinKey(c));
    }
    FirstJoinErrorNone(cmps, allowed);
    if FirstJoinError(cmps, allowed).Some? {
      FirstJoinErrorSome(cmps, allowed);
    }
  }

  /**
    The candidate key's schema slot is always empty, so when every declared
    key names its schemas no join with an `a.b = c.d` condition is accepted.
   */
  lemma JoinsRejectedWhenSchemasNamed(sql: string, fks: seq<ForeignKey>)
    requires forall fk :: fk in fks ==>
      fk.fromSchema != [] && fk.fromSchema[0] != '.' && fk.toSchema != [] && fk.toSchema[0] != '.'
    requires Comparisons(sql) != []
    ensures JoinError(sql, fks) == Some(JoinNotForeignKey)
  {
    var cmps := Comparisons(sql);
    var allowed := PairKeys(fks);
    ComparisonsQualified(sql, 0);
    var c := cmps[0];
    assert c in cmps;
    assert JoinKey(c)[0] == '.';
    PairKeysMembers(fks, JoinKey(c));
    assert JoinKey(c) !in allowed;
    JoinErrorIff(sql, fks);
    FirstJoinErrorSome(cmps, allowed);
  }

  /** The checks `validateAndRewrite` makes, each stated by its reference definition. */
  predicate Accepts(sanitized: string, opts: GuardOptions, fks: seq<ForeignKey>) {
    IsOnlySelect(sanitized)
    && !HasCteFrom(Upper(sanitized), 0)
    && (forall k :: k in ForbiddenKeywords ==> !HasWord(Upper(sanitized), k))
    && (forall k :: k in DangerousKeywords ==> !HasWord(Upper(sanitized), k))
    && (|opts.allowedSchemas| > 0 ==>
          forall x :: x in ReferencedSchemas(sanitized) ==> x in opts.allowedSchemas)
    && (opts.forbidFreeJoins ==> JoinsFollowKeys(sanitized, fks))
  }

  lemma SchemaErrorNone(sql: string, allowed: seq<string>)
    ensures SchemaError(sql, allowed).None?
        <==> (|allowed| > 0 ==> forall x :: x in ReferencedSchemas(sql) ==> x in allowed)
  {
    var v := Violations(ReferencedSchemas(sql), allowed);
    if v != [] {
      assert v[0] in v;
    }
  }

  lemma KeywordErrorsNone(sql: string)
    ensures CteOrDdlOrDmlError(sql).None?
        <==> !HasCteFrom(Upper(sql), 0) && forall k :: k in ForbiddenKeywords ==> !HasWord(Upper(sql), k)
    ensures DangerousKeywordError(sql).None? <==> forall k :: k in DangerousKeywords ==> !HasWord(Upper(sql), k)
  {
  }

  lemma FirstViolationSteps(sanitized: string, opts: GuardOptions, fks: seq<ForeignKey>)
    ensures FirstViolation(sanitized, opts, fks).None?
        <==> IsOnlySelect(sanitized) && CteOrDdlOrDmlError(sanitized).None?
             && DangerousKeywordError(sanitized).None? && SchemaError(sanitized, opts.allowedSchemas).None?
             && (opts.forbidFreeJoins ==> JoinError(sanitized, fks).None?)
  {
  }

  /** No rule is broken exactly when every check's reference definition holds. */
  lemma FirstViolationNone(sanitized: string, opts: GuardOptions, fks: seq<ForeignKey>)
    ensures FirstViolation(sanitized, opts, fks).None? <==> Accepts(sanitized, opts, fks)
  {
    FirstViolationSteps(sanitized, opts, fks);
    KeywordErrorsNone(sanitized);
    SchemaErrorNone(sanitized, opts.allowedSchemas);
    JoinErrorIff(sanitized, fks);
  }

  /**
    The guard lets a query through exactly when its comment-stripped text
    passes every check, and what it returns always carries a LIMIT.
   */
  lemma GuardIff(sql: string, opts: GuardOptions, fks: seq<ForeignKey>)
    ensures Guard(sql, opts, fks).Success? <==> Accepts(StripComments(sql), opts, fks)
    ensures Guard(sql, opts, fks).Success? ==> HasWord(Upper(Guard(sql, opts, fks).value), "LIMIT")
    ensures Guard(sql, opts, fks).Success? && HasWord(Upper(StripComments(sql)), "LIMIT")
        ==> Guard(sql, opts, fks).value == StripComments(sql)
  {
    var t := StripComments(sql);
    FirstViolationNone(t, opts, fks);
    EnforceLimitAddsLimit(t, opts.forceLimit.GetOr(DefaultForceLimit));
  }

  /** A schema rejection names each disallowed schema the text references, once. */
  lemma GuardSchemaError(sql: string, opts: GuardOptions, fks: seq<ForeignKey>, names: seq<string>)
    requires Guard(sql, opts, fks) == Failure(SchemasNotAllowed(names))
    ensures names != []
    ensures forall x :: x in names <==> x in ReferencedSchemas(StripComments(sql)) && x !in opts.allowedSchemas
    ensures forall i, j :: 0 <= i < j < |names| ==> names[i] != names[j]
    ensures forall i, j :: 0 <= i < j < |names| ==>
      FirstIndex(ReferencedSchemas(StripComments(sql)), names[i])
      < FirstIndex(ReferencedSchemas(StripComments(sql)), names[j])
  {
    var t := StripComments(sql);
    assert FirstViolation(t, opts, fks) == Some(SchemasNotAllowed(names));
    assert IsOnlySelect(t) && CteOrDdlOrDmlError(t).None? && DangerousKeywordError(t).None?;
    SchemaErrorNames(t, opts.allowedSchemas, names);
  }

  /** The names the schema rule reports: each violating schema once. */
  lemma SchemaErrorNames(t: string, allowed: seq<string>, names: seq<string>)
    requires SchemaError(t, allowed) == Some(SchemasNotAllowed(names))
    ensures names != []
    ensures forall x :: x in names <==> x in ReferencedSchemas(t) && x !in allowed
    ensures forall i, j :: 0 <= i < j < |names| ==> names[i] != names[j]
    ensures forall i, j :: 0 <= i < j < |names| ==>
      FirstIndex(ReferencedSchemas(t), names[i]) < FirstIndex(ReferencedSchemas(t), names[j])
  {
    var refs := ReferencedSchemas(t);
    var v := Violations(refs, allowed);
    assert names == Distinct(v);
    assert v[0] in names;
    DistinctOrder(v);
    forall i, j | 0 <= i < j < |names|
      ensures FirstIndex(refs, names[i]) < FirstIndex(refs, names[j])
    {
      ViolationsOrder(refs, allowed, names[i], names[j]);
    }
  }

  /** Text without a newline has no `--` comment the first pass can remove. */
  lemma {:induction false} LineStripWithoutNewline(s: string)
    requires '\n' !in s
    ensures StripLineComments(s) == s
    decreases |s|
  {
    if |s| >= 2 {
      var t := s[1..];
      assert s == [s[0]] + t;
      assert t == [t[0]] + s[2..];
      assert '\n' !in s[2..];
      assert StripLineComments(s) == [s[0]] + StripLineComments(t);
      LineStripWithoutNewline(t);
    }
  }

  /** A `--` that a later newline ends. */
  predicate TerminatedLineCommentAt(r: string, i: int) {
    0 <= i && i + 1 < |r| && r[i] == '-' && r[i + 1] == '-' && '\n' in r[i + 2..]
  }

  /** The first character after the first pass. */
  lemma LineStripHead(s: string)
    requires s != []
    ensures StripLineComments(s) != []
    ensures StripLineComments(s)[0] == if |s| >= 2 && s[0] == '-' && s[1] == '-' && '\n' in s[2..] then '\n' else s[0]
  {
  }

  /** No `--` comment closed by a newline survives the first pass. */
  lemma {:induction false} LineStripLeavesNoTerminatedComment(s: string)
    ensures forall i :: !TerminatedLineCommentAt(StripLineComments(s), i)
    decreases |s|
  {
    var r := StripLineComments(s);
    if |s| < 2 {
    } else if s[0] == '-' && s[1] == '-' && '\n' in s[2..] {
      var j := 2 + FirstIndex(s[2..], '\n');
      var rest := StripLineComments(s[j + 1..]);
      LineStripLeavesNoTerminatedComment(s[j + 1..]);
      forall i | 1 <= i ensures TerminatedLineCommentAt(r, i) == TerminatedLineCommentAt(rest, i - 1) {
        if i + 1 < |r| {
          assert r[i..] == rest[i - 1..];
        }
      }
    } else {
      var rest := StripLineComments(s[1..]);
      LineStripLeavesNoTerminatedComment(s[1..]);
      forall i | 1 <= i ensures TerminatedLineCommentAt(r, i) == TerminatedLineCommentAt(rest, i - 1) {
        if i + 1 < |r| {
          assert r[i..] == rest[i - 1..];
        }
      }
      LineStripHead(s[1..]);
      if s[0] == '-' && s[1] == '-' {
        // no newline follows, so the rest passes through unchanged
        assert s[1..] == [s[1]] + s[2..];
        LineStripWithoutNewline(s[1..]);
        assert r[2..] == s[2..];
      }
      assert !TerminatedLineCommentAt(r, 0);
    }
  }

  /** Text without a slash has no block comment for the second pass to remove. */
  lemma {:induction false} BlockStripWithoutSlash(s: string)
    requires '/' !in s
    ensures StripBlockComments(s) == s
    decreases |s|
  {
    if |s| >= 2 {
      assert s == [s[0]] + s[1..];
      BlockStripWithoutSlash(s[1..]);
    }
  }

  /** `trim` keeps every `--` of the text, since '-' is not a space. */
  lemma TrimKeepsDashes(s: string, i: nat)
    requires OccursAt(s, "--", i)
    ensures Contains(Trim(s), "--")
  {
    assert s[i] == s[i..i + 2][0] == '-' && s[i + 1] == s[i..i + 2][1] == '-';
    var t := TrimStart(s);
    var a := |s| - |t|;
    assert !IsSpace(s[i]) && !IsSpace(s[i + 1]);
    assert a <= i;
    assert t == s[a..];
    assert t[i - a] == '-' && t[i - a + 1] == '-';
    var r := TrimEnd(t);
    assert !IsSpace(t[i - a + 1]);
    assert i - a + 1 < |r|;
    assert r == t[..|r|];
    assert r[i - a..i - a + 2] == [r[i - a], r[i - a + 1]] == "--";
    assert OccursAt(r, "--", i - a);
  }

  /** The limit appended to text with an unterminated `--` comment follows that comment on the same line. */
  lemma LimitAfterOpenComment(sql: string, limit: int, i: nat)
    requires '\n' !in sql
    requires OccursAt(sql, "--", i)
    requires !HasWord(Upper(sql), "LIMIT")
    ensures var out := EnforceLimit(sql, limit);
      var suffix := " LIMIT " + IntToString(limit);
      && EndsWith(out, suffix)
      && Contains(out[..|out| - |suffix|], "--")
      && '\n' !in out[..|out| - |suffix|]
  {
    var suffix := " LIMIT " + IntToString(limit);
    EnforceLimitAppends(sql, limit);
    AppendSlices(Trim(sql), suffix);
    TrimKeepsDashes(sql, i);
    TrimChars(sql);
  }

  lemma EnforceLimitAppends(sql: string, limit: int)
    requires !HasWord(Upper(sql), "LIMIT")
    ensures EnforceLimit(sql, limit) == Trim(sql) + (" LIMIT " + IntToString(limit))
  {
    Seqs.AppendAssoc(Trim(sql), " LIMIT ", IntToString(limit));
  }

  /**
    A query whose last line is a `--` comment keeps it (the first pass only
    removes comments a newline ends), so the LIMIT the guard appends lands
    inside that comment.
   */
  lemma LimitAppendedInsideTrailingComment(sql: string, opts: GuardOptions, fks: seq<ForeignKey>, i: nat, out: string)
    requires '\n' !in sql && '/' !in sql
    requires OccursAt(sql, "--", i)
    requires !HasWord(Upper(sql), "LIMIT")
    requires Guard(sql, opts, fks) == Success(out)
    ensures var suffix := " LIMIT " + IntToString(opts.forceLimit.GetOr(DefaultForceLimit));
      && EndsWith(out, suffix)
      && Contains(out[..|out| - |suffix|], "--")
      && '\n' !in out[..|out| - |suffix|]
  {
    var limit := opts.forceLimit.GetOr(DefaultForceLimit);
    assert out == EnforceLimit(sql, limit) by {
      LineStripWithoutNewline(sql);
      BlockStripWithoutSlash(sql);
      GuardOutput(sql, opts, fks);
    }
    LimitAfterOpenComment(sql, limit, i);
  }

  /** What the guard hands back on success is the stripped text with the limit enforced. */
  lemma GuardOutput(sql: string, opts: GuardOptions, fks: seq<ForeignKey>)
    requires Guard(sql, opts, fks).Success?
    ensures Guard(sql, opts, fks).value == EnforceLimit(StripComments(sql), opts.forceLimit.GetOr(DefaultForceLimit))
  {
  }

  /**
    Any `a.b` counts as a schema reference to `a`, table aliases included:
    `o.id` names the schema `o`.
   */
  lemma QualifiedNameIsSchemaReference(x: string, y: string)
    requires IsIdentifier(x) && IsIdentifier(y)
    ensures ReferencedSchemas(x + "." + y) == [x]
  {
    var s := x + "." + y;
    assert s[..|x|] == x && s[|x|] == '.' && s[|x| + 1..] == y;
    forall k | 0 <= k < |x| ensures IsWordChar(s[k]) {
      assert s[k] == x[k];
    }
    forall k | |x| + 1 <= k < |s| ensures IsWordChar(s[k]) {
      assert s[k] == y[k - |x| - 1];
    }
    WordRunEndAt(s, 0, |x|);
    WordRunEndAt(s, |x| + 1, |s|);
    assert IsIdentStart(s[0]) && IsIdentStart(s[|x| + 1]);
    assert SchemaRefAt(s, 0) == Some((x, |s|));
    assert ReferencedSchemasFrom(s, 0) == [x] + ReferencedSchemasFrom(s, |s|);
  }

  /** A run of word characters that a non-word character or the end closes ends there. */
  lemma WordRunEndAt(s: string, i: nat, j: nat)
    requires i <= j <= |s|
    requires forall k :: i <= k < j ==> IsWordChar(s[k])
    requires j < |s| ==> !IsWordChar(s[j])
    ensures WordRunEnd(s, i) == j
  {
  }

  /** A run of spaces that a non-space or the end closes ends there. */
  lemma SpaceRunEndAt(s: string, i: nat, j: nat)
    requires i <= j <= |s|
    requires forall k :: i <= k < j ==> IsSpace(s[k])
    requires j < |s| ==> !IsSpace(s[j])
    ensures SpaceRunEnd(s, i) == j
  {
  }

  /** A non-empty `[\w_]+` text. */
  predicate IsWordRun(x: string) {
    x != [] && forall k :: 0 <= k < |x| ==> IsWordChar(x[k])
  }

  /** No JOIN means no join match, so no comparison is extracted. */
  lemma NoJoinNoComparisons(s: string, from: nat)
    requires from <= |s|
    requires forall k :: from <= k <= |s| ==> !JoinWordAt(s, k)
    ensures ComparisonsFrom(s, from) == []
  {
    forall k | from <= k < |s| ensures JoinMatchAt(s, k).None? {
      assert JoinHead(s, k).None?;
    }
    NextJoinMatchNone(s, from);
    ComparisonsFromEnd(s, from);
  }

  /** The head pattern over positions: JOIN, spaces, `sch.tbl`, one space, then a non-space at t + 1. */
  lemma JoinHeadAt(s: string, i: nat, w1: nat, t: nat)
    requires i + 5 < w1 && w1 + 1 < t && t + 1 < |s|
    requires JoinWordAt(s, i) && s[i + 4] == ' ' && !IsSpace(s[i + 5])
    requires forall k :: i + 5 <= k < w1 ==> IsWordChar(s[k])
    requires s[w1] == '.' && forall k :: w1 < k < t ==> IsWordChar(s[k])
    requires s[t] == ' ' && !IsSpace(s[t + 1])
    ensures JoinHead(s, i) == if OnWordAt(s, t + 1) then Some(t + 3) else None
  {
    SpaceRunEndAt(s, i + 4, i + 5);
    WordRunEndAt(s, i + 5, w1);
    WordRunEndAt(s, w1 + 1, t);
    SpaceRunEndAt(s, t, t + 1);
  }

  /**
    The head of `JOIN sch.tbl rest`: it ends after ON exactly when `rest`
    starts with ON, whatever follows.
   */
  lemma JoinHeadOf(s: string, pre: string, sch: string, tbl: string, rest: string, c: nat)
    requires s == pre + "JOIN " + sch + "." + tbl + " " + rest && c == |pre| + |sch| + |tbl| + 7
    requires IsWordRun(sch) && IsWordRun(tbl) && rest != [] && !IsSpace(rest[0])
    ensures JoinHead(s, |pre|) == if OnWordAt(s, c) then Some(c + 2) else None
    ensures c < |s| && s[c..] == rest
  {
    var i := |pre|;
    var w1 := i + 5 + |sch|;
    JoinHeadLayout(s, pre, sch, tbl, rest);
    JoinHeadAt(s, i, w1, c - 1);
  }

  /** Where the runs of `JOIN sch.tbl rest` lie in the text. */
  lemma JoinHeadLayout(s: string, pre: string, sch: string, tbl: string, rest: string)
    requires s == pre + "JOIN " + sch + "." + tbl + " " + rest
    requires IsWordRun(sch) && IsWordRun(tbl) && rest != [] && !IsSpace(rest[0])
    ensures var i, w1 := |pre|, |pre| + 5 + |sch|;
      var t := w1 + 1 + |tbl|;
      i + 5 < w1 && w1 + 1 < t && t + 1 < |s|
      && JoinWordAt(s, i) && s[i + 4] == ' ' && !IsSpace(s[i + 5])
      && (forall k :: i + 5 <= k < w1 ==> IsWordChar(s[k]))
      && s[w1] == '.' && (forall k :: w1 < k < t ==> IsWordChar(s[k]))
      && s[t] == ' ' && !IsSpace(s[t + 1]) && s[t + 1..] == rest
  {
    var i := |pre|;
    var w1 := i + 5 + |sch|;
    var t := w1 + 1 + |tbl|;
    assert s[i] == 'J' && s[i + 1] == 'O' && s[i + 2] == 'I' && s[i + 3] == 'N' && s[i + 4] == ' ';
    forall k | i + 5 <= k < w1 ensures IsWordChar(s[k]) {
      assert s[k] == sch[k - i - 5];
    }
    forall k | w1 < k < t ensures IsWordChar(s[k]) {
      assert s[k] == tbl[k - w1 - 1];
    }
    assert s[w1] == '.' && s[t] == ' ' && s[t + 1] == rest[0];
    assert s[t + 1..] == rest;
  }

  /** A head followed by a word character lacks the spaces after ON, so the pattern fails. */
  lemma JoinMatchAfterWord(s: string, i: nat, d: nat)
    requires i <= |s| && JoinHead(s, i) == Some(d) && d < |s| && IsWordChar(s[d])
    ensures JoinMatchAt(s, i).None?
  {
    SpaceRunEndAt(s, d, d);
  }

  /** An alias that is not ON can only start with ON when a word character follows. */
  lemma AliasNotOn(alias: string, cond: string, rest: string)
    requires IsWordRun(alias) && Upper(alias) != "ON" && rest == alias + " ON " + cond
    ensures OnWordAt(rest, 0) ==> |alias| >= 3 && IsWordChar(rest[2])
  {
    if OnWordAt(rest, 0) {
      assert rest[1] == if |alias| == 1 then ' ' else alias[1];
      assert rest[2] == alias[2];
    }
  }

  /**
    `JOIN sch.tbl alias ON ...`: the word after the table is not ON, so the
    pattern does not match at this JOIN.
   */
  lemma AliasedJoinNoMatch(s: string, pre: string, sch: string, tbl: string, rest: string, alias: string, cond: string)
    requires s == pre + "JOIN " + sch + "." + tbl + " " + rest && rest == alias + " ON " + cond
    requires IsWordRun(sch) && IsWordRun(tbl) && IsWordRun(alias) && Upper(alias) != "ON"
    ensures JoinMatchAt(s, |pre|).None?
  {
    assert rest[0] == alias[0];
    var c := |pre| + |sch| + |tbl| + 7;
    JoinHeadOf(s, pre, sch, tbl, rest, c);
    AliasNotOn(alias, cond, rest);
    JoinMatchBeforeWord(s, |pre|, c, rest);
  }

  /** A head whose ON, if any, is followed by a word character: the pattern fails. */
  lemma JoinMatchBeforeWord(s: string, i: nat, c: nat, rest: string)
    requires i <= |s| && c < |s| && s[c..] == rest
    requires JoinHead(s, i) == if OnWordAt(s, c) then Some(c + 2) else None
    requires OnWordAt(rest, 0) ==> |rest| >= 3 && IsWordChar(rest[2])
    ensures JoinMatchAt(s, i).None?
  {
    if OnWordAt(s, c) {
      assert s[c] == rest[0] && s[c + 1] == rest[1];
      assert s[c + 2] == rest[2];
      JoinMatchAfterWord(s, i, c + 2);
    }
  }

  /**
    An aliased join is never checked: when it is the only JOIN, no comparison
    is extracted and the join rule passes whatever its condition.
   */
  lemma AliasedJoinUnchecked(s: string, pre: string, sch: string, tbl: string, rest: string, alias: string,
                             cond: string, fks: seq<ForeignKey>)
    requires s == pre + "JOIN " + sch + "." + tbl + " " + rest && rest == alias + " ON " + cond
    requires IsWordRun(sch) && IsWordRun(tbl) && IsWordRun(alias) && Upper(alias) != "ON"
    requires forall k :: 0 <= k <= |s| && k != |pre| ==> !JoinWordAt(s, k)
    ensures Comparisons(s) == []
    ensures JoinError(s, fks) == None
  {
    AliasedJoinNoMatch(s, pre, sch, tbl, rest, alias, cond);
    forall k | 0 <= k < |s| ensures JoinMatchAt(s, k).None? {
      if k != |pre| {
        assert JoinHead(s, k).None?;
      }
    }
    NextJoinMatchNone(s, 0);
    ComparisonsFromEnd(s, 0);
  }

  /** A head followed by one space and a start with no predicate: the pattern fails. */
  lemma JoinMatchWithoutPredicate(s: string, i: nat, d: nat)
    requires i <= |s| && JoinHead(s, i) == Some(d) && d + 1 < |s|
    requires IsSpace(s[d]) && !IsSpace(s[d + 1]) && PredicateEnd(s, d + 1).None?
    ensures JoinMatchAt(s, i).None?
  {
    SpaceRunEndAt(s, d, d + 1);
  }

  /**
    `JOIN sch.tbl ON cond` followed by a line break: the predicate cannot
    reach the end of the text, so the pattern does not match at this JOIN.
   */
  lemma MultiLineJoinNoMatch(s: string, pre: string, sch: string, tbl: string, rest: string, cond: string,
                             more: string)
    requires s == pre + "JOIN " + sch + "." + tbl + " " + rest && rest == "ON " + cond + "\n" + more
    requires IsWordRun(sch) && IsWordRun(tbl) && cond != [] && !IsSpace(cond[0])
    requires forall k :: |pre| < k <= |s| ==> !JoinWordAt(s, k)
    ensures JoinMatchAt(s, |pre|).None?
  {
    var c := |pre| + |sch| + |tbl| + 7;
    JoinHeadOf(s, pre, sch, tbl, rest, c);
    assert rest[0] == 'O' && rest[1] == 'N' && rest[2] == ' ' && rest[3] == cond[0] && rest[3 + |cond|] == '\n';
    JoinMatchBeforeNewline(s, |pre|, c, rest, |cond|);
  }

  /**
    A head ending in `ON ` followed by a line whose text breaks before the
    end, with no JOIN after the head: the pattern fails.
   */
  lemma JoinMatchBeforeNewline(s: string, i: nat, c: nat, rest: string, n: nat)
    requires i <= |s| && c < |s| && s[c..] == rest
    requires JoinHead(s, i) == if OnWordAt(s, c) then Some(c + 2) else None
    requires 3 < 3 + n < |rest| && rest[0] == 'O' && rest[1] == 'N' && rest[2] == ' '
    requires !IsSpace(rest[3]) && rest[3 + n] == '\n'
    requires forall k :: i < k <= |s| ==> !JoinWordAt(s, k)
    ensures JoinMatchAt(s, i).None?
  {
    assert s[c] == 'O' && s[c + 1] == 'N' && s[c + 2] == ' ' && s[c + 3] == rest[3];
    assert s[c + 3 + n] == rest[3 + n];
    assert OnWordAt(s, c);
    PredicateStopsAtNewline(s, c + 3, c + 3 + n);
    JoinMatchWithoutPredicate(s, i, c + 2);
  }

  /**
    A multi-line join is never checked: when it is the only JOIN, no
    comparison is extracted and the join rule passes whatever its condition.
   */
  lemma MultiLineJoinUnchecked(s: string, pre: string, sch: string, tbl: string, rest: string, cond: string,
                               more: string, fks: seq<ForeignKey>)
    requires s == pre + "JOIN " + sch + "." + tbl + " " + rest && rest == "ON " + cond + "\n" + more
    requires IsWordRun(sch) && IsWordRun(tbl) && cond != [] && !IsSpace(cond[0])
    requires forall k :: 0 <= k <= |s| && k != |pre| ==> !JoinWordAt(s, k)
    ensures Comparisons(s) == []
    ensures JoinError(s, fks) == None
  {
    MultiLineJoinNoMatch(s, pre, sch, tbl, rest, cond, more);
    forall k | 0 <= k < |s| ensures JoinMatchAt(s, k).None? {
      if k != |pre| {
        assert JoinHead(s, k).None?;
      }
    }
    NextJoinMatchNone(s, 0);
    ComparisonsFromEnd(s, 0);
  }

  /** A dotted pair laid out from i is what the scan finds there. */
  lemma DottedPairAtRuns(t: string, i: nat, a: nat, b: nat)
    requires i < a && a + 1 < b <= |t| && t[a] == '.'
    requires forall k :: i <= k < a ==> IsWordChar(t[k])
    requires forall k :: a < k < b ==> IsWordChar(t[k])
    requires b == |t| || !IsWordChar(t[b])
    ensures DottedPairAt(t, i) == Some((a, b))
  {
    WordRunEndAt(t, i, a);
    WordRunEndAt(t, a + 1, b);
  }

  /** `=` between two runs of spaces, laid out from b, is what the scan finds there. */
  lemma EqualsSignAtRuns(t: string, b: nat, c: nat, d: nat)
    requires b <= c < d <= |t| && t[c] == '='
    requires forall k :: b <= k < c ==> IsSpace(t[k])
    requires forall k :: c < k < d ==> IsSpace(t[k])
    requires d == |t| || !IsSpace(t[d])
    ensures EqualsSignAt(t, b) == Some((c, d))
  {
    SpaceRunEndAt(t, b, c);
    SpaceRunEndAt(t, c + 1, d);
  }

  /** The runs of the equality pattern, once laid out, are what the scan finds at j. */
  lemma SpanRunsDetermine(t: string, j: nat, p: EqualitySpan)
    requires SpanRuns(t, j, p)
    ensures EqualitySpanAt(t, j) == Some(p)
  {
    DottedPairAtRuns(t, j, p.a, p.b);
    EqualsSignAtRuns(t, p.b, p.c, p.d);
    DottedPairAtRuns(t, p.d, p.e, p.f);
  }

  /** An equality laid out over the whole text is its only comparison. */
  lemma EqualitiesOfWholeSpan(t: string, p: EqualitySpan, l: string, r: string)
    requires SpanRuns(t, 0, p) && p.f == |t| && l == t[0..p.b] && r == t[p.d..|t|]
    ensures Equalities(t, 0) == [Comparison(l, r)]
  {
    SpanRunsDetermine(t, 0, p);
    EqualitiesFound(t, 0, Comparison(l, r), |t|);
  }

  /** The text `a.b` at i: two word runs around a dot. */
  lemma DottedPairRuns(t: string, i: nat, x: string, a: string, b: string)
    requires x == a + "." + b && IsWordRun(a) && IsWordRun(b)
    requires i + |x| <= |t| && t[i..i + |x|] == x
    ensures t[i + |a|] == '.'
    ensures forall k :: i <= k < i + |a| ==> IsWordChar(t[k])
    ensures forall k :: i + |a| < k < i + |x| ==> IsWordChar(t[k])
  {
    forall k | i <= k < i + |a| ensures IsWordChar(t[k]) {
      assert t[k] == x[k - i] == a[k - i];
    }
    forall k | i + |a| < k < i + |x| ensures IsWordChar(t[k]) {
      assert t[k] == x[k - i] == b[k - i - |a| - 1];
    }
    assert t[i + |a|] == x[|a|];
  }

  /** `a.b = c.d` laid out as text: the runs of the equality pattern. */
  lemma PairSpanRuns(t: string, l: string, r: string, a: string, b: string, c: string, d: string)
    requires l == a + "." + b && r == c + "." + d
    requires t == l + " = " + r
    requires IsWordRun(a) && IsWordRun(b) && IsWordRun(c) && IsWordRun(d)
    ensures SpanRuns(t, 0, EqualitySpan(|a|, |l|, |l| + 1, |l| + 3, |l| + 3 + |c|, |t|))
  {
    var n := |l|;
    assert t[..n] == l && t[n + 3..] == r;
    DottedPairRuns(t, 0, l, a, b);
    DottedPairRuns(t, n + 3, r, c, d);
    assert t[n] == ' ' && t[n + 1] == '=' && t[n + 2] == ' ';
    forall k | n <= k < n + 1 ensures IsSpace(t[k]) {
      assert k == n;
    }
    forall k | n + 1 < k < n + 3 ensures IsSpace(t[k]) {
      assert k == n + 2;
    }
  }

  /** `a.b = c.d` on its own is read as exactly one comparison, each side kept as written. */
  lemma EqualitiesOfPair(t: string, l: string, r: string, a: string, b: string, c: string, d: string)
    requires l == a + "." + b && r == c + "." + d
    requires t == l + " = " + r
    requires IsWordRun(a) && IsWordRun(b) && IsWordRun(c) && IsWordRun(d)
    ensures Equalities(t, 0) == [Comparison(l, r)]
  {
    PairSpanRuns(t, l, r, a, b, c, d);
    EqualitiesOfWholeSpan(t, EqualitySpan(|a|, |l|, |l| + 1, |l| + 3, |l| + 3 + |c|, |t|), l, r);
  }

  /**
    A head followed by one space and a predicate that runs to the end of the
    text, with no JOIN in it: the predicate is the rest of the text.
   */
  lemma JoinMatchToEnd(s: string, i: nat, d: nat)
    requires i <= |s| && JoinHead(s, i) == Some(d) && d + 1 < |s|
    requires IsSpace(s[d]) && !IsSpace(s[d + 1])
    requires forall k :: d + 1 <= k < |s| ==> s[k] != '\n'
    requires forall k :: d + 1 < k < |s| ==> !JoinWordAt(s, k)
    ensures JoinMatchAt(s, i) == Some((d + 1, |s|))
  {
    SpaceRunEndAt(s, d, d + 1);
    assert LineEnd(s, d + 1) == |s|;
    PredicateEndMeaning(s, d + 1);
    assert JoinLookahead(s, |s|);
  }

  /** The first match is the first position where the pattern matches. */
  lemma NextJoinMatchFirst(s: string, i: nat, m: (nat, nat))
    requires i <= |s| && JoinMatchAt(s, i) == Some(m)
    requires forall k :: 0 <= k < i ==> !JoinWordAt(s, k)
    ensures NextJoinMatch(s, 0) == Some(m)
  {
    forall k | 0 <= k < i ensures JoinMatchAt(s, k).None? {
      assert JoinHead(s, k).None?;
    }
    NextJoinMatchSkip(s, 0, i);
  }

  /**
    With one JOIN whose predicate runs to the end of the text, the comparisons
    are those of that predicate.
   */
  lemma SingleJoinComparisons(s: string, i: nat, d: nat, p: string)
    requires i <= |s| && JoinHead(s, i) == Some(d) && d < |s| && IsSpace(s[d])
    requires s[d + 1..] == p && p != [] && !IsSpace(p[0])
    requires forall k :: 0 <= k < |p| ==> p[k] != '\n'
    requires forall k :: 0 <= k <= |s| && k != i ==> !JoinWordAt(s, k)
    ensures Comparisons(s) == Equalities(p, 0)
  {
    assert s[d + 1] == p[0];
    forall k | d + 1 <= k < |s| ensures s[k] != '\n' {
      assert s[k] == p[k - d - 1];
    }
    assert s[d + 1..|s|] == p;
    JoinMatchToEnd(s, i, d);
    NextJoinMatchFirst(s, i, (d + 1, |s|));
    ComparisonsFromStep(s, 0, d + 1, |s|);
    NoJoinNoComparisons(s, |s|);
  }

  /** `a.b = c.d` holds no line break and does not start with a space. */
  lemma PairOnOneLine(t: string, l: string, r: string, a: string, b: string, c: string, d: string)
    requires t == l + " = " + r && l == a + "." + b && r == c + "." + d
    requires IsWordRun(a) && IsWordRun(b) && IsWordRun(c) && IsWordRun(d)
    ensures t != [] && !IsSpace(t[0])
    ensures forall k :: 0 <= k < |t| ==> t[k] != '\n'
  {
    assert t[0] == a[0];
    forall k | 0 <= k < |t| ensures t[k] != '\n' {
      if k < |a| {
        assert t[k] == a[k];
      } else if |a| < k < |l| {
        assert t[k] == b[k - |a| - 1];
      } else if |l| + 3 <= k < |l| + 3 + |c| {
        assert t[k] == c[k - |l| - 3];
      } else if |l| + 3 + |c| < k {
        assert t[k] == d[k - |l| - 4 - |c|];
      }
    }
  }

  /** Where `JOIN sch.tbl ON cond` puts the end of the head and the predicate. */
  lemma OneLineJoinLayout(s: string, pre: string, sch: string, tbl: string, rest: string, cond: string, h: nat)
    requires s == pre + "JOIN " + sch + "." + tbl + " " + rest && rest == "ON " + cond
    requires IsWordRun(sch) && IsWordRun(tbl) && cond != [] && !IsSpace(cond[0])
    requires h == |pre| + |sch| + |tbl| + 9
    ensures h < |s| && JoinHead(s, |pre|) == Some(h) && IsSpace(s[h]) && s[h + 1..] == cond
  {
    var c := h - 2;
    JoinHeadOf(s, pre, sch, tbl, rest, c);
    assert s[c] == 'O' && s[c + 1] == 'N' && s[c + 2] == ' ';
    assert OnWordAt(s, c);
    assert s[c + 3..] == rest[3..];
  }

  /**
    With `JOIN sch.tbl ON cond` the only JOIN and cond on one line up to the
    end of the text, the comparisons are those found in cond.
   */
  lemma OneLineJoinPredicate(s: string, pre: string, sch: string, tbl: string, rest: string, cond: string)
    requires s == pre + "JOIN " + sch + "." + tbl + " " + rest && rest == "ON " + cond
    requires IsWordRun(sch) && IsWordRun(tbl) && cond != [] && !IsSpace(cond[0])
    requires forall k :: 0 <= k < |cond| ==> cond[k] != '\n'
    requires forall k :: 0 <= k <= |s| && k != |pre| ==> !JoinWordAt(s, k)
    ensures Comparisons(s) == Equalities(cond, 0)
  {
    var h := |pre| + |sch| + |tbl| + 9;
    OneLineJoinLayout(s, pre, sch, tbl, rest, cond, h);
    SingleJoinComparisons(s, |pre|, h, cond);
  }

  /**
    A JOIN whose ON condition is a single `a.b = c.d` up to the end of the
    text, with no other JOIN: that equality is the one comparison extracted,
    each side as written.
   */
  lemma OneLineJoinComparisons(s: string, pre: string, sch: string, tbl: string, rest: string, cond: string,
                               l: string, r: string, a: string, b: string, c: string, d: string)
    requires s == pre + "JOIN " + sch + "." + tbl + " " + rest && rest == "ON " + cond
    requires cond == l + " = " + r && l == a + "." + b && r == c + "." + d
    requires IsWordRun(sch) && IsWordRun(tbl)
    requires IsWordRun(a) && IsWordRun(b) && IsWordRun(c) && IsWordRun(d)
    requires forall k :: 0 <= k <= |s| && k != |pre| ==> !JoinWordAt(s, k)
    ensures Comparisons(s) == [Comparison(l, r)]
  {
    PairOnOneLine(cond, l, r, a, b, c, d);
    OneLineJoinPredicate(s, pre, sch, tbl, rest, cond);
    EqualitiesOfPair(cond, l, r, a, b, c, d);
  }
}

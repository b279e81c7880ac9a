/** GET /detections: a conjunction of optional filters, newest first, capped by a limit
    (server.py, get_detections). */
module Query {
  import opened Wrappers
  import opened Json
  import opened Detections

  /** The query string as the handler reads it; `limitArg`, when present, is already an integer. */
  datatype QueryArgs = QueryArgs(
    labelArg: Option<string>,
    sourceArg: Option<string>,
    startArg: Option<string>,
    endArg: Option<string>,
    limitArg: Option<int>)

  const DefaultLimit: int := 200

  /** `int(request.args.get("limit", 200))`, with the string already converted. */
  function LimitArg(arg: Option<int>): int {
    if arg.Some? then arg.value else DefaultLimit
  }

  /** The filters in force; `None` imposes no constraint. */
  datatype Criteria = Criteria(labelIs: Option<string>, sourceIs: Option<string>, since: Option<Time>, until: Option<Time>)

  const NoCriteria: Criteria := Criteria(None, None, None, None)

  /** `fromisoformat` raised on the start or end argument; the handler does not catch it. */
  datatype QueryError = BadStart | BadEnd

  /** `if arg:` on a query argument: present and non-empty. */
  predicate Given(arg: Option<string>) {
    arg.Some? && arg.value != []
  }

  function ParseBound(c: Conversions, arg: Option<string>, error: QueryError): Result<Option<Time>, QueryError> {
    if !Given(arg) then Ok(None)
    else
      match c.parseIso(arg.value)
      case Some(t) => Ok(Some(t))
      case None => Err(error)
  }

  /** The filters `get_detections` applies, the start bound parsed before the end bound. */
  function ParseCriteria(c: Conversions, args: QueryArgs): Result<Criteria, QueryError> {
    var since :- ParseBound(c, args.startArg, BadStart);
    var until :- ParseBound(c, args.endArg, BadEnd);
    Ok(Criteria(
      if Given(args.labelArg) then args.labelArg else None,
      if Given(args.sourceArg) then args.sourceArg else None,
      since, until))
  }

  /** The conjunction of the filters in force. */
  predicate Matches(d: Detection, k: Criteria) {
    && (k.labelIs.Some? ==> d.fields.labelValue == Str(k.labelIs.value))
    && (k.sourceIs.Some? ==> d.fields.source == Str(k.sourceIs.value))
    && (k.since.Some? ==> d.fields.timestamp >= k.since.value)
    && (k.until.Some? ==> d.fields.timestamp <= k.until.value)
  }

  /** The matching rows, in store order. */
  function Filter(rs: seq<Detection>, k: Criteria): (r: seq<Detection>)
    ensures multiset(r) <= multiset(rs)
    ensures forall d :: d in r ==> d in rs && Matches(d, k)
    ensures forall d :: d in rs && Matches(d, k) ==> d in r
  {
    if rs == [] then []
    else
      assert rs == [rs[0]] + rs[1..];
      (if Matches(rs[0], k) then [rs[0]] else []) + Filter(rs[1..], k)
  }

  /** Timestamps do not increase along `s`. */
  ghost predicate NewestFirst(s: seq<Detection>) {
    forall i, j :: 0 <= i < j < |s| ==> s[i].fields.timestamp >= s[j].fields.timestamp
  }

  /** A row no older than the head of a newest-first sequence can go in front of it. */
  lemma PrependNewestFirst(y: Detection, s: seq<Detection>)
    requires NewestFirst(s)
    requires s != [] ==> s[0].fields.timestamp <= y.fields.timestamp
    ensures NewestFirst([y] + s)
  {
    var r := [y] + s;
    forall i, j | 0 <= i < j < |r|
      ensures r[i].fields.timestamp >= r[j].fields.timestamp
    {
      if i == 0 && j > 1 {
        assert r[j] == s[j - 1] && s[0].fields.timestamp >= s[j - 1].fields.timestamp;
      }
    }
  }

  /** Inserts `x` into a newest-first sequence, before the first row that is not newer. */
  function InsertNewestFirst(x: Detection, s: seq<Detection>): (r: seq<Detection>)
    ensures multiset(r) == multiset(s) + multiset{x}
    ensures r != [] && (r[0] == x || (s != [] && r[0] == s[0]))
    ensures NewestFirst(s) ==> NewestFirst(r)
  {
    if s == [] || s[0].fields.timestamp <= x.fields.timestamp then
      assert NewestFirst(s) ==> NewestFirst([x] + s) by {
        if NewestFirst(s) { PrependNewestFirst(x, s); }
      }
      [x] + s
    else
      assert s == [s[0]] + s[1..];
      var rest := InsertNewestFirst(x, s[1..]);
      assert NewestFirst(s) ==> NewestFirst([s[0]] + rest) by {
        if NewestFirst(s) {
          assert NewestFirst(s[1..]);
          PrependNewestFirst(s[0], rest);
        }
      }
      [s[0]] + rest
  }

  /** `order_by(Detection.timestamp.desc())`: rows with equal timestamps keep store order. */
  function SortNewestFirst(rs: seq<Detection>): (r: seq<Detection>)
    ensures NewestFirst(r)
    ensures multiset(r) == multiset(rs)
  {
    if rs == [] then []
    else
      assert rs == [rs[0]] + rs[1..];
      InsertNewestFirst(rs[0], SortNewestFirst(rs[1..]))
  }

  /** `.limit(limit)` on SQLite: a negative limit means no limit. */
  function Limit(s: seq<Detection>, limit: int): seq<Detection> {
    if limit < 0 || |s| <= limit then s else s[..limit]
  }

  /** The rows GET /detections returns, before serialisation. */
  function Select(rs: seq<Detection>, k: Criteria, limit: int): seq<Detection> {
    Limit(SortNewestFirst(Filter(rs, k)), limit)
  }

  /** GET /detections: the selected rows, each serialised with `to_dict`. The reply fails
      exactly when a given start or end bound does not parse; otherwise it holds min(limit,
      #matches) serialised matching rows, newest first, and every match when they fit. */
  function GetDetections(c: Conversions, rs: seq<Detection>, args: QueryArgs): (r: Result<seq<Value>, QueryError>)
    ensures r.Err? <==>
      (Given(args.startArg) && c.parseIso(args.startArg.value).None?) ||
      (Given(args.endArg) && c.parseIso(args.endArg.value).None?)
    ensures r.Ok? ==>
      var k := ParseCriteria(c, args).value;
      var limit := LimitArg(args.limitArg);
      |r.value| == (if 0 <= limit < |Filter(rs, k)| then limit else |Filter(rs, k)|)
    ensures r.Ok? ==>
      var k := ParseCriteria(c, args).value;
      exists sel :: NewestMatches(sel, rs, k) && Serves(c, r.value, sel)
    ensures r.Ok? ==>
      var k := ParseCriteria(c, args).value;
      var limit := LimitArg(args.limitArg);
      (limit < 0 || |Filter(rs, k)| <= limit) ==>
        forall d :: d in rs && Matches(d, k) ==> ToDict(c, d) in r.value
  {
    CriteriaFromArgs(c, args);
    match ParseCriteria(c, args)
    case Err(e) => Err(e)
    case Ok(k) =>
      SerialisedLength(c, rs, k, LimitArg(args.limitArg));
      SerialisedSound(c, rs, k, LimitArg(args.limitArg));
      SerialisedComplete(c, rs, k, LimitArg(args.limitArg));
      Ok(Serialise(c, Select(rs, k, LimitArg(args.limitArg))))
  }

  /** `[r.to_dict() for r in rows]`. */
  function Serialise(c: Conversions, sel: seq<Detection>): seq<Value> {
    seq(|sel|, i requires 0 <= i < |sel| => ToDict(c, sel[i]))
  }

  /** The serialised selection holds min(limit, #matches) rows. */
  lemma SerialisedLength(c: Conversions, rs: seq<Detection>, k: Criteria, limit: int)
    ensures |Serialise(c, Select(rs, k, limit))| == (if 0 <= limit < |Filter(rs, k)| then limit else |Filter(rs, k)|)
  {
    QueryShape(rs, k, limit);
  }

  /** `sel` is a newest-first choice of matching stored rows, each stored row at most once,
      such that no match left out is newer than a row chosen. */
  ghost predicate NewestMatches(sel: seq<Detection>, rs: seq<Detection>, k: Criteria) {
    && NewestFirst(sel)
    && multiset(sel) <= multiset(rs)
    && (forall d :: d in sel ==> Matches(d, k))
    && (forall d, e :: d in rs && Matches(d, k) && d !in sel && e in sel ==> d.fields.timestamp <= e.fields.timestamp)
  }

  /** `out` is the `to_dict` form of `sel`, row by row. */
  ghost predicate Serves(c: Conversions, out: seq<Value>, sel: seq<Detection>) {
    |out| == |sel| && forall i :: 0 <= i < |sel| ==> out[i] == ToDict(c, sel[i])
  }

  /** The selection is a newest-first choice of the newest matches, each stored row at most once. */
  lemma SelectIsNewestMatches(rs: seq<Detection>, k: Criteria, limit: int)
    ensures NewestMatches(Select(rs, k, limit), rs, k)
  {
    var sel := Select(rs, k, limit);
    assert NewestFirst(sel) by {
      QueryShape(rs, k, limit);
    }
    assert multiset(sel) <= multiset(rs) by {
      var sorted := SortNewestFirst(Filter(rs, k));
      assert sorted == sel + sorted[|sel|..];
      assert multiset(sel) <= multiset(sorted) == multiset(Filter(rs, k));
    }
    assert forall d :: d in sel ==> Matches(d, k) by {
      QuerySound(rs, k, limit);
    }
    assert forall d, e :: d in rs && Matches(d, k) && d !in sel && e in sel ==> d.fields.timestamp <= e.fields.timestamp by {
      QueryKeepsNewest(rs, k, limit);
    }
  }

  /** The serialised reply serves the newest matches, newest first, each stored row at most once. */
  lemma SerialisedSound(c: Conversions, rs: seq<Detection>, k: Criteria, limit: int)
    ensures exists sel :: NewestMatches(sel, rs, k) && Serves(c, Serialise(c, Select(rs, k, limit)), sel)
  {
    SelectIsNewestMatches(rs, k, limit);
    assert Serves(c, Serialise(c, Select(rs, k, limit)), Select(rs, k, limit));
  }

  /** Every match is serialised when the matches fit within the limit. */
  lemma SerialisedComplete(c: Conversions, rs: seq<Detection>, k: Criteria, limit: int)
    ensures (limit < 0 || |Filter(rs, k)| <= limit) ==>
      forall d :: d in rs && Matches(d, k) ==> ToDict(c, d) in Serialise(c, Select(rs, k, limit))
  {
    var sel := Select(rs, k, limit);
    var out := Serialise(c, sel);
    if limit < 0 || |Filter(rs, k)| <= limit {
      QueryComplete(rs, k, limit);
      forall d | d in rs && Matches(d, k) ensures ToDict(c, d) in out {
        var i :| 0 <= i < |sel| && sel[i] == d;
        assert out[i] == ToDict(c, d);
      }
    }
  }

  // ---------------------------------------------------------------------------------------
  // Properties of the query

  /** An empty or missing argument imposes no filter; a given one imposes exactly its filter;
      only an unparsable start or end bound fails. */
  lemma CriteriaFromArgs(c: Conversions, args: QueryArgs)
    ensures ParseCriteria(c, args).Err? <==>
      (Given(args.startArg) && c.parseIso(args.startArg.value).None?) ||
      (Given(args.endArg) && c.parseIso(args.endArg.value).None?)
    ensures ParseCriteria(c, args).Ok? ==>
      var k := ParseCriteria(c, args).value;
      && (k.labelIs.Some? <==> Given(args.labelArg))
      && (k.sourceIs.Some? <==> Given(args.sourceArg))
      && (k.since.Some? <==> Given(args.startArg))
      && (k.until.Some? <==> Given(args.endArg))
      && (k.labelIs.Some? ==> k.labelIs == args.labelArg)
      && (k.sourceIs.Some? ==> k.sourceIs == args.sourceArg)
      && (k.since.Some? ==> c.parseIso(args.startArg.value) == k.since)
      && (k.until.Some? ==> c.parseIso(args.endArg.value) == k.until)
  {
  }

  /** With no filter in force every row is returned by the filtering step, in store order. */
  lemma {:induction false} NoCriteriaKeepsAll(rs: seq<Detection>)
    ensures Filter(rs, NoCriteria) == rs
  {
    if rs != [] {
      NoCriteriaKeepsAll(rs[1..]);
    }
  }

  /** Soundness: every returned row is a stored row that satisfies every filter in force. */
  lemma QuerySound(rs: seq<Detection>, k: Criteria, limit: int)
    ensures forall d :: d in Select(rs, k, limit) ==> d in rs && Matches(d, k)
  {
    var sorted := SortNewestFirst(Filter(rs, k));
    forall d | d in Select(rs, k, limit)
      ensures d in rs && Matches(d, k)
    {
      assert d in sorted;
      assert d in multiset(sorted);
    }
  }

  /** Completeness: when the matches fit within the limit, every matching row is returned. */
  lemma QueryComplete(rs: seq<Detection>, k: Criteria, limit: int)
    requires limit < 0 || |Filter(rs, k)| <= limit
    ensures forall d :: d in rs && Matches(d, k) ==> d in Select(rs, k, limit)
  {
    var sorted := SortNewestFirst(Filter(rs, k));
    assert |sorted| == |Filter(rs, k)| by {
      assert |multiset(sorted)| == |multiset(Filter(rs, k))|;
    }
    forall d | d in rs && Matches(d, k)
      ensures d in Select(rs, k, limit)
    {
      assert d in multiset(Filter(rs, k));
    }
  }

  /** The result is newest first and holds min(limit, #matches) rows (all matches when the
      limit is negative). */
  lemma QueryShape(rs: seq<Detection>, k: Criteria, limit: int)
    ensures NewestFirst(Select(rs, k, limit))
    ensures |Select(rs, k, limit)| == if 0 <= limit < |Filter(rs, k)| then limit else |Filter(rs, k)|
  {
    var sorted := SortNewestFirst(Filter(rs, k));
    assert |sorted| == |Filter(rs, k)| by {
      assert |multiset(sorted)| == |multiset(Filter(rs, k))|;
    }
  }

  /** The limit keeps the newest matches: a matching row that is left out is no newer than any
      row that is returned. */
  lemma QueryKeepsNewest(rs: seq<Detection>, k: Criteria, limit: int)
    ensures forall d, e :: d in rs && Matches(d, k) && d !in Select(rs, k, limit) && e in Select(rs, k, limit) ==>
      d.fields.timestamp <= e.fields.timestamp
  {
    var sorted := SortNewestFirst(Filter(rs, k));
    var sel := Select(rs, k, limit);
    forall d, e | d in rs && Matches(d, k) && d !in sel && e in sel
      ensures d.fields.timestamp <= e.fields.timestamp
    {
      assert d in multiset(Filter(rs, k));
      assert d in multiset(sorted);
      var j :| 0 <= j < |sorted| && sorted[j] == d;
      var i :| 0 <= i < |sel| && sel[i] == e;
      assert sel == sorted[..|sel|];
      assert j >= |sel|;
      assert sorted[i] == e;
    }
  }
}

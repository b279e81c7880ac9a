/** The in-memory detection store and the POST /detections handler (server.py,
    _insert_detection's session add and add_detections). */
module Ingestion {
  import opened Wrappers
  import opened Json
  import opened Detections

  /** Why a POST /detections request is refused. */
  datatype RequestError =
    | MissingBody                     // `{"error": "missing json body"}`
    | InvalidPayload(reason: NormError)  // single mode: the exception's message

  /** The reply of POST /detections: `201 {"inserted": n[, "id": id]}` or `400 {"error": ...}`. */
  datatype Reply = Created(inserted: nat, id: Option<nat>) | BadRequest(error: RequestError)

  /** The batch shape: a dict with a "detections" key whose value is a list. */
  predicate IsBatch(body: Value) {
    body.Obj? && "detections" in body.fields && body.fields["detections"].Arr?
  }

  /** The batch-level default source, `data.get("source", "unknown")`. */
  function BatchSource(body: Value): Value
    requires body.Obj?
  {
    Get(body.fields, "source", Str("unknown"))
  }

  /** One batch element: `_insert_detection({**d, "source": d.get("source", source)}, source)`.
      An element that is not a dict raises before anything is added. */
  function BatchElement(c: Conversions, d: Value, source: Value, now: Time): Result<Fields, NormError> {
    if d.Obj? then Normalise(c, Obj(d.fields["source" := Get(d.fields, "source", source)]), source, now)
    else Err(NotAnObject)
  }

  /** The fields of the batch elements that normalise, in input order; the element at position
      i of `items` is processed at time `clock(start + i)`. */
  function Accepted(c: Conversions, items: seq<Value>, source: Value, clock: nat -> Time, start: nat): seq<Fields>
    decreases |items|
  {
    if items == [] then []
    else
      var n := |items| - 1;
      var init := Accepted(c, items[..n], source, clock, start);
      match BatchElement(c, items[n], source, clock(start + n))
      case Ok(f) => init + [f]
      case Err(_) => init
  }

  /** The number of batch elements that fail to normalise. */
  function Rejected(c: Conversions, items: seq<Value>, source: Value, clock: nat -> Time, start: nat): nat
    decreases |items|
  {
    if items == [] then 0
    else
      var n := |items| - 1;
      Rejected(c, items[..n], source, clock, start)
        + (if BatchElement(c, items[n], source, clock(start + n)).Err? then 1 else 0)
  }

  /** Stored rows for `fs`, numbered consecutively from `first`. */
  function Numbered(fs: seq<Fields>, first: nat): seq<Detection> {
    seq(|fs|, i requires 0 <= i < |fs| => Detection(first + i, fs[i]))
  }

  /** Batch ingestion distributes over concatenation: what a batch keeps is what its first part
      keeps followed by what its second part keeps, so a failing element never stops the
      elements after it from being added. */
  lemma {:induction false} AcceptedAppend(c: Conversions, xs: seq<Value>, ys: seq<Value>, source: Value, clock: nat -> Time, start: nat)
    ensures Accepted(c, xs + ys, source, clock, start)
         == Accepted(c, xs, source, clock, start) + Accepted(c, ys, source, clock, start + |xs|)
    decreases |ys|
  {
    if ys == [] {
      assert xs + ys == xs;
    } else {
      var n := |ys| - 1;
      assert (xs + ys)[..|xs + ys| - 1] == xs + ys[..n];
      assert (xs + ys)[|xs + ys| - 1] == ys[n];
      AcceptedAppend(c, xs, ys[..n], source, clock, start);
    }
  }

  /** A one-element batch keeps its element exactly when the element normalises. */
  lemma AcceptedSingle(c: Conversions, d: Value, source: Value, clock: nat -> Time, start: nat)
    ensures BatchElement(c, d, source, clock(start)).Ok? ==>
      Accepted(c, [d], source, clock, start) == [BatchElement(c, d, source, clock(start)).value]
    ensures BatchElement(c, d, source, clock(start)).Err? ==> Accepted(c, [d], source, clock, start) == []
  {
    assert [d][..0] == [];
  }

  /** The element at position k is kept, or dropped, without affecting the others. */
  lemma ElementIndependence(c: Conversions, items: seq<Value>, k: nat, source: Value, clock: nat -> Time)
    requires k < |items|
    ensures Accepted(c, items, source, clock, 0)
         == Accepted(c, items[..k], source, clock, 0)
          + Accepted(c, [items[k]], source, clock, k)
          + Accepted(c, items[k + 1..], source, clock, k + 1)
  {
    assert items == items[..k] + [items[k]] + items[k + 1..];
    AcceptedAppend(c, items[..k] + [items[k]], items[k + 1..], source, clock, 0);
    AcceptedAppend(c, items[..k], [items[k]], source, clock, 0);
  }

  /** A batch of N elements of which M fail to normalise reports N - M insertions. */
  lemma {:induction false} AcceptedCount(c: Conversions, items: seq<Value>, source: Value, clock: nat -> Time, start: nat)
    ensures |Accepted(c, items, source, clock, start)| + Rejected(c, items, source, clock, start) == |items|
    decreases |items|
  {
    if items != [] {
      AcceptedCount(c, items[..|items| - 1], source, clock, start);
    }
  }

  /** Every kept record is the normalisation of some element of the batch, processed at that
      element's clock reading. */
  lemma {:induction false} AcceptedFromItems(c: Conversions, items: seq<Value>, source: Value, clock: nat -> Time, start: nat)
    ensures forall f :: f in Accepted(c, items, source, clock, start) ==>
      exists i :: 0 <= i < |items| && BatchElement(c, items[i], source, clock(start + i)) == Ok(f)
    decreases |items|
  {
    if items != [] {
      var n := |items| - 1;
      AcceptedFromItems(c, items[..n], source, clock, start);
      forall f | f in Accepted(c, items, source, clock, start)
        ensures exists i :: 0 <= i < |items| && BatchElement(c, items[i], source, clock(start + i)) == Ok(f)
      {
        if f in Accepted(c, items[..n], source, clock, start) {
          var i :| 0 <= i < n && BatchElement(c, items[..n][i], source, clock(start + i)) == Ok(f);
          assert items[..n][i] == items[i];
        } else {
          assert BatchElement(c, items[n], source, clock(start + n)) == Ok(f);
        }
      }
    }
  }

  /** Source precedence in a batch: the element's own "source" wins, then the batch "source",
      then "unknown". */
  lemma BatchSourcePrecedence(c: Conversions, body: Value, d: Value, now: Time)
    requires IsBatch(body)
    requires BatchElement(c, d, BatchSource(body), now).Ok?
    ensures d.Obj?
    ensures BatchElement(c, d, BatchSource(body), now).value.source ==
      if "source" in d.fields then d.fields["source"]
      else if "source" in body.fields then body.fields["source"]
      else Str("unknown")
  {
  }

  /** When no element carries a timestamp, every kept record is stamped with a clock reading
      taken while the batch was processed: none earlier than the request start, none later
      than its end. */
  lemma {:induction false} DefaultTimestampsInWindow(c: Conversions, items: seq<Value>, source: Value, clock: nat -> Time, start: nat, t0: Time, t1: Time)
    requires forall i :: 0 <= i < |items| && items[i].Obj? ==> "timestamp" !in items[i].fields
    requires forall j :: start <= j < start + |items| ==> t0 <= clock(j) <= t1
    ensures forall f :: f in Accepted(c, items, source, clock, start) ==> t0 <= f.timestamp <= t1
    decreases |items|
  {
    if items != [] {
      var n := |items| - 1;
      assert forall i :: 0 <= i < n ==> items[..n][i] == items[i];
      DefaultTimestampsInWindow(c, items[..n], source, clock, start, t0, t1);
      var d := items[n];
      var now := clock(start + n);
      assert t0 <= now <= t1;
      if d.Obj? {
        var m := d.fields["source" := Get(d.fields, "source", source)];
        assert "timestamp" !in m;
        TimestampRule(c, m, source, now);
        assert BatchElement(c, d, source, now).Ok? ==> BatchElement(c, d, source, now).value.timestamp == now;
      }
    }
  }

  /** Rows numbered as the database numbers them with no deletions: 1, 2, 3, ... */
  ghost predicate WellNumbered(rs: seq<Detection>) {
    forall i :: 0 <= i < |rs| ==> rs[i].id == i + 1
  }

  /** The detection table, with the id counter the database keeps. */
  class Store {
    var records: seq<Detection>
    var nextId: nat

    ghost predicate Valid()
      reads this
    {
      WellNumbered(records) && nextId == |records| + 1
    }

    constructor ()
      ensures Valid() && records == []
    {
      records := [];
      nextId := 1;
    }

    /** `_insert_detection` followed by the session add: a payload that normalises becomes a
        new row with the next id; one that does not leaves the store as it was. */
    method Insert(c: Conversions, d: Value, defaultSource: Value, now: Time) returns (res: Result<nat, NormError>)
      requires Valid()
      modifies this
      ensures Valid()
      ensures Normalise(c, d, defaultSource, now).Ok? ==>
        res == Ok(old(nextId)) &&
        records == old(records) + [Detection(old(nextId), Normalise(c, d, defaultSource, now).value)]
      ensures Normalise(c, d, defaultSource, now).Err? ==>
        res == Err(Normalise(c, d, defaultSource, now).error) && records == old(records)
    {
      var r := Normalise(c, d, defaultSource, now);
      match r
      case Ok(f) =>
        records := records + [Detection(nextId, f)];
        res := Ok(nextId);
        nextId := nextId + 1;
      case Err(e) =>
        res := Err(e);
    }

    /** POST /detections. `clock(i)` is the time at which the i-th element of a batch (or the
        single payload, i = 0) is processed. */
    method AddDetections(c: Conversions, body: Value, clock: nat -> Time) returns (reply: Reply)
      requires Valid()
      modifies this
      ensures Valid()
      // an empty or missing body is refused with no side effect
      ensures !Truthy(body) ==> reply == BadRequest(MissingBody) && records == old(records)
      // batch: best effort, the elements that normalise are appended in input order
      ensures Truthy(body) && IsBatch(body) ==>
        var added := Accepted(c, body.fields["detections"].items, BatchSource(body), clock, 0);
        reply == Created(|added|, None) && records == old(records) + Numbered(added, old(nextId))
      // single: all or nothing
      ensures Truthy(body) && !IsBatch(body) ==>
        var source := if body.Obj? then Get(body.fields, "source", Str("unknown")) else Null;
        match Normalise(c, body, source, clock(0))
        case Ok(f) => reply == Created(1, Some(old(nextId))) && records == old(records) + [Detection(old(nextId), f)]
        case Err(e) => reply == BadRequest(InvalidPayload(e)) && records == old(records)
    {
      if !Truthy(body) {
        return BadRequest(MissingBody);
      }
      if IsBatch(body) {
        var items := body.fields["detections"].items;
        var source := BatchSource(body);
        var inserted := 0;
        var i := 0;
        while i < |items|
          invariant 0 <= i <= |items|
          invariant Valid()
          invariant records == old(records) + Numbered(Accepted(c, items[..i], source, clock, 0), old(nextId))
          invariant inserted == |Accepted(c, items[..i], source, clock, 0)|
        {
          var d := items[i];
          assert items[..i + 1][..i] == items[..i];
          if d.Obj? {
            var res := Insert(c, Obj(d.fields["source" := Get(d.fields, "source", source)]), source, clock(i));
            if res.Ok? {
              inserted := inserted + 1;
            }
          }
          i := i + 1;
        }
        assert items[..i] == items;
        return Created(inserted, None);
      }
      // a body that is not a dict fails in `data.get`; Normalise reports that as NotAnObject
      var source := if body.Obj? then Get(body.fields, "source", Str("unknown")) else Null;
      var res := Insert(c, body, source, clock(0));
      match res
      case Ok(id) =>
        reply := Created(1, Some(id));
      case Err(e) =>
        reply := BadRequest(InvalidPayload(e));
    }
  }
}

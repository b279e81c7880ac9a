/** The detection record and the normalisation that turns an untyped payload into one
    (server.py, class Detection and _insert_detection). */
module Detections {
  import opened Wrappers
  import opened Json

  /** A point in time, UTC, in microseconds. */
  type Time = int

  /** Length of one minute in Time units (`timedelta(minutes=1)`). */
  const MicrosPerMinute: int := 60_000_000

  /** Conversions the Python runtime performs and whose internals are not modelled:
      `float(s)` on a string, `datetime.fromisoformat(s)` and `datetime.isoformat()`.
      A `None` result stands for the exception the conversion raises. */
  datatype Conversions = Conversions(
    parseFloat: string -> Option<real>,
    parseIso: string -> Option<Time>,
    formatIso: Time -> string)

  /** One bounding-box coordinate; each of the four is individually nullable. */
  type Coord = Option<real>

  datatype Bbox = Bbox(x1: Coord, y1: Coord, x2: Coord, y2: Coord)

  /** The stored columns of a detection, before the store gives it an id. The label and the
      source are kept as the payload gave them (the store does not check their types). */
  datatype Fields = Fields(labelValue: Value, confidence: real, bbox: Bbox, source: Value, timestamp: Time)

  /** A stored detection row. */
  datatype Detection = Detection(id: nat, fields: Fields)

  /** Why a payload does not normalise: the exception `_insert_detection` would raise. */
  datatype NormError =
    | NotAnObject    // the payload is not a dict (`d.get` raises)
    | BadConfidence  // `float(confidence)` raises
    | BadTimestamp   // `datetime.fromisoformat` raises, or the timestamp is not a string
    | BadBbox        // `bbox[k]` raises: too short, or not indexable by position
    | BadCoordinate  // `float(bbox[k])` raises

  const AllNullBbox: Value := Arr([Null, Null, Null, Null])

  /** Python `float(v)` on a decoded JSON value. */
  function ToFloat(c: Conversions, v: Value): Option<real> {
    match v
    case Num(n) => Some(n)
    case Bool(b) => Some(if b then 1.0 else 0.0)
    case Str(s) => c.parseFloat(s)
    case _ => None
  }

  /** Python `bbox[k]` on a decoded value: a list gives its element, a string its character;
      anything else, or a position past the end, raises. */
  function ElementAt(bbox: Value, k: nat): Option<Value> {
    match bbox
    case Arr(items) => if k < |items| then Some(items[k]) else None
    case Str(s) => if k < |s| then Some(Str([s[k]])) else None
    case _ => None
  }

  /** `float(e) if e is not None else None` for one bbox element. */
  function ConvertCoord(c: Conversions, e: Value): Result<Coord, NormError> {
    if e == Null then Ok(None)
    else
      match ToFloat(c, e)
      case Some(x) => Ok(Some(x))
      case None => Err(BadCoordinate)
  }

  function ParseCoord(c: Conversions, bbox: Value, k: nat): Result<Coord, NormError> {
    match ElementAt(bbox, k)
    case None => Err(BadBbox)
    case Some(e) => ConvertCoord(c, e)
  }

  /** The four coordinates, converted left to right as the constructor call evaluates them. */
  function ParseBbox(c: Conversions, bbox: Value): Result<Bbox, NormError> {
    var x1 :- ParseCoord(c, bbox, 0);
    var y1 :- ParseCoord(c, bbox, 1);
    var x2 :- ParseCoord(c, bbox, 2);
    var y2 :- ParseCoord(c, bbox, 3);
    Ok(Bbox(x1, y1, x2, y2))
  }

  /** `fromisoformat(ts) if ts else utcnow()`: a falsy timestamp takes the clock reading. */
  function ParseTimestamp(c: Conversions, ts: Value, now: Time): Result<Time, NormError> {
    if !Truthy(ts) then Ok(now)
    else if ts.Str? then c.parseIso(ts.s).ToResult(BadTimestamp)
    else Err(BadTimestamp)
  }

  /** The field logic of `_insert_detection(d, default_source)`, in the order the source
      evaluates it: confidence, then timestamp, then the four bbox elements. */
  function Normalise(c: Conversions, d: Value, defaultSource: Value, now: Time): Result<Fields, NormError> {
    if !d.Obj? then Err(NotAnObject)
    else
      var m := d.fields;
      var confidence :- ToFloat(c, Get(m, "confidence", Num(0.0))).ToResult(BadConfidence);
      var ts :- ParseTimestamp(c, Get(m, "timestamp", Null), now);
      var bbox :- ParseBbox(c, Get(m, "bbox", AllNullBbox));
      Ok(Fields(Get(m, "label", Null), confidence, bbox, Get(m, "source", defaultSource), ts))
  }

  /** The bbox as the list `[x1, y1, x2, y2]`. */
  function Coords(b: Bbox): seq<Coord> {
    [b.x1, b.y1, b.x2, b.y2]
  }

  function CoordValue(x: Coord): Value {
    match x
    case None => Null
    case Some(r) => Num(r)
  }

  /** `Detection.to_dict()`: the wire form of a stored row. */
  function ToDict(c: Conversions, det: Detection): Value {
    var f := det.fields;
    Obj(map[
      "id" := Num(det.id as real),
      "label" := f.labelValue,
      "confidence" := Num(f.confidence),
      "bbox" := Arr(seq(4, k requires 0 <= k < 4 => CoordValue(Coords(f.bbox)[k]))),
      "source" := f.source,
      "timestamp" := Str(c.formatIso(f.timestamp))])
  }

  // ---------------------------------------------------------------------------------------
  // Properties of normalisation

  /** A missing confidence becomes 0.0; a present one is converted with `float`, and a value
      that does not convert fails the whole record. */
  lemma ConfidenceRule(c: Conversions, m: map<string, Value>, defaultSource: Value, now: Time)
    ensures "confidence" !in m ==>
      Normalise(c, Obj(m), defaultSource, now) != Err(BadConfidence)
    ensures "confidence" !in m && Normalise(c, Obj(m), defaultSource, now).Ok? ==>
      Normalise(c, Obj(m), defaultSource, now).value.confidence == 0.0
    ensures "confidence" in m && Normalise(c, Obj(m), defaultSource, now).Ok? ==>
      ToFloat(c, m["confidence"]) == Some(Normalise(c, Obj(m), defaultSource, now).value.confidence)
    ensures "confidence" in m && ToFloat(c, m["confidence"]).None? ==>
      Normalise(c, Obj(m), defaultSource, now) == Err(BadConfidence)
  {
  }

  /** A missing or falsy timestamp takes the clock reading; a present one is parsed, and a
      parse failure (or a timestamp that is not a string) fails the whole record. */
  lemma TimestampRule(c: Conversions, m: map<string, Value>, defaultSource: Value, now: Time)
    ensures ("timestamp" !in m || !Truthy(m["timestamp"])) && Normalise(c, Obj(m), defaultSource, now).Ok? ==>
      Normalise(c, Obj(m), defaultSource, now).value.timestamp == now
    ensures "timestamp" in m && Truthy(m["timestamp"]) && Normalise(c, Obj(m), defaultSource, now).Ok? ==>
      m["timestamp"].Str? && c.parseIso(m["timestamp"].s) == Some(Normalise(c, Obj(m), defaultSource, now).value.timestamp)
    ensures "timestamp" in m && Truthy(m["timestamp"]) &&
            (!m["timestamp"].Str? || c.parseIso(m["timestamp"].s).None?) ==>
      Normalise(c, Obj(m), defaultSource, now).Err?
  {
  }

  /** Each of the four bbox positions is converted in place: a null element stays null, any
      other element is converted with `float`; a success means all four positions exist. */
  lemma BboxPositions(c: Conversions, bbox: Value, b: Bbox)
    requires ParseBbox(c, bbox) == Ok(b)
    ensures forall k :: 0 <= k < 4 ==> ElementAt(bbox, k).Some?
    ensures forall k :: 0 <= k < 4 ==> (Coords(b)[k].None? <==> ElementAt(bbox, k) == Some(Null))
    ensures forall k :: 0 <= k < 4 && Coords(b)[k].Some? ==> ToFloat(c, ElementAt(bbox, k).value) == Coords(b)[k]
  {
    assert forall k :: 0 <= k < 4 ==> ParseCoord(c, bbox, k) == Ok(Coords(b)[k]);
  }

  /** A bbox list with fewer than four elements never normalises, and one with four or more
      whose first four elements are null or convertible always does. */
  lemma BboxLength(c: Conversions, items: seq<Value>)
    ensures |items| < 4 ==> ParseBbox(c, Arr(items)).Err?
    ensures |items| >= 4 && (forall k :: 0 <= k < 4 ==> ConvertCoord(c, items[k]).Ok?) ==>
      ParseBbox(c, Arr(items)).Ok?
  {
  }

  /** A payload without a bbox gets four null coordinates and cannot fail on the bbox. */
  lemma MissingBboxIsAllNull(c: Conversions, m: map<string, Value>, defaultSource: Value, now: Time)
    requires "bbox" !in m
    ensures Normalise(c, Obj(m), defaultSource, now) != Err(BadBbox)
    ensures Normalise(c, Obj(m), defaultSource, now) != Err(BadCoordinate)
    ensures Normalise(c, Obj(m), defaultSource, now).Ok? ==>
      Normalise(c, Obj(m), defaultSource, now).value.bbox == Bbox(None, None, None, None)
  {
  }

  /** The payload's own source wins over the default source. */
  lemma SourceRule(c: Conversions, m: map<string, Value>, defaultSource: Value, now: Time)
    requires Normalise(c, Obj(m), defaultSource, now).Ok?
    ensures "source" in m ==> Normalise(c, Obj(m), defaultSource, now).value.source == m["source"]
    ensures "source" !in m ==> Normalise(c, Obj(m), defaultSource, now).value.source == defaultSource
  {
  }

  /** Serialising a stored row and posting the result again yields the same columns, provided
      the ISO formatter and parser are inverse on its timestamp: to_dict keeps the bbox as
      `[x1, y1, x2, y2]` in order and every other field as stored. */
  lemma ReingestRoundTrip(c: Conversions, det: Detection, defaultSource: Value, now: Time)
    requires c.formatIso(det.fields.timestamp) != []
    requires c.parseIso(c.formatIso(det.fields.timestamp)) == Some(det.fields.timestamp)
    ensures Normalise(c, ToDict(c, det), defaultSource, now) == Ok(det.fields)
  {
    var f := det.fields;
    var bbox := Arr(seq(4, k requires 0 <= k < 4 => CoordValue(Coords(f.bbox)[k])));
    assert ToDict(c, det).fields["bbox"] == bbox;
    assert forall k :: 0 <= k < 4 ==> ParseCoord(c, bbox, k) == Ok(Coords(f.bbox)[k]);
    assert ParseBbox(c, bbox) == Ok(f.bbox);
  }

  /** A bbox of four numbers is stored and served back as the identical four numbers, in order. */
  lemma BboxNumbersRoundTrip(c: Conversions, m: map<string, Value>, xs: seq<real>, defaultSource: Value, now: Time, id: nat)
    requires |xs| == 4
    requires "bbox" in m && m["bbox"] == Arr([Num(xs[0]), Num(xs[1]), Num(xs[2]), Num(xs[3])])
    requires Normalise(c, Obj(m), defaultSource, now).Ok?
    ensures ToDict(c, Detection(id, Normalise(c, Obj(m), defaultSource, now).value)).fields["bbox"] == m["bbox"]
  {
    var f := Normalise(c, Obj(m), defaultSource, now).value;
    BboxPositions(c, m["bbox"], f.bbox);
    var out := seq(4, k requires 0 <= k < 4 => CoordValue(Coords(f.bbox)[k]));
    assert forall k :: 0 <= k < 4 ==> out[k] == m["bbox"].items[k];
    assert out == m["bbox"].items;
  }
}

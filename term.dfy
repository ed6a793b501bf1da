/**
 * The Elasticsearch `term` query as ZomboDB builds it:
 * `{"term": {<field>: {"value": <v>, "boost": <b>}}}`, where `"boost"` is left out
 * entirely when no boost is given. Twelve typed entry points wrap their argument
 * in a `Term` and hand it to the one builder, `MakeTermDsl`.
 *
 * `ReadTermQuery` is the builder's partner: it recognises exactly the documents
 * the builder produces (a value no `TermValue` serialises to, such as `null`, is
 * refused) and gives back the field, the serialised value and the boost.
 */
module TermDsl {
  import opened Wrappers
  import opened Json
  import opened Temporal

  newtype Int16 = x: int | -0x8000 <= x < 0x8000
  newtype Int32 = x: int | -0x8000_0000 <= x < 0x8000_0000
  newtype Int64 = x: int | -0x8000_0000_0000_0000 <= x < 0x8000_0000_0000_0000

  /**
   * The value of a term, one constructor per Rust type an entry point accepts.
   * The two kinds with a time zone carry the clock reading in UTC, the form in
   * which the value reaches the serialiser.
   */
  datatype TermValue =
    | Text(text: string)
    | Bool(flag: bool)
    | SmallInt(i16: Int16)
    | Integer(i32: Int32)
    | BigInt(i64: Int64)
    | Real(f32: F32)
    | Double(f64: F64)
    | TimeOfDay(time: Time)
    | Day(date: Date)
    | TimeTz(utcTime: Time)
    | Stamp(timestamp: Timestamp)
    | StampTz(utcTimestamp: Timestamp)

  /** `Term<T> { value, boost }`. */
  datatype Term = Term(value: TermValue, boost: Option<F32>)

  /** The JSON values that some `TermValue` serialises to. */
  predicate IsTermValueJson(j: Json) {
    match j
    case JString(_) => true
    case JBool(_) => true
    case JInt(i) => -0x8000_0000_0000_0000 <= i < 0x8000_0000_0000_0000
    case JFloat32(_) => true
    case JFloat64(_) => true
    case _ => false
  }

  /**
   * What serialising a value of each kind yields: a string for text and for the
   * temporal kinds, and never `null` or an object.
   */
  function SerializeValue(v: TermValue): (j: Json)
    ensures IsTermValueJson(j)
    ensures j.JString? <==> v.Text? || v.TimeOfDay? || v.Day? || v.TimeTz? || v.Stamp? || v.StampTz?
  {
    match v
    case Text(s) => JString(s)
    case Bool(b) => JBool(b)
    case SmallInt(i) => JInt(i as int)
    case Integer(i) => JInt(i as int)
    case BigInt(i) => JInt(i as int)
    case Real(f) => JFloat32(f)
    case Double(f) => JFloat64(f)
    case TimeOfDay(t) => JString(FormatTime(t))
    case Day(d) => JString(FormatDate(d))
    case TimeTz(t) => JString(FormatTime(t))
    case Stamp(ts) => JString(FormatTimestamp(ts))
    case StampTz(ts) => JString(FormatTimestamp(ts))
  }

  /**
   * The derived serialisation of `Term`: `"value"` first, then `"boost"`, which
   * `skip_serializing_if = "Option::is_none"` leaves out when it is `None`.
   */
  function SerializeTerm(t: Term): (j: Json)
    ensures j.JObject?
    ensures Keys(j) == if t.boost.Some? then ["value", "boost"] else ["value"]
    ensures Lookup(j, "value") == Some(SerializeValue(t.value))
    ensures Lookup(j, "boost") == if t.boost.Some? then Some(JFloat32(t.boost.value)) else None
  {
    match t.boost
    case None => JObject([("value", SerializeValue(t.value))])
    case Some(b) => JObject([("value", SerializeValue(t.value)), ("boost", JFloat32(b))])
  }

  /** `make_term_dsl`: `{"term": {field: term}}`, the field name used verbatim. */
  function MakeTermDsl(field: string, term: Term): (q: Json)
    ensures Keys(q) == ["term"]
    ensures Lookup(q, "term").Some? && Keys(Lookup(q, "term").value) == [field]
    ensures Lookup(Lookup(q, "term").value, field) == Some(SerializeTerm(term))
  {
    JObject([("term", JObject([(field, SerializeTerm(term))]))])
  }

  /** A value of the widest kind that serialises to `j`. */
  function Preimage(j: Json): (v: TermValue)
    requires IsTermValueJson(j)
    ensures SerializeValue(v) == j
  {
    match j
    case JString(s) => Text(s)
    case JBool(b) => Bool(b)
    case JInt(i) => BigInt(i as Int64)
    case JFloat32(f) => Real(f)
    case JFloat64(f) => Double(f)
  }

  /** A term query as read back from its document. */
  datatype TermQuery = TermQuery(field: string, value: Json, boost: Option<F32>)

  /** Reads the boost-free or boosted inner object of a term query. */
  function ReadTermBody(members: seq<(string, Json)>): Option<(Json, Option<F32>)> {
    if |members| == 1 && members[0].0 == "value" && IsTermValueJson(members[0].1) then
      Some((members[0].1, None))
    else if |members| == 2 && members[0].0 == "value" && IsTermValueJson(members[0].1)
            && members[1].0 == "boost" && members[1].1.JFloat32? then
      Some((members[0].1, Some(members[1].1.f32)))
    else None
  }

  /**
   * Recognises a document of the shape `{"term": {f: {"value": v[, "boost": b]}}}`
   * with nothing else in it.
   */
  function ReadTermQuery(j: Json): Option<TermQuery> {
    if j.JObject? && |j.members| == 1 && j.members[0].0 == "term"
       && j.members[0].1.JObject? && |j.members[0].1.members| == 1
       && j.members[0].1.members[0].1.JObject?
    then
      var (field, body) := j.members[0].1.members[0];
      match ReadTermBody(body.members)
      case Some((v, b)) => Some(TermQuery(field, v, b))
      case None => None
    else None
  }

  /** The builder's output reads back as its field, its serialised value and its boost. */
  lemma ReadMakeTermDsl(field: string, term: Term)
    ensures ReadTermQuery(MakeTermDsl(field, term))
            == Some(TermQuery(field, SerializeValue(term.value), term.boost))
  {
  }

  /**
   * A document `ReadTermQuery` accepts is rebuilt, from what it read, by any
   * value with the serialisation read.
   */
  lemma MakeTermDslOfRead(j: Json, q: TermQuery, v: TermValue)
    requires ReadTermQuery(j) == Some(q) && SerializeValue(v) == q.value
    ensures MakeTermDsl(q.field, Term(v, q.boost)) == j
  {
    var outer := j.members[0].1;
    var inner := outer.members[0].1;
    if q.boost.Some? {
      assert inner.members == [("value", q.value), ("boost", JFloat32(q.boost.value))];
    } else {
      assert inner.members == [("value", q.value)];
    }
    assert inner == SerializeTerm(Term(v, q.boost));
    assert outer.members == [(q.field, inner)];
    assert j.members == [("term", outer)];
  }

  /** Every document `ReadTermQuery` accepts is the builder's output for some term. */
  lemma ReadOnlyBuilt(j: Json, q: TermQuery)
    requires ReadTermQuery(j) == Some(q)
    ensures IsTermValueJson(q.value)
    ensures MakeTermDsl(q.field, Term(Preimage(q.value), q.boost)) == j
  {
    MakeTermDslOfRead(j, q, Preimage(q.value));
  }

  /** A document whose value is `null`, which no term serialises to, is refused. */
  lemma ReadRefusesNull(field: string)
    ensures ReadTermQuery(JObject([("term", JObject([(field, JObject([("value", JNull)]))]))])) == None
  {
  }

  /**
   * The builder adds nothing and loses nothing: two terms give the same document
   * exactly when they share the field, the boost and the serialised value.
   */
  lemma MakeTermDslInjective(f1: string, t1: Term, f2: string, t2: Term)
    ensures MakeTermDsl(f1, t1) == MakeTermDsl(f2, t2)
            <==> f1 == f2 && t1.boost == t2.boost && SerializeValue(t1.value) == SerializeValue(t2.value)
  {
    if MakeTermDsl(f1, t1) == MakeTermDsl(f2, t2) {
      ReadMakeTermDsl(f1, t1);
      ReadMakeTermDsl(f2, t2);
    }
    if t1.boost == t2.boost && SerializeValue(t1.value) == SerializeValue(t2.value) {
      assert SerializeTerm(t1) == SerializeTerm(t2);
    }
  }

  // The twelve entry points (`term_str` ... `term_timestamp_with_timezone`).

  function TermStr(field: string, value: string, boost: Option<F32>): (q: Json)
    ensures ReadTermQuery(q) == Some(TermQuery(field, JString(value), boost))
  {
    ReadMakeTermDsl(field, Term(Text(value), boost));
    MakeTermDsl(field, Term(Text(value), boost))
  }

  function TermBool(field: string, value: bool, boost: Option<F32>): (q: Json)
    ensures ReadTermQuery(q) == Some(TermQuery(field, JBool(value), boost))
  {
    ReadMakeTermDsl(field, Term(Bool(value), boost));
    MakeTermDsl(field, Term(Bool(value), boost))
  }

  function TermI16(field: string, value: Int16, boost: Option<F32>): (q: Json)
    ensures ReadTermQuery(q) == Some(TermQuery(field, JInt(value as int), boost))
  {
    ReadMakeTermDsl(field, Term(SmallInt(value), boost));
    MakeTermDsl(field, Term(SmallInt(value), boost))
  }

  function TermI32(field: string, value: Int32, boost: Option<F32>): (q: Json)
    ensures ReadTermQuery(q) == Some(TermQuery(field, JInt(value as int), boost))
  {
    ReadMakeTermDsl(field, Term(Integer(value), boost));
    MakeTermDsl(field, Term(Integer(value), boost))
  }

  function TermI64(field: string, value: Int64, boost: Option<F32>): (q: Json)
    ensures ReadTermQuery(q) == Some(TermQuery(field, JInt(value as int), boost))
  {
    ReadMakeTermDsl(field, Term(BigInt(value), boost));
    MakeTermDsl(field, Term(BigInt(value), boost))
  }

  function TermF32(field: string, value: F32, boost: Option<F32>): (q: Json)
    ensures ReadTermQuery(q) == Some(TermQuery(field, JFloat32(value), boost))
  {
    ReadMakeTermDsl(field, Term(Real(value), boost));
    MakeTermDsl(field, Term(Real(value), boost))
  }

  function TermF64(field: string, value: F64, boost: Option<F32>): (q: Json)
    ensures ReadTermQuery(q) == Some(TermQuery(field, JFloat64(value), boost))
  {
    ReadMakeTermDsl(field, Term(Double(value), boost));
    MakeTermDsl(field, Term(Double(value), boost))
  }

  function TermTime(field: string, value: Time, boost: Option<F32>): (q: Json)
    ensures ReadTermQuery(q) == Some(TermQuery(field, JString(FormatTime(value)), boost))
  {
    ReadMakeTermDsl(field, Term(TimeOfDay(value), boost));
    MakeTermDsl(field, Term(TimeOfDay(value), boost))
  }

  function TermDate(field: string, value: Date, boost: Option<F32>): (q: Json)
    ensures ReadTermQuery(q) == Some(TermQuery(field, JString(FormatDate(value)), boost))
  {
    ReadMakeTermDsl(field, Term(Day(value), boost));
    MakeTermDsl(field, Term(Day(value), boost))
  }

  function TermTimeWithTimeZone(field: string, value: Time, boost: Option<F32>): (q: Json)
    ensures ReadTermQuery(q) == Some(TermQuery(field, JString(FormatTime(value)), boost))
  {
    ReadMakeTermDsl(field, Term(TimeTz(value), boost));
    MakeTermDsl(field, Term(TimeTz(value), boost))
  }

  function TermTimestamp(field: string, value: Timestamp, boost: Option<F32>): (q: Json)
    ensures ReadTermQuery(q) == Some(TermQuery(field, JString(FormatTimestamp(value)), boost))
  {
    ReadMakeTermDsl(field, Term(Stamp(value), boost));
    MakeTermDsl(field, Term(Stamp(value), boost))
  }

  function TermTimestampWithTimeZone(field: string, value: Timestamp, boost: Option<F32>): (q: Json)
    ensures ReadTermQuery(q) == Some(TermQuery(field, JString(FormatTimestamp(value)), boost))
  {
    ReadMakeTermDsl(field, Term(StampTz(value), boost));
    MakeTermDsl(field, Term(StampTz(value), boost))
  }

  /**
   * The output does not depend on which entry point produced it beyond the
   * serialised value: a time of day and its time-zone variant give the same
   * document, and so do a timestamp and its time-zone variant.
   */
  lemma TimeZoneVariantAgrees(field: string, t: Time, boost: Option<F32>)
    ensures TermTimeWithTimeZone(field, t, boost) == TermTime(field, t, boost)
  {
    assert SerializeValue(TimeTz(t)) == SerializeValue(TimeOfDay(t));
    assert SerializeTerm(Term(TimeTz(t), boost)) == SerializeTerm(Term(TimeOfDay(t), boost));
  }

  lemma TimestampZoneVariantAgrees(field: string, ts: Timestamp, boost: Option<F32>)
    ensures TermTimestampWithTimeZone(field, ts, boost) == TermTimestamp(field, ts, boost)
  {
    assert SerializeValue(StampTz(ts)) == SerializeValue(Stamp(ts));
    assert SerializeTerm(Term(StampTz(ts), boost)) == SerializeTerm(Term(Stamp(ts), boost));
  }
}

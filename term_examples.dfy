/**
 * The cases of term.rs's test module, each stated as the exact document the
 * entry point must return. The SQL literals the tests cast are written here as
 * the values the casts produce; the zone-bearing literals are cast to `time`
 * and `timestamp`, which keep the clock reading and drop the zone.
 */
module TermExamples {
  import opened Wrappers
  import opened Json
  import opened Temporal
  import opened TermDsl

  const Boost42 := F32(0x4228_0000)

  const InfinityF32 := F32(0x7F80_0000)
  const NegInfinityF32 := F32(0xFF80_0000)
  const NanF32 := F32(0x7FC0_0000)
  const InfinityF64 := F64(0x7FF0_0000_0000_0000)
  const NegInfinityF64 := F64(0xFFF0_0000_0000_0000)
  const NanF64 := F64(0x7FF8_0000_0000_0000)

  /** The expected side of a test: `{"term": {field: {members}}}` written out. */
  function Doc(field: string, members: seq<(string, Json)>): Json {
    JObject([("term", JObject([(field, JObject(members))]))])
  }

  /** A time literal with a UTC offset, as `'13:15:35 +0900'`. */
  datatype ZonedTime = ZonedTime(clock: Time, offsetMinutes: int)

  /** A timestamp literal with a UTC offset, as `'12-12-12 13:15:35 -0700'`. */
  datatype ZonedTimestamp = ZonedTimestamp(clock: Timestamp, offsetMinutes: int)

  /** `CAST(... AS time)` of a zoned literal: the zone is ignored. */
  function CastAsTime(lit: ZonedTime): Time {
    lit.clock
  }

  /** `CAST(... AS timestamp)` of a zoned literal: the zone is ignored. */
  function CastAsTimestamp(lit: ZonedTimestamp): Timestamp {
    lit.clock
  }

  /** Two literals with the same clock reading cast to the same time, whatever their offsets. */
  lemma CastAsTimeIgnoresOffset(clock: Time, o1: int, o2: int)
    ensures CastAsTime(ZonedTime(clock, o1)) == CastAsTime(ZonedTime(clock, o2)) == clock
  {
  }

  /** Two literals with the same clock reading cast to the same timestamp, whatever their offsets. */
  lemma CastAsTimestampIgnoresOffset(clock: Timestamp, o1: int, o2: int)
    ensures CastAsTimestamp(ZonedTimestamp(clock, o1)) == CastAsTimestamp(ZonedTimestamp(clock, o2)) == clock
  {
  }

  lemma TestTermStr()
    ensures TermStr("fieldname", "test value", Some(Boost42))
            == Doc("fieldname", [("value", JString("test value")), ("boost", JFloat32(Boost42))])
  {}

  lemma TestTermStrWithDefaultBoost()
    ensures TermStr("fieldname", "test value", None)
            == Doc("fieldname", [("value", JString("test value"))])
  {}

  lemma TestTermBoolTrue()
    ensures TermBool("fieldname", true, Some(Boost42))
            == Doc("fieldname", [("value", JBool(true)), ("boost", JFloat32(Boost42))])
  {}

  lemma TestTermBoolFalse()
    ensures TermBool("fieldname", false, Some(Boost42))
            == Doc("fieldname", [("value", JBool(false)), ("boost", JFloat32(Boost42))])
  {}

  lemma TestTermBoolTrueWithDefaultBoost()
    ensures TermBool("fieldname", true, None)
            == Doc("fieldname", [("value", JBool(true))])
  {}

  lemma TestTermBoolFalseWithDefaultBoost()
    ensures TermBool("fieldname", false, None)
            == Doc("fieldname", [("value", JBool(false))])
  {}

  // The three i16 cases pass bare SQL integer literals, which Postgres resolves
  // to the 32-bit overload; they are stated here over `TermI16`, after the tests'
  // names. The document is the same whichever integer entry point runs.

  lemma TestTermPositiveI16()
    ensures TermI16("fieldname", 32767, Some(Boost42))
            == Doc("fieldname", [("value", JInt(32767)), ("boost", JFloat32(Boost42))])
  {}

  lemma TestTermNegativeI16()
    ensures TermI16("fieldname", -32700, Some(Boost42))
            == Doc("fieldname", [("value", JInt(-32700)), ("boost", JFloat32(Boost42))])
  {}

  lemma TestTermI16WithDefaultBoost()
    ensures TermI16("fieldname", 32767, None)
            == Doc("fieldname", [("value", JInt(32767))])
  {}

  lemma TestTermPositiveI32()
    ensures TermI32("fieldname", 2147483647, Some(Boost42))
            == Doc("fieldname", [("value", JInt(2147483647)), ("boost", JFloat32(Boost42))])
  {}

  lemma TestTermNegativeI32()
    ensures TermI32("fieldname", -2147483648, Some(Boost42))
            == Doc("fieldname", [("value", JInt(-2147483648)), ("boost", JFloat32(Boost42))])
  {}

  lemma TestTermI32WithDefaultBoost()
    ensures TermI32("fieldname", 2147483647, None)
            == Doc("fieldname", [("value", JInt(2147483647))])
  {}

  lemma TestTermPositiveI64()
    ensures TermI64("fieldname", 214740083647, Some(Boost42))
            == Doc("fieldname", [("value", JInt(214740083647)), ("boost", JFloat32(Boost42))])
  {}

  lemma TestTermNegativeI64()
    ensures TermI64("fieldname", -214740083647, Some(Boost42))
            == Doc("fieldname", [("value", JInt(-214740083647)), ("boost", JFloat32(Boost42))])
  {}

  lemma TestTermI64WithDefaultBoost()
    ensures TermI64("fieldname", 9223372036854775000, None)
            == Doc("fieldname", [("value", JInt(9223372036854775000))])
  {}

  // The first three f32 cases pass bare SQL numeric literals, which Postgres
  // resolves to the double-precision overload, and expect an f64 value. They are
  // stated here over `TermF32` and f32 bit patterns, after the tests' names, not
  // after the overload that runs; `TestTermPositiveF64` and its neighbours state
  // the f64 documents.

  lemma TestTermPositiveF32()
    ensures TermF32("fieldname", F32(0x4093_3333), Some(Boost42))
            == Doc("fieldname", [("value", JFloat32(F32(0x4093_3333))), ("boost", JFloat32(Boost42))])
  {}

  lemma TestTermNegativeF32()
    ensures TermF32("fieldname", F32(0xC099_999A), Some(Boost42))
            == Doc("fieldname", [("value", JFloat32(F32(0xC099_999A))), ("boost", JFloat32(Boost42))])
  {}

  lemma TestTermF32WithDefaultBoost()
    ensures TermF32("fieldname", F32(0x40B3_3333), None)
            == Doc("fieldname", [("value", JFloat32(F32(0x40B3_3333)))])
  {}

  lemma TestTermF32WithPositiveInfinity()
    ensures TermF32("fieldname", InfinityF32, None)
            == Doc("fieldname", [("value", JFloat32(InfinityF32))])
  {}

  lemma TestTermF32WithNegativeInfinity()
    ensures TermF32("fieldname", NegInfinityF32, None)
            == Doc("fieldname", [("value", JFloat32(NegInfinityF32))])
  {}

  lemma TestTermF32WithNan()
    ensures TermF32("fieldname", NanF32, None)
            == Doc("fieldname", [("value", JFloat32(NanF32))])
  {}

  lemma TestTermPositiveF64()
    ensures TermF64("fieldname", F64(0x4016_6666_6666_6666), Some(Boost42))
            == Doc("fieldname", [("value", JFloat64(F64(0x4016_6666_6666_6666))), ("boost", JFloat32(Boost42))])
  {}

  lemma TestTermNegativeF64()
    ensures TermF64("fieldname", F64(0xC016_6666_6666_6666), Some(Boost42))
            == Doc("fieldname", [("value", JFloat64(F64(0xC016_6666_6666_6666))), ("boost", JFloat32(Boost42))])
  {}

  lemma TestTermF64WithDefaultBoost()
    ensures TermF64("fieldname", F64(0x4016_6666_6666_6666), None)
            == Doc("fieldname", [("value", JFloat64(F64(0x4016_6666_6666_6666)))])
  {}

  lemma TestTermF64WithInfinity()
    ensures TermF64("fieldname", InfinityF64, None)
            == Doc("fieldname", [("value", JFloat64(InfinityF64))])
  {}

  lemma TestTermF64WithNegativeInfinity()
    ensures TermF64("fieldname", NegInfinityF64, None)
            == Doc("fieldname", [("value", JFloat64(NegInfinityF64))])
  {}

  lemma TestTermF64WithNan()
    ensures TermF64("fieldname", NanF64, None)
            == Doc("fieldname", [("value", JFloat64(NanF64))])
  {}

  lemma TestTermDate()
    ensures TermDate("fieldname", Date(2020, 1, 1), None)
            == Doc("fieldname", [("value", JString("2020-01-01"))])
  {
    FormatDate20200101();
  }

  lemma TestTermDateWithBoost()
    ensures TermDate("fieldname", Date(2020, 1, 1), Some(Boost42))
            == Doc("fieldname", [("value", JString("2020-01-01")), ("boost", JFloat32(Boost42))])
  {
    FormatDate20200101();
  }

  lemma TestTermTime()
    ensures TermTime("fieldname", Time(13, 15, 35, 0), None)
            == Doc("fieldname", [("value", JString("13:15:35Z"))])
  {
    FormatTime131535();
  }

  lemma TestTermTimeWithBoost()
    ensures TermTime("fieldname", Time(12, 59, 35, 0), Some(Boost42))
            == Doc("fieldname", [("value", JString("12:59:35Z")), ("boost", JFloat32(Boost42))])
  {
    FormatTime125935();
  }

  lemma TestTermTimeWithMillisecondsAndWithBoost()
    ensures TermTime("fieldname", Time(12, 59, 35, 567), Some(Boost42))
            == Doc("fieldname", [("value", JString("12:59:35.567Z")), ("boost", JFloat32(Boost42))])
  {
    FormatTime125935567();
  }

  lemma TestTermTimeWithTimezone()
    ensures TermTime("fieldname", CastAsTime(ZonedTime(Time(13, 15, 35, 0), 9 * 60)), None)
            == Doc("fieldname", [("value", JString("13:15:35Z"))])
  {
    assert CastAsTime(ZonedTime(Time(13, 15, 35, 0), 9 * 60)) == Time(13, 15, 35, 0);
    TestTermTime();
  }

  lemma TestTermTimeWithBoostAndWithTimezone()
    ensures TermTime("fieldname", CastAsTime(ZonedTime(Time(12, 59, 35, 0), 8 * 60 + 30)), Some(Boost42))
            == Doc("fieldname", [("value", JString("12:59:35Z")), ("boost", JFloat32(Boost42))])
  {
    assert CastAsTime(ZonedTime(Time(12, 59, 35, 0), 8 * 60 + 30)) == Time(12, 59, 35, 0);
    TestTermTimeWithBoost();
  }

  lemma TestTermTimeWithMillisecondsWithTimezoneAndWithBoost()
    ensures TermTime("fieldname", CastAsTime(ZonedTime(Time(12, 59, 35, 567), -12 * 60)), Some(Boost42))
            == Doc("fieldname", [("value", JString("12:59:35.567Z")), ("boost", JFloat32(Boost42))])
  {
    assert CastAsTime(ZonedTime(Time(12, 59, 35, 567), -12 * 60)) == Time(12, 59, 35, 567);
    TestTermTimeWithMillisecondsAndWithBoost();
  }

  lemma TestTermTimestamp()
    ensures TermTimestamp("fieldname", Timestamp(Date(2012, 12, 12), Time(13, 15, 35, 0)), None)
            == Doc("fieldname", [("value", JString("2012-12-12T13:15:35Z"))])
  {
    FormatTimestamp20121212131535();
  }

  lemma TestTermTimestampWithBoost()
    ensures TermTimestamp("fieldname", Timestamp(Date(2013, 4, 10), Time(12, 59, 35, 0)), Some(Boost42))
            == Doc("fieldname", [("value", JString("2013-04-10T12:59:35Z")), ("boost", JFloat32(Boost42))])
  {
    FormatTimestamp20130410125935();
  }

  lemma TestTermTimestampWithMillisecondsAndWithBoost()
    ensures TermTimestamp("fieldname", Timestamp(Date(2019, 9, 15), Time(12, 59, 35, 567)), Some(Boost42))
            == Doc("fieldname", [("value", JString("2019-09-15T12:59:35.567Z")), ("boost", JFloat32(Boost42))])
  {
    FormatTimestamp20190915125935567();
  }

  lemma TestTermTimestampWithTimezone()
    ensures TermTimestamp("fieldname", CastAsTimestamp(ZonedTimestamp(Timestamp(Date(2012, 12, 12), Time(13, 15, 35, 0)), -7 * 60)), None)
            == Doc("fieldname", [("value", JString("2012-12-12T13:15:35Z"))])
  {
    assert CastAsTimestamp(ZonedTimestamp(Timestamp(Date(2012, 12, 12), Time(13, 15, 35, 0)), -7 * 60)) == Timestamp(Date(2012, 12, 12), Time(13, 15, 35, 0));
    TestTermTimestamp();
  }

  lemma TestTermTimestampWithTimezoneWithBoost()
    ensures TermTimestamp("fieldname", CastAsTimestamp(ZonedTimestamp(Timestamp(Date(2013, 4, 10), Time(12, 59, 35, 0)), -7 * 60)), Some(Boost42))
            == Doc("fieldname", [("value", JString("2013-04-10T12:59:35Z")), ("boost", JFloat32(Boost42))])
  {
    assert CastAsTimestamp(ZonedTimestamp(Timestamp(Date(2013, 4, 10), Time(12, 59, 35, 0)), -7 * 60)) == Timestamp(Date(2013, 4, 10), Time(12, 59, 35, 0));
    TestTermTimestampWithBoost();
  }

  lemma TestTermTimestampWithTimezoneWithMillisecondsAndWithBoost()
    ensures TermTimestamp("fieldname", CastAsTimestamp(ZonedTimestamp(Timestamp(Date(2019, 9, 15), Time(12, 59, 35, 567)), -7 * 60)), Some(Boost42))
            == Doc("fieldname", [("value", JString("2019-09-15T12:59:35.567Z")), ("boost", JFloat32(Boost42))])
  {
    assert CastAsTimestamp(ZonedTimestamp(Timestamp(Date(2019, 9, 15), Time(12, 59, 35, 567)), -7 * 60)) == Timestamp(Date(2019, 9, 15), Time(12, 59, 35, 567));
    TestTermTimestampWithMillisecondsAndWithBoost();
  }

  lemma CastDropsZone(field: string, t: ZonedTime, ts: ZonedTimestamp, boost: Option<F32>)
    ensures ReadTermQuery(TermTime(field, CastAsTime(t), boost))
            == Some(TermQuery(field, JString(FormatTime(t.clock)), boost))
    ensures ReadTermQuery(TermTimestamp(field, CastAsTimestamp(ts), boost))
            == Some(TermQuery(field, JString(FormatTimestamp(ts.clock)), boost))
  {
  }
}

/**
 * The timestamp codec of `XmlTimeAdjuster` (src/xml_handler.py): XMLTV times
 * `YYYYMMDDHHMMSS [+zone]` are read up to the first space (the zone is
 * dropped), shifted by a signed number of seconds, and written back with a
 * fixed ` +0000` zone.
 */
module Timestamps {
  import opened Wrappers
  import opened Text
  import opened Calendar

  /** The zone every formatted timestamp carries. */
  const ZONE_SUFFIX := " +0000"

  /** The text `parse_datetime` reads: everything before the first space. */
  function DatePart(text: string): string {
    BeforeFirst(text, ' ')
  }

  /** The six fields of a 14-digit `YYYYMMDDHHMMSS` string. */
  function Fields(p: string): DateTime
    requires |p| == 14 && AllDigits(p)
  {
    DateTime(DigitsValue(p[..4]), DigitsValue(p[4..6]), DigitsValue(p[6..8]),
             DigitsValue(p[8..10]), DigitsValue(p[10..12]), DigitsValue(p[12..]))
  }

  /**
   * `parse_datetime`: `strptime(part, "%Y%m%d%H%M%S")` on the text before the
   * first space; `None` when that text is not 14 digits naming a valid date-time.
   */
  function ParseDateTime(text: string): (r: Option<DateTime>)
    ensures r.Some? ==> ValidDateTime(r.value)
  {
    var p := DatePart(text);
    if |p| == 14 && AllDigits(p) && ValidDateTime(Fields(p)) then Some(Fields(p)) else None
  }

  /** `format_datetime`: `strftime("%Y%m%d%H%M%S +0000")`, always 14 digits then the zone. */
  function FormatDateTime(dt: DateTime): (r: string)
    requires ValidDateTime(dt)
    ensures |r| == 20 && AllDigits(r[..14]) && r[14..] == ZONE_SUFFIX
  {
    PadDigits(dt.year, 4) + PadDigits(dt.month, 2) + PadDigits(dt.day, 2)
    + PadDigits(dt.hour, 2) + PadDigits(dt.minute, 2) + PadDigits(dt.second, 2) + ZONE_SUFFIX
  }

  /** The 14 digits of a formatted date-time decode to its fields. */
  lemma FieldsOfFormat(dt: DateTime)
    requires ValidDateTime(dt)
    ensures var f := FormatDateTime(dt); Fields(f[..14]) == dt
  {
    var f := FormatDateTime(dt);
    var p := f[..14];
    assert p[..4] == PadDigits(dt.year, 4);
    assert p[4..6] == PadDigits(dt.month, 2);
    assert p[6..8] == PadDigits(dt.day, 2);
    assert p[8..10] == PadDigits(dt.hour, 2);
    assert p[10..12] == PadDigits(dt.minute, 2);
    assert p[12..] == PadDigits(dt.second, 2);
    PadDigitsValue(dt.year, 4);
    PadDigitsValue(dt.month, 2);
    PadDigitsValue(dt.day, 2);
    PadDigitsValue(dt.hour, 2);
    PadDigitsValue(dt.minute, 2);
    PadDigitsValue(dt.second, 2);
  }

  /** 14 digits are the formatted rendering of their own fields. */
  lemma FormatOfFields(p: string)
    requires |p| == 14 && AllDigits(p) && ValidDateTime(Fields(p))
    ensures FormatDateTime(Fields(p)) == p + ZONE_SUFFIX
  {
    var dt := Fields(p);
    assert p[12..] == p[12..14];
    PadField(p, 0, 4, dt.year);
    PadField(p, 4, 6, dt.month);
    PadField(p, 6, 8, dt.day);
    PadField(p, 8, 10, dt.hour);
    PadField(p, 10, 12, dt.minute);
    PadField(p, 12, 14, dt.second);
    SplitFields(p);
  }

  /** A 14-character string is its six field slices put back together. */
  lemma SplitFields(p: string)
    requires |p| == 14
    ensures p == p[0..4] + p[4..6] + p[6..8] + p[8..10] + p[10..12] + p[12..14]
  {
  }

  /** One field of a digit string, read and padded back to its width, is unchanged. */
  lemma PadField(p: string, lo: nat, hi: nat, v: nat)
    requires lo <= hi <= |p| && AllDigits(p) && v == DigitsValue(p[lo..hi])
    ensures PadDigits(v, hi - lo) == p[lo..hi]
  {
    DigitsValuePad(p[lo..hi]);
  }

  /** Formatting and then parsing gives the date-time back. */
  lemma ParseFormat(dt: DateTime)
    requires ValidDateTime(dt)
    ensures ParseDateTime(FormatDateTime(dt)) == Some(dt)
  {
    var f := FormatDateTime(dt);
    var p := f[..14];
    assert f == p + [' '] + ZONE_SUFFIX[1..];
    SpaceFree(p);
    BeforeFirstSep(p, ZONE_SUFFIX[1..], ' ');
    assert DatePart(f) == p;
    FieldsOfFormat(dt);
  }

  lemma SpaceFree(p: string)
    requires AllDigits(p)
    ensures ' ' !in p
  {
  }

  /**
   * What `parse_datetime` accepts, stated without its body: it yields `dt`
   * exactly when `dt` is a valid date-time whose 14-digit rendering is the
   * text before the first space. Whatever zone follows is discarded.
   */
  lemma ParseDateTimeExactly(text: string, dt: DateTime)
    ensures ParseDateTime(text) == Some(dt)
        <==> ValidDateTime(dt) && FormatDateTime(dt) == DatePart(text) + ZONE_SUFFIX
  {
    var p := DatePart(text);
    if ParseDateTime(text) == Some(dt) {
      FormatOfFields(p);
    }
    if ValidDateTime(dt) && FormatDateTime(dt) == p + ZONE_SUFFIX {
      assert FormatDateTime(dt)[..14] == p;
      FieldsOfFormat(dt);
    }
  }

  /** The instant a timestamp text names, in seconds since 0001-01-01 00:00:00. */
  function InstantOf(text: string): nat
    requires ParseDateTime(text).Some?
  {
    ToSeconds(ParseDateTime(text).value)
  }

  /** Adding `timedelta(seconds=offset)` stays within years 1..9999. */
  predicate InRange(t: int) {
    0 <= t < SECOND_COUNT
  }

  /**
   * `_adjust_time`: the timestamp shifted by `offset` seconds and re-emitted
   * with zone `+0000`; `None` when the text does not parse or the shift
   * leaves years 1..9999 (Python's `OverflowError`, caught and logged).
   */
  function AdjustTime(text: string, offset: int): (r: Option<string>)
    ensures ParseDateTime(text).None? ==> r.None?
    ensures ParseDateTime(text).Some? ==> (r.Some? <==> InRange(InstantOf(text) + offset))
    ensures r.Some? ==> (&& ParseDateTime(r.value).Some?
                         && InstantOf(r.value) == InstantOf(text) + offset
                         && r.value == DatePart(r.value) + ZONE_SUFFIX)
  {
    match ParseDateTime(text)
    case None => None
    case Some(dt) =>
      var t := ToSeconds(dt) + offset;
      if InRange(t) then
        var out := FormatDateTime(FromSeconds(t));
        ParseFormat(FromSeconds(t));
        ParseDateTimeExactly(out, FromSeconds(t));
        Some(out)
      else None
  }

  /** A timestamp in `+0000` form is determined by the instant it names. */
  lemma CanonicalUnique(u: string, v: string)
    requires ParseDateTime(u).Some? && u == DatePart(u) + ZONE_SUFFIX
    requires ParseDateTime(v).Some? && v == DatePart(v) + ZONE_SUFFIX
    requires InstantOf(u) == InstantOf(v)
    ensures u == v
  {
    var du, dv := ParseDateTime(u).value, ParseDateTime(v).value;
    ToSecondsInjective(du, dv);
    ParseDateTimeExactly(u, du);
    ParseDateTimeExactly(v, dv);
  }

  /** Shifting twice is shifting once by the sum. */
  lemma AdjustTimeCompose(text: string, a: int, b: int, sum: int)
    requires AdjustTime(text, a).Some? && sum == a + b
    ensures AdjustTime(AdjustTime(text, a).value, b) == AdjustTime(text, sum)
  {
    var r := AdjustTime(text, a).value;
    var x, y := AdjustTime(r, b), AdjustTime(text, sum);
    assert x.Some? <==> y.Some?;
    if x.Some? {
      CanonicalUnique(x.value, y.value);
    }
  }

  /** A parseable timestamp shifted by zero keeps its digits and gets zone `+0000`. */
  lemma AdjustTimeZero(text: string)
    requires ParseDateTime(text).Some?
    ensures AdjustTime(text, 0) == Some(DatePart(text) + ZONE_SUFFIX)
  {
    var dt := ParseDateTime(text).value;
    FromToSeconds(dt);
    ParseDateTimeExactly(text, dt);
  }

  /** Shifting by `offset` and then by `-offset` returns to the original instant. */
  lemma AdjustTimeInverse(text: string, offset: int, back: int)
    requires AdjustTime(text, offset).Some? && back == -offset
    ensures AdjustTime(AdjustTime(text, offset).value, back) == Some(DatePart(text) + ZONE_SUFFIX)
  {
    AdjustTimeCompose(text, offset, back, 0);
    AdjustTimeZero(text);
  }

  /** The shifted instant survives a trip through its text form (parse . format . shift). */
  lemma ShiftSurvivesText(text: string, offset: int)
    requires ParseDateTime(text).Some? && InRange(InstantOf(text) + offset)
    ensures ParseDateTime(FormatDateTime(FromSeconds(InstantOf(text) + offset)))
         == Some(FromSeconds(InstantOf(text) + offset))
  {
    ParseFormat(FromSeconds(InstantOf(text) + offset));
  }
}

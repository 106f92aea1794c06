/** The Washington breakthrough bulletin: the fields of one report, derived from the
    pattern captures found in the bulletin's text. Both Washington modules read
    bulletins with this parser; each supplies its own date conversion. */
module Bulletin {
  import opened Wrappers
  import opened Text

  newtype byte = x: int | 0 <= x < 256

  type Bytes = seq<byte>

  /** What the bulletin's patterns capture in the text (`None` when a pattern does
      not match): the reporting period's two dates, the publication date, the case
      count (digits and commas), the hospitalized percentage, and either an explicit
      death count or a death percentage. */
  datatype Captures = Captures(dateRange: Option<(string, string)>, reportDate: Option<string>,
                               caseCount: Option<string>, hospitalizedPct: Option<string>,
                               deathCount: Option<string>, deathPct: Option<string>)

  /** The outside world as the parser sees it: page text extraction, the pattern
      matcher, the date-text-to-epoch conversion, and the content digest. */
  datatype Reader = Reader(pages: Bytes -> seq<string>, scan: string -> Captures,
                           toEpoch: string -> Option<int>, digest: Bytes -> string)

  /** One report's derived record; `fingerprint` is the digest of the bulletin bytes. */
  datatype Report = Report(reportDate: int, startDate: int, endDate: int,
                           caseCount: int, deathCount: int, fingerprint: string)

  /** Names under which a missing pattern is reported. */
  const DateRangePattern: string := "date range"
  const ReportDatePattern: string := "report date"
  const CaseCountPattern: string := "case count"
  const HospitalizedPctPattern: string := "hospitalized percentage"
  const DeathPctPattern: string := "death percentage"

  /** The pages' text joined in order. */
  function Concat(pages: seq<string>): (r: string)
    ensures |pages| > 0 ==> r == pages[0] + Concat(pages[1..])
    decreases |pages|
  {
    if |pages| == 0 then "" else pages[0] + Concat(pages[1..])
  }

  /** The text the patterns run over: all pages, with line breaks removed. */
  function PlainText(reader: Reader, pdf: Bytes): (r: string)
    ensures '\n' !in r
  {
    Without(Concat(reader.pages(pdf)), '\n')
  }

  /** `int(x)` of a capture. */
  function IntOf(raw: string): (r: Result<int>)
    ensures r.Ok? <==> ParseInt(raw).Some?
    ensures r.Ok? ==> r.value == ParseInt(raw).value
    ensures r.Err? ==> r.fault == ValueError(raw)
  {
    OrFail(ParseInt(raw), ValueError(raw))
  }

  /** A date capture converted to epoch seconds. */
  function DateOf(reader: Reader, raw: string): (r: Result<int>)
    ensures r.Ok? <==> reader.toEpoch(raw).Some?
    ensures r.Ok? ==> r.value == reader.toEpoch(raw).value
  {
    OrFail(reader.toEpoch(raw), ValueError(raw))
  }

  /** `floor(case_count * pct / 100)`. */
  function ShareOf(caseCount: int, pct: real): int {
    ((caseCount as real) * pct / 100.0).Floor
  }

  /** The explicit death count when its pattern matched, otherwise the death
      percentage applied to the case count. */
  function DeathCount(caseCount: int, caps: Captures): (r: Result<int>)
    ensures caps.deathCount.Some? ==> r == IntOf(caps.deathCount.value)
    ensures caps.deathCount.None? && caps.deathPct.None? ==> r == Err(PatternMissing(DeathPctPattern))
    ensures caps.deathCount.None? && caps.deathPct.Some? ==>
      (r.Ok? <==> ParseDecimal(caps.deathPct.value).Some?)
      && (r.Ok? ==> r.value == ShareOf(caseCount, ParseDecimal(caps.deathPct.value).value))
  {
    if caps.deathCount.Some? then IntOf(caps.deathCount.value)
    else
      var pctRaw :- OrFail(caps.deathPct, PatternMissing(DeathPctPattern));
      var pct :- OrFail(ParseDecimal(pctRaw), ValueError(pctRaw));
      Ok(ShareOf(caseCount, pct))
  }

  /** The report derived from one bulletin, failing at the first pattern that does
      not match or capture that does not convert, in the order the fields are read. */
  function Parse(reader: Reader, pdf: Bytes): Result<Report> {
    var caps := reader.scan(PlainText(reader, pdf));
    var range :- OrFail(caps.dateRange, PatternMissing(DateRangePattern));
    var reportRaw :- OrFail(caps.reportDate, PatternMissing(ReportDatePattern));
    var reportDate :- DateOf(reader, reportRaw);
    var startDate :- DateOf(reader, range.0);
    var endDate :- DateOf(reader, range.1);
    var caseRaw :- OrFail(caps.caseCount, PatternMissing(CaseCountPattern));
    var caseCount :- IntOf(Without(caseRaw, ','));
    // The hospitalized percentage must be present and whole, though nothing uses it.
    var hospitalizedRaw :- OrFail(caps.hospitalizedPct, PatternMissing(HospitalizedPctPattern));
    var _ :- IntOf(hospitalizedRaw);
    var deathCount :- DeathCount(caseCount, caps);
    Ok(Report(reportDate, startDate, endDate, caseCount, deathCount, reader.digest(pdf)))
  }

  /** Every field of a parsed report traced back to its capture: the dates through
      the date conversion, the case count with its thousands separators removed, the
      death count explicit or derived, and the fingerprint of the whole bulletin. */
  lemma ParseFields(reader: Reader, pdf: Bytes)
    requires Parse(reader, pdf).Ok?
    ensures var caps := reader.scan(PlainText(reader, pdf));
            var r := Parse(reader, pdf).value;
      && caps.dateRange.Some? && caps.reportDate.Some? && caps.caseCount.Some? && caps.hospitalizedPct.Some?
      && Some(r.reportDate) == reader.toEpoch(caps.reportDate.value)
      && Some(r.startDate) == reader.toEpoch(caps.dateRange.value.0)
      && Some(r.endDate) == reader.toEpoch(caps.dateRange.value.1)
      && Some(r.caseCount) == ParseInt(Without(caps.caseCount.value, ','))
      && ParseInt(caps.hospitalizedPct.value).Some?
      && (caps.deathCount.Some? ==> Some(r.deathCount) == ParseInt(caps.deathCount.value))
      && (caps.deathCount.None? ==>
            caps.deathPct.Some? && ParseDecimal(caps.deathPct.value).Some?
            && r.deathCount == ShareOf(r.caseCount, ParseDecimal(caps.deathPct.value).value))
      && r.fingerprint == reader.digest(pdf)
  {
  }

  /** Parsing sees the date conversion only through its values: conversions that
      agree everywhere give the same report or the same failure. */
  lemma ParseAgrees(reader: Reader, toEpoch: string -> Option<int>, pdf: Bytes)
    requires forall t :: toEpoch(t) == reader.toEpoch(t)
    ensures Parse(reader.(toEpoch := toEpoch), pdf) == Parse(reader, pdf)
  {
    var other := reader.(toEpoch := toEpoch);
    assert PlainText(other, pdf) == PlainText(reader, pdf);
    var caps := reader.scan(PlainText(reader, pdf));
    if caps.dateRange.Some? && caps.reportDate.Some? {
      assert DateOf(other, caps.reportDate.value) == DateOf(reader, caps.reportDate.value);
      assert DateOf(other, caps.dateRange.value.0) == DateOf(reader, caps.dateRange.value.0);
      assert DateOf(other, caps.dateRange.value.1) == DateOf(reader, caps.dateRange.value.1);
    }
  }

  /** Conversely, conversions that disagree on a bulletin's publication date give
      different reports whenever both parse. */
  lemma ParseDiverges(reader: Reader, toEpoch: string -> Option<int>, pdf: Bytes)
    requires Parse(reader, pdf).Ok? && Parse(reader.(toEpoch := toEpoch), pdf).Ok?
    requires var caps := reader.scan(PlainText(reader, pdf));
      caps.reportDate.Some? && toEpoch(caps.reportDate.value) != reader.toEpoch(caps.reportDate.value)
    ensures Parse(reader.(toEpoch := toEpoch), pdf).value.reportDate != Parse(reader, pdf).value.reportDate
  {
    var other := reader.(toEpoch := toEpoch);
    assert PlainText(other, pdf) == PlainText(reader, pdf);
    ParseFields(reader, pdf);
    ParseFields(other, pdf);
  }

  /** A bulletin whose patterns do not all match is an error naming the first
      missing pattern, never a partial report. */
  lemma ParseMissingPattern(reader: Reader, pdf: Bytes)
    ensures var caps := reader.scan(PlainText(reader, pdf));
      && (caps.dateRange.None? ==> Parse(reader, pdf) == Err(PatternMissing(DateRangePattern)))
      && (caps.dateRange.Some? && caps.reportDate.None? ==>
            Parse(reader, pdf) == Err(PatternMissing(ReportDatePattern)))
      && (caps.caseCount.None? || caps.hospitalizedPct.None? ==> Parse(reader, pdf).Err?)
      && (caps.deathCount.None? && caps.deathPct.None? ==> Parse(reader, pdf).Err?)
  {
  }

  /** Thousands separators anywhere in the case-count capture are ignored. */
  lemma SeparatorsIgnored(a: string, b: string)
    ensures Without(a + "," + b, ',') == Without(a + b, ',')
  {
    assert Without(a + ",", ',') == Without(a, ',') by {
      assert Without(",", ',') == "" by {
        assert ","[1..] == "";
      }
      WithoutAppend(a, ",", ',');
    }
    assert Without(a + "," + b, ',') == Without(a + ",", ',') + Without(b, ',') by {
      WithoutAppend(a + ",", b, ',');
    }
    WithoutAppend(a, b, ',');
  }

  /** A derived death count lies between zero and the case count when the
      percentage is a percentage. */
  lemma ShareBounds(caseCount: int, pct: real)
    requires caseCount >= 0 && 0.0 <= pct <= 100.0
    ensures 0 <= ShareOf(caseCount, pct) <= caseCount
  {
    var x := (caseCount as real) * pct / 100.0;
    assert 0.0 <= (caseCount as real) * pct;
    assert (caseCount as real) * pct <= (caseCount as real) * 100.0;
    assert 0.0 <= x <= caseCount as real;
  }

  lemma CommasExample()
    ensures Without("1,234", ',') == "1234"
  {
    calc {
      Without("1,234", ',');
      { assert "1" + "," + "234" == "1,234"; }
      Without("1" + "," + "234", ',');
      { SeparatorsIgnored("1", "234"); }
      Without("1" + "234", ',');
      { assert "1" + "234" == "1234"; }
      Without("1234", ',');
      { assert ',' !in "1234"; }
      "1234";
    }
  }

  lemma WholeExample()
    ensures ParseInt("1234") == Some(1234)
  {
    assert AllDigits("1234");
    assert DigitsValue("1234") == 1234 by {
      assert "1234"[..3] == "123";
      assert "123"[..2] == "12";
      assert "12"[..1] == "1";
      assert "1"[..0] == "";
    }
  }

  lemma DecimalExample()
    ensures ParseDecimal("1.5") == Some(1.5)
  {
    var text := "1.5";
    assert IndexOf(text, '.') == Some(1) by {
      assert text[1..] == ".5";
    }
    var whole, frac := text[..1], text[1 + 1..];
    assert whole == "1" && frac == "5";
    assert DigitsValue(whole) == 1 by { assert whole[..0] == ""; }
    assert DigitsValue(frac) == 5 by { assert frac[..0] == ""; }
    assert Pow10(|frac|) == 10;
    assert ParseUnsignedDecimal(text)
        == Some(DigitsValue(whole) as real + DigitsValue(frac) as real / Pow10(|frac|) as real);
    assert text[0] == '1';
  }

  /** A worked case of the fallback: a bulletin reporting 1,234 cases and a 1.5%
      death share, with no explicit death count, yields 18 deaths. */
  lemma FallbackExample(reader: Reader, pdf: Bytes)
    requires reader.scan(PlainText(reader, pdf)).caseCount == Some("1,234")
    requires reader.scan(PlainText(reader, pdf)).deathCount == None
    requires reader.scan(PlainText(reader, pdf)).deathPct == Some("1.5")
    requires Parse(reader, pdf).Ok?
    ensures Parse(reader, pdf).value.caseCount == 1234
    ensures Parse(reader, pdf).value.deathCount == 18
  {
    CommasExample();
    WholeExample();
    DecimalExample();
    ParseFields(reader, pdf);
    assert (1234 as real) * 1.5 / 100.0 == 18.51;
  }
}

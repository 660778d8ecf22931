/** The two request objects of the rates API and their Symfony validation: `NotBlank` and
    `Choice` on the pair, `NotBlank` and `Date` on the date. Validation yields the violations
    in constraint order, pair before date. */
module Dto {
  import opened Strings
  import opened Calendar
  import opened Digits

  /** `CryptoRatesRequest::SUPPORTED_PAIRS`. */
  const SupportedPairs: seq<string> := ["EUR/BTC", "EUR/ETH", "EUR/LTC"]

  const PairRequired: string := "Pair parameter is required"
  const PairUnsupported: string := "Unsupported pair. Supported pairs: EUR/BTC, EUR/ETH, EUR/LTC"
  const DateRequired: string := "Date parameter is required"
  const DateInvalid: string := "Invalid date format. Use YYYY-MM-DD format"

  /** A constraint violation: the property it concerns and its message. */
  datatype Violation = Violation(propertyPath: string, message: string)

  /** `NotBlank` then `Choice` on a pair string. `Choice` skips only null, so an empty pair
      draws both violations. */
  function PairViolations(pair: string): (vs: seq<Violation>)
    ensures vs == [] <==> pair in SupportedPairs
    ensures forall i :: 0 <= i < |vs| ==> vs[i].propertyPath == "pair"
    ensures Violation("pair", PairRequired) in vs <==> pair == ""
    ensures Violation("pair", PairUnsupported) in vs <==> pair !in SupportedPairs
    ensures pair == "" ==> vs == [Violation("pair", PairRequired), Violation("pair", PairUnsupported)]
  {
    (if pair == "" then [Violation("pair", PairRequired)] else [])
    + (if pair in SupportedPairs then [] else [Violation("pair", PairUnsupported)])
  }

  /** What Symfony's `Date` constraint accepts: the shape YYYY-MM-DD with ASCII digits and a
      date `checkdate` accepts (month 1..12, day within the month, year at least 1). */
  predicate IsCalendarDate(s: string) {
    IsDateShape(s) && ValidDate(DateFields(s)) && DateFields(s).year >= 1
  }

  /** `NotBlank` then `Date` on an optional date string. `Date` skips null and the empty
      string, so a missing or empty date draws only the 'required' violation. */
  function DateViolations(date: Option<string>): (vs: seq<Violation>)
    ensures vs == [] <==> date.Some? && IsCalendarDate(date.value)
    ensures forall i :: 0 <= i < |vs| ==> vs[i].propertyPath == "date"
    ensures Violation("date", DateRequired) in vs <==> date == None || date == Some("")
    ensures Violation("date", DateInvalid) in vs <==> date.Some? && date.value != "" && !IsCalendarDate(date.value)
    ensures |vs| <= 1
  {
    match date
    case None => [Violation("date", DateRequired)]
    case Some(s) =>
      if s == "" then [Violation("date", DateRequired)]
      else if IsCalendarDate(s) then []
      else [Violation("date", DateInvalid)]
  }

  /** The request of the day endpoint. */
  datatype CryptoRatesRequest = CryptoRatesRequest(pair: string, date: Option<string>)
  {
    function Validate(): (vs: seq<Violation>)
      ensures vs == [] <==> pair in SupportedPairs && date.Some? && IsCalendarDate(date.value)
    {
      PairViolations(pair) + DateViolations(date)
    }
  }

  /** The day request reports every violation of either property, and those of the pair come
      before those of the date. */
  lemma DayViolations(req: CryptoRatesRequest)
    ensures var vs := req.Validate();
      && (forall v :: v in vs <==> v in PairViolations(req.pair) || v in DateViolations(req.date))
      && forall i, j :: 0 <= i < j < |vs| && vs[j].propertyPath == "pair" ==> vs[i].propertyPath == "pair"
  {
    var p: seq<Violation>, d: seq<Violation> := PairViolations(req.pair), DateViolations(req.date);
    var vs := p + d;
    assert req.Validate() == vs;
    assert forall j :: |p| <= j < |vs| ==> vs[j] == d[j - |p|];
  }

  /** The request of the last-24-hours endpoint. */
  datatype Last24HoursRequest = Last24HoursRequest(pair: string)
  {
    function Validate(): (vs: seq<Violation>)
      ensures vs == [] <==> pair in SupportedPairs
      ensures forall i :: 0 <= i < |vs| ==> vs[i].propertyPath == "pair"
      ensures Violation("pair", PairRequired) in vs <==> pair == ""
      ensures Violation("pair", PairUnsupported) in vs <==> pair !in SupportedPairs
    {
      PairViolations(pair)
    }
  }

  /** The two requests check a pair the same way: whatever the date, the day request's
      violations start with exactly the last-24-hours request's violations for that pair, and
      the rest concern the date. */
  lemma SamePairChecks(pair: string, date: Option<string>)
    ensures var day, last := CryptoRatesRequest(pair, date).Validate(), Last24HoursRequest(pair).Validate();
      |last| <= |day| && day[..|last|] == last
      && forall i :: |last| <= i < |day| ==> day[i].propertyPath == "date"
  {
    var day, last := CryptoRatesRequest(pair, date).Validate(), Last24HoursRequest(pair).Validate();
    assert day == last + DateViolations(date);
    assert day[..|last|] == last;
  }

  /** The date the request tests use is a calendar date. */
  lemma SampleDateValid()
    ensures IsCalendarDate("2025-09-21")
  {
    var s := "2025-09-21";
    assert s[..4] == "2025" && s[5..7] == "09" && s[8..] == "21";
    SampleYear();
    assert "09"[..1] == "0" && "21"[..1] == "2" && "0"[..0] == "" && "2"[..0] == "";
    assert ParseDigits("09") == 9;
    assert ParseDigits("21") == 21;
  }

  lemma SampleYear()
    ensures ParseDigits("2025") == 2025
  {
    assert "2025"[..3] == "202" && "202"[..2] == "20" && "20"[..1] == "2" && "2"[..0] == "";
  }

  /** The validation cases the day request's tests exercise: a supported pair with a valid
      date passes. */
  lemma ValidationExamples()
    ensures CryptoRatesRequest("EUR/BTC", Some("2025-09-21")).Validate() == []
    ensures forall p :: p in SupportedPairs ==> CryptoRatesRequest(p, Some("2025-09-21")).Validate() == []
  {
    SampleDateValid();
  }

  /** An unsupported or empty pair is reported against the pair. */
  lemma PairValidationExamples()
    ensures Violation("pair", PairUnsupported) in CryptoRatesRequest("INVALID/PAIR", Some("2025-09-21")).Validate()
    ensures Violation("pair", PairRequired) in CryptoRatesRequest("", Some("2025-09-21")).Validate()
  {
    assert "INVALID/PAIR" !in SupportedPairs;
  }

  /** A malformed, empty or missing date is reported against the date. */
  lemma DateValidationExamples()
    ensures Violation("date", DateInvalid) in CryptoRatesRequest("EUR/BTC", Some("invalid-date")).Validate()
    ensures Violation("date", DateRequired) in CryptoRatesRequest("EUR/BTC", Some("")).Validate()
    ensures CryptoRatesRequest("EUR/BTC", None).Validate() != []
  {
    var s := "invalid-date";
    assert s[4] != '-';
  }

  /** The validation cases of the last-24-hours request. */
  lemma Last24HoursValidationExamples()
    ensures forall p :: p in SupportedPairs ==> Last24HoursRequest(p).Validate() == []
    ensures Violation("pair", PairUnsupported) in Last24HoursRequest("INVALID").Validate()
    ensures Violation("pair", PairRequired) in Last24HoursRequest("").Validate()
  {
    assert "INVALID" !in SupportedPairs;
  }

  /** A date the `Date` constraint accepts comes back unchanged from `format('Y-m-d')` of the
      instant it denotes, which is midnight UTC of that date. */
  lemma AcceptedDateRoundTrip(s: string)
    requires IsCalendarDate(s)
    ensures FormatYmd(MidnightOf(DateFields(s))) == s
    ensures StartOfDay(MidnightOf(DateFields(s))) == MidnightOf(DateFields(s))
  {
    FormatParsedDate(s);
  }
}

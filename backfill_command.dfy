/** The `app:backfill-crypto-rates` console command: it casts the `days` argument to an
    integer, checks it against 1..365, checks the `interval` option against the intervals the
    exchange offers, and only then calls the backfill, turning its outcome into an exit code. */
module BackfillCommand {
  import opened Strings
  import opened Calendar
  import opened Digits

  const Success: int := 0
  const Failure: int := 1

  const DefaultDays: int := 7
  const DefaultInterval: string := "5m"
  const MinDays: int := 1
  const MaxDays: int := 365

  /** The intervals the command accepts, in the order it lists them. */
  const ValidIntervals: seq<string> := ["1m", "5m", "15m", "30m", "1h", "2h", "4h", "6h", "8h", "12h", "1d"]

  // ---- PHP's (int) cast of a string ---------------------------------------------------

  /** `(int) $s` for a string in integer notation: leading whitespace is skipped, an optional
      sign is read, then the leading digits; anything after them is ignored, and a string that
      does not start with a number casts to 0. */
  function IntCast(s: string): int {
    var t := SkipSpace(s);
    if t != [] && (t[0] == '-' || t[0] == '+') then
      var v: int := ParseDigits(LeadingDigits(t[1..]));
      if t[0] == '-' then -v else v
    else ParseDigits(LeadingDigits(t))
  }

  /** PHP's string form of an integer. */
  function IntText(n: int): (r: string)
    ensures |r| >= 1
  {
    if n < 0 then "-" + DecimalDigits(-n) else DecimalDigits(n)
  }

  lemma {:induction false} ParseDecimalDigits(n: nat)
    ensures ParseDigits(DecimalDigits(n)) == n
  {
    if n >= 10 {
      var s := DecimalDigits(n);
      assert s[..|s| - 1] == DecimalDigits(n / 10);
      ParseDecimalDigits(n / 10);
    }
  }

  /** Casting the string form of an integer back gives the integer: the command reads a
      numeric `days` argument exactly. */
  lemma IntCastRoundTrip(n: int)
    ensures IntCast(IntText(n)) == n
  {
    if n < 0 {
      CastNegative(-n);
      assert IntText(n) == "-" + DecimalDigits(-n);
    } else {
      CastNatural(n);
    }
  }

  lemma CastNatural(n: nat)
    ensures IntCast(DecimalDigits(n)) == n
  {
    CastOfDigits(DecimalDigits(n));
    ParseDecimalDigits(n);
  }

  lemma CastNegative(n: nat)
    ensures IntCast("-" + DecimalDigits(n)) == -(n as int)
  {
    var d := DecimalDigits(n);
    CastOfNegativeDigits(d);
    ParseDecimalDigits(n);
  }

  /** A string of digits casts to its value. */
  lemma CastOfDigits(d: string)
    requires d != [] && AllDigits(d)
    ensures IntCast(d) == ParseDigits(d)
  {
    assert IsDigit(d[0]) && !IsNumericSpace(d[0]);
    SkipSpaceStops(d);
    assert d[0] != '-' && d[0] != '+';
    LeadingDigitsOfDigits(d);
  }

  /** A minus sign and a string of digits cast to the negated value. */
  lemma CastOfNegativeDigits(d: string)
    requires d != [] && AllDigits(d)
    ensures IntCast("-" + d) == -(ParseDigits(d) as int)
  {
    var r := "-" + d;
    SkipSpaceStops(r);
    assert r[1..] == d;
    LeadingDigitsOfDigits(d);
  }

  /** A string whose first non-blank character is neither a sign nor a digit casts to 0. */
  lemma IntCastNonNumeric(s: string)
    requires var t := SkipSpace(s); t == [] || (!IsDigit(t[0]) && t[0] != '-' && t[0] != '+')
    ensures IntCast(s) == 0
  {
  }

  /** Numeric arguments are read exactly. */
  lemma CastThree() ensures IntCast("3") == 3 {
    CastOfDigits("3");
  }

  lemma CastFourHundred() ensures IntCast("400") == 400 {
    assert DecimalDigits(400) == "400";
    IntCastRoundTrip(400);
  }

  lemma CastMinusFive() ensures IntCast("-5") == -5 {
    CastOfNegativeDigits("5");
    assert "-" + "5" == "-5";
  }

  lemma CastZero() ensures IntCast("0") == 0 {
    CastOfDigits("0");
  }

  /** Leading blanks are skipped and anything after the digits is dropped. */
  lemma CastTwelveDays() ensures IntCast(" 12days") == 12 {
    TwelveDaysSkip();
    TwelveDaysDigits();
    assert "12"[..1] == "1" && "1"[..0] == [];
    assert ParseDigits("12") == 12;
  }

  lemma TwelveDaysSkip() ensures SkipSpace(" 12days") == "12days" {
    var s := " 12days";
    assert s[1..] == "12days";
    assert !IsNumericSpace(s[1]);
  }

  lemma TwelveDaysDigits() ensures LeadingDigits("12days") == "12" {
    var s := "12days";
    assert s[1..][1..] == "days";
    assert LeadingDigits("days") == [];
    assert LeadingDigits(s[1..]) == "2";
  }

  // ---- the command ----------------------------------------------------------------

  /** The `days` argument: absent (the integer default) or the text given on the command line. */
  datatype DaysArgument = DaysDefault | DaysText(text: string)

  function DaysValue(a: DaysArgument): int {
    match a
    case DaysDefault => DefaultDays
    case DaysText(s) => IntCast(s)
  }

  /** What `getArgument`/`getOption` return: the `days` argument, the `pair` option (null when
      absent or given without a value) and the `interval` option (null when given without a
      value; the default '5m' when absent). */
  datatype CommandInput = CommandInput(days: DaysArgument, pair: Option<string>, interval: Option<string>)

  const DefaultInput: CommandInput := CommandInput(DaysDefault, None, Some(DefaultInterval))

  /** Why the command failed, in the order it checks. */
  datatype CommandError = DaysOutOfRange | InvalidInterval | BackfillThrew

  /** The arguments the command passes to the backfill. */
  datatype BackfillCall = BackfillCall(days: int, pair: Option<string>, interval: string)

  datatype CommandRun = CommandRun(code: int, error: Option<CommandError>, call: Option<BackfillCall>)

  predicate DaysInRange(days: int) {
    MinDays <= days <= MaxDays
  }

  predicate IntervalAccepted(interval: Option<string>) {
    interval.Some? && interval.value in ValidIntervals
  }

  /** `execute`. `backfillReturns` tells whether the backfill returns normally for a call or
      throws. The days are checked before the interval; the backfill is called only when both
      pass, with the cast days, the pair unchanged and the interval. */
  function Execute(input: CommandInput, backfillReturns: BackfillCall -> bool): (r: CommandRun)
    ensures r.code == Success || r.code == Failure
    ensures r.code == Success <==> r.error.None?
    ensures r.error == Some(DaysOutOfRange) <==> !DaysInRange(DaysValue(input.days))
    ensures r.error == Some(InvalidInterval)
        <==> DaysInRange(DaysValue(input.days)) && !IntervalAccepted(input.interval)
    ensures r.call.Some? <==> DaysInRange(DaysValue(input.days)) && IntervalAccepted(input.interval)
    ensures r.call.Some? ==> r.call.value == BackfillCall(DaysValue(input.days), input.pair, input.interval.value)
    ensures r.code == Success <==> r.call.Some? && backfillReturns(r.call.value)
  {
    var days := DaysValue(input.days);
    if days <= 0 || days > 365 then CommandRun(Failure, Some(DaysOutOfRange), None)
    else if input.interval.None? || input.interval.value !in ValidIntervals then CommandRun(Failure, Some(InvalidInterval), None)
    else
      var call := BackfillCall(days, input.pair, input.interval.value);
      if backfillReturns(call) then CommandRun(Success, None, Some(call))
      else CommandRun(Failure, Some(BackfillThrew), Some(call))
  }

  /** The defaults call the backfill with 7 days, no pair and '5m'; a numeric argument and a
      pair are passed on. */
  lemma ExecuteCalls(backend: BackfillCall -> bool)
    ensures Execute(DefaultInput, backend).call == Some(BackfillCall(7, None, "5m"))
    ensures Execute(CommandInput(DaysText("3"), None, Some("5m")), backend).call == Some(BackfillCall(3, None, "5m"))
    ensures Execute(CommandInput(DaysDefault, Some("EUR/BTC"), Some("5m")), backend).call
         == Some(BackfillCall(7, Some("EUR/BTC"), "5m"))
  {
    CastThree();
  }

  /** 0, -5 and 400 days fail without a call. */
  lemma ExecuteRejectsDays(backend: BackfillCall -> bool)
    ensures Execute(CommandInput(DaysText("0"), None, Some("5m")), backend) == CommandRun(Failure, Some(DaysOutOfRange), None)
    ensures Execute(CommandInput(DaysText("-5"), None, Some("5m")), backend) == CommandRun(Failure, Some(DaysOutOfRange), None)
    ensures Execute(CommandInput(DaysText("400"), None, Some("5m")), backend) == CommandRun(Failure, Some(DaysOutOfRange), None)
  {
    CastZero();
    CastMinusFive();
    CastFourHundred();
  }

  /** Non-numeric days fail without a call, and an out-of-range count is the error reported
      even when the interval is also wrong. */
  lemma ExecuteRejectsText(backend: BackfillCall -> bool)
    ensures Execute(CommandInput(DaysText("invalid"), None, Some("5m")), backend) == CommandRun(Failure, Some(DaysOutOfRange), None)
    ensures Execute(CommandInput(DaysText("0"), None, Some("3m")), backend).error == Some(DaysOutOfRange)
  {
    CastZero();
    IntCastNonNumeric("invalid");
  }

  /** An unknown or missing interval fails without a call; the exit code follows the backfill. */
  lemma ExecuteIntervalAndCode(backend: BackfillCall -> bool)
    ensures Execute(CommandInput(DaysDefault, None, Some("3m")), backend) == CommandRun(Failure, Some(InvalidInterval), None)
    ensures Execute(CommandInput(DaysDefault, None, None), backend).error == Some(InvalidInterval)
    ensures Execute(DefaultInput, (c: BackfillCall) => false).code == Failure
    ensures Execute(DefaultInput, (c: BackfillCall) => true).code == Success
  {
    assert "3m" !in ValidIntervals;
  }
}

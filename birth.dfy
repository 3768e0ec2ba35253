/** The "name / birthday" page: a form of name, year, month and day; a chain of
    checks that stops at the first failing one; the birth string and the seed
    sent to the number generator; and the result kept once it answers. */
module BirthPage {
  import opened LottoTypes
  import opened Decimal

  /** A calendar day. "Today" is given to the model instead of read from a
      clock: `new Date("YYYY-MM-DD")` is midnight UTC, so the page's comparison
      with the current time is a comparison with the current UTC date. */
  datatype Day = Day(year: int, month: int, day: int)

  /** Lexicographic order on (year, month, day): `a` lies strictly after `b`. */
  predicate IsAfter(a: Day, b: Day): (r: bool)
    ensures r ==> a != b && a.year >= b.year
  {
    a.year > b.year
    || (a.year == b.year && a.month > b.month)
    || (a.year == b.year && a.month == b.month && a.day > b.day)
  }

  /** Day order is a strict total order: of two different days exactly one is
      after the other, and a day is not after itself (born today is allowed). */
  lemma IsAfterOrder(a: Day, b: Day, c: Day)
    ensures !IsAfter(a, a)
    ensures a != b ==> (IsAfter(a, b) <==> !IsAfter(b, a))
    ensures IsAfter(a, b) && IsAfter(b, c) ==> IsAfter(a, c)
  {
  }

  /** The warnings the page shows instead of sending a request, in checking order. */
  datatype BirthWarning = NameTooShort | YearMissing | MonthMissing | DayMissing | InvalidBirthDate

  /** What a request is built from: the name and the `year-mm-dd` birth string. */
  datatype BirthRequest = BirthRequest(name: string, birth: string) {
    /** The text sent to the generator: the name directly followed by the birth string. */
    function Seed(): (s: string)
      ensures |s| == |name| + |birth| && s[..|name|] == name && s[|name|..] == birth
    {
      name + birth
    }
  }

  /** A form field counts as missing when it is unset or 0 (a falsy number). */
  predicate Unset(v: Option<int>) {
    v.None? || v.value == 0
  }

  /** Month and day below 10 get a "0" in front; other values print as they are. */
  function Pad2(v: int): (s: string)
    ensures 0 <= v ==> |s| >= 2 && AllDigits(s)
    ensures 0 <= v <= 99 ==> |s| == 2
  {
    if v < 10 then "0" + IntToString(v) else IntToString(v)
  }

  /** What follows the year in a birth string: "-", the month, "-", the day. */
  function MonthDay(month: int, day: int): (s: string)
    ensures 0 <= month <= 99 && 0 <= day <= 99 ==> |s| == 6 && s[0] == '-' && s[3] == '-'
  {
    "-" + Pad2(month) + "-" + Pad2(day)
  }

  /** The birth string `year-mm-dd`; the year is printed without padding. */
  function BirthString(year: int, month: int, day: int): (s: string)
    ensures 0 <= month <= 99 && 0 <= day <= 99 ==> |s| == |IntToString(year)| + 6
    ensures |s| >= 1 && (s[0] == '-' <==> year < 0)
  {
    IntToString(year) + MonthDay(month, day)
  }

  /** The reading of "-mm-dd": a dash, two digits of month, a dash, two digits of day. */
  function ParseMonthDay(t: string): Option<(int, int)>
    requires |t| == 6
  {
    if t[0] == '-' && IsDigit(t[1]) && IsDigit(t[2]) && t[3] == '-' && IsDigit(t[4]) && IsDigit(t[5]) then
      Some((DigitValue(t[1]) * 10 + DigitValue(t[2]), DigitValue(t[4]) * 10 + DigitValue(t[5])))
    else None
  }

  /** The reading of a birth string as a date: a signed decimal year followed by
      "-mm-dd". None stands for an invalid date. */
  function ParseBirth(s: string): (r: Option<Day>)
    ensures r.Some? ==> |s| >= 7 && s[|s| - 6] == '-' && s[|s| - 3] == '-'
    ensures r.Some? ==> 0 <= r.value.month <= 99 && 0 <= r.value.day <= 99
  {
    if |s| < 7 then None
    else
      var k := |s| - 6;
      match (ParseInteger(s[..k]), ParseMonthDay(s[k..]))
      case (Some(y), Some((m, d))) => Some(Day(y, m, d))
      case _ => None
  }

  /** The birth date lies after today. An unreadable date compares false with
      the current time, so it is never in the future. */
  predicate BirthIsFuture(birth: string, today: Day): (r: bool)
    ensures r ==> ParseBirth(birth).Some? && |birth| >= 7
  {
    match ParseBirth(birth)
    case Some(d) => IsAfter(d, today)
    case None => false
  }

  /** The checks run when the user asks for numbers: a warning, or the request to send. */
  function GenLottoNumber(name: string, year: Option<int>, month: Option<int>, date: Option<int>, today: Day)
    : (r: Result<BirthRequest, BirthWarning>)
    ensures |name| < 2 ==> r == Failure(NameTooShort)
    ensures r == Failure(YearMissing) <==> |name| >= 2 && Unset(year)
    ensures r == Failure(MonthMissing) <==> |name| >= 2 && !Unset(year) && Unset(month)
    ensures r == Failure(DayMissing) <==> |name| >= 2 && !Unset(year) && !Unset(month) && Unset(date)
    ensures r.Success? ==>
      && |name| >= 2 && !Unset(year) && !Unset(month) && !Unset(date)
      && r.value.name == name
      && r.value.birth == BirthString(year.value, month.value, date.value)
  {
    if |name| < 2 then Failure(NameTooShort)
    else if Unset(year) then Failure(YearMissing)
    else if Unset(month) then Failure(MonthMissing)
    else if Unset(date) then Failure(DayMissing)
    else
      var birth := BirthString(year.value, month.value, date.value);
      if BirthIsFuture(birth, today) then Failure(InvalidBirthDate)
      else Success(BirthRequest(name, birth))
  }

  /** The year field: the unary `+` of the typed text, with NaN replaced by 0. */
  function YearInputValue(text: string): (v: int)
    ensures v == 0 <==> StringToNumber(text) == None || StringToNumber(text) == Some(0)
    ensures AllSpace(text) ==> v == 0
  {
    match StringToNumber(text)
    case Some(v) => v
    case None => 0
  }

  /** A padded field is the two decimal digits of the value: a single leading
      "0" below 10, and the value printed unchanged from 10 on. */
  lemma Pad2Digits(v: int)
    requires 0 <= v <= 99
    ensures Pad2(v) == [DigitChar(v / 10), DigitChar(v % 10)]
    ensures v >= 10 ==> Pad2(v) == IntToString(v)
  {
    if v >= 10 {
      assert NatToString(v) == NatToString(v / 10) + [DigitChar(v % 10)];
    }
  }

  /** Where the two halves of a concatenation sit in it. */
  lemma ConcatParts(a: string, b: string)
    ensures (a + b)[..|a|] == a && (a + b)[|a|..] == b
  {
  }

  /** A birth string is the unpadded year followed by exactly six characters:
      a dash, the month's two digits, a dash, the day's two digits. */
  lemma BirthStringLayout(year: int, month: int, day: int)
    requires 0 <= month <= 99 && 0 <= day <= 99
    ensures var s := BirthString(year, month, day);
      var y := IntToString(year);
      && |s| == |y| + 6
      && s[..|y|] == y
      && s[|y|..] == ['-', DigitChar(month / 10), DigitChar(month % 10), '-', DigitChar(day / 10), DigitChar(day % 10)]
  {
    Pad2Digits(month);
    Pad2Digits(day);
    ConcatParts(IntToString(year), MonthDay(month, day));
  }

  /** Reading back a birth string gives the year, month and day that built it. */
  lemma BirthStringRoundTrip(year: int, month: int, day: int)
    requires 0 <= month <= 99 && 0 <= day <= 99
    ensures ParseBirth(BirthString(year, month, day)) == Some(Day(year, month, day))
  {
    BirthStringLayout(year, month, day);
    IntToStringRoundTrip(year);
    var t := MonthDay(month, day);
    assert ParseMonthDay(t) == Some((month, day));
  }

  /** For fields the form can hold, the future check is exactly a comparison of
      (year, month, day) with today, and a passing form sends its birth string. */
  lemma FutureDateCheck(name: string, year: int, month: int, date: int, today: Day)
    requires |name| >= 2 && year != 0 && 1 <= month <= 12 && 1 <= date <= 31
    ensures GenLottoNumber(name, Some(year), Some(month), Some(date), today)
      == if IsAfter(Day(year, month, date), today) then Failure(InvalidBirthDate)
         else Success(BirthRequest(name, BirthString(year, month, date)))
  {
    BirthStringRoundTrip(year, month, date);
  }

  /** The seed of a request is the name directly followed by the birth
      string, which reads back as the form's date. */
  lemma SeedLayout(name: string, year: int, month: int, date: int)
    requires 1 <= month <= 12 && 1 <= date <= 31
    ensures var seed := BirthRequest(name, BirthString(year, month, date)).Seed();
      && seed[..|name|] == name
      && seed[|name|..] == BirthString(year, month, date)
      && ParseBirth(seed[|name|..]) == Some(Day(year, month, date))
  {
    ConcatParts(name, BirthString(year, month, date));
    BirthStringRoundTrip(year, month, date);
  }

  /** Year text that is not a number is stored as 0 and is reported as a missing year. */
  lemma NonNumericYearRejected(name: string, text: string, month: Option<int>, date: Option<int>, today: Day)
    requires |name| >= 2 && StringToNumber(text).None?
    ensures GenLottoNumber(name, Some(YearInputValue(text)), month, date, today) == Failure(YearMissing)
  {
  }

  /** Typing a year's printed digits stores that year, so the seed repeats what was typed. */
  lemma TypedYearKept(year: int)
    ensures YearInputValue(IntToString(year)) == year
  {
    StringToNumberOfIntToString(year);
  }

  /** The birth string of 31 December 1999. */
  lemma ExampleBirthString(year: int, month: int, day: int)
    requires year == 1999 && month == 12 && day == 31
    ensures BirthString(year, month, day) == "1999-12-31"
  {
    assert NatToString(1999) == "1999" by {
      assert NatToString(19) == NatToString(1) + [DigitChar(9)];
      assert NatToString(199) == NatToString(19) + [DigitChar(9)];
      assert NatToString(1999) == NatToString(199) + [DigitChar(9)];
    }
    Pad2Digits(month);
    Pad2Digits(day);
    assert MonthDay(month, day) == "-12-31";
  }

  /** Moving the character '1' across the join of two texts. */
  lemma MoveDigit(name: string, c: char, t: string)
    ensures (name + "1") + ([c] + t) == name + (['1', c] + t)
  {
    assert (name + "1") + [c] == name + ['1', c];
    assert (name + "1") + ([c] + t) == ((name + "1") + [c]) + t;
    assert name + (['1', c] + t) == (name + ['1', c]) + t;
  }

  /** Moving a trailing "1" from the name to the front of a one-digit year
      leaves the seed text unchanged. */
  lemma ShiftedDigitSameSeed(name: string, year: int, month: int, date: int)
    requires 1 <= year <= 9
    ensures BirthRequest(name + "1", BirthString(year, month, date)).Seed()
      == BirthRequest(name, BirthString(10 + year, month, date)).Seed()
  {
    var c := DigitChar(year);
    assert IntToString(year) == [c];
    assert IntToString(10 + year) == ['1', c] by {
      assert NatToString(10 + year) == NatToString(1) + [DigitChar(year)];
    }
    var t := MonthDay(month, date);
    assert BirthString(year, month, date) == [c] + t;
    assert BirthString(10 + year, month, date) == ['1', c] + t;
    MoveDigit(name, c, t);
  }

  /** With no separator between name and year, two different forms that are
      both accepted can send the same seed. */
  lemma SeedsCanCollide(name: string, year: int, month: int, date: int, today: Day)
    requires |name| >= 2 && 1 <= year <= 9 && 1 <= month <= 12 && 1 <= date <= 31
    requires !IsAfter(Day(10 + year, month, date), today)
    ensures var a := GenLottoNumber(name + "1", Some(year), Some(month), Some(date), today);
      var b := GenLottoNumber(name, Some(10 + year), Some(month), Some(date), today);
      a.Success? && b.Success? && a.value.name != b.value.name && a.value.Seed() == b.value.Seed()
  {
    var long := name + "1";
    assert !IsAfter(Day(year, month, date), today);
    FutureDateCheck(long, year, month, date, today);
    FutureDateCheck(name, 10 + year, month, date, today);
    var ra := BirthRequest(long, BirthString(year, month, date));
    var rb := BirthRequest(name, BirthString(10 + year, month, date));
    assert GenLottoNumber(long, Some(year), Some(month), Some(date), today) == Success(ra);
    assert GenLottoNumber(name, Some(10 + year), Some(month), Some(date), today) == Success(rb);
    ShiftedDigitSameSeed(name, year, month, date);
    assert |long| != |name|;
  }

  /** The state of the birth page: the form fields, the loading flag and the kept result. */
  class BirthForm {
    var name: string
    var year: Option<int>
    var month: Option<int>
    var date: Option<int>
    var loading: bool
    var lottoResult: Option<LottoResult>

    /** Month and day come from selectors offering 1..12 and 1..31. */
    ghost predicate Valid()
      reads this
    {
      && (month.Some? ==> 1 <= month.value <= 12)
      && (date.Some? ==> 1 <= date.value <= 31)
    }

    constructor ()
      ensures Valid()
      ensures name == "" && year == None && month == None && date == None
      ensures !loading && lottoResult == None
    {
      name, year, month, date := "", None, None, None;
      loading, lottoResult := false, None;
    }

    /** Clears the four form fields; the loading flag and any result stay. */
    method Reset()
      modifies this
      ensures Valid()
      ensures name == "" && year == None && month == None && date == None
      ensures loading == old(loading) && lottoResult == old(lottoResult)
    {
      name := "";
      year := None;
      month := None;
      date := None;
    }

    method SetName(text: string)
      requires Valid()
      modifies this
      ensures Valid() && name == text
      ensures year == old(year) && month == old(month) && date == old(date)
      ensures loading == old(loading) && lottoResult == old(lottoResult)
    {
      name := text;
    }

    /** The year field stores the number typed, or 0 when the text is not a number. */
    method SetYear(text: string)
      requires Valid()
      modifies this
      ensures Valid() && year == Some(YearInputValue(text))
      ensures StringToNumber(text).None? ==> year == Some(0)
      ensures name == old(name) && month == old(month) && date == old(date)
      ensures loading == old(loading) && lottoResult == old(lottoResult)
    {
      var y := StringToNumber(text);
      if y.None? {
        y := Some(0);
      }
      year := y;
    }

    method SetMonth(m: int)
      requires Valid() && 1 <= m <= 12
      modifies this
      ensures Valid() && month == Some(m)
      ensures name == old(name) && year == old(year) && date == old(date)
      ensures loading == old(loading) && lottoResult == old(lottoResult)
    {
      month := Some(m);
    }

    method SetDate(d: int)
      requires Valid() && 1 <= d <= 31
      modifies this
      ensures Valid() && date == Some(d)
      ensures name == old(name) && year == old(year) && month == old(month)
      ensures loading == old(loading) && lottoResult == old(lottoResult)
    {
      date := Some(d);
    }

    /** The click on the generate button: the checks run on the fields as they
        are now. For fields the selectors can produce, a form with every field
        set is refused as a future date exactly when its day is after today,
        and an accepted request's birth string reads back as the form's date. */
    method GenLotto(today: Day) returns (r: Result<BirthRequest, BirthWarning>)
      requires Valid()
      ensures r == GenLottoNumber(name, year, month, date, today)
      ensures |name| >= 2 && !Unset(year) && !Unset(month) && !Unset(date) ==>
        (r == Failure(InvalidBirthDate) <==> IsAfter(Day(year.value, month.value, date.value), today))
      ensures r.Success? ==> ParseBirth(r.value.birth) == Some(Day(year.value, month.value, date.value))
    {
      r := GenLottoNumber(name, year, month, date, today);
      if |name| >= 2 && !Unset(year) && !Unset(month) && !Unset(date) {
        FutureDateCheck(name, year.value, month.value, date.value, today);
        BirthStringRoundTrip(year.value, month.value, date.value);
      }
    }

    /** Applies the generator's answer to a request sent earlier. The result
        carries the request's own name and birth string, whatever the form
        holds by now; a failure keeps the previous result; loading ends. */
    method Settle(request: BirthRequest, response: Response) returns (notice: Notice)
      requires Valid()
      modifies this
      ensures Valid() && !loading
      ensures notice == ResultShown <==> response.Ok?
      ensures lottoResult == if response.Ok? then Some(BirthResult(response.numbers, request.birth, request.name))
                             else old(lottoResult)
      ensures name == old(name) && year == old(year) && month == old(month) && date == old(date)
    {
      match response {
        case Ok(numbers) =>
          lottoResult := Some(BirthResult(numbers, request.birth, request.name));
          notice := ResultShown;
        case Err =>
          notice := GenerationFailed;
      }
      loading := false;
    }
  }
}

/**
 The invoice reference number: a printer and a recogniser for NUMBER-SERVICE-YYYYMMDD, and
 exactly how far the two agree.
 */
module Irn {
  import opened Options
  import opened PyText

  // ------------------------------------------------------------------- dates

  datatype YearMonthDay = Date(year: nat, month: nat, day: nat)

  predicate Leap(y: nat) {
    y % 4 == 0 && (y % 100 != 0 || y % 400 == 0)
  }

  function DaysInMonth(y: nat, m: nat): nat {
    if m == 2 then if Leap(y) then 29 else 28
    else if m == 4 || m == 6 || m == 9 || m == 11 then 30
    else 31
  }

  predicate IsDate(d: YearMonthDay) {
    1 <= d.year <= 9999 && 1 <= d.month <= 12 && 1 <= d.day <= DaysInMonth(d.year, d.month)
  }

  /** What Python's `date` can hold. */
  type Date = d: YearMonthDay | IsDate(d) witness Date(1, 1, 1)

  predicate After(a: Date, b: Date) {
    || a.year > b.year
    || (a.year == b.year && (a.month > b.month || (a.month == b.month && a.day > b.day)))
  }

  // -------------------------------------------------------------------- text

  predicate IsAlnum(c: char) {
    'A' <= c <= 'Z' || 'a' <= c <= 'z' || '0' <= c <= '9'
  }

  predicate AllAlnum(s: string) {
    forall i :: 0 <= i < |s| ==> IsAlnum(s[i])
  }

  /** `^[A-Za-z0-9]+$` under `re.match`: `$` also matches before one final newline. */
  predicate AlnumPattern(s: string) {
    || (s != "" && AllAlnum(s))
    || (|s| > 1 && s[|s| - 1] == '\n' && AllAlnum(s[..|s| - 1]))
  }

  function Digit(n: nat): char
    requires n < 10
  {
    '0' + n as char
  }

  function ShowNat(n: nat): string {
    if n < 10 then [Digit(n)] else ShowNat(n / 10) + [Digit(n % 10)]
  }

  function TwoDigits(n: nat): string
    requires n < 100
  {
    [Digit(n / 10), Digit(n % 10)]
  }

  /** `strftime("%Y%m%d")`; the C library does not pad the year. */
  function Stamp(d: Date): string
  {
    ShowNat(d.year) + TwoDigits(d.month) + TwoDigits(d.day)
  }

  /** `s.split("-")`. */
  function Split(s: string): (parts: seq<string>)
    ensures |parts| >= 1
  {
    if s == "" then [""]
    else if s[0] == '-' then [""] + Split(s[1..])
    else var rest := Split(s[1..]); [[s[0]] + rest[0]] + rest[1..]
  }

  // -------------------------------------------------------------- generation

  datatype IssueDate = Iso(text: string) | Day(day: Date) | OtherType

  datatype IrnError = NumberMissing | NumberNotAlnum | ServiceMissing | ServiceLength | ServiceNotAlnum
                    | DateUnreadable | DateType | DateInFuture

  datatype IrnResult = Made(irn: string) | Failed(error: IrnError)

  /** `date.fromisoformat`, whose accepted forms differ between Python versions. */
  type IsoReader = string -> Option<Date>

  function ReadIssueDate(issued: IssueDate, iso: IsoReader): Option<Date> {
    match issued
    case Iso(text) => iso(text)
    case Day(day) => Some(day)
    case OtherType => None
  }

  function GenerateIrn(number: string, service: string, issued: IssueDate, iso: IsoReader, today: Date): IrnResult {
    var cleanNumber, cleanService := Strip(number), Strip(service);
    if number == "" then Failed(NumberMissing)
    else if !AlnumPattern(cleanNumber) then Failed(NumberNotAlnum)
    else if service == "" then Failed(ServiceMissing)
    else if |cleanService| != 8 then Failed(ServiceLength)
    else if !AlnumPattern(cleanService) then Failed(ServiceNotAlnum)
    else if issued.OtherType? then Failed(DateType)
    else match ReadIssueDate(issued, iso)
      case None => Failed(DateUnreadable)
      case Some(day) =>
        if After(day, today) then Failed(DateInFuture)
        else Made(cleanNumber + "-" + cleanService + "-" + Stamp(day))
  }

  // -------------------------------------------------------------- validation

  /** The decimal digits of Unicode with their values; Python reads them all. */
  type Decimals = char -> Option<nat>

  ghost predicate ReadsDigits(decimal: Decimals) {
    && (forall n: nat :: n < 10 ==> decimal(Digit(n)) == Some(n))
    && (forall c :: decimal(c).Some? ==> decimal(c).value < 10)
    && (forall c :: IsSpace(c) || c == '-' ==> decimal(c).None?)
  }

  /** `%m`: 01 to 12, and only in ASCII digits. */
  function ReadMonth(a: char, b: char): Option<nat> {
    if a == '0' && '1' <= b <= '9' then Some((b - '0') as nat)
    else if a == '1' && '0' <= b <= '2' then Some(10 + (b - '0') as nat)
    else None
  }

  /** `%d`: 01 to 31; after a leading 1 or 2 any decimal digit will do. */
  function ReadDay(a: char, b: char, decimal: Decimals): Option<nat> {
    if a == '0' && '1' <= b <= '9' then Some((b - '0') as nat)
    else if (a == '1' || a == '2') && decimal(b).Some? then Some(10 * (a - '0') as nat + decimal(b).value)
    else if a == '3' && (b == '0' || b == '1') then Some(30 + (b - '0') as nat)
    else None
  }

  function ReadYear(s: string, decimal: Decimals): Option<nat>
    requires |s| == 4
  {
    if forall i :: 0 <= i < 4 ==> decimal(s[i]).Some? then
      Some(1000 * decimal(s[0]).value + 100 * decimal(s[1]).value + 10 * decimal(s[2]).value + decimal(s[3]).value)
    else None
  }

  /** `isdigit` and `strptime(s, "%Y%m%d")` on eight characters; whatever the format reads
      in fewer characters leaves some unconverted, which is an error. */
  function ReadStamp(s: string, decimal: Decimals): Option<Date>
    requires |s| == 8
  {
    var y, m, d := ReadYear(s[..4], decimal), ReadMonth(s[4], s[5]), ReadDay(s[6], s[7], decimal);
    if y.Some? && m.Some? && d.Some? && IsDate(Date(y.value, m.value, d.value))
    then Some(Date(y.value, m.value, d.value))
    else None
  }

  predicate ValidateIrn(irn: string, decimal: Decimals) {
    var parts := Split(irn);
    && |parts| == 3
    && AlnumPattern(parts[0])
    && |parts[1]| == 8 && AlnumPattern(parts[1])
    && |parts[2]| == 8 && ReadStamp(parts[2], decimal).Some?
  }

  // --------------------------------------------------------------- splitting

  predicate NoDash(s: string) {
    forall i :: 0 <= i < |s| ==> s[i] != '-'
  }

  lemma {:induction false} SplitNoDash(s: string)
    requires NoDash(s)
    ensures Split(s) == [s]
  {
    if s != "" {
      assert forall i :: 0 <= i < |s[1..]| ==> s[1..][i] == s[i + 1];
      SplitNoDash(s[1..]);
      assert [s[0]] + s[1..] == s;
    }
  }

  lemma {:induction false} SplitFirst(a: string, rest: string)
    requires NoDash(a)
    ensures Split(a + "-" + rest) == [a] + Split(rest)
  {
    var s := a + "-" + rest;
    if a == "" {
      assert s[1..] == rest;
    } else {
      assert s[1..] == a[1..] + "-" + rest;
      assert forall i :: 0 <= i < |a[1..]| ==> a[1..][i] == a[i + 1];
      SplitFirst(a[1..], rest);
      assert [a[0]] + a[1..] == a;
      assert Split(s) == [[a[0]] + a[1..]] + Split(rest);
    }
  }

  lemma SplitThree(a: string, b: string, c: string)
    requires NoDash(a) && NoDash(b) && NoDash(c)
    ensures Split(a + "-" + b + "-" + c) == [a, b, c]
  {
    assert a + "-" + b + "-" + c == a + "-" + (b + "-" + c);
    SplitFirst(a, b + "-" + c);
    SplitFirst(b, c);
    SplitNoDash(c);
  }

  function Join(parts: seq<string>): string
    requires |parts| >= 1
  {
    if |parts| == 1 then parts[0] else parts[0] + "-" + Join(parts[1..])
  }

  /** Splitting loses nothing, and the parts hold no dash. */
  lemma {:induction false} SplitJoins(s: string)
    ensures Join(Split(s)) == s
    ensures forall k :: 0 <= k < |Split(s)| ==> NoDash(Split(s)[k])
  {
    if s != "" {
      SplitJoins(s[1..]);
      var rest := Split(s[1..]);
      if s[0] != '-' {
        assert Split(s)[1..] == rest[1..];
        assert s == [s[0]] + s[1..];
      } else {
        assert Split(s)[1..] == rest;
      }
    }
  }

  lemma SplitsInThree(s: string)
    requires |Split(s)| == 3
    ensures s == Split(s)[0] + "-" + Split(s)[1] + "-" + Split(s)[2]
  {
    SplitJoins(s);
    var p := Split(s);
    assert p[1..][1..] == [p[2]];
    assert Join(p[1..]) == p[1] + "-" + p[2];
    assert Join(p) == p[0] + "-" + (p[1] + "-" + p[2]);
  }

  // ------------------------------------------------------------------ stamps

  lemma {:induction false} ShowNatIsDigits(n: nat)
    ensures |ShowNat(n)| >= 1
    ensures forall i :: 0 <= i < |ShowNat(n)| ==> '0' <= ShowNat(n)[i] <= '9'
  {
    if n >= 10 { ShowNatIsDigits(n / 10); }
  }

  lemma YearDigits(y: nat)
    requires 1 <= y <= 9999
    ensures |ShowNat(y)| == 4 <==> y >= 1000
    ensures y >= 1000 ==> ShowNat(y) == [Digit(y / 1000), Digit(y / 100 % 10), Digit(y / 10 % 10), Digit(y % 10)]
    ensures y < 1000 ==> |ShowNat(y)| < 4
  {
    var a, b, c := y / 10, y / 100, y / 1000;
    assert a / 10 == b && b / 10 == c;
    if y >= 1000 {
      assert ShowNat(c) == [Digit(c)];
      assert ShowNat(b) == ShowNat(c) + [Digit(b % 10)];
      assert ShowNat(a) == ShowNat(b) + [Digit(a % 10)];
      assert ShowNat(y) == ShowNat(a) + [Digit(y % 10)];
    } else if y >= 100 {
      assert ShowNat(b) == [Digit(b)];
      assert ShowNat(a) == ShowNat(b) + [Digit(a % 10)];
    } else if y >= 10 {
      assert ShowNat(a) == [Digit(a)];
    }
  }

  lemma {:induction false} ShowNatInjective(m: nat, n: nat)
    requires ShowNat(m) == ShowNat(n)
    ensures m == n
  {
    var s, t := ShowNat(m), ShowNat(n);
    ShowNatIsDigits(m / 10);
    ShowNatIsDigits(n / 10);
    assert s[|s| - 1] == Digit(m % 10) && t[|t| - 1] == Digit(n % 10);
    if m >= 10 && n >= 10 {
      assert s[..|s| - 1] == ShowNat(m / 10) && t[..|t| - 1] == ShowNat(n / 10);
      ShowNatInjective(m / 10, n / 10);
    }
  }

  lemma StampIsPlain(d: Date)
    ensures |Stamp(d)| >= 5 && NoDash(Stamp(d)) && (|Stamp(d)| == 8 <==> d.year >= 1000)
  {
    ShowNatIsDigits(d.year);
    YearDigits(d.year);
  }

  lemma StampInjective(d: Date, e: Date)
    requires Stamp(d) == Stamp(e)
    ensures d == e
  {
    var s := Stamp(d);
    StampIsPlain(d);
    var n := |s| - 4;
    assert s[..n] == ShowNat(d.year) && s[..n] == ShowNat(e.year);
    ShowNatInjective(d.year, e.year);
    assert s[n] == Digit(d.month / 10) == Digit(e.month / 10) && s[n + 1] == Digit(d.month % 10) == Digit(e.month % 10);
    assert s[n + 2] == Digit(d.day / 10) == Digit(e.day / 10) && s[n + 3] == Digit(d.day % 10) == Digit(e.day % 10);
  }

  lemma TwoDigitMonth(m: nat)
    requires 1 <= m <= 12
    ensures ReadMonth(Digit(m / 10), Digit(m % 10)) == Some(m)
  {
  }

  lemma TwoDigitDay(d: nat, decimal: Decimals)
    requires 1 <= d <= 31 && ReadsDigits(decimal)
    ensures ReadDay(Digit(d / 10), Digit(d % 10), decimal) == Some(d)
  {
  }

  lemma ReadsFourDigits(a: nat, b: nat, c: nat, d: nat, decimal: Decimals)
    requires a < 10 && b < 10 && c < 10 && d < 10 && ReadsDigits(decimal)
    ensures ReadYear([Digit(a), Digit(b), Digit(c), Digit(d)], decimal) == Some(1000 * a + 100 * b + 10 * c + d)
  {
  }

  lemma FourDigitYear(y: nat, decimal: Decimals)
    requires 1000 <= y <= 9999 && ReadsDigits(decimal)
    ensures |ShowNat(y)| == 4 && ReadYear(ShowNat(y), decimal) == Some(y)
  {
    YearDigits(y);
    ReadsFourDigits(y / 1000, y / 100 % 10, y / 10 % 10, y % 10, decimal);
    DecimalExpansion(y);
  }

  lemma DecimalExpansion(y: nat)
    ensures y == 1000 * (y / 1000) + 100 * (y / 100 % 10) + 10 * (y / 10 % 10) + y % 10
  {
    assert y / 10 / 10 == y / 100 && y / 100 / 10 == y / 1000;
  }

  lemma ReadsItsStamp(d: Date, decimal: Decimals)
    requires d.year >= 1000 && ReadsDigits(decimal)
    ensures |Stamp(d)| == 8 && ReadStamp(Stamp(d), decimal) == Some(d)
  {
    FourDigitYear(d.year, decimal);
    assert Stamp(d)[..4] == ShowNat(d.year);
    TwoDigitMonth(d.month);
    TwoDigitDay(d.day, decimal);
  }

  predicate AsciiDigits(s: string) {
    forall i :: 0 <= i < |s| ==> '0' <= s[i] <= '9'
  }

  lemma DigitOf(c: char, decimal: Decimals)
    requires '0' <= c <= '9' && ReadsDigits(decimal)
    ensures decimal(c) == Some((c - '0') as nat)
  {
    assert c == Digit((c - '0') as nat);
  }

  lemma YearFromDigits(s: string, decimal: Decimals)
    requires |s| == 4 && AsciiDigits(s) && ReadsDigits(decimal)
    ensures ReadYear(s, decimal).Some?
    ensures var y := ReadYear(s, decimal).value; 1000 <= y ==> y <= 9999 && ShowNat(y) == s
  {
    DigitOf(s[0], decimal);
    DigitOf(s[1], decimal);
    DigitOf(s[2], decimal);
    DigitOf(s[3], decimal);
    var a, b, c, d := (s[0] - '0') as nat, (s[1] - '0') as nat, (s[2] - '0') as nat, (s[3] - '0') as nat;
    var y := 1000 * a + 100 * b + 10 * c + d;
    assert ReadYear(s, decimal) == Some(y);
    if y >= 1000 {
      YearDigits(y);
      DigitsOfExpansion(a, b, c, d);
    }
  }

  lemma DigitsOfExpansion(a: nat, b: nat, c: nat, d: nat)
    requires a < 10 && b < 10 && c < 10 && d < 10
    ensures var y := 1000 * a + 100 * b + 10 * c + d;
      y / 1000 == a && y / 100 % 10 == b && y / 10 % 10 == c && y % 10 == d
  {
    var y := 1000 * a + 100 * b + 10 * c + d;
    assert y / 10 == 100 * a + 10 * b + c;
    assert y / 100 == 10 * a + b;
  }

  lemma ShowsItsMonth(a: char, b: char)
    requires ReadMonth(a, b).Some?
    ensures ReadMonth(a, b).value <= 12 && TwoDigits(ReadMonth(a, b).value) == [a, b]
  {
  }

  lemma ShowsItsDay(a: char, b: char, decimal: Decimals)
    requires ReadsDigits(decimal) && '0' <= b <= '9' && ReadDay(a, b, decimal).Some?
    ensures ReadDay(a, b, decimal).value <= 31 && TwoDigits(ReadDay(a, b, decimal).value) == [a, b]
  {
    DigitOf(b, decimal);
  }

  lemma ShowsItsStamp(s: string, decimal: Decimals)
    requires |s| == 8 && ReadsDigits(decimal) && ReadStamp(s, decimal).Some?
    requires AsciiDigits(s) && ReadStamp(s, decimal).value.year >= 1000
    ensures Stamp(ReadStamp(s, decimal).value) == s
  {
    YearFromDigits(s[..4], decimal);
    ShowsItsMonth(s[4], s[5]);
    ShowsItsDay(s[6], s[7], decimal);
    assert s == s[..4] + [s[4], s[5]] + [s[6], s[7]];
  }

  /** A stamp that is read is the stamp of its date exactly when it is written in ASCII
      digits and its year has four of them. */
  lemma StampOfWhatItReads(s: string, decimal: Decimals)
    requires |s| == 8 && ReadsDigits(decimal) && ReadStamp(s, decimal).Some?
    ensures Stamp(ReadStamp(s, decimal).value) == s
            <==> AsciiDigits(s) && ReadStamp(s, decimal).value.year >= 1000
  {
    var d := ReadStamp(s, decimal).value;
    StampIsPlain(d);
    ShowNatIsDigits(d.year);
    if AsciiDigits(s) && d.year >= 1000 { ShowsItsStamp(s, decimal); }
  }

  // ---------------------------------------------------------------- theorems

  lemma NothingAlnumIsSpace(s: string)
    requires AllAlnum(s)
    ensures Strip(s) == s && NoDash(s)
  {
    NothingToStrip(s);
  }

  lemma {:induction false} StripRightEnds(s: string)
    ensures StripRight(s) != "" ==> !IsSpace(StripRight(s)[|StripRight(s)| - 1])
  {
    if s != "" && IsSpace(s[|s| - 1]) { StripRightEnds(s[..|s| - 1]); }
  }

  /** What is stripped does not end in a newline, so the pattern means what it says. */
  lemma StrippedPattern(s: string)
    ensures AlnumPattern(Strip(s)) <==> Strip(s) != "" && AllAlnum(Strip(s))
  {
    StripRightEnds(StripLeft(s));
  }

  /** A generated number splits back into what it was made from. */
  lemma GeneratedSplitsBack(number: string, service: string, issued: IssueDate, iso: IsoReader, today: Date)
    requires GenerateIrn(number, service, issued, iso, today).Made?
    ensures ReadIssueDate(issued, iso).Some?
    ensures Split(GenerateIrn(number, service, issued, iso, today).irn)
            == [Strip(number), Strip(service), Stamp(ReadIssueDate(issued, iso).value)]
  {
    StrippedPattern(number);
    StrippedPattern(service);
    StampIsPlain(ReadIssueDate(issued, iso).value);
    SplitThree(Strip(number), Strip(service), Stamp(ReadIssueDate(issued, iso).value));
  }

  /** The recogniser accepts a generated number exactly when its year has four digits. */
  lemma GeneratedValidatesExactly(number: string, service: string, issued: IssueDate, iso: IsoReader, today: Date,
                                  decimal: Decimals)
    requires GenerateIrn(number, service, issued, iso, today).Made? && ReadsDigits(decimal)
    ensures ReadIssueDate(issued, iso).Some?
    ensures ValidateIrn(GenerateIrn(number, service, issued, iso, today).irn, decimal)
            <==> ReadIssueDate(issued, iso).value.year >= 1000
  {
    GeneratedSplitsBack(number, service, issued, iso, today);
    var d := ReadIssueDate(issued, iso).value;
    StampIsPlain(d);
    if d.year >= 1000 { ReadsItsStamp(d, decimal); }
  }

  /** Two invoices get the same number only if stripped number, service and date agree. */
  lemma GenerationIsInjective(n1: string, s1: string, d1: IssueDate, n2: string, s2: string, d2: IssueDate,
                              iso: IsoReader, today: Date)
    requires GenerateIrn(n1, s1, d1, iso, today).Made?
    requires GenerateIrn(n1, s1, d1, iso, today) == GenerateIrn(n2, s2, d2, iso, today)
    ensures Strip(n1) == Strip(n2) && Strip(s1) == Strip(s2)
    ensures ReadIssueDate(d1, iso) == ReadIssueDate(d2, iso)
  {
    GeneratedSplitsBack(n1, s1, d1, iso, today);
    GeneratedSplitsBack(n2, s2, d2, iso, today);
    var p := Split(GenerateIrn(n1, s1, d1, iso, today).irn);
    var q := [Strip(n2), Strip(s2), Stamp(ReadIssueDate(d2, iso).value)];
    assert p[0] == q[0] && p[1] == q[1] && p[2] == q[2];
    StampInjective(ReadIssueDate(d1, iso).value, ReadIssueDate(d2, iso).value);
  }

  predicate NoNewline(s: string) {
    forall i :: 0 <= i < |s| ==> s[i] != '\n'
  }

  lemma PatternStripped(s: string)
    requires AlnumPattern(s)
    ensures NoNewline(s) <==> AllAlnum(s)
    ensures Strip(s) == s <==> NoNewline(s)
    ensures s != "" && AlnumPattern(Strip(s))
    ensures !NoNewline(s) ==> |Strip(s)| < |s|
  {
    if AllAlnum(s) {
      NothingAlnumIsSpace(s);
    } else {
      var t := s[..|s| - 1];
      assert s[|s| - 1] == '\n';
      assert IsAlnum(t[0]) && s[0] == t[0];
      assert StripLeft(s) == s;
      NothingAlnumIsSpace(t);
      assert StripLeft(t) == t;
      assert StripRight(s) == StripRight(t);
    }
  }

  lemma NewlineInParts(a: string, b: string, c: string)
    ensures NoNewline(a + "-" + b + "-" + c) <==> NoNewline(a) && NoNewline(b) && NoNewline(c)
  {
    var s := a + "-" + b + "-" + c;
    if NoNewline(s) {
      forall i | 0 <= i < |a| ensures a[i] != '\n' { assert s[i] == a[i]; }
      forall i | 0 <= i < |b| ensures b[i] != '\n' { assert s[|a| + 1 + i] == b[i]; }
      forall i | 0 <= i < |c| ensures c[i] != '\n' { assert s[|a| + 1 + |b| + 1 + i] == c[i]; }
    }
  }

  lemma StampHasNoNewline(s: string, decimal: Decimals)
    requires |s| == 8 && ReadsDigits(decimal) && ReadStamp(s, decimal).Some?
    ensures NoNewline(s)
  {
    forall i | 0 <= i < 4 ensures s[i] != '\n' {
      assert s[..4][i] == s[i];
      assert decimal('\n').None?;
    }
  }

  /** A recognised number that is not of the future is what generation makes of its own
      parts, exactly when it holds no newline, its date is in ASCII digits and its year has
      four. */
  lemma AcceptedIsGenerated(irn: string, decimal: Decimals, iso: IsoReader, today: Date)
    requires ValidateIrn(irn, decimal) && ReadsDigits(decimal)
    requires !After(ReadStamp(Split(irn)[2], decimal).value, today)
    ensures var p := Split(irn);
      var d := ReadStamp(p[2], decimal).value;
      GenerateIrn(p[0], p[1], Day(d), iso, today) == Made(irn)
      <==> NoNewline(irn) && AsciiDigits(p[2]) && d.year >= 1000
  {
    var p := Split(irn);
    var d := ReadStamp(p[2], decimal).value;
    SplitsInThree(irn);
    NewlineInParts(p[0], p[1], p[2]);
    StampHasNoNewline(p[2], decimal);
    PatternStripped(p[0]);
    PatternStripped(p[1]);
    StampOfWhatItReads(p[2], decimal);
    var r := GenerateIrn(p[0], p[1], Day(d), iso, today);
    if r == Made(irn) {
      GeneratedSplitsBack(p[0], p[1], Day(d), iso, today);
    }
  }

  // ------------------------------------------------------------------ the calendar

  const MONTHS: seq<nat> := [31, 28, 31, 30, 31, 30, 31, 31, 30, 31, 30, 31]

  /** Every fourth year has a day more, but of the centuries only every fourth. */
  lemma LeapYears(y: nat)
    ensures y % 400 == 0 ==> Leap(y)
    ensures y % 100 == 0 && y % 400 != 0 ==> !Leap(y)
    ensures y % 4 == 0 && y % 100 != 0 ==> Leap(y)
    ensures y % 4 != 0 ==> !Leap(y)
  {
  }

  lemma DatesAre(d: YearMonthDay)
    ensures IsDate(d) <==> && 1 <= d.year <= 9999 && 1 <= d.month <= 12 && 1 <= d.day
                           && d.day <= MONTHS[d.month - 1] + if d.month == 2 && Leap(d.year) then 1 else 0
  {
    assert MONTHS[0] == MONTHS[2] == MONTHS[4] == MONTHS[6] == MONTHS[7] == MONTHS[9] == MONTHS[11] == 31;
  }

  // ------------------------------------------------------- when generation succeeds

  /** Dates as numbers, year first. */
  function Ordinal(d: Date): nat { d.year * 10000 + d.month * 100 + d.day }

  lemma AfterIsLater(a: Date, b: Date)
    ensures After(a, b) <==> Ordinal(a) > Ordinal(b)
  {
  }

  /** Only ASCII letters and digits, and at least one. */
  ghost predicate PlainWord(s: string) {
    && s != ""
    && forall c :: c in s ==> 'A' <= c <= 'Z' || 'a' <= c <= 'z' || '0' <= c <= '9'
  }

  lemma AllAlnumIsPlain(s: string)
    ensures s != "" && AllAlnum(s) <==> PlainWord(s)
  {
    if AllAlnum(s) { assert forall c :: c in s ==> IsAlnum(c); }
    if PlainWord(s) { forall i | 0 <= i < |s| ensures IsAlnum(s[i]) { assert s[i] in s; } }
  }

  /** What a part of a number must be for the validator: a plain word, or one with a newline at
      its end. */
  ghost predicate Part(s: string) {
    PlainWord(s) || (s != "" && s[|s| - 1] == '\n' && PlainWord(s[..|s| - 1]))
  }

  lemma PatternExactly(s: string)
    ensures AlnumPattern(s) <==> Part(s)
  {
    AllAlnumIsPlain(s);
    if s != "" { AllAlnumIsPlain(s[..|s| - 1]); }
  }

  /** The validator accepts exactly what dashes cut into three: a part, a part of eight
      characters, and eight that read as a date. */
  lemma AcceptedExactly(irn: string, decimal: Decimals)
    ensures ValidateIrn(irn, decimal)
            <==> exists a, b, c :: && irn == a + "-" + b + "-" + c && NoDash(a) && NoDash(b) && NoDash(c)
                                   && Part(a) && Part(b) && |b| == 8 && |c| == 8 && ReadStamp(c, decimal).Some?
  {
    var p := Split(irn);
    if |p| == 3 {
      SplitsInThree(irn);
      SplitJoins(irn);
      PatternExactly(p[0]);
      PatternExactly(p[1]);
    }
    if a, b, c :| irn == a + "-" + b + "-" + c && NoDash(a) && NoDash(b) && NoDash(c)
                  && Part(a) && Part(b) && |b| == 8 && |c| == 8 && ReadStamp(c, decimal).Some? {
      SplitThree(a, b, c);
      PatternExactly(a);
      PatternExactly(b);
    }
  }

  lemma PatternMeansPlain(s: string)
    ensures AlnumPattern(Strip(s)) <==> PlainWord(Strip(s))
  {
    StrippedPattern(s);
    AllAlnumIsPlain(Strip(s));
  }

  /** Generation succeeds exactly if number and service, stripped, are plain words, the service
      of eight characters, and the date can be read and is not of the future. */
  lemma GenerationSucceedsExactly(number: string, service: string, issued: IssueDate, iso: IsoReader, today: Date)
    ensures GenerateIrn(number, service, issued, iso, today).Made?
            <==> PlainWord(Strip(number)) && PlainWord(Strip(service)) && |Strip(service)| == 8
                 && ReadIssueDate(issued, iso).Some? && Ordinal(ReadIssueDate(issued, iso).value) <= Ordinal(today)
  {
    PatternMeansPlain(number);
    PatternMeansPlain(service);
    if number == "" || service == "" { assert Strip("") == ""; }
    if ReadIssueDate(issued, iso).Some? { AfterIsLater(ReadIssueDate(issued, iso).value, today); }
  }
}

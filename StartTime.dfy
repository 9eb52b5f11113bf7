/**
 * The configuration side of `Popup.__init__` (reminder.py:80-99): turning the
 * configured interval and unit into seconds, and turning an optional "HH:MM"
 * start time into an anchor instant on today's date.
 *
 * Time is counted in whole seconds. `today` is the instant of today's local
 * midnight, which the Python code obtains from `date.today()`.
 */
module StartTime {
  import opened Wrappers
  import opened Sequences

  const SecondsPerMinute := 60
  const SecondsPerHour := 3600

  /** The unit string that selects minutes; every other string means seconds. */
  const Minutes := "minutes"

  /** `self.interval`: the configured interval in seconds. */
  function IntervalSeconds(interval: int, unit: string): (seconds: int)
    ensures unit == Minutes ==> seconds == interval * SecondsPerMinute
    ensures unit != Minutes ==> seconds == interval
    ensures seconds > 0 <==> interval > 0
  {
    if unit == Minutes then interval * SecondsPerMinute else interval
  }

  // ---------------------------------------------------------------------
  // str.split(sep) with a one-character separator

  /** The inverse of splitting: `sep.join(parts)`. */
  function Join(parts: seq<string>, sep: char): string
  {
    if |parts| == 0 then []
    else if |parts| == 1 then parts[0]
    else parts[0] + [sep] + Join(parts[1..], sep)
  }

  /**
   * Python's `s.split(sep)`: the pieces between occurrences of `sep`,
   * empty pieces included, so there is always one more piece than separators.
   */
  function Split(s: string, sep: char): (parts: seq<string>)
    ensures |parts| == Count(s, sep) + 1
    ensures forall p :: p in parts ==> sep !in p
    ensures Join(parts, sep) == s
  {
    if s == [] then [[]]
    else
      var rest := Split(s[1..], sep);
      if s[0] == sep then
        assert Join([[]] + rest, sep) == [] + [sep] + Join(rest, sep);
        assert s == [sep] + s[1..];
        [[]] + rest
      else
        var parts := [[s[0]] + rest[0]] + rest[1..];
        assert forall p :: p in parts ==> p == parts[0] || p in rest;
        assert s == [s[0]] + s[1..];
        if |rest| == 1 then
          parts
        else
          assert parts[1..] == rest[1..];
          assert Join(rest, sep) == rest[0] + [sep] + Join(rest[1..], sep);
          parts
  }

  lemma {:induction false} SplitNoSeparator(s: string, sep: char)
    requires sep !in s
    ensures Split(s, sep) == [s]
  {
    if s != [] {
      assert s[0] != sep;
      SplitNoSeparator(s[1..], sep);
      assert [s[0]] + s[1..] == s;
    }
  }

  /** Splitting `a + sep + b`, where neither half holds `sep`, gives back the halves. */
  lemma {:induction false} SplitAroundSeparator(a: string, b: string, sep: char)
    requires sep !in a && sep !in b
    ensures Split(a + [sep] + b, sep) == [a, b]
  {
    var s := a + [sep] + b;
    if a == [] {
      assert s[1..] == b;
      SplitNoSeparator(b, sep);
    } else {
      assert s[0] == a[0] && s[0] != sep;
      assert s[1..] == a[1..] + [sep] + b;
      SplitAroundSeparator(a[1..], b, sep);
      assert [a[0]] + a[1..] == a;
    }
  }

  // ---------------------------------------------------------------------
  // int(s) for a decimal string

  /**
   * The ASCII whitespace `int()` skips around the number: tab, line feed,
   * vertical tab, form feed, carriage return and space. The separators
   * 0x1C..0x1F, which `str.isspace` accepts, are not among them.
   */
  predicate IsSpace(c: char)
  {
    9 <= c as int <= 13 || c == ' '
  }

  predicate IsDigit(c: char)
  {
    '0' <= c <= '9'
  }

  function DigitValue(c: char): nat
    requires IsDigit(c)
  {
    c as int - '0' as int
  }

  function StripLeft(s: string): string
  {
    if |s| > 0 && IsSpace(s[0]) then StripLeft(s[1..]) else s
  }

  function StripRight(s: string): string
  {
    if |s| > 0 && IsSpace(s[|s| - 1]) then StripRight(s[..|s| - 1]) else s
  }

  /** The whitespace `int()` skips on both sides before reading the number. */
  function Strip(s: string): string
  {
    StripRight(StripLeft(s))
  }

  /**
   * A run of decimal digits in which single underscores may separate two
   * digits, the shape `int()` accepts after the optional sign.
   */
  predicate Digits(s: string)
    ensures Digits(s) ==> forall k :: 0 <= k < |s| ==> IsDigit(s[k]) || s[k] == '_'
    decreases |s|
  {
    |s| > 0 && IsDigit(s[0]) &&
    (|s| == 1 || (if s[1] == '_' then |s| > 2 && Digits(s[2..]) else Digits(s[1..])))
  }

  /** The value of a digit run, underscores skipped. */
  function DigitsValue(s: string): nat
    requires forall k :: 0 <= k < |s| ==> IsDigit(s[k]) || s[k] == '_'
  {
    if s == [] then 0
    else if s[|s| - 1] == '_' then DigitsValue(s[..|s| - 1])
    else DigitsValue(s[..|s| - 1]) * 10 + DigitValue(s[|s| - 1])
  }

  /**
   * The most digits `int()` reads in base 10 (`sys.int_info.default_max_str_digits`);
   * a longer run raises `ValueError`.
   */
  const MaxStrDigits := 4300

  /** The number of digits in a digit run, underscores not counted. */
  function DigitCount(s: string): int
  {
    |s| - Count(s, '_')
  }

  /** Python's `int(s)` on a string: `None` where it raises `ValueError`. */
  function ParseInt(s: string): Option<int>
  {
    var t := Strip(s);
    if |t| > 0 && (t[0] == '+' || t[0] == '-') then
      if Digits(t[1..]) && DigitCount(t[1..]) <= MaxStrDigits then
        Some(if t[0] == '-' then -(DigitsValue(t[1..]) as int) else DigitsValue(t[1..]))
      else None
    else if Digits(t) && DigitCount(t) <= MaxStrDigits then Some(DigitsValue(t))
    else None
  }

  lemma {:induction false} StripLeftShape(s: string)
    ensures forall c :: c in s && !IsSpace(c) ==> c in StripLeft(s)
    ensures (forall k :: 0 <= k < |s| ==> IsSpace(s[k])) ==> StripLeft(s) == []
  {
    if |s| > 0 && IsSpace(s[0]) {
      StripLeftShape(s[1..]);
      assert forall c :: c in s && c != s[0] ==> c in s[1..];
      assert forall k :: 0 <= k < |s[1..]| ==> s[1..][k] == s[k + 1];
    }
  }

  lemma {:induction false} StripRightKeeps(s: string)
    ensures forall c :: c in s && !IsSpace(c) ==> c in StripRight(s)
  {
    if |s| > 0 && IsSpace(s[|s| - 1]) {
      StripRightKeeps(s[..|s| - 1]);
      assert s == s[..|s| - 1] + [s[|s| - 1]];
    }
  }

  /**
   * What `int()` rejects: a string of nothing but whitespace (the empty
   * string included), and any string holding a character that is neither
   * a digit, whitespace, a sign nor an underscore; also a digit run of
   * more than 4300 digits.
   */
  lemma ParseIntRejects(s: string)
    ensures (forall k :: 0 <= k < |s| ==> IsSpace(s[k])) ==> ParseInt(s) == None
    ensures Digits(Strip(s)) && DigitCount(Strip(s)) > MaxStrDigits ==> ParseInt(s) == None
    ensures (exists c :: c in s && !IsDigit(c) && !IsSpace(c) && c !in "+-_") ==> ParseInt(s) == None
  {
    StripLeftShape(s);
    StripRightKeeps(StripLeft(s));
    if exists c :: c in s && !IsDigit(c) && !IsSpace(c) && c !in "+-_" {
      var c :| c in s && !IsDigit(c) && !IsSpace(c) && c !in "+-_";
      var t := Strip(s);
      assert c in t;
      if |t| > 0 && (t[0] == '+' || t[0] == '-') {
        assert c in t[1..] by { assert t == [t[0]] + t[1..]; }
      }
    }
  }

  function DigitChar(d: nat): (c: char)
    requires d < 10
    ensures IsDigit(c) && DigitValue(c) == d
  {
    ('0' as int + d) as char
  }

  /** The usual decimal spelling of a natural number, as `str(n)` gives it. */
  function Decimal(n: nat): (s: string)
    ensures |s| > 0
    decreases n
  {
    if n < 10 then [DigitChar(n)] else Decimal(n / 10) + [DigitChar(n % 10)]
  }

  /** A number below 100 as two digits, as in "09". */
  function Pad2(n: nat): string
    requires n < 100
  {
    [DigitChar(n / 10), DigitChar(n % 10)]
  }

  lemma {:induction false} DigitsExtend(s: string, c: char)
    requires Digits(s) && IsDigit(c)
    ensures Digits(s + [c])
    decreases |s|
  {
    var t := s + [c];
    assert t[0] == s[0];
    if |s| == 1 {
      assert t[1..] == [c];
    } else if s[1] == '_' {
      DigitsExtend(s[2..], c);
      assert t[2..] == s[2..] + [c];
    } else {
      DigitsExtend(s[1..], c);
      assert t[1..] == s[1..] + [c];
    }
  }

  lemma {:induction false} DecimalDigits(n: nat)
    ensures Digits(Decimal(n))
    ensures forall k :: 0 <= k < |Decimal(n)| ==> IsDigit(Decimal(n)[k])
    ensures DigitsValue(Decimal(n)) == n
    decreases n
  {
    if n >= 10 {
      var s := Decimal(n / 10);
      DecimalDigits(n / 10);
      DigitsExtend(s, DigitChar(n % 10));
      assert (s + [DigitChar(n % 10)])[..|s|] == s;
    }
  }

  /** `int(str(n)) == n` for every natural number of at most 4300 digits. */
  lemma {:induction false} ParseIntOfDecimal(n: nat)
    requires |Decimal(n)| <= MaxStrDigits
    ensures ParseInt(Decimal(n)) == Some(n)
  {
    var s := Decimal(n);
    DecimalDigits(n);
    CountAbsent(s, '_');
    assert IsDigit(s[0]) && IsDigit(s[|s| - 1]);
    assert StripLeft(s) == s;
    assert Strip(s) == s;
  }

  /** Two-digit fields such as "09" read back as their value. */
  lemma ParseIntOfPad2(n: nat)
    requires n < 100
    ensures ParseInt(Pad2(n)) == Some(n)
  {
    var s := Pad2(n);
    CountAbsent(s, '_');
    assert StripLeft(s) == s;
    assert Strip(s) == s;
    assert s[1..][1..] == [];
    assert Digits(s[1..]);
    assert s[..1] == [s[0]] && [s[0]][..0] == [];
    assert DigitsValue([s[0]]) == n / 10;
    assert DigitsValue(s) == (n / 10) * 10 + n % 10;
  }

  // ---------------------------------------------------------------------
  // The "HH:MM" start time

  /** Why `h, m = start_time.split(':')` and `time(int(h), int(m))` raise. */
  datatype StartTimeError =
    | WrongFieldCount(fields: nat)  // not exactly two values to unpack
    | NotAnInteger(field: string)   // int() raised ValueError
    | HourOutOfRange(hour: int)     // time(): hour must be in 0..23
    | MinuteOutOfRange(minute: int) // time(): minute must be in 0..59

  /** The fields read as integers that `time(h, m)` accepts. */
  predicate ValidClock(h: int, m: int)
  {
    0 <= h < 24 && 0 <= m < 60
  }

  /**
   * `datetime.combine(date.today(), time(int(h), int(m)))` for
   * `h, m = start_time.split(':')`.
   */
  function ParseStartTime(s: string, today: int): (r: Result<int, StartTimeError>)
    ensures Count(s, ':') != 1 ==> r == Failure(WrongFieldCount(Count(s, ':') + 1))
    ensures r.Success? ==> Count(s, ':') == 1
    ensures r.Success? ==> exists h, m :: ValidClock(h, m) && r.value == today + h * SecondsPerHour + m * SecondsPerMinute
    ensures r.Success? ==> today <= r.value < today + 24 * SecondsPerHour
  {
    var parts := Split(s, ':');
    if |parts| != 2 then Failure(WrongFieldCount(|parts|))
    else
      match (ParseInt(parts[0]), ParseInt(parts[1]))
      case (None, _) => Failure(NotAnInteger(parts[0]))
      case (_, None) => Failure(NotAnInteger(parts[1]))
      case (Some(h), Some(m)) =>
        if !(0 <= h < 24) then Failure(HourOutOfRange(h))
        else if !(0 <= m < 60) then Failure(MinuteOutOfRange(m))
        else
          assert ValidClock(h, m);
          Success(today + h * SecondsPerHour + m * SecondsPerMinute)
  }

  /**
   * A start time with exactly one colon: it parses exactly when both
   * fields read as integers forming a valid clock, and then gives that
   * minute of today; a field `int()` rejects is reported, the hour first.
   */
  lemma {:induction false} ParseStartTimeFields(a: string, b: string, today: int)
    requires ':' !in a && ':' !in b
    ensures ParseStartTime(a + [':'] + b, today).Success? <==>
      ParseInt(a).Some? && ParseInt(b).Some? && ValidClock(ParseInt(a).value, ParseInt(b).value)
    ensures ParseStartTime(a + [':'] + b, today).Success? ==>
      ParseStartTime(a + [':'] + b, today).value
        == today + ParseInt(a).value * SecondsPerHour + ParseInt(b).value * SecondsPerMinute
    ensures ParseInt(a).None? ==> ParseStartTime(a + [':'] + b, today) == Failure(NotAnInteger(a))
    ensures ParseInt(a).Some? && ParseInt(b).None? ==>
      ParseStartTime(a + [':'] + b, today) == Failure(NotAnInteger(b))
    ensures ParseInt(a).Some? && ParseInt(b).Some? && !(0 <= ParseInt(a).value < 24) ==>
      ParseStartTime(a + [':'] + b, today) == Failure(HourOutOfRange(ParseInt(a).value))
    ensures ParseInt(a).Some? && ParseInt(b).Some? && 0 <= ParseInt(a).value < 24 && !(0 <= ParseInt(b).value < 60) ==>
      ParseStartTime(a + [':'] + b, today) == Failure(MinuteOutOfRange(ParseInt(b).value))
  {
    SplitAroundSeparator(a, b, ':');
  }

  /** "HH:MM" spelled with two digits each, as a configuration file writes it. */
  function FormatClock(h: nat, m: nat): string
    requires h < 100 && m < 100
  {
    Pad2(h) + [':'] + Pad2(m)
  }

  /** A well-formed "HH:MM" parses to that minute of today; out-of-range fields raise. */
  lemma {:induction false} ParseFormattedClock(h: nat, m: nat, today: int)
    requires h < 100 && m < 100
    ensures ValidClock(h, m) ==>
      ParseStartTime(FormatClock(h, m), today) == Success(today + h * SecondsPerHour + m * SecondsPerMinute)
    ensures h >= 24 ==> ParseStartTime(FormatClock(h, m), today) == Failure(HourOutOfRange(h))
    ensures h < 24 && m >= 60 ==> ParseStartTime(FormatClock(h, m), today) == Failure(MinuteOutOfRange(m))
  {
    assert ':' !in Pad2(h) && ':' !in Pad2(m);
    SplitAroundSeparator(Pad2(h), Pad2(m), ':');
    ParseIntOfPad2(h);
    ParseIntOfPad2(m);
  }

  /**
   * What `__init__` does with `start_time`: a falsy value (None or the
   * empty string) gives no anchor, anything else must parse.
   */
  function StartAnchor(startTime: Option<string>, today: int): (r: Result<Option<int>, StartTimeError>)
    ensures startTime == None || startTime == Some([]) ==> r == Success(None)
    ensures r.Success? && r.value.Some? ==>
      startTime.Some? && Success(r.value.value) == ParseStartTime(startTime.value, today)
    ensures startTime.Some? && startTime.value != [] && ParseStartTime(startTime.value, today).Success? ==>
      r == Success(Some(ParseStartTime(startTime.value, today).value))
    ensures r.Failure? <==> startTime.Some? && startTime.value != [] && ParseStartTime(startTime.value, today).Failure?
  {
    match startTime
    case None => Success(None)
    case Some(s) =>
      if s == [] then Success(None)
      else
        match ParseStartTime(s, today)
        case Success(anchor) => Success(Some(anchor))
        case Failure(e) => Failure(e)
  }
}

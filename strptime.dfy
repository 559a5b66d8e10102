/** `datetime.datetime.strptime(ts, '%Y%m%d %H:%M:%S')` as CPython 2.7's
    `_strptime` carries it out: the format becomes the regular expression
      (?P<Y>\d\d\d\d)(?P<m>1[0-2]|0[1-9]|[1-9])
      (?P<d>3[0-1]|[1-2]\d|0[1-9]|[1-9]| [1-9])\s+
      (?P<H>2[0-3]|[0-1]\d|\d):(?P<M>[0-5]\d|\d):(?P<S>6[0-1]|[0-5]\d|\d)
    which is matched at the start of the string with the regex engine's
    leftmost-alternative backtracking; a match that stops short of the end
    is refused ("unconverted data remains"), and the fields must then make
    a real date and time. Also the feed's own timestamp layout,
    zero-padded `YYYYMMDD HH:MM:SS`, used to state round trips. */
module Strptime {
  import opened Wrappers
  import opened Text

  datatype DateTime = DateTime(year: int, month: int, day: int, hour: int, minute: int, second: int)

  /** Why strptime raised ValueError. */
  datatype TimeError = NoMatch | UnconvertedData | OutOfRange

  predicate IsLeapYear(y: int) {
    y % 4 == 0 && (y % 100 != 0 || y % 400 == 0)
  }

  function DaysInMonth(y: int, m: int): int
    requires 1 <= m <= 12
  {
    if m == 2 then (if IsLeapYear(y) then 29 else 28)
    else if m == 4 || m == 6 || m == 9 || m == 11 then 30
    else 31
  }

  /** What `datetime(...)` accepts (MINYEAR is 1, MAXYEAR 9999, no leap seconds). */
  predicate Valid(t: DateTime) {
    && 1 <= t.year <= 9999
    && 1 <= t.month <= 12
    && 1 <= t.day <= DaysInMonth(t.year, t.month)
    && 0 <= t.hour <= 23
    && 0 <= t.minute <= 59
    && 0 <= t.second <= 59
  }

  /** The parts of the compiled format, in order. */
  datatype Directive = Year | Month | Day | Spaces | Hour | Colon | Minute | Second

  const Pattern: seq<Directive> := [Year, Month, Day, Spaces, Hour, Colon, Minute, Colon, Second]

  /** One way a directive can match at the front of the input: the value
      of the group and how many characters it takes. */
  datatype Candidate = Candidate(value: int, width: nat)

  /** Every candidate takes at least one character of `s` and no more than it has. */
  predicate Fits(cs: seq<Candidate>, s: string) {
    forall i | 0 <= i < |cs| :: 1 <= cs[i].width <= |s|
  }

  /** Regex alternation `a|b`: the ways `a` matches are tried before those of `b`. */
  function Alt(s: string, a: seq<Candidate>, b: seq<Candidate>): (r: seq<Candidate>)
    requires Fits(a, s) && Fits(b, s)
    ensures Fits(r, s) && r == a + b
  {
    a + b
  }

  /** `[lo0-hi0][lo1-hi1]`, two digits. */
  function Pair(s: string, lo0: char, hi0: char, lo1: char, hi1: char): (r: seq<Candidate>)
    requires '0' <= lo0 && hi0 <= '9' && '0' <= lo1 && hi1 <= '9'
    ensures |r| <= 1 && Fits(r, s)
  {
    if |s| >= 2 && lo0 <= s[0] <= hi0 && lo1 <= s[1] <= hi1
    then [Candidate(10 * DigitValue(s[0]) + DigitValue(s[1]), 2)]
    else []
  }

  /** `[lo-hi]`, one digit. */
  function Single(s: string, lo: char, hi: char): (r: seq<Candidate>)
    requires '0' <= lo && hi <= '9'
    ensures |r| <= 1 && Fits(r, s)
  {
    if |s| >= 1 && lo <= s[0] <= hi then [Candidate(DigitValue(s[0]), 1)] else []
  }

  /** The number of whitespace characters at the front of `s`. */
  function LeadingSpaces(s: string): (k: nat)
    ensures k <= |s|
  {
    if s != [] && IsSpace(s[0]) then 1 + LeadingSpaces(s[1..]) else 0
  }

  /** Greedy `\s+` over a run of `k` whitespace characters: longest first. */
  function SpaceRuns(k: nat): (r: seq<Candidate>)
    ensures |r| == k && forall i | 0 <= i < k :: r[i].width == k - i
  {
    if k == 0 then [] else [Candidate(0, k)] + SpaceRuns(k - 1)
  }

  /** Every way directive `d` matches at the front of `s`, in the order the
      regex engine tries them. */
  function Candidates(d: Directive, s: string): (r: seq<Candidate>)
    ensures Fits(r, s)
  {
    match d
    case Year =>
      if |s| >= 4 && AllDigits(s[..4]) then [Candidate(DigitsValue(s[..4]), 4)] else []
    case Month => Alt(s, Alt(s, Pair(s, '1', '1', '0', '2'), Pair(s, '0', '0', '1', '9')), Single(s, '1', '9'))
    case Day =>
      Alt(s, Alt(s, Alt(s, Alt(s, Pair(s, '3', '3', '0', '1'), Pair(s, '1', '2', '0', '9')), Pair(s, '0', '0', '1', '9')),
        Single(s, '1', '9')),
        if |s| >= 2 && s[0] == ' ' && '1' <= s[1] <= '9' then [Candidate(DigitValue(s[1]), 2)] else [])
    case Spaces => SpaceRuns(LeadingSpaces(s))
    case Hour => Alt(s, Alt(s, Pair(s, '2', '2', '0', '3'), Pair(s, '0', '1', '0', '9')), Single(s, '0', '9'))
    case Colon => if |s| >= 1 && s[0] == ':' then [Candidate(0, 1)] else []
    case Minute => Alt(s, Pair(s, '0', '5', '0', '9'), Single(s, '0', '9'))
    case Second => Alt(s, Alt(s, Pair(s, '6', '6', '0', '1'), Pair(s, '0', '5', '0', '9')), Single(s, '0', '9'))
  }

  /** A match of a list of directives: one value per directive and the
      number of characters consumed. */
  datatype Found = Found(values: seq<int>, end: nat)

  /** The first match of `ds` at the front of `s` in backtracking order. */
  function Match(ds: seq<Directive>, s: string): (r: Option<Found>)
    ensures r.Some? ==> |r.value.values| == |ds| && |ds| <= r.value.end <= |s|
    decreases |ds|, 1, 0
  {
    if ds == [] then Some(Found([], 0)) else FirstMatch(ds, s, Candidates(ds[0], s))
  }

  /** Try the candidates for `ds[0]` in order; the first one after which
      the rest of the directives match wins. */
  function FirstMatch(ds: seq<Directive>, s: string, cs: seq<Candidate>): (r: Option<Found>)
    requires ds != []
    requires Fits(cs, s)
    ensures r.Some? ==> |r.value.values| == |ds| && |ds| <= r.value.end <= |s|
    ensures r.Some? ==> exists i | 0 <= i < |cs| :: r.value.values[0] == cs[i].value
    decreases |ds|, 0, |cs|
  {
    if cs == [] then None
    else
      match Match(ds[1..], s[cs[0].width..])
      case Some(f) => Some(Found([cs[0].value] + f.values, cs[0].width + f.end))
      case None => FirstMatch(ds, s, cs[1..])
  }

  /** `strptime(s, '%Y%m%d %H:%M:%S')`. */
  function ParseTime(s: string): (r: Result<DateTime, TimeError>)
    ensures r.Success? ==> Valid(r.value)
    ensures r.Success? ==> 12 <= |s| && AllDigits(s[..4]) && r.value.year == DigitsValue(s[..4])
  {
    var m := Match(Pattern, s);
    FromMatch(s, m)
  }

  /** What strptime does with the regex's match: refuse a match that stops
      short of the end, then build the `datetime` from the groups. */
  function FromMatch(s: string, m: Option<Found>): (r: Result<DateTime, TimeError>)
    requires m.Some? ==> |m.value.values| == |Pattern| && m.value.end <= |s|
    ensures r.Success? ==> m.Some? && Valid(r.value) && r.value.year == m.value.values[0]
  {
    match m
    case None => Failure(NoMatch)
    case Some(f) =>
      if f.end != |s| then Failure(UnconvertedData)
      else
        var v := f.values;
        var t := DateTime(v[0], v[1], v[2], v[4], v[6], v[8]);
        if Valid(t) then Success(t) else Failure(OutOfRange)
  }

  /** Two digits, zero-padded. */
  function Pad2(n: int): (s: string)
    requires 0 <= n <= 99
    ensures |s| == 2 && AllDigits(s)
  {
    [DigitChar(n / 10), DigitChar(n % 10)]
  }

  /** Four digits, zero-padded. */
  function Pad4(n: int): (s: string)
    requires 0 <= n <= 9999
    ensures |s| == 4 && AllDigits(s)
  {
    Pad2(n / 100) + Pad2(n % 100)
  }

  /** The feed's zero-padded `YYYYMMDD HH:MM:SS` text of `t`. */
  function FormatTime(t: DateTime): (s: string)
    requires Valid(t)
    ensures |s| == 17
  {
    Pad4(t.year) + (Pad2(t.month) + (Pad2(t.day) + (" " + (Pad2(t.hour) + (":" + (Pad2(t.minute) + (":" + Pad2(t.second))))))))
  }
}

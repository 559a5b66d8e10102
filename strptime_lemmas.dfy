/** Properties of the strptime model: formatting a valid timestamp and
    parsing it back gives the same fields; malformed text and trailing
    text fail; and, on examples, the regex's leniency (one-digit fields)
    and its preference for the first alternative that matches. */
module StrptimeLemmas {
  import opened Wrappers
  import opened Text
  import opened Strptime

  /** When the first candidate of the first directive leads to a match of
      the rest, that is the match; `g` is the combined result. */
  lemma MatchStep(ds: seq<Directive>, s: string, c: Candidate, f: Found, g: Found)
    requires ds != [] && Candidates(ds[0], s) != [] && Candidates(ds[0], s)[0] == c
    requires Match(ds[1..], s[c.width..]) == Some(f)
    requires g.values == [c.value] + f.values && g.end == c.width + f.end
    ensures Match(ds, s) == Some(g)
  {
    var cs := Candidates(ds[0], s);
    FirstMatchFields(ds, s, cs, f);
    MatchUnfold(ds, s);
    var r := Match(ds, s);
    assert r.value == g;
  }

  lemma MatchUnfold(ds: seq<Directive>, s: string)
    requires ds != []
    ensures Match(ds, s) == FirstMatch(ds, s, Candidates(ds[0], s))
  {
  }

  /** The first candidate's match, field by field. */
  lemma FirstMatchFields(ds: seq<Directive>, s: string, cs: seq<Candidate>, f: Found)
    requires ds != [] && cs != []
    requires Fits(cs, s)
    requires Match(ds[1..], s[cs[0].width..]) == Some(f)
    ensures FirstMatch(ds, s, cs).Some?
    ensures FirstMatch(ds, s, cs).value.end == cs[0].width + f.end
    ensures FirstMatch(ds, s, cs).value.values == [cs[0].value] + f.values
  {
  }

  /** The rest of the directives, matched after candidate `c` of the first. */
  function After(ds: seq<Directive>, s: string, c: Candidate): Option<Found> {
    if ds == [] || c.width > |s| then None else Match(ds[1..], s[c.width..])
  }

  /** For each candidate in turn, whether the rest of the directives match after it. */
  function Continues(ds: seq<Directive>, s: string, cs: seq<Candidate>): (r: seq<bool>)
    ensures |r| == |cs|
  {
    if cs == [] then [] else [After(ds, s, cs[0]).Some?] + Continues(ds, s, cs[1..])
  }

  /** Entry `i` of `Continues` is about candidate `i`. */
  lemma {:induction false} ContinuesAt(ds: seq<Directive>, s: string, cs: seq<Candidate>, i: nat)
    requires i < |cs|
    ensures Continues(ds, s, cs)[i] <==> After(ds, s, cs[i]).Some?
  {
    if i > 0 {
      ContinuesAt(ds, s, cs[1..], i - 1);
    }
  }

  /** `cs` with its first candidate dropped still fits. */
  lemma FitsTail(cs: seq<Candidate>, s: string)
    requires cs != [] && Fits(cs, s)
    ensures Fits(cs[1..], s)
  {
    forall i | 0 <= i < |cs| - 1 ensures 1 <= cs[1..][i].width <= |s| {
      assert cs[1..][i] == cs[i + 1];
    }
  }

  /** A first candidate after which the rest matches is taken. */
  lemma FirstMatchHead(ds: seq<Directive>, s: string, cs: seq<Candidate>)
    requires ds != [] && cs != [] && Fits(cs, s) && After(ds, s, cs[0]).Some?
    ensures FirstMatch(ds, s, cs).Some?
    ensures FirstMatch(ds, s, cs).value.values == [cs[0].value] + After(ds, s, cs[0]).value.values
    ensures FirstMatch(ds, s, cs).value.end == cs[0].width + After(ds, s, cs[0]).value.end
  {
  }

  /** A first candidate after which the rest does not match is skipped. */
  lemma FirstMatchSkip(ds: seq<Directive>, s: string, cs: seq<Candidate>)
    requires ds != [] && cs != [] && Fits(cs, s) && After(ds, s, cs[0]).None?
    ensures FirstMatch(ds, s, cs) == FirstMatch(ds, s, cs[1..])
  {
  }

  /** The regex engine finds no match for `ds` exactly when no candidate
      of the first directive leads to a match of the rest. */
  lemma {:induction false} FirstMatchNone(ds: seq<Directive>, s: string, cs: seq<Candidate>)
    requires ds != [] && Fits(cs, s)
    ensures FirstMatch(ds, s, cs).None? <==> true !in Continues(ds, s, cs)
    decreases |cs|
  {
    if cs != [] && After(ds, s, cs[0]).None? {
      var tail := cs[1..];
      FitsTail(cs, s);
      FirstMatchNone(ds, s, tail);
      FirstMatchSkip(ds, s, cs);
      assert Continues(ds, s, cs) == [false] + Continues(ds, s, tail);
    }
  }

  /** The regex engine's choice: the candidates are tried in order, and
      the first one after which the rest of the directives match decides
      the match. */
  lemma {:induction false} FirstMatchWins(ds: seq<Directive>, s: string, cs: seq<Candidate>, i: nat)
    requires ds != [] && Fits(cs, s) && i < |cs|
    requires After(ds, s, cs[i]).Some? && true !in Continues(ds, s, cs)[..i]
    ensures FirstMatch(ds, s, cs).Some?
    ensures FirstMatch(ds, s, cs).value.values == [cs[i].value] + After(ds, s, cs[i]).value.values
    ensures FirstMatch(ds, s, cs).value.end == cs[i].width + After(ds, s, cs[i]).value.end
  {
    if i == 0 {
      FirstMatchHead(ds, s, cs);
    } else {
      var tail := cs[1..];
      PrefixTail(ds, s, cs, i);
      FitsTail(cs, s);
      FirstMatchSkip(ds, s, cs);
      assert tail[i - 1] == cs[i];
      FirstMatchWins(ds, s, tail, i - 1);
    }
  }

  /** No candidate before `i` continues: so not the first, and none before
      `i - 1` among the rest. */
  lemma PrefixTail(ds: seq<Directive>, s: string, cs: seq<Candidate>, i: nat)
    requires 0 < i < |cs| && true !in Continues(ds, s, cs)[..i]
    ensures After(ds, s, cs[0]).None? && true !in Continues(ds, s, cs[1..])[..i - 1]
  {
    var c := Continues(ds, s, cs);
    assert c == [After(ds, s, cs[0]).Some?] + Continues(ds, s, cs[1..]);
    assert c[..i] == [c[0]] + Continues(ds, s, cs[1..])[..i - 1];
    assert c[..i][0] == c[0];
  }

  /** One directive `d` in front of `ds`: its first candidate takes `head`. */
  lemma Step(d: Directive, ds: seq<Directive>, head: string, rest: string, c: Candidate, f: Found)
    requires Candidates(d, head + rest) != [] && Candidates(d, head + rest)[0] == c
    requires c.width == |head|
    requires Match(ds, rest) == Some(f)
    ensures Match([d] + ds, head + rest) == Some(Found([c.value] + f.values, c.width + f.end))
  {
    var s := head + rest;
    var p := [d] + ds;
    assert s[c.width..] == rest && p[1..] == ds;
    MatchStep(p, s, c, f, Found([c.value] + f.values, c.width + f.end));
  }

  /** The same match, with the arguments and the result written another way. */
  lemma Retag(ds: seq<Directive>, s: string, f: Found, ds': seq<Directive>, s': string, f': Found)
    requires Match(ds, s) == Some(f)
    requires ds == ds' && s == s' && f.values == f'.values && f.end == f'.end
    ensures Match(ds', s') == Some(f')
  {
    var r := Match(ds', s');
    assert r.value == f';
  }

  lemma Pad2Value(n: int)
    requires 0 <= n <= 99
    ensures DigitsValue(Pad2(n)) == n
  {
    var s := Pad2(n);
    assert s[..1] == [s[0]];
    assert DigitsValue(s[..1]) == DigitValue(s[0]);
  }

  lemma Pad4Value(n: int)
    requires 0 <= n <= 9999
    ensures DigitsValue(Pad4(n)) == n
  {
    var s := Pad4(n);
    var hi, lo := Pad2(n / 100), Pad2(n % 100);
    assert s[..3] == hi + [lo[0]];
    assert (hi + [lo[0]])[..2] == hi;
    Pad2Value(n / 100);
    assert DigitsValue(s[..3]) == 10 * (n / 100) + DigitValue(lo[0]);
  }

  /** The head candidate of each directive on a zero-padded field is that
      field at full width. */
  lemma YearHead(y: int, rest: string)
    requires 0 <= y <= 9999
    ensures Candidates(Year, Pad4(y) + rest) == [Candidate(y, 4)]
  {
    assert (Pad4(y) + rest)[..4] == Pad4(y);
    Pad4Value(y);
  }

  lemma TwoDigitHead(d: Directive, n: int, rest: string)
    requires d in {Month, Day, Hour, Minute, Second}
    requires d == Month ==> 1 <= n <= 12
    requires d == Day ==> 1 <= n <= 31
    requires d == Hour ==> 0 <= n <= 23
    requires d == Minute ==> 0 <= n <= 59
    requires d == Second ==> 0 <= n <= 61
    ensures Candidates(d, Pad2(n) + rest) != []
    ensures Candidates(d, Pad2(n) + rest)[0] == Candidate(n, 2)
  {
    var s := Pad2(n) + rest;
    assert s[0] == DigitChar(n / 10) && s[1] == DigitChar(n % 10);
  }

  /** A single digit is read alone when no two-digit alternative applies:
      nothing but a non-digit follows it, or it is a month from 2 to 9. */
  lemma OneDigitHead(d: Directive, n: int, rest: string)
    requires d in {Month, Day, Hour, Minute, Second}
    requires 0 <= n <= 9 && (d == Month || d == Day ==> 1 <= n)
    requires rest == [] || !IsDigit(rest[0]) || (d == Month && 2 <= n)
    ensures Candidates(d, [DigitChar(n)] + rest) != []
    ensures Candidates(d, [DigitChar(n)] + rest)[0] == Candidate(n, 1)
  {
    var s := [DigitChar(n)] + rest;
    assert s[0] == DigitChar(n) && s[1..] == rest;
  }

  lemma SpaceHead(rest: string)
    requires rest != [] && IsDigit(rest[0])
    ensures Candidates(Spaces, " " + rest) == [Candidate(0, 1)]
  {
    assert (" " + rest)[1..] == rest;
    assert !IsSpace(rest[0]);
    assert LeadingSpaces(rest) == 0;
    assert LeadingSpaces(" " + rest) == 1;
    assert SpaceRuns(1) == [Candidate(0, 1)] + SpaceRuns(0);
  }

  lemma ColonHead(rest: string)
    ensures Candidates(Colon, ":" + rest) == [Candidate(0, 1)]
  {
  }

  /** No directives match the empty prefix of anything. */
  lemma MatchNothing(rest: string)
    ensures Match([], rest) == Some(Found([], 0))
  {
  }

  /** One field in front of a match of the remaining directives (the
      lemmas below add one directive each). */
  lemma YearStep(y: int, ds: seq<Directive>, rest: string, f: Found)
    requires 0 <= y <= 9999
    requires Match(ds, rest) == Some(f)
    ensures Match([Year] + ds, Pad4(y) + rest) == Some(Found([y] + f.values, 4 + f.end))
  {
    YearHead(y, rest);
    Step(Year, ds, Pad4(y), rest, Candidate(y, 4), f);
  }

  lemma TwoDigitStep(d: Directive, n: int, ds: seq<Directive>, rest: string, f: Found)
    requires d in {Month, Day, Hour, Minute, Second}
    requires d == Month ==> 1 <= n <= 12
    requires d == Day ==> 1 <= n <= 31
    requires d == Hour ==> 0 <= n <= 23
    requires d == Minute ==> 0 <= n <= 59
    requires d == Second ==> 0 <= n <= 61
    requires Match(ds, rest) == Some(f)
    ensures Match([d] + ds, Pad2(n) + rest) == Some(Found([n] + f.values, 2 + f.end))
  {
    TwoDigitHead(d, n, rest);
    Step(d, ds, Pad2(n), rest, Candidate(n, 2), f);
  }

  lemma OneDigitStep(d: Directive, n: int, ds: seq<Directive>, rest: string, f: Found)
    requires d in {Month, Day, Hour, Minute, Second}
    requires 0 <= n <= 9 && (d == Month || d == Day ==> 1 <= n)
    requires rest == [] || !IsDigit(rest[0]) || (d == Month && 2 <= n)
    requires Match(ds, rest) == Some(f)
    ensures Match([d] + ds, [DigitChar(n)] + rest) == Some(Found([n] + f.values, 1 + f.end))
  {
    OneDigitHead(d, n, rest);
    Step(d, ds, [DigitChar(n)], rest, Candidate(n, 1), f);
  }

  lemma SpaceStep(ds: seq<Directive>, rest: string, f: Found)
    requires rest != [] && IsDigit(rest[0])
    requires Match(ds, rest) == Some(f)
    ensures Match([Spaces] + ds, " " + rest) == Some(Found([0] + f.values, 1 + f.end))
  {
    SpaceHead(rest);
    Step(Spaces, ds, " ", rest, Candidate(0, 1), f);
  }

  lemma ColonStep(ds: seq<Directive>, rest: string, f: Found)
    requires Match(ds, rest) == Some(f)
    ensures Match([Colon] + ds, ":" + rest) == Some(Found([0] + f.values, 1 + f.end))
  {
    ColonHead(rest);
    Step(Colon, ds, ":", rest, Candidate(0, 1), f);
  }

  const ClockPattern: seq<Directive> := [Hour, Colon, Minute, Colon, Second]

  /** The directive lists and field lists the steps build, written out. */
  lemma ClockParts(h: int, mi: int, sec: int)
    ensures [Minute] + ([Colon] + ([Second] + [])) == [Minute, Colon, Second]
    ensures [mi] + ([0] + ([sec] + [])) == [mi, 0, sec]
    ensures [Hour] + ([Colon] + [Minute, Colon, Second]) == ClockPattern
    ensures [h] + ([0] + [mi, 0, sec]) == [h, 0, mi, 0, sec]
  {
  }

  lemma DateParts(y: int, m: int, d: int, h: int, mi: int, sec: int)
    ensures [Year] + ([Month] + ([Day] + ([Spaces] + ClockPattern))) == Pattern
    ensures [y] + ([m] + ([d] + ([0] + [h, 0, mi, 0, sec]))) == [y, m, d, 0, h, 0, mi, 0, sec]
  {
  }

  /** `MM:SS` followed by anything. */
  lemma MatchMinuteSecond(mi: int, sec: int, rest: string)
    requires 0 <= mi <= 59 && 0 <= sec <= 61
    ensures Match([Minute, Colon, Second], Pad2(mi) + (":" + (Pad2(sec) + rest))) == Some(Found([mi, 0, sec], 5))
  {
    MatchNothing(rest);
    TwoDigitStep(Second, sec, [], rest, Found([], 0));
    var f1 := Found([sec] + [], 2 + 0);
    ColonStep([Second] + [], Pad2(sec) + rest, f1);
    var f2 := Found([0] + f1.values, 1 + f1.end);
    TwoDigitStep(Minute, mi, [Colon] + ([Second] + []), ":" + (Pad2(sec) + rest), f2);
    ClockParts(0, mi, sec);
    Retag([Minute] + ([Colon] + ([Second] + [])), Pad2(mi) + (":" + (Pad2(sec) + rest)), Found([mi] + f2.values, 2 + f2.end),
      [Minute, Colon, Second], Pad2(mi) + (":" + (Pad2(sec) + rest)), Found([mi, 0, sec], 5));
  }

  /** `HH:MM:SS` followed by anything. */
  lemma MatchClock(h: int, mi: int, sec: int, rest: string)
    requires 0 <= h <= 23 && 0 <= mi <= 59 && 0 <= sec <= 61
    ensures Match(ClockPattern, Pad2(h) + (":" + (Pad2(mi) + (":" + (Pad2(sec) + rest)))))
         == Some(Found([h, 0, mi, 0, sec], 8))
  {
    var s1 := Pad2(mi) + (":" + (Pad2(sec) + rest));
    var f1 := Found([mi, 0, sec], 5);
    MatchMinuteSecond(mi, sec, rest);
    ColonStep([Minute, Colon, Second], s1, f1);
    var f2 := Found([0] + f1.values, 1 + f1.end);
    TwoDigitStep(Hour, h, [Colon] + [Minute, Colon, Second], ":" + s1, f2);
    ClockParts(h, mi, sec);
    Retag([Hour] + ([Colon] + [Minute, Colon, Second]), Pad2(h) + (":" + s1), Found([h] + f2.values, 2 + f2.end),
      ClockPattern, Pad2(h) + (":" + s1), Found([h, 0, mi, 0, sec], 8));
  }

  /** The fixed-width layout `YYYYMMDD HH:MM:SS` of any field values in
      the ranges the regex's two-digit alternatives cover, valid date or not. */
  function Layout(y: int, m: int, d: int, h: int, mi: int, sec: int): (s: string)
    requires 0 <= y <= 9999 && 1 <= m <= 12 && 1 <= d <= 31
    requires 0 <= h <= 23 && 0 <= mi <= 59 && 0 <= sec <= 61
    ensures |s| == 17
  {
    Pad4(y) + (Pad2(m) + (Pad2(d) + (" " + (Pad2(h) + (":" + (Pad2(mi) + (":" + Pad2(sec))))))))
  }

  lemma LayoutOfFormat(t: DateTime)
    requires Valid(t)
    ensures FormatTime(t) == Layout(t.year, t.month, t.day, t.hour, t.minute, t.second)
  {
  }

  /** The layout followed by `rest`, with `rest` moved to the innermost field. */
  lemma LayoutText(y: int, m: int, d: int, h: int, mi: int, sec: int, rest: string)
    requires 0 <= y <= 9999 && 1 <= m <= 12 && 1 <= d <= 31
    requires 0 <= h <= 23 && 0 <= mi <= 59 && 0 <= sec <= 61
    ensures Layout(y, m, d, h, mi, sec) + rest
         == Pad4(y) + (Pad2(m) + (Pad2(d) + (" " + (Pad2(h) + (":" + (Pad2(mi) + (":" + (Pad2(sec) + rest))))))))
  {
  }

  /** The regex reads a laid-out timestamp field by field, whatever follows. */
  lemma MatchLayout(y: int, m: int, d: int, h: int, mi: int, sec: int, rest: string)
    requires 0 <= y <= 9999 && 1 <= m <= 12 && 1 <= d <= 31
    requires 0 <= h <= 23 && 0 <= mi <= 59 && 0 <= sec <= 61
    ensures Match(Pattern, Layout(y, m, d, h, mi, sec) + rest) ==
      Some(Found([y, m, d, 0, h, 0, mi, 0, sec], 17))
  {
    var s1 := Pad2(h) + (":" + (Pad2(mi) + (":" + (Pad2(sec) + rest))));
    var f1 := Found([h, 0, mi, 0, sec], 8);
    MatchClock(h, mi, sec, rest);
    assert s1[0] == Pad2(h)[0];
    SpaceStep(ClockPattern, s1, f1);
    var f2 := Found([0] + f1.values, 1 + f1.end);
    TwoDigitStep(Day, d, [Spaces] + ClockPattern, " " + s1, f2);
    var f3 := Found([d] + f2.values, 2 + f2.end);
    TwoDigitStep(Month, m, [Day] + ([Spaces] + ClockPattern), Pad2(d) + (" " + s1), f3);
    var f4 := Found([m] + f3.values, 2 + f3.end);
    YearStep(y, [Month] + ([Day] + ([Spaces] + ClockPattern)), Pad2(m) + (Pad2(d) + (" " + s1)), f4);
    DateParts(y, m, d, h, mi, sec);
    LayoutText(y, m, d, h, mi, sec, rest);
    Retag([Year] + ([Month] + ([Day] + ([Spaces] + ClockPattern))), Pad4(y) + (Pad2(m) + (Pad2(d) + (" " + s1))),
      Found([y] + f4.values, 4 + f4.end),
      Pattern, Layout(y, m, d, h, mi, sec) + rest, Found([y, m, d, 0, h, 0, mi, 0, sec], 17));
  }

  /** On the fixed-width layout, strptime succeeds exactly when the fields
      make a real date and time (year 0, 31 April, 29 February of a common
      year and seconds 60 and 61 are refused), and then returns them. */
  lemma ParseLayout(y: int, m: int, d: int, h: int, mi: int, sec: int)
    requires 0 <= y <= 9999 && 1 <= m <= 12 && 1 <= d <= 31
    requires 0 <= h <= 23 && 0 <= mi <= 59 && 0 <= sec <= 61
    ensures var t := DateTime(y, m, d, h, mi, sec);
      ParseTime(Layout(y, m, d, h, mi, sec)) == if Valid(t) then Success(t) else Failure(OutOfRange)
  {
    var s := Layout(y, m, d, h, mi, sec);
    MatchLayout(y, m, d, h, mi, sec, "");
    assert s + "" == s;
    ParseOfMatch(s, Found([y, m, d, 0, h, 0, mi, 0, sec], 17));
  }

  /** strptime's answer once the regex has found `f`. */
  lemma ParseOfMatch(s: string, f: Found)
    requires Match(Pattern, s) == Some(f)
    ensures ParseTime(s) == FromMatch(s, Some(f))
  {
  }

  /** Parsing the feed's zero-padded layout of any valid `t` gives `t` back. */
  lemma ParseFormat(t: DateTime)
    requires Valid(t)
    ensures ParseTime(FormatTime(t)) == Success(t)
  {
    LayoutOfFormat(t);
    ParseLayout(t.year, t.month, t.day, t.hour, t.minute, t.second);
  }

  /** Anything after a complete timestamp is "unconverted data". */
  lemma ParseTrailing(t: DateTime, rest: string)
    requires Valid(t) && rest != []
    ensures ParseTime(FormatTime(t) + rest) == Failure(UnconvertedData)
  {
    LayoutOfFormat(t);
    MatchLayout(t.year, t.month, t.day, t.hour, t.minute, t.second, rest);
  }

  lemma FormatExample()
    ensures FormatTime(DateTime(2013, 6, 15, 8, 30, 0)) == "20130615 08:30:00"
  {
  }

  /** Text that does not start with four digits is refused. */
  lemma ParseMalformed(s: string)
    requires |s| < 4 || !AllDigits(s[..4])
    ensures ParseTime(s).Failure?
  {
  }

  lemma ParseBad()
    ensures ParseTime("bad") == Failure(NoMatch)
  {
  }

  /** The example the feed documents: 15 June 2013, 08:30:00. */
  lemma ParseExample()
    ensures ParseTime("20130615 08:30:00") == Success(DateTime(2013, 6, 15, 8, 30, 0))
  {
    FormatExample();
    ParseFormat(DateTime(2013, 6, 15, 8, 30, 0));
  }

  lemma ImpossibleDayText()
    ensures Layout(2013, 11, 31, 8, 0, 0) == "20131131 08:00:00"
  {
    var clock := Pad2(8) + (":" + (Pad2(0) + (":" + Pad2(0))));
    assert clock == "08:00:00";
    assert Pad2(31) + (" " + clock) == "31 08:00:00";
    assert Pad4(2013) + (Pad2(11) + "31 08:00:00") == "20131131 08:00:00";
  }

  lemma LeapSecondText()
    ensures Layout(2013, 6, 15, 8, 30, 60) == "20130615 08:30:60"
  {
    var clock := Pad2(8) + (":" + (Pad2(30) + (":" + Pad2(60))));
    assert clock == "08:30:60";
    assert Pad2(15) + (" " + clock) == "15 08:30:60";
    assert Pad4(2013) + (Pad2(6) + "15 08:30:60") == "20130615 08:30:60";
  }

  /** 31 November matches the regex and is then refused by `datetime`. */
  lemma ParseImpossibleDay()
    ensures ParseTime("20131131 08:00:00") == Failure(OutOfRange)
  {
    ParseLayout(2013, 11, 31, 8, 0, 0);
    ImpossibleDayText();
  }

  /** A leap second, likewise. */
  lemma ParseLeapSecond()
    ensures ParseTime("20130615 08:30:60") == Failure(OutOfRange)
  {
    ParseLayout(2013, 6, 15, 8, 30, 60);
    LeapSecondText();
  }

  /** "2013615 8:30:0", built field by field. */
  lemma ShortText()
    ensures Pad4(2013) + ([DigitChar(6)] + (Pad2(15) + (" " + ([DigitChar(8)] + (":" + (Pad2(30) + (":" + ([DigitChar(0)] + ""))))))))
         == "2013615 8:30:0"
  {
  }

  /** The one-digit clock `8:30:0` at the end of the input. */
  lemma MatchShortClock()
    ensures Match(ClockPattern, [DigitChar(8)] + (":" + (Pad2(30) + (":" + ([DigitChar(0)] + "")))))
         == Some(Found([8, 0, 30, 0, 0], 6))
  {
    var s1 := [DigitChar(0)] + "";
    var s2 := Pad2(30) + (":" + s1);
    MatchNothing("");
    OneDigitStep(Second, 0, [], "", Found([], 0));
    var f1 := Found([0] + [], 1 + 0);
    ColonStep([Second] + [], s1, f1);
    var f2 := Found([0] + f1.values, 1 + f1.end);
    TwoDigitStep(Minute, 30, [Colon] + ([Second] + []), ":" + s1, f2);
    var f3 := Found([30] + f2.values, 2 + f2.end);
    ClockParts(8, 30, 0);
    Retag([Minute] + ([Colon] + ([Second] + [])), s2, f3, [Minute, Colon, Second], s2, Found([30, 0, 0], 4));
    ColonStep([Minute, Colon, Second], s2, Found([30, 0, 0], 4));
    var f4 := Found([0] + [30, 0, 0], 1 + 4);
    assert (":" + s2)[0] == ':';
    OneDigitStep(Hour, 8, [Colon] + [Minute, Colon, Second], ":" + s2, f4);
    Retag([Hour] + ([Colon] + [Minute, Colon, Second]), [DigitChar(8)] + (":" + s2), Found([8] + f4.values, 1 + f4.end),
      ClockPattern, [DigitChar(8)] + (":" + s2), Found([8, 0, 30, 0, 0], 6));
  }

  /** The regex also takes one-digit fields: "2013615 8:30:0" is
      15 June 2013, 08:30:00, not a malformed timestamp. */
  lemma MatchShortDate()
    ensures Match(Pattern, "2013615 8:30:0") == Some(Found([2013, 6, 15, 0, 8, 0, 30, 0, 0], 14))
  {
    var s1 := [DigitChar(8)] + (":" + (Pad2(30) + (":" + ([DigitChar(0)] + ""))));
    var f1 := Found([8, 0, 30, 0, 0], 6);
    MatchShortClock();
    SpaceStep(ClockPattern, s1, f1);
    var f2 := Found([0] + f1.values, 1 + f1.end);
    TwoDigitStep(Day, 15, [Spaces] + ClockPattern, " " + s1, f2);
    var f3 := Found([15] + f2.values, 2 + f2.end);
    OneDigitStep(Month, 6, [Day] + ([Spaces] + ClockPattern), Pad2(15) + (" " + s1), f3);
    var f4 := Found([6] + f3.values, 1 + f3.end);
    YearStep(2013, [Month] + ([Day] + ([Spaces] + ClockPattern)), [DigitChar(6)] + (Pad2(15) + (" " + s1)), f4);
    DateParts(2013, 6, 15, 8, 30, 0);
    ShortText();
    Retag([Year] + ([Month] + ([Day] + ([Spaces] + ClockPattern))), Pad4(2013) + ([DigitChar(6)] + (Pad2(15) + (" " + s1))),
      Found([2013] + f4.values, 4 + f4.end),
      Pattern, "2013615 8:30:0", Found([2013, 6, 15, 0, 8, 0, 30, 0, 0], 14));
  }

  lemma ParseShortFields()
    ensures ParseTime("2013615 8:30:0") == Success(DateTime(2013, 6, 15, 8, 30, 0))
  {
    MatchShortDate();
    ParseOfMatch("2013615 8:30:0", Found([2013, 6, 15, 0, 8, 0, 30, 0, 0], 14));
    ConvertShortFields();
  }

  lemma ConvertShortFields()
    ensures FromMatch("2013615 8:30:0", Some(Found([2013, 6, 15, 0, 8, 0, 30, 0, 0], 14)))
         == Success(DateTime(2013, 6, 15, 8, 30, 0))
  {
  }

  /** "2013112 08:30:00", built field by field. */
  lemma AmbiguousText()
    ensures Pad4(2013) + (Pad2(11) + ([DigitChar(2)] + (" " + (Pad2(8) + (":" + (Pad2(30) + (":" + (Pad2(0) + ""))))))))
         == "2013112 08:30:00"
  {
  }

  lemma MatchAmbiguousDate()
    ensures Match(Pattern, "2013112 08:30:00") == Some(Found([2013, 11, 2, 0, 8, 0, 30, 0, 0], 16))
  {
    var s1 := Pad2(8) + (":" + (Pad2(30) + (":" + (Pad2(0) + ""))));
    var f1 := Found([8, 0, 30, 0, 0], 8);
    MatchClock(8, 30, 0, "");
    assert s1[0] == Pad2(8)[0];
    SpaceStep(ClockPattern, s1, f1);
    var f2 := Found([0] + f1.values, 1 + f1.end);
    assert (" " + s1)[0] == ' ';
    OneDigitStep(Day, 2, [Spaces] + ClockPattern, " " + s1, f2);
    var f3 := Found([2] + f2.values, 1 + f2.end);
    TwoDigitStep(Month, 11, [Day] + ([Spaces] + ClockPattern), [DigitChar(2)] + (" " + s1), f3);
    var f4 := Found([11] + f3.values, 2 + f3.end);
    YearStep(2013, [Month] + ([Day] + ([Spaces] + ClockPattern)), Pad2(11) + ([DigitChar(2)] + (" " + s1)), f4);
    DateParts(2013, 11, 2, 8, 30, 0);
    AmbiguousText();
    Retag([Year] + ([Month] + ([Day] + ([Spaces] + ClockPattern))), Pad4(2013) + (Pad2(11) + ([DigitChar(2)] + (" " + s1))),
      Found([2013] + f4.values, 4 + f4.end),
      Pattern, "2013112 08:30:00", Found([2013, 11, 2, 0, 8, 0, 30, 0, 0], 16));
  }

  /** Without separators the split is the regex's first choice: "2013112"
      is 2 November, never 12 January. */
  lemma ParseAmbiguousDate()
    ensures ParseTime("2013112 08:30:00") == Success(DateTime(2013, 11, 2, 8, 30, 0))
  {
    MatchAmbiguousDate();
    ParseOfMatch("2013112 08:30:00", Found([2013, 11, 2, 0, 8, 0, 30, 0, 0], 16));
    ConvertAmbiguousDate();
  }

  lemma ConvertAmbiguousDate()
    ensures FromMatch("2013112 08:30:00", Some(Found([2013, 11, 2, 0, 8, 0, 30, 0, 0], 16)))
         == Success(DateTime(2013, 11, 2, 8, 30, 0))
  {
  }
}

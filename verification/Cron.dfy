/** The cron-schedule recogniser and the grammar it stands for. */
module Cron {
  import opened Types
  import opened Regex
  import Decimal

  // ---- the expression of the recogniser ----

  /** d followed by a digit up to hi. */
  function Tens(d: char, hi: char): Regex { Cat(Ch(d), Chars('0', hi)) }

  const MINUTE: Regex :=
    Alt(Chars('0', '9'), Alt(Tens('1', '9'), Alt(Tens('2', '9'), Alt(Tens('3', '9'),
        Alt(Tens('4', '9'), Tens('5', '9'))))))
  const HOUR: Regex := Alt(Chars('0', '9'), Alt(Tens('1', '9'), Tens('2', '3')))
  const DAY: Regex := Alt(Chars('1', '9'), Alt(Tens('1', '9'), Alt(Tens('2', '9'), Tens('3', '1'))))
  const MONTH: Regex := Alt(Chars('1', '9'), Tens('1', '2'))
  const WEEKDAY: Regex := Chars('0', '6')

  function FieldRegex(number: Regex): Regex {
    Alt(Ch('*'), Alt(number, Cat(Ch('*'), Cat(Ch('/'), number))))
  }

  /** The expressions one after the other, with single spaces in between. */
  function Spaced(rs: seq<Regex>): Regex
    requires rs != []
  {
    if |rs| == 1 then rs[0] else Cat(rs[0], Cat(Ch(' '), Spaced(rs[1..])))
  }

  const NUMBERS: seq<Regex> := [MINUTE, HOUR, DAY, MONTH, WEEKDAY]

  const FIELDS: seq<Regex> :=
    [FieldRegex(MINUTE), FieldRegex(HOUR), FieldRegex(DAY), FieldRegex(MONTH), FieldRegex(WEEKDAY)]

  /** isValidCronSchedule. */
  predicate IsValidCronSchedule(s: string) { Accepts(Spaced(FIELDS), s) }

  // ---- the grammar ----

  datatype Field = Any | At(n: nat) | Every(step: nat)

  /** Minute, hour, day of the month, month and day of the week, in this order. */
  datatype Schedule = Schedule(minute: Field, hour: Field, day: Field, month: Field, weekday: Field)

  datatype Range = Range(lo: nat, hi: nat)

  /** The ranges of the crontab utility (INPUT FILES section, IEEE Std 1003.1). */
  const RANGES: seq<Range> := [Range(0, 59), Range(0, 23), Range(1, 31), Range(1, 12), Range(0, 6)]

  predicate Within(f: Field, r: Range) {
    match f
    case Any => true
    case At(n) => r.lo <= n <= r.hi
    case Every(n) => r.lo <= n <= r.hi
  }

  predicate Valid(x: Schedule) {
    && Within(x.minute, RANGES[0]) && Within(x.hour, RANGES[1]) && Within(x.day, RANGES[2])
    && Within(x.month, RANGES[3]) && Within(x.weekday, RANGES[4])
  }

  function ShowField(f: Field): string {
    match f
    case Any => "*"
    case At(n) => Decimal.Print(n)
    case Every(n) => "*/" + Decimal.Print(n)
  }

  function Show(x: Schedule): string {
    Join([ShowField(x.minute), ShowField(x.hour), ShowField(x.day), ShowField(x.month), ShowField(x.weekday)])
  }

  function Join(parts: seq<string>): string
    requires parts != []
  {
    if |parts| == 1 then parts[0] else parts[0] + " " + Join(parts[1..])
  }

  /** The parts between the spaces. */
  function Split(s: string): (parts: seq<string>)
    ensures parts != []
  {
    if s == [] then [""]
    else
      var rest := Split(s[1..]);
      if s[0] == ' ' then [""] + rest else [[s[0]] + rest[0]] + rest[1..]
  }

  function ParseNumber(t: string, r: Range): Option<nat> {
    if Decimal.Canonical(t) && r.lo <= Decimal.Value(t) <= r.hi then Some(Decimal.Value(t)) else None
  }

  function ParseField(t: string, r: Range): Option<Field> {
    if t == "*" then Some(Any)
    else if |t| >= 2 && t[0] == '*' && t[1] == '/' then
      match ParseNumber(t[2..], r) case Some(n) => Some(Every(n)) case None => None
    else
      match ParseNumber(t, r) case Some(n) => Some(At(n)) case None => None
  }

  function Parse(s: string): Option<Schedule> {
    var parts := Split(s);
    if |parts| != 5 then None
    else
      var (a, b, c, d, e) := (ParseField(parts[0], RANGES[0]), ParseField(parts[1], RANGES[1]),
                              ParseField(parts[2], RANGES[2]),
                              ParseField(parts[3], RANGES[3]), ParseField(parts[4], RANGES[4]));
      if a.None? || b.None? || c.None? || d.None? || e.None? then None
      else Some(Schedule(a.value, b.value, c.value, d.value, e.value))
  }

  // ---- numbers ----

  lemma TensIff(d: char, hi: char, s: string)
    ensures Matches(Tens(d, hi), s) <==> |s| == 2 && s[0] == d && '0' <= s[1] <= hi
  {
    if Matches(Tens(d, hi), s) {
      var i :| 0 <= i <= |s| && Matches(Ch(d), s[..i]) && Matches(Chars('0', hi), s[i..]);
    }
    if |s| == 2 && s[0] == d && '0' <= s[1] <= hi {
      assert s[..1] == [d] && s[1..] == [s[1]];
      CatIntro(Ch(d), Chars('0', hi), [d], [s[1]]);
      assert s == [d] + [s[1]];
    }
  }

  /** The value of numerals of one, two and more digits. */
  lemma {:induction false} SmallValues(s: string)
    requires Decimal.Canonical(s)
    ensures |s| == 1 ==> Decimal.Value(s) == Decimal.DigitValue(s[0])
    ensures |s| == 2 ==> Decimal.Value(s) == 10 * Decimal.DigitValue(s[0]) + Decimal.DigitValue(s[1]) >= 10
    ensures |s| >= 3 ==> Decimal.Value(s) >= 100
  {
    var front := s[..|s| - 1];
    if |s| == 1 {
      assert Decimal.Value(front) == 0;
    } else {
      assert s[0] != '0' && front[0] == s[0];
      SmallValues(front);
    }
  }

  ghost predicate IsNumberFor(number: Regex, r: Range) {
    forall s :: Matches(number, s) <==> ParseNumber(s, r).Some?
  }

  lemma CharsIff(lo: char, hi: char, s: string)
    ensures Matches(Chars(lo, hi), s) <==> |s| == 1 && lo <= s[0] <= hi
  {
  }

  predicate Digit(c: char) { '0' <= c <= '9' }

  /** Numerals within a range below 100, by their digits. */
  lemma NumeralIff(s: string, r: Range)
    requires r.hi < 100
    ensures ParseNumber(s, r).Some? <==>
            || (|s| == 1 && Digit(s[0]) && r.lo <= s[0] as int - 48 <= r.hi)
            || (|s| == 2 && Digit(s[0]) && Digit(s[1]) && s[0] != '0'
                && r.lo <= 10 * (s[0] as int - 48) + (s[1] as int - 48) <= r.hi)
  {
    if Decimal.Canonical(s) {
      SmallValues(s);
    }
  }

  /** Ten to fifty-nine. */
  lemma HighMinuteIff(s: string)
    ensures Matches(MINUTE.right, s) <==> |s| == 2 && '1' <= s[0] <= '5' && Digit(s[1])
  {
    AltIff(MINUTE.right.left, MINUTE.right.right, s);
    AltIff(MINUTE.right.right.left, MINUTE.right.right.right, s);
    AltIff(MINUTE.right.right.right.left, MINUTE.right.right.right.right, s);
    AltIff(MINUTE.right.right.right.right.left, MINUTE.right.right.right.right.right, s);
    TensIff('1', '9', s);
    TensIff('2', '9', s);
    TensIff('3', '9', s);
    TensIff('4', '9', s);
    TensIff('5', '9', s);
    hide Matches;
  }

  lemma MinuteIff(s: string)
    ensures Matches(MINUTE, s) <==> ParseNumber(s, RANGES[0]).Some?
  {
    AltIff(MINUTE.left, MINUTE.right, s);
    CharsIff('0', '9', s);
    HighMinuteIff(s);
    NumeralIff(s, RANGES[0]);
    hide Matches, ParseNumber;
  }

  lemma HourIff(s: string)
    ensures Matches(HOUR, s) <==> ParseNumber(s, RANGES[1]).Some?
  {
    AltIff(HOUR.left, HOUR.right, s);
    AltIff(HOUR.right.left, HOUR.right.right, s);
    CharsIff('0', '9', s);
    TensIff('1', '9', s);
    TensIff('2', '3', s);
    NumeralIff(s, RANGES[1]);
    hide Matches, ParseNumber;
  }

  lemma DayIff(s: string)
    ensures Matches(DAY, s) <==> ParseNumber(s, RANGES[2]).Some?
  {
    AltIff(DAY.left, DAY.right, s);
    AltIff(DAY.right.left, DAY.right.right, s);
    AltIff(DAY.right.right.left, DAY.right.right.right, s);
    CharsIff('1', '9', s);
    TensIff('1', '9', s);
    TensIff('2', '9', s);
    TensIff('3', '1', s);
    NumeralIff(s, RANGES[2]);
    hide Matches, ParseNumber;
  }

  lemma MonthIff(s: string)
    ensures Matches(MONTH, s) <==> ParseNumber(s, RANGES[3]).Some?
  {
    AltIff(MONTH.left, MONTH.right, s);
    CharsIff('1', '9', s);
    TensIff('1', '2', s);
    NumeralIff(s, RANGES[3]);
    hide Matches, ParseNumber;
  }

  lemma WeekdayIff(s: string)
    ensures Matches(WEEKDAY, s) <==> ParseNumber(s, RANGES[4]).Some?
  {
    if Decimal.Canonical(s) {
      SmallValues(s);
    }
  }

  lemma NumbersAreRanges()
    ensures forall k :: 0 <= k < 5 ==> IsNumberFor(NUMBERS[k], RANGES[k])
  {
    hide ParseNumber, Matches, MINUTE, HOUR, DAY, MONTH, WEEKDAY;
    forall s { MinuteIff(s); }
    forall s { HourIff(s); }
    forall s { DayIff(s); }
    forall s { MonthIff(s); }
    forall s { WeekdayIff(s); }
  }

  // ---- fields ----

  lemma {:induction false} ParseNumberIff(t: string, r: Range, n: nat)
    ensures ParseNumber(t, r) == Some(n) <==> r.lo <= n <= r.hi && t == Decimal.Print(n)
  {
    Decimal.ValueOfPrint(n);
    Decimal.PrintCanonical(n);
    if Decimal.Canonical(t) {
      Decimal.PrintOfValue(t);
    }
  }

  /** A field has exactly one parse, and it is the field whose print it is. */
  lemma ParseFieldIff(t: string, r: Range, f: Field)
    ensures ParseField(t, r) == Some(f) <==> Within(f, r) && t == ShowField(f)
  {
    if f.At? {
      ParseNumberIff(t, r, f.n);
    }
    if f.Every? {
      ParseNumberIff(t[if |t| >= 2 then 2 else 0..], r, f.step);
      var shown := ShowField(f);
      assert shown[2..] == Decimal.Print(f.step);
      if |t| >= 2 && t[0] == '*' && t[1] == '/' && t[2..] == Decimal.Print(f.step) {
        assert t == "*/" + t[2..];
      }
    }
  }

  /** "*" and "/" before a number. */
  lemma StepRegexIff(number: Regex, t: string)
    ensures Matches(Cat(Ch('*'), Cat(Ch('/'), number)), t) <==>
            |t| >= 2 && t[0] == '*' && t[1] == '/' && Matches(number, t[2..])
  {
    hide Matches;
    CharsIff('*', '*', "*");
    CharsIff('/', '/', "/");
    if Matches(Cat(Ch('*'), Cat(Ch('/'), number)), t) {
      var star, more := CatElim(Ch('*'), Cat(Ch('/'), number), t);
      var slash, rest := CatElim(Ch('/'), number, more);
      CharsIff('*', '*', star);
      CharsIff('/', '/', slash);
      assert rest == t[2..];
    }
    if |t| >= 2 && t[0] == '*' && t[1] == '/' && Matches(number, t[2..]) {
      CatIntro(Ch('/'), number, "/", t[2..]);
      CatIntro(Ch('*'), Cat(Ch('/'), number), "*", "/" + t[2..]);
      assert t == "*" + ("/" + t[2..]);
    }
  }

  lemma FieldRegexIff(number: Regex, r: Range, t: string)
    requires IsNumberFor(number, r)
    ensures Matches(FieldRegex(number), t) <==> ParseField(t, r).Some?
  {
    var step := Cat(Ch('*'), Cat(Ch('/'), number));
    StepRegexIff(number, t);
    CharsIff('*', '*', t);
    AltIff(number, step, t);
    AltIff(Ch('*'), Alt(number, step), t);
    hide Matches, ParseNumber;
    assert Matches(number, t) <==> ParseNumber(t, r).Some?;
    assert |t| >= 2 ==> (Matches(number, t[2..]) <==> ParseNumber(t[2..], r).Some?);
    if t != [] && t[0] == '*' {
      StarIsNoNumber(t, r);
    }
  }

  lemma StarIsNoNumber(t: string, r: Range)
    requires t != [] && t[0] == '*'
    ensures ParseNumber(t, r).None?
  {
  }

  predicate NoSpace(t: string) { forall i :: 0 <= i < |t| ==> t[i] != ' ' }

  lemma ShowFieldNoSpace(f: Field)
    ensures NoSpace(ShowField(f))
  {
  }

  // ---- splitting and joining ----

  lemma JoinEmptyFirst(rest: seq<string>)
    requires rest != []
    ensures Join([""] + rest) == " " + Join(rest)
  {
    assert ([""] + rest)[1..] == rest;
  }

  lemma JoinPush(c: char, parts: seq<string>)
    requires parts != []
    ensures Join([[c] + parts[0]] + parts[1..]) == [c] + Join(parts)
  {
    var pushed := [[c] + parts[0]] + parts[1..];
    assert pushed[1..] == parts[1..];
    if |parts| > 1 {
      var tail := Join(parts[1..]);
      assert ([c] + parts[0]) + " " + tail == [c] + (parts[0] + " " + tail);
    }
  }

  lemma {:induction false} JoinSplit(s: string)
    ensures Join(Split(s)) == s
    ensures forall i :: 0 <= i < |Split(s)| ==> NoSpace(Split(s)[i])
  {
    if s != [] {
      JoinSplit(s[1..]);
      var rest := Split(s[1..]);
      JoinEmptyFirst(rest);
      JoinPush(s[0], rest);
      hide Join;
      assert s == [s[0]] + s[1..];
    }
  }

  lemma {:induction false} SplitJoin(parts: seq<string>)
    requires parts != [] && forall i :: 0 <= i < |parts| ==> NoSpace(parts[i])
    ensures Split(Join(parts)) == parts
    decreases |parts|, |parts[0]|
  {
    var s := Join(parts);
    if parts[0] == [] {
      if |parts| > 1 {
        SplitJoin(parts[1..]);
        assert s == [' '] + Join(parts[1..]);
        assert parts == [""] + parts[1..];
      } else {
        assert parts == [""];
      }
    } else {
      var shorter := [parts[0][1..]] + parts[1..];
      assert shorter[1..] == parts[1..];
      SplitJoin(shorter);
      assert s == [parts[0][0]] + Join(shorter);
      assert parts[0] == [parts[0][0]] + parts[0][1..];
    }
  }

  ghost predicate AllMatch(rs: seq<Regex>, parts: seq<string>) {
    |parts| == |rs| && forall i :: 0 <= i < |rs| ==> Matches(rs[i], parts[i])
  }

  lemma {:induction false} SpacedJoin(rs: seq<Regex>, parts: seq<string>)
    requires rs != [] && AllMatch(rs, parts)
    ensures Matches(Spaced(rs), Join(parts))
  {
    CharsIff(' ', ' ', " ");
    hide Matches;
    if |rs| > 1 {
      var (rest, after) := (Join(parts[1..]), Spaced(rs[1..]));
      SpacedJoin(rs[1..], parts[1..]);
      CatIntro(Ch(' '), after, " ", rest);
      CatIntro(rs[0], Cat(Ch(' '), after), parts[0], " " + rest);
      assert parts[0] + " " + rest == parts[0] + (" " + rest);
    }
  }

  lemma {:induction false} SpacedParts(rs: seq<Regex>, s: string) returns (parts: seq<string>)
    requires rs != [] && Matches(Spaced(rs), s)
    ensures AllMatch(rs, parts) && Join(parts) == s
  {
    hide Matches;
    if |rs| == 1 {
      parts := [s];
    } else {
      var first, more := CatElim(rs[0], Cat(Ch(' '), Spaced(rs[1..])), s);
      var space, tail := CatElim(Ch(' '), Spaced(rs[1..]), more);
      CharsIff(' ', ' ', space);
      assert space == " ";
      var rest := SpacedParts(rs[1..], tail);
      parts := [first] + rest;
      assert parts[1..] == rest;
      assert first + (" " + tail) == first + " " + tail;
    }
  }

  lemma FieldsIff(parts: seq<string>)
    requires |parts| == 5
    ensures AllMatch(FIELDS, parts) <==> forall k :: 0 <= k < 5 ==> ParseField(parts[k], RANGES[k]).Some?
  {
    NumbersAreRanges();
    forall k | 0 <= k < 5 ensures Matches(FIELDS[k], parts[k]) <==> ParseField(parts[k], RANGES[k]).Some? {
      assert FIELDS[k] == FieldRegex(NUMBERS[k]);
      FieldRegexIff(NUMBERS[k], RANGES[k], parts[k]);
    }
  }

  // ---- main results ----

  /** Parse and Show undo each other; hence a string has at most one parse. */
  lemma ParseIff(s: string, x: Schedule)
    ensures Parse(s) == Some(x) <==> Valid(x) && s == Show(x)
  {
    var shown := [ShowField(x.minute), ShowField(x.hour), ShowField(x.day), ShowField(x.month), ShowField(x.weekday)];
    forall i | 0 <= i < 5 ensures NoSpace(shown[i]) {
      ShowFieldNoSpace([x.minute, x.hour, x.day, x.month, x.weekday][i]);
    }
    JoinSplit(s);
    SplitJoin(shown);
    var parts := Split(s);
    if |parts| == 5 {
      ParseFieldIff(parts[0], RANGES[0], x.minute);
      ParseFieldIff(parts[1], RANGES[1], x.hour);
      ParseFieldIff(parts[2], RANGES[2], x.day);
      ParseFieldIff(parts[3], RANGES[3], x.month);
      ParseFieldIff(parts[4], RANGES[4], x.weekday);
      if Parse(s) == Some(x) {
        assert parts == shown;
      }
    }
  }

  /** The recogniser accepts exactly the strings that have a parse. */
  lemma RecogniserIsParser(s: string)
    ensures IsValidCronSchedule(s) <==> Parse(s).Some?
  {
    AcceptsIffMatches(Spaced(FIELDS), s);
    if Matches(Spaced(FIELDS), s) {
      var parts := SpacedParts(FIELDS, s);
      FieldsIff(parts);
      forall i | 0 <= i < 5 ensures NoSpace(parts[i]) {
        var f := ParseField(parts[i], RANGES[i]).value;
        ParseFieldIff(parts[i], RANGES[i], f);
        ShowFieldNoSpace(f);
      }
      SplitJoin(parts);
    }
    if Parse(s).Some? {
      FieldsIff(Split(s));
      JoinSplit(s);
      SpacedJoin(FIELDS, Split(s));
    }
  }

  /** ... that is, exactly the prints of the valid schedules. */
  lemma RecogniserEqualsGrammar(s: string)
    ensures IsValidCronSchedule(s) <==> exists x :: Valid(x) && s == Show(x)
    ensures forall x, y | Valid(x) && Valid(y) && s == Show(x) && s == Show(y) :: x == y
  {
    RecogniserIsParser(s);
    if Parse(s).Some? {
      ParseIff(s, Parse(s).value);
    }
    forall x | Valid(x) && s == Show(x) ensures Parse(s) == Some(x) {
      ParseIff(s, x);
    }
  }

  /** A schedule is determined by its print, valid or not. */
  lemma ShowInjective(x: Schedule, y: Schedule)
    requires Show(x) == Show(y)
    ensures x == y
  {
    var xs, ys := [x.minute, x.hour, x.day, x.month, x.weekday], [y.minute, y.hour, y.day, y.month, y.weekday];
    var shown, shown' := Shown(xs), Shown(ys);
    forall i | 0 <= i < 5 ensures NoSpace(shown[i]) && NoSpace(shown'[i]) {
      ShowFieldNoSpace(xs[i]);
      ShowFieldNoSpace(ys[i]);
    }
    SplitJoin(shown);
    SplitJoin(shown');
    ShowIsJoin(x);
    ShowIsJoin(y);
    hide Join, Split, ShowField, Show, NoSpace;
    forall i | 0 <= i < 5 ensures xs[i] == ys[i] {
      assert shown[i] == shown'[i];
      ShowFieldInjective(xs[i], ys[i]);
    }
    assert xs[0] == ys[0] && xs[1] == ys[1] && xs[2] == ys[2] && xs[3] == ys[3] && xs[4] == ys[4];
  }

  lemma ShowIsJoin(x: Schedule)
    ensures Show(x) == Join(Shown([x.minute, x.hour, x.day, x.month, x.weekday]))
  {
    assert Shown([x.minute, x.hour, x.day, x.month, x.weekday]) ==
      [ShowField(x.minute), ShowField(x.hour), ShowField(x.day), ShowField(x.month), ShowField(x.weekday)];
  }

  function Shown(fields: seq<Field>): seq<string> {
    seq(|fields|, i requires 0 <= i < |fields| => ShowField(fields[i]))
  }

  lemma ShowFieldInjective(f: Field, g: Field)
    requires ShowField(f) == ShowField(g)
    ensures f == g
  {
    var r := Range(0, match f case Any => 0 case At(n) => n case Every(n) => n);
    ParseFieldIff(ShowField(f), r, f);
    var r' := Range(0, r.hi + match g case Any => 0 case At(n) => n case Every(n) => n);
    ParseFieldIff(ShowField(f), r', f);
    ParseFieldIff(ShowField(f), r', g);
  }

  /** Among the prints of all schedules the recogniser selects those within the ranges. So a step of zero
      is accepted for minute, hour and weekday, whose ranges begin at zero, and refused for day and month. */
  lemma AcceptsPrintIff(x: Schedule)
    ensures IsValidCronSchedule(Show(x)) <==> Valid(x)
  {
    RecogniserEqualsGrammar(Show(x));
    if IsValidCronSchedule(Show(x)) {
      var y :| Valid(y) && Show(x) == Show(y);
      ShowInjective(x, y);
    }
  }
}

/** Regular expressions without repetition, what they denote, and a matcher by derivatives. */
module Regex {
  datatype Regex =
    | Never
    | Empty
    | Chars(lo: char, hi: char)
    | Cat(first: Regex, second: Regex)
    | Alt(left: Regex, right: Regex)

  function Ch(c: char): Regex { Chars(c, c) }

  /** Denotation: s as a whole belongs to the language of r. */
  ghost predicate Matches(r: Regex, s: string)
    decreases r
  {
    match r
    case Never => false
    case Empty => s == []
    case Chars(lo, hi) => |s| == 1 && lo <= s[0] <= hi
    case Cat(a, b) => exists i :: 0 <= i <= |s| && Matches(a, s[..i]) && Matches(b, s[i..])
    case Alt(a, b) => Matches(a, s) || Matches(b, s)
  }

  predicate Nullable(r: Regex) {
    match r
    case Never => false
    case Empty => true
    case Chars(_, _) => false
    case Cat(a, b) => Nullable(a) && Nullable(b)
    case Alt(a, b) => Nullable(a) || Nullable(b)
  }

  function Derivative(r: Regex, c: char): Regex {
    match r
    case Never => Never
    case Empty => Never
    case Chars(lo, hi) => if lo <= c <= hi then Empty else Never
    case Cat(a, b) =>
      if Nullable(a) then Alt(Cat(Derivative(a, c), b), Derivative(b, c)) else Cat(Derivative(a, c), b)
    case Alt(a, b) => Alt(Derivative(a, c), Derivative(b, c))
  }

  predicate Accepts(r: Regex, s: string)
    decreases |s|
  {
    if s == [] then Nullable(r) else Accepts(Derivative(r, s[0]), s[1..])
  }

  lemma CatIntro(a: Regex, b: Regex, s: string, t: string)
    requires Matches(a, s) && Matches(b, t)
    ensures Matches(Cat(a, b), s + t)
  {
    assert (s + t)[..|s|] == s && (s + t)[|s|..] == t;
  }

  lemma CatElim(a: Regex, b: Regex, s: string) returns (first: string, second: string)
    requires Matches(Cat(a, b), s)
    ensures s == first + second && Matches(a, first) && Matches(b, second)
  {
    var i :| 0 <= i <= |s| && Matches(a, s[..i]) && Matches(b, s[i..]);
    first, second := s[..i], s[i..];
  }

  lemma AltIff(a: Regex, b: Regex, s: string)
    ensures Matches(Alt(a, b), s) <==> Matches(a, s) || Matches(b, s)
  {
  }

  lemma {:induction false} NullableIff(r: Regex)
    ensures Nullable(r) <==> Matches(r, [])
  {
    match r
    case Cat(a, b) =>
      NullableIff(a);
      NullableIff(b);
      var e: string := [];
      assert e[..0] == [] && e[0..] == [];
    case Alt(a, b) =>
      NullableIff(a);
      NullableIff(b);
    case _ =>
  }

  /** The derivative's language: what may follow c. */
  lemma {:induction false} DerivativeIff(r: Regex, s: string)
    requires s != []
    ensures Matches(Derivative(r, s[0]), s[1..]) <==> Matches(r, s)
    decreases r
  {
    match r
    case Cat(a, b) =>
      if Matches(r, s) { CatToDerivative(a, b, s); }
      if Matches(Derivative(r, s[0]), s[1..]) { DerivativeToCat(a, b, s); }
    case Alt(a, b) =>
      DerivativeIff(a, s);
      DerivativeIff(b, s);
    case _ =>
  }

  lemma {:induction false} CatToDerivative(a: Regex, b: Regex, s: string)
    requires s != [] && Matches(Cat(a, b), s)
    ensures Matches(Derivative(Cat(a, b), s[0]), s[1..])
    decreases Cat(a, b), 0
  {
    hide Matches;
    var (da, db) := (Derivative(a, s[0]), Derivative(b, s[0]));
    var first, second := CatElim(a, b, s);
    AltIff(Cat(da, b), db, s[1..]);
    if first == [] {
      assert second == s;
      NullableIff(a);
      DerivativeIff(b, s);
    } else {
      DerivativeIff(a, first);
      CatIntro(da, b, first[1..], second);
      assert s[1..] == first[1..] + second;
    }
  }

  lemma {:induction false} DerivativeToCat(a: Regex, b: Regex, s: string)
    requires s != [] && Matches(Derivative(Cat(a, b), s[0]), s[1..])
    ensures Matches(Cat(a, b), s)
    decreases Cat(a, b), 0
  {
    hide Matches;
    var (da, db) := (Derivative(a, s[0]), Derivative(b, s[0]));
    AltIff(Cat(da, b), db, s[1..]);
    if Matches(Cat(da, b), s[1..]) {
      var first, second := CatElim(da, b, s[1..]);
      var whole := [s[0]] + first;
      assert whole[1..] == first;
      DerivativeIff(a, whole);
      CatIntro(a, b, whole, second);
      assert s == whole + second;
    } else {
      DerivativeIff(b, s);
      NullableIff(a);
      CatIntro(a, b, [], s);
      assert s == [] + s;
    }
  }

  /** The matcher decides the denotation. */
  lemma {:induction false} AcceptsIffMatches(r: Regex, s: string)
    ensures Accepts(r, s) <==> Matches(r, s)
    decreases |s|
  {
    if s == [] {
      NullableIff(r);
    } else {
      DerivativeIff(r, s);
      AcceptsIffMatches(Derivative(r, s[0]), s[1..]);
    }
  }
}

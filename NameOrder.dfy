/** cmp_items: the comparator that orders post filenames by their `<digits>_` prefix. */
module NameOrder {
  import opened Wrappers
  import opened Text

  /** The regular expression `^\d+_` matches `s` with n digits before the underscore. */
  predicate PrefixMatchAt(s: string, n: nat)
  {
    0 < n < |s| && (forall k :: 0 <= k < n ==> IsDigit(s[k])) && s[n] == '_'
  }

  /** int(match[0][:-1]) when `^\d+_` matches `s`, None when it does not. */
  function NumericPrefix(s: string): Option<nat>
  {
    var n := DigitRunLength(s);
    if 0 < n < |s| && s[n] == '_' then Some(DigitsValue(s[..n])) else None
  }

  /** NumericPrefix is the regular expression's match: it answers exactly when some
      run of digits followed by '_' starts the name, with that run's value. */
  lemma NumericPrefixIsMatch(s: string)
    ensures NumericPrefix(s).Some? <==> exists n: nat :: PrefixMatchAt(s, n)
    ensures forall n: nat :: PrefixMatchAt(s, n) ==> NumericPrefix(s) == Some(DigitsValue(s[..n]))
  {
    if NumericPrefix(s).Some? { assert PrefixMatchAt(s, DigitRunLength(s)); }
  }

  /** cmp_items(a, b): -1 or 1, or None where the Python function falls off its
      if-chain (equal numeric prefixes, or two identical unprefixed names). */
  function Compare(a: string, b: string): (r: Option<int>)
    ensures r.Some? ==> r.value == -1 || r.value == 1
  {
    match (NumericPrefix(a), NumericPrefix(b))
    case (Some(n1), Some(n2)) =>
      if n1 > n2 then Some(1) else if n1 < n2 then Some(-1) else None
    case (None, Some(_)) => Some(1)
    case (Some(_), None) => Some(-1)
    case (None, None) =>
      if LexLess(a, b) then Some(-1) else if LexLess(b, a) then Some(1) else None
  }

  /** `a` sorts before `b`: cmp_items(a, b) == -1. */
  predicate Before(a: string, b: string)
  {
    Compare(a, b) == Some(-1)
  }

  /** The two names are tied: both carry the same prefix value, or neither has a
      prefix and they are the same string. */
  predicate Tied(a: string, b: string)
  {
    match (NumericPrefix(a), NumericPrefix(b))
    case (Some(n1), Some(n2)) => n1 == n2
    case (None, None) => a == b
    case _ => false
  }

  lemma {:induction false} DigitRunOfPrefixedName(d: string, rest: string)
    requires forall k :: 0 <= k < |d| ==> IsDigit(d[k])
    ensures DigitRunLength(d + "_" + rest) == |d|
  {
    if d != [] {
      assert (d + "_" + rest)[1..] == d[1..] + "_" + rest;
      DigitRunOfPrefixedName(d[1..], rest);
    }
  }

  /** A name built as `<digits>_<rest>` carries the value of its digits. */
  lemma PrefixOfDigitsUnderscore(d: string, rest: string)
    requires d != [] && forall k :: 0 <= k < |d| ==> IsDigit(d[k])
    ensures NumericPrefix(d + "_" + rest) == Some(DigitsValue(d))
  {
    DigitRunOfPrefixedName(d, rest);
    assert (d + "_" + rest)[..|d|] == d;
  }

  /** Two prefixed names are ordered by the integer value of their prefixes,
      whatever follows and however many digits either prefix has. */
  lemma CompareByPrefixValue(d1: string, rest1: string, d2: string, rest2: string)
    requires d1 != [] && forall k :: 0 <= k < |d1| ==> IsDigit(d1[k])
    requires d2 != [] && forall k :: 0 <= k < |d2| ==> IsDigit(d2[k])
    ensures Before(d1 + "_" + rest1, d2 + "_" + rest2) <==> DigitsValue(d1) < DigitsValue(d2)
    ensures Compare(d1 + "_" + rest1, d2 + "_" + rest2).None? <==> DigitsValue(d1) == DigitsValue(d2)
  {
    PrefixOfDigitsUnderscore(d1, rest1);
    PrefixOfDigitsUnderscore(d2, rest2);
  }

  /** "2_x" sorts before "10_x", although "10_x" is the smaller string. */
  lemma TwoBeforeTen()
    ensures Before("2_x", "10_x") && Compare("10_x", "2_x") == Some(1)
    ensures LexLess("10_x", "2_x")
  {
    assert "2_x" == "2" + "_" + "x";
    assert "10_x" == "10" + "_" + "x";
    CompareByPrefixValue("2", "x", "10", "x");
    CompareByPrefixValue("10", "x", "2", "x");
  }

  /** A prefixed name sorts before an unprefixed one, from either side. */
  lemma PrefixedFirst(a: string, b: string)
    requires NumericPrefix(a).Some? && NumericPrefix(b).None?
    ensures Before(a, b) && Compare(b, a) == Some(1)
  {
  }

  /** Two unprefixed names compare as Python strings; only identical names are left
      undecided. */
  lemma UnprefixedByString(a: string, b: string)
    requires NumericPrefix(a).None? && NumericPrefix(b).None?
    ensures Before(a, b) <==> LexLess(a, b)
    ensures Compare(a, b) == Some(1) <==> LexLess(b, a)
    ensures Compare(a, b).None? <==> a == b
  {
    LexLessAsymmetric(a, b);
    LexLessTotal(a, b);
    LexLessIrreflexive(a);
  }

  /** cmp_items answers None exactly on tied names. */
  lemma CompareUndefinedIffTied(a: string, b: string)
    ensures Compare(a, b).None? <==> Tied(a, b)
  {
    LexLessTotal(a, b);
    LexLessIrreflexive(a);
  }

  /** Every name is tied with itself, so cmp_items(a, a) is None. */
  lemma CompareSelfUndefined(a: string)
    ensures Compare(a, a).None?
  {
    LexLessIrreflexive(a);
  }

  /** Swapping the arguments negates the answer, and keeps None as None. */
  lemma CompareAntisymmetric(a: string, b: string)
    ensures Compare(b, a) == match Compare(a, b) case None => None case Some(c) => Some(-c)
  {
    LexLessAsymmetric(a, b);
    LexLessAsymmetric(b, a);
  }

  lemma BeforeTransitive(a: string, b: string, c: string)
    ensures Before(a, b) && Before(b, c) ==> Before(a, c)
  {
    LexLessTransitive(a, b, c);
    LexLessAsymmetric(a, c);
  }
}

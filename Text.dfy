/** String helpers shared by the model: digits, Python's string order, substring
    search, Python's slice bounds and the line splitting of a text file. */
module Text {

  predicate IsDigit(c: char) { '0' <= c <= '9' }

  /** Python's `a < b` on str: lexicographic by code point, a proper prefix first. */
  predicate LexLess(a: string, b: string)
  {
    if a == [] then b != []
    else if b == [] then false
    else if a[0] != b[0] then a[0] < b[0]
    else LexLess(a[1..], b[1..])
  }

  lemma {:induction false} LexLessIrreflexive(a: string)
    ensures !LexLess(a, a)
  {
    if a != [] { LexLessIrreflexive(a[1..]); }
  }

  lemma {:induction false} LexLessAsymmetric(a: string, b: string)
    ensures LexLess(a, b) ==> !LexLess(b, a)
  {
    if a != [] && b != [] && a[0] == b[0] { LexLessAsymmetric(a[1..], b[1..]); }
  }

  lemma {:induction false} LexLessTotal(a: string, b: string)
    ensures a != b ==> LexLess(a, b) || LexLess(b, a)
  {
    if a != [] && b != [] && a[0] == b[0] {
      LexLessTotal(a[1..], b[1..]);
      if a[1..] == b[1..] {
        assert a == [a[0]] + a[1..] && b == [b[0]] + b[1..];
      }
    }
  }

  lemma {:induction false} LexLessTransitive(a: string, b: string, c: string)
    ensures LexLess(a, b) && LexLess(b, c) ==> LexLess(a, c)
  {
    if a != [] && b != [] && c != [] && a[0] == b[0] == c[0] {
      LexLessTransitive(a[1..], b[1..], c[1..]);
    }
  }

  /** a is a proper prefix of b. */
  predicate ProperPrefix(a: string, b: string)
  {
    |a| < |b| && a == b[..|a|]
  }

  /** a and b agree before position k, and at k a has the smaller character. */
  predicate FirstDifferenceAt(a: string, b: string, k: nat)
  {
    k < |a| && k < |b| && a[..k] == b[..k] && a[k] < b[k]
  }

  /** The textbook definition: a is a proper prefix of b, or the two first differ at
      some position k where a has the smaller character. */
  lemma {:induction false} LexLessIsFirstDifference(a: string, b: string)
    ensures LexLess(a, b) <==> ProperPrefix(a, b) || exists k: nat :: FirstDifferenceAt(a, b, k)
  {
    if a != [] && b != [] {
      LexLessIsFirstDifference(a[1..], b[1..]);
      if a[0] == b[0] {
        ProperPrefixShift(a, b);
        if exists k: nat :: FirstDifferenceAt(a, b, k) {
          var k: nat :| FirstDifferenceAt(a, b, k);
          assert k != 0;
          FirstDifferenceShift(a, b, k - 1);
          assert FirstDifferenceAt(a[1..], b[1..], k - 1);
        }
        if exists k: nat :: FirstDifferenceAt(a[1..], b[1..], k) {
          var k: nat :| FirstDifferenceAt(a[1..], b[1..], k);
          FirstDifferenceShift(a, b, k);
          assert FirstDifferenceAt(a, b, k + 1);
        }
      } else {
        if |a| < |b| {
          assert b[..|a|][0] == b[0];
        }
        forall k: nat | 0 < k < |a| && k < |b| ensures a[..k] != b[..k] {
          assert a[..k][0] == a[0] && b[..k][0] == b[0];
        }
        if a[0] < b[0] {
          assert FirstDifferenceAt(a, b, 0);
        }
      }
    } else if a == [] && b != [] {
      assert ProperPrefix(a, b);
    }
  }

  /** Dropping an equal first character keeps a proper prefix a proper prefix. */
  lemma ProperPrefixShift(a: string, b: string)
    requires a != [] && b != [] && a[0] == b[0]
    ensures ProperPrefix(a, b) <==> ProperPrefix(a[1..], b[1..])
  {
    if ProperPrefix(a[1..], b[1..]) {
      assert a == [a[0]] + a[1..];
      assert b[..|a|] == [b[0]] + b[1..][..|a| - 1];
    }
  }

  /** Dropping an equal first character moves the first difference back by one. */
  lemma FirstDifferenceShift(a: string, b: string, k: nat)
    requires a != [] && b != [] && a[0] == b[0]
    ensures FirstDifferenceAt(a[1..], b[1..], k) <==> FirstDifferenceAt(a, b, k + 1)
  {
    if k + 1 < |a| && k + 1 < |b| {
      assert a[..k + 1] == [a[0]] + a[1..][..k];
      assert b[..k + 1] == [b[0]] + b[1..][..k];
    }
  }

  /** The first occurrence of '\n' at or after `from`, or |s| when there is none. */
  function NewlineFrom(s: string, from: nat): (j: nat)
    requires from <= |s|
    ensures from <= j <= |s|
    ensures forall k :: from <= k < j ==> s[k] != '\n'
    ensures j < |s| ==> s[j] == '\n'
    decreases |s| - from
  {
    if from == |s| || s[from] == '\n' then from else NewlineFrom(s, from + 1)
  }

  /** `w` occurs in `s` starting at index i. */
  predicate OccursAt(s: string, w: string, i: nat)
  {
    i + |w| <= |s| && s[i..i + |w|] == w
  }

  /** Python's `w in s` for strings. */
  predicate Contains(s: string, w: string)
  {
    exists i: nat :: i <= |s| && OccursAt(s, w, i)
  }

  /** Length of the run of digits that starts `s`. */
  function DigitRunLength(s: string): (n: nat)
    ensures n <= |s|
    ensures forall k :: 0 <= k < n ==> IsDigit(s[k])
    ensures n < |s| ==> !IsDigit(s[n])
  {
    if s != [] && IsDigit(s[0]) then 1 + DigitRunLength(s[1..]) else 0
  }

  /** Python's int() of a string of decimal digits (leading zeros allowed). */
  function DigitsValue(ds: string): nat
  {
    if ds == [] then 0
    else 10 * DigitsValue(ds[..|ds| - 1]) + (ds[|ds| - 1] as int - '0' as int) % 10
  }

  /** `s[0:stop]` with Python's slice rules: a negative stop counts from the end,
      once, and what is still negative is clamped to 0. */
  function SliceTo(s: string, stop: int): string
  {
    var k := if stop < 0 then (if stop + |s| < 0 then 0 else stop + |s|)
             else (if stop > |s| then |s| else stop);
    s[..k]
  }

  /** The lines Python's iteration over a text file yields: each ends just after a
      '\n', except a last line without one. */
  function SplitLines(s: string): seq<string>
    decreases |s|
  {
    if s == [] then []
    else
      var e := NewlineFrom(s, 0);
      var cut := if e < |s| then e + 1 else |s|;
      [s[..cut]] + SplitLines(s[cut..])
  }

  function JoinLines(lines: seq<string>): string
  {
    if lines == [] then [] else lines[0] + JoinLines(lines[1..])
  }

  /** Writing back every line read reproduces the file. */
  lemma {:induction false} JoinSplitLines(s: string)
    ensures JoinLines(SplitLines(s)) == s
    decreases |s|
  {
    if s != [] {
      var e := NewlineFrom(s, 0);
      var cut := if e < |s| then e + 1 else |s|;
      JoinSplitLines(s[cut..]);
      assert s == s[..cut] + s[cut..];
    }
  }

  lemma {:induction false} JoinLinesAppend(a: seq<string>, b: seq<string>)
    ensures JoinLines(a + b) == JoinLines(a) + JoinLines(b)
  {
    if a != [] {
      assert (a + b)[0] == a[0] && (a + b)[1..] == a[1..] + b;
      JoinLinesAppend(a[1..], b);
    } else {
      assert a + b == b;
    }
  }

  /** JoinLines written out for up to three lines. */
  lemma JoinLinesShort(lines: seq<string>)
    requires |lines| <= 3
    ensures |lines| == 0 ==> JoinLines(lines) == []
    ensures |lines| == 1 ==> JoinLines(lines) == lines[0]
    ensures |lines| == 2 ==> JoinLines(lines) == lines[0] + lines[1]
    ensures |lines| == 3 ==> JoinLines(lines) == lines[0] + lines[1] + lines[2]
  {
    if |lines| > 0 {
      var rest := lines[1..];
      assert JoinLines(lines) == lines[0] + JoinLines(rest);
      if |rest| > 0 {
        assert rest[0] == lines[1];
        assert JoinLines(rest) == rest[0] + JoinLines(rest[1..]);
        if |rest| > 1 {
          assert rest[1..][0] == lines[2] && rest[1..][1..] == [];
          assert JoinLines(rest[1..]) == lines[2];
        } else {
          assert JoinLines(rest[1..]) == [];
        }
      } else {
        assert JoinLines(rest) == [];
      }
    }
  }

  lemma {:induction false} NewlineFromAppend(a: string, b: string, k: nat)
    requires k <= |a| && NewlineFrom(a, k) < |a|
    ensures NewlineFrom(a + b, k) == NewlineFrom(a, k)
    decreases |a| - k
  {
    if a[k] != '\n' {
      NewlineFromAppend(a, b, k + 1);
    }
  }

  lemma {:induction false} NewlineBefore(s: string, from: nat, k: nat)
    requires from <= k < |s| && s[k] == '\n'
    ensures NewlineFrom(s, from) <= k
    decreases k - from
  {
    if s[from] != '\n' {
      NewlineBefore(s, from + 1, k);
    }
  }

  lemma ConcatAssoc<T>(x: seq<T>, y: seq<T>, z: seq<T>)
    ensures x + (y + z) == x + y + z
  {
  }

  lemma DropConcat<T>(x: seq<T>, y: seq<T>, i: nat)
    requires i <= |x|
    ensures (x + y)[i..] == x[i..] + y
  {
  }

  /** Text without a final '\n' runs into the first line written after it. */
  lemma JoinGlued(head: seq<string>, last: string, first: string, more: seq<string>)
    ensures JoinLines(head) + last + JoinLines([first] + more) == JoinLines(head + ([last + first] + more))
  {
    JoinLinesAppend(head, [last + first] + more);
    assert JoinLines([first] + more) == first + JoinLines(more);
    assert JoinLines([last + first] + more) == last + first + JoinLines(more);
    ConcatAssoc(JoinLines(head) + last, first, JoinLines(more));
    ConcatAssoc(JoinLines(head), last, first + JoinLines(more));
    ConcatAssoc(last, first, JoinLines(more));
  }

  /** The first line of text that holds a '\n' ends just after it, whatever follows. */
  lemma SplitLinesHead(a: string, b: string)
    requires a != [] && NewlineFrom(a, 0) < |a|
    ensures SplitLines(a) == [a[..NewlineFrom(a, 0) + 1]] + SplitLines(a[NewlineFrom(a, 0) + 1..])
    ensures SplitLines(a + b) == [a[..NewlineFrom(a, 0) + 1]] + SplitLines(a[NewlineFrom(a, 0) + 1..] + b)
  {
    var cut := NewlineFrom(a, 0) + 1;
    NewlineFromAppend(a, b, 0);
    assert (a + b)[..cut] == a[..cut];
    assert (a + b)[cut..] == a[cut..] + b;
  }

  /** Text that is empty or ends with '\n' splits apart from what follows it. */
  lemma {:induction false} SplitLinesAppend(a: string, b: string)
    requires a == [] || a[|a| - 1] == '\n'
    ensures SplitLines(a + b) == SplitLines(a) + SplitLines(b)
    decreases |a|
  {
    if a == [] {
      assert a + b == b;
    } else {
      NewlineBefore(a, 0, |a| - 1);
      SplitLinesHead(a, b);
      var rest := a[NewlineFrom(a, 0) + 1..];
      assert rest == [] || rest[|rest| - 1] == a[|a| - 1];
      SplitLinesAppend(rest, b);
      ConcatAssoc([a[..NewlineFrom(a, 0) + 1]], SplitLines(rest), SplitLines(b));
    }
  }

  /** One line in the sense of SplitLines: non-empty, '\n' at its end and nowhere else. */
  predicate IsLine(l: string)
  {
    l != [] && l[|l| - 1] == '\n' && NoInnerNewline(l)
  }

  /** No '\n' before the last character. */
  predicate NoInnerNewline(l: string)
  {
    forall k :: 0 <= k < |l| - 1 ==> l[k] != '\n'
  }

  /** A whole line's first '\n' is its last character. */
  lemma LineEnd(l: string)
    requires IsLine(l)
    ensures NewlineFrom(l, 0) == |l| - 1
  {
    NewlineBefore(l, 0, |l| - 1);
  }

  /** Every line but the last is a whole line; the last is non-empty and has no '\n'
      before its end. */
  lemma {:induction false} SplitLinesShape(s: string)
    ensures var lines := SplitLines(s);
      && (forall i :: 0 <= i < |lines| - 1 ==> IsLine(lines[i]))
      && (|lines| > 0 ==> lines[|lines| - 1] != [] && NoInnerNewline(lines[|lines| - 1]))
    decreases |s|
  {
    if s != [] {
      var e := NewlineFrom(s, 0);
      var cut := if e < |s| then e + 1 else |s|;
      var rest := SplitLines(s[cut..]);
      SplitLinesShape(s[cut..]);
      assert SplitLines(s) == [s[..cut]] + rest;
      if rest != [] {
        assert e < |s|;
        assert IsLine(s[..cut]);
      }
    }
  }

  /** A whole line splits into itself. */
  lemma SplitOneLine(l: string)
    requires IsLine(l)
    ensures SplitLines(l) == [l]
  {
    LineEnd(l);
    assert l[..|l|] == l && l[|l|..] == [];
  }

  /** Joining whole lines and splitting again gives the same lines back. */
  lemma {:induction false} SplitJoinLines(lines: seq<string>)
    requires forall i :: 0 <= i < |lines| ==> IsLine(lines[i])
    ensures SplitLines(JoinLines(lines)) == lines
  {
    if lines != [] {
      var l := lines[0];
      var rest := lines[1..];
      SplitOneLine(l);
      assert JoinLines(lines) == l + JoinLines(rest);
      SplitLinesAppend(l, JoinLines(rest));
      assert forall i :: 0 <= i < |rest| ==> IsLine(rest[i]);
      SplitJoinLines(rest);
      assert lines == [l] + rest;
    }
  }
}

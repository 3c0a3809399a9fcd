/** CompareNoCase, the comparator the plugin list is sorted with: a
    character-by-character comparison after ::tolower, where a string
    that runs out first is the smaller one. */
module Common {
  import opened Text
  import opened Utility

  /** The answer the loop of CompareNoCase gives, stated as a recursion on
      the parts of both strings it has not looked at yet. */
  function LessNoCase(a: string, b: string): bool {
    if a == [] || b == [] then |a| < |b|
    else if LowerChar(a[0]) < LowerChar(b[0]) then true
    else if LowerChar(a[0]) > LowerChar(b[0]) then false
    else LessNoCase(a[1..], b[1..])
  }

  /** CompareNoCase(first, second). */
  method CompareNoCase(first: string, second: string) returns (r: bool)
    ensures r == LessNoCase(first, second)
  {
    var i := 0;
    while i < |first| && i < |second|
      invariant i <= |first| && i <= |second|
      invariant LessNoCase(first, second) == LessNoCase(first[i..], second[i..])
    {
      if LowerChar(first[i]) < LowerChar(second[i]) {
        return true;
      } else if LowerChar(first[i]) > LowerChar(second[i]) {
        return false;
      }
      assert first[i..][1..] == first[i + 1..];
      assert second[i..][1..] == second[i + 1..];
      i := i + 1;
    }
    return |first| < |second|;
  }

  /** x and y agree before position k, and k is where x is found smaller:
      a smaller character, or the end of x. */
  predicate LexLessAt(x: string, y: string, k: nat) {
    k <= |x| && k <= |y| && x[..k] == y[..k] &&
    ((k < |x| && k < |y| && x[k] < y[k]) || (k == |x| && k < |y|))
  }

  /** Lexicographic less-than on character sequences. */
  ghost predicate LexLess(x: string, y: string) {
    exists k: nat :: LexLessAt(x, y, k)
  }

  lemma LexLessEmpty(x: string, y: string)
    requires x == [] || y == []
    ensures LexLess(x, y) <==> |x| < |y|
  {
    if |x| < |y| {
      assert LexLessAt(x, y, 0);
    }
  }

  lemma LexLessCons(c: char, x: string, d: char, y: string)
    ensures LexLess([c] + x, [d] + y) <==> c < d || (c == d && LexLess(x, y))
  {
    var cx, dy := [c] + x, [d] + y;
    if c < d {
      assert LexLessAt(cx, dy, 0);
    }
    if c == d && LexLess(x, y) {
      var k: nat :| LexLessAt(x, y, k);
      assert cx[..k + 1] == [c] + x[..k];
      assert dy[..k + 1] == [d] + y[..k];
      assert LexLessAt(cx, dy, k + 1);
    }
    if LexLess(cx, dy) {
      var k: nat :| LexLessAt(cx, dy, k);
      if k > 0 {
        assert cx[0] == cx[..k][0];
        assert dy[0] == dy[..k][0];
        assert x[..k - 1] == cx[..k][1..];
        assert y[..k - 1] == dy[..k][1..];
        assert LexLessAt(x, y, k - 1);
      }
    }
  }

  /** CompareNoCase is lexicographic less-than on the lower-cased strings. */
  lemma {:induction false} LessNoCaseIsLexLessOfLower(a: string, b: string)
    ensures LessNoCase(a, b) <==> LexLess(StrToLC(a), StrToLC(b))
  {
    if a == [] || b == [] {
      LexLessEmpty(StrToLC(a), StrToLC(b));
    } else {
      LessNoCaseIsLexLessOfLower(a[1..], b[1..]);
      assert StrToLC(a) == [LowerChar(a[0])] + StrToLC(a[1..]);
      assert StrToLC(b) == [LowerChar(b[0])] + StrToLC(b[1..]);
      LexLessCons(LowerChar(a[0]), StrToLC(a[1..]), LowerChar(b[0]), StrToLC(b[1..]));
    }
  }

  // ---------------------------------------------------------------------
  // CompareNoCase is a strict weak order

  lemma {:induction false} Irreflexive(a: string)
    ensures !LessNoCase(a, a)
  {
    if a != [] {
      Irreflexive(a[1..]);
    }
  }

  lemma {:induction false} Asymmetric(a: string, b: string)
    requires LessNoCase(a, b)
    ensures !LessNoCase(b, a)
  {
    if a != [] && b != [] && LowerChar(a[0]) == LowerChar(b[0]) {
      Asymmetric(a[1..], b[1..]);
    }
  }

  lemma {:induction false} Transitive(a: string, b: string, c: string)
    requires LessNoCase(a, b) && LessNoCase(b, c)
    ensures LessNoCase(a, c)
  {
    if a != [] && b != [] && c != [] &&
       LowerChar(a[0]) == LowerChar(b[0]) && LowerChar(b[0]) == LowerChar(c[0]) {
      Transitive(a[1..], b[1..], c[1..]);
    }
  }

  /** Two strings are unordered by CompareNoCase exactly when they are
      equal after lower-casing, so strings that differ only in case are
      equivalent. */
  lemma {:induction false} IncomparableIffSameLower(a: string, b: string)
    ensures (!LessNoCase(a, b) && !LessNoCase(b, a)) <==> StrToLC(a) == StrToLC(b)
  {
    if a != [] && b != [] {
      IncomparableIffSameLower(a[1..], b[1..]);
      var la, lb := StrToLC(a[1..]), StrToLC(b[1..]);
      assert StrToLC(a) == [LowerChar(a[0])] + la;
      assert StrToLC(b) == [LowerChar(b[0])] + lb;
      if StrToLC(a) == StrToLC(b) {
        assert LowerChar(a[0]) == StrToLC(a)[0] == StrToLC(b)[0] == LowerChar(b[0]);
        assert la == StrToLC(a)[1..] == StrToLC(b)[1..] == lb;
      }
    }
  }

  /** Incomparability is transitive, the last condition of a strict weak order. */
  lemma IncomparableTransitive(a: string, b: string, c: string)
    requires !LessNoCase(a, b) && !LessNoCase(b, a)
    requires !LessNoCase(b, c) && !LessNoCase(c, b)
    ensures !LessNoCase(a, c) && !LessNoCase(c, a)
  {
    IncomparableIffSameLower(a, b);
    IncomparableIffSameLower(b, c);
    IncomparableIffSameLower(a, c);
  }

  /** CompareNoCase looks only at the lower-cased strings. */
  lemma LessNoCaseOfSameLower(a: string, a': string, b: string)
    requires StrToLC(a) == StrToLC(a')
    ensures LessNoCase(a, b) == LessNoCase(a', b)
    ensures LessNoCase(b, a) == LessNoCase(b, a')
  {
    LessNoCaseIsLexLessOfLower(a, b);
    LessNoCaseIsLexLessOfLower(a', b);
    LessNoCaseIsLexLessOfLower(b, a);
    LessNoCaseIsLexLessOfLower(b, a');
  }

  /** "Not smaller" is transitive, the form in which a sort relies on the
      strict weak order. */
  lemma NotLessTransitive(a: string, b: string, c: string)
    requires !LessNoCase(b, a) && !LessNoCase(c, b)
    ensures !LessNoCase(c, a)
  {
    if LessNoCase(a, b) {
      if LessNoCase(b, c) {
        Transitive(a, b, c);
        Asymmetric(a, c);
      } else {
        IncomparableIffSameLower(b, c);
        LessNoCaseOfSameLower(b, c, a);
      }
    } else {
      IncomparableIffSameLower(a, b);
      LessNoCaseOfSameLower(a, b, c);
    }
  }

  /** A string that is, ignoring case, a proper prefix of another is the smaller. */
  lemma {:induction false} ProperPrefixIsLess(a: string, b: string)
    requires |a| < |b| && StrToLC(a) == StrToLC(b)[..|a|]
    ensures LessNoCase(a, b)
  {
    if a != [] {
      assert LowerChar(a[0]) == StrToLC(a)[0] == StrToLC(b)[0] == LowerChar(b[0]);
      assert StrToLC(a[1..]) == StrToLC(a)[1..];
      assert StrToLC(b[1..])[..|a| - 1] == StrToLC(b)[1..|a|];
      ProperPrefixIsLess(a[1..], b[1..]);
    }
  }
}

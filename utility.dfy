/** The string helpers of CUtils: trimming, case mapping, the numeric
    character class, tokenising with case-insensitive duplicate removal,
    and the precision ladders of the FPS and time-per-frame read-outs.
    A string that the tool changes through a reference is modelled as a
    function from the old string to the new one. */
module Utility {
  import opened Text

  // ---------------------------------------------------------------------
  // Trimming

  /** StrTrimLeft: erase(0, find_first_not_of(" \t\n\r")); an npos count
      erases everything. */
  function StrTrimLeft(s: string): string {
    match FindFirstNotOf(s, TrimChars)
    case None => []
    case Some(k) => s[k..]
  }

  /** StrTrimLeft removes the leading run of trim characters and nothing
      else: the result is a suffix, everything removed is a trim
      character, and the result does not start with one. */
  lemma TrimLeftCharacterisation(s: string)
    ensures var r := StrTrimLeft(s);
      |r| <= |s| && r == s[|s| - |r|..] &&
      (forall i :: 0 <= i < |s| - |r| ==> s[i] in TrimChars) &&
      (r == [] || r[0] !in TrimChars)
  {
  }

  /** StrTrimRight: erase(find_last_not_of(" \t\n\r") + 1). */
  function StrTrimRight(s: string): string {
    TrimEnd(s, TrimChars)
  }

  /** StrTrimRight removes the trailing run of trim characters and nothing
      else. */
  lemma TrimRightCharacterisation(s: string)
    ensures var r := StrTrimRight(s);
      |r| <= |s| && r == s[..|r|] &&
      (forall i :: |r| <= i < |s| ==> s[i] in TrimChars) &&
      (r == [] || r[|r| - 1] !in TrimChars)
  {
  }

  /** StrTrim: the right-hand erase followed by the left-hand one. */
  function StrTrim(s: string): string {
    StrTrimLeft(StrTrimRight(s))
  }

  /** StrTrim keeps a contiguous piece s[i..j] of s; everything before and
      after it is a trim character, and the piece neither starts nor ends
      with one. In particular an all-white-space string becomes "". */
  lemma TrimCharacterisation(s: string)
    ensures exists i: nat, j: nat ::
      (i <= j <= |s| && StrTrim(s) == s[i..j] &&
       (forall k :: 0 <= k < i ==> s[k] in TrimChars) &&
       (forall k :: j <= k < |s| ==> s[k] in TrimChars))
    ensures var r := StrTrim(s);
      r == [] || (r[0] !in TrimChars && r[|r| - 1] !in TrimChars)
  {
    var i, j := TrimSlice(s);
  }

  /** The bounds of the piece StrTrim keeps. */
  lemma TrimSlice(s: string) returns (i: nat, j: nat)
    ensures i <= j <= |s| && StrTrim(s) == s[i..j]
    ensures forall k :: 0 <= k < i ==> s[k] in TrimChars
    ensures forall k :: j <= k < |s| ==> s[k] in TrimChars
    ensures var r := StrTrim(s);
      r == [] || (r[0] !in TrimChars && r[|r| - 1] !in TrimChars)
  {
    var m := StrTrimRight(s);
    var r := StrTrimLeft(m);
    TrimRightCharacterisation(s);
    TrimLeftCharacterisation(m);
    i, j := |m| - |r|, |m|;
    assert StrTrim(s) == r;
    assert m == s[..j];
    assert r == m[i..];
    SliceOfPrefix(s, i, j);
    assert forall k :: 0 <= k < i ==> s[k] == m[k];
    if r != [] {
      assert r[|r| - 1] == m[|m| - 1];
    }
  }

  lemma SliceOfPrefix(s: string, i: nat, j: nat)
    requires i <= j <= |s|
    ensures s[..j][i..] == s[i..j]
  {
  }

  lemma TrimAllWhitespace(s: string)
    requires forall k :: 0 <= k < |s| ==> s[k] in TrimChars
    ensures StrTrim(s) == []
  {
  }

  lemma TrimIdempotent(s: string)
    ensures StrTrim(StrTrim(s)) == StrTrim(s)
  {
    var r := StrTrim(s);
    TrimCharacterisation(s);
    if r != [] {
      FindLastNotOfIs(r, TrimChars, |r| - 1);
      FindFirstNotOfIs(r, TrimChars, 0);
    }
  }

  /** The two erases of StrTrim commute: trimming the left end first gives
      the same string. */
  lemma TrimOrderIrrelevant(s: string)
    ensures StrTrimRight(StrTrimLeft(s)) == StrTrim(s)
  {
    var first := FindFirstNotOf(s, TrimChars);
    if first.Some? {
      var p := first.value;
      var last := FindLastNotOf(s, TrimChars);
      assert last.Some?;
      var q := last.value;
      assert p <= q;
      var m := s[..q + 1];
      assert StrTrimRight(s) == m;
      assert forall j :: 0 <= j < p ==> m[j] == s[j];
      FindFirstNotOfIs(m, TrimChars, p);
      assert StrTrim(s) == m[p..];
      var l := s[p..];
      assert StrTrimLeft(s) == l;
      assert forall j :: q - p < j < |l| ==> l[j] == s[p + j];
      FindLastNotOfIs(l, TrimChars, q - p);
      assert StrTrimRight(l) == l[..q - p + 1];
      assert l[..q - p + 1] == m[p..];
    }
  }

  // ---------------------------------------------------------------------
  // Case mapping

  /** StrToLC: ::tolower applied to every character. */
  function StrToLC(s: string): (r: string)
    ensures |r| == |s|
    ensures forall i :: 0 <= i < |s| ==> !IsUpper(r[i])
    ensures forall i :: 0 <= i < |s| ==> r[i] != s[i] ==> IsUpper(s[i])
  {
    seq(|s|, i requires 0 <= i < |s| => LowerChar(s[i]))
  }

  /** StrToUC: ::toupper applied to every character. */
  function StrToUC(s: string): (r: string)
    ensures |r| == |s|
    ensures forall i :: 0 <= i < |s| ==> !IsLower(r[i])
    ensures forall i :: 0 <= i < |s| ==> r[i] != s[i] ==> IsLower(s[i])
  {
    seq(|s|, i requires 0 <= i < |s| => UpperChar(s[i]))
  }

  lemma LowerIdempotent(s: string)
    ensures StrToLC(StrToLC(s)) == StrToLC(s)
  {
  }

  lemma UpperIdempotent(s: string)
    ensures StrToUC(StrToUC(s)) == StrToUC(s)
  {
  }

  /** Only letters change, and each into the same letter of the other case. */
  lemma LowerKeepsLetters(s: string)
    ensures forall i :: 0 <= i < |s| ==> StrToUC(StrToLC(s))[i] == UpperChar(s[i])
  {
  }

  lemma StrToLCConcat(a: string, b: string)
    ensures StrToLC(a + b) == StrToLC(a) + StrToLC(b)
  {
    assert StrToLC(a + b) == StrToLC(a) + StrToLC(b);
  }

  // ---------------------------------------------------------------------
  // IsNumeric

  predicate IsNumericChar(c: char) { IsDigit(c) || c == '-' }

  /** IsNumeric: the empty string is rejected; otherwise every character
      must be a digit or '-', so "-" and "1-2" pass. */
  method IsNumeric(s: string) returns (r: bool)
    ensures r <==> s != [] && forall i :: 0 <= i < |s| ==> IsNumericChar(s[i])
  {
    if s == [] {
      return false;
    }
    var pos := 0;
    while pos < |s|
      invariant 0 <= pos <= |s|
      invariant forall i :: 0 <= i < pos ==> IsNumericChar(s[i])
    {
      if !IsNumericChar(s[pos]) {
        return false;
      }
      pos := pos + 1;
    }
    return true;
  }

  /** The value of IsNumeric, for use inside other specifications. */
  predicate Numeric(s: string) {
    s != [] && forall i :: 0 <= i < |s| ==> IsNumericChar(s[i])
  }

  // ---------------------------------------------------------------------
  // StrTokenize

  /** The pieces the do/while loop of StrTokenize cuts `s` into, starting
      at `current`: up to the next delimiter character, or to the end. */
  function Pieces(s: string, delims: set<char>, current: nat): (ps: seq<string>)
    requires current <= |s|
    ensures |ps| >= 1
    decreases |s| - current
  {
    match FindFirstOf(s, delims, current)
    case None => [s[current..]]
    case Some(next) => [s[current..next]] + Pieces(s, delims, next + 1)
  }

  /** The delimiter characters at which Pieces cuts `s`, in order. */
  function Cuts(s: string, delims: set<char>, current: nat): seq<char>
    requires current <= |s|
    decreases |s| - current
  {
    match FindFirstOf(s, delims, current)
    case None => []
    case Some(next) => [s[next]] + Cuts(s, delims, next + 1)
  }

  /** Pieces put back together with one separator character between each
      two of them. */
  function Interleave(ps: seq<string>, seps: seq<char>): string
    requires |ps| == |seps| + 1
    decreases |seps|
  {
    if seps == [] then ps[0] else ps[0] + [seps[0]] + Interleave(ps[1..], seps[1..])
  }

  /** What PiecesRejoin states of the pieces and cuts from `current` on. */
  ghost predicate Rejoins(s: string, delims: set<char>, current: nat)
    requires current <= |s|
  {
    var ps := Pieces(s, delims, current);
    var cs := Cuts(s, delims, current);
    |ps| == |cs| + 1 &&
    (forall k :: 0 <= k < |cs| ==> cs[k] in delims) &&
    (forall k, i :: 0 <= k < |ps| && 0 <= i < |ps[k]| ==> ps[k][i] !in delims) &&
    Interleave(ps, cs) == s[current..]
  }

  /** A stretch of `s` with no delimiter in it holds no delimiter. */
  lemma NoDelimsIn(s: string, delims: set<char>, from: nat, to: nat)
    requires from <= to <= |s| && forall j :: from <= j < to ==> s[j] !in delims
    ensures forall i :: 0 <= i < |s[from..to]| ==> s[from..to][i] !in delims
  {
    forall i | 0 <= i < |s[from..to]|
      ensures s[from..to][i] !in delims
    {
      assert s[from..to][i] == s[from + i];
    }
  }

  /** Cutting at `next` puts one more piece in front of the rejoined rest. */
  lemma RejoinsCons(s: string, delims: set<char>, current: nat, next: nat)
    requires current <= next < |s| && FindFirstOf(s, delims, current) == Some(next)
    requires Rejoins(s, delims, next + 1)
    ensures Rejoins(s, delims, current)
  {
    var ps := Pieces(s, delims, current);
    var cs := Cuts(s, delims, current);
    var rest := Pieces(s, delims, next + 1);
    var restCuts := Cuts(s, delims, next + 1);
    var head := s[current..next];
    assert ps == [head] + rest && cs == [s[next]] + restCuts;
    assert ps[1..] == rest && cs[1..] == restCuts;
    NoDelimsIn(s, delims, current, next);
    forall k, i | 0 <= k < |ps| && 0 <= i < |ps[k]|
      ensures ps[k][i] !in delims
    {
      if k > 0 {
        assert ps[k] == rest[k - 1];
      }
    }
    forall k | 0 <= k < |cs|
      ensures cs[k] in delims
    {
      if k > 0 {
        assert cs[k] == restCuts[k - 1];
      }
    }
    assert Interleave(ps, cs) == head + [s[next]] + Interleave(rest, restCuts);
    assert s[current..] == head + [s[next]] + s[next + 1..];
  }

  /** No piece holds a delimiter character, and the pieces joined with the
      single delimiter characters they were cut at give back the input
      from `current` on. */
  lemma {:induction false} PiecesRejoin(s: string, delims: set<char>, current: nat)
    requires current <= |s|
    ensures var ps := Pieces(s, delims, current);
      var cs := Cuts(s, delims, current);
      |ps| == |cs| + 1 &&
      (forall k :: 0 <= k < |cs| ==> cs[k] in delims) &&
      (forall k, i :: 0 <= k < |ps| && 0 <= i < |ps[k]| ==> ps[k][i] !in delims) &&
      Interleave(ps, cs) == s[current..]
    decreases |s| - current
  {
    match FindFirstOf(s, delims, current)
    case None =>
      NoDelimsIn(s, delims, current, |s|);
      assert Pieces(s, delims, current) == [s[current..]] && Cuts(s, delims, current) == [];
    case Some(next) =>
      PiecesRejoin(s, delims, next + 1);
      RejoinsCons(s, delims, current, next);
  }

  /** What StrTokenize appends for one piece: the trimmed piece, unless it
      is empty or its lower-case form is already in the duplicate set. */
  function Emit(piece: string, seen: set<string>): seq<string> {
    var t := StrTrim(piece);
    if t != [] && StrToLC(t) !in seen then [t] else []
  }

  /** The duplicate set after one piece. */
  function Remember(piece: string, seen: set<string>, removeDups: bool): set<string> {
    var t := StrTrim(piece);
    if removeDups && t != [] && StrToLC(t) !in seen then seen + {StrToLC(t)} else seen
  }

  /** The tokens StrTokenize appends for the pieces ps, given the
      lower-cased tokens already in its duplicate set. */
  function Kept(ps: seq<string>, seen: set<string>, removeDups: bool): seq<string>
  {
    if ps == [] then []
    else Emit(ps[0], seen) + Kept(ps[1..], Remember(ps[0], seen, removeDups), removeDups)
  }

  /** Every trimmed non-empty piece, in order. */
  function NonEmptyPieces(ps: seq<string>): seq<string>
  {
    if ps == [] then []
    else if StrTrim(ps[0]) != [] then [StrTrim(ps[0])] + NonEmptyPieces(ps[1..])
    else NonEmptyPieces(ps[1..])
  }

  lemma ConcatStep<T>(prefix: seq<T>, added: seq<T>, rest: seq<T>, whole: seq<T>)
    requires whole == added + rest
    ensures (prefix + added) + rest == prefix + whole
  {
  }

  /** The piece the do/while loop of StrTokenize cuts at `current`. */
  function PieceAt(str: string, delims: set<char>, current: nat): string
    requires current <= |str|
  {
    match FindFirstOf(str, delims, current)
    case Some(next) => str[current..next]
    case None => str[current..]
  }

  /** What the remaining turns of the loop of StrTokenize append, from
      position `current` on with duplicate set `seen`. */
  function TokensFrom(str: string, delims: set<char>, current: nat, seen: set<string>, removeDups: bool): seq<string>
    requires current <= |str|
    decreases |str| - current
  {
    var piece := PieceAt(str, delims, current);
    var next := FindFirstOf(str, delims, current);
    if next.None? then Emit(piece, seen)
    else Emit(piece, seen) + TokensFrom(str, delims, next.value + 1, Remember(piece, seen, removeDups), removeDups)
  }

  lemma {:induction false} TokensFromIsKept(str: string, delims: set<char>, current: nat, seen: set<string>, removeDups: bool)
    requires current <= |str|
    ensures TokensFrom(str, delims, current, seen, removeDups) == Kept(Pieces(str, delims, current), seen, removeDups)
    decreases |str| - current
  {
    var piece := PieceAt(str, delims, current);
    match FindFirstOf(str, delims, current)
    case None =>
      KeptCons(piece, [], seen, removeDups);
    case Some(next) =>
      TokensFromIsKept(str, delims, next + 1, Remember(piece, seen, removeDups), removeDups);
      KeptCons(piece, Pieces(str, delims, next + 1), seen, removeDups);
  }

  lemma TokensFromLast(str: string, delims: set<char>, current: nat, seen: set<string>, removeDups: bool)
    requires current <= |str| && FindFirstOf(str, delims, current).None?
    ensures TokensFrom(str, delims, current, seen, removeDups) == Emit(PieceAt(str, delims, current), seen)
  {
  }

  lemma TokensFromStep(str: string, delims: set<char>, current: nat, seen: set<string>, removeDups: bool)
    requires current <= |str| && FindFirstOf(str, delims, current).Some?
    ensures var piece := PieceAt(str, delims, current);
      TokensFrom(str, delims, current, seen, removeDups) ==
      Emit(piece, seen) + TokensFrom(str, delims, FindFirstOf(str, delims, current).value + 1, Remember(piece, seen, removeDups), removeDups)
  {
  }

  /** The body of the do/while loop of StrTokenize: cut the piece at
      `current`, trim it, and append it unless it is empty or, ignoring
      case, already in the duplicate set. */
  method NextToken(str: string, delims: set<char>, current: nat, seen: set<string>, removeDups: bool)
    returns (next: Option<nat>, appended: seq<string>, seen': set<string>)
    requires current <= |str|
    ensures next == FindFirstOf(str, delims, current)
    ensures appended == Emit(PieceAt(str, delims, current), seen)
    ensures seen' == Remember(PieceAt(str, delims, current), seen, removeDups)
  {
    next := FindFirstOf(str, delims, current);
    var token := if next.Some? then str[current..next.value] else str[current..];
    token := StrTrim(token);
    var tokenLC := StrToLC(token);
    appended := [];
    seen' := seen;
    if token != [] && tokenLC !in seen {
      appended := [token];
      if removeDups {
        seen' := seen + {tokenLC};
      }
    }
  }

  lemma KeptCons(piece: string, rest: seq<string>, seen: set<string>, removeDups: bool)
    ensures Kept([piece] + rest, seen, removeDups) == Emit(piece, seen) + Kept(rest, Remember(piece, seen, removeDups), removeDups)
  {
    assert ([piece] + rest)[1..] == rest;
  }

  /** StrTokenize(s, tokens, delimiters, removeDups). */
  method StrTokenize(s: string, tokens: seq<string>, delimiters: string, removeDups: bool)
    returns (result: seq<string>)
    ensures result == tokens + Kept(Pieces(StrTrim(s), set c | c in delimiters, 0), {}, removeDups)
  {
    var str := StrTrim(s);
    var delims := set c | c in delimiters;
    result := TokenLoop(str, delims, tokens, removeDups);
    TokensFromIsKept(str, delims, 0, {}, removeDups);
  }

  /** The do/while loop of StrTokenize over the trimmed string. */
  method TokenLoop(str: string, delims: set<char>, tokens: seq<string>, removeDups: bool)
    returns (result: seq<string>)
    ensures result == tokens + TokensFrom(str, delims, 0, {}, removeDups)
  {
    var seen: set<string> := {};
    result := tokens;
    ghost var all := TokensFrom(str, delims, 0, {}, removeDups);
    ghost var remaining := all;
    // `next` starts at npos, so the first `next + 1` wraps to 0.
    var current := 0;
    var done := false;
    while !done
      invariant current <= |str|
      invariant !done ==> remaining == TokensFrom(str, delims, current, seen, removeDups)
      invariant done ==> remaining == []
      invariant result + remaining == tokens + all
      decreases if done then 0 else 1, |str| - current
    {
      var next, appended, seen' := NextToken(str, delims, current, seen, removeDups);
      if next.None? {
        TokensFromLast(str, delims, current, seen, removeDups);
        ConcatStep(result, appended, [], remaining);
        remaining := [];
        done := true;
      } else {
        var after := next.value + 1;
        TokensFromStep(str, delims, current, seen, removeDups);
        ghost var rest := TokensFrom(str, delims, after, seen', removeDups);
        ConcatStep(result, appended, rest, remaining);
        remaining := rest;
        current := after;
      }
      result := result + appended;
      seen := seen';
    }
  }

  /** Every kept token is non-empty and already trimmed. */
  lemma {:induction false} KeptTrimmedNonEmpty(ps: seq<string>, seen: set<string>, removeDups: bool)
    ensures var ks := Kept(ps, seen, removeDups);
      forall k :: 0 <= k < |ks| ==> ks[k] != [] && StrTrim(ks[k]) == ks[k]
  {
    if ps != [] {
      var p, rest := ps[0], ps[1..];
      assert ps == [p] + rest;
      KeptCons(p, rest, seen, removeDups);
      TrimIdempotent(p);
      KeptTrimmedNonEmpty(rest, Remember(p, seen, removeDups), removeDups);
    }
  }

  /** Without duplicate removal every non-empty piece is kept, in order. */
  lemma {:induction false} KeptWithoutDedup(ps: seq<string>)
    ensures Kept(ps, {}, false) == NonEmptyPieces(ps)
  {
    if ps != [] {
      var p, rest := ps[0], ps[1..];
      assert ps == [p] + rest;
      KeptCons(p, rest, {}, false);
      KeptWithoutDedup(rest);
    }
  }

  /** No kept token is, ignoring case, already in the duplicate set. */
  lemma {:induction false} KeptAvoidsSeen(ps: seq<string>, seen: set<string>, removeDups: bool)
    ensures var ks := Kept(ps, seen, removeDups);
      forall k :: 0 <= k < |ks| ==> StrToLC(ks[k]) !in seen
  {
    if ps != [] {
      var p, rest := ps[0], ps[1..];
      assert ps == [p] + rest;
      KeptCons(p, rest, seen, removeDups);
      KeptAvoidsSeen(rest, Remember(p, seen, removeDups), removeDups);
    }
  }

  /** With duplicate removal no two kept tokens are equal ignoring case. */
  lemma {:induction false} KeptNoCaseDuplicates(ps: seq<string>, seen: set<string>)
    ensures var ks := Kept(ps, seen, true);
      forall i, j :: 0 <= i < j < |ks| ==> StrToLC(ks[i]) != StrToLC(ks[j])
  {
    if ps != [] {
      var p, rest := ps[0], ps[1..];
      assert ps == [p] + rest;
      KeptCons(p, rest, seen, true);
      var seen' := Remember(p, seen, true);
      KeptNoCaseDuplicates(rest, seen');
      KeptAvoidsSeen(rest, seen', true);
      var tail := Kept(rest, seen', true);
      var ks := Emit(p, seen) + tail;
      if Emit(p, seen) != [] {
        assert StrToLC(ks[0]) in seen';
      }
      assert forall k :: |Emit(p, seen)| <= k < |ks| ==> ks[k] == tail[k - |Emit(p, seen)|];
    }
  }

  /** Piece i is the first non-empty piece whose trimmed lower-case form is lc. */
  predicate FirstWithLower(ps: seq<string>, i: int, lc: string) {
    0 <= i < |ps| && StrTrim(ps[i]) != [] && StrToLC(StrTrim(ps[i])) == lc &&
    forall j :: 0 <= j < i ==> StrTrim(ps[j]) == [] || StrToLC(StrTrim(ps[j])) != lc
  }

  /** The first occurrence wins: with duplicate removal each kept token is
      the trimmed form of the first piece with its lower-case form. */
  lemma {:induction false} KeptFirstOccurrence(ps: seq<string>, seen: set<string>, k: nat)
    requires k < |Kept(ps, seen, true)|
    ensures exists i :: FirstWithLower(ps, i, StrToLC(Kept(ps, seen, true)[k])) && Kept(ps, seen, true)[k] == StrTrim(ps[i])
  {
    var p, rest := ps[0], ps[1..];
    assert ps == [p] + rest;
    KeptCons(p, rest, seen, true);
    var seen' := Remember(p, seen, true);
    var e := Emit(p, seen);
    var tail := Kept(rest, seen', true);
    var ks := e + tail;
    if e != [] && k == 0 {
      assert FirstWithLower(ps, 0, StrToLC(ks[0]));
    } else {
      var k' := k - |e|;
      assert ks[k] == tail[k'];
      KeptFirstOccurrence(rest, seen', k');
      KeptAvoidsSeen(rest, seen', true);
      var lc := StrToLC(tail[k']);
      var i' :| FirstWithLower(rest, i', lc) && tail[k'] == StrTrim(rest[i']);
      // The first piece is not another occurrence: it was either skipped
      // (empty, or its form was already in the set) or put into the set.
      assert StrTrim(p) == [] || StrToLC(StrTrim(p)) in seen';
      assert lc !in seen';
      assert FirstWithLower(ps, i' + 1, lc);
    }
  }

  /** Nothing is lost: every non-empty piece is represented, ignoring
      case, by a kept token or by an entry already in the set. */
  lemma {:induction false} KeptCoversPieces(ps: seq<string>, seen: set<string>, i: nat)
    requires i < |ps| && StrTrim(ps[i]) != []
    ensures var ks := Kept(ps, seen, true);
      StrToLC(StrTrim(ps[i])) in seen || exists k :: 0 <= k < |ks| && StrToLC(ks[k]) == StrToLC(StrTrim(ps[i]))
  {
    var p, rest := ps[0], ps[1..];
    assert ps == [p] + rest;
    KeptCons(p, rest, seen, true);
    var seen' := Remember(p, seen, true);
    var e := Emit(p, seen);
    var tail := Kept(rest, seen', true);
    var ks := e + tail;
    var lc := StrToLC(StrTrim(ps[i]));
    if i == 0 {
      if lc !in seen {
        assert ks[0] == StrTrim(p);
      }
    } else {
      assert ps[i] == rest[i - 1];
      KeptCoversPieces(rest, seen', i - 1);
      if lc !in seen {
        if lc in seen' {
          assert ks[0] == StrTrim(p);
        } else {
          var k :| 0 <= k < |tail| && StrToLC(tail[k]) == lc;
          assert ks[|e| + k] == tail[k];
        }
      }
    }
  }

  // ---------------------------------------------------------------------
  // Precision ladders (the printf text itself is not modelled)

  /** How a number is printed: with a fixed number of decimals ("%.Nf"),
      or rounded to an unsigned integer ("%u" of value + 0.5). */
  datatype NumberFormat = Fixed(decimals: nat) | Rounded

  function FormatDecimals(f: NumberFormat): nat {
    match f
    case Fixed(d) => d
    case Rounded => 0
  }

  /** StrFormatFPS: 3, 2 or 1 decimals below 9.999, 99.99 and 999.9, then
      a rounded integer. */
  function StrFormatFPS(fps: real): (f: NumberFormat)
    ensures f.Fixed? <==> fps < 999.9
    ensures FormatDecimals(f) <= 3
    ensures fps < 9.999 ==> FormatDecimals(f) == 3
  {
    if fps < 9.999 then Fixed(3)
    else if fps < 99.99 then Fixed(2)
    else if fps < 999.9 then Fixed(1)
    else Rounded
  }

  /** StrFormatTPF: 5, 4, 3, 2 or 1 decimals below 0.1, 1, 10, 100 and
      1000, then a rounded integer. */
  function StrFormatTPF(tpf: real): (f: NumberFormat)
    ensures f.Fixed? <==> tpf < 1000.0
    ensures FormatDecimals(f) <= 5
    ensures tpf < 0.1 ==> FormatDecimals(f) == 5
  {
    if tpf < 0.1 then Fixed(5)
    else if tpf < 1.0 then Fixed(4)
    else if tpf < 10.0 then Fixed(3)
    else if tpf < 100.0 then Fixed(2)
    else if tpf < 1000.0 then Fixed(1)
    else Rounded
  }

  /** Larger values never get more decimals. */
  lemma FPSDecimalsMonotone(x: real, y: real)
    requires x <= y
    ensures FormatDecimals(StrFormatFPS(y)) <= FormatDecimals(StrFormatFPS(x))
  {
  }

  lemma TPFDecimalsMonotone(x: real, y: real)
    requires x <= y
    ensures FormatDecimals(StrFormatTPF(y)) <= FormatDecimals(StrFormatTPF(x))
  {
  }
}

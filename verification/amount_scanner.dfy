/** The numeric tokens the interpreter looks for, scanned by hand in place of
    its two regular expressions: `(\d+\.?\d*)\s*(mil|k|thousand)?` (used to
    find the amount) and `\d+\.?\d*\s*(mil|k)?` (used to strip amounts out of
    the description), both with the `g` and `i` flags. */
module AmountScanner {
  import opened Optional
  import opened Strings
  import opened Seqs

  /** The multiplier word after a number. */
  datatype Unit = Mil | K | Thousand | NoUnit

  function UnitWord(u: Unit): string
  {
    match u
    case Mil => "mil"
    case K => "k"
    case Thousand => "thousand"
    case NoUnit => ""
  }

  /** `s` starts with the lower-case word `w` when characters are compared
      as a regular expression with the `i` flag compares them. */
  predicate StartsWithIgnoreCase(s: string, w: string)
  {
    |w| <= |s| && ToLower(s[..|w|]) == w
  }

  /** The optional unit group: its alternatives are tried in order, and the
      empty alternative is taken when none matches. `withThousand` says
      whether `thousand` is one of the alternatives. */
  function MatchUnit(s: string, withThousand: bool): (u: Unit)
    ensures u != NoUnit ==> StartsWithIgnoreCase(s, UnitWord(u))
    ensures u == Thousand ==> withThousand
    ensures u == NoUnit <==>
      (!StartsWithIgnoreCase(s, "mil") && !StartsWithIgnoreCase(s, "k")
       && (withThousand ==> !StartsWithIgnoreCase(s, "thousand")))
  {
    if StartsWithIgnoreCase(s, "mil") then Mil
    else if StartsWithIgnoreCase(s, "k") then K
    else if withThousand && StartsWithIgnoreCase(s, "thousand") then Thousand
    else NoUnit
  }

  /** The unit words begin with different letters, so at most one of them
      can start any text: the order of the alternatives never matters. */
  lemma {:induction false} UnitWordsExclusive(s: string, u: Unit, v: Unit)
    requires u != NoUnit && v != NoUnit
    requires StartsWithIgnoreCase(s, UnitWord(u)) && StartsWithIgnoreCase(s, UnitWord(v))
    ensures u == v
  {
    assert UnitWord(u)[0] == LowerChar(s[0]) == UnitWord(v)[0];
  }

  /** No unit word starts a text whose first letter starts none of them. */
  lemma {:induction false} NoUnitAt(s: string)
    requires |s| > 0 && LowerChar(s[0]) != 'm' && LowerChar(s[0]) != 'k' && LowerChar(s[0]) != 't'
    ensures MatchUnit(s, true) == NoUnit && MatchUnit(s, false) == NoUnit
  {
    forall w | w in ["mil", "k", "thousand"]
      ensures !StartsWithIgnoreCase(s, w)
    {
      if |w| <= |s| {
        assert ToLower(s[..|w|])[0] == LowerChar(s[0]);
      }
    }
  }

  /** The length of the run of digits that starts `s` (what a greedy `\d*`
      consumes). */
  function DigitRun(s: string): (n: nat)
    ensures n <= |s|
    ensures forall k :: 0 <= k < n ==> IsDigit(s[k])
    ensures n == |s| || !IsDigit(s[n])
    decreases |s|
  {
    if |s| > 0 && IsDigit(s[0]) then 1 + DigitRun(s[1..]) else 0
  }

  /** The length of the run of white space that starts `s` (what a greedy
      `\s*` consumes). */
  function SpaceRun(s: string): (n: nat)
    ensures n <= |s|
    ensures forall k :: 0 <= k < n ==> IsSpace(s[k])
    ensures n == |s| || !IsSpace(s[n])
    decreases |s|
  {
    if |s| > 0 && IsSpace(s[0]) then 1 + SpaceRun(s[1..]) else 0
  }

  /** One match of a numeric-token expression, split into its parts. */
  datatype Token = Token(
    intDigits: string,
    hasDot: bool,
    fracDigits: string,
    spaces: string,
    unitText: string,
    unit: Unit)

  /** The text the token matched. */
  function Text(t: Token): string
  {
    t.intDigits + (if t.hasDot then "." else "") + t.fracDigits + t.spaces + t.unitText
  }

  /** The shape the expression gives a match: digits, an optional dot,
      digits only after the dot, white space, and a unit word in any case. */
  predicate WellFormed(t: Token, withThousand: bool)
  {
    && |t.intDigits| >= 1 && AllDigits(t.intDigits)
    && AllDigits(t.fracDigits)
    && (!t.hasDot ==> t.fracDigits == "")
    && (forall k :: 0 <= k < |t.spaces| ==> IsSpace(t.spaces[k]))
    && ToLower(t.unitText) == UnitWord(t.unit)
    && (t.unit == Thousand ==> withThousand)
  }

  /** A greedy match of the expression at the start of `s`: the token's text
      starts `s`, and no part of it could be longer there. */
  predicate Greedy(t: Token, s: string, withThousand: bool)
  {
    StartsWith(s, Text(t)) && Stops(t, s, withThousand)
  }

  /** Each part of the token ends where the next character can no longer
      extend it: the digits before a non-digit, the dot only if one is
      there, the white space before a non-space, and the unit chosen as the
      alternatives are tried in order. */
  predicate Stops(t: Token, s: string, withThousand: bool)
  {
    var a := |t.intDigits|;
    var b := a + (if t.hasDot then 1 else 0) + |t.fracDigits|;
    var c := b + |t.spaces|;
    && c <= |s|
    && (a == |s| || !IsDigit(s[a]))
    && (!t.hasDot ==> a == |s| || s[a] != '.')
    && (t.hasDot ==> b == |s| || !IsDigit(s[b]))
    && (c == |s| || !IsSpace(s[c]))
    && t.unit == MatchUnit(s[c..], withThousand)
  }

  /** The match of the expression at the start of `s`, which starts with a
      digit. */
  function TokenAt(s: string, withThousand: bool): (t: Token)
    requires |s| > 0 && IsDigit(s[0])
    ensures WellFormed(t, withThousand)
    ensures Greedy(t, s, withThousand)
  {
    var a := DigitRun(s);
    var hasDot := a < |s| && s[a] == '.';
    var b0 := if hasDot then a + 1 else a;
    var b := b0 + (if hasDot then DigitRun(s[b0..]) else 0);
    var c := b + SpaceRun(s[b..]);
    var u := MatchUnit(s[c..], withThousand);
    var e := c + |UnitWord(u)|;
    var t := Token(s[..a], hasDot, s[b0..b], s[b..c], s[c..e], u);
    assert Cuts(s, withThousand, t, a, b0, b, c, e);
    TokenWellFormed(s, withThousand, t, a, b0, b, c, e);
    CutsText(s, withThousand, t, a, b0, b, c, e);
    CutsStops(s, withThousand, t, a, b0, b, c, e);
    t
  }

  /** `t` and the positions `a` (end of the integer digits), `b0` (start of
      the fraction digits), `b` (end of the number), `c` (end of the white
      space) and `e` (end of the unit word) are what `TokenAt` computes. */
  predicate Cuts(s: string, withThousand: bool, t: Token, a: nat, b0: nat, b: nat, c: nat, e: nat)
  {
    && |s| > 0 && IsDigit(s[0])
    && a == DigitRun(s)
    && t.hasDot == (a < |s| && s[a] == '.')
    && b0 == (if t.hasDot then a + 1 else a)
    && b == b0 + (if t.hasDot then DigitRun(s[b0..]) else 0)
    && c == b + SpaceRun(s[b..])
    && t.unit == MatchUnit(s[c..], withThousand)
    && e == c + |UnitWord(t.unit)|
    && e <= |s|
    && t == Token(s[..a], t.hasDot, s[b0..b], s[b..c], s[c..e], t.unit)
  }

  /** The parts `TokenAt` cuts out of `s` have the shape of a match. */
  lemma {:induction false} TokenWellFormed(s: string, withThousand: bool, t: Token, a: nat, b0: nat, b: nat, c: nat, e: nat)
    requires Cuts(s, withThousand, t, a, b0, b, c, e)
    ensures WellFormed(t, withThousand)
  {
    CutsDigits(s, withThousand, t, a, b0, b, c, e);
    CutsRuns(s, withThousand, t, a, b0, b, c, e);
    CutsUnit(s, withThousand, t, a, b0, b, c, e);
  }

  lemma {:induction false} CutsDigits(s: string, withThousand: bool, t: Token, a: nat, b0: nat, b: nat, c: nat, e: nat)
    requires Cuts(s, withThousand, t, a, b0, b, c, e)
    ensures |t.intDigits| >= 1 && AllDigits(t.intDigits)
    ensures !t.hasDot ==> t.fracDigits == ""
    ensures t.unit == Thousand ==> withThousand
  {
  }

  lemma {:induction false} CutsRuns(s: string, withThousand: bool, t: Token, a: nat, b0: nat, b: nat, c: nat, e: nat)
    requires Cuts(s, withThousand, t, a, b0, b, c, e)
    ensures AllDigits(t.fracDigits)
    ensures forall k :: 0 <= k < |t.spaces| ==> IsSpace(t.spaces[k])
  {
    if t.hasDot {
      DigitSlice(s, b0, b);
    }
    SpaceSlice(s, b, c);
  }

  lemma {:induction false} CutsUnit(s: string, withThousand: bool, t: Token, a: nat, b0: nat, b: nat, c: nat, e: nat)
    requires Cuts(s, withThousand, t, a, b0, b, c, e)
    ensures ToLower(t.unitText) == UnitWord(t.unit)
  {
    assert s[c..e] == s[c..][..|UnitWord(t.unit)|];
  }

  /** The parts `TokenAt` cuts out of `s` are, put together, a prefix of `s`. */
  lemma {:induction false} CutsText(s: string, withThousand: bool, t: Token, a: nat, b0: nat, b: nat, c: nat, e: nat)
    requires Cuts(s, withThousand, t, a, b0, b, c, e)
    ensures StartsWith(s, Text(t))
  {
    SliceParts(s, a, b0, b, c, e);
    var dot := if t.hasDot then "." else "";
    assert dot == (if b0 == a + 1 then "." else "");
    assert Text(t) == t.intDigits + dot + t.fracDigits + t.spaces + t.unitText;
    assert Text(t) == s[..e];
  }

  /** No part of the token `TokenAt` cuts out of `s` could be extended. */
  lemma {:induction false} CutsStops(s: string, withThousand: bool, t: Token, a: nat, b0: nat, b: nat, c: nat, e: nat)
    requires Cuts(s, withThousand, t, a, b0, b, c, e)
    ensures Stops(t, s, withThousand)
  {
    assert |t.intDigits| == a && |t.fracDigits| == b - b0 && |t.spaces| == c - b;
    assert t.hasDot && b < |s| ==> s[b] == s[b0..][b - b0];
    assert c < |s| ==> s[c] == s[b..][c - b];
    StopsFrom(t, s, withThousand, a, b, c);
  }

  /** `Stops` from its conditions, with the positions of the parts named. */
  lemma {:induction false} StopsFrom(t: Token, s: string, withThousand: bool, a: nat, b: nat, c: nat)
    requires a == |t.intDigits|
    requires b == a + (if t.hasDot then 1 else 0) + |t.fracDigits| && c == b + |t.spaces|
    requires c <= |s|
    requires a == |s| || !IsDigit(s[a])
    requires !t.hasDot ==> a == |s| || s[a] != '.'
    requires t.hasDot ==> b == |s| || !IsDigit(s[b])
    requires c == |s| || !IsSpace(s[c])
    requires t.unit == MatchUnit(s[c..], withThousand)
    ensures Stops(t, s, withThousand)
  {
  }

  /** A run of digits measured from `i` is a slice of digits. */
  lemma {:induction false} DigitSlice(s: string, i: nat, j: nat)
    requires i <= |s| && j == i + DigitRun(s[i..])
    ensures j <= |s| && AllDigits(s[i..j])
  {
    assert forall k :: 0 <= k < j - i ==> s[i..j][k] == s[i..][k];
  }

  /** A run of white space measured from `i` is a slice of white space. */
  lemma {:induction false} SpaceSlice(s: string, i: nat, j: nat)
    requires i <= |s| && j == i + SpaceRun(s[i..])
    ensures j <= |s| && forall k :: 0 <= k < j - i ==> IsSpace(s[i..j][k])
  {
    assert forall k :: 0 <= k < j - i ==> s[i..j][k] == s[i..][k];
  }

  /** Consecutive slices put back together. */
  lemma {:induction false} SliceParts(s: string, a: nat, b0: nat, b: nat, c: nat, e: nat)
    requires a <= b0 <= b <= c <= e <= |s|
    requires b0 == a || (b0 == a + 1 && s[a] == '.')
    ensures s[..e] == s[..a] + (if b0 == a + 1 then "." else "") + s[b0..b] + s[b..c] + s[c..e]
  {
    if b0 == a + 1 {
      assert s[a..b0] == ".";
    }
    assert s[..e] == s[..a] + s[a..b0] + s[b0..b] + s[b..c] + s[c..e];
  }

  /** The greedy match is unique: any well-formed token that greedily
      matches at the start of `s` is the one `TokenAt` cuts out. */
  lemma {:induction false} TokenAtUnique(s: string, withThousand: bool, t: Token)
    requires |s| > 0 && IsDigit(s[0])
    requires WellFormed(t, withThousand) && Greedy(t, s, withThousand)
    ensures TokenAt(s, withThousand) == t
  {
    var t0 := TokenAt(s, withThousand);
    GreedyCuts(s, withThousand, t);
    GreedyCuts(s, withThousand, t0);
    var (b0, b, c, e) := PartEnds(t);
    var (b0', b', c', e') := PartEnds(t0);
    CutsSame(s, withThousand, t, |t.intDigits|, b0, b, c, e, t0, |t0.intDigits|, b0', b', c', e');
  }

  /** The positions `Cuts` names depend on `s` alone, and so does the token. */
  lemma {:induction false} CutsSame(s: string, withThousand: bool,
                 t: Token, a: nat, b0: nat, b: nat, c: nat, e: nat,
                 t': Token, a': nat, b0': nat, b': nat, c': nat, e': nat)
    requires Cuts(s, withThousand, t, a, b0, b, c, e)
    requires Cuts(s, withThousand, t', a', b0', b', c', e')
    ensures t == t'
  {
    assert a == a' && t.hasDot == t'.hasDot && b0 == b0';
    assert b == b';
    assert c == c';
    assert t.unit == t'.unit && e == e';
  }

  /** A well-formed greedy match is cut where `TokenAt` cuts. */
  lemma {:induction false} GreedyCuts(s: string, withThousand: bool, t: Token)
    requires |s| > 0 && IsDigit(s[0])
    requires WellFormed(t, withThousand) && Greedy(t, s, withThousand)
    ensures Cuts(s, withThousand, t, |t.intDigits|, PartEnds(t).0, PartEnds(t).1, PartEnds(t).2, PartEnds(t).3)
  {
    var a := |t.intDigits|;
    var (b0, b, c, e) := PartEnds(t);
    TextSlices(t, s, a, b0, b, c, e);
    GreedyRuns(t, s, withThousand, a, b0, b, c, e);
    StopsDot(t, s, withThousand, a);
    StopsUnit(t, s, withThousand, c);
    assert |ToLower(t.unitText)| == |t.unitText|;
  }

  /** Where the fraction digits start, and where the number, the white
      space and the unit word of a token end, counted in its text. */
  function PartEnds(t: Token): (r: (nat, nat, nat, nat))
    ensures r.0 == |t.intDigits| + (if t.hasDot then 1 else 0)
    ensures r.1 == r.0 + |t.fracDigits| && r.2 == r.1 + |t.spaces|
    ensures r.3 == r.2 + |t.unitText| == |Text(t)|
  {
    var b0 := |t.intDigits| + (if t.hasDot then 1 else 0);
    var b := b0 + |t.fracDigits|;
    var c := b + |t.spaces|;
    (b0, b, c, c + |t.unitText|)
  }

  /** The parts of a token whose text starts `s` are consecutive slices of
      `s`, and a dot in the token is a dot in `s`. */
  lemma {:induction false} TextSlices(t: Token, s: string, a: nat, b0: nat, b: nat, c: nat, e: nat)
    requires StartsWith(s, Text(t))
    requires a == |t.intDigits| && b0 == (if t.hasDot then a + 1 else a)
    requires b == b0 + |t.fracDigits| && c == b + |t.spaces| && e == c + |t.unitText|
    ensures e <= |s|
    ensures t.hasDot ==> s[a] == '.'
    ensures t.intDigits == s[..a] && t.fracDigits == s[b0..b]
    ensures t.spaces == s[b..c] && t.unitText == s[c..e]
  {
    var dot := if t.hasDot then "." else "";
    var x := Text(t);
    assert x == t.intDigits + dot + t.fracDigits + t.spaces + t.unitText;
    assert |x| == e;
    assert x == s[..e];
    assert x[..a] == t.intDigits;
    assert x[a..b0] == dot;
    assert x[b0..b] == t.fracDigits;
    assert x[b..c] == t.spaces;
    assert x[c..e] == t.unitText;
    assert s[..e][b0..b] == s[b0..b];
    assert s[..e][b..c] == s[b..c];
    assert s[..e][c..e] == s[c..e];
    if t.hasDot {
      assert s[..e][a] == x[a..b0][0];
    }
  }

  /** The run lengths `TokenAt` measures are those of a greedy match. */
  lemma {:induction false} GreedyRuns(t: Token, s: string, withThousand: bool, a: nat, b0: nat, b: nat, c: nat, e: nat)
    requires WellFormed(t, withThousand) && Greedy(t, s, withThousand)
    requires e <= |s|
    requires a == |t.intDigits| && b0 == (if t.hasDot then a + 1 else a)
    requires b == b0 + |t.fracDigits| && c == b + |t.spaces| && e == c + |t.unitText|
    requires t.intDigits == s[..a] && t.fracDigits == s[b0..b] && t.spaces == s[b..c]
    ensures a == DigitRun(s)
    ensures t.hasDot ==> b == b0 + DigitRun(s[b0..])
    ensures c == b + SpaceRun(s[b..])
  {
    StopsAt(t, s, withThousand, a, b, c);
    IntRun(s, a);
    if t.hasDot {
      FracRun(s, b0, b);
    }
    WhiteRun(s, b, c);
  }

  /** `Stops` with the positions of the parts named. */
  lemma {:induction false} StopsAt(t: Token, s: string, withThousand: bool, a: nat, b: nat, c: nat)
    requires Stops(t, s, withThousand)
    requires a == |t.intDigits|
    requires b == a + (if t.hasDot then 1 else 0) + |t.fracDigits| && c == b + |t.spaces|
    ensures c <= |s|
    ensures a == |s| || !IsDigit(s[a])
    ensures t.hasDot ==> b == |s| || !IsDigit(s[b])
    ensures c == |s| || !IsSpace(s[c])
  {
  }

  /** The dot condition of `Stops`, with the position named. */
  lemma {:induction false} StopsDot(t: Token, s: string, withThousand: bool, a: nat)
    requires Stops(t, s, withThousand)
    requires a == |t.intDigits|
    ensures !t.hasDot ==> a == |s| || s[a] != '.'
  {
  }

  /** The unit condition of `Stops`, with the position named. */
  lemma {:induction false} StopsUnit(t: Token, s: string, withThousand: bool, c: nat)
    requires Stops(t, s, withThousand)
    requires c == PartEnds(t).2
    ensures t.unit == MatchUnit(s[c..], withThousand)
  {
  }

  lemma {:induction false} IntRun(s: string, a: nat)
    requires a <= |s| && AllDigits(s[..a]) && (a == |s| || !IsDigit(s[a]))
    ensures a == DigitRun(s)
  {
    assert forall k :: 0 <= k < a ==> s[k] == s[..a][k];
    DigitRunIs(s, a);
  }

  lemma {:induction false} FracRun(s: string, b0: nat, b: nat)
    requires b0 <= b <= |s| && AllDigits(s[b0..b]) && (b == |s| || !IsDigit(s[b]))
    ensures b == b0 + DigitRun(s[b0..])
  {
    assert forall k :: 0 <= k < b - b0 ==> s[b0..][k] == s[b0..b][k];
    assert b < |s| ==> s[b0..][b - b0] == s[b];
    DigitRunIs(s[b0..], b - b0);
  }

  lemma {:induction false} WhiteRun(s: string, b: nat, c: nat)
    requires b <= c <= |s| && (forall k :: 0 <= k < c - b ==> IsSpace(s[b..c][k]))
    requires c == |s| || !IsSpace(s[c])
    ensures c == b + SpaceRun(s[b..])
  {
    assert forall k :: 0 <= k < c - b ==> s[b..][k] == s[b..c][k];
    assert c < |s| ==> s[b..][c - b] == s[c];
    SpaceRunIs(s[b..], c - b);
  }

  /** A digit run that stops at a non-digit (or the end) is the run
      `DigitRun` measures. */
  lemma {:induction false} DigitRunIs(s: string, n: nat)
    requires n <= |s| && (forall k :: 0 <= k < n ==> IsDigit(s[k]))
    requires n == |s| || !IsDigit(s[n])
    ensures DigitRun(s) == n
    decreases n
  {
    if n > 0 {
      DigitRunIs(s[1..], n - 1);
    }
  }

  /** A white-space run that stops at a non-space (or the end) is the run
      `SpaceRun` measures. */
  lemma {:induction false} SpaceRunIs(s: string, n: nat)
    requires n <= |s| && (forall k :: 0 <= k < n ==> IsSpace(s[k]))
    requires n == |s| || !IsSpace(s[n])
    ensures SpaceRun(s) == n
    decreases n
  {
    if n > 0 {
      SpaceRunIs(s[1..], n - 1);
    }
  }

  /** The length of the match at the start of `s`: at least the first digit. */
  function TokenLength(s: string, withThousand: bool): (n: nat)
    requires |s| > 0 && IsDigit(s[0])
    ensures 1 <= n <= |s|
  {
    var t := TokenAt(s, withThousand);
    assert StartsWith(s, Text(t));
    |Text(t)|
  }

  /** The first match of the expression in `s`: it starts at the first digit
      of `s`, and there is none when `s` has no digit. */
  function FirstToken(s: string, withThousand: bool): (r: Option<(nat, Token)>)
    ensures r.None? <==> forall k :: 0 <= k < |s| ==> !IsDigit(s[k])
    ensures r.Some? ==> r.value.0 < |s| && IsDigit(s[r.value.0])
                        && (forall k :: 0 <= k < r.value.0 ==> !IsDigit(s[k]))
                        && r.value.1 == TokenAt(s[r.value.0..], withThousand)
  {
    match FirstIndex(s, IsDigit)
    case Some(i) => Some((i, TokenAt(s[i..], withThousand)))
    case None => None
  }

  /** `s.replace(expression, '')` with the `g` flag: every match, found left
      to right without overlap, is removed. No digit survives, since every
      digit starts or lies inside a match, and nothing is added. */
  function StripTokens(s: string, withThousand: bool): (r: string)
    ensures forall k :: 0 <= k < |r| ==> !IsDigit(r[k])
    ensures multiset(r) <= multiset(s)
    decreases |s|
  {
    if |s| == 0 then ""
    else if IsDigit(s[0]) then
      var n := TokenLength(s, withThousand);
      DropMultiset(s, n);
      StripTokens(s[n..], withThousand)
    else
      ConsMultiset(s, StripTokens(s[1..], withThousand));
      [s[0]] + StripTokens(s[1..], withThousand)
  }

  /** Text without digits holds no match, so stripping leaves it as it is. */
  lemma {:induction false} StripTokensNoDigit(s: string, withThousand: bool)
    requires forall k :: 0 <= k < |s| ==> !IsDigit(s[k])
    ensures StripTokens(s, withThousand) == s
    decreases |s|
  {
    if |s| > 0 {
      StripTokensNoDigit(s[1..], withThousand);
      assert [s[0]] + s[1..] == s;
    }
  }

  /** Stripping works left to right: a digit-free prefix is kept as it is. */
  lemma {:induction false} StripTokensPrefix(a: string, b: string, withThousand: bool)
    requires forall k :: 0 <= k < |a| ==> !IsDigit(a[k])
    ensures StripTokens(a + b, withThousand) == a + StripTokens(b, withThousand)
    decreases |a|
  {
    if |a| == 0 {
      assert a + b == b;
    } else {
      var s := a + b;
      assert s[0] == a[0] && s[1..] == a[1..] + b;
      StripTokensKeep(s, withThousand);
      StripTokensPrefix(a[1..], b, withThousand);
      var rest := StripTokens(b, withThousand);
      assert [a[0]] + (a[1..] + rest) == a + rest;
    }
  }

  /** A character other than a digit is kept, and stripping carries on
      after it. */
  lemma {:induction false} StripTokensKeep(s: string, withThousand: bool)
    requires |s| > 0 && !IsDigit(s[0])
    ensures StripTokens(s, withThousand) == [s[0]] + StripTokens(s[1..], withThousand)
  {
  }

  /** At a digit, stripping drops the whole match `t` found there. */
  lemma {:induction false} StripTokensAt(s: string, withThousand: bool, t: Token)
    requires |s| > 0 && IsDigit(s[0]) && TokenAt(s, withThousand) == t
    ensures |Text(t)| <= |s|
    ensures StripTokens(s, withThousand) == StripTokens(s[|Text(t)|..], withThousand)
  {
  }

  /** A run of digits, a space and then a text that starts with neither
      white space nor a unit word make one match: stripping removes the
      digits with the space and carries on after them. */
  lemma {:induction false} StripNumberSpace(n: string, rest: string, withThousand: bool)
    requires |n| > 0 && forall k :: 0 <= k < |n| ==> IsDigit(n[k])
    requires |rest| > 0 && !IsSpace(rest[0]) && MatchUnit(rest, withThousand) == NoUnit
    ensures StripTokens(n + " " + rest, withThousand) == StripTokens(rest, withThousand)
  {
    var s := n + " " + rest;
    var t := Token(n, false, "", " ", "", NoUnit);
    assert Text(t) == n + " ";
    assert s[..|n| + 1] == n + " ";
    assert s[|n|] == ' ' && s[|n| + 1..] == rest;
    StopsFrom(t, s, withThousand, |n|, |n|, |n| + 1);
    TokenAtUnique(s, withThousand, t);
    StripTokensAt(s, withThousand, t);
  }

  /** A run of digits is stripped away entirely: what is left has no digit
      and only characters of the run. */
  lemma {:induction false} StripTokensDigits(n: string, withThousand: bool)
    requires forall k :: 0 <= k < |n| ==> IsDigit(n[k])
    ensures StripTokens(n, withThousand) == []
  {
  }

  /** The number a string of integer digits and fraction digits denotes. */
  function DecimalValue(intDigits: string, fracDigits: string): real
    requires AllDigits(intDigits) && AllDigits(fracDigits)
  {
    DigitsValue(intDigits) as real + DigitsValue(fracDigits) as real / Pow10(|fracDigits|) as real
  }

  /** `match.replace(/[^\d.]/g, '')`: only the digits and dots are kept. */
  function NumericChars(s: string): string
  {
    Keep(s, NumericChar)
  }

  /** The characters `[\d.]` matches. */
  predicate NumericChar(c: char)
  {
    IsDigit(c) || c == '.'
  }

  /** `parseFloat` on a string of digits and dots: the longest prefix of the
      form `digits`, `digits.digits`, `digits.` or `.digits` is read, and a
      string with no such prefix is not a number (`NaN`, here `None`). */
  function ParseFloat(s: string): Option<real>
  {
    var n := DigitRun(s);
    if n < |s| && s[n] == '.' then
      var m := DigitRun(s[n + 1..]);
      if n == 0 && m == 0 then None
      else Some(DecimalValue(s[..n], s[n + 1..][..m]))
    else if n == 0 then None
    else Some(DecimalValue(s[..n], ""))
  }

  /** The unit test of the interpreter, as written: the lower-cased match
      contains `mil` or `k`. */
  predicate Scaled(t: Token)
  {
    Contains(ToLower(Text(t)), "mil") || Contains(ToLower(Text(t)), "k")
  }

  /** The amount a match stands for: its numeric characters read as a number,
      times 1000 when the match passes the unit test. */
  function Amount(t: Token): Option<real>
  {
    match ParseFloat(NumericChars(Text(t)))
    case None => None
    case Some(n) => Some(if Scaled(t) then n * 1000.0 else n)
  }

  /** The digits and dot of a well-formed match are its numeric characters:
      white space and unit letters are neither digits nor dots. */
  lemma {:induction false} NumericCharsOfToken(t: Token, withThousand: bool)
    requires WellFormed(t, withThousand)
    ensures NumericChars(Text(t)) == t.intDigits + (if t.hasDot then "." else "") + t.fracDigits
  {
    var dot := if t.hasDot then "." else "";
    KeepAll(t.intDigits, NumericChar);
    KeepAll(dot, NumericChar);
    KeepAll(t.fracDigits, NumericChar);
    KeepNone(t.spaces, NumericChar);
    UnitNotNumeric(t.unitText, t.unit);
    KeepNone(t.unitText, NumericChar);
    KeepAppend(t.intDigits, dot, NumericChar);
    KeepAppend(t.intDigits + dot, t.fracDigits, NumericChar);
    KeepAppend(t.intDigits + dot + t.fracDigits, t.spaces, NumericChar);
    KeepAppend(t.intDigits + dot + t.fracDigits + t.spaces, t.unitText, NumericChar);
  }

  /** A unit word, in any case, has no digit and no dot. */
  lemma {:induction false} UnitNotNumeric(text: string, u: Unit)
    requires ToLower(text) == UnitWord(u)
    ensures forall k :: 0 <= k < |text| ==> !NumericChar(text[k])
  {
    forall k | 0 <= k < |text|
      ensures !NumericChar(text[k])
    {
      assert LowerChar(text[k]) == UnitWord(u)[k];
    }
  }

  lemma {:induction false} KeepNone<T>(xs: seq<T>, p: T -> bool)
    requires forall k :: 0 <= k < |xs| ==> !p(xs[k])
    ensures Keep(xs, p) == []
    decreases |xs|
  {
    if |xs| > 0 {
      KeepNone(xs[1..], p);
    }
  }

  /** `parseFloat` reads a digit string, with or without a fraction, as the
      decimal number it denotes. */
  lemma {:induction false} ParseFloatDecimal(intDigits: string, hasDot: bool, fracDigits: string)
    requires |intDigits| >= 1 && AllDigits(intDigits) && AllDigits(fracDigits)
    requires !hasDot ==> fracDigits == ""
    ensures ParseFloat(intDigits + (if hasDot then "." else "") + fracDigits)
            == Some(DecimalValue(intDigits, fracDigits))
  {
    var s := intDigits + (if hasDot then "." else "") + fracDigits;
    var n := |intDigits|;
    DigitRunPrefix(intDigits, (if hasDot then "." else "") + fracDigits);
    assert s == intDigits + ((if hasDot then "." else "") + fracDigits);
    assert s[..n] == intDigits;
    if hasDot {
      assert s[n] == '.';
      assert s[n + 1..] == fracDigits;
      DigitRunPrefix(fracDigits, "");
      assert fracDigits + "" == fracDigits;
      assert fracDigits[..|fracDigits|] == fracDigits;
    } else {
      assert s == intDigits;
    }
  }

  /** A run of digits followed by a non-digit (or by nothing) is exactly
      what `DigitRun` measures. */
  lemma {:induction false} DigitRunPrefix(a: string, b: string)
    requires AllDigits(a)
    requires |b| == 0 || !IsDigit(b[0])
    ensures DigitRun(a + b) == |a|
    decreases |a|
  {
    if |a| > 0 {
      assert (a + b)[1..] == a[1..] + b;
      DigitRunPrefix(a[1..], b);
    } else {
      assert a + b == b;
    }
  }

  /** The unit test as written holds exactly when the unit is `mil` or `k`:
      `thousand` holds neither, and the digits, dot and white space before
      the unit hold no letter of either word. */
  lemma {:induction false} ScaledIff(t: Token, withThousand: bool)
    requires WellFormed(t, withThousand)
    ensures Scaled(t) <==> t.unit == Mil || t.unit == K
  {
    var num := LowerText(t, withThousand);
    UnitContains(num, t.unit);
  }

  /** The lower-cased text of a well-formed match: the unchanged digits, dot
      and white space, then the unit word. */
  lemma {:induction false} LowerText(t: Token, withThousand: bool) returns (num: string)
    requires WellFormed(t, withThousand)
    ensures ToLower(Text(t)) == num + UnitWord(t.unit)
    ensures 'm' !in num && 'k' !in num
  {
    var dot := if t.hasDot then "." else "";
    num := t.intDigits + dot + t.fracDigits + t.spaces;
    NoLetters(t.intDigits);
    NoLetters(dot);
    NoLetters(t.fracDigits);
    NoLetters(t.spaces);
    ToLowerAppend(t.intDigits, dot);
    ToLowerAppend(t.intDigits + dot, t.fracDigits);
    ToLowerAppend(t.intDigits + dot + t.fracDigits, t.spaces);
    ToLowerAppend(num, t.unitText);
  }

  /** After a prefix with no `m` and no `k`, `mil` or `k` occurs exactly
      when the unit word is one of them. */
  lemma {:induction false} UnitContains(num: string, u: Unit)
    requires 'm' !in num && 'k' !in num
    ensures Contains(num + UnitWord(u), "mil") || Contains(num + UnitWord(u), "k")
            <==> u == Mil || u == K
  {
    UnitContainsMil(num, u);
    UnitContainsK(num, u);
  }

  lemma {:induction false} UnitContainsMil(num: string, u: Unit)
    requires 'm' !in num
    ensures Contains(num + UnitWord(u), "mil") <==> u == Mil
  {
    ContainsSkipPrefix(num, UnitWord(u), "mil");
    if u == Mil {
      assert StartsWith(UnitWord(u), "mil");
    } else {
      NotContains(UnitWord(u), "mil", 'm');
    }
  }

  lemma {:induction false} UnitContainsK(num: string, u: Unit)
    requires 'k' !in num
    ensures Contains(num + UnitWord(u), "k") <==> u == K
  {
    ContainsSkipPrefix(num, UnitWord(u), "k");
    if u == K {
      assert StartsWith(UnitWord(u), "k");
    } else {
      NotContains(UnitWord(u), "k", 'k');
    }
  }

  /** Digits, dots and white space are their own lower case and are not the
      letters `m` or `k`. */
  lemma {:induction false} NoLetters(s: string)
    requires forall k :: 0 <= k < |s| ==> IsDigit(s[k]) || s[k] == '.' || IsSpace(s[k])
    ensures ToLower(s) == s
    ensures 'm' !in s && 'k' !in s
  {
  }

  /** The amount of a match: the decimal number it starts with, times 1000
      exactly when the unit word is `mil` or `k` in any case; `thousand`
      multiplies nothing. */
  lemma {:induction false} AmountOfToken(t: Token, withThousand: bool)
    requires WellFormed(t, withThousand)
    ensures Amount(t) == Some(DecimalValue(t.intDigits, t.fracDigits)
                              * (if t.unit == Mil || t.unit == K then 1000.0 else 1.0))
  {
    NumericCharsOfToken(t, withThousand);
    ParseFloatDecimal(t.intDigits, t.hasDot, t.fracDigits);
    assert ParseFloat(NumericChars(Text(t))) == Some(DecimalValue(t.intDigits, t.fracDigits));
    ScaledIff(t, withThousand);
  }
}

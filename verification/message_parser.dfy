/** The interpreter of chat messages (`parseMessage`). It lower-cases and
    trims the message and tests it against groups of phrases in a fixed
    order; when no group matches it looks for an amount in the message as
    typed and, if it finds a positive one, reads an expense out of it. */
module MessageParser {
  import opened Optional
  import opened Strings
  import opened Seqs
  import opened Dates
  import opened Types
  import opened AmountScanner

  const HelpPhrases: seq<string> := ["ayuda", "help", "cómo funciona", "qué puedo hacer"]
  const ReportPhrases: seq<string> := ["reporte", "resumen", "gastos del mes", "mis gastos"]
  const ExportPhrases: seq<string> := ["exportar", "descargar", "excel", "csv"]
  const BiggestPhrases: seq<string> := ["mayor gasto", "más caro"]
  const TopPhrases: seq<string> := ["top", "mayores gastos"]
  const PreferencePhrases: seq<string> := ["activar", "desactivar"]

  /** The `razon` of a message that is not understood. */
  const NaReason: string :=
    "No se pudo interpretar el mensaje. Intenta ser más específico con el monto y descripción."

  /** The description of an expense whose message leaves no words. */
  const DefaultDescription: string := "Gasto registrado"

  /** `message.toLowerCase().trim()`: the text the phrase tests look at. */
  function Lowered(message: string): (r: string)
    ensures |r| <= |message|
    ensures r == [] || (!IsSpace(r[0]) && !IsSpace(r[|r| - 1]))
  {
    Trim(ToLower(message))
  }

  /** The first day of the month of `today`: the start of the reported
      period. */
  function StartOfMonth(today: Date): Date
  {
    Date(today.year, today.month, 1)
  }

  /** None of the phrase groups matches: the message is read as an
      expense, if it can be. */
  predicate NoPhrase(lower: string)
  {
    && !ContainsAny(lower, HelpPhrases)
    && !ContainsAny(lower, ReportPhrases)
    && !ContainsAny(lower, ExportPhrases)
    && !ContainsAny(lower, BiggestPhrases)
    && !ContainsAny(lower, TopPhrases)
    && !ContainsAny(lower, PreferencePhrases)
  }

  // ---------------------------------------------------------------------
  // Preferences

  datatype Accion = Activar | Desactivar
  datatype Frecuencia = Diario | Semanal | Mensual

  /** The action and period the preference branch computes (and then
      discards): `activar` when the message includes it, else
      `desactivar`; the period starts as `diario`, becomes `semanal` when
      the message includes it and then `mensual` when it includes that. */
  function PreferenceDetail(lower: string): (Accion, Frecuencia)
  {
    var accion := if Contains(lower, "activar") then Activar else Desactivar;
    var semanal := if Contains(lower, "semanal") then Semanal else Diario;
    var frecuencia := if Contains(lower, "mensual") then Mensual else semanal;
    (accion, frecuencia)
  }

  /** Whenever the preference branch is taken the action is `activar`:
      `desactivar` contains `activar`, so the `desactivar` alternative is
      never chosen. Both periods named: `mensual` wins. */
  lemma {:induction false} PreferenceAlwaysActivar(lower: string)
    requires ContainsAny(lower, PreferencePhrases)
    ensures PreferenceDetail(lower).0 == Activar
    ensures Contains(lower, "mensual") ==> PreferenceDetail(lower).1 == Mensual
    ensures !Contains(lower, "mensual") && Contains(lower, "semanal") ==> PreferenceDetail(lower).1 == Semanal
  {
    var p :| p in PreferencePhrases && Contains(lower, p);
    if p == "desactivar" {
      assert OccursAt("desactivar", "activar", 3);
      OccursContains("desactivar", "activar", 3);
      ContainsTransitive(lower, "desactivar", "activar");
    }
  }

  // ---------------------------------------------------------------------
  // Category

  /** The keyword object of the category loop, in insertion order. */
  const Keywords: seq<(string, string)> := [
    ("comida", "alimentacion"), ("almuerzo", "alimentacion"), ("cena", "alimentacion"),
    ("gasolina", "transporte"), ("taxi", "transporte"), ("bus", "transporte"),
    ("arriendo", "vivienda"), ("luz", "vivienda"), ("agua", "vivienda"),
    ("médico", "salud"), ("medicina", "salud"), ("doctor", "salud")]

  /** `Object.values` of an object given by its entries. */
  function ObjectValues(entries: seq<(string, string)>): (r: seq<string>)
    ensures |r| == |entries| && forall i :: 0 <= i < |r| ==> r[i] == entries[i].1
  {
    seq(|entries|, i requires 0 <= i < |entries| => entries[i].1)
  }

  /** `Object.values` of the keyword object: the category ids. */
  const KeywordValues: seq<string> := ObjectValues(Keywords)

  /** `Object.keys` of a string: its indices as decimal text. */
  function StringKeys(s: string): seq<string>
  {
    seq(|s|, i requires 0 <= i < |s| => Decimal(i))
  }

  /** `Object.values` of a string: its characters as one-character strings. */
  function StringValues(s: string): seq<string>
  {
    seq(|s|, i requires 0 <= i < |s| => [s[i]])
  }

  /** The category loop as written: it walks the category ids (the values
      of the keyword object, not its keys), tests whether the message
      includes each id's first key and, on the first hit, takes the id's
      first value. (An empty id, which the table does not hold, has no
      first key and counts as no hit.) */
  function CategoryAsWritten(lower: string, ids: seq<string>): string
    decreases |ids|
  {
    if |ids| == 0 then "otros"
    else if |ids[0]| > 0 && Contains(lower, StringKeys(ids[0])[0]) then StringValues(ids[0])[0]
    else CategoryAsWritten(lower, ids[1..])
  }

  /** The loop never finds a hit in a message without `0`. */
  lemma {:induction false} CategoryWithoutZero(lower: string, ids: seq<string>)
    requires !Contains(lower, "0")
    ensures CategoryAsWritten(lower, ids) == "otros"
    decreases |ids|
  {
    if |ids| > 0 {
      assert |ids[0]| > 0 ==> StringKeys(ids[0])[0] == Decimal(0) == "0";
      CategoryWithoutZero(lower, ids[1..]);
    }
  }

  /** What the loop computes: the first key of every id is `"0"`, so the
      category is `a` (the first letter of `alimentacion`) exactly when the
      message includes the digit 0, and `otros` otherwise. The keywords
      themselves are never looked at. */
  lemma {:induction false} CategoryZeroLaw(lower: string)
    ensures CategoryAsWritten(lower, KeywordValues) == if Contains(lower, "0") then "a" else "otros"
  {
    assert KeywordValues[0] == "alimentacion";
    assert StringKeys(KeywordValues[0])[0] == Decimal(0) == "0";
    if !Contains(lower, "0") {
      CategoryWithoutZero(lower, KeywordValues);
    }
  }

  /** The lookup the keyword object describes: the category of the first
      keyword the message includes, `otros` when it includes none. */
  function KeywordCategory(lower: string, entries: seq<(string, string)>): (r: string)
    ensures r == "otros" || exists i :: 0 <= i < |entries| && r == entries[i].1 && Contains(lower, entries[i].0)
    ensures (forall i :: 0 <= i < |entries| ==> !Contains(lower, entries[i].0)) ==> r == "otros"
    decreases |entries|
  {
    if |entries| == 0 then "otros"
    else if Contains(lower, entries[0].0) then entries[0].1
    else
      var r := KeywordCategory(lower, entries[1..]);
      assert forall i :: 1 <= i < |entries| ==> entries[i] == entries[1..][i - 1];
      r
  }

  /** The loop as written and the keyword lookup disagree both ways: a
      message naming a keyword and holding a 0 is filed under `a`, and one
      without a 0 under `otros`, where the lookup gives the keyword's
      category. */
  lemma {:induction false} CategoryDiverges()
    ensures CategoryAsWritten("comida 5000", KeywordValues) == "a"
    ensures CategoryAsWritten("comida 25", KeywordValues) == "otros"
    ensures KeywordCategory("comida 5000", Keywords) == "alimentacion"
    ensures KeywordCategory("comida 25", Keywords) == "alimentacion"
  {
    WithZero("comida 5000", 8);
    WithoutZero("comida 25");
    KeywordFirst("comida 5000");
    KeywordFirst("comida 25");
  }

  lemma {:induction false} WithZero(lower: string, i: nat)
    requires i < |lower| && lower[i] == '0'
    ensures CategoryAsWritten(lower, KeywordValues) == "a"
  {
    assert lower[i..i + 1] == ['0'];
    ContainsChar(lower, '0');
    CategoryZeroLaw(lower);
  }

  lemma {:induction false} WithoutZero(lower: string)
    requires '0' !in lower
    ensures CategoryAsWritten(lower, KeywordValues) == "otros"
  {
    ContainsChar(lower, '0');
    CategoryZeroLaw(lower);
  }

  /** A message starting with `comida` gets the first keyword's category. */
  lemma {:induction false} KeywordFirst(lower: string)
    requires StartsWith(lower, "comida")
    ensures KeywordCategory(lower, Keywords) == "alimentacion"
  {
    assert Keywords[0] == ("comida", "alimentacion");
  }

  /** `0` survives lower-casing and trimming, and nothing else turns into
      it. */
  lemma {:induction false} ZeroInLowered(message: string)
    ensures Contains(Lowered(message), "0") <==> '0' in message
  {
    var low := ToLower(message);
    ContainsChar(Lowered(message), '0');
    assert "0" == ['0'];
    TrimKeeps(low, '0');
    ZeroInToLower(message);
  }

  lemma {:induction false} ZeroInToLower(message: string)
    ensures '0' in ToLower(message) <==> '0' in message
  {
    var low := ToLower(message);
    if '0' in message {
      var k :| 0 <= k < |message| && message[k] == '0';
      assert low[k] == '0';
    }
    if '0' in low {
      var k :| 0 <= k < |low| && low[k] == '0';
      LowerCharClasses(message[k]);
    }
  }

  // ---------------------------------------------------------------------
  // Description

  /** The words removed from the description, tried in this order. */
  const FillerWords: seq<string> := ["gasté", "pagué", "compré", "en"]

  /** The filler word that starts `s`, ignoring case, if any. */
  function FillerAt(s: string): (r: Option<string>)
    ensures r.Some? ==> r.value in FillerWords && |r.value| > 0 && StartsWithIgnoreCase(s, r.value)
    ensures r.None? ==> forall i :: 0 <= i < |FillerWords| ==> !StartsWithIgnoreCase(s, FillerWords[i])
  {
    if StartsWithIgnoreCase(s, "gasté") then Some("gasté")
    else if StartsWithIgnoreCase(s, "pagué") then Some("pagué")
    else if StartsWithIgnoreCase(s, "compré") then Some("compré")
    else if StartsWithIgnoreCase(s, "en") then Some("en")
    else None
  }

  /** `s.replace(/gasté|pagué|compré|en/gi, '')`: every filler word found
      scanning left to right is removed, inside words too. Only characters
      of `s` remain. */
  function RemoveFillers(s: string): (r: string)
    ensures multiset(r) <= multiset(s) && |r| <= |s|
    decreases |s|
  {
    if |s| == 0 then ""
    else match FillerAt(s)
      case Some(w) =>
        DropMultiset(s, |w|);
        RemoveFillers(s[|w|..])
      case None =>
        ConsMultiset(s, RemoveFillers(s[1..]));
        [s[0]] + RemoveFillers(s[1..])
  }

  /** A character that starts no filler word is kept. */
  lemma {:induction false} RemoveFillersKeep(c: char, rest: string)
    requires FillerAt([c] + rest).None?
    ensures RemoveFillers([c] + rest) == [c] + RemoveFillers(rest)
  {
    assert ([c] + rest)[1..] == rest;
  }

  /** A text in which no filler word starts anywhere is left as it is. */
  lemma {:induction false} RemoveFillersNone(s: string)
    requires forall i :: 0 <= i < |s| ==> FillerAt(s[i..]).None?
    ensures RemoveFillers(s) == s
    decreases |s|
  {
    if |s| > 0 {
      assert FillerAt(s[0..]).None? && s[0..] == s;
      forall i | 0 <= i < |s| - 1
        ensures FillerAt(s[1..][i..]).None?
      {
        assert s[1..][i..] == s[i + 1..];
      }
      RemoveFillersNone(s[1..]);
      assert [s[0]] + s[1..] == s;
    }
  }

  /** A filler word, in any case, at the start of a text is the one found
      there: the filler words begin with different letters. */
  lemma {:induction false} FillerWordAt(f: string, rest: string)
    requires ToLower(f) in FillerWords
    ensures FillerAt(f + rest) == Some(ToLower(f))
  {
    var s := f + rest;
    var w := ToLower(f);
    assert s[..|f|] == f;
    forall u | u in FillerWords && u[0] != w[0]
      ensures !StartsWithIgnoreCase(s, u)
    {
      if |u| <= |s| {
        assert ToLower(s[..|u|])[0] == LowerChar(s[0]) == w[0];
      }
    }
  }

  /** No filler word starts a text whose first letter starts none of them. */
  lemma {:induction false} NoFillerAt(s: string)
    requires |s| > 0 ==> LowerChar(s[0]) !in "gpce"
    ensures FillerAt(s).None?
  {
    forall u | u in FillerWords
      ensures !StartsWithIgnoreCase(s, u)
    {
      if |u| <= |s| {
        assert ToLower(s[..|u|])[0] == LowerChar(s[0]);
      }
    }
  }

  /** A filler word, in any case, at the start of a text is removed, and
      removal carries on after it. */
  lemma {:induction false} RemoveFillersFiller(f: string, rest: string)
    requires ToLower(f) in FillerWords
    ensures RemoveFillers(f + rest) == RemoveFillers(rest)
  {
    FillerWordAt(f, rest);
    assert (f + rest)[|f|..] == rest;
  }

  /** Removal leaves a text as it is exactly when no filler word starts
      anywhere in it. */
  lemma {:induction false} RemoveFillersIdentity(s: string)
    ensures RemoveFillers(s) == s <==> forall i :: 0 <= i < |s| ==> FillerAt(s[i..]).None?
  {
    if forall i :: 0 <= i < |s| ==> FillerAt(s[i..]).None? {
      RemoveFillersNone(s);
    } else {
      var i :| 0 <= i < |s| && FillerAt(s[i..]).Some?;
      RemoveFillersShrinks(s, i);
    }
  }

  /** A filler word starting anywhere makes the text shorter. */
  lemma {:induction false} RemoveFillersShrinks(s: string, i: nat)
    requires i < |s| && FillerAt(s[i..]).Some?
    ensures |RemoveFillers(s)| < |s|
    decreases i
  {
    assert s[0..] == s;
    if FillerAt(s).None? {
      assert s[1..][i - 1..] == s[i..];
      RemoveFillersShrinks(s[1..], i - 1);
    }
  }

  /** Removal works left to right: a prefix at none of whose positions a
      filler word starts is kept as it is. */
  lemma {:induction false} RemoveFillersPrefix(a: string, b: string)
    requires forall i :: 0 <= i < |a| ==> FillerAt((a + b)[i..]).None?
    ensures RemoveFillers(a + b) == a + RemoveFillers(b)
    decreases |a|
  {
    if |a| == 0 {
      assert a + b == b;
    } else {
      var rest := a[1..] + b;
      var tail := RemoveFillers(b);
      assert RemoveFillers(a + b) == [a[0]] + RemoveFillers(rest) by {
        NoFillerShift(a, b);
        RemoveFillersKeep(a[0], rest);
      }
      assert RemoveFillers(rest) == a[1..] + tail by {
        NoFillerShift(a, b);
        RemoveFillersPrefix(a[1..], b);
      }
      assert [a[0]] + (a[1..] + tail) == a + tail;
    }
  }

  lemma {:induction false} NoFillerShift(a: string, b: string)
    requires |a| > 0
    requires forall i :: 0 <= i < |a| ==> FillerAt((a + b)[i..]).None?
    ensures a + b == [a[0]] + (a[1..] + b)
    ensures FillerAt([a[0]] + (a[1..] + b)).None?
    ensures forall i :: 0 <= i < |a[1..]| ==> FillerAt((a[1..] + b)[i..]).None?
  {
    var s := a + b;
    assert s[0..] == s && s == [a[0]] + (a[1..] + b);
    forall i | 0 <= i < |a| - 1
      ensures FillerAt((a[1..] + b)[i..]).None?
    {
      assert (a[1..] + b)[i..] == s[i + 1..];
    }
  }

  /** Removal cuts inside words: `cena` loses its `en`. */
  lemma {:induction false} RemoveFillersInsideWord()
    ensures RemoveFillers("cena") == "ca"
  {
    assert "cena"[..2] == "ce";
    assert ToLower("ce") == "ce";
    assert !StartsWithIgnoreCase("cena", "en");
    assert FillerAt("cena") == None;
    assert "cena"[1..] == "ena";
    assert ToLower("en") == "en";
    assert FillerAt("ena") == Some("en");
    assert "ena"[..2] == "en";
    assert "ena"[2..] == "a";
    assert FillerAt("a") == None;
    assert RemoveFillers("a") == "a";
  }

  /** Removal is not idempotent: removing the `en` inside `eenn` joins a new
      `en`, which a second removal takes away. */
  lemma {:induction false} RemoveFillersNotIdempotent()
    ensures RemoveFillers("eenn") == "en"
    ensures RemoveFillers("en") == ""
  {
    assert "eenn"[..2] == "ee";
    assert ToLower("ee") == "ee";
    assert !StartsWithIgnoreCase("eenn", "en");
    assert FillerAt("eenn") == None;
    assert "eenn"[1..] == "enn";
    assert ToLower("en") == "en";
    assert "enn"[..2] == "en";
    assert FillerAt("enn") == Some("en");
    assert "enn"[2..] == "n";
    assert FillerAt("n") == None;
    assert RemoveFillers("n") == "n";
    assert "en"[..2] == "en";
    assert FillerAt("en") == Some("en");
    assert "en"[2..] == "";
  }

  /** The description of an expense message: the message without its
      amounts (`\d+\.?\d*\s*(mil|k)?`), trimmed, without filler words,
      trimmed again, or the default text when nothing is left. It is never
      empty and holds no digit; unless it is the default it is made of
      characters of the message and has no white space at either end. */
  function Description(message: string): (r: string)
    ensures |r| > 0
    ensures forall k :: 0 <= k < |r| ==> !IsDigit(r[k])
    ensures r == DefaultDescription
            || (multiset(r) <= multiset(message) && !IsSpace(r[0]) && !IsSpace(r[|r| - 1]))
  {
    var d := Cleaned(message);
    CleanedChars(message);
    CleanedEdges(message);
    DefaultHasNoDigit();
    if |d| > 0 then d else DefaultDescription
  }

  /** The cleaned description has no white space at either end. */
  lemma {:induction false} CleanedEdges(message: string)
    ensures Cleaned(message) == [] || (!IsSpace(Cleaned(message)[0]) && !IsSpace(Cleaned(message)[|Cleaned(message)| - 1]))
  {
  }

  lemma {:induction false} DefaultHasNoDigit()
    ensures |DefaultDescription| > 0
    ensures forall k :: 0 <= k < |DefaultDescription| ==> !IsDigit(DefaultDescription[k])
  {
  }

  /** The description before the default is applied. */
  function Cleaned(message: string): string
  {
    Trim(RemoveFillers(Trim(StripTokens(message, false))))
  }

  /** Every step of the cleaning only removes characters, and the first
      removes every digit. */
  lemma {:induction false} CleanedChars(message: string)
    ensures multiset(Cleaned(message)) <= multiset(message)
    ensures forall k :: 0 <= k < |Cleaned(message)| ==> !IsDigit(Cleaned(message)[k])
  {
    var stripped := StripTokens(message, false);
    var trimmed := Trim(stripped);
    var removed := RemoveFillers(trimmed);
    var d := Trim(removed);
    TrimMultiset(stripped);
    TrimMultiset(removed);
    assert multiset(d) <= multiset(removed) <= multiset(trimmed) <= multiset(stripped) <= multiset(message);
    forall k | 0 <= k < |d|
      ensures !IsDigit(d[k])
    {
      var c := d[k];
      assert c in multiset(stripped);
    }
  }

  // ---------------------------------------------------------------------
  // Amount

  /** The amount of the first number in the message as typed: the first
      match of `(\d+\.?\d*)\s*(mil|k|thousand)?`, read with `parseFloat`
      after dropping all but digits and dots, times 1000 when the lower-cased
      match includes `mil` or `k`. `None` when the message has no digit. */
  function FirstAmount(message: string): Option<real>
  {
    match FirstToken(message, true)
    case None => None
    case Some(m) => Amount(m.1)
  }

  /** There is an amount exactly when the message has a digit. */
  lemma {:induction false} FirstAmountExists(message: string)
    ensures FirstAmount(message).None? <==> forall k :: 0 <= k < |message| ==> !IsDigit(message[k])
  {
    match FirstToken(message, true)
    case None =>
    case Some(m) =>
      AmountOfToken(m.1, true);
  }

  /** The amount in terms of the digits: the decimal number at the first
      digit of the message (integer digits, optional dot and fraction
      digits), times 1000 exactly when the next word, after any white
      space, is `mil` or `k` in any case; `thousand` multiplies nothing. */
  lemma {:induction false} FirstAmountValue(message: string, i: nat, t: Token)
    requires FirstToken(message, true) == Some((i, t))
    ensures WellFormed(t, true)
    ensures FirstAmount(message) == Some(DecimalValue(t.intDigits, t.fracDigits)
                                         * (if t.unit == Mil || t.unit == K then 1000.0 else 1.0))
  {
    AmountOfToken(t, true);
  }

  /** A message made of a word and then a number is described by the word,
      provided no filler word starts anywhere in it. */
  lemma {:induction false} WordThenNumber(w: string, n: string)
    requires |w| > 0 && !IsSpace(w[0]) && !IsSpace(w[|w| - 1])
    requires forall k :: 0 <= k < |w| ==> !IsDigit(w[k])
    requires forall i :: 0 <= i < |w| ==> FillerAt(w[i..]).None?
    requires forall k :: 0 <= k < |n| ==> IsDigit(n[k])
    ensures Description(w + " " + n) == w
  {
    RemoveFillersNone(w);
    StripTokensPrefix(w + " ", n, false);
    StripTokensDigits(n, false);
    assert (w + " ") + [] == w + " ";
    TrailingSpace(w);
    TrimNoEdges(w);
    DescriptionFrom(w + " " + n, w + " ", w, w, w);
  }

  /** A message made of a word, a number and the unit `mil` or `k` after a
      space is described by the word: the whole match, unit included, is
      stripped. */
  lemma {:induction false} WordThenScaledNumber(w: string, n: string, u: string)
    requires |w| > 0 && !IsSpace(w[0]) && !IsSpace(w[|w| - 1])
    requires forall k :: 0 <= k < |w| ==> !IsDigit(w[k])
    requires forall i :: 0 <= i < |w| ==> FillerAt(w[i..]).None?
    requires |n| > 0 && forall k :: 0 <= k < |n| ==> IsDigit(n[k])
    requires ToLower(u) == "mil" || ToLower(u) == "k"
    ensures Description(w + " " + n + " " + u) == w
  {
    StripScaledNumber(w, n, u);
    TrailingSpace(w);
    RemoveFillersNone(w);
    DescriptionFrom(w + " " + n + " " + u, w + " ", w, w, w);
  }

  /** Stripping such a message leaves the word and the space after it. */
  lemma {:induction false} StripScaledNumber(w: string, n: string, u: string)
    requires forall k :: 0 <= k < |w| ==> !IsDigit(w[k])
    requires |n| > 0 && forall k :: 0 <= k < |n| ==> IsDigit(n[k])
    requires ToLower(u) == "mil" || ToLower(u) == "k"
    ensures StripTokens(w + " " + n + " " + u, false) == w + " "
  {
    assert w + " " + n + " " + u == (w + " ") + (n + " " + u);
    StripTokensPrefix(w + " ", n + " " + u, false);
    StripScaledMatch(n, u);
    assert (w + " ") + [] == w + " ";
  }

  /** A number, a space and a unit word make one match, which stripping
      removes entirely. */
  lemma {:induction false} StripScaledMatch(n: string, u: string)
    requires |n| > 0 && forall k :: 0 <= k < |n| ==> IsDigit(n[k])
    requires ToLower(u) == "mil" || ToLower(u) == "k"
    ensures StripTokens(n + " " + u, false) == []
  {
    var s := n + " " + u;
    ScaledUnitWord(u);
    var t := Token(n, false, "", " ", u, MatchUnit(u, false));
    ScaledMatch(n, u, t);
    TokenAtUnique(s, false, t);
    StripTokensAt(s, false, t);
    assert s[|Text(t)|..] == [];
  }

  /** The match of a number, a space and a unit word is all of it. */
  lemma {:induction false} ScaledMatch(n: string, u: string, t: Token)
    requires |n| > 0 && forall k :: 0 <= k < |n| ==> IsDigit(n[k])
    requires |u| > 0 && !IsSpace(u[0])
    requires ToLower(u) == UnitWord(MatchUnit(u, false))
    requires t == Token(n, false, "", " ", u, MatchUnit(u, false))
    ensures Text(t) == n + " " + u
    ensures WellFormed(t, false) && Greedy(t, n + " " + u, false)
  {
    var s := n + " " + u;
    assert Text(t) == s;
    assert s[|n|] == ' ' && s[|n| + 1..] == u;
    StopsFrom(t, s, false, |n|, |n|, |n| + 1);
  }

  /** `mil` and `k`, in any case, are read as their own unit. */
  lemma {:induction false} ScaledUnitWord(u: string)
    requires ToLower(u) == "mil" || ToLower(u) == "k"
    ensures MatchUnit(u, false) == if ToLower(u) == "mil" then Mil else K
  {
    assert u[..|u|] == u;
  }

  /** A message made of a filler word, a number, a filler word and a last
      word, as in "Gasté 2000 en combustible", is described by the last
      word: the number and the space after it go with the amount strip,
      both filler words with the filler removal, and the spaces left over
      with the trim. */
  lemma {:induction false} FillerNumberFillerWord(f: string, n: string, g: string, w: string)
    requires ToLower(f) in FillerWords && ToLower(g) in FillerWords
    requires |n| > 0 && forall k :: 0 <= k < |n| ==> IsDigit(n[k])
    requires |w| > 0 && !IsSpace(w[0]) && !IsSpace(w[|w| - 1])
    requires forall k :: 0 <= k < |w| ==> !IsDigit(w[k])
    requires forall i :: 0 <= i < |w| ==> FillerAt(w[i..]).None?
    ensures Description(f + " " + n + " " + g + " " + w) == w
  {
    var kept := f + " " + g + " " + w;
    StripFillerMessage(f, n, g, w);
    RemoveTwoFillers(f, g, w);
    TrimLeading("  ", w);
    DescriptionFrom(f + " " + n + " " + g + " " + w, kept, kept, "  " + w, w);
  }

  /** The letters of a filler word, in any case, are neither digits nor
      white space. */
  lemma {:induction false} FillerWordChars(f: string)
    requires ToLower(f) in FillerWords
    ensures |f| > 0 && LowerChar(f[0]) in "gpce"
    ensures forall k :: 0 <= k < |f| ==> !IsDigit(f[k]) && !IsSpace(f[k])
  {
    var w := ToLower(f);
    assert forall k :: 0 <= k < |w| ==> !IsDigit(w[k]) && !IsSpace(w[k]);
    forall k | 0 <= k < |f|
      ensures !IsDigit(f[k]) && !IsSpace(f[k])
    {
      LowerCharClasses(f[k]);
      assert w[k] == LowerChar(f[k]);
    }
  }

  /** Stripping the amount out of such a message takes the number and the
      space after it, and the trim then changes nothing. */
  lemma {:induction false} StripFillerMessage(f: string, n: string, g: string, w: string)
    requires ToLower(f) in FillerWords && ToLower(g) in FillerWords
    requires |n| > 0 && forall k :: 0 <= k < |n| ==> IsDigit(n[k])
    requires |w| > 0 && !IsSpace(w[|w| - 1])
    requires forall k :: 0 <= k < |w| ==> !IsDigit(w[k])
    ensures StripTokens(f + " " + n + " " + g + " " + w, false) == f + " " + g + " " + w
    ensures Trim(f + " " + g + " " + w) == f + " " + g + " " + w
  {
    FillerWordChars(f);
    FillerWordChars(g);
    StripFillerNumber(f, n, g, w);
    TrimNoEdges(f + " " + g + " " + w);
  }

  lemma {:induction false} StripFillerNumber(f: string, n: string, g: string, w: string)
    requires forall k :: 0 <= k < |f| ==> !IsDigit(f[k])
    requires |n| > 0 && forall k :: 0 <= k < |n| ==> IsDigit(n[k])
    requires |g| > 0 && !IsSpace(g[0]) && LowerChar(g[0]) in "gpce"
    requires forall k :: 0 <= k < |g| ==> !IsDigit(g[k])
    requires forall k :: 0 <= k < |w| ==> !IsDigit(w[k])
    ensures StripTokens(f + " " + n + " " + g + " " + w, false) == f + " " + g + " " + w
  {
    var rest := g + " " + w;
    SpacedParts(f, n, g, w);
    StripTokensPrefix(f + " ", n + " " + rest, false);
    StripNumberWords(n, g, w);
  }

  /** The number and the space after it are stripped, and the words after
      them are kept. */
  lemma {:induction false} StripNumberWords(n: string, g: string, w: string)
    requires |n| > 0 && forall k :: 0 <= k < |n| ==> IsDigit(n[k])
    requires |g| > 0 && !IsSpace(g[0]) && LowerChar(g[0]) in "gpce"
    requires forall k :: 0 <= k < |g| ==> !IsDigit(g[k])
    requires forall k :: 0 <= k < |w| ==> !IsDigit(w[k])
    ensures StripTokens(n + " " + (g + " " + w), false) == g + " " + w
  {
    var rest := g + " " + w;
    NoUnitAt(rest);
    StripNumberSpace(n, rest, false);
    NoDigitAround(g, w);
    StripTokensNoDigit(rest, false);
  }

  /** How the parts of such a message group. */
  lemma {:induction false} SpacedParts(f: string, n: string, g: string, w: string)
    ensures f + " " + n + " " + g + " " + w == (f + " ") + (n + " " + (g + " " + w))
    ensures f + " " + g + " " + w == f + " " + (g + " " + w)
    ensures " " + (" " + w) == "  " + w
  {
  }

  /** Two texts without digits joined by a space have no digit. */
  lemma {:induction false} NoDigitAround(g: string, w: string)
    requires forall k :: 0 <= k < |g| ==> !IsDigit(g[k])
    requires forall k :: 0 <= k < |w| ==> !IsDigit(w[k])
    ensures forall k :: 0 <= k < |g + " " + w| ==> !IsDigit((g + " " + w)[k])
  {
  }

  /** Removing the filler words of the stripped message leaves two spaces
      and the last word. */
  lemma {:induction false} RemoveTwoFillers(f: string, g: string, w: string)
    requires ToLower(f) in FillerWords && ToLower(g) in FillerWords
    requires forall i :: 0 <= i < |w| ==> FillerAt(w[i..]).None?
    ensures RemoveFillers(f + " " + g + " " + w) == "  " + w
  {
    SpacedParts(f, "", g, w);
    FillerSpace(f, g + " " + w);
    FillerSpace(g, w);
    RemoveFillersNone(w);
  }

  /** A filler word and a space: the word goes and the space stays. */
  lemma {:induction false} FillerSpace(f: string, x: string)
    requires ToLower(f) in FillerWords
    ensures RemoveFillers(f + " " + x) == " " + RemoveFillers(x)
  {
    assert f + " " + x == f + (" " + x);
    RemoveFillersFiller(f, " " + x);
    RemoveFillersSpace(x);
  }

  /** A space starts no filler word and is kept. */
  lemma {:induction false} RemoveFillersSpace(x: string)
    ensures RemoveFillers(" " + x) == " " + RemoveFillers(x)
  {
    NoFillerAt(" " + x);
    RemoveFillersKeep(' ', x);
  }

  /** The description, from the result of each cleaning step. */
  lemma {:induction false} DescriptionFrom(message: string, stripped: string, trimmed: string, kept: string, d: string)
    requires StripTokens(message, false) == stripped && Trim(stripped) == trimmed
    requires RemoveFillers(trimmed) == kept && Trim(kept) == d && |d| > 0
    ensures Description(message) == d
  {
  }

  // ---------------------------------------------------------------------
  // The interpreter

  /** `parseMessage(message)` with `today` standing for the clock: the first
      phrase group the lower-cased, trimmed message includes decides the
      kind; with no phrase, a positive first amount makes an expense dated
      `today`, and anything else is not understood. */
  function ParseMessage(message: string, today: Date): (r: ParsedMessage)
    ensures !r.Editar? && !r.Eliminar?
    ensures r.Ayuda? <==> ContainsAny(Lowered(message), HelpPhrases)
    ensures r.Reporte? || r.Exportar? ==> r.fechaInicio == StartOfMonth(today) && r.fechaFin == today
    ensures r.Gasto? ==>
      && NoPhrase(Lowered(message))
      && r.monto.Some? && r.monto.value > 0.0 && r.monto == FirstAmount(message)
      && r.categoria == Some(if '0' in message then "a" else "otros")
      && r.descripcion == Some(Description(message))
      && r.fecha == Some(today)
    ensures r.Na? ==> r.razon == Some(NaReason)
  {
    var lower := Lowered(message);
    CategoryZeroLaw(lower);
    ZeroInLowered(message);
    if ContainsAny(lower, HelpPhrases) then Ayuda
    else if ContainsAny(lower, ReportPhrases) then Reporte(StartOfMonth(today), today)
    else if ContainsAny(lower, ExportPhrases) then Exportar(StartOfMonth(today), today)
    else if ContainsAny(lower, BiggestPhrases) then Consulta(MayorGasto)
    else if ContainsAny(lower, TopPhrases) then Consulta(TopGastos)
    else if ContainsAny(lower, PreferencePhrases) then Preferencias
    else match FirstAmount(message)
      case Some(amount) =>
        if amount > 0.0 then
          ParsedMessage.Gasto(Some(amount), Some(CategoryAsWritten(lower, KeywordValues)),
                Some(Description(message)), Some(today))
        else Na(Some(NaReason))
      case None => Na(Some(NaReason))
  }

  /** The tests are tried in order and the first that passes decides the
      kind: help, then report, export, the two queries, preferences, and
      only then an amount, which must be positive. */
  lemma {:induction false} ParseCascade(message: string, today: Date)
    ensures var lower := Lowered(message);
      var r := ParseMessage(message, today);
      var help := ContainsAny(lower, HelpPhrases);
      var report := ContainsAny(lower, ReportPhrases);
      var exporting := ContainsAny(lower, ExportPhrases);
      var biggest := ContainsAny(lower, BiggestPhrases);
      var top := ContainsAny(lower, TopPhrases);
      && (r.Reporte? <==> !help && report)
      && (r.Exportar? <==> !help && !report && exporting)
      && (r == Consulta(MayorGasto) <==> !help && !report && !exporting && biggest)
      && (r == Consulta(TopGastos) <==> !help && !report && !exporting && !biggest && top)
      && (r.Preferencias? <==> !help && !report && !exporting && !biggest && !top
                               && ContainsAny(lower, PreferencePhrases))
      && (r.Gasto? <==> NoPhrase(lower) && FirstAmount(message).Some? && FirstAmount(message).value > 0.0)
      && (r.Na? <==> NoPhrase(lower) && (FirstAmount(message).None? || FirstAmount(message).value <= 0.0))
  {
  }

  /** A message with no trigger phrase and no digit is not understood. */
  lemma {:induction false} NoPhraseNoDigitIsNa(message: string, today: Date)
    requires NoPhrase(Lowered(message))
    requires forall k :: 0 <= k < |message| ==> !IsDigit(message[k])
    ensures ParseMessage(message, today) == Na(Some(NaReason))
  {
    FirstAmountExists(message);
  }
}

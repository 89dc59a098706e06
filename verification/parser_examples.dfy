/** The interpreter on the sample messages the help page shows and on the
    edge cases of its amount scanner, each worked out from the model. */
module ParserExamples {
  import opened Optional
  import opened Strings
  import opened Dates
  import opened Types
  import opened AmountScanner
  import opened MessageParser

  /** `l` is the lowered text of `m` when it is `m` lower-cased character by
      character and has no white space at its ends. */
  lemma {:induction false} LoweredIs(m: string, l: string)
    requires |m| == |l| && |l| > 0 && !IsSpace(l[0]) && !IsSpace(l[|l| - 1])
    requires forall k :: 0 <= k < |m| ==> LowerChar(m[k]) == l[k]
    ensures Lowered(m) == l
  {
    assert ToLower(m) == l;
    assert TrimStart(l) == l;
    assert TrimEnd(l) == l;
  }

  /** A word of lower-case ASCII letters is its own lower case. */
  lemma {:induction false} LowerCaseWord(w: string)
    requires forall k :: 0 <= k < |w| ==> 'a' <= w[k] <= 'z'
    ensures ToLower(w) == w
  {
  }

  /** Each phrase has a character `s` lacks, so none occurs in `s`. */
  lemma {:induction false} NoneOf(s: string, phrases: seq<string>, missing: string)
    requires |missing| == |phrases|
    requires forall i :: 0 <= i < |phrases| ==> missing[i] in phrases[i] && missing[i] !in s
    ensures !ContainsAny(s, phrases)
  {
    forall p | p in phrases
      ensures !Contains(s, p)
    {
      var i :| 0 <= i < |phrases| && phrases[i] == p;
      NotContains(s, p, missing[i]);
    }
  }

  /** The amount of a message whose first digit is at `i`, where the match
      `t` starts. */
  lemma {:induction false} AmountAt(s: string, i: nat, t: Token, v: real)
    requires i < |s| && IsDigit(s[i]) && forall k :: 0 <= k < i ==> !IsDigit(s[k])
    requires WellFormed(t, true) && Greedy(t, s[i..], true)
    requires v == DecimalValue(t.intDigits, t.fracDigits) * (if t.unit == Mil || t.unit == K then 1000.0 else 1.0)
    ensures FirstAmount(s) == Some(v)
  {
    TokenAtUnique(s[i..], true, t);
    FirstAmountValue(s, i, t);
  }

  /** A message with a report phrase and no help phrase asks for the report. */
  lemma {:induction false} ReportWhen(message: string, today: Date, lower: string)
    requires Lowered(message) == lower
    requires !ContainsAny(lower, HelpPhrases) && ContainsAny(lower, ReportPhrases)
    ensures ParseMessage(message, today) == Reporte(StartOfMonth(today), today)
  {
  }

  /** A message with no phrase whose first amount is zero is not understood. */
  lemma {:induction false} NaWhen(message: string, today: Date, lower: string)
    requires Lowered(message) == lower && NoPhrase(lower)
    requires FirstAmount(message) == Some(0.0)
    ensures ParseMessage(message, today) == Na(Some(NaReason))
  {
  }

  /** A message with no phrase and a positive first amount is an expense. */
  lemma {:induction false} GastoWhen(message: string, today: Date, lower: string, v: real)
    requires Lowered(message) == lower && NoPhrase(lower)
    requires FirstAmount(message) == Some(v) && v > 0.0
    ensures var r := ParseMessage(message, today);
      && r.Gasto? && r.monto == Some(v) && r.categoria == Some(if '0' in message then "a" else "otros")
      && r.descripcion == Some(Description(message)) && r.fecha == Some(today)
  {
  }

  // ---- The amount scanner -------------------------------------------------

  /** `k` after a number multiplies it, even as the start of `kilos`. */
  lemma {:induction false} KilosAmount()
    ensures FirstAmount("2 kilos") == Some(2000.0)
  {
    var t := Token("2", false, "", " ", "k", K);
    KilosMatch(t);
    assert DigitsValue("2") == 2;
    assert "2 kilos"[0..] == "2 kilos";
    AmountAt("2 kilos", 0, t, 2000.0);
  }

  lemma {:induction false} KilosMatch(t: Token)
    requires t == Token("2", false, "", " ", "k", K)
    ensures WellFormed(t, true) && Greedy(t, "2 kilos", true)
  {
    var s := "2 kilos";
    assert s[2..][..3] == "kil" && s[2..][..1] == "k";
    assert ToLower("kil") != "mil" by { assert ToLower("kil")[0] == 'k'; }
    assert ToLower("k") == "k";
    assert Text(t) == s[..3];
    StopsFrom(t, s, true, 1, 1, 2);
  }

  /** `thousand` is matched but does not multiply. */
  lemma {:induction false} ThousandAmount()
    ensures FirstAmount("5 thousand") == Some(5.0)
  {
    var t := Token("5", false, "", " ", "thousand", Thousand);
    ThousandMatch(t);
    assert DigitsValue("5") == 5;
    assert "5 thousand"[0..] == "5 thousand";
    AmountAt("5 thousand", 0, t, 5.0);
  }

  lemma {:induction false} ThousandMatch(t: Token)
    requires t == Token("5", false, "", " ", "thousand", Thousand)
    ensures WellFormed(t, true) && Greedy(t, "5 thousand", true)
  {
    LowerCaseWord("thousand");
    ThousandStops(t);
  }

  lemma {:induction false} ThousandStops(t: Token)
    requires t == Token("5", false, "", " ", "thousand", Thousand)
    ensures Greedy(t, "5 thousand", true)
  {
    var s := "5 thousand";
    assert s[2..] == "thousand";
    ThousandUnit();
    assert Text(t) == s;
    StopsFrom(t, s, true, 1, 1, 2);
  }

  lemma {:induction false} ThousandUnit()
    ensures MatchUnit("thousand", true) == Thousand
  {
    LowerCaseWord("thousand");
    assert "thousand"[..3] == "tho" && "thousand"[..1] == "t" && "thousand"[..8] == "thousand";
    assert ToLower("tho") != "mil" by { assert ToLower("tho")[0] == 't'; }
    assert ToLower("t") != "k" by { assert ToLower("t")[0] == 't'; }
  }

  /** A dot is a decimal point, not a thousands separator. */
  lemma {:induction false} DottedAmount()
    ensures FirstAmount("15.000") == Some(15.0)
  {
    var s := "15.000";
    var t := Token("15", true, "000", "", "", NoUnit);
    assert Text(t) == s;
    assert s[6..] == [];
    assert DigitsValue("15") == 15 by { assert "15"[..1] == "1"; }
    assert DigitsValue("000") == 0 by { assert "000"[..2] == "00"; assert "00"[..1] == "0"; }
    assert s[0..] == s;
    AmountAt(s, 0, t, 15.0);
  }

  /** Digits after the dot are the fraction. */
  lemma {:induction false} FractionAmount()
    ensures FirstAmount("1000.50") == Some(1000.5)
  {
    var s := "1000.50";
    var t := Token("1000", true, "50", "", "", NoUnit);
    assert Text(t) == s;
    assert s[7..] == [];
    FractionDigits();
    assert s[0..] == s;
    AmountAt(s, 0, t, 1000.5);
  }

  lemma {:induction false} FractionDigits()
    ensures DecimalValue("1000", "50") == 1000.5
  {
    assert DigitsValue("1000") == 1000 by {
      assert "1000"[..3] == "100"; assert "100"[..2] == "10"; assert "10"[..1] == "1";
    }
    assert DigitsValue("50") == 50 by { assert "50"[..1] == "5"; }
  }

  // ---- The trigger cascade ------------------------------------------------

  /** "Exportar gastos del mes" is read as a report: the report phrases are
      tried before the export ones. */
  lemma {:induction false} ExportWordsGiveReport(today: Date)
    ensures ParseMessage("Exportar gastos del mes", today) == Reporte(StartOfMonth(today), today)
  {
    ExportWordsLowered();
    ExportWordsNoHelp();
    ExportWordsReport();
    ReportWhen("Exportar gastos del mes", today, "exportar gastos del mes");
  }

  lemma {:induction false} ExportWordsLowered()
    ensures Lowered("Exportar gastos del mes") == "exportar gastos del mes"
  {
    LoweredIs("Exportar gastos del mes", "exportar gastos del mes");
  }

  lemma {:induction false} ExportWordsNoHelp()
    ensures !ContainsAny("exportar gastos del mes", HelpPhrases)
  {
    // 'y' rules out "ayuda", 'h' rules out "help", 'ó' rules out "cómo funciona", 'q' rules out "qué puedo hacer"
    NoneOf("exportar gastos del mes", HelpPhrases, "yhóq");
  }

  lemma {:induction false} ExportWordsReport()
    ensures ContainsAny("exportar gastos del mes", ReportPhrases)
  {
    var lower := "exportar gastos del mes";
    assert lower[9..23] == "gastos del mes";
    OccursContains(lower, "gastos del mes", 9);
    assert "gastos del mes" in ReportPhrases;
  }

  /** "Activar reporte diario" is read as a report, not as a preference. */
  lemma {:induction false} ActivateReportGivesReport(today: Date)
    ensures ParseMessage("Activar reporte diario", today) == Reporte(StartOfMonth(today), today)
  {
    ActivateReportLowered();
    ActivateReportNoHelp();
    ActivateReportReport();
    ReportWhen("Activar reporte diario", today, "activar reporte diario");
  }

  lemma {:induction false} ActivateReportLowered()
    ensures Lowered("Activar reporte diario") == "activar reporte diario"
  {
    LoweredIs("Activar reporte diario", "activar reporte diario");
  }

  lemma {:induction false} ActivateReportNoHelp()
    ensures !ContainsAny("activar reporte diario", HelpPhrases)
  {
    // 'y' rules out "ayuda", 'h' rules out "help", 'ó' rules out "cómo funciona", 'q' rules out "qué puedo hacer"
    NoneOf("activar reporte diario", HelpPhrases, "yhóq");
  }

  lemma {:induction false} ActivateReportReport()
    ensures ContainsAny("activar reporte diario", ReportPhrases)
  {
    var lower := "activar reporte diario";
    assert lower[8..15] == "reporte";
    OccursContains(lower, "reporte", 8);
    assert "reporte" in ReportPhrases;
  }

  /** "Dame el reporte de 5000" is read as a report, not as an expense. */
  lemma {:induction false} ReportWithNumberGivesReport(today: Date)
    ensures ParseMessage("Dame el reporte de 5000", today) == Reporte(StartOfMonth(today), today)
  {
    ReportWithNumberLowered();
    ReportWithNumberNoHelp();
    ReportWithNumberReport();
    ReportWhen("Dame el reporte de 5000", today, "dame el reporte de 5000");
  }

  lemma {:induction false} ReportWithNumberLowered()
    ensures Lowered("Dame el reporte de 5000") == "dame el reporte de 5000"
  {
    LoweredIs("Dame el reporte de 5000", "dame el reporte de 5000");
  }

  lemma {:induction false} ReportWithNumberNoHelp()
    ensures !ContainsAny("dame el reporte de 5000", HelpPhrases)
  {
    // 'y' rules out "ayuda", 'h' rules out "help", 'ó' rules out "cómo funciona", 'q' rules out "qué puedo hacer"
    NoneOf("dame el reporte de 5000", HelpPhrases, "yhóq");
  }

  lemma {:induction false} ReportWithNumberReport()
    ensures ContainsAny("dame el reporte de 5000", ReportPhrases)
  {
    var lower := "dame el reporte de 5000";
    assert lower[8..15] == "reporte";
    OccursContains(lower, "reporte", 8);
    assert "reporte" in ReportPhrases;
  }

  // ---- Amounts decide between an expense and no result ---------------------

  /** Only the first number counts: "0 en 50 cosas" is not understood, its
      first amount being zero. */
  lemma {:induction false} ZeroFirstIsNa(today: Date)
    ensures ParseMessage("0 en 50 cosas", today) == Na(Some(NaReason))
  {
    var s := "0 en 50 cosas";
    LoweredIs(s, s);
    ZeroFirstNoPhrase();
    ZeroFirstAmount();
    NaWhen(s, today, s);
  }

  lemma {:induction false} ZeroFirstNoPhrase()
    ensures NoPhrase("0 en 50 cosas")
  {
    ZeroFirstNoRequest();
    ZeroFirstNoQuery();
  }

  lemma {:induction false} ZeroFirstNoRequest()
    ensures !ContainsAny("0 en 50 cosas", HelpPhrases)
    ensures !ContainsAny("0 en 50 cosas", ReportPhrases)
    ensures !ContainsAny("0 en 50 cosas", ExportPhrases)
  {
    // 'y' rules out "ayuda", 'h' rules out "help", 'ó' rules out "cómo funciona", 'q' rules out "qué puedo hacer"
    NoneOf("0 en 50 cosas", HelpPhrases, "yhóq");
    // 'r' rules out "reporte", 'r' rules out "resumen", 'g' rules out "gastos del mes", 'm' rules out "mis gastos"
    NoneOf("0 en 50 cosas", ReportPhrases, "rrgm");
    // 'x' rules out "exportar", 'd' rules out "descargar", 'x' rules out "excel", 'v' rules out "csv"
    NoneOf("0 en 50 cosas", ExportPhrases, "xdxv");
  }

  lemma {:induction false} ZeroFirstNoQuery()
    ensures !ContainsAny("0 en 50 cosas", BiggestPhrases)
    ensures !ContainsAny("0 en 50 cosas", TopPhrases)
    ensures !ContainsAny("0 en 50 cosas", PreferencePhrases)
  {
    // 'm' rules out "mayor gasto", 'm' rules out "más caro"
    NoneOf("0 en 50 cosas", BiggestPhrases, "mm");
    // 't' rules out "top", 'm' rules out "mayores gastos"
    NoneOf("0 en 50 cosas", TopPhrases, "tm");
    // 't' rules out "activar", 'd' rules out "desactivar"
    NoneOf("0 en 50 cosas", PreferencePhrases, "td");
  }

  lemma {:induction false} ZeroFirstAmount()
    ensures FirstAmount("0 en 50 cosas") == Some(0.0)
  {
    var s := "0 en 50 cosas";
    var t := Token("0", false, "", " ", "", NoUnit);
    ZeroFirstMatch(t);
    assert DigitsValue("0") == 0;
    assert s[0..] == s;
    AmountAt(s, 0, t, 0.0);
  }

  lemma {:induction false} ZeroFirstMatch(t: Token)
    requires t == Token("0", false, "", " ", "", NoUnit)
    ensures WellFormed(t, true) && Greedy(t, "0 en 50 cosas", true)
  {
    var s := "0 en 50 cosas";
    assert s[2..] == "en 50 cosas";
    NoUnitAt(s[2..]);
    assert Text(t) == s[..2];
    StopsFrom(t, s, true, 1, 1, 2);
  }

  /** "Comí por 15 mil" is an expense of 15000 in category `otros`: `mil`
      multiplies, and the message has no `0`. */
  lemma {:induction false} FifteenMilIsExpense(today: Date)
    ensures var r := ParseMessage("Comí por 15 mil", today);
      && r.Gasto? && r.monto == Some(15000.0) && r.categoria == Some("otros")
      && r.descripcion == Some("Comí por")
  {
    var m := "Comí por 15 mil";
    FifteenMilLowered();
    FifteenMilNoPhrase();
    FifteenMilAmount();
    FifteenMilNoZero();
    FifteenMilDescription();
    GastoWhen(m, today, "comí por 15 mil", 15000.0);
  }

  lemma {:induction false} FifteenMilNoZero()
    ensures '0' !in "Comí por 15 mil"
  {
  }

  lemma {:induction false} FifteenMilLowered()
    ensures Lowered("Comí por 15 mil") == "comí por 15 mil"
  {
    LoweredIs("Comí por 15 mil", "comí por 15 mil");
  }

  lemma {:induction false} FifteenMilNoPhrase()
    ensures NoPhrase("comí por 15 mil")
  {
    FifteenMilNoRequest();
    FifteenMilNoQuery();
  }

  lemma {:induction false} FifteenMilNoRequest()
    ensures !ContainsAny("comí por 15 mil", HelpPhrases)
    ensures !ContainsAny("comí por 15 mil", ReportPhrases)
    ensures !ContainsAny("comí por 15 mil", ExportPhrases)
  {
    // 'y' rules out "ayuda", 'h' rules out "help", 'ó' rules out "cómo funciona", 'q' rules out "qué puedo hacer"
    NoneOf("comí por 15 mil", HelpPhrases, "yhóq");
    // 'e' rules out "reporte", 'e' rules out "resumen", 'g' rules out "gastos del mes", 'g' rules out "mis gastos"
    NoneOf("comí por 15 mil", ReportPhrases, "eegg");
    // 'x' rules out "exportar", 'd' rules out "descargar", 'x' rules out "excel", 'v' rules out "csv"
    NoneOf("comí por 15 mil", ExportPhrases, "xdxv");
  }

  lemma {:induction false} FifteenMilNoQuery()
    ensures !ContainsAny("comí por 15 mil", BiggestPhrases)
    ensures !ContainsAny("comí por 15 mil", TopPhrases)
    ensures !ContainsAny("comí por 15 mil", PreferencePhrases)
  {
    // 'y' rules out "mayor gasto", 'á' rules out "más caro"
    NoneOf("comí por 15 mil", BiggestPhrases, "yá");
    // 't' rules out "top", 'y' rules out "mayores gastos"
    NoneOf("comí por 15 mil", TopPhrases, "ty");
    // 't' rules out "activar", 'd' rules out "desactivar"
    NoneOf("comí por 15 mil", PreferencePhrases, "td");
  }

  lemma {:induction false} FifteenMilAmount()
    ensures FirstAmount("Comí por 15 mil") == Some(15000.0)
  {
    var s := "Comí por 15 mil";
    var t := Token("15", false, "", " ", "mil", Mil);
    FifteenMilMatch(t);
    assert s[9..] == "15 mil";
    assert DigitsValue("15") == 15 by { assert "15"[..1] == "1"; }
    assert forall k :: 0 <= k < 9 ==> !IsDigit(s[k]);
    AmountAt(s, 9, t, 15000.0);
  }

  lemma {:induction false} FifteenMilMatch(t: Token)
    requires t == Token("15", false, "", " ", "mil", Mil)
    ensures WellFormed(t, true) && Greedy(t, "15 mil", true)
  {
    var s := "15 mil";
    assert s[3..] == "mil";
    MilUnit();
    assert Text(t) == s;
    StopsFrom(t, s, true, 2, 2, 3);
  }

  lemma {:induction false} MilUnit()
    ensures MatchUnit("mil", true) == Mil
  {
    LowerCaseWord("mil");
    assert "mil"[..3] == "mil";
  }

  /** The whole match "15 mil", unit included, is stripped from the
      description: "Comí por 15 mil" is described as `Comí por`. */
  lemma {:induction false} FifteenMilDescription()
    ensures Description("Comí por 15 mil") == "Comí por"
  {
    var w := "Comí por";
    assert "Comí por 15 mil" == w + " " + "15" + " " + "mil";
    LowerCaseWord("mil");
    ComiPorNoFiller();
    WordThenScaledNumber(w, "15", "mil");
  }

  /** No filler word starts anywhere in "Comí por": `com` goes on with `í`,
      not `pré`, and `por` is too short for `pagué`. */
  lemma {:induction false} ComiPorNoFiller()
    ensures forall i :: 0 <= i < |"Comí por"| ==> FillerAt("Comí por"[i..]).None?
  {
    var w := "Comí por";
    forall i | 0 <= i < |w|
      ensures FillerAt(w[i..]).None?
    {
      if i == 0 {
        assert ToLower(w[..6])[3] == 'í';
        NoFillerBut(w, "compré");
      } else if i == 5 {
        assert w[5..] == "por";
        NoFillerBut(w[5..], "pagué");
      } else {
        assert w[i..][0] == w[i];
        NoFillerAt(w[i..]);
      }
    }
  }

  /** A text that a filler word's first letter starts, but that does not
      start with that word, starts no filler word. */
  lemma {:induction false} NoFillerBut(s: string, u: string)
    requires u in FillerWords && |s| > 0 && LowerChar(s[0]) == u[0]
    requires !StartsWithIgnoreCase(s, u)
    ensures FillerAt(s).None?
  {
    forall v | v in FillerWords && v != u
      ensures !StartsWithIgnoreCase(s, v)
    {
      if |v| <= |s| {
        assert ToLower(s[..|v|])[0] == LowerChar(s[0]);
      }
    }
  }

  /** "Gasté 2000 en combustible", the first sample of the help text, is
      described as `combustible`: the amount goes with the strip, `Gasté`
      and `en` with the filler removal, and the spaces left with the trim. */
  lemma {:induction false} CombustibleDescription()
    ensures Description("Gasté 2000 en combustible") == "combustible"
  {
    var w := "combustible";
    assert "Gasté 2000 en combustible" == "Gasté" + " " + "2000" + " " + "en" + " " + w;
    assert ToLower("Gasté") == "gasté";
    LowerCaseWord("en");
    CombustibleNoFiller();
    FillerNumberFillerWord("Gasté", "2000", "en", w);
  }

  /** No filler word starts anywhere in `combustible`: `com` goes on with
      `b`, not `pré`, and the final `e` is too short for `en`. */
  lemma {:induction false} CombustibleNoFiller()
    ensures forall i :: 0 <= i < |"combustible"| ==> FillerAt("combustible"[i..]).None?
  {
    var w := "combustible";
    forall i | 0 <= i < |w|
      ensures FillerAt(w[i..]).None?
    {
      if i == 0 {
        assert ToLower(w[..6])[3] == 'b';
        NoFillerBut(w, "compré");
      } else if i == 10 {
        assert w[10..] == "e";
        NoFillerBut(w[10..], "en");
      } else {
        assert w[i..][0] == w[i];
        NoFillerAt(w[i..]);
      }
    }
  }

  // ---- A whole expense ------------------------------------------------------

  /** "Taxi 20" is an expense of 20 filed under `a`, because its text has a
      `0`. */
  lemma {:induction false} TaxiIsExpense(today: Date)
    ensures var r := ParseMessage("Taxi 20", today);
      && r.Gasto? && r.monto == Some(20.0) && r.categoria == Some("a")
      && r.descripcion == Some("Taxi")
  {
    TaxiLowered();
    TaxiNoPhrase();
    TaxiAmount();
    TaxiDescription();
    assert '0' in "Taxi 20";
    GastoWhen("Taxi 20", today, "taxi 20", 20.0);
  }

  /** The number goes and the word stays: "Taxi 20" is described as
      `Taxi`. */
  lemma {:induction false} TaxiDescription()
    ensures Description("Taxi 20") == "Taxi"
  {
    var w := "Taxi";
    assert "Taxi 20" == w + " " + "20";
    forall i | 0 <= i < |w|
      ensures FillerAt(w[i..]).None?
    {
      assert w[i..][0] == w[i];
      NoFillerAt(w[i..]);
    }
    WordThenNumber(w, "20");
  }

  lemma {:induction false} TaxiLowered()
    ensures Lowered("Taxi 20") == "taxi 20"
  {
    LoweredIs("Taxi 20", "taxi 20");
  }

  lemma {:induction false} TaxiNoPhrase()
    ensures NoPhrase("taxi 20")
  {
    TaxiNoRequest();
    TaxiNoQuery();
  }

  lemma {:induction false} TaxiNoRequest()
    ensures !ContainsAny("taxi 20", HelpPhrases)
    ensures !ContainsAny("taxi 20", ReportPhrases)
    ensures !ContainsAny("taxi 20", ExportPhrases)
  {
    // 'y' rules out "ayuda", 'h' rules out "help", 'c' rules out "cómo funciona", 'q' rules out "qué puedo hacer"
    NoneOf("taxi 20", HelpPhrases, "yhcq");
    // 'r' rules out "reporte", 'r' rules out "resumen", 'g' rules out "gastos del mes", 'm' rules out "mis gastos"
    NoneOf("taxi 20", ReportPhrases, "rrgm");
    // 'e' rules out "exportar", 'e' rules out "descargar", 'e' rules out "excel", 'c' rules out "csv"
    NoneOf("taxi 20", ExportPhrases, "eeec");
  }

  lemma {:induction false} TaxiNoQuery()
    ensures !ContainsAny("taxi 20", BiggestPhrases)
    ensures !ContainsAny("taxi 20", TopPhrases)
    ensures !ContainsAny("taxi 20", PreferencePhrases)
  {
    // 'm' rules out "mayor gasto", 'm' rules out "más caro"
    NoneOf("taxi 20", BiggestPhrases, "mm");
    // 'o' rules out "top", 'm' rules out "mayores gastos"
    NoneOf("taxi 20", TopPhrases, "om");
    // 'v' rules out "activar", 'v' rules out "desactivar"
    NoneOf("taxi 20", PreferencePhrases, "vv");
  }

  lemma {:induction false} TaxiAmount()
    ensures FirstAmount("Taxi 20") == Some(20.0)
  {
    var s := "Taxi 20";
    var t := Token("20", false, "", "", "", NoUnit);
    TaxiMatch(t, true);
    assert DigitsValue("20") == 20;
    assert forall k :: 0 <= k < 5 ==> !IsDigit(s[k]);
    AmountAt(s, 5, t, 20.0);
  }

  /** The match is the digits alone, for either expression. */
  lemma {:induction false} TaxiMatch(t: Token, withThousand: bool)
    requires t == Token("20", false, "", "", "", NoUnit)
    ensures WellFormed(t, withThousand) && Greedy(t, "Taxi 20"[5..], withThousand)
  {
    var s := "Taxi 20"[5..];
    assert s == "20";
    assert Text(t) == s;
    StopsFrom(t, s, withThousand, 2, 2, 2);
  }
}

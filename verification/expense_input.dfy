/** The submit handler of the message box: the blank-input guard, the call to
    the interpreter, the conversion of a parsed expense into a record with
    defaults for the missing fields, and the reply shown to the user. */
module ExpenseInput {
  import opened Optional
  import opened Strings
  import opened Dates
  import opened Types
  import opened MessageParser

  /** The reply shown when an unparsed message comes without a reason. */
  const FallbackReason: string := "No se pudo interpretar el mensaje. Intenta ser más específico."

  /** What the message box holds and whether a submit is under way. */
  datatype Input = Input(message: string, isProcessing: bool)

  /** The reply line: a registered expense, the greeting with examples, the
      reason a message was not understood, or the generic acknowledgement. */
  datatype Response =
    | Registered(amount: real, category: string)
    | Greeting
    | Reason(text: string)
    | Processed

  /** What a submit did: nothing, or the parsed message handed to the
      application, the expense added (if any) and the reply. */
  datatype Outcome =
    | Ignored
    | Handled(parsed: ParsedMessage, added: Option<Expense>, response: Response)

  /** `value || fallback` on an optional text: the empty text counts as absent. */
  function TextOr(value: Option<string>, fallback: string): (r: string)
    ensures value.Some? && value.value != "" ==> r == value.value
    ensures value.None? || value.value == "" ==> r == fallback
  {
    if value.Some? && value.value != "" then value.value else fallback
  }

  /** The record built from a parsed message: only a `gasto` with a positive
      amount gives one; missing date, category and description fall back to
      today, `otros` and `Gasto registrado`. */
  function ToExpense(parsed: ParsedMessage, id: string, today: Date): (r: Option<Expense>)
    ensures r.Some? <==> parsed.Gasto? && parsed.monto.Some? && parsed.monto.value > 0.0
    ensures r.Some? ==>
      && r.value.id == id
      && r.value.amount == parsed.monto.value && r.value.amount > 0.0
      && r.value.kind == ExpenseType.Gasto
      && (parsed.fecha.Some? ==> r.value.date == parsed.fecha.value)
      && (parsed.fecha.None? ==> r.value.date == today)
      && r.value.category != "" && r.value.description != ""
      && (parsed.categoria.Some? && parsed.categoria.value != "" ==> r.value.category == parsed.categoria.value)
      && (parsed.categoria.None? || parsed.categoria.value == "" ==> r.value.category == "otros")
      && (parsed.descripcion.Some? && parsed.descripcion.value != "" ==> r.value.description == parsed.descripcion.value)
      && (parsed.descripcion.None? || parsed.descripcion.value == "" ==> r.value.description == DefaultDescription)
  {
    if parsed.Gasto? && parsed.monto.Some? && parsed.monto.value > 0.0 then
      Some(Expense(
        id,
        parsed.fecha.GetOr(today),
        TextOr(parsed.categoria, "otros"),
        parsed.monto.value,
        TextOr(parsed.descripcion, DefaultDescription),
        ExpenseType.Gasto))
    else None
  }

  /** The reply for a parsed message and the expense it produced. */
  function ResponseFor(parsed: ParsedMessage, added: Option<Expense>): (r: Response)
    ensures r.Registered? <==> added.Some?
    ensures added.Some? ==> r == Registered(added.value.amount, added.value.category)
    ensures added.None? && parsed.Ayuda? ==> r == Greeting
    ensures added.None? && parsed.Na? && parsed.razon.Some? && parsed.razon.value != "" ==> r == Reason(parsed.razon.value)
    ensures added.None? && parsed.Na? && (parsed.razon.None? || parsed.razon.value == "") ==> r == Reason(FallbackReason)
    ensures added.None? && !parsed.Ayuda? && !parsed.Na? ==> r == Processed
  {
    if added.Some? then Registered(added.value.amount, added.value.category)
    else if parsed.Ayuda? then Greeting
    else if parsed.Na? then Reason(TextOr(parsed.razon, FallbackReason))
    else Processed
  }

  /** A submit: ignored when the message is blank or one is already under way;
      otherwise the message is interpreted, the expense (if any) is added, the
      box is cleared and processing ends. `id` and `today` stand for the
      clock reads. */
  function Submit(input: Input, id: string, today: Date): (r: (Input, Outcome))
    ensures r.1.Ignored? <==> Trim(input.message) == [] || input.isProcessing
    ensures r.1.Ignored? ==> r.0 == input
    ensures r.1.Handled? ==>
      && r.0 == Input("", false)
      && r.1.parsed == ParseMessage(input.message, today)
      && r.1.added == ToExpense(r.1.parsed, id, today)
  {
    if Trim(input.message) == [] || input.isProcessing then (input, Ignored)
    else
      var parsed := ParseMessage(input.message, today);
      var added := ToExpense(parsed, id, today);
      (Input("", false), Handled(parsed, added, ResponseFor(parsed, added)))
  }

  /** A non-blank message submitted while idle is interpreted, and the
      outcome is built from the interpreter's result. */
  lemma {:induction false} SubmitHandles(message: string, id: string, today: Date)
    requires Trim(message) != []
    ensures var parsed := ParseMessage(message, today);
      var added := ToExpense(parsed, id, today);
      Submit(Input(message, false), id, today).1 == Handled(parsed, added, ResponseFor(parsed, added))
  {
  }

  /** A submitted message adds an expense exactly when the interpreter reads it
      as an expense, and the record carries the interpreter's amount,
      category and description, today's date and the `gasto` type. */
  lemma {:induction false} SubmitAdds(message: string, id: string, today: Date)
    requires Trim(message) != []
    ensures var o := Submit(Input(message, false), id, today).1;
      && (o.added.Some? <==> o.parsed.Gasto?)
      && (o.parsed.Gasto? ==>
          && FirstAmount(message).Some? && FirstAmount(message).value > 0.0
          && o.added == Some(Expense(id, today, if '0' in message then "a" else "otros",
                                     FirstAmount(message).value, Description(message), ExpenseType.Gasto))
          && o.response == Registered(FirstAmount(message).value, if '0' in message then "a" else "otros"))
  {
    SubmitHandles(message, id, today);
    var parsed := ParseMessage(message, today);
    if parsed.Gasto? {
      AddedFromGasto(parsed, id, today);
    }
  }

  /** A parsed expense whose fields are all present and non-empty becomes a
      record with exactly those fields, whatever date it carries. */
  lemma {:induction false} AddedFromGasto(p: ParsedMessage, id: string, today: Date)
    requires p.Gasto? && p.monto.Some? && p.monto.value > 0.0 && p.fecha.Some?
    requires p.categoria.Some? && p.categoria.value != ""
    requires p.descripcion.Some? && |p.descripcion.value| > 0
    ensures ToExpense(p, id, today)
      == Some(Expense(id, p.fecha.value, p.categoria.value, p.monto.value, p.descripcion.value, ExpenseType.Gasto))
  {
  }

  /** The interpreter always gives a reason for an unparsed message, so the
      fallback reply is never shown for one it produced. */
  lemma {:induction false} SubmitReason(message: string, id: string, today: Date)
    requires Trim(message) != []
    ensures var o := Submit(Input(message, false), id, today).1;
      o.parsed.Na? ==> o.response == Reason(NaReason)
  {
    SubmitHandles(message, id, today);
    var parsed := ParseMessage(message, today);
    if parsed.Na? {
      ReplyNa(parsed, id, today);
    }
  }

  /** The reply to the interpreter's unparsed result is its reason. */
  lemma {:induction false} ReplyNa(p: ParsedMessage, id: string, today: Date)
    requires p == Na(Some(NaReason))
    ensures ResponseFor(p, ToExpense(p, id, today)) == Reason(NaReason)
  {
  }

  /** An unparsed result without a reason gets the fallback reply. */
  lemma {:induction false} ReplyFallback(id: string, today: Date)
    ensures ResponseFor(Na(None), ToExpense(Na(None), id, today)) == Reason(FallbackReason)
  {
  }

  /** A message of white space alone would be unparsed anyway: it holds no
      trigger phrase and no digit. */
  lemma {:induction false} BlankIsNa(message: string, today: Date)
    requires Trim(message) == []
    ensures ParseMessage(message, today).Na?
  {
    var low := ToLower(message);
    forall k | 0 <= k < |low|
      ensures IsSpace(low[k])
    {
      LowerCharClasses(message[k]);
    }
    assert Lowered(message) == [];
    FirstAmountExists(message);
    BlankNoPhrase();
    NoPhraseNoDigitIsNa(message, today);
  }

  /** The empty text holds no trigger phrase. */
  lemma {:induction false} BlankNoPhrase()
    ensures NoPhrase([])
  {
    forall p | p in HelpPhrases + ReportPhrases + ExportPhrases + BiggestPhrases + TopPhrases + PreferencePhrases
      ensures !Contains([], p)
    {
      assert |p| > 0;
    }
  }
}

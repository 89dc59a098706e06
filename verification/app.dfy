/** The application's state changes: the expense list (add, save, delete)
    and the active tab, as the handlers in `App.tsx` update them. */
module App {
  import opened Optional
  import opened Seqs
  import opened Strings
  import opened Dates
  import opened Types
  import opened MessageParser
  import opened ExpenseInput

  /** The four views of the application. */
  datatype Tab = Dashboard | Expenses | Settings | Help

  /** The test `e.id === id`. */
  function SameId(id: string): Expense -> bool
  {
    (e: Expense) => e.id == id
  }

  /** The test `e.id !== id`. */
  function OtherId(id: string): Expense -> bool
  {
    (e: Expense) => e.id != id
  }

  /** `handleExpenseAdded`: the new expense goes in front. */
  function AddExpense(xs: seq<Expense>, e: Expense): (r: seq<Expense>)
    ensures |r| == |xs| + 1 && r[0] == e
    ensures forall k :: 0 <= k < |xs| ==> r[k + 1] == xs[k]
  {
    [e] + xs
  }

  /** Adding an expense adds its amount to the total and nothing else to
      the list's contents. */
  lemma {:induction false} AddTotal(xs: seq<Expense>, e: Expense)
    ensures Total(AddExpense(xs, e)) == e.amount + Total(xs)
    ensures multiset(AddExpense(xs, e)) == multiset(xs) + multiset{e}
  {
    assert AddExpense(xs, e)[1..] == xs;
  }

  /** `handleExpenseSave`: the expense replaces the first one with its id;
      with no such expense it is put in front. */
  function SaveExpense(xs: seq<Expense>, e: Expense): (r: seq<Expense>)
    ensures (exists k :: 0 <= k < |xs| && xs[k].id == e.id) ==>
      && |r| == |xs|
      && exists i :: 0 <= i < |xs| && xs[i].id == e.id
                     && (forall j :: 0 <= j < i ==> xs[j].id != e.id)
                     && r[i] == e
                     && (forall j :: 0 <= j < |xs| && j != i ==> r[j] == xs[j])
    ensures (forall k :: 0 <= k < |xs| ==> xs[k].id != e.id) ==> r == [e] + xs
  {
    match FirstIndex(xs, SameId(e.id))
    case Some(i) => xs[i := e]
    case None => [e] + xs
  }

  /** After a save the list holds the saved expense, first among those with
      its id, and the ids are those of before plus the saved one's. */
  lemma {:induction false} SaveFindsSaved(xs: seq<Expense>, e: Expense)
    ensures FirstIndex(SaveExpense(xs, e), SameId(e.id)).Some?
    ensures SaveExpense(xs, e)[FirstIndex(SaveExpense(xs, e), SameId(e.id)).value] == e
    ensures forall x :: x in SaveExpense(xs, e) ==> x == e || x in xs
  {
    var r := SaveExpense(xs, e);
    match FirstIndex(xs, SameId(e.id))
    case Some(i) =>
      assert r == xs[i := e];
      assert SameId(e.id)(r[i]);
    case None =>
      assert r == [e] + xs;
      assert SameId(e.id)(r[0]);
  }

  /** Saving the same expense twice gives the list of saving it once. */
  lemma {:induction false} SaveIdempotent(xs: seq<Expense>, e: Expense)
    ensures SaveExpense(SaveExpense(xs, e), e) == SaveExpense(xs, e)
  {
    var r := SaveExpense(xs, e);
    SaveFindsSaved(xs, e);
    var i := FirstIndex(r, SameId(e.id)).value;
    assert SaveExpense(r, e) == r[i := e];
    assert r[i := e] == r;
  }

  /** `handleExpenseDelete`: once confirmed, every expense with the id is
      dropped; without confirmation the list stays as it is. */
  function DeleteExpense(xs: seq<Expense>, id: string, confirmed: bool): (r: seq<Expense>)
    ensures !confirmed ==> r == xs
    ensures confirmed ==> forall k :: 0 <= k < |r| ==> r[k].id != id
    ensures Subsequence(r, xs)
  {
    if confirmed then
      KeepSubsequence(xs, OtherId(id));
      Keep(xs, OtherId(id))
    else
      SubsequenceRefl(xs);
      xs
  }

  /** Every sequence is a subsequence of itself. */
  lemma {:induction false} SubsequenceRefl<T>(xs: seq<T>)
    ensures Subsequence(xs, xs)
    decreases |xs|
  {
    if |xs| > 0 {
      SubsequenceRefl(xs[1..]);
    }
  }

  /** A confirmed delete keeps every copy of every expense with another id
      and no expense with the id. */
  lemma {:induction false} DeleteKeepsOthers(xs: seq<Expense>, id: string, x: Expense)
    ensures multiset(DeleteExpense(xs, id, true))[x] == if x.id == id then 0 else multiset(xs)[x]
  {
    KeepMultiset(xs, OtherId(id), x);
  }

  /** A confirmed delete of an id that no expense has changes nothing. */
  lemma {:induction false} DeleteAbsent(xs: seq<Expense>, id: string)
    requires forall k :: 0 <= k < |xs| ==> xs[k].id != id
    ensures DeleteExpense(xs, id, true) == xs
  {
    KeepAll(xs, OtherId(id));
  }

  /** `handleMessageParsed`: reports and queries open the dashboard, edit
      and delete requests the expense list; anything else leaves the tab. */
  function TabAfter(tab: Tab, parsed: ParsedMessage): (r: Tab)
    ensures parsed.Reporte? || parsed.Consulta? ==> r == Dashboard
    ensures parsed.Editar? || parsed.Eliminar? ==> r == Expenses
    ensures !parsed.Reporte? && !parsed.Consulta? && !parsed.Editar? && !parsed.Eliminar? ==> r == tab
  {
    match parsed
    case Reporte(_, _) => Dashboard
    case Consulta(_) => Dashboard
    case Editar => Expenses
    case Eliminar => Expenses
    case _ => tab
  }

  /** A message moves to the dashboard exactly when the interpreter reads it
      as a report or a query, and it never opens the expense list: the
      interpreter gives no edit or delete request. */
  lemma {:induction false} TabAfterMessage(tab: Tab, message: string, today: Date)
    ensures var parsed := ParseMessage(message, today);
      var r := TabAfter(tab, parsed);
      && (parsed.Reporte? || parsed.Consulta? ==> r == Dashboard)
      && (!parsed.Reporte? && !parsed.Consulta? ==> r == tab)
      && (r == Expenses ==> tab == Expenses)
  {
  }

  /** The application's state: the expense list and the active tab. */
  datatype State = State(expenses: seq<Expense>, tab: Tab)

  /** The application's reaction to a submit: the parsed message picks the
      tab, then the added expense, if any, goes in front. An ignored submit
      changes nothing. */
  function Deliver(s: State, outcome: Outcome): (r: State)
    ensures outcome.Ignored? ==> r == s
    ensures outcome.Handled? ==> r.tab == TabAfter(s.tab, outcome.parsed)
    ensures outcome.Handled? && outcome.added.None? ==> r.expenses == s.expenses
    ensures outcome.Handled? && outcome.added.Some? ==>
      |r.expenses| == |s.expenses| + 1 && r.expenses[0] == outcome.added.value && r.expenses[1..] == s.expenses
  {
    match outcome
    case Ignored => s
    case Handled(parsed, added, _) =>
      var tab := TabAfter(s.tab, parsed);
      match added
      case Some(e) => State(AddExpense(s.expenses, e), tab)
      case None => State(s.expenses, tab)
  }

  /** A submitted message grows the list by one exactly when the interpreter
      reads an expense in it, and then the total grows by that amount; the
      tab follows what the interpreter read. */
  lemma {:induction false} SubmitGrowsList(s: State, message: string, id: string, today: Date)
    requires Trim(message) != []
    ensures var o := Submit(Input(message, false), id, today).1;
      var r := Deliver(s, o);
      && (|r.expenses| == |s.expenses| + 1 <==> ParseMessage(message, today).Gasto?)
      && (|r.expenses| == |s.expenses| <==> !ParseMessage(message, today).Gasto?)
      && (ParseMessage(message, today).Gasto? ==>
            Total(r.expenses) == FirstAmount(message).value + Total(s.expenses))
      && r.tab == TabAfter(s.tab, ParseMessage(message, today))
  {
    SubmitAdds(message, id, today);
    var o := Submit(Input(message, false), id, today).1;
    if o.added.Some? {
      AddTotal(s.expenses, o.added.value);
    }
  }
}

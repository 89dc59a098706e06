/** The dashboard's figures: this month's and last month's expenses and
    totals, the change between them, the total per category and the five
    largest expenses of the month. The current month and year are
    parameters: `month` counts from 0 as JavaScript's `getMonth` does. */
module Dashboard {
  import opened Seqs
  import opened Strings
  import opened Dates
  import opened Types
  import opened Categories
  import opened ExpensesList

  /** An expense (not an income) dated in the given month of the given
      year. */
  predicate InMonth(month: int, year: int, e: Expense)
  {
    JsMonth(e.date) == month && e.date.year == year && e.kind == ExpenseType.Gasto
  }

  /** `thisMonthExpenses`. */
  function ThisMonth(xs: seq<Expense>, month: int, year: int): (r: seq<Expense>)
    ensures |r| <= |xs|
    ensures forall i :: 0 <= i < |r| ==> InMonth(month, year, r[i])
  {
    Keep(xs, e => InMonth(month, year, e))
  }

  /** The month before: January goes back to December of the year before. */
  function PreviousMonth(month: int, year: int): (r: (int, int))
  {
    if month == 0 then (11, year - 1) else (month - 1, year)
  }

  /** Counting months from year zero, the previous month is one less, and it
      is again a month from 0 to 11. */
  lemma {:induction false} PreviousMonthIsOneLess(month: int, year: int)
    requires 0 <= month <= 11
    ensures 0 <= PreviousMonth(month, year).0 <= 11
    ensures 12 * PreviousMonth(month, year).1 + PreviousMonth(month, year).0 == 12 * year + month - 1
  {
  }

  /** `lastMonthExpenses`. */
  function LastMonth(xs: seq<Expense>, month: int, year: int): (r: seq<Expense>)
    ensures |r| <= |xs|
    ensures forall i :: 0 <= i < |r| ==> InMonth(PreviousMonth(month, year).0, PreviousMonth(month, year).1, r[i])
  {
    var (m, y) := PreviousMonth(month, year);
    Keep(xs, e => InMonth(m, y, e))
  }

  /** Each month's list holds exactly the expenses of that month, as often
      as the input holds them, and never an income. */
  lemma {:induction false} MonthContents(xs: seq<Expense>, month: int, year: int, x: Expense)
    ensures multiset(ThisMonth(xs, month, year))[x]
      == if InMonth(month, year, x) then multiset(xs)[x] else 0
    ensures multiset(LastMonth(xs, month, year))[x]
      == if InMonth(PreviousMonth(month, year).0, PreviousMonth(month, year).1, x) then multiset(xs)[x] else 0
    ensures x.kind == ExpenseType.Ingreso ==> x !in ThisMonth(xs, month, year) && x !in LastMonth(xs, month, year)
  {
    KeepMultiset(xs, e => InMonth(month, year, e), x);
    var (m, y) := PreviousMonth(month, year);
    KeepMultiset(xs, e => InMonth(m, y, e), x);
  }

  /** `thisMonthTotal`, and `lastMonthTotal` for the previous month: the
      sum of the month's expense amounts. */
  function MonthTotal(xs: seq<Expense>, month: int, year: int): (r: real)
  {
    Total(ThisMonth(xs, month, year))
  }

  /** The month's total over two lists together is the sum of their month
      totals. */
  lemma {:induction false} MonthTotalAppend(a: seq<Expense>, b: seq<Expense>, month: int, year: int)
    ensures MonthTotal(a + b, month, year) == MonthTotal(a, month, year) + MonthTotal(b, month, year)
  {
    KeepAppend(a, b, e => InMonth(month, year, e));
    TotalAppend(ThisMonth(a, month, year), ThisMonth(b, month, year));
  }

  /** A new expense adds its amount to the total of its own month and
      nothing to any other month's; an income adds nothing anywhere. */
  lemma {:induction false} MonthTotalAdd(e: Expense, xs: seq<Expense>, month: int, year: int)
    ensures MonthTotal([e] + xs, month, year)
      == (if InMonth(month, year, e) then e.amount else 0.0) + MonthTotal(xs, month, year)
    ensures e.kind == ExpenseType.Ingreso ==> MonthTotal([e] + xs, month, year) == MonthTotal(xs, month, year)
  {
    MonthTotalAppend([e], xs, month, year);
    assert ([e] + [])[1..] == [];
    assert Keep([e], e' => InMonth(month, year, e')) == if InMonth(month, year, e) then [e] else [];
  }

  /** `monthlyChange`: the percentage change from last month's total, or 0
      when last month's total is not positive. */
  function MonthlyChange(thisTotal: real, lastTotal: real): (r: real)
  {
    if lastTotal > 0.0 then (thisTotal - lastTotal) / lastTotal * 100.0 else 0.0
  }

  /** Applying the change to last month's total gives this month's; the
      change is positive exactly when the total grew. */
  lemma {:induction false} MonthlyChangeInverse(thisTotal: real, lastTotal: real)
    requires lastTotal > 0.0
    ensures lastTotal + lastTotal * MonthlyChange(thisTotal, lastTotal) / 100.0 == thisTotal
    ensures MonthlyChange(thisTotal, lastTotal) > 0.0 <==> thisTotal > lastTotal
  {
    var q := (thisTotal - lastTotal) / lastTotal;
    assert lastTotal * q == thisTotal - lastTotal;
    if thisTotal > lastTotal {
      assert q > 0.0;
    } else {
      assert q <= 0.0;
    }
  }

  /** Without a positive total last month the change shows as 0. */
  lemma {:induction false} MonthlyChangeNoBase(thisTotal: real, lastTotal: real)
    requires lastTotal <= 0.0
    ensures MonthlyChange(thisTotal, lastTotal) == 0.0
  {
  }

  /** An expense counts for a category when its lower-cased category
      contains the category's id or equals its lower-cased name. */
  predicate CountsFor(c: Category, e: Expense)
  {
    Contains(ToLower(e.category), c.id) || ToLower(e.category) == ToLower(c.name)
  }

  /** One slice of the category chart. */
  datatype Slice = Slice(name: string, value: real)

  /** The slice of one category: its name and the total of the expenses
      that count for it. */
  function SliceOf(c: Category, xs: seq<Expense>): Slice
  {
    Slice(c.name, Total(Keep(xs, e => CountsFor(c, e))))
  }

  /** The slice of each table entry, in table order, before the filter. */
  function Slices(table: seq<Category>, xs: seq<Expense>): (r: seq<Slice>)
    ensures |r| == |table|
    ensures forall i :: 0 <= i < |r| ==> r[i] == SliceOf(table[i], xs)
    decreases |table|
  {
    if |table| == 0 then [] else [SliceOf(table[0], xs)] + Slices(table[1..], xs)
  }

  /** `categoryData` over a category table: the categories with a positive
      total this month, in table order. */
  function ChartOf(table: seq<Category>, thisMonth: seq<Expense>): (r: seq<Slice>)
  {
    Keep(Slices(table, thisMonth), (d: Slice) => d.value > 0.0)
  }

  /** `categoryData`, over the application's category table. */
  function CategoryData(thisMonth: seq<Expense>): (r: seq<Slice>)
  {
    ChartOf(Table, thisMonth)
  }

  /** The chart keeps the table order and shows only positive totals. */
  lemma {:induction false} ChartOrder(table: seq<Category>, thisMonth: seq<Expense>)
    ensures forall i :: 0 <= i < |ChartOf(table, thisMonth)| ==> ChartOf(table, thisMonth)[i].value > 0.0
    ensures Subsequence(ChartOf(table, thisMonth), Slices(table, thisMonth))
  {
    KeepSubsequence(Slices(table, thisMonth), (d: Slice) => d.value > 0.0);
  }

  /** The chart shows exactly the slices of the table entries whose total is
      positive. */
  lemma {:induction false} ChartContents(table: seq<Category>, thisMonth: seq<Expense>, d: Slice)
    ensures d in ChartOf(table, thisMonth) <==>
      d.value > 0.0 && exists i :: 0 <= i < |table| && d == SliceOf(table[i], thisMonth)
  {
    var all := Slices(table, thisMonth);
    KeepMembers(all, (d: Slice) => d.value > 0.0, d);
    if d in all {
      var i :| 0 <= i < |all| && all[i] == d;
      assert d == SliceOf(table[i], thisMonth);
    }
  }

  /** `topExpenses`: the month's expenses from the largest amount down, at
      most five. */
  function TopExpenses(thisMonth: seq<Expense>): (r: seq<Expense>)
  {
    Take(Sort(ByAmount, Desc, thisMonth), 5)
  }

  /** In a list sorted by descending amount, an earlier amount is never
      smaller than a later one. */
  lemma {:induction false} DescendingAmounts(s: seq<Expense>, i: int, j: int)
    requires Sorted(ByAmount, Desc, s)
    requires 0 <= i <= j < |s|
    ensures s[i].amount >= s[j].amount
    decreases j - i
  {
    if i < j {
      DescendingAmounts(s, i + 1, j);
      assert Comparison(ByAmount, Desc, s[i], s[i + 1]) <= 0;
    }
  }

  /** The top list has at most five expenses, as many as the month has up to
      five, all from the month, from the largest amount down, and no
      expense left out is larger than one shown. */
  lemma {:induction false} TopExpensesAreTop(thisMonth: seq<Expense>)
    ensures var r := TopExpenses(thisMonth);
      && |r| == (if |thisMonth| < 5 then |thisMonth| else 5)
      && multiset(r) <= multiset(thisMonth)
      && (forall i :: 0 <= i < |r| - 1 ==> r[i].amount >= r[i + 1].amount)
      && (forall x, k :: x in thisMonth && x !in r && 0 <= k < |r| ==> x.amount <= r[k].amount)
  {
    var s := Sort(ByAmount, Desc, thisMonth);
    var r := TopExpenses(thisMonth);
    SortSorted(ByAmount, Desc, thisMonth);
    forall i | 0 <= i < |r| - 1
      ensures r[i].amount >= r[i + 1].amount
    {
      DescendingAmounts(s, i, i + 1);
    }
    if |s| > 5 {
      assert r == s[..5];
      TakeMultiset(s, 5);
    }
    forall x, k | x in thisMonth && x !in r && 0 <= k < |r|
      ensures x.amount <= r[k].amount
    {
      assert x in multiset(s);
      var j :| 0 <= j < |s| && s[j] == x;
      DescendingAmounts(s, k, j);
    }
  }

  /** Counting copies: every copy of an expense left out of the top list,
      even of one that is also shown, is no larger than anything shown. */
  lemma {:induction false} TopExpensesLeftOut(thisMonth: seq<Expense>)
    ensures var r := TopExpenses(thisMonth);
      forall x, k :: x in multiset(thisMonth) - multiset(r) && 0 <= k < |r| ==> x.amount <= r[k].amount
  {
    var s := Sort(ByAmount, Desc, thisMonth);
    var r := TopExpenses(thisMonth);
    SortSorted(ByAmount, Desc, thisMonth);
    assert r == s[..|r|];
    forall x, k | x in multiset(thisMonth) - multiset(r) && 0 <= k < |r|
      ensures x.amount <= r[k].amount
    {
      LeftOutIsLater(s, r, x);
      var j :| |r| <= j < |s| && s[j] == x;
      DescendingAmounts(s, k, j);
    }
  }

  /** A copy left out of a prefix sits after the prefix. */
  lemma {:induction false} LeftOutIsLater(s: seq<Expense>, r: seq<Expense>, x: Expense)
    requires |r| <= |s| && r == s[..|r|]
    requires x in multiset(s) - multiset(r)
    ensures exists j :: |r| <= j < |s| && s[j] == x
  {
    assert s == r + s[|r|..];
    assert multiset(s) == multiset(r) + multiset(s[|r|..]);
    assert x in multiset(s[|r|..]);
    var i :| 0 <= i < |s[|r|..]| && s[|r|..][i] == x;
    assert s[|r| + i] == x;
  }
}

/** The expense list's view: the three filters, the sort chosen by the user
    and the total of what is shown (`filteredExpenses` and `totalFiltered`). */
module ExpensesList {
  import opened Seqs
  import opened Strings
  import opened Dates
  import opened Types

  /** The search term, the category filter and the date filter; an empty
      category or date filter is off. */
  datatype Filters = Filters(search: string, category: string, date: string)

  datatype SortBy = ByDate | ByAmount | ByCategory
  datatype SortOrder = Asc | Desc

  /** The filter callback: the search term occurs in the description or the
      category, the category filter in the category (both ignoring case),
      and the date filter in the date's `YYYY-MM-DD` text. */
  predicate Matches(f: Filters, e: Expense)
  {
    && (Contains(ToLower(e.description), ToLower(f.search)) || Contains(ToLower(e.category), ToLower(f.search)))
    && (f.category == "" || Contains(ToLower(e.category), ToLower(f.category)))
    && (f.date == "" || Contains(FormatIso(e.date), f.date))
  }

  /** `-1`, `0` or `1` as `x` is negative, zero or positive. */
  function Sign(x: real): (r: int)
  {
    if x < 0.0 then -1 else if x > 0.0 then 1 else 0
  }

  /** Code-point order on texts; the application's `localeCompare` is
      replaced by it. */
  function CompareText(a: string, b: string): (c: int)
    ensures -1 <= c <= 1
    ensures c == 0 <==> a == b
    decreases |a|
  {
    if |a| == 0 && |b| == 0 then 0
    else if |a| == 0 then -1
    else if |b| == 0 then 1
    else if a[0] != b[0] then (if a[0] < b[0] then -1 else 1)
    else
      var c := CompareText(a[1..], b[1..]);
      assert c == 0 ==> a == [a[0]] + a[1..] && b == [b[0]] + b[1..];
      c
  }

  /** Swapping the operands of `CompareText` negates it. */
  lemma {:induction false} CompareTextAntisymmetric(a: string, b: string)
    ensures CompareText(a, b) == -CompareText(b, a)
    decreases |a|
  {
    if |a| > 0 && |b| > 0 && a[0] == b[0] {
      CompareTextAntisymmetric(a[1..], b[1..]);
    }
  }

  /** The sort callback: the sign of the comparison on the chosen field,
      negated for descending order. */
  function Comparison(key: SortBy, order: SortOrder, a: Expense, b: Expense): (c: int)
    ensures -1 <= c <= 1
  {
    var c := match key
      case ByDate => Compare(a.date, b.date)
      case ByAmount => Sign(a.amount - b.amount)
      case ByCategory => CompareText(a.category, b.category);
    if order == Asc then c else -c
  }

  /** Swapping the operands negates the comparison, whatever the field and
      the order. */
  lemma {:induction false} ComparisonAntisymmetric(key: SortBy, order: SortOrder, a: Expense, b: Expense)
    ensures Comparison(key, order, a, b) == -Comparison(key, order, b, a)
  {
    match key
    case ByDate => CompareAntisymmetric(a.date, b.date);
    case ByAmount =>
    case ByCategory => CompareTextAntisymmetric(a.category, b.category);
  }

  /** Adjacent elements are in the comparison's order. */
  predicate Sorted(key: SortBy, order: SortOrder, xs: seq<Expense>)
  {
    forall i :: 0 <= i < |xs| - 1 ==> Comparison(key, order, xs[i], xs[i + 1]) <= 0
  }

  /** Puts `x` in front of the first element it does not come after, so that
      it stays ahead of the elements it ties with. */
  function Insert(key: SortBy, order: SortOrder, x: Expense, ys: seq<Expense>): (r: seq<Expense>)
    decreases |ys|
  {
    if |ys| == 0 then [x]
    else if Comparison(key, order, x, ys[0]) <= 0 then [x] + ys
    else [ys[0]] + Insert(key, order, x, ys[1..])
  }

  /** `Array.prototype.sort` with the callback, as an insertion sort. */
  function Sort(key: SortBy, order: SortOrder, xs: seq<Expense>): (r: seq<Expense>)
    decreases |xs|
  {
    if |xs| == 0 then [] else Insert(key, order, xs[0], Sort(key, order, xs[1..]))
  }

  /** Inserting adds `x` and nothing else, and keeps the first element or
      puts `x` first. */
  lemma {:induction false} InsertContents(key: SortBy, order: SortOrder, x: Expense, ys: seq<Expense>)
    ensures multiset(Insert(key, order, x, ys)) == multiset(ys) + multiset{x}
    ensures |ys| > 0 ==> Insert(key, order, x, ys)[0] == x || Insert(key, order, x, ys)[0] == ys[0]
    decreases |ys|
  {
    if |ys| > 0 && Comparison(key, order, x, ys[0]) > 0 {
      InsertContents(key, order, x, ys[1..]);
      assert ys == [ys[0]] + ys[1..];
    }
  }

  /** Inserting into a sorted list keeps it sorted. */
  lemma {:induction false} InsertSorted(key: SortBy, order: SortOrder, x: Expense, ys: seq<Expense>)
    requires Sorted(key, order, ys)
    ensures Sorted(key, order, Insert(key, order, x, ys))
    decreases |ys|
  {
    if |ys| > 0 && Comparison(key, order, x, ys[0]) > 0 {
      var rest := Insert(key, order, x, ys[1..]);
      assert Sorted(key, order, ys[1..]) by {
        forall i | 0 <= i < |ys[1..]| - 1
          ensures Comparison(key, order, ys[1..][i], ys[1..][i + 1]) <= 0
        {
          assert ys[1..][i] == ys[i + 1] && ys[1..][i + 1] == ys[i + 2];
        }
      }
      InsertSorted(key, order, x, ys[1..]);
      InsertContents(key, order, x, ys[1..]);
      ComparisonAntisymmetric(key, order, x, ys[0]);
      var r := [ys[0]] + rest;
      forall i | 0 <= i < |r| - 1
        ensures Comparison(key, order, r[i], r[i + 1]) <= 0
      {
        if i > 0 {
          assert r[i] == rest[i - 1] && r[i + 1] == rest[i];
        }
      }
    } else if |ys| > 0 {
      var r := [x] + ys;
      forall i | 0 <= i < |r| - 1
        ensures Comparison(key, order, r[i], r[i + 1]) <= 0
      {
        if i > 0 {
          assert r[i] == ys[i - 1] && r[i + 1] == ys[i];
        }
      }
    }
  }

  /** The sort puts the list in order and only rearranges it. */
  lemma {:induction false} SortSorted(key: SortBy, order: SortOrder, xs: seq<Expense>)
    ensures Sorted(key, order, Sort(key, order, xs))
    ensures multiset(Sort(key, order, xs)) == multiset(xs)
    decreases |xs|
  {
    if |xs| > 0 {
      SortSorted(key, order, xs[1..]);
      InsertSorted(key, order, xs[0], Sort(key, order, xs[1..]));
      InsertContents(key, order, xs[0], Sort(key, order, xs[1..]));
      assert xs == [xs[0]] + xs[1..];
    }
  }

  /** Ties keep their order: a list whose elements all compare equal comes
      out of the sort as it went in. */
  lemma {:induction false} SortKeepsTies(key: SortBy, order: SortOrder, xs: seq<Expense>)
    requires forall i, j :: 0 <= i < |xs| && 0 <= j < |xs| ==> Comparison(key, order, xs[i], xs[j]) == 0
    ensures Sort(key, order, xs) == xs
    decreases |xs|
  {
    if |xs| > 0 {
      SortKeepsTies(key, order, xs[1..]);
      assert xs == [xs[0]] + xs[1..];
      if |xs| > 1 {
        assert Comparison(key, order, xs[0], xs[1]) == 0;
      }
    }
  }

  /** Inserting adds the inserted amount to the total. */
  lemma {:induction false} InsertTotal(key: SortBy, order: SortOrder, x: Expense, ys: seq<Expense>)
    ensures Total(Insert(key, order, x, ys)) == x.amount + Total(ys)
    decreases |ys|
  {
    if |ys| > 0 && Comparison(key, order, x, ys[0]) > 0 {
      InsertTotal(key, order, x, ys[1..]);
      assert ([ys[0]] + Insert(key, order, x, ys[1..]))[1..] == Insert(key, order, x, ys[1..]);
    } else if |ys| > 0 {
      assert ([x] + ys)[1..] == ys;
    }
  }

  /** Sorting leaves the total as it is. */
  lemma {:induction false} SortTotal(key: SortBy, order: SortOrder, xs: seq<Expense>)
    ensures Total(Sort(key, order, xs)) == Total(xs)
    decreases |xs|
  {
    if |xs| > 0 {
      SortTotal(key, order, xs[1..]);
      InsertTotal(key, order, xs[0], Sort(key, order, xs[1..]));
    }
  }

  /** `filteredExpenses`: the expenses that pass the filters, sorted. */
  function Filtered(xs: seq<Expense>, f: Filters, key: SortBy, order: SortOrder): (r: seq<Expense>)
  {
    Sort(key, order, Keep(xs, e => Matches(f, e)))
  }

  /** `totalFiltered`: the sum of the amounts shown. */
  function TotalFiltered(xs: seq<Expense>, f: Filters, key: SortBy, order: SortOrder): real
  {
    Total(Filtered(xs, f, key, order))
  }

  /** The shown list is a rearrangement of a subsequence of the expenses,
      holds every expense that passes the filters as often as the input
      does, and nothing else. */
  lemma {:induction false} FilteredContents(xs: seq<Expense>, f: Filters, key: SortBy, order: SortOrder, x: Expense)
    ensures Subsequence(Keep(xs, e => Matches(f, e)), xs)
    ensures multiset(Filtered(xs, f, key, order)) == multiset(Keep(xs, e => Matches(f, e)))
    ensures multiset(Filtered(xs, f, key, order))[x] == if Matches(f, x) then multiset(xs)[x] else 0
    ensures x in Filtered(xs, f, key, order) <==> x in xs && Matches(f, x)
  {
    var p := (e: Expense) => Matches(f, e);
    KeepSubsequence(xs, p);
    SortSorted(key, order, Keep(xs, p));
    KeepMultiset(xs, p, x);
  }

  /** The shown list is in the chosen order; by amount, ascending means
      non-decreasing amounts and descending non-increasing ones. */
  lemma {:induction false} FilteredOrder(xs: seq<Expense>, f: Filters, key: SortBy, order: SortOrder)
    ensures Sorted(key, order, Filtered(xs, f, key, order))
    ensures key == ByAmount && order == Asc ==>
      var r := Filtered(xs, f, key, order);
      forall i :: 0 <= i < |r| - 1 ==> r[i].amount <= r[i + 1].amount
    ensures key == ByAmount && order == Desc ==>
      var r := Filtered(xs, f, key, order);
      forall i :: 0 <= i < |r| - 1 ==> r[i].amount >= r[i + 1].amount
  {
    var r := Filtered(xs, f, key, order);
    SortSorted(key, order, Keep(xs, e => Matches(f, e)));
    if key == ByAmount {
      forall i | 0 <= i < |r| - 1
        ensures order == Asc ==> r[i].amount <= r[i + 1].amount
        ensures order == Desc ==> r[i].amount >= r[i + 1].amount
      {
        assert Comparison(key, order, r[i], r[i + 1]) <= 0;
      }
    }
  }

  /** The total shown is the total of the expenses that pass the filters,
      whatever the sort. */
  lemma {:induction false} TotalIgnoresSort(xs: seq<Expense>, f: Filters, key: SortBy, order: SortOrder)
    ensures TotalFiltered(xs, f, key, order) == Total(Keep(xs, e => Matches(f, e)))
    ensures forall key2: SortBy, order2: SortOrder ::
      TotalFiltered(xs, f, key2, order2) == TotalFiltered(xs, f, key, order)
  {
    SortTotal(key, order, Keep(xs, e => Matches(f, e)));
    forall key2: SortBy, order2: SortOrder
      ensures TotalFiltered(xs, f, key2, order2) == Total(Keep(xs, e => Matches(f, e)))
    {
      SortTotal(key2, order2, Keep(xs, e => Matches(f, e)));
    }
  }

  /** Every text contains the empty text. */
  lemma {:induction false} ContainsEmpty(s: string)
    ensures Contains(s, "")
  {
    OccursContains(s, "", 0);
  }

  /** With every filter empty nothing is filtered out: the list shown is the
      whole list, rearranged. */
  lemma {:induction false} EmptyFiltersKeepAll(xs: seq<Expense>, key: SortBy, order: SortOrder)
    ensures multiset(Filtered(xs, Filters("", "", ""), key, order)) == multiset(xs)
  {
    var f := Filters("", "", "");
    forall i | 0 <= i < |xs|
      ensures Matches(f, xs[i])
    {
      assert ToLower("") == "";
      ContainsEmpty(ToLower(xs[i].description));
    }
    KeepAll(xs, e => Matches(f, e));
    SortSorted(key, order, xs);
  }
}

/**
 * "Calculate Total Expenses": the per-category `SUM(amount) ... GROUP BY
 * category` and the grand `SUM(amount)` of one trip, with Python's `or 0`
 * turning SQL's NULL sum over no rows into 0. Amounts are exact reals.
 */
module Totals {
  import opened Wrappers
  import opened TripStore

  // ------------------------------------------------------ sums over maps

  /** The sum of the values of a finite map, in no particular order. */
  ghost function SumOf<K>(m: map<K, real>): real
    decreases m.Keys
  {
    if m == map[] then 0.0
    else
      var k :| k in m.Keys;
      m[k] + SumOf(m - {k})
  }

  /** The sum does not depend on which key is taken out first. */
  lemma {:induction false} SumOfRemove<K>(m: map<K, real>, k: K)
    requires k in m
    ensures SumOf(m) == m[k] + SumOf(m - {k})
    decreases m.Keys
  {
    var j :| j in m.Keys && SumOf(m) == m[j] + SumOf(m - {j});
    if j != k {
      var mj := m - {j};
      var mk := m - {k};
      SumOfRemove(mj, k);
      SumOfRemove(mk, j);
      assert mj - {k} == mk - {j};
    }
  }

  // ------------------------------------------------ the amounts of a trip

  /** The amounts of the expenses with ids in `ids`. */
  function Amounts(es: map<int, Expense>, ids: set<int>): (r: map<int, real>)
    requires ids <= es.Keys
    ensures r.Keys == ids
  {
    map i | i in ids :: es[i].amount
  }

  /** The categories that occur among the expenses `ids`: the groups of `GROUP BY category`. */
  function Categories(es: map<int, Expense>, ids: set<int>): set<string>
    requires ids <= es.Keys
  {
    set i | i in ids :: es[i].category
  }

  /** The expenses among `ids` that are filed under `category`. */
  function InCategory(es: map<int, Expense>, ids: set<int>, category: string): (r: set<int>)
    requires ids <= es.Keys
    ensures r <= ids
  {
    set i | i in ids && es[i].category == category
  }

  /** The sum of the amounts among `ids` that are filed under `category`. */
  ghost function CategorySum(es: map<int, Expense>, ids: set<int>, category: string): real
    requires ids <= es.Keys
  {
    SumOf(Amounts(es, InCategory(es, ids, category)))
  }

  /** One row per category that occurs, holding the sum of that category's amounts. */
  ghost function ByCategory(es: map<int, Expense>, ids: set<int>): map<string, real>
    requires ids <= es.Keys
  {
    map c | c in Categories(es, ids) :: CategorySum(es, ids, c)
  }

  /**
   * The reference meaning of the category table for trip `tripId`: one
   * entry for each category among the trip's rows and no other.
   */
  ghost function CategoryTotals(s: Store, tripId: int): (r: map<string, real>)
    ensures forall c :: c in r <==>
      exists id | id in s.expenses && s.expenses[id].tripId == tripId :: s.expenses[id].category == c
    ensures ListExpenses(s, tripId) == map[] ==> r == map[]
  {
    var rows := ListExpenses(s, tripId);
    ByCategory(s.expenses, rows.Keys)
  }

  /**
   * The reference meaning of the grand total for trip `tripId`. It is the
   * sum of the category totals, and 0 for a trip without expenses.
   */
  ghost function GrandTotal(s: Store, tripId: int): (r: real)
    ensures r == SumOf(CategoryTotals(s, tripId))
    ensures ListExpenses(s, tripId) == map[] ==> r == 0.0
  {
    var rows := ListExpenses(s, tripId);
    GroupingKeepsSum(s.expenses, rows.Keys);
    assert rows == map[] ==> Amounts(s.expenses, rows.Keys) == map[];
    SumOf(Amounts(s.expenses, rows.Keys))
  }

  // ------------------------------------------------------- one more row

  /** A category's running total, 0 before its first row. */
  function EntryOr0(m: map<string, real>, c: string): real {
    if c in m then m[c] else 0.0
  }

  /** Adding one row to a set of rows adds its amount to the total. */
  lemma AmountsAddOne(es: map<int, Expense>, ids: set<int>, k: int)
    requires ids <= es.Keys && k in es && k !in ids
    ensures SumOf(Amounts(es, ids + {k})) == es[k].amount + SumOf(Amounts(es, ids))
  {
    var m := Amounts(es, ids + {k});
    SumOfRemove(m, k);
    assert m - {k} == Amounts(es, ids);
  }

  /** A category with no rows among `ids` sums to 0. */
  lemma CategorySumAbsent(es: map<int, Expense>, ids: set<int>, c: string)
    requires ids <= es.Keys && c !in Categories(es, ids)
    ensures CategorySum(es, ids, c) == 0.0
  {
    assert forall i | i in ids :: es[i].category in Categories(es, ids);
    assert InCategory(es, ids, c) == {};
    assert Amounts(es, {}) == map[];
  }

  /** One more row adds its amount to its own category's sum. */
  lemma CategorySumAddOne(es: map<int, Expense>, ids: set<int>, k: int)
    requires ids <= es.Keys && k in es && k !in ids
    ensures var c := es[k].category;
      CategorySum(es, ids + {k}, c) == EntryOr0(ByCategory(es, ids), c) + es[k].amount
  {
    var c := es[k].category;
    assert InCategory(es, ids + {k}, c) == InCategory(es, ids, c) + {k};
    AmountsAddOne(es, InCategory(es, ids, c), k);
    if c !in Categories(es, ids) {
      CategorySumAbsent(es, ids, c);
    }
  }

  /** One more row leaves every other category's sum alone. */
  lemma CategorySumOther(es: map<int, Expense>, ids: set<int>, k: int, d: string)
    requires ids <= es.Keys && k in es && k !in ids && d != es[k].category
    ensures CategorySum(es, ids + {k}, d) == CategorySum(es, ids, d)
  {
    assert InCategory(es, ids + {k}, d) == InCategory(es, ids, d);
  }

  /** Adding one row changes only its own category's entry, by its amount. */
  lemma ByCategoryAddOne(es: map<int, Expense>, ids: set<int>, k: int)
    requires ids <= es.Keys && k in es && k !in ids
    ensures var b := ByCategory(es, ids);
      var c := es[k].category;
      ByCategory(es, ids + {k}) == b[c := EntryOr0(b, c) + es[k].amount]
  {
    var b := ByCategory(es, ids);
    var c := es[k].category;
    var b' := ByCategory(es, ids + {k});
    var expected := b[c := EntryOr0(b, c) + es[k].amount];
    assert Categories(es, ids + {k}) == Categories(es, ids) + {c};
    assert b'.Keys == expected.Keys;
    forall d | d in b'
      ensures b'[d] == expected[d]
    {
      if d == c {
        CategorySumAddOne(es, ids, k);
      } else {
        CategorySumOther(es, ids, k, d);
      }
    }
  }

  /** Raising one entry of a map (or adding it, from 0) raises the sum by as much. */
  lemma SumOfBump(m: map<string, real>, c: string, x: real)
    ensures SumOf(m[c := EntryOr0(m, c) + x]) == SumOf(m) + x
  {
    var m' := m[c := EntryOr0(m, c) + x];
    SumOfRemove(m', c);
    assert m' - {c} == m - {c};
    if c in m {
      SumOfRemove(m, c);
    } else {
      assert m - {c} == m;
    }
  }

  /** The arithmetic of one grouping step, stated over plain maps. */
  lemma BumpKeepsEqualSums(b: map<string, real>, b': map<string, real>, a: map<int, real>, a': map<int, real>, c: string, x: real)
    requires b' == b[c := EntryOr0(b, c) + x]
    requires SumOf(a') == x + SumOf(a)
    requires SumOf(b) == SumOf(a)
    ensures SumOf(b') == SumOf(a')
  {
    SumOfBump(b, c, x);
  }

  /** One more row keeps the grouped sum equal to the plain sum. */
  lemma GroupingStep(es: map<int, Expense>, rest: set<int>, k: int)
    requires rest <= es.Keys && k in es && k !in rest
    requires SumOf(ByCategory(es, rest)) == SumOf(Amounts(es, rest))
    ensures SumOf(ByCategory(es, rest + {k})) == SumOf(Amounts(es, rest + {k}))
  {
    hide SumOf, ByCategory, Amounts;
    ByCategoryAddOne(es, rest, k);
    AmountsAddOne(es, rest, k);
    BumpKeepsEqualSums(ByCategory(es, rest), ByCategory(es, rest + {k}),
      Amounts(es, rest), Amounts(es, rest + {k}), es[k].category, es[k].amount);
  }

  /** Summing the per-category sums gives the sum of all the amounts. */
  lemma {:induction false} GroupingKeepsSum(es: map<int, Expense>, ids: set<int>)
    requires ids <= es.Keys
    ensures SumOf(ByCategory(es, ids)) == SumOf(Amounts(es, ids))
    decreases ids
  {
    if ids == {} {
      assert ByCategory(es, ids) == map[];
      assert Amounts(es, ids) == map[];
    } else {
      assert (forall x :: x !in ids) ==> ids == {};
      var k :| k in ids;
      var rest := ids - {k};
      GroupingKeepsSum(es, rest);
      GroupingStep(es, rest, k);
      assert rest + {k} == ids;
    }
  }

  // ----------------------------------------------------------- the query

  /** After reading the rows `done`: the category table so far and SQL's running `SUM`. */
  ghost predicate Tallied(es: map<int, Expense>, done: set<int>, totals: map<string, real>, sum: Option<real>)
    requires done <= es.Keys
  {
    && totals == ByCategory(es, done)
    && (sum.None? <==> done == {})
    && (sum.Some? ==> sum.value == SumOf(Amounts(es, done)))
  }

  /** Before any row is read, there are no categories and the sum is NULL. */
  lemma TallyEmpty(es: map<int, Expense>)
    ensures Tallied(es, {}, map[], None)
  {
    assert ByCategory(es, {}) == map[];
  }

  /** SQL's running `SUM`: NULL before the first row, then the sum of the rows read. */
  lemma RunningSumOne(es: map<int, Expense>, done: set<int>, k: int, sum: Option<real>)
    requires done <= es.Keys && k in es && k !in done
    requires sum.None? <==> done == {}
    requires sum.Some? ==> sum.value == SumOf(Amounts(es, done))
    ensures sum.GetOr(0.0) + es[k].amount == SumOf(Amounts(es, done + {k}))
  {
    AmountsAddOne(es, done, k);
    if sum.None? {
      assert Amounts(es, done) == map[];
    }
  }

  /** Reading one more row keeps the tally. */
  lemma TallyOne(es: map<int, Expense>, done: set<int>, k: int, totals: map<string, real>, sum: Option<real>)
    requires done <= es.Keys && k in es && k !in done
    requires Tallied(es, done, totals, sum)
    ensures var row := es[k];
      Tallied(es, done + {k}, totals[row.category := EntryOr0(totals, row.category) + row.amount],
              Some(sum.GetOr(0.0) + row.amount))
  {
    ByCategoryAddOne(es, done, k);
    RunningSumOne(es, done, k, sum);
  }

  /**
   * One pass over the rows `ids`, the way SQLite evaluates the two aggregate
   * queries: a running sum per category, and `sum`, which is SQL's
   * `SUM(amount)` and stays NULL until a row is seen.
   */
  method Tally(es: map<int, Expense>, ids: set<int>) returns (totals: map<string, real>, sum: Option<real>)
    requires ids <= es.Keys
    ensures Tallied(es, ids, totals, sum)
  {
    hide Tallied;
    var remaining := ids;
    ghost var done: set<int> := {};
    totals := map[];
    sum := None;
    TallyEmpty(es);
    while remaining != {}
      invariant remaining + done == ids && remaining !! done
      invariant Tallied(es, done, totals, sum)
      decreases remaining
    {
      assert (forall x :: x !in remaining) ==> remaining == {};
      var k :| k in remaining;
      var row := es[k];
      TallyOne(es, done, k, totals, sum);
      totals := totals[row.category := EntryOr0(totals, row.category) + row.amount];
      sum := Some(sum.GetOr(0.0) + row.amount);
      remaining := remaining - {k};
      done := done + {k};
    }
  }

  /**
   * "Calculate Total Expenses" for one trip: the category table and the
   * grand total, which is the SQL sum `or 0`, so 0 rather than NULL when the
   * trip has no expenses.
   */
  method CalculateTotals(s: Store, tripId: int) returns (totals: map<string, real>, grandTotal: real)
    ensures totals == CategoryTotals(s, tripId)
    ensures grandTotal == GrandTotal(s, tripId)
    ensures ListExpenses(s, tripId) == map[] ==> totals == map[] && grandTotal == 0.0
  {
    var ids := ListExpenses(s, tripId).Keys;
    var sum;
    totals, sum := Tally(s.expenses, ids);
    grandTotal := if sum.None? then 0.0 else sum.value;
    if sum.None? {
      assert Amounts(s.expenses, ids) == map[];
    }
  }
}

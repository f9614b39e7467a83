/**
 * The menu branches that write to the database, as one state machine over
 * the store. Each command carries what the user picked or typed; a name
 * picked from the trip list always names a stored trip, and the "no trips"
 * warning branch is the case where nothing is stored, so a command naming an
 * unknown trip leaves the store as it is.
 */
module Menu {
  import opened Wrappers
  import opened Text
  import opened ExpenseLabel
  import opened TripStore
  import opened Totals

  datatype Command =
    | AddTripCmd(name: string)
    | AddExpenseCmd(tripName: string, category: string, amount: real, description: string)
      /** The option for expense `expenseId` is picked; `amountText` is how its amount is rendered. */
    | DeleteExpenseCmd(tripName: string, expenseId: int, amountText: string)
    | DeleteTripCmd(tripName: string)

  /**
   * "Delete an Expense" after the option for `id` was picked: the id that is
   * deleted is the one parsed back out of the option's label. A label that
   * `int()` rejected would raise before the delete, leaving the store as it was.
   */
  function DeleteChosenExpense(s: Store, id: nat, amountText: string): (r: Store)
    requires id in s.expenses
    ensures r == DeleteExpense(s, id)
  {
    var row := s.expenses[id];
    var option := FormatLabel(id, row.category, amountText, row.description);
    LabelRoundTrip(id, row.category, amountText, row.description);
    match ParseLabel(option)
    case Some(parsed) => DeleteExpense(s, parsed)
    case None => s
  }

  /** One confirmed menu action. */
  function Step(s: Store, cmd: Command): (r: Store)
    requires Valid(s)
    ensures Valid(r)
    ensures cmd.AddTripCmd? && HasTripNamed(s.trips, Upper(cmd.name)) ==> r == s
    ensures cmd.AddTripCmd? && !HasTripNamed(s.trips, Upper(cmd.name)) ==> |r.trips| == |s.trips| + 1
  {
    match cmd
    case AddTripCmd(name) =>
      (match AddTrip(s, name)
       case Success(s') => AddTripAddsOne(s, name); s'
       case Failure(_) => s)
    case AddExpenseCmd(tripName, category, amount, description) =>
      if HasTripNamed(s.trips, tripName) then AddExpense(s, tripName, category, amount, description) else s
    case DeleteExpenseCmd(tripName, id, amountText) =>
      (match TripIdOf(s, tripName)
       case Some(tripId) =>
         if id in ListExpenses(s, tripId) then DeleteChosenExpense(s, id, amountText) else s
       case None => s)
    case DeleteTripCmd(tripName) =>
      match TripIdOf(s, tripName)
      case Some(tripId) => DeleteTrip(s, tripId)
      case None => s
  }

  /** A session: the commands applied in order. */
  function Run(s: Store, cmds: seq<Command>): (r: Store)
    requires Valid(s)
    ensures Valid(r)
    decreases |cmds|
  {
    if cmds == [] then s else Run(Step(s, cmds[0]), cmds[1..])
  }

  /** Every database the menu reaches from the empty one, with the declared cascade, is valid. */
  lemma ReachableValid(cmds: seq<Command>)
    ensures Valid(Run(Empty(), cmds))
  {
  }

  /** Picking an expense's option deletes exactly that expense, whatever its text fields hold. */
  lemma DeletePickedExpense(s: Store, tripName: string, id: int, amountText: string)
    requires Valid(s) && HasTripNamed(s.trips, tripName)
    requires id in s.expenses && s.trips[s.expenses[id].tripId] == tripName
    ensures var r := Step(s, DeleteExpenseCmd(tripName, id, amountText));
      && r.expenses.Keys == s.expenses.Keys - {id}
      && (forall e | e in r.expenses :: r.expenses[e] == s.expenses[e])
      && r.trips == s.trips
  {
  }

  // ------------------------------------------------------------ scenarios

  /** Creating "paris" twice: both uppercase to "PARIS", so the second fails. */
  lemma DuplicateTripScenario()
    ensures var s1 := AddTrip(Empty(), "paris");
      && s1.Success?
      && AddTrip(s1.value, "Paris") == Failure(DuplicateName("PARIS"))
  {
    assert Upper("paris") == "PARIS";
    assert Upper("Paris") == "PARIS";
    SameUpperNameRejected(Empty(), "paris", "Paris");
  }

  /** The session of the totals scenario: trip "Paris", then two food expenses. */
  function ParisSession(): seq<Command> {
    [ AddTripCmd("Paris"),
      AddExpenseCmd("PARIS", "Food", 20.0, "lunch"),
      AddExpenseCmd("PARIS", "Food", 5.0, "") ]
  }

  function ParisTrip(): Store {
    Store(map[1 := "PARIS"], map[], 1, 0)
  }

  function ParisLunch(): Store {
    Store(map[1 := "PARIS"], map[1 := Expense(1, "Food", 20.0, "lunch")], 1, 1)
  }

  function ParisBoth(): Store {
    Store(map[1 := "PARIS"], map[1 := Expense(1, "Food", 20.0, "lunch"), 2 := Expense(1, "Food", 5.0, "")], 1, 2)
  }

  lemma ParisTripStep()
    ensures Step(Empty(), AddTripCmd("Paris")) == ParisTrip()
  {
    assert Upper("Paris") == "PARIS";
    assert !HasTripNamed(map[], "PARIS");
  }

  lemma ParisLunchStep()
    ensures Valid(ParisTrip())
    ensures Step(ParisTrip(), AddExpenseCmd("PARIS", "Food", 20.0, "lunch")) == ParisLunch()
  {
    ParisTripStep();
    assert ParisTrip().trips[1] == "PARIS";
    var r := AddExpense(ParisTrip(), "PARIS", "Food", 20.0, "lunch");
    assert r.expenses.Keys == {1};
  }

  lemma ParisSecondStep()
    ensures Valid(ParisLunch())
    ensures Step(ParisLunch(), AddExpenseCmd("PARIS", "Food", 5.0, "")) == ParisBoth()
  {
    ParisLunchStep();
    assert ParisLunch().trips[1] == "PARIS";
    var r := AddExpense(ParisLunch(), "PARIS", "Food", 5.0, "");
    assert r.expenses.Keys == {1, 2};
  }

  /** A session is its first command followed by the rest. */
  lemma RunFirst(s: Store, cmd: Command, rest: seq<Command>)
    requires Valid(s)
    ensures Run(s, [cmd] + rest) == Run(Step(s, cmd), rest)
  {
    assert ([cmd] + rest)[1..] == rest;
  }

  /** The database after the session: one trip, its two rows, ids 1 and 2. */
  lemma ParisSessionStore()
    ensures Run(Empty(), ParisSession()) == ParisBoth()
  {
    var c1 := AddTripCmd("Paris");
    var c2 := AddExpenseCmd("PARIS", "Food", 20.0, "lunch");
    var c3 := AddExpenseCmd("PARIS", "Food", 5.0, "");
    assert ParisSession() == [c1] + ([c2] + [c3]);
    RunFirst(Empty(), c1, [c2] + [c3]);
    ParisTripStep();
    ParisLunchStep();
    RunFirst(ParisTrip(), c2, [c3]);
    ParisSecondStep();
    RunFirst(ParisLunch(), c3, []);
  }

  /** Both rows of the session belong to trip 1 and sum to 25. */
  lemma ParisGrandTotal()
    ensures ListExpenses(ParisBoth(), 1).Keys == {1, 2}
    ensures SumOf(Amounts(ParisBoth().expenses, {1, 2})) == 25.0
  {
    var es := ParisBoth().expenses;
    AmountsAddOne(es, {}, 1);
    AmountsAddOne(es, {1}, 2);
    assert Amounts(es, {}) == map[];
    assert {} + {1} == {1};
    assert {1} + {2} == {1, 2};
  }

  /** Trip "Paris" with expenses of 20 and 5 under "Food" totals 25 under "Food" and 25 overall. */
  lemma ParisTotalsScenario()
    ensures var s := Run(Empty(), ParisSession());
      && CategoryTotals(s, 1) == map["Food" := 25.0]
      && GrandTotal(s, 1) == 25.0
  {
    ParisSessionStore();
    ParisGrandTotal();
    ParisCategoryTotals();
  }

  /** Both rows are filed under "Food", so the category table has one row. */
  lemma ParisCategoryTotals()
    ensures CategoryTotals(ParisBoth(), 1) == map["Food" := 25.0]
  {
    ParisGrandTotal();
    var es := ParisBoth().expenses;
    var ids: set<int> := {1, 2};
    assert Categories(es, ids) == {"Food"};
    assert InCategory(es, ids, "Food") == ids;
    assert ByCategory(es, ids) == map["Food" := SumOf(Amounts(es, ids))];
  }

  /** Deleting a trip by name leaves neither the trip nor any of its expenses. */
  lemma DeleteTripScenario(s: Store, tripId: int)
    requires Valid(s) && tripId in s.trips
    ensures var r := Step(s, DeleteTripCmd(s.trips[tripId]));
      && tripId !in r.trips
      && ListExpenses(r, tripId) == map[]
      && (forall t | t in r.trips :: ListExpenses(r, t) == ListExpenses(s, t))
  {
    var r := Step(s, DeleteTripCmd(s.trips[tripId]));
    assert r == DeleteTrip(s, tripId);
    ListAfterDeleteTrip(s, tripId, tripId);
    forall t | t in r.trips
      ensures ListExpenses(r, t) == ListExpenses(s, t)
    {
      ListAfterDeleteTrip(s, tripId, t);
    }
  }
}

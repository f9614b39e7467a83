/**
 * The two tables of the expense database and the statements the menu
 * branches run against them, each as a pure transition over an immutable
 * store. `lastTripId` and `lastExpenseId` play the part of SQLite's
 * `sqlite_sequence` rows for the two AUTOINCREMENT keys: the largest id
 * ever handed out, so a new row gets one more than that and ids are never
 * reused.
 */
module TripStore {
  import opened Wrappers
  import opened Text

  /** One row of `expenses`, keyed by its `id`. */
  datatype Expense = Expense(tripId: int, category: string, amount: real, description: string)

  /** `trips` maps `trip_id` to `trip_name`; `expenses` maps `id` to the rest of the row. */
  datatype Store = Store(
    trips: map<int, string>,
    expenses: map<int, Expense>,
    lastTripId: nat,
    lastExpenseId: nat)

  /** The only constraint failure the script reacts to: the UNIQUE `trip_name`. */
  datatype StoreError = DuplicateName(name: string)

  /** A freshly created database: both tables empty, no id handed out yet. */
  function Empty(): (r: Store)
    ensures Valid(r)
    ensures |r.trips| == 0 && |r.expenses| == 0
    ensures r.lastTripId == 0 && r.lastExpenseId == 0
  {
    Store(map[], map[], 0, 0)
  }

  // ------------------------------------------------------------ invariant

  /** `trip_name TEXT UNIQUE`: no two trips share a name. */
  predicate UniqueNames(trips: map<int, string>) {
    forall a, b | a in trips && b in trips && trips[a] == trips[b] :: a == b
  }

  /** Some stored trip is called `name`. */
  predicate HasTripNamed(trips: map<int, string>, name: string) {
    exists id | id in trips :: trips[id] == name
  }

  /** Every stored name went through `upper()` before insertion. */
  predicate UpperNames(trips: map<int, string>) {
    forall id | id in trips :: IsUpperCase(trips[id])
  }

  /** Every id in a table is positive and no larger than the last one handed out. */
  predicate IdsIssued(s: Store) {
    && (forall id | id in s.trips :: 0 < id <= s.lastTripId)
    && (forall id | id in s.expenses :: 0 < id <= s.lastExpenseId)
  }

  /** `FOREIGN KEY (trip_id) REFERENCES trips (trip_id)`: no orphaned expense. */
  predicate ReferencesResolve(s: Store) {
    forall id | id in s.expenses :: s.expenses[id].tripId in s.trips
  }

  /** What the schema declares about every state of the database. */
  predicate Valid(s: Store) {
    UniqueNames(s.trips) && UpperNames(s.trips) && IdsIssued(s) && ReferencesResolve(s)
  }

  // ---------------------------------------------------------- transitions

  /**
   * "Add a New Trip": `INSERT INTO trips (trip_name) VALUES (upper(name))`.
   * A name already stored makes the statement fail, and nothing is written.
   */
  function AddTrip(s: Store, name: string): (r: Result<Store, StoreError>)
    ensures r.Failure? <==> HasTripNamed(s.trips, Upper(name))
    ensures r.Failure? ==> r.error == DuplicateName(Upper(name))
    ensures r.Success? ==>
      var id := s.lastTripId + 1;
      && r.value.trips.Keys == s.trips.Keys + {id}
      && r.value.trips[id] == Upper(name)
      && (forall t | t in s.trips && t != id :: r.value.trips[t] == s.trips[t])
      && r.value.expenses == s.expenses
      && r.value.lastTripId == id
      && r.value.lastExpenseId == s.lastExpenseId
    ensures r.Success? && Valid(s) ==> s.lastTripId + 1 !in s.trips && Valid(r.value)
  {
    var upper := Upper(name);
    if HasTripNamed(s.trips, upper) then
      Failure(DuplicateName(upper))
    else
      var id := s.lastTripId + 1;
      UpperIsUpperCase(name);
      Success(s.(trips := s.trips[id := upper], lastTripId := id))
  }

  /** `SELECT trip_id FROM trips WHERE trip_name = ?`: the id of the named trip, if any. */
  function TripIdOf(s: Store, name: string): (r: Option<int>)
    requires UniqueNames(s.trips)
    ensures r.Some? <==> HasTripNamed(s.trips, name)
    ensures r.Some? ==> r.value in s.trips && s.trips[r.value] == name
  {
    if HasTripNamed(s.trips, name) then
      Some(var id :| id in s.trips.Keys && s.trips[id] == name; id)
    else None
  }

  /**
   * "Add Expenses": resolve the selected trip name to its id, then insert one
   * expense row. The name comes from a list of the stored names; a missing
   * name would make `fetchone()[0]` raise, so it is the caller's obligation.
   */
  function AddExpense(s: Store, tripName: string, category: string, amount: real, description: string): (r: Store)
    requires UniqueNames(s.trips)
    requires HasTripNamed(s.trips, tripName)
    ensures var id := s.lastExpenseId + 1;
      && r.expenses.Keys == s.expenses.Keys + {id}
      && r.expenses[id].tripId in s.trips
      && s.trips[r.expenses[id].tripId] == tripName
      && r.expenses[id].category == category
      && r.expenses[id].amount == amount
      && r.expenses[id].description == description
      && (forall e | e in s.expenses && e != id :: r.expenses[e] == s.expenses[e])
      && r.trips == s.trips
      && r.lastTripId == s.lastTripId
      && r.lastExpenseId == id
    ensures Valid(s) ==> s.lastExpenseId + 1 !in s.expenses && Valid(r)
  {
    var tripId := TripIdOf(s, tripName).value;
    var id := s.lastExpenseId + 1;
    s.(expenses := s.expenses[id := Expense(tripId, category, amount, description)], lastExpenseId := id)
  }

  /**
   * `SELECT id, category, amount, description FROM expenses WHERE trip_id = ?`:
   * the rows of one trip, as used by "View Expenses", "Calculate Total
   * Expenses" and "Delete an Expense".
   */
  function ListExpenses(s: Store, tripId: int): (r: map<int, Expense>)
    ensures forall id :: id in r <==> id in s.expenses && s.expenses[id].tripId == tripId
    ensures forall id | id in r :: r[id] == s.expenses[id]
  {
    map id | id in s.expenses && s.expenses[id].tripId == tripId :: s.expenses[id]
  }

  /** "Delete an Expense": `DELETE FROM expenses WHERE id = ?`; an absent id deletes nothing. */
  function DeleteExpense(s: Store, id: int): (r: Store)
    ensures r.expenses.Keys == s.expenses.Keys - {id}
    ensures forall e | e in r.expenses :: r.expenses[e] == s.expenses[e]
    ensures r.trips == s.trips
    ensures r.lastTripId == s.lastTripId && r.lastExpenseId == s.lastExpenseId
    ensures id !in s.expenses ==> r == s
    ensures Valid(s) ==> Valid(r)
  {
    if id in s.expenses then s.(expenses := s.expenses - {id}) else s
  }

  /**
   * "Delete a Trip": `DELETE FROM trips WHERE trip_id = ?` together with the
   * `ON DELETE CASCADE` the schema declares, which removes the trip's expenses.
   */
  function DeleteTrip(s: Store, tripId: int): (r: Store)
    ensures r.trips.Keys == s.trips.Keys - {tripId}
    ensures forall t | t in r.trips :: r.trips[t] == s.trips[t]
    ensures forall e :: e in r.expenses <==> e in s.expenses && s.expenses[e].tripId != tripId
    ensures forall e | e in r.expenses :: r.expenses[e] == s.expenses[e]
    ensures r.lastTripId == s.lastTripId && r.lastExpenseId == s.lastExpenseId
    ensures Valid(s) ==> Valid(r)
  {
    var expenses := map e | e in s.expenses && s.expenses[e].tripId != tripId :: s.expenses[e];
    s.(trips := s.trips - {tripId}, expenses := expenses)
  }

  /**
   * "Delete a Trip" as the connection actually runs it: SQLite enforces
   * foreign keys only after `PRAGMA foreign_keys = ON`, which the script never
   * issues, so the declared cascade does not fire and the expenses stay.
   */
  function DeleteTripWithoutForeignKeys(s: Store, tripId: int): (r: Store)
    ensures r.trips.Keys == s.trips.Keys - {tripId}
    ensures forall t | t in r.trips :: r.trips[t] == s.trips[t]
    ensures r.expenses == s.expenses
    ensures r.lastTripId == s.lastTripId && r.lastExpenseId == s.lastExpenseId
  {
    s.(trips := s.trips - {tripId})
  }

  // --------------------------------------------------------------- lemmas

  /** Adding a trip under a name that uppercases like a stored one is refused. */
  lemma SameUpperNameRejected(s: Store, first: string, second: string)
    requires AddTrip(s, first).Success?
    requires Upper(first) == Upper(second)
    ensures AddTrip(AddTrip(s, first).value, second) == Failure(DuplicateName(Upper(second)))
  {
    var s' := AddTrip(s, first).value;
    assert s'.trips[s.lastTripId + 1] == Upper(second);
  }

  /** In a valid store, a successful add-trip adds exactly one trip. */
  lemma AddTripAddsOne(s: Store, name: string)
    requires IdsIssued(s) && AddTrip(s, name).Success?
    ensures |AddTrip(s, name).value.trips| == |s.trips| + 1
  {
    var id := s.lastTripId + 1;
    var r := AddTrip(s, name).value;
    assert id !in s.trips.Keys;
    assert r.trips.Keys == s.trips.Keys + {id};
    assert |r.trips.Keys| == |s.trips.Keys| + 1;
  }

  /** The listing of the trip an expense is added to gains exactly that row; others stay the same. */
  lemma ListAfterAddExpense(s: Store, tripName: string, category: string, amount: real, description: string, t: int)
    requires Valid(s) && HasTripNamed(s.trips, tripName) && t in s.trips
    ensures var r := AddExpense(s, tripName, category, amount, description);
      var id := s.lastExpenseId + 1;
      if s.trips[t] == tripName then
        ListExpenses(r, t) == ListExpenses(s, t)[id := Expense(t, category, amount, description)]
      else
        ListExpenses(r, t) == ListExpenses(s, t)
  {
    var r := AddExpense(s, tripName, category, amount, description);
    var id := s.lastExpenseId + 1;
    assert r.expenses[id].tripId == t <==> s.trips[t] == tripName;
    if s.trips[t] == tripName {
      assert r.expenses[id] == Expense(t, category, amount, description);
    }
  }

  /** After a cascading delete, the trip's listing is empty and other trips' listings are untouched. */
  lemma ListAfterDeleteTrip(s: Store, tripId: int, t: int)
    ensures ListExpenses(DeleteTrip(s, tripId), tripId) == map[]
    ensures t != tripId ==> ListExpenses(DeleteTrip(s, tripId), t) == ListExpenses(s, t)
  {
    var r := DeleteTrip(s, tripId);
    assert ListExpenses(r, tripId).Keys == {};
  }

  /** In a valid store every expense appears in the listing of exactly one stored trip. */
  lemma ListingsPartitionExpenses(s: Store, id: int)
    requires Valid(s) && id in s.expenses
    ensures var t := s.expenses[id].tripId;
      t in s.trips && id in ListExpenses(s, t)
    ensures forall t | t in s.trips && id in ListExpenses(s, t) :: t == s.expenses[id].tripId
  {
  }

  /**
   * Deleting a trip that still has an expense without the cascade leaves an
   * orphaned expense: the foreign-key invariant is broken.
   */
  lemma DeleteWithoutForeignKeysOrphans(s: Store, tripId: int, id: int)
    requires id in s.expenses && s.expenses[id].tripId == tripId
    ensures !ReferencesResolve(DeleteTripWithoutForeignKeys(s, tripId))
  {
    var r := DeleteTripWithoutForeignKeys(s, tripId);
    assert r.expenses[id].tripId !in r.trips;
  }

  /**
   * AUTOINCREMENT: the expense inserted after a delete does not get the
   * deleted id back, even when the deleted row was the newest one.
   */
  lemma DeletedExpenseIdNotReissued(s: Store, id: int, tripName: string, category: string, amount: real, description: string)
    requires Valid(s) && id in s.expenses && HasTripNamed(s.trips, tripName)
    ensures var d := DeleteExpense(s, id);
      var r := AddExpense(d, tripName, category, amount, description);
      && id !in r.expenses
      && r.lastExpenseId > id
  {
  }

  /** A concrete database on which the two delete-trip behaviours differ. */
  lemma DeleteTripCounterexample()
    ensures var s := Store(map[1 := "PARIS"], map[1 := Expense(1, "Food", 20.0, "lunch")], 1, 1);
      && Valid(s)
      && !Valid(DeleteTripWithoutForeignKeys(s, 1))
      && Valid(DeleteTrip(s, 1))
      && DeleteTrip(s, 1) == Store(map[], map[], 1, 1)
  {
    var s := Store(map[1 := "PARIS"], map[1 := Expense(1, "Food", 20.0, "lunch")], 1, 1);
    assert IsUpperCase("PARIS");
    DeleteWithoutForeignKeysOrphans(s, 1, 1);
    var r := DeleteTrip(s, 1);
    assert r.expenses.Keys == {};
    assert r.trips.Keys == {};
  }
}

# Travel Expense Manager — a Dafny model of its database core

The Travel Expense Manager is a single-user Streamlit script. It keeps trips and
their expenses in two SQLite tables. Its seven menu branches add a trip, add an
expense, list trips, list a trip's expenses, total a trip's expenses by category,
delete an expense and delete a trip. This project models the database side of
those branches as pure transitions over an immutable in-memory store:

- `TripStore` (store.dfy) holds the two tables as maps: `trip_id → trip_name` and
  `id → (trip_id, category, amount, description)`. The AUTOINCREMENT keys are
  modelled by two counters, like SQLite's `sqlite_sequence`. Each counter holds
  the largest id ever handed out, so ids are never reused. The predicate `Valid`
  collects what the schema declares (unique names, ids positive and issued, no
  expense without its trip) together with what the insert guarantees through
  `upper()` at line 66 (every name already uppercased). Every transition of the
  declared schema, with the cascading `DeleteTrip`, keeps it;
  `DeleteTripWithoutForeignKeys`, the delete as the connection actually runs
  it, does not (see Findings).
- `Text` (text.dfy) is the uppercasing applied to trip names before insertion.
- `Totals` (totals.dfy) holds the `GROUP BY category` sums and the grand total
  `SUM(amount) ... or 0`. They are given once as reference definitions over a
  generic sum of a finite map. They are given again as a one-pass method proved
  equal to those definitions.
- `ExpenseLabel` (label.dfy) covers the "Delete an Expense" option text
  `"ID: {id} | {category} | {amount} | {description}"`. It also covers its
  parse `int(option.split(" | ")[0].replace("ID:", "").strip())`. Each of the
  Python string operations is modelled separately. The main result is that the
  parse returns the id for any category, amount text or description.
- `Menu` (menu.dfy) is the state machine over the four menu branches that
  write, with the scenarios the application is expected to satisfy.
- `Wrappers` (wrappers.dfy) holds `Option` (SQL NULL, a lookup with no row) and
  `Result` (a statement that fails on a constraint).

Amounts are exact `real`s. The schema declares `ON DELETE CASCADE`, and
`DeleteTrip` models that cascade. The connection never turns foreign keys on,
though, so the script as it runs does not cascade. That behaviour is modelled
too; see Findings.

## Model

| member | source | states |
|---|---|---|
| Text.Upper | tnew4.py:66 | the uppercased name has the same length as the input, and each of its characters is that input character uppercased |
| Text.UpperIsUpperCase | tnew4.py:66 | every uppercased name contains no lower-case letter |
| Text.UpperFixedPoint | tnew4.py:66 | a name is unchanged by uppercasing exactly when it contains no lower-case letter |
| Text.UpperIdempotent | tnew4.py:66 | uppercasing an already uppercased name changes nothing |
| ExpenseLabel.NatToString | tnew4.py:136 | `str(id)` is a non-empty string of decimal digits with no leading zero |
| ExpenseLabel.NatToStringRoundTrip | tnew4.py:136-140 | reading the decimal text of a non-negative id gives the id back |
| ExpenseLabel.StripLeading | tnew4.py:140 | the result is a suffix of the input, everything cut off before it is whitespace, and it does not start with whitespace |
| ExpenseLabel.StripTrailing | tnew4.py:140 | the result is a prefix of the input, everything cut off after it is whitespace, and it does not end with whitespace |
| ExpenseLabel.Strip | tnew4.py:140 | `strip()` returns a slice of the text with only whitespace on either side of it and none at its own ends, and text without whitespace at its ends is returned as it is |
| ExpenseLabel.UnsignedDigits | tnew4.py:140 | a digit string has no sign and parses to its decimal value |
| ExpenseLabel.ParseInt | tnew4.py:140 | `int()` of a non-empty digit string is its decimal value; a successful parse needs non-blank text, and a negative result needs a leading minus after the whitespace |
| ExpenseLabel.BeforeFirst | tnew4.py:140 | `split(" | ")[0]` is a prefix of the text with no separator starting inside it, and it ends at the first separator or at the end of the text |
| ExpenseLabel.RemoveAll | tnew4.py:140 | `replace("ID:", "")` never lengthens the text, shortens it by at least the tag when the text starts with the tag, and leaves text with no occurrence of the tag as it is |
| ExpenseLabel.RemoveAllLeading | tnew4.py:140 | an occurrence of the tag at the front is dropped and the removal resumes right after it |
| ExpenseLabel.RemoveAllKeeps | tnew4.py:140 | text in which no occurrence of the tag starts is copied through, and the removal carries on in what follows |
| ExpenseLabel.FormatLabel | tnew4.py:136 | the option text starts with `"ID: " + str(id) + " | "`, so its first `" | "`-segment is the tag and the id whatever the other fields hold |
| ExpenseLabel.ParseLabel | tnew4.py:140 | an option containing neither `" | "` nor `"ID:"` is read by `int()` as it stands |
| ExpenseLabel.FirstSegment | tnew4.py:136-140 | the first `" | "`-segment of an option is `"ID: " + str(id)`, whatever follows it |
| ExpenseLabel.TagRemoved | tnew4.py:140 | removing "ID:" from `"ID: " + digits` leaves `" " + digits` |
| ExpenseLabel.StripSpacedDigits | tnew4.py:140 | stripping `" " + digits` gives the digits |
| ExpenseLabel.LabelRoundTrip | tnew4.py:136-140 | parsing the option text gives back the expense id for every category, amount text and description, including ones containing `" | "` or `"ID:"` |
| TripStore.Empty | tnew4.py:14-23 | the newly created database has both tables empty and both id counters at 0, and satisfies every schema invariant |
| TripStore.AddTrip | tnew4.py:62-70 | the insert fails with DuplicateName of the uppercased name exactly when a trip already has that name, and then nothing is written. Otherwise the one new trip gets the next id and the uppercased name. Other trips and all expenses are unchanged, and validity is kept |
| TripStore.TripIdOf | tnew4.py:80 | the lookup finds an id exactly when some trip has that name, and the found id carries that name |
| TripStore.AddExpense | tnew4.py:79-83 | exactly one expense is added, with the next id, the named trip's id and the given category, amount and description. Trips and all other expenses are unchanged, and validity is kept |
| TripStore.ListExpenses | tnew4.py:101 | the listing holds exactly the expenses whose trip id is the given one, with their stored values |
| TripStore.DeleteExpense | tnew4.py:143 | exactly the row with that id is removed and every other row is kept. Trips and both id counters are unchanged, so a deleted id is not handed out again. An absent id leaves the store unchanged, and validity is kept |
| TripStore.DeleteTrip | tnew4.py:157-160 | the trip is removed, and with it exactly its expenses. Other trips, the other trips' expenses and both id counters are kept unchanged, and validity is kept |
| TripStore.DeleteTripWithoutForeignKeys | tnew4.py:158 | without the cascade, the trip is removed, the other trips keep their names, and the expense table and both id counters are left as they were |
| TripStore.SameUpperNameRejected | tnew4.py:65-70 | once a name is added, adding any name with the same uppercase form fails with DuplicateName |
| TripStore.AddTripAddsOne | tnew4.py:66 | in a valid database a successful add-trip grows the trip table by exactly one |
| TripStore.DeletedExpenseIdNotReissued | tnew4.py:18 | after an expense is deleted, even the newest one, the next inserted expense gets a different, larger id (AUTOINCREMENT) |
| TripStore.ListAfterAddExpense | tnew4.py:81-82 | after add-expense the chosen trip's listing gains exactly the new row, and every other trip's listing is unchanged |
| TripStore.ListAfterDeleteTrip | tnew4.py:157-158 | after delete-trip that trip's listing is empty, and every other trip's listing is unchanged |
| TripStore.ListingsPartitionExpenses | tnew4.py:19-23 | in a valid database every expense appears in the listing of exactly one stored trip |
| TripStore.DeleteWithoutForeignKeysOrphans | tnew4.py:10-23 | deleting, without the cascade, a trip that has an expense breaks the foreign-key invariant |
| TripStore.DeleteTripCounterexample | tnew4.py:157-160 | on a database with one trip and one expense, the delete without cascade leaves an orphan, while the cascading delete leaves an empty valid database |
| Totals.SumOfRemove | tnew4.py:115-116 | the sum of a map's values is any one value plus the sum of the rest |
| Totals.AmountsAddOne | tnew4.py:116 | one more row adds its amount to the sum |
| Totals.CategorySumAbsent | tnew4.py:115 | a category that has no rows sums to 0 |
| Totals.CategorySumAddOne | tnew4.py:115 | one more row adds its amount to its own category's sum |
| Totals.CategorySumOther | tnew4.py:115 | one more row leaves every other category's sum unchanged |
| Totals.ByCategoryAddOne | tnew4.py:115 | one more row changes only its own category's entry of the grouped table, adding its amount, and creates the entry if it is the category's first row |
| Totals.SumOfBump | tnew4.py:115-116 | raising one entry of the table by an amount raises the table's sum by that amount |
| Totals.GroupingKeepsSum | tnew4.py:115-116 | the sum of the per-category sums equals the sum of all the amounts |
| Totals.CategoryTotals | tnew4.py:115 | the reference category table has an entry for exactly the categories that occur among the trip's expenses, and none for a trip without expenses |
| Totals.GrandTotal | tnew4.py:116 | the reference grand total equals the sum of the category totals, and is 0 for a trip without expenses |
| Totals.TallyEmpty | tnew4.py:115-116 | before any row the table is empty and SQL's `SUM` is NULL |
| Totals.RunningSumOne | tnew4.py:116 | SQL's running `SUM`, starting from NULL, plus one more row equals the sum over the rows read |
| Totals.TallyOne | tnew4.py:115-116 | reading one more row keeps the running table and running sum equal to the reference definitions |
| Totals.Tally | tnew4.py:115-116 | one pass over a trip's rows gives the grouped table and SQL's `SUM`, which is NULL exactly when there are no rows |
| Totals.CalculateTotals | tnew4.py:114-116 | each category's total is the sum of that trip's amounts in that category. The grand total is the sum of all its amounts, and with no expenses the table is empty and the grand total is 0 |
| Menu.DeleteChosenExpense | tnew4.py:136-143 | deleting by the id parsed back from the chosen option deletes exactly the chosen expense |
| Menu.Step | tnew4.py:62-160 | every confirmed menu action takes a valid database to a valid database; adding a trip whose uppercased name is taken leaves the database as it was, any other add-trip grows the trip table by one |
| Menu.Run | tnew4.py:62-160 | any sequence of menu actions, with the declared cascade on delete-trip, keeps the database valid |
| Menu.ReachableValid | tnew4.py:14-23 | every database the menu reaches from the empty one, with the declared cascade on delete-trip, satisfies the schema invariant |
| Menu.DeletePickedExpense | tnew4.py:133-143 | "Delete an Expense" on a picked option removes exactly that expense and nothing else |
| Menu.DuplicateTripScenario | tnew4.py:66-70 | adding "paris" and then "Paris" fails the second time with DuplicateName("PARIS") |
| Menu.ParisSessionStore | tnew4.py:62-83 | the session "Paris", then 20.00 and 5.00 under "Food", stores one trip PARIS with ids 1 and 2 |
| Menu.ParisTotalsScenario | tnew4.py:110-116 | in that session, the totals of trip PARIS are {"Food": 25} with grand total 25 |
| Menu.DeleteTripScenario | tnew4.py:152-160 | after deleting a trip by name, it is gone and its listing is empty, and every remaining trip's listing is unchanged |

## Findings

| source | as written | input that shows it | evidently intended | confidence | as-written member | corrected member |
|---|---|---|---|---|---|---|
| tnew4.py:10 | the connection never runs `PRAGMA foreign_keys = ON`, so SQLite ignores the `ON DELETE CASCADE` of line 23. The `DELETE FROM trips` at line 158 then leaves the trip's expenses in place, pointing at a trip that no longer exists | a database with trip 1 "PARIS" and expense 1 of that trip. Deleting trip 1 keeps expense 1, whose `trip_id` names no trip | deleting a trip also deletes its expenses, as the schema (line 23) and the success message (line 160) say | not executed; high (SQLite's documented default) | TripStore.DeleteWithoutForeignKeysOrphans | TripStore.DeleteTrip |

`TripStore.DeleteTripCounterexample` shows both behaviours on the concrete
database above. The state machine in `Menu` uses the cascading `DeleteTrip`.

## Left out

- Streamlit presentation: page setup, images, the random quote, widgets, DataFrame rendering and the success and warning messages.
- The "no trips available" guards: a command that names a trip not in the store leaves the store unchanged. Trip names come from a list of stored names, so this only happens when no trip exists.
- "View All Trips" (`SELECT * FROM trips`, line 89): it returns the `trips` map as it is, so it has no member of its own.
- The SQLite connection, cursor and `commit()` calls. Each statement is modelled as one atomic transition. Connection failures and malformed-input exceptions are not modelled.
- Floating point: amounts are exact `real`s, so float rounding in `SUM` is not modelled. So is the difference between Python's int `0` and float `0.0` produced by `or 0`. Negative amounts are accepted, as the store accepts them. The non-negative minimum belongs to the input widget only.
- The rendering of the amount inside the option text (`{expense[2]}`, a float repr): it is an arbitrary string. Only the id segment matters to the parse.
- Unicode case mapping: `str.upper()` is modelled on ASCII letters only. Python also maps other letters, and may change the length, as with 'ß' → 'SS'.
- ExpenseLabel.ParseInt: strips the characters of `str.isspace()`, so it also ignores U+001C to U+001F around the number, which `int()` rejects. In the label parse `strip()` has already removed them, so the result there is the same.
- `int()` also accepts underscores between digits and non-ASCII decimal digits. Neither occurs in `str(id)`, so the model does not accept them.
- Row order of unordered `SELECT` and `GROUP BY` results: listings and totals are maps.
- The 64-bit id limit: AUTOINCREMENT fails with SQLITE_FULL at 2^63 - 1, while the model's ids are unbounded.
- `description` as NULL: the text area always provides a string, so descriptions are strings.

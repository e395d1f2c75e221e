# Commute cost calculator: cost splitting and monthly settlement

This project models the computational core of a small commute cost
calculator. The calculator records cars (each with an owner and a round-trip
cost), persons, and commutes (a date, a trip type, the selected cars and the
selected persons). It computes two things:

- what each participant of a commute pays, fixed when the commute is created;
- for one month, what each passenger owes each driver (the gross table), and
  what remains once reciprocal debts are offset (the net table).

The whole calculator lives in one React component, `src/App.tsx`. The model
keeps its logic and drops React, rendering and the hosted datastore. The
modules follow the parts of that component:

- `Entities` (`entities.dfy`): the `Car`, `Person` and `Commute` records, the
  lookups by id (`find`), and the month key of a date (`substring(0, 7)`).
- `Pricing` (`pricing.dfy`): `calculatePrice`, both its single-car branch and
  its summing loop, proved equal to the reference sum `TotalCost`.
- `Selection` (`selection.dfy`): the toggles of the commute form, and the
  drivers `addCommute` derives from the selected cars.
- `Settlement` (`settlement.dfy`): `calculateSettlements`. It is written as the
  source writes it, filling the nested debt tables in place in nested loops.
  It is proved equal to the recursive definitions `GrossDebts` and `NetDebts`.
  Lemmas then state what those tables contain.
- `Months` (`months.dfy`): `getMonths`, as a strictly descending list of the
  distinct month keys.
- `App` (`app.dfy`): the component's state as a class `CommuteCalculator`. The
  toggles and the date and trip-type setters change only the commute form and
  write nothing to the datastore. The other methods make the in-memory change
  that follows each successful datastore write: `addCommute`, `deletePerson`
  with its guard, and the add and delete operations on cars, persons and
  commutes.

Amounts are Dafny `real` values, which are exact. The contracts state the
intended arithmetic; the source's IEEE-754 rounding is not modelled. A trip
type is kept as a string, as in the source. Only `"roundtrip"` charges a car's
full cost; any other value charges half of it.

Three behaviours of the code are worth stating because they are easy to get
wrong when reading it quickly:

- A commute's drivers can be fewer than its selected cars. The code drops any
  selected car id it cannot resolve to a car. `Selection.Drivers` states both
  facts: the list is never longer than the selection, and it has the same
  length exactly when every selected car resolves.
- `amountPerDriver` divides by the number of driver names, which is zero when
  no driver id resolves to a person. The quotient is then never used, because
  the loop that would add it has no names to visit. The only effect is that
  the passenger's empty row is created. `Settlement.Share` returns 0 in that
  case, so no precondition is needed.
- Netting visits every ordered pair `(a, b)` with `b` in `a`'s row and
  compares the two directions. `Settlement.NetEntries` states the resulting
  table exactly. It never records both directions of a pair
  (`NetOneDirection`). Equal debts record nothing (`NetEqualCancels`).

## Model

| member | source | states |
|---|---|---|
| Entities.Find | src/App.tsx:205 | the lookup of a car (and, at line 297, of a person) yields the first record with the requested id, and nothing exactly when no record has that id |
| Entities.MonthOf | src/App.tsx:286 | the month key is the first seven characters of the date, or the whole date when it is shorter |
| Pricing.CarCharge | src/App.tsx:200 | a car is charged its full round-trip cost on a round trip and half of it on any other trip type |
| Pricing.ChargeOf | src/App.tsx:205-208 | a selected car id that resolves to no car is charged 0; otherwise the car's charge |
| Pricing.CalculatePrice | src/App.tsx:193-212 | with one car, the first selected car's charge divided by the number of persons (0 when it does not resolve); otherwise the sum of all resolvable selected cars' charges divided by the number of persons |
| Pricing.SingleCarBranchAgrees | src/App.tsx:196-211 | the single-car branch gives the same value as the summing branch on a one-element selection, including 0 for an unresolved car |
| Pricing.TotalCostAppend | src/App.tsx:203-210 | the total cost is additive over concatenated selections |
| Pricing.UnknownCarAddsNothing | src/App.tsx:204-209 | inserting an unresolvable car id anywhere in a selection leaves the total unchanged |
| Pricing.TotalCostNonNegative | src/App.tsx:203-210 | with non-negative car costs, the total is never negative |
| Pricing.TwoCarExample | src/App.tsx:193-211 | cars of cost 20 and 10 shared by three persons cost 10 each on a round trip and 5 each one way |
| Selection.Without | src/App.tsx:216 | removing an id drops every occurrence of that id and keeps every other id; it changes nothing when the id is absent and keeps a duplicate-free list duplicate-free |
| Selection.WithoutAppend | src/App.tsx:216 | removing an id distributes over concatenation, so the remaining ids keep their order |
| Selection.Toggle | src/App.tsx:214-226 | after a toggle the id is selected exactly when it was not before, and every other id keeps its membership; an absent id is appended at the end |
| Selection.ToggleKeepsDistinct | src/App.tsx:214-226 | toggling never introduces a duplicate id into a selection |
| Selection.ToggleTwice | src/App.tsx:214-226 | toggling an id twice restores which ids are selected; when the id was absent it restores the exact list |
| Selection.Drivers | src/App.tsx:234-237 | the drivers are owners of selected cars; there are never more drivers than selected cars, and equally many exactly when every selected car resolves |
| Selection.DriversWhenAllResolve | src/App.tsx:234-237 | when every selected car resolves, the i-th driver is the owner of the i-th selected car |
| Selection.DriversAppend | src/App.tsx:234-237 | driver derivation preserves selection order: the drivers of a concatenated selection are the concatenation of the drivers |
| Settlement.MonthCommutes | src/App.tsx:285-288 | the month's commutes are exactly the commutes whose month key equals the requested month |
| Settlement.Get | src/App.tsx:316-317 | a creditor entry of a row reads as its stored amount, and as 0 when the row has no such entry |
| Settlement.Amount | src/App.tsx:316-317 | what one name owes another reads as the stored entry, and as 0 when the debtor has no row or the row has no such entry |
| Settlement.MonthCommutesAppend | src/App.tsx:285-288 | the month filter keeps the original order: filtering a concatenation is concatenating the filtered parts |
| Settlement.Passengers | src/App.tsx:293 | the passengers are exactly the selected persons who are not among the commute's drivers |
| Settlement.ExcludingAppend | src/App.tsx:293 | the passenger filter distributes over concatenation, so the selection order and any repeated id are kept |
| Settlement.Names | src/App.tsx:294 | every driver name belongs to a person whose id is among the drivers, and there are never more names than drivers |
| Settlement.NamesAppend | src/App.tsx:294 | the names of two id lists put together are the names of the first followed by the names of the second, so driver order is kept |
| Settlement.NamesSingle | src/App.tsx:294 | one driver id contributes the name of the first person `find` returns for it, and nothing when no person has that id |
| Settlement.CalculateSettlements | src/App.tsx:284-327 | the gross table that the nested loops fill in place equals the recursive definition over the month's commutes, and the net table is the netting of that gross table |
| Settlement.ChargeCommuteInPlace | src/App.tsx:296-310 | charging one commute's passengers in place, creating a passenger's row when it is missing, gives the recursive definition of that charge |
| Settlement.ChargePassengerInPlace | src/App.tsx:300-309 | charging one passenger in place, after creating the passenger's row when it is missing, gives the recursive definition of charging that passenger |
| Settlement.CreditDriversInPlace | src/App.tsx:304-309 | crediting each driver name in place, starting a missing entry at 0, gives the recursive definition of that credit |
| Settlement.Share | src/App.tsx:302 | with at least one driver name the shares add back up to the passenger's price; with none the share is 0, a value never used |
| Settlement.Netting | src/App.tsx:313-324 | the netting loops, visiting debtors and creditors in any order, build exactly the net table of the gross table |
| Settlement.NetPerson | src/App.tsx:315-323 | one debtor's pass adds that debtor's net row to the net table, or nothing when the row is empty |
| Settlement.CreditDriversKeys | src/App.tsx:304-309 | crediting driver names adds exactly those names as creditors to the row |
| Settlement.CreditDriversAmount | src/App.tsx:304-309 | a driver name that occurs k times among the driver names is credited k shares |
| Settlement.ChargePassengersRows | src/App.tsx:296-310 | charging passengers adds rows only for resolved passenger names, adds creditors only from the driver names, and leaves every other row unchanged |
| Settlement.ChargePassengersAmount | src/App.tsx:296-310 | each passenger resolving to a name adds one share per occurrence of the driver name to that name's debt |
| Settlement.ChargeCommuteAmount | src/App.tsx:293-310 | one commute adds to every resolved passenger's debt towards every resolved driver name the price per person divided by the number of driver names, once per occurrence, and adds nothing else |
| Settlement.ChargeCommuteRows | src/App.tsx:293-310 | one commute creates rows only for its resolved passengers, entries only towards its resolved driver names, and leaves every other row unchanged |
| Settlement.GrossDebtsAreOwed | src/App.tsx:292-311 | every gross debt is the sum, over the commutes, of what each commute adds |
| Settlement.OwedAppend | src/App.tsx:292-311 | that sum is additive over concatenated commute lists |
| Settlement.OwedPermutation | src/App.tsx:292-311 | that sum is the same for any two commute lists that are permutations of each other |
| Settlement.GrossDebtsOrderIrrelevant | src/App.tsx:292-311 | any reordering of the commutes (any two lists with the same multiset of commutes) gives the same gross amounts |
| Settlement.OtherMonthIgnored | src/App.tsx:285-288 | a commute of another month changes neither the month's commutes nor the gross table, wherever it stands |
| Settlement.EmptyMonth | src/App.tsx:284-327 | a month with no commutes yields an empty gross table and an empty net table |
| Settlement.NetEntries | src/App.tsx:313-324 | a net entry from a to b exists exactly when the gross entry from a to b exists and exceeds the reverse debt, a missing debt counting as 0; it then equals the positive difference |
| Settlement.NetOneDirection | src/App.tsx:313-324 | no pair has net entries in both directions |
| Settlement.NetEqualCancels | src/App.tsx:316-321 | equal reciprocal debts leave no net entry in either direction |
| Settlement.NettingExample | src/App.tsx:313-324 | with A owing B 30 and B owing A 10, the net table holds exactly A owes B 20 |
| Months.Before | src/App.tsx:331 | the order `sort()` uses: a string never comes before itself, a proper prefix comes first, and a smaller first character comes first |
| Months.BeforeTotal | src/App.tsx:331 | the string order used for sorting orders any two different strings one way or the other |
| Months.DescendingDistinct | src/App.tsx:330 | a strictly descending list holds no month key twice |
| Months.Insert | src/App.tsx:330-331 | adding a key to a strictly descending list keeps it strictly descending and adds exactly that key |
| Months.Collect | src/App.tsx:330 | collecting the month keys into a strictly descending list keeps it strictly descending and adds exactly the commutes' month keys |
| Months.GetMonths | src/App.tsx:329-332 | the listing is strictly descending and holds exactly the month keys of the commutes |
| Months.DescendingUnique | src/App.tsx:330-331 | two strictly descending lists with the same keys are equal, so the listing is the one that sorting the key set and reversing yields |
| Months.SingleMonthExample | src/App.tsx:329-332 | a single commute dated 2024-03-15 lists exactly the month 2024-03 |
| App.OwnsACar | src/App.tsx:179 | a person owns a car exactly when some car's owner id is that person's id |
| Entities.RemoveId | src/App.tsx:187 | removing by id keeps exactly the records with another id, and changes nothing when no record has that id |
| Entities.RemoveIdAppend | src/App.tsx:187 | removal by id distributes over concatenation, so the remaining records keep their order and repeats |
| App.DeletePersonKeepsOwners | src/App.tsx:178-187 | when every car's owner is a known person, deleting a person who owns no car keeps it so |
| App.WorkedExample | src/App.tsx:228-311 | cars of cost 20 (Alice) and 10 (Bob) on a round trip with Alice, Bob and Carol: drivers Alice and Bob, 10 per person, and Carol owes each driver 5 |
| App.CommuteCalculator.constructor | src/App.tsx:29-47 | the calculator starts with no cars, persons or commutes, and a round-trip form on today's date with nothing selected |
| App.CommuteCalculator.ToggleCarSelection | src/App.tsx:214-219 | only the car selection changes, by a toggle, and it stays duplicate-free |
| App.CommuteCalculator.TogglePersonSelection | src/App.tsx:221-226 | only the person selection changes, by a toggle, and it stays duplicate-free |
| App.CommuteCalculator.SetDate | src/App.tsx:597 | only the form's date changes, to the entered value, and nothing else does |
| App.CommuteCalculator.SetTripType | src/App.tsx:605 | only the form's trip type changes, to the chosen value, and nothing else does |
| App.CommuteCalculator.AddCommute | src/App.tsx:228-272 | with no car or no person selected nothing changes; otherwise a commute with the derived drivers and the price computed now, whose car and person selections hold no id twice, is put first and the form is reset |
| App.CommuteCalculator.DeleteCommute | src/App.tsx:274-282 | exactly the commutes with that id are removed |
| App.CommuteCalculator.DeletePerson | src/App.tsx:178-191 | a person who owns a car is not deleted; otherwise exactly the persons with that id are removed; every car's owner stays a known person |
| App.CommuteCalculator.AddPerson | src/App.tsx:161-176 | a person with an empty name is not added; otherwise the stored person is appended |
| App.CommuteCalculator.AddCar | src/App.tsx:101-149 | a car with an empty name changes nothing; otherwise a new owner, if any, is appended to the persons, and the car is appended to the cars exactly when the datastore stored it |
| App.CommuteCalculator.DeleteCar | src/App.tsx:151-159 | exactly the cars with that id are removed |

## Left out

- The datastore: `loadData` and the insert and delete calls are not modelled. Ids the datastore assigns, and the person rows it returns to `addPerson` and `addCar`, are parameters. `AddCommute` stores the commute it builds itself, whereas the source stores the row the datastore returns (`transformCommute(data)` at src/App.tsx:261); the model assumes that row equals the inserted values, `price_per_person` included. Each method models the state change after a successful write. A write that fails before any state change only shows an alert, which is the same as not calling the method. The one failure that leaves a partial change, a new owner stored and the car not, is modelled by `AddCar`'s `carStored` parameter.
- Concurrency: each handler writes back state it captured before its `await` (`persons.filter` at src/App.tsx:187, `[..., ...commutes]` at 261, and lines 119, 144, 155, 171 and 278), so two handlers that overlap can lose one of their in-memory updates. The class methods are atomic and do not capture this.
- `src/supabase.ts` and `vite.config.ts` are not part of this model. They only read environment variables and build a client or the build configuration.
- The row transforms `transformCar` and `transformCommute` are left out. They only parse datastore strings with `parseFloat`; the model takes amounts as exact reals.
- `downloadMonthlyReport` and all rendering are left out. They cover CSV text with two-decimal formatting, the browser download, localized month names, tabs and alerts.
- Floating point: amounts are exact reals, so IEEE-754 rounding, `Infinity` and `NaN` are not modelled.
- Pricing.CalculatePrice: requires at least one person. Both call sites (src/App.tsx:239 and 657) pass the length of a person selection already checked to be non-empty (lines 229 and 653). With zero persons the source would return `Infinity` or `NaN`, which the model does not represent.
- App.CommuteCalculator.AddCar: the form checks on raw input strings are not modelled. These are an empty cost field, a blank new-owner name after trimming, and a missing owner choice. The new-owner path is modelled only as the person row the datastore returns; a failed insert of that person changes nothing and so is not calling the method.
- App.CommuteCalculator.AddPerson: only the empty-name check is modelled; the name is the form string.
- Months.Before: compares Unicode scalar values, while JavaScript's default sort compares UTF-16 code units. The two orders differ only for characters outside the Basic Multilingual Plane, which ISO dates never contain.
- Entities.MonthOf: counts Unicode scalar values, while `substring(0, 7)` counts UTF-16 code units. The two agree on every string whose first seven characters lie in the Basic Multilingual Plane, which includes every ISO date.
- JavaScript objects used as dictionaries behave specially for keys such as `__proto__`. The model's maps treat every name as an ordinary key.
- The order in which `Object.keys` lists the entries of the two tables is not modelled; the tables are finite maps. The netting result does not depend on that order (`Settlement.Netting` is proved for any visiting order).

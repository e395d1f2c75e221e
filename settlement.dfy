/**
 * The monthly settlement: which passenger owes which driver how much for the
 * commutes of one month (the gross table), and what remains once reciprocal
 * debts are offset (the net table). Both tables are keyed by display name:
 * debtor name, then creditor name.
 */
module Settlement {
  import opened Wrappers
  import opened Entities

  /** One debtor's debts, by creditor name. */
  type Row = map<string, real>

  /** Debts by debtor name, then creditor name. */
  type Debts = map<string, Row>

  /** A row entry, with a missing entry read as 0 (the source's `|| 0`). */
  function Get(row: Row, name: string): (r: real)
    ensures name in row ==> r == row[name]
    ensures name !in row ==> r == 0.0
  {
    if name in row then row[name] else 0.0
  }

  /** What `from` owes `to` in a table, with a missing entry read as 0. */
  function Amount(debts: Debts, from: string, to: string): (r: real)
    ensures from in debts && to in debts[from] ==> r == debts[from][to]
    ensures (from !in debts || to !in debts[from]) ==> r == 0.0
  {
    if from in debts then Get(debts[from], to) else 0.0
  }

  /** The commutes whose date begins with the month key, in their original order. */
  function MonthCommutes(commutes: seq<Commute>, month: string): (r: seq<Commute>)
    ensures forall c :: c in r <==> c in commutes && MonthOf(c.date) == month
    ensures |r| <= |commutes|
  {
    if commutes == [] then []
    else
      var rest := MonthCommutes(commutes[1..], month);
      assert forall c :: c in commutes <==> c == commutes[0] || c in commutes[1..];
      if MonthOf(commutes[0].date) == month then [commutes[0]] + rest else rest
  }

  /** The month filter distributes over the concatenation of two commute lists. */
  lemma {:induction false} MonthCommutesAppend(a: seq<Commute>, b: seq<Commute>, month: string)
    ensures MonthCommutes(a + b, month) == MonthCommutes(a, month) + MonthCommutes(b, month)
    decreases |a|
  {
    if a == [] {
      assert a + b == b;
    } else {
      assert (a + b)[0] == a[0];
      assert (a + b)[1..] == a[1..] + b;
      MonthCommutesAppend(a[1..], b, month);
    }
  }

  /** `ids.filter(id => !drivers.includes(id))`. */
  function Excluding(ids: seq<int>, drivers: seq<int>): (r: seq<int>)
    ensures forall id :: id in r <==> id in ids && id !in drivers
    ensures |r| <= |ids|
  {
    if ids == [] then []
    else
      var rest := Excluding(ids[1..], drivers);
      assert forall id :: id in ids <==> id == ids[0] || id in ids[1..];
      if ids[0] in drivers then rest else [ids[0]] + rest
  }

  /** The filter distributes over concatenation, so order and repeats are kept. */
  lemma {:induction false} ExcludingAppend(a: seq<int>, b: seq<int>, drivers: seq<int>)
    ensures Excluding(a + b, drivers) == Excluding(a, drivers) + Excluding(b, drivers)
    decreases |a|
  {
    if a == [] {
      assert a + b == b;
    } else {
      assert (a + b)[0] == a[0];
      assert (a + b)[1..] == a[1..] + b;
      ExcludingAppend(a[1..], b, drivers);
    }
  }

  /** The passengers of a commute: the selected persons who are not among its drivers. */
  function Passengers(c: Commute): (r: seq<int>)
    ensures forall id :: id in r <==> id in c.selectedPersons && id !in c.drivers
  {
    Excluding(c.selectedPersons, c.drivers)
  }

  /**
   * The names of the ids that resolve to a person, in order; ids that resolve
   * to no person are dropped (`ids.map(id => persons.find(...)?.name).filter(...)`).
   */
  function Names(persons: seq<Person>, ids: seq<int>): (r: seq<string>)
    ensures |r| <= |ids|
    ensures forall n :: n in r ==> exists p :: p in persons && p.name == n && p.id in ids
    decreases |ids|
  {
    if ids == [] then []
    else
      var prefix := ids[..|ids| - 1];
      var r := Names(persons, prefix);
      assert forall id :: id in prefix ==> id in ids;
      match FindPerson(persons, ids[|ids| - 1])
      case None => r
      case Some(p) => r + [p.name]
  }

  /** The names of two id lists put together are the names of each, in order. */
  lemma {:induction false} NamesAppend(persons: seq<Person>, a: seq<int>, b: seq<int>)
    ensures Names(persons, a + b) == Names(persons, a) + Names(persons, b)
    decreases |b|
  {
    if b == [] {
      assert a + b == a;
    } else {
      var front := b[..|b| - 1];
      assert (a + b)[..|a + b| - 1] == a + front;
      assert (a + b)[|a + b| - 1] == b[|b| - 1];
      NamesAppend(persons, a, front);
    }
  }

  /** One id contributes the name of the first person with that id, or nothing when there is none. */
  lemma NamesSingle(persons: seq<Person>, id: int)
    ensures Names(persons, [id]) == if FindPerson(persons, id).Some? then [FindPerson(persons, id).value.name] else []
  {
    assert [id][..0] == [];
  }

  /**
   * The amount each driver receives from each passenger: the passenger's
   * price split equally over the driver names. The source divides by zero
   * when there is no driver name, but then no driver receives anything, so
   * the value is never used.
   */
  function Share(price: real, drivers: nat): (r: real)
    ensures drivers == 0 ==> r == 0.0
    ensures drivers > 0 ==> r * drivers as real == price
  {
    if drivers == 0 then 0.0 else price / drivers as real
  }

  /** `k` copies of `x` added up: `k * x`, written as repeated addition to keep the proofs linear. */
  function Times(k: nat, x: real): (r: real)
    ensures r == k as real * x
  {
    if k == 0 then 0.0 else Times(k - 1, x) + x
  }

  /** One passenger's row after every driver name has been credited `amount`, in order. */
  function CreditDrivers(row: Row, names: seq<string>, amount: real): Row
    decreases |names|
  {
    if names == [] then row
    else
      var r := CreditDrivers(row, names[..|names| - 1], amount);
      var d := names[|names| - 1];
      r[d := Get(r, d) + amount]
  }

  /** One resolved passenger charged for one commute: their row is created when missing. */
  function ChargePassenger(debts: Debts, name: string, driverNames: seq<string>, amount: real): Debts {
    var row := if name in debts then debts[name] else map[];
    debts[name := CreditDrivers(row, driverNames, amount)]
  }

  /** The passengers of one commute charged in order; a passenger id that resolves to no person is skipped. */
  function ChargePassengers(debts: Debts, persons: seq<Person>, passengers: seq<int>,
                            driverNames: seq<string>, amount: real): Debts
    decreases |passengers|
  {
    if passengers == [] then debts
    else
      var d := ChargePassengers(debts, persons, passengers[..|passengers| - 1], driverNames, amount);
      match FindPerson(persons, passengers[|passengers| - 1])
      case None => d
      case Some(p) => ChargePassenger(d, p.name, driverNames, amount)
  }

  /** The gross table after one more commute. */
  function ChargeCommute(debts: Debts, persons: seq<Person>, c: Commute): Debts {
    var driverNames := Names(persons, c.drivers);
    ChargePassengers(debts, persons, Passengers(c), driverNames, Share(c.pricePerPerson, |driverNames|))
  }

  /** The gross table of a list of commutes, charged in order from an empty table. */
  function GrossDebts(persons: seq<Person>, commutes: seq<Commute>): Debts
    decreases |commutes|
  {
    if commutes == [] then map[]
    else ChargeCommute(GrossDebts(persons, commutes[..|commutes| - 1]), persons, commutes[|commutes| - 1])
  }

  /**
   * What one commute adds to the debt of `from` towards `to`: one share per
   * passenger resolving to the name `from`, times the number of times `to`
   * occurs among the driver names.
   */
  function CommuteOwed(persons: seq<Person>, c: Commute, from: string, to: string): real {
    var driverNames := Names(persons, c.drivers);
    Times(multiset(Names(persons, Passengers(c)))[from],
          Times(multiset(driverNames)[to], Share(c.pricePerPerson, |driverNames|)))
  }

  /** The reference definition of a gross debt: the sum of what each commute adds. */
  function Owed(persons: seq<Person>, commutes: seq<Commute>, from: string, to: string): real
    decreases |commutes|
  {
    if commutes == [] then 0.0
    else Owed(persons, commutes[..|commutes| - 1], from, to) + CommuteOwed(persons, commutes[|commutes| - 1], from, to)
  }

  /** The net entry for the pair (p, q) read off a gross table: the positive difference, or nothing. */
  function NetRow(debts: Debts, p: string): Row
    requires p in debts
  {
    map q | q in debts[p] && Amount(debts, p, q) > Amount(debts, q, p) :: Amount(debts, p, q) - Amount(debts, q, p)
  }

  /** The net table of a gross table; a debtor appears only with at least one entry. */
  function NetDebts(debts: Debts): Debts {
    map p | p in debts && NetRow(debts, p) != map[] :: NetRow(debts, p)
  }

  // ---------------------------------------------------------------------------
  // The computation as the source performs it
  // ---------------------------------------------------------------------------

  /**
   * `calculateSettlements`: the gross table of the month's commutes, filled in
   * place commute by commute, and its net table.
   */
  method CalculateSettlements(commutes: seq<Commute>, persons: seq<Person>, month: string)
    returns (debts: Debts, netDebts: Debts)
    ensures debts == GrossDebts(persons, MonthCommutes(commutes, month))
    ensures netDebts == NetDebts(debts)
  {
    var monthCommutes := MonthCommutes(commutes, month);
    debts := map[];
    var k := 0;
    while k < |monthCommutes|
      invariant 0 <= k <= |monthCommutes|
      invariant debts == GrossDebts(persons, monthCommutes[..k])
    {
      assert monthCommutes[..k + 1][..k] == monthCommutes[..k];
      debts := ChargeCommuteInPlace(debts, persons, monthCommutes[k]);
      k := k + 1;
    }
    assert monthCommutes[..k] == monthCommutes;
    netDebts := Netting(debts);
  }

  /** The body of the outer `forEach`: every passenger of one commute charged, passenger by passenger. */
  method ChargeCommuteInPlace(debts: Debts, persons: seq<Person>, commute: Commute) returns (r: Debts)
    ensures r == ChargeCommute(debts, persons, commute)
  {
    var passengers := Passengers(commute);
    var driverNames := Names(persons, commute.drivers);
    var amountPerDriver := Share(commute.pricePerPerson, |driverNames|);
    r := debts;
    var i := 0;
    while i < |passengers|
      invariant 0 <= i <= |passengers|
      invariant r == ChargePassengers(debts, persons, passengers[..i], driverNames, amountPerDriver)
    {
      ChargePassengersStep(debts, persons, passengers, i, driverNames, amountPerDriver);
      var passenger := FindPerson(persons, passengers[i]);
      if passenger.Some? {
        r := ChargePassengerInPlace(r, passenger.value.name, driverNames, amountPerDriver);
      }
      i := i + 1;
    }
    assert passengers[..i] == passengers;
  }

  lemma ChargePassengersStep(debts: Debts, persons: seq<Person>, passengers: seq<int>, i: nat,
                             driverNames: seq<string>, amount: real)
    requires i < |passengers|
    ensures ChargePassengers(debts, persons, passengers[..i + 1], driverNames, amount) ==
            var d := ChargePassengers(debts, persons, passengers[..i], driverNames, amount);
            match FindPerson(persons, passengers[i])
            case None => d
            case Some(p) => ChargePassenger(d, p.name, driverNames, amount)
  {
    assert passengers[..i + 1][..i] == passengers[..i];
  }

  /** The body of the passenger `forEach`: the passenger's row, created when missing, credited for every driver name. */
  method ChargePassengerInPlace(debts: Debts, name: string, driverNames: seq<string>, amount: real) returns (r: Debts)
    ensures r == ChargePassenger(debts, name, driverNames, amount)
  {
    r := debts;
    // `if (!debts[passenger.name]) debts[passenger.name] = {}`
    if name !in r {
      r := r[name := map[]];
    }
    r := CreditDriversInPlace(r, name, driverNames, amount);
  }

  /** The innermost `forEach`: one passenger's row credited `amount` for every driver name. */
  method CreditDriversInPlace(debts: Debts, name: string, driverNames: seq<string>, amount: real) returns (r: Debts)
    requires name in debts
    ensures r == debts[name := CreditDrivers(debts[name], driverNames, amount)]
  {
    r := debts;
    var j := 0;
    while j < |driverNames|
      invariant 0 <= j <= |driverNames|
      invariant r == debts[name := CreditDrivers(debts[name], driverNames[..j], amount)]
    {
      var driverName := driverNames[j];
      ghost var credited := CreditDrivers(debts[name], driverNames[..j], amount);
      CreditDriversStep(debts[name], driverNames, j, amount);
      var row := r[name];
      // `if (!debts[p][d]) debts[p][d] = 0`: a present entry is kept (a 0 stays 0)
      if driverName !in row {
        row := row[driverName := 0.0];
      }
      row := row[driverName := row[driverName] + amount];
      assert row == credited[driverName := Get(credited, driverName) + amount];
      r := r[name := row];
      j := j + 1;
    }
    assert driverNames[..j] == driverNames;
  }

  /** The net rows of the debtors in `done`. */
  function NetOf(debts: Debts, done: set<string>): Debts {
    map p | p in done && p in debts && NetRow(debts, p) != map[] :: NetRow(debts, p)
  }

  /** The net entries of one debtor for the creditors in `done`. */
  function PartialNetRow(debts: Debts, p: string, done: set<string>): Row
    requires p in debts
  {
    map q | q in done && q in debts[p] && Amount(debts, p, q) > Amount(debts, q, p) :: Amount(debts, p, q) - Amount(debts, q, p)
  }

  /**
   * The netting pass: for every debtor, and every creditor in its row, record
   * the difference of the two directions when it is positive.
   */
  method Netting(debts: Debts) returns (netDebts: Debts)
    ensures netDebts == NetDebts(debts)
  {
    netDebts := map[];
    var todo := debts.Keys;
    ghost var done: set<string> := {};
    while todo != {}
      invariant todo <= debts.Keys && done == debts.Keys - todo
      invariant netDebts == NetOf(debts, done)
      decreases |todo|
    {
      var person1 :| person1 in todo;
      NetOfStep(debts, done, person1);
      netDebts := NetPerson(debts, person1, netDebts);
      todo := todo - {person1};
      done := done + {person1};
    }
    assert NetOf(debts, done) == NetDebts(debts);
  }

  /** The body of the outer `forEach` of the netting pass: one debtor's net entries added to the net table. */
  method NetPerson(debts: Debts, person1: string, net: Debts) returns (r: Debts)
    requires person1 in debts && person1 !in net
    ensures r == WithRow(net, person1, NetRow(debts, person1))
  {
    r := net;
    var inner := debts[person1].Keys;
    ghost var done: set<string> := {};
    while inner != {}
      invariant inner <= debts[person1].Keys && done == debts[person1].Keys - inner
      invariant r == WithRow(net, person1, PartialNetRow(debts, person1, done))
      decreases |inner|
    {
      var person2 :| person2 in inner;
      NetPersonStep(debts, net, person1, done, person2);
      var debt1to2 := Amount(debts, person1, person2);
      var debt2to1 := Amount(debts, person2, person1);
      if debt1to2 > debt2to1 {
        // `if (!netDebts[person1]) netDebts[person1] = {}`
        var row := if person1 in r then r[person1] else map[];
        r := r[person1 := row[person2 := debt1to2 - debt2to1]];
      }
      inner := inner - {person2};
      done := done + {person2};
    }
    PartialNetRowComplete(debts, person1, done);
  }

  /** The net table with a debtor's row added, unless that row is empty. */
  function WithRow(net: Debts, p: string, row: Row): Debts {
    if row == map[] then net else net[p := row]
  }

  /** One creditor's step of a debtor's netting pass extends the partial net row by that creditor's entry. */
  lemma NetPersonStep(debts: Debts, net: Debts, p: string, done: set<string>, q: string)
    requires p in debts && p !in net && q in debts[p] && q !in done
    ensures var r := WithRow(net, p, PartialNetRow(debts, p, done));
            var row := if p in r then r[p] else map[];
            WithRow(net, p, PartialNetRow(debts, p, done + {q})) ==
              if Amount(debts, p, q) > Amount(debts, q, p)
              then r[p := row[q := Amount(debts, p, q) - Amount(debts, q, p)]]
              else r
  {
    PartialNetRowStep(debts, p, done, q);
    WithRowUpdate(net, p, PartialNetRow(debts, p, done), q, Amount(debts, p, q) - Amount(debts, q, p));
  }

  lemma WithRowUpdate(net: Debts, p: string, row: Row, q: string, v: real)
    requires p !in net
    ensures (if p in WithRow(net, p, row) then WithRow(net, p, row)[p] else map[]) == row
    ensures WithRow(net, p, row)[p := row[q := v]] == WithRow(net, p, row[q := v])
  {
    assert q in row[q := v];
  }

  lemma PartialNetRowComplete(debts: Debts, p: string, done: set<string>)
    requires p in debts && done == debts[p].Keys
    ensures PartialNetRow(debts, p, done) == NetRow(debts, p)
  {
  }

  lemma CreditDriversStep(row: Row, names: seq<string>, j: nat, amount: real)
    requires j < |names|
    ensures CreditDrivers(row, names[..j + 1], amount) ==
              var r := CreditDrivers(row, names[..j], amount); r[names[j] := Get(r, names[j]) + amount]
  {
    assert names[..j + 1][..j] == names[..j];
  }

  lemma NetOfStep(debts: Debts, done: set<string>, p: string)
    requires p in debts && p !in done
    ensures p !in NetOf(debts, done)
    ensures NetOf(debts, done + {p}) == WithRow(NetOf(debts, done), p, NetRow(debts, p))
  {
  }

  lemma PartialNetRowStep(debts: Debts, p: string, done: set<string>, q: string)
    requires p in debts && q in debts[p] && q !in done
    ensures q !in PartialNetRow(debts, p, done)
    ensures PartialNetRow(debts, p, done + {q}) ==
              if Amount(debts, p, q) > Amount(debts, q, p)
              then PartialNetRow(debts, p, done)[q := Amount(debts, p, q) - Amount(debts, q, p)]
              else PartialNetRow(debts, p, done)
  {
  }

  // ---------------------------------------------------------------------------
  // Properties of the gross table
  // ---------------------------------------------------------------------------

  /** Crediting driver names adds exactly their names as creditors, and keeps every other entry. */
  lemma {:induction false} CreditDriversKeys(row: Row, names: seq<string>, amount: real)
    ensures forall n :: n in CreditDrivers(row, names, amount) <==> n in row || n in names
    decreases |names|
  {
    if names != [] {
      var prefix := names[..|names| - 1];
      CreditDriversKeys(row, prefix, amount);
      assert names == prefix + [names[|names| - 1]];
    }
  }

  /** A driver name that occurs k times among the driver names is credited k times. */
  lemma {:induction false} CreditDriversAmount(row: Row, names: seq<string>, amount: real, d: string)
    ensures Get(CreditDrivers(row, names, amount), d) == Get(row, d) + Times(multiset(names)[d], amount)
    decreases |names|
  {
    if names != [] {
      var prefix := names[..|names| - 1];
      var last := names[|names| - 1];
      CreditDriversAmount(row, prefix, amount, d);
      assert names == prefix + [last];
      var k := multiset(prefix)[d];
      if last == d {
        assert multiset(names)[d] == k + 1;
      } else {
        assert multiset(names)[d] == k;
      }
    }
  }

  /**
   * The shape a table has after the named passengers were charged towards the
   * driver names: the debtors are the old ones plus the passenger names; a
   * debtor that is no passenger keeps its row; a passenger's row gains exactly
   * the driver names as creditors.
   */
  ghost predicate ChargedRows(debts: Debts, r: Debts, passengerNames: seq<string>, driverNames: seq<string>) {
    && (forall p :: p in r <==> p in debts || p in passengerNames)
    && (forall p :: p in debts && p !in passengerNames ==> r[p] == debts[p])
    && (forall p, q :: p in passengerNames ==>
          (q in r[p] <==> (p in debts && q in debts[p]) || q in driverNames))
  }

  /** Charging the passengers of a commute creates and extends only the rows of the resolved passenger names. */
  lemma {:induction false} ChargePassengersRows(debts: Debts, persons: seq<Person>, passengers: seq<int>,
                                                driverNames: seq<string>, amount: real)
    ensures ChargedRows(debts, ChargePassengers(debts, persons, passengers, driverNames, amount),
                        Names(persons, passengers), driverNames)
    decreases |passengers|
  {
    if passengers != [] {
      var prefix := passengers[..|passengers| - 1];
      ChargePassengersRows(debts, persons, prefix, driverNames, amount);
      var d := ChargePassengers(debts, persons, prefix, driverNames, amount);
      var before := Names(persons, prefix);
      match FindPerson(persons, passengers[|passengers| - 1])
      case None =>
      case Some(p) =>
        var row := if p.name in d then d[p.name] else map[];
        var r := d[p.name := CreditDrivers(row, driverNames, amount)];
        var after := before + [p.name];
        assert Names(persons, passengers) == after;
        CreditDriversKeys(row, driverNames, amount);
        ChargeOneMoreRows(debts, d, before, p.name, driverNames, amount);
    }
  }

  lemma ChargeOneMoreRows(debts: Debts, d: Debts, before: seq<string>, name: string,
                          driverNames: seq<string>, amount: real)
    requires ChargedRows(debts, d, before, driverNames)
    ensures ChargedRows(debts, ChargePassenger(d, name, driverNames, amount), before + [name], driverNames)
  {
    var row := if name in d then d[name] else map[];
    CreditDriversKeys(row, driverNames, amount);
    var r := ChargePassenger(d, name, driverNames, amount);
    forall p, q | p in before + [name] ensures q in r[p] <==> (p in debts && q in debts[p]) || q in driverNames {
      if p != name {
        assert p in before;
      }
    }
  }

  /**
   * Charging the passengers of a commute adds to what `from` owes `to` one
   * `amount` per passenger named `from` and per occurrence of `to` among the
   * driver names.
   */
  lemma {:induction false} ChargePassengersAmount(debts: Debts, persons: seq<Person>, passengers: seq<int>,
                                                  driverNames: seq<string>, amount: real, from: string, to: string)
    ensures Amount(ChargePassengers(debts, persons, passengers, driverNames, amount), from, to) ==
            Amount(debts, from, to) +
            Times(multiset(Names(persons, passengers))[from], Times(multiset(driverNames)[to], amount))
    decreases |passengers|
  {
    if passengers != [] {
      var prefix := passengers[..|passengers| - 1];
      ChargePassengersAmount(debts, persons, prefix, driverNames, amount, from, to);
      var d := ChargePassengers(debts, persons, prefix, driverNames, amount);
      var k := multiset(Names(persons, prefix))[from];
      var x := Times(multiset(driverNames)[to], amount);
      match FindPerson(persons, passengers[|passengers| - 1])
      case None =>
      case Some(p) =>
        assert Names(persons, passengers) == Names(persons, prefix) + [p.name];
        var row := if p.name in d then d[p.name] else map[];
        CreditDriversAmount(row, driverNames, amount, to);
        if p.name == from {
          assert multiset(Names(persons, passengers))[from] == k + 1;
        } else {
          assert multiset(Names(persons, passengers))[from] == k;
        }
    }
  }

  /**
   * One commute of the month: every resolved passenger's debt to every
   * resolved driver name grows by the passenger's price split over the driver
   * names, once per occurrence of the name.
   */
  lemma ChargeCommuteAmount(debts: Debts, persons: seq<Person>, c: Commute, from: string, to: string)
    ensures Amount(ChargeCommute(debts, persons, c), from, to) == Amount(debts, from, to) + CommuteOwed(persons, c, from, to)
  {
    var driverNames := Names(persons, c.drivers);
    ChargePassengersAmount(debts, persons, Passengers(c), driverNames, Share(c.pricePerPerson, |driverNames|), from, to);
  }

  /**
   * One commute of the month creates rows only for its resolved passengers,
   * entries only towards its resolved driver names, and leaves every other
   * row as it was.
   */
  lemma ChargeCommuteRows(debts: Debts, persons: seq<Person>, c: Commute)
    ensures ChargedRows(debts, ChargeCommute(debts, persons, c), Names(persons, Passengers(c)), Names(persons, c.drivers))
  {
    var driverNames := Names(persons, c.drivers);
    ChargePassengersRows(debts, persons, Passengers(c), driverNames, Share(c.pricePerPerson, |driverNames|));
  }

  /** Every gross debt is the sum, over the commutes, of what each adds. */
  lemma {:induction false} GrossDebtsAreOwed(persons: seq<Person>, commutes: seq<Commute>, from: string, to: string)
    ensures Amount(GrossDebts(persons, commutes), from, to) == Owed(persons, commutes, from, to)
    decreases |commutes|
  {
    if commutes != [] {
      var prefix := commutes[..|commutes| - 1];
      GrossDebtsAreOwed(persons, prefix, from, to);
      ChargeCommuteAmount(GrossDebts(persons, prefix), persons, commutes[|commutes| - 1], from, to);
    }
  }

  /** The reference sum is additive over the concatenation of two commute lists. */
  lemma {:induction false} OwedAppend(persons: seq<Person>, a: seq<Commute>, b: seq<Commute>, from: string, to: string)
    ensures Owed(persons, a + b, from, to) == Owed(persons, a, from, to) + Owed(persons, b, from, to)
    decreases |b|
  {
    if b == [] {
      assert a + b == a;
    } else {
      var b' := b[..|b| - 1];
      assert (a + b)[..|a + b| - 1] == a + b';
      assert (a + b)[|a + b| - 1] == b[|b| - 1];
      OwedAppend(persons, a, b', from, to);
    }
  }

  /** Taking one occurrence of `e` out of both sides keeps two lists permutations of each other. */
  lemma CancelLast(front: seq<Commute>, e: Commute, bl: seq<Commute>, br: seq<Commute>)
    requires multiset(front + [e]) == multiset(bl + [e] + br)
    ensures multiset(front) == multiset(bl + br)
  {
    assert multiset(front + [e]) == multiset(front) + multiset{e};
    assert multiset(bl + [e] + br) == multiset(bl) + multiset{e} + multiset(br);
    assert multiset(bl + br) == multiset(bl) + multiset(br);
    var left, right := multiset(front), multiset(bl + br);
    assert left + multiset{e} == right + multiset{e};
    assert left == (left + multiset{e}) - multiset{e};
    assert right == (right + multiset{e}) - multiset{e};
  }

  /** The reference sum does not depend on the order of the commutes. */
  lemma {:induction false} OwedPermutation(persons: seq<Person>, a: seq<Commute>, b: seq<Commute>, from: string, to: string)
    requires multiset(a) == multiset(b)
    ensures Owed(persons, a, from, to) == Owed(persons, b, from, to)
    decreases |a|
  {
    if a == [] {
      assert |b| == |multiset(b)| == 0;
    } else {
      var e := a[|a| - 1];
      var front := a[..|a| - 1];
      assert a == front + [e];
      assert e in multiset(b);
      var i :| 0 <= i < |b| && b[i] == e;
      var bl, br := b[..i], b[i + 1..];
      assert b == bl + [e] + br;
      CancelLast(front, e, bl, br);
      OwedPermutation(persons, front, bl + br, from, to);
      OwedAppend(persons, bl, br, from, to);
      OwedAppend(persons, bl + [e], br, from, to);
      OwedAppend(persons, bl, [e], from, to);
      assert [e][..0] == [];
    }
  }

  /** The amounts of the gross table do not depend on the order in which commutes are charged. */
  lemma GrossDebtsOrderIrrelevant(persons: seq<Person>, a: seq<Commute>, b: seq<Commute>, from: string, to: string)
    requires multiset(a) == multiset(b)
    ensures Amount(GrossDebts(persons, a), from, to) == Amount(GrossDebts(persons, b), from, to)
  {
    GrossDebtsAreOwed(persons, a, from, to);
    GrossDebtsAreOwed(persons, b, from, to);
    OwedPermutation(persons, a, b, from, to);
  }

  /** A commute of another month changes neither table, wherever it stands in the list. */
  lemma OtherMonthIgnored(persons: seq<Person>, a: seq<Commute>, c: Commute, b: seq<Commute>, month: string)
    requires MonthOf(c.date) != month
    ensures MonthCommutes(a + [c] + b, month) == MonthCommutes(a + b, month)
    ensures GrossDebts(persons, MonthCommutes(a + [c] + b, month)) == GrossDebts(persons, MonthCommutes(a + b, month))
  {
    assert MonthCommutes([c], month) == [] by {
      assert [c][1..] == [];
    }
    MonthCommutesAppend(a, [c], month);
    assert MonthCommutes(a + [c], month) == MonthCommutes(a, month);
    MonthCommutesAppend(a + [c], b, month);
    MonthCommutesAppend(a, b, month);
  }

  /** A month without commutes yields two empty tables. */
  lemma EmptyMonth(persons: seq<Person>, commutes: seq<Commute>, month: string)
    requires forall c :: c in commutes ==> MonthOf(c.date) != month
    ensures GrossDebts(persons, MonthCommutes(commutes, month)) == map[]
    ensures NetDebts(GrossDebts(persons, MonthCommutes(commutes, month))) == map[]
  {
    assert MonthCommutes(commutes, month) == [];
  }

  // ---------------------------------------------------------------------------
  // Properties of the net table
  // ---------------------------------------------------------------------------

  /**
   * `netDebts[a][b]` exists exactly when `debts[a][b]` exists and exceeds the
   * reverse debt (a missing entry counting as 0), and then it is the difference.
   */
  lemma NetEntries(debts: Debts, p: string, q: string)
    ensures var net := NetDebts(debts);
            (p in net && q in net[p]) <==> (p in debts && q in debts[p] && Amount(debts, p, q) > Amount(debts, q, p))
    ensures var net := NetDebts(debts);
            p in net && q in net[p] ==> net[p][q] == Amount(debts, p, q) - Amount(debts, q, p) > 0.0
  {
    if p in debts && q in debts[p] && Amount(debts, p, q) > Amount(debts, q, p) {
      assert q in NetRow(debts, p);
    }
  }

  /** No pair has net entries in both directions. */
  lemma NetOneDirection(debts: Debts, p: string, q: string)
    ensures var net := NetDebts(debts);
            !(p in net && q in net[p] && q in net && p in net[q])
  {
    NetEntries(debts, p, q);
    NetEntries(debts, q, p);
  }

  /** Equal reciprocal debts cancel: the pair has no net entry in either direction. */
  lemma NetEqualCancels(debts: Debts, p: string, q: string)
    requires Amount(debts, p, q) == Amount(debts, q, p)
    ensures var net := NetDebts(debts);
            !(p in net && q in net[p]) && !(q in net && p in net[q])
  {
    NetEntries(debts, p, q);
    NetEntries(debts, q, p);
  }

  /** A owes B 30 and B owes A 10: the net table holds exactly A owes B 20. */
  lemma NettingExample()
    ensures NetDebts(map["A" := map["B" := 30.0], "B" := map["A" := 10.0]]) == map["A" := map["B" := 20.0]]
  {
    var debts := map["A" := map["B" := 30.0], "B" := map["A" := 10.0]];
    assert "A" != "B";
    assert NetRow(debts, "A") == map["B" := 20.0];
    assert NetRow(debts, "B") == map[];
  }
}

/**
 * The three records the commute calculator keeps (cars, persons and commutes)
 * and the lookups by id that every part of the calculator performs with
 * `Array.prototype.find`.
 */
module Entities {
  import opened Wrappers

  /** A car: its owner is the person who drives it; `roundtripCost` is the full cost of a round trip. */
  datatype Car = Car(id: int, name: string, ownerId: int, roundtripCost: real)

  datatype Person = Person(id: int, name: string)

  /**
   * A recorded commute. `drivers` and `pricePerPerson` are computed once, when
   * the commute is created, and stored with it.
   */
  datatype Commute = Commute(
    id: int,
    date: string,
    tripType: string,
    selectedCars: seq<int>,
    selectedPersons: seq<int>,
    drivers: seq<int>,
    pricePerPerson: real)

  function CarId(c: Car): int { c.id }
  function PersonId(p: Person): int { p.id }
  function CommuteId(c: Commute): int { c.id }

  /** `xs.find(x => x.id === id)`: the first record with that id, if any. */
  function Find<T(!new)>(xs: seq<T>, id: int, idOf: T -> int): (r: Option<T>)
    ensures r.Some? <==> exists i :: 0 <= i < |xs| && idOf(xs[i]) == id
    ensures r.Some? ==> exists i :: 0 <= i < |xs| && xs[i] == r.value && idOf(r.value) == id &&
                                    forall j :: 0 <= j < i ==> idOf(xs[j]) != id
  {
    if xs == [] then None
    else if idOf(xs[0]) == id then Some(xs[0])
    else
      var r := Find(xs[1..], id, idOf);
      assert forall i :: 1 <= i < |xs| ==> xs[i] == xs[1..][i - 1];
      r
  }

  /** `cars.find(c => c.id === id)`. */
  function FindCar(cars: seq<Car>, id: int): Option<Car> {
    Find(cars, id, CarId)
  }

  /** `persons.find(p => p.id === id)`. */
  function FindPerson(persons: seq<Person>, id: int): Option<Person> {
    Find(persons, id, PersonId)
  }

  /** `xs.filter(x => x.id !== id)`: the records with another id, in order. */
  function RemoveId<T(!new)>(xs: seq<T>, id: int, idOf: T -> int): (r: seq<T>)
    ensures forall x :: x in r <==> x in xs && idOf(x) != id
    ensures |r| <= |xs|
    ensures (forall x :: x in xs ==> idOf(x) != id) ==> r == xs
  {
    if xs == [] then []
    else
      var rest := RemoveId(xs[1..], id, idOf);
      assert forall x :: x in xs <==> x == xs[0] || x in xs[1..];
      assert xs == [xs[0]] + xs[1..];
      if idOf(xs[0]) == id then rest else [xs[0]] + rest
  }

  /** Removal distributes over concatenation, so order and repeats are kept. */
  lemma {:induction false} RemoveIdAppend<T(!new)>(a: seq<T>, b: seq<T>, id: int, idOf: T -> int)
    ensures RemoveId(a + b, id, idOf) == RemoveId(a, id, idOf) + RemoveId(b, id, idOf)
    decreases |a|
  {
    if a == [] {
      assert a + b == b;
    } else {
      assert (a + b)[0] == a[0];
      assert (a + b)[1..] == a[1..] + b;
      RemoveIdAppend(a[1..], b, id, idOf);
    }
  }

  /**
   * `date.substring(0, 7)`: the `YYYY-MM` key of an ISO date. A string shorter
   * than seven characters is returned whole, as `substring` does.
   */
  function MonthOf(date: string): (r: string)
    ensures |r| == if |date| < 7 then |date| else 7
    ensures r <= date
  {
    if |date| < 7 then date else date[..7]
  }
}

/**
 * The price calculator: what each participant of a commute pays. Every
 * selected car is charged its round-trip cost on a round trip and half of it
 * otherwise; the charges are summed and divided by the number of selected
 * persons. A car id that no car has contributes nothing.
 */
module Pricing {
  import opened Wrappers
  import opened Entities

  /** The trip type that charges a car's full cost; every other value is a one-way trip. */
  const RoundTrip: string := "roundtrip"

  /** The charge for one car on one trip. */
  function CarCharge(car: Car, tripType: string): (r: real)
    ensures tripType == RoundTrip ==> r == car.roundtripCost
    ensures tripType != RoundTrip ==> r + r == car.roundtripCost
  {
    if tripType == RoundTrip then car.roundtripCost else car.roundtripCost / 2.0
  }

  /** The charge for a selected car id: nothing when no car has that id. */
  function ChargeOf(cars: seq<Car>, tripType: string, id: int): (r: real)
    ensures FindCar(cars, id).None? ==> r == 0.0
    ensures FindCar(cars, id).Some? ==> r == CarCharge(FindCar(cars, id).value, tripType)
  {
    match FindCar(cars, id)
    case None => 0.0
    case Some(car) => CarCharge(car, tripType)
  }

  /** The total cost of a selection: the sum of the charges of its car ids, in order. */
  function TotalCost(cars: seq<Car>, tripType: string, ids: seq<int>): real
    decreases |ids|
  {
    if ids == [] then 0.0
    else TotalCost(cars, tripType, ids[..|ids| - 1]) + ChargeOf(cars, tripType, ids[|ids| - 1])
  }

  /** The first id of a selection, as the one-element prefix the single-car branch looks at. */
  function FirstOnly(ids: seq<int>): (r: seq<int>)
    ensures r <= ids && |r| == if ids == [] then 0 else 1
  {
    if ids == [] then [] else ids[..1]
  }

  /**
   * `calculatePrice`. With `numCars == 1` only the first selected id is
   * looked at; otherwise every selected id is charged. The result is the
   * total cost of the ids looked at, divided by the number of persons.
   */
  method CalculatePrice(cars: seq<Car>, numCars: int, numPersons: nat, tripType: string, selectedCarIds: seq<int>)
    returns (price: real)
    requires numPersons > 0
    ensures numCars == 1 ==> price == TotalCost(cars, tripType, FirstOnly(selectedCarIds)) / numPersons as real
    ensures numCars != 1 ==> price == TotalCost(cars, tripType, selectedCarIds) / numPersons as real
  {
    if numCars == 1 {
      var car := if selectedCarIds == [] then None else FindCar(cars, selectedCarIds[0]);
      SingleCarBranchAgrees(cars, tripType, selectedCarIds);
      if car.None? {
        return 0.0;
      }
      var baseCost := CarCharge(car.value, tripType);
      return baseCost / numPersons as real;
    } else {
      var totalCarCost := 0.0;
      var i := 0;
      while i < |selectedCarIds|
        invariant 0 <= i <= |selectedCarIds|
        invariant totalCarCost == TotalCost(cars, tripType, selectedCarIds[..i])
      {
        var car := FindCar(cars, selectedCarIds[i]);
        assert selectedCarIds[..i + 1][..i] == selectedCarIds[..i];
        if car.Some? {
          totalCarCost := totalCarCost + CarCharge(car.value, tripType);
        }
        i := i + 1;
      }
      assert selectedCarIds[..|selectedCarIds|] == selectedCarIds;
      return totalCarCost / numPersons as real;
    }
  }

  /**
   * The single-car branch agrees with the general sum over the first id:
   * the car's charge when it resolves, and 0 when it does not.
   */
  lemma SingleCarBranchAgrees(cars: seq<Car>, tripType: string, ids: seq<int>)
    ensures ids == [] ==> TotalCost(cars, tripType, FirstOnly(ids)) == 0.0
    ensures ids != [] && FindCar(cars, ids[0]).None? ==> TotalCost(cars, tripType, FirstOnly(ids)) == 0.0
    ensures ids != [] && FindCar(cars, ids[0]).Some? ==>
              TotalCost(cars, tripType, FirstOnly(ids)) == CarCharge(FindCar(cars, ids[0]).value, tripType)
    ensures |ids| == 1 ==> TotalCost(cars, tripType, FirstOnly(ids)) == TotalCost(cars, tripType, ids)
  {
    if ids != [] {
      var one := FirstOnly(ids);
      assert one[..|one| - 1] == [];
    }
  }

  /** Total cost is additive over the concatenation of two selections. */
  lemma {:induction false} TotalCostAppend(cars: seq<Car>, tripType: string, a: seq<int>, b: seq<int>)
    ensures TotalCost(cars, tripType, a + b) == TotalCost(cars, tripType, a) + TotalCost(cars, tripType, b)
    decreases |b|
  {
    if b == [] {
      assert a + b == a;
    } else {
      var b' := b[..|b| - 1];
      assert (a + b)[..|a + b| - 1] == a + b';
      assert (a + b)[|a + b| - 1] == b[|b| - 1];
      TotalCostAppend(cars, tripType, a, b');
    }
  }

  /** A car id that no car has adds nothing, wherever it stands in the selection. */
  lemma UnknownCarAddsNothing(cars: seq<Car>, tripType: string, a: seq<int>, id: int, b: seq<int>)
    requires FindCar(cars, id).None?
    ensures TotalCost(cars, tripType, a + [id] + b) == TotalCost(cars, tripType, a + b)
  {
    TotalCostAppend(cars, tripType, a + [id], b);
    TotalCostAppend(cars, tripType, a, [id]);
    TotalCostAppend(cars, tripType, a, b);
    assert [id][..0] == [];
  }

  /** With costs that are never negative, the total is never negative. */
  lemma {:induction false} TotalCostNonNegative(cars: seq<Car>, tripType: string, ids: seq<int>)
    requires forall car :: car in cars ==> car.roundtripCost >= 0.0
    ensures TotalCost(cars, tripType, ids) >= 0.0
    decreases |ids|
  {
    if ids != [] {
      TotalCostNonNegative(cars, tripType, ids[..|ids| - 1]);
    }
  }

  /**
   * The worked example: cars of cost 20 and 10 on a round trip shared by three
   * persons cost 10 each; on a one-way trip, 5 each.
   */
  lemma TwoCarExample()
    ensures TotalCost([Car(1, "A", 1, 20.0), Car(2, "B", 2, 10.0)], RoundTrip, [1, 2]) / 3.0 == 10.0
    ensures TotalCost([Car(1, "A", 1, 20.0), Car(2, "B", 2, 10.0)], "oneway", [1, 2]) / 3.0 == 5.0
  {
    var cars := [Car(1, "A", 1, 20.0), Car(2, "B", 2, 10.0)];
    assert FindCar(cars, 1) == Some(cars[0]);
    assert FindCar(cars, 2) == Some(cars[1]);
    assert [1, 2][..1] == [1];
    assert [1][..0] == [];
  }
}

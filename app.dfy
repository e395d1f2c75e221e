/**
 * The calculator's in-memory state: the cars, persons and commutes it has
 * loaded, and the commute form being filled in. The toggles and the form
 * setters change only the commute form. Every other method is the state
 * change the component makes once the datastore has accepted the write; the
 * datastore call itself is not modelled, and the ids it assigns are parameters.
 */
module App {
  import opened Wrappers
  import opened Entities
  import opened Pricing
  import opened Selection
  import opened Settlement

  /** The commute form: the date, trip type and selections of the commute about to be added. */
  datatype CommuteForm = CommuteForm(date: string, tripType: string, selectedCars: seq<int>, selectedPersons: seq<int>)

  /** `cars.some(car => car.ownerId === id)`. */
  function OwnsACar(cars: seq<Car>, id: int): (r: bool)
    ensures r <==> exists i :: 0 <= i < |cars| && cars[i].ownerId == id
  {
    if cars == [] then false
    else
      assert forall i :: 1 <= i < |cars| ==> cars[i] == cars[1..][i - 1];
      cars[0].ownerId == id || OwnsACar(cars[1..], id)
  }

  /** Every car's owner is a known person. */
  ghost predicate OwnersKnown(cars: seq<Car>, persons: seq<Person>) {
    forall c :: c in cars ==> exists p :: p in persons && p.id == c.ownerId
  }

  /** The delete guard keeps every car's owner among the persons. */
  lemma DeletePersonKeepsOwners(cars: seq<Car>, persons: seq<Person>, id: int)
    requires OwnersKnown(cars, persons)
    requires !OwnsACar(cars, id)
    ensures OwnersKnown(cars, RemoveId(persons, id, PersonId))
  {
    forall c | c in cars ensures exists p :: p in RemoveId(persons, id, PersonId) && p.id == c.ownerId {
      var p :| p in persons && p.id == c.ownerId;
      var i :| 0 <= i < |cars| && cars[i] == c;
      assert p.id != id;
      assert p in RemoveId(persons, id, PersonId);
    }
  }

  /**
   * The worked example: cars of cost 20 (owner Alice) and 10 (owner Bob), a
   * round trip on 2024-01-10 with Alice, Bob and Carol. The drivers are Alice
   * and Bob, each person's price is 10, and Carol owes each driver 5.
   */
  lemma WorkedExample()
    ensures var cars := [Car(1, "A", 1, 20.0), Car(2, "B", 2, 10.0)];
            var persons := [Person(1, "Alice"), Person(2, "Bob"), Person(3, "Carol")];
            var c := Commute(1, "2024-01-10", RoundTrip, [1, 2], [1, 2, 3],
                             Drivers(cars, [1, 2]), TotalCost(cars, RoundTrip, [1, 2]) / 3.0);
            && c.drivers == [1, 2]
            && c.pricePerPerson == 10.0
            && GrossDebts(persons, MonthCommutes([c], "2024-01")) == map["Carol" := map["Alice" := 5.0, "Bob" := 5.0]]
  {
    var cars := [Car(1, "A", 1, 20.0), Car(2, "B", 2, 10.0)];
    TwoCarExample();
    WorkedExampleDrivers();
    WorkedExampleDebts();
  }

  lemma WorkedExampleDrivers()
    ensures Drivers([Car(1, "A", 1, 20.0), Car(2, "B", 2, 10.0)], [1, 2]) == [1, 2]
  {
    var cars := [Car(1, "A", 1, 20.0), Car(2, "B", 2, 10.0)];
    assert FindCar(cars, 1) == Some(cars[0]);
    assert FindCar(cars, 2) == Some(cars[1]);
    assert [1, 2][1..] == [2];
    assert [2][1..] == [];
  }

  lemma WorkedExampleDebts()
    ensures var persons := [Person(1, "Alice"), Person(2, "Bob"), Person(3, "Carol")];
            var c := Commute(1, "2024-01-10", RoundTrip, [1, 2], [1, 2, 3], [1, 2], 10.0);
            GrossDebts(persons, MonthCommutes([c], "2024-01")) == map["Carol" := map["Alice" := 5.0, "Bob" := 5.0]]
  {
    var persons := [Person(1, "Alice"), Person(2, "Bob"), Person(3, "Carol")];
    var c := Commute(1, "2024-01-10", RoundTrip, [1, 2], [1, 2, 3], [1, 2], 10.0);
    WorkedExampleMonth(c);
    GrossDebtsSingle(persons, c);
    WorkedExamplePassengers(c);
    WorkedExampleNames(persons);
    assert Share(10.0, 2) == 5.0;
    WorkedExampleCharge(persons);
  }

  lemma WorkedExampleMonth(c: Commute)
    requires c.date == "2024-01-10"
    ensures MonthCommutes([c], "2024-01") == [c]
  {
    assert MonthOf(c.date) == "2024-01";
    assert [c][..0] == [];
  }

  lemma GrossDebtsSingle(persons: seq<Person>, c: Commute)
    ensures GrossDebts(persons, [c]) == ChargeCommute(map[], persons, c)
  {
    assert [c][..0] == [];
  }

  lemma WorkedExampleCharge(persons: seq<Person>)
    requires persons == [Person(1, "Alice"), Person(2, "Bob"), Person(3, "Carol")]
    ensures ChargePassengers(map[], persons, [3], ["Alice", "Bob"], 5.0) == map["Carol" := map["Alice" := 5.0, "Bob" := 5.0]]
  {
    WorkedExampleCredit();
    assert [3][..0] == [];
    assert FindPerson(persons, 3) == Some(persons[2]);
  }

  lemma WorkedExamplePassengers(c: Commute)
    requires c.selectedPersons == [1, 2, 3] && c.drivers == [1, 2]
    ensures Passengers(c) == [3]
  {
    assert [3][1..] == [];
    assert Excluding([3], [1, 2]) == [3];
    assert [2, 3][1..] == [3];
    assert Excluding([2, 3], [1, 2]) == [3];
    assert [1, 2, 3][1..] == [2, 3];
  }

  lemma WorkedExampleNames(persons: seq<Person>)
    requires persons == [Person(1, "Alice"), Person(2, "Bob"), Person(3, "Carol")]
    ensures Names(persons, [1, 2]) == ["Alice", "Bob"]
  {
    assert FindPerson(persons, 1) == Some(persons[0]);
    assert FindPerson(persons, 2) == Some(persons[1]);
    assert [1, 2][..1] == [1];
    assert [1][..0] == [];
  }

  lemma WorkedExampleCredit()
    ensures CreditDrivers(map[], ["Alice", "Bob"], 5.0) == map["Alice" := 5.0, "Bob" := 5.0]
  {
    assert ["Alice", "Bob"][..1] == ["Alice"];
    assert ["Alice"][..0] == [];
    assert "Alice" != "Bob";
  }

  class CommuteCalculator {
    var cars: seq<Car>
    var persons: seq<Person>
    var commutes: seq<Commute>
    var newCommute: CommuteForm

    /** Toggling keeps both selections free of duplicates. */
    ghost predicate Valid()
      reads this
    {
      Distinct(newCommute.selectedCars) && Distinct(newCommute.selectedPersons)
    }

    /** The state before anything is loaded; the form starts on today's date, as a round trip. */
    constructor (today: string)
      ensures Valid()
      ensures cars == [] && persons == [] && commutes == []
      ensures newCommute == CommuteForm(today, RoundTrip, [], [])
    {
      cars, persons, commutes := [], [], [];
      newCommute := CommuteForm(today, RoundTrip, [], []);
    }

    /** `toggleCarSelection`. */
    method ToggleCarSelection(carId: int)
      requires Valid()
      modifies this
      ensures Valid()
      ensures newCommute == old(newCommute).(selectedCars := Toggle(old(newCommute.selectedCars), carId))
      ensures cars == old(cars) && persons == old(persons) && commutes == old(commutes)
    {
      ToggleKeepsDistinct(newCommute.selectedCars, carId);
      var selected := Toggle(newCommute.selectedCars, carId);
      newCommute := newCommute.(selectedCars := selected);
    }

    /** `togglePersonSelection`. */
    method TogglePersonSelection(personId: int)
      requires Valid()
      modifies this
      ensures Valid()
      ensures newCommute == old(newCommute).(selectedPersons := Toggle(old(newCommute.selectedPersons), personId))
      ensures cars == old(cars) && persons == old(persons) && commutes == old(commutes)
    {
      ToggleKeepsDistinct(newCommute.selectedPersons, personId);
      var selected := Toggle(newCommute.selectedPersons, personId);
      newCommute := newCommute.(selectedPersons := selected);
    }

    /** The date field of the commute form: only the form's date changes. */
    method SetDate(date: string)
      requires Valid()
      modifies this
      ensures Valid()
      ensures newCommute == old(newCommute).(date := date)
      ensures cars == old(cars) && persons == old(persons) && commutes == old(commutes)
    {
      newCommute := newCommute.(date := date);
    }

    /** The trip type field of the commute form: only the form's trip type changes. */
    method SetTripType(tripType: string)
      requires Valid()
      modifies this
      ensures Valid()
      ensures newCommute == old(newCommute).(tripType := tripType)
      ensures cars == old(cars) && persons == old(persons) && commutes == old(commutes)
    {
      newCommute := newCommute.(tripType := tripType);
    }

    /**
     * `addCommute`: rejected when no car or no person is selected; otherwise
     * the commute is stored first in the list with its drivers and its price,
     * both computed now, and the form is reset. `id` is the id the datastore
     * assigns and `today` the date the form is reset to.
     */
    method AddCommute(id: int, today: string) returns (added: bool)
      requires Valid()
      modifies this
      ensures Valid()
      ensures added <==> old(newCommute.selectedCars) != [] && old(newCommute.selectedPersons) != []
      ensures !added ==> commutes == old(commutes) && newCommute == old(newCommute)
      ensures added ==>
                commutes == [Commute(id, old(newCommute.date), old(newCommute.tripType),
                                     old(newCommute.selectedCars), old(newCommute.selectedPersons),
                                     Drivers(cars, old(newCommute.selectedCars)),
                                     TotalCost(cars, old(newCommute.tripType), old(newCommute.selectedCars))
                                       / |old(newCommute.selectedPersons)| as real)]
                            + old(commutes)
      ensures added ==> Distinct(commutes[0].selectedCars) && Distinct(commutes[0].selectedPersons)
      ensures added ==> newCommute == CommuteForm(today, RoundTrip, [], [])
      ensures cars == old(cars) && persons == old(persons)
    {
      if newCommute.selectedCars == [] || newCommute.selectedPersons == [] {
        return false;
      }
      var drivers := Drivers(cars, newCommute.selectedCars);
      SingleCarBranchAgrees(cars, newCommute.tripType, newCommute.selectedCars);
      var pricePerPerson := CalculatePrice(cars, |newCommute.selectedCars|, |newCommute.selectedPersons|,
                                           newCommute.tripType, newCommute.selectedCars);
      var commute := Commute(id, newCommute.date, newCommute.tripType, newCommute.selectedCars,
                             newCommute.selectedPersons, drivers, pricePerPerson);
      commutes := [commute] + commutes;
      newCommute := CommuteForm(today, RoundTrip, [], []);
      return true;
    }

    /** `deleteCommute`, once the datastore has deleted the row. */
    method DeleteCommute(id: int)
      modifies this
      ensures commutes == RemoveId(old(commutes), id, CommuteId)
      ensures cars == old(cars) && persons == old(persons) && newCommute == old(newCommute)
    {
      commutes := RemoveId(commutes, id, CommuteId);
    }

    /**
     * `deletePerson`: refused while the person owns a car; otherwise every
     * person with that id is removed. Every car's owner stays a known person.
     */
    method DeletePerson(id: int) returns (deleted: bool)
      modifies this
      ensures deleted <==> !OwnsACar(old(cars), id)
      ensures persons == if deleted then RemoveId(old(persons), id, PersonId) else old(persons)
      ensures cars == old(cars) && commutes == old(commutes) && newCommute == old(newCommute)
      ensures OwnersKnown(old(cars), old(persons)) ==> OwnersKnown(cars, persons)
    {
      var ownsACar := OwnsACar(cars, id);
      if ownsACar {
        return false;
      }
      if OwnersKnown(cars, persons) {
        DeletePersonKeepsOwners(cars, persons, id);
      }
      persons := RemoveId(persons, id, PersonId);
      return true;
    }

    /** `addPerson`: a person with an empty name is not added; otherwise the stored row is appended. */
    method AddPerson(person: Person) returns (added: bool)
      modifies this
      ensures added <==> person.name != ""
      ensures persons == if added then old(persons) + [person] else old(persons)
      ensures cars == old(cars) && commutes == old(commutes) && newCommute == old(newCommute)
      ensures OwnersKnown(old(cars), old(persons)) ==> OwnersKnown(cars, persons)
    {
      if person.name == "" {
        return false;
      }
      persons := persons + [person];
      return true;
    }

    /**
     * `addCar`: a car with an empty name is not added. When the owner is a
     * new person, that person's stored row is appended first, and it stays
     * even when storing the car then fails. `carStored` is whether the
     * datastore stored the car.
     */
    method AddCar(car: Car, newOwner: Option<Person>, carStored: bool) returns (added: bool)
      requires newOwner.Some? ==> newOwner.value.id == car.ownerId
      modifies this
      ensures added <==> car.name != "" && carStored
      ensures persons == if car.name != "" && newOwner.Some? then old(persons) + [newOwner.value] else old(persons)
      ensures cars == if added then old(cars) + [car] else old(cars)
      ensures commutes == old(commutes) && newCommute == old(newCommute)
      ensures (OwnersKnown(old(cars), old(persons)) &&
               (newOwner.Some? || exists p :: p in old(persons) && p.id == car.ownerId)) ==> OwnersKnown(cars, persons)
    {
      if car.name == "" {
        return false;
      }
      if newOwner.Some? {
        persons := persons + [newOwner.value];
      }
      if !carStored {
        return false;
      }
      cars := cars + [car];
      return true;
    }

    /** `deleteCar`, once the datastore has deleted the row. */
    method DeleteCar(id: int)
      modifies this
      ensures cars == RemoveId(old(cars), id, CarId)
      ensures persons == old(persons) && commutes == old(commutes) && newCommute == old(newCommute)
      ensures OwnersKnown(old(cars), old(persons)) ==> OwnersKnown(cars, persons)
    {
      cars := RemoveId(cars, id, CarId);
    }
  }
}

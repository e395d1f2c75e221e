/**
 * The commute form's selections and the rules `addCommute` applies before a
 * commute is stored: toggling a car or person id in and out of a selection,
 * and deriving the drivers from the selected cars.
 */
module Selection {
  import opened Wrappers
  import opened Entities

  /** No id occurs twice. */
  predicate Distinct(s: seq<int>) {
    forall i, j :: 0 <= i < j < |s| ==> s[i] != s[j]
  }

  /** `s.filter(id => id !== x)`: every occurrence of `x` removed, the rest in order. */
  function Without(s: seq<int>, x: int): (r: seq<int>)
    ensures x !in r
    ensures forall y :: y != x ==> (y in r <==> y in s)
    ensures |r| <= |s|
    ensures x !in s ==> r == s
    ensures Distinct(s) ==> Distinct(r)
  {
    if s == [] then []
    else
      var rest := Without(s[1..], x);
      assert Distinct(s) ==> Distinct(s[1..]) by {
        if Distinct(s) {
          forall i, j | 0 <= i < j < |s[1..]| ensures s[1..][i] != s[1..][j] {
            assert s[1..][i] == s[i + 1] && s[1..][j] == s[j + 1];
          }
        }
      }
      assert x !in s ==> s == [s[0]] + s[1..];
      if s[0] == x then rest
      else
        var r := [s[0]] + rest;
        assert Distinct(s) ==> Distinct(r) by {
          if Distinct(s) {
            assert s[0] !in s[1..];
            forall i, j | 0 <= i < j < |r| ensures r[i] != r[j] {
              if i == 0 {
                assert r[j] in rest;
              } else {
                assert r[i] == rest[i - 1] && r[j] == rest[j - 1];
              }
            }
          }
        }
        r
  }

  /** Removal distributes over concatenation, so the remaining ids keep their order. */
  lemma {:induction false} WithoutAppend(a: seq<int>, b: seq<int>, x: int)
    ensures Without(a + b, x) == Without(a, x) + Without(b, x)
    decreases |a|
  {
    if a == [] {
      assert a + b == b;
    } else {
      assert (a + b)[0] == a[0];
      assert (a + b)[1..] == a[1..] + b;
      WithoutAppend(a[1..], b, x);
    }
  }

  /**
   * `toggleCarSelection` / `togglePersonSelection`: remove the id when it is
   * selected, append it otherwise.
   */
  function Toggle(s: seq<int>, x: int): (r: seq<int>)
    ensures x in r <==> x !in s
    ensures forall y :: y != x ==> (y in r <==> y in s)
    ensures x !in s ==> r == s + [x]
  {
    if x in s then Without(s, x) else s + [x]
  }

  /** Toggling keeps a selection free of duplicates. */
  lemma ToggleKeepsDistinct(s: seq<int>, x: int)
    requires Distinct(s)
    ensures Distinct(Toggle(s, x))
  {
    if x !in s {
      var r := s + [x];
      forall i, j | 0 <= i < j < |r| ensures r[i] != r[j] {
        if j == |s| {
          assert r[i] == s[i];
        }
      }
    }
  }

  /** Toggling an id twice restores which ids are selected. */
  lemma ToggleTwice(s: seq<int>, x: int)
    ensures forall y :: y in Toggle(Toggle(s, x), x) <==> y in s
    ensures x !in s ==> Toggle(Toggle(s, x), x) == s
  {
    if x !in s {
      var t := s + [x];
      assert x in t;
      WithoutUndoesAppend(s, x);
    }
  }

  /** Removing an id that was just appended to a list without it gives back the list. */
  lemma {:induction false} WithoutUndoesAppend(s: seq<int>, x: int)
    requires x !in s
    ensures Without(s + [x], x) == s
    decreases |s|
  {
    if s == [] {
      assert Without([x][1..], x) == [];
    } else {
      assert (s + [x])[1..] == s[1..] + [x];
      WithoutUndoesAppend(s[1..], x);
      assert s == [s[0]] + s[1..];
    }
  }

  /**
   * The drivers of a new commute: the owner of each selected car that
   * resolves, in selection order; ids that resolve to no car are dropped.
   */
  function Drivers(cars: seq<Car>, selectedCars: seq<int>): (r: seq<int>)
    ensures |r| <= |selectedCars|
    ensures |r| == |selectedCars| <==> forall i :: 0 <= i < |selectedCars| ==> FindCar(cars, selectedCars[i]).Some?
    ensures forall d :: d in r ==> exists c :: c in cars && c.ownerId == d && c.id in selectedCars
  {
    if selectedCars == [] then []
    else
      var rest := Drivers(cars, selectedCars[1..]);
      assert forall i :: 1 <= i < |selectedCars| ==> selectedCars[1..][i - 1] == selectedCars[i];
      match FindCar(cars, selectedCars[0])
      case None => rest
      case Some(car) => [car.ownerId] + rest
  }

  /** When every selected car resolves, the i-th driver is the owner of the i-th selected car. */
  lemma {:induction false} DriversWhenAllResolve(cars: seq<Car>, selectedCars: seq<int>)
    requires forall i :: 0 <= i < |selectedCars| ==> FindCar(cars, selectedCars[i]).Some?
    ensures |Drivers(cars, selectedCars)| == |selectedCars|
    ensures forall i :: 0 <= i < |selectedCars| ==>
              Drivers(cars, selectedCars)[i] == FindCar(cars, selectedCars[i]).value.ownerId
    decreases |selectedCars|
  {
    if selectedCars != [] {
      var tail := selectedCars[1..];
      assert forall i :: 0 <= i < |tail| ==> tail[i] == selectedCars[i + 1];
      DriversWhenAllResolve(cars, tail);
    }
  }

  /** Drivers distribute over the concatenation of two selections. */
  lemma {:induction false} DriversAppend(cars: seq<Car>, a: seq<int>, b: seq<int>)
    ensures Drivers(cars, a + b) == Drivers(cars, a) + Drivers(cars, b)
    decreases |a|
  {
    if a == [] {
      assert a + b == b;
    } else {
      assert (a + b)[0] == a[0];
      assert (a + b)[1..] == a[1..] + b;
      DriversAppend(cars, a[1..], b);
    }
  }
}

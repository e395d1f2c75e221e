/**
 * The month listing: the distinct `YYYY-MM` keys of the recorded commutes,
 * most recent first. The source collects them in a set, sorts them with
 * JavaScript's default string order and reverses the result.
 */
module Months {
  import opened Entities

  /**
   * JavaScript's default string order: lexicographic by character, a proper
   * prefix before any longer string.
   */
  predicate Before(a: string, b: string): (r: bool)
    ensures r ==> a != b
    ensures a < b ==> r
    ensures (a != [] && b != [] && a[0] < b[0]) ==> r
    decreases |a|
  {
    if a == [] then b != []
    else if b == [] then false
    else if a[0] == b[0] then Before(a[1..], b[1..])
    else a[0] < b[0]
  }

  lemma {:induction false} BeforeIrreflexive(a: string)
    ensures !Before(a, a)
    decreases |a|
  {
    if a != [] {
      BeforeIrreflexive(a[1..]);
    }
  }

  lemma {:induction false} BeforeTransitive(a: string, b: string, c: string)
    requires Before(a, b) && Before(b, c)
    ensures Before(a, c)
    decreases |a|
  {
    if a != [] && a[0] == b[0] && b[0] == c[0] {
      BeforeTransitive(a[1..], b[1..], c[1..]);
    }
  }

  /** Two different strings are always ordered one way or the other. */
  lemma {:induction false} BeforeTotal(a: string, b: string)
    requires a != b
    ensures Before(a, b) || Before(b, a)
    decreases |a|
  {
    if a != [] && b != [] && a[0] == b[0] {
      assert a == [a[0]] + a[1..] && b == [b[0]] + b[1..];
      BeforeTotal(a[1..], b[1..]);
    }
  }

  lemma {:induction false} BeforeAsymmetric(a: string, b: string)
    requires Before(a, b)
    ensures !Before(b, a)
  {
    if Before(b, a) {
      BeforeTransitive(a, b, a);
      BeforeIrreflexive(a);
    }
  }

  /** Every element comes after the ones that follow it: descending, and so without repetition. */
  predicate StrictlyDescending(s: seq<string>) {
    forall i, j :: 0 <= i < j < |s| ==> Before(s[j], s[i])
  }

  /** A strictly descending list holds each of its elements once. */
  lemma DescendingDistinct(s: seq<string>)
    requires StrictlyDescending(s)
    ensures forall i, j :: 0 <= i < j < |s| ==> s[i] != s[j]
  {
    forall i, j | 0 <= i < j < |s| ensures s[i] != s[j] {
      if s[i] == s[j] {
        BeforeIrreflexive(s[i]);
      }
    }
  }

  /** `s` with `x` added where it belongs (nothing changes when `x` is already present). */
  function Insert(x: string, s: seq<string>): (r: seq<string>)
    requires StrictlyDescending(s)
    ensures StrictlyDescending(r)
    ensures forall m :: m in r <==> m == x || m in s
    decreases |s|
  {
    if s == [] then [x]
    else if x == s[0] then s
    else if Before(s[0], x) then
      var r := [x] + s;
      assert forall j :: 0 < j < |s| ==> Before(s[j], s[0]);
      assert forall j :: 0 < j < |r| ==> Before(r[j], x) by {
        forall j | 0 < j < |r| ensures Before(r[j], x) {
          if j > 1 {
            BeforeTransitive(r[j], s[0], x);
          }
        }
      }
      r
    else
      var rest := Insert(x, s[1..]);
      BeforeTotal(x, s[0]);
      var r := [s[0]] + rest;
      assert forall m :: m in s <==> m == s[0] || m in s[1..];
      assert forall j :: 0 < j < |r| ==> Before(r[j], s[0]) by {
        forall j | 0 < j < |r| ensures Before(r[j], s[0]) {
          assert r[j] in rest;
          if r[j] != x {
            var k :| 0 <= k < |s[1..]| && s[1..][k] == r[j];
            assert s[k + 1] == r[j];
          }
        }
      }
      r
  }

  /** The keys of `commutes`, taken from the first to the last, added to `acc`. */
  function Collect(commutes: seq<Commute>, acc: seq<string>): (r: seq<string>)
    requires StrictlyDescending(acc)
    ensures StrictlyDescending(r)
    ensures forall m :: m in r <==> m in acc || exists c :: c in commutes && MonthOf(c.date) == m
    decreases |commutes|
  {
    if commutes == [] then acc
    else
      var r := Collect(commutes[1..], Insert(MonthOf(commutes[0].date), acc));
      assert forall c :: c in commutes <==> c == commutes[0] || c in commutes[1..];
      r
  }

  /** `getMonths`: each month key of the commutes exactly once, most recent first. */
  function GetMonths(commutes: seq<Commute>): (r: seq<string>)
    ensures StrictlyDescending(r)
    ensures forall m :: m in r <==> exists c :: c in commutes && MonthOf(c.date) == m
  {
    Collect(commutes, [])
  }

  /**
   * A strictly descending list is determined by its elements: whatever way it
   * is built, it is the list the source obtains by sorting the set and reversing.
   */
  lemma {:induction false} DescendingUnique(a: seq<string>, b: seq<string>)
    requires StrictlyDescending(a) && StrictlyDescending(b)
    requires forall m :: m in a <==> m in b
    ensures a == b
    decreases |a|
  {
    SameElementsBothEmpty(a, b);
    if a != [] {
      // the first element of each list is the greatest, so they agree
      if a[0] != b[0] {
        assert a[0] in b && b[0] in a;
        var i :| 0 <= i < |b| && b[i] == a[0];
        var j :| 0 <= j < |a| && a[j] == b[0];
        assert i > 0 && j > 0;
        BeforeAsymmetric(b[i], b[0]);
        assert false;
      }
      DescendingDistinct(a);
      DescendingDistinct(b);
      forall m ensures m in a[1..] <==> m in b[1..] {
        assert m in a[1..] <==> m in a && m != a[0];
        assert m in b[1..] <==> m in b && m != b[0];
      }
      DescendingUnique(a[1..], b[1..]);
      assert a == [a[0]] + a[1..] && b == [b[0]] + b[1..];
    }
  }

  lemma SameElementsBothEmpty(a: seq<string>, b: seq<string>)
    requires forall m :: m in a <==> m in b
    ensures a == [] <==> b == []
  {
    if a != [] {
      assert a[0] in a;
    }
    if b != [] {
      assert b[0] in b;
    }
  }

  /** One commute dated 2024-03-15 lists exactly the month 2024-03. */
  lemma SingleMonthExample(c: Commute)
    requires c.date == "2024-03-15"
    ensures GetMonths([c]) == ["2024-03"]
  {
    assert MonthOf(c.date) == "2024-03";
    DescendingUnique(GetMonths([c]), ["2024-03"]);
  }
}

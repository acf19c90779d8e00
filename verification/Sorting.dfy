/** What a stable sort by a key does, whichever one it is. */
module Sorting {

  /** Position `i` of the result takes the item listed at `place[i]`; keys rise, and one key's places rise. */
  ghost predicate SortsTo<T(!new)>(items: seq<T>, ordered: seq<T>, key: T -> nat, place: seq<nat>) {
    && |place| == |ordered| == |items|
    && (forall i :: 0 <= i < |place| ==> place[i] < |items| && ordered[i] == items[place[i]])
    && forall i, j :: 0 <= i < j < |place| ==>
         key(ordered[i]) < key(ordered[j]) || (key(ordered[i]) == key(ordered[j]) && place[i] < place[j])
  }

  /** A permutation in key order that keeps the listed order of equal keys: what a stable sort promises. */
  ghost predicate IsStableSort<T(!new)>(items: seq<T>, ordered: seq<T>, key: T -> nat) {
    exists place: seq<nat> :: SortsTo(items, ordered, key, place)
  }

  /** The sort that inserts each item, last to first, before those of its own key. */
  function InsertionSort<T>(items: seq<T>, key: T -> nat): seq<T> {
    if items == [] then [] else Insert(items[0], InsertionSort(items[1..], key), key)
  }

  function Insert<T>(item: T, sorted: seq<T>, key: T -> nat): seq<T> {
    if sorted == [] || key(item) <= key(sorted[0]) then [item] + sorted
    else [sorted[0]] + Insert(item, sorted[1..], key)
  }

  /** The items of one key, as listed. */
  function OfKey<T>(items: seq<T>, key: T -> nat, k: nat): seq<T> {
    if items == [] then []
    else if key(items[0]) == k then [items[0]] + OfKey(items[1..], key, k)
    else OfKey(items[1..], key, k)
  }

  lemma {:induction false} OfKeyHoldsItsKey<T>(items: seq<T>, key: T -> nat, k: nat)
    ensures forall item :: item in OfKey(items, key, k) ==> key(item) == k
  {
    if items != [] {
      OfKeyHoldsItsKey(items[1..], key, k);
    }
  }

  lemma {:induction false} InsertPassesSmaller<T>(item: T, low: seq<T>, rest: seq<T>, key: T -> nat)
    requires forall other :: other in low ==> key(other) < key(item)
    requires rest == [] || key(item) <= key(rest[0])
    ensures Insert(item, low + rest, key) == low + [item] + rest
  {
    if low == [] {
      assert low + rest == rest;
    } else {
      assert (low + rest)[1..] == low[1..] + rest;
      InsertPassesSmaller(item, low[1..], rest, key);
      assert low + [item] + rest == [low[0]] + (low[1..] + [item] + rest);
    }
  }

  lemma Regroup<T>(a: seq<T>, b: seq<T>, c: seq<T>)
    ensures (a + b) + c == a + (b + c)
  {
  }

  lemma InsertJoinsItsTier<T>(item: T, zero: seq<T>, one: seq<T>, two: seq<T>, key: T -> nat)
    requires forall other :: other in zero ==> key(other) == 0
    requires forall other :: other in one ==> key(other) == 1
    requires forall other :: other in two ==> key(other) == 2
    ensures key(item) == 0 ==> Insert(item, zero + (one + two), key) == ([item] + zero) + (one + two)
    ensures key(item) == 1 ==> Insert(item, zero + (one + two), key) == zero + (([item] + one) + two)
    ensures key(item) == 2 ==> Insert(item, zero + (one + two), key) == zero + (one + ([item] + two))
  {
    if key(item) == 0 {
      Regroup([item], zero, one + two);
    } else {
      hide Insert;
      if key(item) == 1 {
        InsertPassesSmaller(item, zero, one + two, key);
        Regroup(zero, [item], one + two);
        Regroup([item], one, two);
      } else if key(item) == 2 {
        Regroup(zero, one, two);
        InsertPassesSmaller(item, zero + one, two, key);
        Regroup(zero + one, [item], two);
        Regroup(zero, one, [item] + two);
      }
    }
  }

  /** **A stable sort over three keys is the three tiers, each as listed.** */
  lemma {:induction false} TheSortIsThreeTiers<T>(items: seq<T>, key: T -> nat)
    requires forall item :: item in items ==> key(item) <= 2
    ensures InsertionSort(items, key) == OfKey(items, key, 0) + (OfKey(items, key, 1) + OfKey(items, key, 2))
  {
    hide Insert;
    if items != [] {
      var rest := items[1..];
      TheSortIsThreeTiers(rest, key);
      OfKeyHoldsItsKey(rest, key, 0);
      OfKeyHoldsItsKey(rest, key, 1);
      OfKeyHoldsItsKey(rest, key, 2);
      InsertJoinsItsTier(items[0], OfKey(rest, key, 0), OfKey(rest, key, 1), OfKey(rest, key, 2), key);
    }
  }

  lemma {:induction false} TheTiersAreAllTheJobs<T>(items: seq<T>, key: T -> nat)
    requires forall item :: item in items ==> key(item) <= 2
    ensures multiset(OfKey(items, key, 0)) + multiset(OfKey(items, key, 1)) + multiset(OfKey(items, key, 2)) == multiset(items)
  {
    if items != [] {
      var item, rest := items[0], items[1..];
      TheTiersAreAllTheJobs(rest, key);
      assert items == [item] + rest;
      OneMoreOfItsKey(item, rest, key, 0);
      OneMoreOfItsKey(item, rest, key, 1);
      OneMoreOfItsKey(item, rest, key, 2);
    }
  }

  lemma OneMoreOfItsKey<T>(item: T, rest: seq<T>, key: T -> nat, k: nat)
    ensures
      multiset(OfKey([item] + rest, key, k)) == multiset(OfKey(rest, key, k)) + if key(item) == k then multiset{item} else multiset{}
  {
    assert ([item] + rest)[1..] == rest;
  }

  // ---- There is one stable sort ----

  function Taken(place: seq<nat>): (r: set<nat>)
    ensures forall n :: n in r <==> n in place
  {
    if place == [] then {}
    else
      assert place == place[..|place| - 1] + [place[|place| - 1]];
      Taken(place[..|place| - 1]) + {place[|place| - 1]}
  }

  function Below(n: nat): (r: set<nat>)
    ensures |r| == n && forall k: nat :: k in r <==> k < n
  {
    if n == 0 then {} else Below(n - 1) + {n - 1}
  }

  ghost predicate Apart(place: seq<nat>) { forall i, j :: 0 <= i < j < |place| ==> place[i] != place[j] }

  lemma {:induction false} DistinctPlaces(place: seq<nat>)
    requires Apart(place)
    ensures |Taken(place)| == |place|
  {
    if place != [] {
      DistinctPlaces(place[..|place| - 1]);
      assert place[|place| - 1] !in place[..|place| - 1];
    }
  }

  /** Distinct places below their own number leave none out. */
  lemma EveryPlaceIsTaken(place: seq<nat>, n: nat)
    requires Apart(place) && (forall i :: 0 <= i < |place| ==> place[i] < |place|) && n < |place|
    ensures n in place
  {
    hide Taken, Below;
    var taken, all := Taken(place), Below(|place|);
    DistinctPlaces(place);
    assert taken <= all && all == taken + (all - taken);
    assert |all - taken| == 0 && all - taken == {};
    assert n in all;
  }

  lemma AroundTheFirst<T(!new)>(items: seq<T>, ordered: seq<T>, key: T -> nat, place: seq<nat>, p: nat)
    requires SortsTo(items, ordered, key, place) && p < |place| && place[p] == 0
    ensures forall x :: x in ordered[..p] ==> key(x) < key(items[0])
    ensures p + 1 < |ordered| ==> key(items[0]) <= key(ordered[p + 1])
  {
    forall x | x in ordered[..p]
      ensures key(x) < key(items[0])
    {
      var i :| 0 <= i < p && ordered[i] == x;
    }
  }

  lemma WithoutTheFirst<T(!new)>(items: seq<T>, ordered: seq<T>, key: T -> nat, place: seq<nat>, p: nat)
    requires SortsTo(items, ordered, key, place) && p < |place| && place[p] == 0
    ensures IsStableSort(items[1..], ordered[..p] + ordered[p + 1..], key)
  {
    var less := ordered[..p] + ordered[p + 1..];
    var rest: seq<nat> := seq(|place| - 1, i requires 0 <= i < |place| - 1 => Moved(place, p, i));
    forall i | 0 <= i < |rest|
      ensures rest[i] < |items| - 1 && less[i] == items[1..][rest[i]]
    {
      var q := if i < p then i else i + 1;
      assert less[i] == ordered[q] && (q < p || p < q);
    }
    forall i, j | 0 <= i < j < |rest|
      ensures key(less[i]) < key(less[j]) || (key(less[i]) == key(less[j]) && rest[i] < rest[j])
    {
      var q, r := if i < p then i else i + 1, if j < p then j else j + 1;
      assert less[i] == ordered[q] && less[j] == ordered[r] && q < r;
      assert q != p && r != p && place[q] != 0 && place[r] != 0;
    }
    assert SortsTo(items[1..], less, key, rest);
  }

  /** The place, among the items after the first, that the result without it takes at `i`. */
  function Moved(place: seq<nat>, p: nat, i: nat): nat
    requires p < |place| && i + 1 < |place|
  {
    var q := place[if i < p then i else i + 1];
    if q == 0 then 0 else q - 1
  }

  lemma ThePlacesAreApart<T(!new)>(items: seq<T>, ordered: seq<T>, key: T -> nat, place: seq<nat>)
    requires SortsTo(items, ordered, key, place)
    ensures Apart(place)
  {
    forall i, j | 0 <= i < j < |place|
      ensures place[i] != place[j]
    {
      assert key(ordered[i]) < key(ordered[j]) || place[i] < place[j];
    }
  }

  lemma TheFirstHasAPlace<T(!new)>(items: seq<T>, ordered: seq<T>, key: T -> nat) returns (p: nat)
    requires IsStableSort(items, ordered, key) && items != []
    ensures p < |ordered| == |items| && ordered[p] == items[0]
    ensures IsStableSort(items[1..], ordered[..p] + ordered[p + 1..], key)
    ensures forall x :: x in ordered[..p] ==> key(x) < key(items[0])
    ensures p + 1 < |ordered| ==> key(items[0]) <= key(ordered[p + 1])
  {
    var place :| SortsTo(items, ordered, key, place);
    ThePlacesAreApart(items, ordered, key, place);
    EveryPlaceIsTaken(place, 0);
    p :| 0 <= p < |place| && place[p] == 0;
    AroundTheFirst(items, ordered, key, place, p);
    WithoutTheFirst(items, ordered, key, place, p);
  }

  /** **Any stable sort is this one.** */
  lemma {:induction false} AnyStableSortIsTheInsertionSort<T(!new)>(items: seq<T>, ordered: seq<T>, key: T -> nat)
    requires IsStableSort(items, ordered, key)
    ensures ordered == InsertionSort(items, key)
    decreases |items|
  {
    if items == [] {
      assert ordered == [];
    } else {
      var p := TheFirstHasAPlace(items, ordered, key);
      hide IsStableSort, Insert;
      var low, rest := ordered[..p], ordered[p + 1..];
      AnyStableSortIsTheInsertionSort(items[1..], low + rest, key);
      InsertPassesSmaller(items[0], low, rest, key);
      assert ordered == low + [items[0]] + rest;
    }
  }

  /** Where an item is inserted. */
  function Slot<T>(item: T, sorted: seq<T>, key: T -> nat): (p: nat)
    ensures p <= |sorted|
    ensures (forall i :: 0 <= i < p ==> key(sorted[i]) < key(item)) && (p < |sorted| ==> key(item) <= key(sorted[p]))
  {
    if sorted == [] || key(item) <= key(sorted[0]) then 0 else 1 + Slot(item, sorted[1..], key)
  }

  /** The insertion sort is a stable sort. */
  lemma {:induction false} TheInsertionSortIsStable<T(!new)>(items: seq<T>, key: T -> nat)
    ensures IsStableSort(items, InsertionSort(items, key), key)
    decreases |items|
  {
    if items == [] {
      assert SortsTo(items, InsertionSort(items, key), key, []);
    } else {
      var sorted := InsertionSort(items[1..], key);
      TheInsertionSortIsStable(items[1..], key);
      var place :| SortsTo(items[1..], sorted, key, place);
      InsertingStaysStable(items, sorted, key, place);
    }
  }

  /** Where position `i` of the longer result stood in the shorter one. */
  function Back(p: nat, i: nat): nat
    requires i != p
  {
    if i < p then i else i - 1
  }

  function Between<T>(sorted: seq<T>, p: nat, item: T): (more: seq<T>)
    requires p <= |sorted|
    ensures |more| == |sorted| + 1
    ensures forall i :: 0 <= i < |more| ==> more[i] == if i == p then item else sorted[Back(p, i)]
  {
    sorted[..p] + [item] + sorted[p..]
  }

  /** The first item's place is 0; every other place moves up by one. */
  function Places(place: seq<nat>, p: nat): (more: seq<nat>)
    requires p <= |place|
    ensures |more| == |place| + 1
    ensures forall i :: 0 <= i < |more| ==> more[i] == if i == p then 0 else place[Back(p, i)] + 1
  {
    seq(|place| + 1, i requires 0 <= i < |place| + 1 => if i == p then 0 else place[Back(p, i)] + 1)
  }

  lemma TwoPositions<T(!new)>(items: seq<T>, sorted: seq<T>, key: T -> nat, place: seq<nat>, p: nat, i: nat, j: nat)
    requires items != [] && SortsTo(items[1..], sorted, key, place)
    requires p <= |sorted| && (forall k :: 0 <= k < p ==> key(sorted[k]) < key(items[0]))
    requires p < |sorted| ==> key(items[0]) <= key(sorted[p])
    requires i < j <= |sorted|
    ensures
      var more, places := Between(sorted, p, items[0]), Places(place, p);
      && key(more[i]) <= key(more[j]) && (key(more[i]) == key(more[j]) ==> places[i] < places[j])
  {
    hide Between, Places;
    if i == p {
      assert key(sorted[p]) <= key(sorted[j - 1]);
    } else if j == p {
      assert key(sorted[i]) < key(items[0]);
    } else {
      var q, r := Back(p, i), Back(p, j);
      assert key(sorted[q]) < key(sorted[r]) || (key(sorted[q]) == key(sorted[r]) && place[q] < place[r]);
    }
  }

  lemma OnePosition<T(!new)>(items: seq<T>, sorted: seq<T>, key: T -> nat, place: seq<nat>, p: nat, i: nat)
    requires items != [] && SortsTo(items[1..], sorted, key, place) && p <= |sorted| && i <= |sorted|
    ensures Places(place, p)[i] < |items| && Between(sorted, p, items[0])[i] == items[Places(place, p)[i]]
  {
    hide Between, Places;
    if i != p {
      assert items[1..][place[Back(p, i)]] == items[place[Back(p, i)] + 1];
    }
  }

  lemma InsertedBetween<T(!new)>(items: seq<T>, sorted: seq<T>, key: T -> nat, place: seq<nat>, p: nat)
    requires items != [] && SortsTo(items[1..], sorted, key, place)
    requires p <= |sorted| && (forall k :: 0 <= k < p ==> key(sorted[k]) < key(items[0]))
    requires p < |sorted| ==> key(items[0]) <= key(sorted[p])
    ensures SortsTo(items, Between(sorted, p, items[0]), key, Places(place, p))
  {
    hide Between, Places;
    var more, places := Between(sorted, p, items[0]), Places(place, p);
    assert |places| == |more| == |items|;
    forall i | 0 <= i < |places|
      ensures places[i] < |items| && more[i] == items[places[i]]
    {
      OnePosition(items, sorted, key, place, p, i);
    }
    forall i, j | 0 <= i < j < |places|
      ensures key(more[i]) < key(more[j]) || (key(more[i]) == key(more[j]) && places[i] < places[j])
    {
      TwoPositions(items, sorted, key, place, p, i, j);
    }
  }

  lemma InsertingStaysStable<T(!new)>(items: seq<T>, sorted: seq<T>, key: T -> nat, place: seq<nat>)
    requires items != [] && SortsTo(items[1..], sorted, key, place)
    ensures IsStableSort(items, Insert(items[0], sorted, key), key)
  {
    var p := Slot(items[0], sorted, key);
    InsertedBetween(items, sorted, key, place, p);
    var low, rest := sorted[..p], sorted[p..];
    InsertPassesSmaller(items[0], low, rest, key);
    assert low + rest == sorted && Between(sorted, p, items[0]) == low + [items[0]] + rest;
  }

  /** **Every stable sort over three keys is the three tiers, and only that.** */
  lemma AnyStableSortIsThreeTiers<T(!new)>(items: seq<T>, ordered: seq<T>, key: T -> nat)
    requires forall item :: item in items ==> key(item) <= 2
    ensures IsStableSort(items, ordered, key) <==> ordered == OfKey(items, key, 0) + (OfKey(items, key, 1) + OfKey(items, key, 2))
  {
    hide IsStableSort, OfKey, InsertionSort;
    TheSortIsThreeTiers(items, key);
    TheInsertionSortIsStable(items, key);
    if IsStableSort(items, ordered, key) {
      AnyStableSortIsTheInsertionSort(items, ordered, key);
    }
  }
}

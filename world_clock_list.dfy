/**
 * ClockScreen: the list of world clocks the user keeps, and the city picker
 * that adds to it. The list is state the screen mutates in place; the zone
 * catalogue, its sort and the search box are pure filters over zone ids.
 *
 * Saving the list to preferences after each change is not part of this model;
 * the list is in-memory state.
 */
module WorldClockList {
  import opened Common
  import opened Text
  import WorldClockCardView

  /** The cities the screen shows before anything has been saved. */
  const DEFAULT_CITIES: set<string> := {"America/New_York", "Europe/London"}

  predicate NoDup(xs: seq<string>) {
    forall i, j :: 0 <= i < j < |xs| ==> xs[i] != xs[j]
  }

  /** a keeps some of b's elements, in b's order. */
  predicate IsSubsequence(a: seq<string>, b: seq<string>)
    decreases |b|
  {
    a == [] || (b != [] && ((a[0] == b[0] && IsSubsequence(a[1..], b[1..])) || IsSubsequence(a, b[1..])))
  }

  /** Kotlin's `remove(element)` on a list: drops the first occurrence, if any. */
  function RemoveFirst(xs: seq<string>, z: string): (r: seq<string>)
    ensures z !in xs ==> r == xs
    ensures z in xs ==> |r| == |xs| - 1
    ensures IsSubsequence(r, xs)
    ensures multiset(r) == multiset(xs) - multiset{z}
  {
    if xs == [] then []
    else if xs[0] == z then
      SubsequenceOfSelf(xs[1..]);
      assert xs == [xs[0]] + xs[1..];
      xs[1..]
    else
      assert xs == [xs[0]] + xs[1..];
      [xs[0]] + RemoveFirst(xs[1..], z)
  }

  lemma {:induction false} SubsequenceOfSelf(xs: seq<string>)
    ensures IsSubsequence(xs, xs)
    decreases |xs|
  {
    if xs != [] {
      SubsequenceOfSelf(xs[1..]);
    }
  }

  /** On a list without duplicates, removing z leaves exactly the other elements, still without duplicates. */
  lemma RemoveFromNoDup(xs: seq<string>, z: string)
    requires NoDup(xs)
    ensures var r := RemoveFirst(xs, z);
      && NoDup(r)
      && forall x :: x in r <==> x in xs && x != z
  {
    var r := RemoveFirst(xs, z);
    MultisetNoDup(xs);
    forall x
      ensures x in r <==> x in xs && x != z
    {
      assert x in r <==> x in multiset(r);
      assert x in xs <==> x in multiset(xs);
    }
    forall x | x in multiset(r)
      ensures multiset(r)[x] == 1
    {
    }
    NoDupFromMultiset(r);
  }

  /** A list has no duplicates exactly when its multiset counts every element once. */
  lemma {:induction false} MultisetNoDup(xs: seq<string>)
    requires NoDup(xs)
    ensures forall x :: x in multiset(xs) ==> multiset(xs)[x] == 1
    decreases |xs|
  {
    if xs != [] {
      assert forall k :: 0 <= k < |xs| - 1 ==> xs[1..][k] == xs[k + 1];
      MultisetNoDup(xs[1..]);
      assert xs == [xs[0]] + xs[1..];
      assert xs[0] !in xs[1..];
    }
  }

  lemma {:induction false} NoDupFromMultiset(xs: seq<string>)
    requires forall x :: x in multiset(xs) ==> multiset(xs)[x] == 1
    ensures NoDup(xs)
    decreases |xs|
  {
    if xs != [] {
      assert xs == [xs[0]] + xs[1..];
      assert multiset(xs) == multiset{xs[0]} + multiset(xs[1..]);
      assert xs[0] in multiset(xs);
      assert multiset(xs)[xs[0]] == 1 + multiset(xs[1..])[xs[0]];
      assert xs[0] !in multiset(xs[1..]);
      forall x | x in multiset(xs[1..])
        ensures multiset(xs[1..])[x] == 1
      {
        assert multiset(xs)[x] == multiset(xs[1..])[x] + (if x == xs[0] then 1 else 0);
      }
      NoDupFromMultiset(xs[1..]);
      assert forall k :: 0 <= k < |xs| - 1 ==> xs[1..][k] == xs[k + 1];
    }
  }

  /**
   * The world clocks on the screen, and whether the city picker is open.
   */
  class WorldClocks {
    var clocks: seq<string>
    var showAddCitySheet: bool

    predicate Valid()
      reads this
    {
      NoDup(clocks)
    }

    /**
     * The list is seeded from the saved set of zone ids, or from the default
     * pair when nothing is saved; a set's iteration order is unspecified, so
     * any order of its elements may come out.
     */
    constructor(saved: Option<set<string>>)
      ensures Valid()
      ensures forall z :: z in clocks <==> z in (if saved.Some? then saved.value else DEFAULT_CITIES)
      ensures !showAddCitySheet
    {
      var source := if saved.Some? then saved.value else DEFAULT_CITIES;
      var rest := source;
      var list: seq<string> := [];
      while rest != {}
        invariant NoDup(list)
        invariant rest <= source
        invariant forall z :: z in source <==> z in list || z in rest
        invariant forall z :: z in list ==> z !in rest
        decreases |rest|
      {
        SomeString(rest);
        var z :| z in rest;
        list := list + [z];
        rest := rest - {z};
      }
      clocks := list;
      showAddCitySheet := false;
    }

    /** The add button opens the city picker. */
    method OpenAddCitySheet()
      modifies this
      ensures showAddCitySheet && clocks == old(clocks)
    {
      showAddCitySheet := true;
    }

    /** Dismissing the picker closes it and changes nothing else. */
    method DismissAddCitySheet()
      modifies this
      ensures !showAddCitySheet && clocks == old(clocks)
    {
      showAddCitySheet := false;
    }

    /** A card's remove button: the zone leaves the list, the others stay in order. */
    method Remove(zone: string)
      requires Valid()
      modifies this
      ensures Valid()
      ensures clocks == RemoveFirst(old(clocks), zone)
      ensures forall z :: z in clocks <==> z in old(clocks) && z != zone
      ensures showAddCitySheet == old(showAddCitySheet)
    {
      RemoveFromNoDup(clocks, zone);
      clocks := RemoveFirst(clocks, zone);
    }

    /**
     * Picking a city appends it unless it is already listed; the picker
     * closes either way.
     */
    method SelectCity(zone: string)
      requires Valid()
      modifies this
      ensures Valid()
      ensures zone in old(clocks) ==> clocks == old(clocks)
      ensures zone !in old(clocks) ==> clocks == old(clocks) + [zone]
      ensures !showAddCitySheet
    {
      if zone !in clocks {
        clocks := clocks + [zone];
      }
      showAddCitySheet := false;
    }
  }

  /** The zones the picker offers: regional ids, without the `Etc/` and `SystemV/` families. */
  predicate Selectable(zone: string) {
    Contains(zone, "/") && !StartsWith(zone, "Etc") && !StartsWith(zone, "System")
  }

  /** Kotlin's `filter`: the elements satisfying p, in their order. */
  function Filter(xs: seq<string>, p: string -> bool): (r: seq<string>)
    ensures forall z :: z in r <==> z in xs && p(z)
    ensures IsSubsequence(r, xs)
    ensures multiset(r) <= multiset(xs)
    ensures NoDup(xs) ==> NoDup(r)
    decreases |xs|
  {
    if xs == [] then []
    else
      var rest := Filter(xs[1..], p);
      assert xs == [xs[0]] + xs[1..];
      if p(xs[0]) then
        assert xs[0] in multiset(xs);
        [xs[0]] + rest
      else rest
  }

  /** java.lang.String's natural order: by characters from the left, a proper prefix first. */
  predicate Below(a: string, b: string)
    decreases |a|
  {
    a == [] || (b != [] && (a[0] < b[0] || (a[0] == b[0] && Below(a[1..], b[1..]))))
  }

  lemma {:induction false} BelowTotal(a: string, b: string)
    ensures Below(a, b) || Below(b, a)
    decreases |a|
  {
    if a != [] && b != [] && a[0] == b[0] {
      BelowTotal(a[1..], b[1..]);
    }
  }

  lemma {:induction false} BelowTransitive(a: string, b: string, c: string)
    requires Below(a, b) && Below(b, c)
    ensures Below(a, c)
    decreases |a|
  {
    if a != [] && a[0] == b[0] && b[0] == c[0] {
      BelowTransitive(a[1..], b[1..], c[1..]);
    }
  }

  lemma {:induction false} BelowAntisymmetric(a: string, b: string)
    requires Below(a, b) && Below(b, a)
    ensures a == b
    decreases |a|
  {
    if a != [] {
      BelowAntisymmetric(a[1..], b[1..]);
      assert a == [a[0]] + a[1..];
      assert b == [b[0]] + b[1..];
    }
  }

  predicate Sorted(xs: seq<string>) {
    forall i, j :: 0 <= i < j < |xs| ==> Below(xs[i], xs[j])
  }

  /** One step of insertion sort: x goes before the first element it is below. */
  function Insert(x: string, xs: seq<string>): (r: seq<string>)
    requires Sorted(xs)
    ensures Sorted(r)
    ensures multiset(r) == multiset(xs) + multiset{x}
    decreases |xs|
  {
    if xs == [] then [x]
    else if Below(x, xs[0]) then
      InsertAtFront(x, xs);
      [x] + xs
    else
      BelowTotal(x, xs[0]);
      var rest := Insert(x, xs[1..]);
      assert xs == [xs[0]] + xs[1..];
      InsertBehind(xs[0], x, xs[1..], rest);
      [xs[0]] + rest
  }

  lemma InsertAtFront(x: string, xs: seq<string>)
    requires Sorted(xs) && xs != [] && Below(x, xs[0])
    ensures Sorted([x] + xs)
  {
    var r := [x] + xs;
    forall i, j | 0 <= i < j < |r|
      ensures Below(r[i], r[j])
    {
      assert r[j] == xs[j - 1];
      if i > 0 {
        assert r[i] == xs[i - 1];
      } else if j > 1 {
        BelowTransitive(x, xs[0], xs[j - 1]);
      }
    }
  }

  lemma InsertBehind(h: string, x: string, tail: seq<string>, rest: seq<string>)
    requires Sorted([h] + tail) && Below(h, x)
    requires Sorted(rest) && multiset(rest) == multiset(tail) + multiset{x}
    ensures Sorted([h] + rest)
  {
    var r := [h] + rest;
    forall i, j | 0 <= i < j < |r|
      ensures Below(r[i], r[j])
    {
      var y := rest[j - 1];
      assert r[j] == y;
      if i > 0 {
        assert r[i] == rest[i - 1];
      } else {
        assert y in multiset(rest);
        if y != x {
          assert y in multiset(tail);
          assert y in tail;
          var k :| 0 <= k < |tail| && tail[k] == y;
          assert ([h] + tail)[k + 1] == y && ([h] + tail)[0] == h;
        }
      }
    }
  }

  /** Kotlin's `sorted()` on strings (insertion sort; the order of equal strings cannot be seen). */
  function Sort(xs: seq<string>): (r: seq<string>)
    ensures Sorted(r)
    ensures multiset(r) == multiset(xs)
    decreases |xs|
  {
    if xs == [] then []
    else
      assert xs == [xs[0]] + xs[1..];
      Insert(xs[0], Sort(xs[1..]))
  }

  /** Two sorted lists with the same elements are the same list. */
  lemma {:induction false} SortedUnique(a: seq<string>, b: seq<string>)
    requires Sorted(a) && Sorted(b) && multiset(a) == multiset(b)
    ensures a == b
    decreases |a|
  {
    if a != [] {
      assert |b| == |multiset(b)| == |multiset(a)| == |a|;
      assert a[0] in multiset(b) && b[0] in multiset(a);
      HeadIsLeast(a, b[0]);
      HeadIsLeast(b, a[0]);
      BelowAntisymmetric(a[0], b[0]);
      assert a == [a[0]] + a[1..];
      assert b == [b[0]] + b[1..];
      assert multiset(a[1..]) == multiset(a) - multiset{a[0]};
      assert multiset(b[1..]) == multiset(b) - multiset{b[0]};
      SortedTail(a);
      SortedTail(b);
      SortedUnique(a[1..], b[1..]);
    }
  }

  lemma HeadIsLeast(a: seq<string>, y: string)
    requires Sorted(a) && y in multiset(a)
    ensures Below(a[0], y)
  {
    assert y in a;
    var i :| 0 <= i < |a| && a[i] == y;
    if i == 0 {
      BelowTotal(y, y);
    }
  }

  lemma SortedTail(a: seq<string>)
    requires Sorted(a) && a != []
    ensures Sorted(a[1..])
  {
    forall i, j | 0 <= i < j < |a| - 1
      ensures Below(a[1..][i], a[1..][j])
    {
      assert a[1..][i] == a[i + 1] && a[1..][j] == a[j + 1];
    }
  }

  /**
   * The picker's catalogue: the selectable ids among the available ones,
   * sorted ascending.
   */
  function AllZones(available: seq<string>): seq<string> {
    Sort(Filter(available, Selectable))
  }

  /**
   * The catalogue holds exactly the selectable zones, sorted, each once; and
   * since it is determined by its elements, the order in which the platform
   * lists the available ids does not matter.
   */
  lemma AllZonesMeaning(available: seq<string>)
    requires NoDup(available)
    ensures var r := AllZones(available);
      && Sorted(r) && NoDup(r)
      && forall z :: z in r <==> z in available && Selectable(z)
  {
    var f := Filter(available, Selectable);
    var r := Sort(f);
    MultisetNoDup(f);
    forall x | x in multiset(r)
      ensures multiset(r)[x] == 1
    {
    }
    NoDupFromMultiset(r);
    forall z
      ensures z in r <==> z in f
    {
      assert z in r <==> z in multiset(r);
      assert z in f <==> z in multiset(f);
    }
  }

  lemma AllZonesIgnoreOrder(a: seq<string>, b: seq<string>)
    requires multiset(a) == multiset(b)
    ensures AllZones(a) == AllZones(b)
  {
    FilterByMultiset(a, b, Selectable);
    SortedUnique(AllZones(a), AllZones(b));
  }

  lemma {:induction false} FilterMultiset(xs: seq<string>, p: string -> bool)
    ensures forall z :: multiset(Filter(xs, p))[z] == if p(z) then multiset(xs)[z] else 0
    decreases |xs|
  {
    if xs != [] {
      FilterMultiset(xs[1..], p);
      assert xs == [xs[0]] + xs[1..];
    }
  }

  lemma FilterByMultiset(a: seq<string>, b: seq<string>, p: string -> bool)
    requires multiset(a) == multiset(b)
    ensures multiset(Filter(a, p)) == multiset(Filter(b, p))
  {
    FilterMultiset(a, p);
    FilterMultiset(b, p);
  }

  /** The search box: an empty query keeps every zone, any other keeps those containing it, ignoring case. */
  function Search(zones: seq<string>, query: string): (r: seq<string>)
    ensures IsSubsequence(r, zones)
    ensures forall z :: z in r <==> z in zones && (query == [] || ContainsIgnoreCase(z, query))
    ensures NoDup(zones) ==> NoDup(r)
  {
    if query == [] then
      SubsequenceOfSelf(zones);
      zones
    else Filter(zones, z => ContainsIgnoreCase(z, query))
  }

  /** The empty-query shortcut agrees with filtering by the empty query, which every zone contains. */
  lemma EmptyQueryFiltersNothing(zones: seq<string>)
    ensures Filter(zones, z => ContainsIgnoreCase(z, "")) == Search(zones, "")
  {
    forall z: string
      ensures ContainsIgnoreCase(z, "")
    {
      assert StartsWith(Lower(z), Lower(""));
    }
    FilterAll(zones, z => ContainsIgnoreCase(z, ""));
  }

  lemma {:induction false} FilterAll(xs: seq<string>, p: string -> bool)
    requires forall z :: p(z)
    ensures Filter(xs, p) == xs
    decreases |xs|
  {
    if xs != [] {
      FilterAll(xs[1..], p);
      assert xs == [xs[0]] + xs[1..];
    }
  }

  /** What a picker row shows for a zone: the city (last '/'-piece, '_' as ' ') above the region (first piece). */
  datatype CityRow = CityRow(city: string, region: string)

  function RowFor(zone: string): (r: CityRow)
    ensures '/' !in r.region && StartsWith(zone, r.region)
    ensures |r.region| < |zone| ==> zone[|r.region|] == '/'
  {
    var parts := Split(zone, '/');
    FirstPieceIsBeforeFirst(zone, '/');
    CityRow(ReplaceChar(parts[|parts| - 1], '_', ' '), parts[0])
  }

  /** The first piece of `split(c)` is the text before the first c. */
  lemma {:induction false} FirstPieceIsBeforeFirst(s: string, c: char)
    ensures var p := Split(s, c)[0];
      && c !in p && StartsWith(s, p)
      && (|p| < |s| ==> s[|p|] == c)
    decreases |s|
  {
    if s != [] && s[0] != c {
      FirstPieceIsBeforeFirst(s[1..], c);
    }
  }

  /** The picker row names the city exactly as the card does once the zone is on the list. */
  lemma RowCityIsCardTitle(zone: string)
    ensures RowFor(zone).city == WorldClockCardView.CityName(zone)
  {
    var parts := Split(zone, '/');
    LastPieceIsAfterLast(zone, '/');
    assert RowFor(zone).city == ReplaceChar(parts[|parts| - 1], '_', ' ');
  }

  /** A row is followed by a divider when its zone differs from the last zone shown. */
  predicate HasDivider(zones: seq<string>, i: int)
    requires 0 <= i < |zones|
  {
    zones[|zones| - 1] != zones[i]
  }

  /** In a list without duplicates, every row but the last has a divider. */
  lemma DividerAllButLast(zones: seq<string>, i: int)
    requires NoDup(zones) && 0 <= i < |zones|
    ensures HasDivider(zones, i) <==> i != |zones| - 1
  {
  }
}

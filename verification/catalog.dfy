/**
  The location catalog loaded when the page opens (`onPageLoad` in
  client/app.js): the names the server returns are sorted and appended after
  the selector's first option, which is kept as a placeholder.
 */
module Catalog {
  import opened Common
  import opened LexOrder

  /** Every name sorts at or before every later name. */
  ghost predicate Sorted(s: seq<string>)
  {
    forall i, j :: 0 <= i < j < |s| ==> LexLe(s[i], s[j])
  }

  /** Prepending a name that sorts at or before the head keeps a sequence sorted. */
  lemma SortedCons(h: string, t: seq<string>)
    requires Sorted(t)
    requires |t| > 0 ==> LexLe(h, t[0])
    ensures Sorted([h] + t)
  {
    var s := [h] + t;
    forall i, j | 0 <= i < j < |s| ensures LexLe(s[i], s[j]) {
      if i > 0 {
        assert s[i] == t[i - 1] && s[j] == t[j - 1];
      } else if j > 1 {
        assert s[j] == t[j - 1];
        LexLeTransitive(h, t[0], t[j - 1]);
      }
    }
  }

  lemma SortedHeadBelowAll(s: seq<string>, y: string)
    requires Sorted(s) && y in s
    ensures LexLe(s[0], y)
  {
    var i :| 0 <= i < |s| && s[i] == y;
    if i == 0 {
      LexLeReflexive(y);
    }
  }

  /** Inserts `x` into an already sorted sequence, before the first name it sorts at or before. */
  function Insert(x: string, s: seq<string>): (r: seq<string>)
    requires Sorted(s)
    ensures Sorted(r)
    ensures multiset(r) == multiset(s) + multiset{x}
    ensures |r| == |s| + 1
    ensures r[0] == x || (|s| > 0 && r[0] == s[0])
    decreases |s|
  {
    if |s| == 0 then [x]
    else if LexLe(x, s[0]) then
      SortedCons(x, s);
      [x] + s
    else
      SortedTail(s);
      var rest := Insert(x, s[1..]);
      assert LexLe(s[0], rest[0]) by {
        LexLeTotal(x, s[0]);
      }
      SortedCons(s[0], rest);
      assert s == [s[0]] + s[1..];
      [s[0]] + rest
  }

  /** The names in the order `Array.prototype.sort()` leaves them, computed by insertion sort. */
  function SortNames(s: seq<string>): (r: seq<string>)
    ensures Sorted(r)
    ensures multiset(r) == multiset(s)
    ensures |r| == |s|
    decreases |s|
  {
    if |s| == 0 then []
    else
      assert s == [s[0]] + s[1..];
      Insert(s[0], SortNames(s[1..]))
  }

  /** Two sorted arrangements of the same names are identical, so the
      result does not depend on which sorting algorithm the browser uses. */
  lemma {:induction false} SortedPermutationUnique(a: seq<string>, b: seq<string>)
    requires Sorted(a) && Sorted(b)
    requires multiset(a) == multiset(b)
    ensures a == b
    decreases |a|
  {
    assert |a| == |multiset(a)| == |multiset(b)| == |b|;
    if |a| > 0 {
      SortedHeadsAgree(a, b);
      TailsSameNames(a, b);
      SortedTail(a);
      SortedTail(b);
      SortedPermutationUnique(a[1..], b[1..]);
      assert a == [a[0]] + a[1..] && b == [b[0]] + b[1..];
    }
  }

  lemma SortedHeadsAgree(a: seq<string>, b: seq<string>)
    requires Sorted(a) && Sorted(b)
    requires multiset(a) == multiset(b)
    requires |a| > 0 && |b| > 0
    ensures a[0] == b[0]
  {
    assert a[0] in multiset(b) && b[0] in multiset(a);
    SortedHeadBelowAll(a, b[0]);
    SortedHeadBelowAll(b, a[0]);
    LexLeAntisymmetric(a[0], b[0]);
  }

  lemma TailsSameNames(a: seq<string>, b: seq<string>)
    requires multiset(a) == multiset(b)
    requires |a| > 0 && |b| > 0 && a[0] == b[0]
    ensures multiset(a[1..]) == multiset(b[1..])
  {
    assert a == [a[0]] + a[1..] && b == [b[0]] + b[1..];
    assert multiset(a) == multiset{a[0]} + multiset(a[1..]);
    assert multiset(b) == multiset{b[0]} + multiset(b[1..]);
    assert multiset(a[1..]) == multiset(a) - multiset{a[0]};
    assert multiset(b[1..]) == multiset(b) - multiset{b[0]};
  }

  lemma SortedTail(s: seq<string>)
    requires Sorted(s) && |s| > 0
    ensures Sorted(s[1..])
  {
  }

  /** What the location endpoint's body holds under `locations`; `Missing` also covers an absent or null body. */
  datatype LocationsField = Missing | NotAnArray | Names(names: seq<string>)

  /** How the location request ended. */
  datatype CatalogReply = Received(locations: LocationsField) | TransportFailed

  /** The selector's options and the error banner shown, if any. */
  datatype Loaded = Loaded(options: seq<string>, error: Option<string>)

  const MalformedCatalogMessage: string := "\U{274C} Failed to load locations"
  const CatalogUnreachableMessage: string := "\U{274C} Unable to connect to server. Please refresh the page."

  /** The options left after removing every option but the first. */
  function KeptPlaceholder(options: seq<string>): (kept: seq<string>)
    ensures |kept| == if |options| == 0 then 0 else 1
    ensures kept <= options
  {
    if |options| == 0 then [] else options[..1]
  }

  /** The selector after the location request completes. */
  function LoadLocations(options: seq<string>, reply: CatalogReply): (r: Loaded)
    ensures reply.Received? && reply.locations.Names? ==>
              var kept := KeptPlaceholder(options);
              var names := reply.locations.names;
              && r.error == None
              && |r.options| == |kept| + |names|
              && r.options[..|kept|] == kept
              && Sorted(r.options[|kept|..])
              && multiset(r.options[|kept|..]) == multiset(names)
    ensures reply.Received? && !reply.locations.Names? ==> r == Loaded(options, Some(MalformedCatalogMessage))
    ensures reply.TransportFailed? ==> r == Loaded(options, Some(CatalogUnreachableMessage))
  {
    match reply
    case Received(Names(names)) =>
      var kept := KeptPlaceholder(options);
      var sorted := SortNames(names);
      assert (kept + sorted)[|kept|..] == sorted;
      Loaded(kept + sorted, None)
    case Received(_) => Loaded(options, Some(MalformedCatalogMessage))
    case TransportFailed => Loaded(options, Some(CatalogUnreachableMessage))
  }

  /** A successful load keeps the placeholder, if there is one, in front and
      lists every returned name, duplicates included, in the one sorted order. */
  lemma LoadedCatalogIsTheSortedNames(options: seq<string>, names: seq<string>, sorted: seq<string>)
    requires Sorted(sorted) && multiset(sorted) == multiset(names)
    ensures LoadLocations(options, Received(Names(names))).options == KeptPlaceholder(options) + sorted
  {
    var r := LoadLocations(options, Received(Names(names)));
    var k := |KeptPlaceholder(options)|;
    SortedPermutationUnique(r.options[k..], sorted);
    assert r.options == r.options[..k] + r.options[k..];
  }
}

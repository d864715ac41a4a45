/** Map keys in text order: what collecting the keys of a map and sorting them gives. */
module TextKeys {
  import opened Values
  import opened Paging

  const TextLess: (string, string) -> bool := (a, b) => CompareText(a, b) < 0

  const AnyText: string -> bool := s => true

  lemma TextOrder()
    ensures StrictOrder(TextLess, AnyText)
  {
    forall a, b, c | TextLess(a, b) && TextLess(b, c)
      ensures TextLess(a, c)
    {
      TextTransitive(a, b, c);
    }
    forall a
      ensures !TextLess(a, a)
    {
      TextOpposite(a, a);
    }
  }

  /** The keys in order. */
  ghost predicate Listed(keys: set<string>, listing: seq<string>) {
    Ascending(listing, TextLess) && forall k :: k in listing <==> k in keys
  }

  lemma ListedOnce(keys: set<string>, one: seq<string>, two: seq<string>)
    requires Listed(keys, one) && Listed(keys, two)
    ensures one == two
  {
    TextOrder();
    AscendingUnique(one, two, TextLess, AnyText);
  }

  predicate NoRepeats<T(==)>(xs: seq<T>) {
    forall i, j :: 0 <= i < j < |xs| ==> xs[i] != xs[j]
  }

  /** Sorting any enumeration of the keys lists them. */
  lemma SortLists(keys: set<string>, found: seq<string>)
    requires NoRepeats(found) && forall k :: k in found <==> k in keys
    ensures Listed(keys, Sort(found, TextLess))
  {
    hide CompareText, Sort;
    TextOrder();
    forall i, j | 0 <= i < j < |found|
      ensures TextLess(found[i], found[j]) || TextLess(found[j], found[i])
    {
      TextOpposite(found[i], found[j]);
    }
    SortAscending(found, TextLess, AnyText);
    SortHolds(found, TextLess);
  }

  lemma {:induction false} Enumerable(keys: set<string>) returns (found: seq<string>)
    ensures NoRepeats(found) && forall k :: k in found <==> k in keys
    decreases keys
  {
    if keys == {} {
      found := [];
    } else {
      var k :| k in keys;
      found := Enumerable(keys - {k});
      found := found + [k];
    }
  }

  lemma ListingExists(keys: set<string>)
    ensures exists listing :: Listed(keys, listing)
  {
    var found := Enumerable(keys);
    SortLists(keys, found);
  }

  ghost function SortedKeys(keys: set<string>): (listing: seq<string>)
    ensures Listed(keys, listing)
  {
    ListingExists(keys);
    var listing :| Listed(keys, listing);
    listing
  }

  /** Collects the keys in whatever order the map yields them, then sorts. */
  method SortKeys(keys: set<string>) returns (listing: seq<string>)
    ensures listing == SortedKeys(keys)
  {
    hide Sort, Listed;
    var found: seq<string> := [];
    var rest := keys;
    while rest != {}
      invariant rest <= keys && forall k :: k in found <==> k in keys && k !in rest
      invariant NoRepeats(found)
      decreases rest
    {
      var k :| k in rest;
      found, rest := found + [k], rest - {k};
    }
    listing := Sort(found, TextLess);
    SortLists(keys, found);
    ListedOnce(keys, listing, SortedKeys(keys));
  }

  lemma ListedDistinct(keys: set<string>, listing: seq<string>)
    requires Listed(keys, listing)
    ensures NoRepeats(listing)
  {
    TextOrder();
  }
}

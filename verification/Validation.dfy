/** Checking a decoded request against the constraints of its shape: every member is
    looked at once, and the list of violations is empty exactly for valid input. */
module Validation {
  import opened Values
  import opened Paging
  import opened TextKeys
  import opened Decoding

  // ---- the order of a Java hash table

  /** UTF-16 code units. */
  function Units(c: char): seq<bv32> {
    var n := c as int;
    if n < 0x10000 then [n as bv32]
    else [(0xD800 + (n - 0x10000) / 0x400) as bv32, (0xDC00 + (n - 0x10000) % 0x400) as bv32]
  }

  function HashFrom(h: bv32, units: seq<bv32>): bv32
    decreases |units|
  {
    if units == [] then h else HashFrom(31 * h + units[0], units[1..])
  }

  function JavaHash(s: string): bv32 {
    if s == [] then 0 else HashFrom(JavaHash(s[..|s| - 1]), Units(s[|s| - 1]))
  }

  function Masked(s: string, capacity: bv32): bv32 {
    var h := JavaHash(s);
    (h ^ (h >> 16)) & (capacity - 1)
  }

  function Bucket(s: string, capacity: bv32): nat { Masked(s, capacity) as nat }

  function ByBucket(capacity: bv32): (string, string) -> bool {
    (a: string, b: string) => Bucket(a, capacity) < Bucket(b, capacity)
  }

  /** Stable: keys that share a bucket keep their order. */
  function JavaOrder(keys: seq<string>, capacity: bv32): seq<string> {
    Sort(keys, ByBucket(capacity))
  }

  /** The buckets come in order, and within each bucket b its keys as they were. */
  lemma JavaOrderExact(keys: seq<string>, capacity: bv32, b: nat)
    ensures var r := JavaOrder(keys, capacity);
            forall i, j :: 0 <= i < j < |r| ==> Bucket(r[i], capacity) <= Bucket(r[j], capacity)
    ensures Picked(JavaOrder(keys, capacity), k => Bucket(k, capacity) == b) == Picked(keys, k => Bucket(k, capacity) == b)
  {
    hide Bucket;
    BucketsOrdered(capacity);
    var p := (k: string) => Bucket(k, capacity) == b;
    SortRising(keys, ByBucket(capacity), (k: string) => true);
    SortStable(keys, ByBucket(capacity), p);
    var r := JavaOrder(keys, capacity);
    forall i, j | 0 <= i < j < |r|
      ensures Bucket(r[i], capacity) <= Bucket(r[j], capacity)
    {
      assert !ByBucket(capacity)(r[j], r[i]);
    }
    assert p == (k => Bucket(k, capacity) == b);
  }

  lemma BucketsOrdered(capacity: bv32)
    ensures WeakOrder(ByBucket(capacity), (k: string) => true)
  {
    hide Bucket;
  }

  lemma MaskedWithin(s: string, capacity: bv32)
    requires capacity > 0
    ensures Masked(s, capacity) < capacity
  {
    hide JavaHash;
  }

  const MAX_CAPACITY := 0x4000_0000
  const MEMBER_ORDER_CAPACITY: bv32 := 64

  /** The table size after n insertions: it has doubled until three quarters hold n. */
  function TableSize(n: nat, c: nat): (size: nat)
    requires 16 <= c <= MAX_CAPACITY
    ensures c <= size < 2 * MAX_CAPACITY
    decreases MAX_CAPACITY - c
  {
    if c < MAX_CAPACITY && n > c * 3 / 4 then
      if c * 2 <= MAX_CAPACITY then TableSize(n, c * 2) else c * 2
    else c
  }

  /** `hashCapacity`. */
  method HashCapacity(n: nat) returns (c: nat)
    ensures c == TableSize(n, 16) && 16 <= c <= MAX_CAPACITY
    ensures n <= c * 3 / 4 || c == MAX_CAPACITY
    ensures c > 16 ==> n > (c / 2) * 3 / 4
  {
    c := 16;
    ghost var e := 4;
    while c < MAX_CAPACITY && n > c * 3 / 4
      invariant 4 <= e <= 30 && c == Power(e) && 16 <= c <= MAX_CAPACITY
      invariant TableSize(n, 16) == TableSize(n, c)
      invariant c > 16 ==> n > (c / 2) * 3 / 4
      decreases MAX_CAPACITY - c
    {
      PowerStep(e);
      c := c * 2;
      e := e + 1;
    }
  }

  function Power(e: nat): nat { if e == 0 then 1 else 2 * Power(e - 1) }

  lemma PowerStep(e: nat)
    requires 4 <= e <= 30 && Power(e) < MAX_CAPACITY
    ensures Power(e + 1) == 2 * Power(e) && Power(e + 1) <= MAX_CAPACITY && e < 30
  {
    assert Power(3) == 8 && Power(6) == 64 && Power(9) == 512 && Power(12) == 4096;
    assert Power(15) == 32768 && Power(18) == 262144 && Power(21) == 2097152 && Power(24) == 16777216;
    assert Power(27) == 134217728 && Power(30) == MAX_CAPACITY;
    if e < 30 {
      PowerGrows(e + 1, 30);
    }
  }

  lemma {:induction false} PowerGrows(d: nat, e: nat)
    requires d <= e
    ensures Power(d) <= Power(e)
  {
    if d < e {
      PowerGrows(d, e - 1);
    }
  }

  lemma SizeFits(n: nat)
    ensures TableSize(n, 16) <= MAX_CAPACITY
  {
    var e := 4;
    var c: nat := 16;
    while c < MAX_CAPACITY && n > c * 3 / 4
      invariant 4 <= e <= 30 && c == Power(e) && 16 <= c <= MAX_CAPACITY
      invariant TableSize(n, 16) == TableSize(n, c)
      decreases MAX_CAPACITY - c
    {
      PowerStep(e);
      c := c * 2;
      e := e + 1;
    }
  }

  function Capacity(n: nat): bv32 {
    SizeFits(n);
    TableSize(n, 16) as bv32
  }

  /** `mapKeys`. */
  ghost function MapKeys(keys: set<string>): seq<string> {
    JavaOrder(SortedKeys(keys), Capacity(|SortedKeys(keys)|))
  }

  lemma InMapKeys(keys: set<string>)
    ensures forall k :: k in MapKeys(keys) <==> k in keys
  {
    SortHolds(SortedKeys(keys), ByBucket(Capacity(|SortedKeys(keys)|)));
  }

  // ---- members in order

  function Names(lex: Lex, members: seq<Member>): (names: seq<string>)
    ensures |names| == |members| && forall i :: 0 <= i < |members| ==> names[i] == lex.lowerFirst(members[i].name)
  {
    seq(|members|, i requires 0 <= i < |members| => lex.lowerFirst(members[i].name))
  }

  function Index(names: seq<string>, name: string): (i: nat)
    requires name in names
    ensures i < |names| && names[i] == name && forall j :: 0 <= j < i ==> names[j] != name
  {
    if names[0] == name then 0 else 1 + Index(names[1..], name)
  }

  /** The members in the order they are checked. */
  function Ordered(lex: Lex, members: seq<Member>): (ms: seq<Member>)
    ensures forall m :: m in ms ==> m in members
  {
    var names := Names(lex, members);
    var order := JavaOrder(names, MEMBER_ORDER_CAPACITY);
    SortHolds(names, ByBucket(MEMBER_ORDER_CAPACITY));
    seq(|order|, i requires 0 <= i < |order| => assert order[i] in order; members[Index(names, order[i])])
  }

  /** As long as no two names differ only in the case of the first letter, the order
      is a rearrangement: every member comes exactly once. */
  lemma OrderedOnce(lex: Lex, members: seq<Member>)
    requires NoRepeats(Names(lex, members))
    ensures multiset(Ordered(lex, members)) == multiset(members)
    ensures forall m :: m in Ordered(lex, members) <==> m in members
  {
    hide Sort;
    var names := Names(lex, members);
    var order := JavaOrder(names, MEMBER_ORDER_CAPACITY);
    SortHolds(names, ByBucket(MEMBER_ORDER_CAPACITY));
    assert Looked(members, names, names) == members by {
      forall i | 0 <= i < |members|
        ensures Looked(members, names, names)[i] == members[i]
      {
        assert names[i] in names;
        assert Index(names, names[i]) == i;
      }
    }
    assert Looked(members, names, order) == Ordered(lex, members);
    Rearranged(members, names, order, names);
    assert forall m :: m in Ordered(lex, members) <==> m in multiset(Ordered(lex, members));
    assert forall m :: m in members <==> m in multiset(members);
  }

  function Looked(members: seq<Member>, names: seq<string>, order: seq<string>): seq<Member>
    requires |names| == |members| && forall k :: k in order ==> k in names
  {
    seq(|order|, i requires 0 <= i < |order| => assert order[i] in order; members[Index(names, order[i])])
  }

  /** Looking up a rearranged list of names rearranges what is found. */
  lemma {:induction false} Rearranged(members: seq<Member>, names: seq<string>, xs: seq<string>, ys: seq<string>)
    requires |names| == |members| && multiset(xs) == multiset(ys)
    requires (forall k :: k in xs ==> k in names) && (forall k :: k in ys ==> k in names)
    ensures multiset(Looked(members, names, xs)) == multiset(Looked(members, names, ys))
  {
    hide Looked;
    if xs == [] {
      assert |multiset(ys)| == 0;
    } else {
      var n := |xs| - 1;
      var x := xs[n];
      assert x in multiset(xs) && x in ys;
      var j :| 0 <= j < |ys| && ys[j] == x;
      var zs := ys[..j] + ys[j + 1..];
      assert xs == xs[..n] + [x];
      assert ys == ys[..j] + [x] + ys[j + 1..];
      assert multiset(zs) == multiset(ys) - multiset{x};
      assert multiset(xs[..n]) == multiset(xs) - multiset{x};
      Rearranged(members, names, xs[..n], zs);
      LookedAppend(members, names, xs[..n], [x]);
      LookedAppend(members, names, ys[..j] + [x], ys[j + 1..]);
      LookedAppend(members, names, ys[..j], [x]);
      LookedAppend(members, names, ys[..j], ys[j + 1..]);
    }
  }

  lemma LookedAppend(members: seq<Member>, names: seq<string>, xs: seq<string>, ys: seq<string>)
    requires |names| == |members| && (forall k :: k in xs ==> k in names) && (forall k :: k in ys ==> k in names)
    ensures Looked(members, names, xs + ys) == Looked(members, names, xs) + Looked(members, names, ys)
  {
    var zs := xs + ys;
    assert forall i :: 0 <= i < |xs| ==> zs[i] == xs[i] && xs[i] in xs;
    assert forall i :: 0 <= i < |ys| ==> zs[|xs| + i] == ys[i] && ys[i] in ys;
  }
}

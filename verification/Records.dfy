/** Stream records and the changes they report: retention as a filter, sequence
    numbers as an order, and replaying a log over a table. */
module Records {
  import opened Values

  /** An item's file name: the MD5 of its key attributes, as a number. */
  type Key = nat

  type Table = map<Key, Item>

  datatype Event = INSERT | MODIFY | REMOVE

  datatype View = KeysOnly | NewOnly | OldOnly | NewAndOld

  datatype Record = Record(
    event: Event,
    view: View,
    keys: Item,
    newImage: Option<Item>,
    oldImage: Option<Item>,
    seqNum: nat,
    createdAt: int)

  /** 24 hours in nanoseconds. */
  const RETENTION := 86_400_000_000_000

  // ---- retention

  /** The records created after the cutoff, in order. */
  function Newer(records: seq<Record>, cutoff: int): seq<Record> {
    if records == [] then []
    else
      var init, last := Newer(records[..|records| - 1], cutoff), records[|records| - 1];
      if last.createdAt > cutoff then init + [last] else init
  }

  lemma NewerAppend(records: seq<Record>, r: Record, cutoff: int)
    ensures Newer(records + [r], cutoff)
            == Newer(records, cutoff) + (if r.createdAt > cutoff then [r] else [])
  {
    assert (records + [r])[..|records|] == records;
  }

  /** A later cutoff only looks at what an earlier one kept. */
  lemma {:induction false} NewerNewer(records: seq<Record>, cutoff: int, later: int)
    requires cutoff <= later
    ensures Newer(Newer(records, cutoff), later) == Newer(records, later)
  {
    if records != [] {
      var init, last := records[..|records| - 1], records[|records| - 1];
      NewerNewer(init, cutoff, later);
      if last.createdAt > cutoff {
        NewerAppend(Newer(init, cutoff), last, later);
      }
    }
  }

  lemma {:induction false} NewerSize(records: seq<Record>, cutoff: int)
    ensures |Newer(records, cutoff)| <= |records|
    ensures |Newer(records, cutoff)| == |records| ==> Newer(records, cutoff) == records
    ensures forall r :: r in Newer(records, cutoff) <==> r in records && r.createdAt > cutoff
  {
    if records != [] {
      var init, last := records[..|records| - 1], records[|records| - 1];
      NewerSize(init, cutoff);
      assert records == init + [last];
    }
  }

  // ---- sequence numbers

  predicate Increasing(records: seq<Record>) {
    forall i, j :: 0 <= i < j < |records| ==> records[i].seqNum < records[j].seqNum
  }

  predicate AtMost(records: seq<Record>, n: nat) {
    forall r :: r in records ==> r.seqNum <= n
  }

  lemma {:induction false} NewerIncreasing(records: seq<Record>, cutoff: int)
    requires Increasing(records)
    ensures Increasing(Newer(records, cutoff))
  {
    if records != [] {
      var init, last := records[..|records| - 1], records[|records| - 1];
      NewerIncreasing(init, cutoff);
      NewerSize(init, cutoff);
      forall r | r in init
        ensures r.seqNum < last.seqNum
      {
        var i :| 0 <= i < |init| && init[i] == r;
        assert records[i] == r;
      }
      IncreasingSnoc(Newer(init, cutoff), last);
    }
  }

  lemma IncreasingSnoc(records: seq<Record>, r: Record)
    requires Increasing(records) && forall x :: x in records ==> x.seqNum < r.seqNum
    ensures Increasing(records + [r])
  {
  }

  lemma IncreasingAppend(records: seq<Record>, r: Record, n: nat)
    requires Increasing(records) && AtMost(records, n) && r.seqNum > n
    ensures Increasing(records + [r]) && AtMost(records + [r], r.seqNum)
  {
  }

  // ---- changes and what they are reported as

  /** One change of one item. `shown` is the image handed on as the previous one. */
  datatype Change = Change(key: Key, before: Option<Item>, after: Option<Item>, shown: Option<Item>)

  predicate CarriesNew(v: View) { v.NewOnly? || v.NewAndOld? }

  predicate CarriesOld(v: View) { v.OldOnly? || v.NewAndOld? }

  /** r reports c under its view type. */
  predicate Reports(r: Record, c: Change) {
    && (c.after.None? <==> r.event == REMOVE)
    && (c.before.None? <==> r.event == INSERT)
    && r.newImage == (if CarriesNew(r.view) then c.after else None)
    && r.oldImage == (if CarriesOld(r.view) then c.shown else None)
  }

  function Put(t: Table, k: Key, v: Option<Item>): Table {
    if v.Some? then t[k := v.value] else t - {k}
  }

  function At(t: Table, k: Key): Option<Item> {
    if k in t then Some(t[k]) else None
  }

  function Played(changes: seq<Change>, t: Table): Table {
    if changes == [] then t
    else
      var c := changes[|changes| - 1];
      Put(Played(changes[..|changes| - 1], t), c.key, c.after)
  }

  /** The changes lead from one table to the other, and each starts from what was there. */
  predicate Explains(changes: seq<Change>, start: Table, end: Table) {
    && Played(changes, start) == end
    && forall i :: 0 <= i < |changes| ==>
         changes[i].before == At(Played(changes[..i], start), changes[i].key)
  }

  lemma ExplainsNothing(t: Table)
    ensures Explains([], t, t)
  {
  }

  lemma ExplainsAppend(changes: seq<Change>, start: Table, end: Table, c: Change)
    requires Explains(changes, start, end) && c.before == At(end, c.key)
    ensures Explains(changes + [c], start, Put(end, c.key, c.after))
  {
    var more := changes + [c];
    assert more[..|changes|] == changes;
    forall i | 0 <= i < |more|
      ensures more[i].before == At(Played(more[..i], start), more[i].key)
    {
      if i < |changes| {
        assert more[..i] == changes[..i];
      }
    }
  }

  // ---- what a reader of the stream can do with the records alone

  /** One record applied by a reader that computes the key from `keys`. */
  function Replay1(keyOf: Item -> Key, t: Table, r: Record): Table {
    if r.event == REMOVE then t - {keyOf(r.keys)}
    else if r.newImage.Some? then t[keyOf(r.keys) := r.newImage.value]
    else t
  }

  function Replay(keyOf: Item -> Key, records: seq<Record>, t: Table): Table {
    if records == [] then t
    else Replay1(keyOf, Replay(keyOf, records[..|records| - 1], t), records[|records| - 1])
  }

  /** The records report the changes one by one, under keys that name them. */
  predicate ReportsAll(keyOf: Item -> Key, records: seq<Record>, changes: seq<Change>) {
    && |records| == |changes|
    && forall i :: 0 <= i < |records| ==>
         Reports(records[i], changes[i]) && keyOf(records[i].keys) == changes[i].key
  }

  lemma {:induction false} ReplayIsPlayed(keyOf: Item -> Key, records: seq<Record>, changes: seq<Change>, t: Table)
    requires ReportsAll(keyOf, records, changes)
    requires forall r :: r in records ==> CarriesNew(r.view)
    ensures Replay(keyOf, records, t) == Played(changes, t)
  {
    if records != [] {
      var n := |records| - 1;
      ReplayIsPlayed(keyOf, records[..n], changes[..n], t);
      assert records[n] in records;
    }
  }

  /** What the i-th record says is so at that point of the replay: INSERT means the item
      was not there, REMOVE that it is gone, and a new image is the item from then on. */
  predicate Truthful(keyOf: Item -> Key, records: seq<Record>, start: Table, i: nat)
    requires i < |records|
  {
    var r, k := records[i], keyOf(records[i].keys);
    var t, t' := Replay(keyOf, records[..i], start), Replay(keyOf, records[..i + 1], start);
    && (r.event == INSERT <==> k !in t)
    && (r.event == REMOVE <==> k !in t')
    && (CarriesNew(r.view) ==> r.newImage == At(t', k))
  }

  /** The old image carried by the i-th record is the image before. */
  predicate OldImageTrue(keyOf: Item -> Key, records: seq<Record>, start: Table, i: nat)
    requires i < |records|
  {
    CarriesOld(records[i].view) ==>
      records[i].oldImage == At(Replay(keyOf, records[..i], start), keyOf(records[i].keys))
  }

  /** The writer handed on the true previous image. */
  predicate Exact(c: Change) { c.shown == c.before }

  lemma RecordTruthful(keyOf: Item -> Key, records: seq<Record>, changes: seq<Change>,
                       start: Table, end: Table, i: nat)
    requires ReportsAll(keyOf, records, changes) && Explains(changes, start, end) && i < |records|
    requires forall r :: r in records ==> CarriesNew(r.view)
    ensures Truthful(keyOf, records, start, i)
    ensures OldImageTrue(keyOf, records, start, i) <==> (CarriesOld(records[i].view) ==> Exact(changes[i]))
  {
    hide Replay, Played;
    PrefixReports(keyOf, records, changes, i);
    PrefixReports(keyOf, records, changes, i + 1);
    ReplayIsPlayed(keyOf, records[..i], changes[..i], start);
    ReplayIsPlayed(keyOf, records[..i + 1], changes[..i + 1], start);
    PlayedStep(changes, start, i);
    assert Reports(records[i], changes[i]);
  }

  lemma PrefixReports(keyOf: Item -> Key, records: seq<Record>, changes: seq<Change>, i: nat)
    requires ReportsAll(keyOf, records, changes) && i <= |records|
    requires forall r :: r in records ==> CarriesNew(r.view)
    ensures ReportsAll(keyOf, records[..i], changes[..i]) && forall r :: r in records[..i] ==> CarriesNew(r.view)
  {
    hide Reports;
    assert forall r :: r in records[..i] ==> r in records;
  }

  lemma PlayedStep(changes: seq<Change>, start: Table, i: nat)
    requires i < |changes|
    ensures Played(changes[..i + 1], start) == Put(Played(changes[..i], start), changes[i].key, changes[i].after)
  {
    assert changes[..i + 1][..i] == changes[..i];
  }

  /** Replaying records that carry new images over the table the stream started from
      gives the present table; every record is truthful on the way, and its old image is
      the image before exactly if that is what its writer handed on. */
  lemma StreamReplays(keyOf: Item -> Key, records: seq<Record>, changes: seq<Change>, start: Table, end: Table)
    requires ReportsAll(keyOf, records, changes) && Explains(changes, start, end)
    requires forall r :: r in records ==> CarriesNew(r.view)
    ensures Replay(keyOf, records, start) == end
    ensures forall i :: 0 <= i < |records| ==>
              && Truthful(keyOf, records, start, i)
              && (OldImageTrue(keyOf, records, start, i) <==> (CarriesOld(records[i].view) ==> Exact(changes[i])))
  {
    hide Truthful, OldImageTrue;
    ReplayIsPlayed(keyOf, records, changes, start);
    forall i | 0 <= i < |records|
      ensures Truthful(keyOf, records, start, i)
      ensures OldImageTrue(keyOf, records, start, i) <==> (CarriesOld(records[i].view) ==> Exact(changes[i]))
    {
      RecordTruthful(keyOf, records, changes, start, end, i);
    }
  }

  lemma {:induction false} PlayedMore(changes: seq<Change>, more: seq<Change>, t: Table)
    ensures Played(changes + more, t) == Played(more, Played(changes, t))
  {
    if more == [] {
      assert changes + more == changes;
    } else {
      var n := |more| - 1;
      PlayedMore(changes, more[..n], t);
      assert (changes + more)[..|changes| + n] == changes + more[..n];
    }
  }

  predicate Touched(changes: seq<Change>, k: Key) {
    exists c :: c in changes && c.key == k
  }

  lemma {:induction false} PlayedAt(changes: seq<Change>, x: Table, y: Table, k: Key)
    ensures At(Played(changes, x), k) == At(Played(changes, y), k) <==> At(x, k) == At(y, k) || Touched(changes, k)
  {
    if changes != [] {
      var n := |changes| - 1;
      PlayedAt(changes[..n], x, y, k);
      assert changes == changes[..n] + [changes[n]];
    }
  }

  lemma SameAt(x: Table, y: Table)
    ensures x == y <==> forall k :: At(x, k) == At(y, k)
  {
    if forall k :: At(x, k) == At(y, k) {
      forall k
        ensures k in x <==> k in y
        ensures k in x && k in y ==> x[k] == y[k]
      {
        assert At(x, k) == At(y, k);
      }
    }
  }

  /** Changes lead two tables to the same one exactly if they touch every key on which
      the two differ. */
  lemma PlayedMeet(changes: seq<Change>, x: Table, y: Table)
    ensures Played(changes, x) == Played(changes, y) <==> forall k :: At(x, k) == At(y, k) || Touched(changes, k)
  {
    hide At, Played, Touched;
    SameAt(Played(changes, x), Played(changes, y));
    forall k
      ensures At(Played(changes, x), k) == At(Played(changes, y), k) <==> At(x, k) == At(y, k) || Touched(changes, k)
    {
      PlayedAt(changes, x, y, k);
    }
  }

  /** The later changes lead from where the earlier ones ended. */
  lemma ExplainsRest(changes: seq<Change>, all: seq<Change>, start: Table, mid: Table, end: Table)
    requires changes <= all && Explains(changes, start, mid) && Explains(all, start, end)
    ensures Explains(all[|changes|..], mid, end)
  {
    var n := |changes|;
    var rest := all[n..];
    assert all == changes + rest;
    PlayedMore(changes, rest, start);
    forall i | 0 <= i < |rest|
      ensures rest[i].before == At(Played(rest[..i], mid), rest[i].key)
    {
      PlayedMore(changes, rest[..i], start);
      assert all[..n + i] == changes + rest[..i];
    }
  }

  lemma {:induction false} ReplayMore(keyOf: Item -> Key, records: seq<Record>, more: seq<Record>, t: Table)
    ensures Replay(keyOf, records + more, t) == Replay(keyOf, more, Replay(keyOf, records, t))
  {
    if more == [] {
      assert records + more == records;
    } else {
      var n := |more| - 1;
      ReplayMore(keyOf, records, more[..n], t);
      assert (records + more)[..|records| + n] == records + more[..n];
    }
  }
}

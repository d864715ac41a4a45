/** Pages of an ordered listing that follow a cursor, over any type of cursor. */
module Paging {
  import opened Values

  /** lt is a strict order on the elements that are `ok`. */
  ghost predicate StrictOrder<T(!new)>(lt: (T, T) -> bool, ok: T -> bool) {
    && (forall x :: ok(x) ==> !lt(x, x))
    && (forall x, y, z :: ok(x) && ok(y) && ok(z) && lt(x, y) && lt(y, z) ==> lt(x, z))
  }

  predicate Ascending<T>(xs: seq<T>, lt: (T, T) -> bool) {
    forall i, j :: 0 <= i < j < |xs| ==> lt(xs[i], xs[j])
  }

  predicate AllOk<T>(xs: seq<T>, ok: T -> bool) {
    forall i :: 0 <= i < |xs| ==> ok(xs[i])
  }

  // ---- sorting

  /** x goes behind every element it is not less than: a stable insertion. */
  function Insert<T>(xs: seq<T>, x: T, lt: (T, T) -> bool): seq<T> {
    if xs == [] then [x]
    else
      var n := |xs| - 1;
      if lt(x, xs[n]) then Insert(xs[..n], x, lt) + [xs[n]] else xs + [x]
  }

  function Sort<T>(xs: seq<T>, lt: (T, T) -> bool): seq<T> {
    if xs == [] then []
    else
      var n := |xs| - 1;
      Insert(Sort(xs[..n], lt), xs[n], lt)
  }

  lemma {:induction false} InsertHolds<T>(xs: seq<T>, x: T, lt: (T, T) -> bool)
    ensures multiset(Insert(xs, x, lt)) == multiset(xs) + multiset{x}
  {
    if xs != [] {
      var n := |xs| - 1;
      assert xs == xs[..n] + [xs[n]];
      if lt(x, xs[n]) {
        InsertHolds(xs[..n], x, lt);
      }
    }
  }

  /** Sorting rearranges. */
  lemma {:induction false} SortHolds<T>(xs: seq<T>, lt: (T, T) -> bool)
    ensures multiset(Sort(xs, lt)) == multiset(xs)
    ensures |Sort(xs, lt)| == |xs|
    ensures forall x :: x in Sort(xs, lt) <==> x in xs
  {
    if xs != [] {
      var n := |xs| - 1;
      SortHolds(xs[..n], lt);
      InsertHolds(Sort(xs[..n], lt), xs[n], lt);
      assert xs == xs[..n] + [xs[n]];
    }
    var m := multiset(Sort(xs, lt));
    assert |m| == |multiset(xs)|;
    assert forall x :: x in Sort(xs, lt) <==> x in m;
    assert forall x :: x in xs <==> x in multiset(xs);
  }

  /** x can be told from every element. */
  predicate Apart<T(==)>(xs: seq<T>, x: T, lt: (T, T) -> bool) {
    forall y :: y in xs ==> lt(x, y) || lt(y, x)
  }

  predicate PairwiseApart<T>(xs: seq<T>, lt: (T, T) -> bool) {
    forall i, j :: 0 <= i < j < |xs| ==> lt(xs[i], xs[j]) || lt(xs[j], xs[i])
  }

  lemma {:induction false} InsertAscending<T(!new)>(xs: seq<T>, x: T, lt: (T, T) -> bool, ok: T -> bool)
    requires StrictOrder(lt, ok) && ok(x) && AllOk(xs, ok) && Ascending(xs, lt) && Apart(xs, x, lt)
    ensures Ascending(Insert(xs, x, lt), lt)
  {
    if xs != [] {
      var n := |xs| - 1;
      assert xs[n] in xs;
      if lt(x, xs[n]) {
        InsertAscending(xs[..n], x, lt, ok);
        InsertHolds(xs[..n], x, lt);
        assert forall y :: y in Insert(xs[..n], x, lt) ==> y in multiset(xs[..n]) + multiset{x};
        forall y | y in Insert(xs[..n], x, lt)
          ensures lt(y, xs[n])
        {
          assert y in multiset(Insert(xs[..n], x, lt));
          assert y == x || y in xs[..n];
        }
      }
    }
  }

  /** Sorting elements that can be told apart puts them in ascending order. */
  lemma {:induction false} SortAscending<T(!new)>(xs: seq<T>, lt: (T, T) -> bool, ok: T -> bool)
    requires StrictOrder(lt, ok) && AllOk(xs, ok) && PairwiseApart(xs, lt)
    ensures Ascending(Sort(xs, lt), lt)
  {
    if xs != [] {
      var n := |xs| - 1;
      SortAscending(xs[..n], lt, ok);
      SortHolds(xs[..n], lt);
      var sorted := Sort(xs[..n], lt);
      forall y | y in sorted
        ensures ok(y) && (lt(xs[n], y) || lt(y, xs[n]))
      {
        var i :| 0 <= i < n && xs[i] == y;
      }
      InsertAscending(sorted, xs[n], lt, ok);
    }
  }

  /** Elements that are `ok` and that lt cannot tell apart are as one to it. */
  ghost predicate WeakOrder<T(!new)>(lt: (T, T) -> bool, ok: T -> bool) {
    && (forall x, y :: ok(x) && ok(y) && lt(x, y) ==> !lt(y, x))
    && (forall x, y, z :: ok(x) && ok(y) && ok(z) && !lt(y, x) && !lt(z, y) ==> !lt(z, x))
  }

  predicate Rising<T>(xs: seq<T>, lt: (T, T) -> bool) {
    forall i, j :: 0 <= i < j < |xs| ==> !lt(xs[j], xs[i])
  }

  function Picked<T>(xs: seq<T>, p: T -> bool): seq<T> {
    if xs == [] then []
    else Picked(xs[..|xs| - 1], p) + if p(xs[|xs| - 1]) then [xs[|xs| - 1]] else []
  }

  lemma PickedSnoc<T>(xs: seq<T>, x: T, p: T -> bool)
    ensures Picked(xs + [x], p) == Picked(xs, p) + if p(x) then [x] else []
  {
    assert (xs + [x])[..|xs|] == xs;
  }

  lemma {:induction false} InsertPicked<T>(xs: seq<T>, x: T, lt: (T, T) -> bool, p: T -> bool)
    requires forall y :: y in xs && p(x) && p(y) ==> !lt(x, y)
    ensures Picked(Insert(xs, x, lt), p) == Picked(xs + [x], p)
  {
    PickedSnoc(xs, x, p);
    if xs != [] {
      var n := |xs| - 1;
      if lt(x, xs[n]) {
        InsertPicked(xs[..n], x, lt, p);
        hide Insert;
        PickedSnoc(Insert(xs[..n], x, lt), xs[n], p);
        PickedSnoc(xs[..n], x, p);
      }
    }
  }

  lemma {:induction false} InsertRising<T(!new)>(xs: seq<T>, x: T, lt: (T, T) -> bool, ok: T -> bool)
    requires WeakOrder(lt, ok) && ok(x) && AllOk(xs, ok) && Rising(xs, lt)
    ensures Rising(Insert(xs, x, lt), lt) && AllOk(Insert(xs, x, lt), ok)
  {
    if xs != [] {
      var n := |xs| - 1;
      if lt(x, xs[n]) {
        InsertRising(xs[..n], x, lt, ok);
        InsertHolds(xs[..n], x, lt);
        var init := Insert(xs[..n], x, lt);
        forall y | y in init
          ensures !lt(xs[n], y)
        {
          assert y in multiset(init);
          assert y == x || y in xs[..n];
        }
        RisingSnoc(init, xs[n], lt);
      } else {
        forall y | y in xs
          ensures !lt(x, y)
        {
          var i :| 0 <= i < |xs| && xs[i] == y;
          assert !lt(xs[n], y);
        }
        RisingSnoc(xs, x, lt);
      }
    }
  }

  lemma RisingSnoc<T>(xs: seq<T>, x: T, lt: (T, T) -> bool)
    requires Rising(xs, lt) && forall y :: y in xs ==> !lt(x, y)
    ensures Rising(xs + [x], lt)
  {
  }

  /** Sorting leaves nothing in front of what it is less than. */
  lemma {:induction false} SortRising<T(!new)>(xs: seq<T>, lt: (T, T) -> bool, ok: T -> bool)
    requires WeakOrder(lt, ok) && AllOk(xs, ok)
    ensures Rising(Sort(xs, lt), lt) && AllOk(Sort(xs, lt), ok)
  {
    if xs != [] {
      var n := |xs| - 1;
      SortRising(xs[..n], lt, ok);
      InsertRising(Sort(xs[..n], lt), xs[n], lt, ok);
    }
  }

  /** It keeps the order of elements that cannot be told apart. */
  lemma {:induction false} SortStable<T(!new)>(xs: seq<T>, lt: (T, T) -> bool, p: T -> bool)
    requires forall y, z :: p(y) && p(z) ==> !lt(y, z)
    ensures Picked(Sort(xs, lt), p) == Picked(xs, p)
  {
    if xs != [] {
      var n := |xs| - 1;
      SortStable(xs[..n], lt, p);
      InsertPicked(Sort(xs[..n], lt), xs[n], lt, p);
      PickedSnoc(Sort(xs[..n], lt), xs[n], p);
      PickedSnoc(xs[..n], xs[n], p);
      assert xs == xs[..n] + [xs[n]];
    }
  }

  /** An ascending listing is determined by its elements. */
  lemma {:induction false} AscendingUnique<T(!new)>(xs: seq<T>, ys: seq<T>, lt: (T, T) -> bool, ok: T -> bool)
    requires StrictOrder(lt, ok) && AllOk(xs, ok) && AllOk(ys, ok) && Ascending(xs, lt) && Ascending(ys, lt)
    requires forall x :: x in xs <==> x in ys
    ensures xs == ys
  {
    hide StrictOrder;
    BothEmpty(xs, ys);
    BothEmpty(ys, xs);
    if xs != [] {
      assert xs[0] in ys && ys[0] in xs;
      FirstIsLeast(xs, ys, lt, ok);
      TailLacksFirst(xs, lt, ok);
      TailLacksFirst(ys, lt, ok);
      AscendingUnique(xs[1..], ys[1..], lt, ok);
      assert xs == [xs[0]] + xs[1..] && ys == [ys[0]] + ys[1..];
    }
  }

  lemma AscendingInjective<T(!new)>(xs: seq<T>, lt: (T, T) -> bool, ok: T -> bool, i: nat, j: nat)
    requires StrictOrder(lt, ok) && AllOk(xs, ok) && Ascending(xs, lt) && i < |xs| && j < |xs| && xs[i] == xs[j]
    ensures i == j
  {
  }

  lemma BothEmpty<T>(xs: seq<T>, ys: seq<T>)
    requires forall y :: y in ys ==> y in xs
    ensures ys != [] ==> xs != []
  {
    if ys != [] {
      assert ys[0] in xs;
    }
  }

  lemma FirstIsLeast<T(!new)>(xs: seq<T>, ys: seq<T>, lt: (T, T) -> bool, ok: T -> bool)
    requires StrictOrder(lt, ok) && AllOk(xs, ok) && AllOk(ys, ok) && Ascending(xs, lt) && Ascending(ys, lt)
    requires xs != [] && ys != [] && xs[0] in ys && ys[0] in xs
    ensures xs[0] == ys[0]
  {
    var i :| 0 <= i < |ys| && ys[i] == xs[0];
    var j :| 0 <= j < |xs| && xs[j] == ys[0];
  }

  lemma TailLacksFirst<T(!new)>(xs: seq<T>, lt: (T, T) -> bool, ok: T -> bool)
    requires StrictOrder(lt, ok) && AllOk(xs, ok) && Ascending(xs, lt) && xs != []
    ensures forall x :: x in xs[1..] <==> x in xs && x != xs[0]
  {
    assert xs == [xs[0]] + xs[1..];
    assert xs[0] !in xs[1..];
  }

  // ---- pages

  /** What lies behind the cursor. */
  function Beyond<T>(xs: seq<T>, after: Option<T>, lt: (T, T) -> bool): seq<T> {
    if after.None? || xs == [] || lt(after.value, xs[0]) then xs else Beyond(xs[1..], after, lt)
  }

  /** Resuming behind the n-th element goes on with the next one exactly if the next one
      can be told from it. */
  lemma ResumesExactly<T(!new)>(xs: seq<T>, n: nat, lt: (T, T) -> bool, ok: T -> bool)
    requires WeakOrder(lt, ok) && AllOk(xs, ok) && Rising(xs, lt) && 0 < n <= |xs|
    ensures Beyond(xs, Some(xs[n - 1]), lt) == xs[n..] <==> (n < |xs| ==> lt(xs[n - 1], xs[n]))
  {
    hide WeakOrder;
    var m := BeyondFrom(xs, xs[n - 1], lt);
    NotBefore(xs, n, m, lt, ok);
    if m == n {
    } else {
      assert |xs[m..]| != |xs[n..]|;
    }
  }

  lemma NotBefore<T(!new)>(xs: seq<T>, n: nat, m: nat, lt: (T, T) -> bool, ok: T -> bool)
    requires WeakOrder(lt, ok) && AllOk(xs, ok) && Rising(xs, lt) && 0 < n <= |xs| && m <= |xs|
    requires m < |xs| ==> lt(xs[n - 1], xs[m])
    requires forall i :: 0 <= i < m ==> !lt(xs[n - 1], xs[i])
    ensures n <= m
    ensures m == n <==> (n < |xs| ==> lt(xs[n - 1], xs[n]))
  {
  }

  /** Beyond a cursor is everything from the first element past it. */
  lemma {:induction false} BeyondFrom<T>(xs: seq<T>, after: T, lt: (T, T) -> bool) returns (m: nat)
    ensures m <= |xs| && Beyond(xs, Some(after), lt) == xs[m..]
    ensures m < |xs| ==> lt(after, xs[m])
    ensures forall i :: 0 <= i < m ==> !lt(after, xs[i])
  {
    if xs == [] || lt(after, xs[0]) {
      m := 0;
    } else {
      m := BeyondFrom(xs[1..], after, lt);
      m := m + 1;
      assert forall i :: 1 <= i < |xs| ==> xs[i] == xs[1..][i - 1];
    }
  }

  /** One page and the cursor it ends with, None when nothing is left. */
  function PageOf<T>(xs: seq<T>, after: Option<T>, limit: Option<nat>, lt: (T, T) -> bool): (seq<T>, Option<T>)
    requires limit != Some(0)
  {
    Cut(Beyond(xs, after, lt), limit)
  }

  function Cut<T>(rest: seq<T>, limit: Option<nat>): (seq<T>, Option<T>)
    requires limit != Some(0)
  {
    if limit.Some? && |rest| > limit.value then (rest[..limit.value], Some(rest[limit.value - 1])) else (rest, None)
  }

  /** A listing in ascending order, and a limit, for one page. */
  datatype Request<T> = Request(stock: seq<T>, limit: Option<nat>)

  ghost predicate WellRequested<T(!new)>(rs: seq<Request<T>>, lt: (T, T) -> bool, ok: T -> bool) {
    && StrictOrder(lt, ok)
    && forall i :: 0 <= i < |rs| ==> rs[i].limit != Some(0) && Ascending(rs[i].stock, lt) && AllOk(rs[i].stock, ok)
  }

  predicate Limited<T>(rs: seq<Request<T>>) {
    forall i :: 0 <= i < |rs| ==> rs[i].limit != Some(0)
  }

  /** Everything returned by the pages, each starting at the cursor of the one before. */
  function Pages<T>(rs: seq<Request<T>>, after: Option<T>, lt: (T, T) -> bool): seq<T>
    requires Limited(rs)
  {
    if rs == [] then []
    else
      var (page, next) := PageOf(rs[0].stock, after, rs[0].limit, lt);
      if next.None? then page else page + Pages(rs[1..], next, lt)
  }

  /** The requests go on until a page ends without a cursor. */
  predicate Finishes<T>(rs: seq<Request<T>>, after: Option<T>, lt: (T, T) -> bool)
    requires Limited(rs)
  {
    && rs != []
    && var (_, next) := PageOf(rs[0].stock, after, rs[0].limit, lt);
       next.None? || Finishes(rs[1..], next, lt)
  }

  lemma {:induction false} BeyondIsSuffix<T(!new)>(xs: seq<T>, after: Option<T>, lt: (T, T) -> bool, ok: T -> bool) returns (n: nat)
    requires StrictOrder(lt, ok) && AllOk(xs, ok) && Ascending(xs, lt) && (after.Some? ==> ok(after.value))
    ensures n <= |xs| && Beyond(xs, after, lt) == xs[n..]
    ensures forall i :: 0 <= i < |xs| ==> (i < n <==> after.Some? && !lt(after.value, xs[i]))
  {
    if after.None? || xs == [] || lt(after.value, xs[0]) {
      n := 0;
    } else {
      n := BeyondIsSuffix(xs[1..], after, lt, ok);
      n := n + 1;
      assert forall i :: 1 <= i < |xs| ==> xs[i] == xs[1..][i - 1];
    }
  }

  /** A page is ascending and beyond its cursor, and misses nothing before the next one. It
      holds no more than the limit, and just as many if something is left for another. */
  lemma PageFacts<T(!new)>(xs: seq<T>, after: Option<T>, limit: Option<nat>, lt: (T, T) -> bool, ok: T -> bool)
    requires StrictOrder(lt, ok) && AllOk(xs, ok) && Ascending(xs, lt) && (after.Some? ==> ok(after.value))
    requires limit != Some(0)
    ensures var (page, next) := PageOf(xs, after, limit, lt);
            && Ascending(page, lt) && AllOk(page, ok)
            && (forall x :: x in page ==> x in xs && (after.Some? ==> lt(after.value, x)))
            && (next.Some? ==> ok(next.value) && (after.Some? ==> lt(after.value, next.value)))
            && (next.Some? ==> page != [] && next.value == page[|page| - 1])
            && (forall x :: x in xs && (after.Some? ==> lt(after.value, x)) ==>
                  x in page || (next.Some? && lt(next.value, x)))
            && (limit.Some? ==> |page| <= limit.value)
            && (next.Some? ==> limit == Some(|page|) && exists x :: x in xs && lt(next.value, x))
  {
    hide StrictOrder, Beyond;
    var n := BeyondIsSuffix(xs, after, lt, ok);
    var rest := Beyond(xs, after, lt);
    forall x
      ensures x in rest <==> x in xs && (after.Some? ==> lt(after.value, x))
    {
      if x in xs && (after.Some? ==> lt(after.value, x)) {
        var i :| 0 <= i < |xs| && xs[i] == x;
        assert x == rest[i - n];
      }
    }
    CutFacts(rest, limit, lt);
  }

  /** Cutting an ascending rest: the page is its beginning, and what it leaves lies
      behind the next cursor. */
  lemma CutFacts<T>(rest: seq<T>, limit: Option<nat>, lt: (T, T) -> bool)
    requires Ascending(rest, lt) && limit != Some(0)
    ensures var (page, next) := Cut(rest, limit);
            && page <= rest
            && (next.Some? ==> page != [] && next.value == page[|page| - 1])
            && (forall x :: x in rest ==> x in page || (next.Some? && lt(next.value, x)))
            && (limit.Some? ==> |page| <= limit.value)
            && (next.Some? ==> limit == Some(|page|) && exists x :: x in rest && lt(next.value, x))
  {
    var (page, next) := Cut(rest, limit);
    if next.Some? {
      assert rest[|page|] in rest;
    }
    forall x | x in rest
      ensures x in page || (next.Some? && lt(next.value, x))
    {
      var i :| 0 <= i < |rest| && rest[i] == x;
      if i < |page| {
        assert page[i] == x;
      }
    }
  }

  /** Whatever listing each page sees, the pages together are ascending, so they
      return nothing twice, and all of it comes from the listings. */
  lemma {:induction false} PagesAscend<T(!new)>(rs: seq<Request<T>>, after: Option<T>, lt: (T, T) -> bool, ok: T -> bool)
    requires WellRequested(rs, lt, ok) && (after.Some? ==> ok(after.value))
    ensures Ascending(Pages(rs, after, lt), lt) && AllOk(Pages(rs, after, lt), ok)
    ensures forall x :: x in Pages(rs, after, lt) ==> after.Some? ==> lt(after.value, x)
    ensures forall x :: x in Pages(rs, after, lt) ==> exists i :: 0 <= i < |rs| && x in rs[i].stock
  {
    if rs != [] {
      hide PageOf;
      PageFacts(rs[0].stock, after, rs[0].limit, lt, ok);
      var (page, next) := PageOf(rs[0].stock, after, rs[0].limit, lt);
      if next.Some? {
        PagesAscend(rs[1..], next, lt, ok);
        var rest := Pages(rs[1..], next, lt);
        forall i, j | 0 <= i < |page| && 0 <= j < |rest|
          ensures lt(page[i], rest[j])
        {
          assert rest[j] in rest && ok(rest[j]) && lt(next.value, rest[j]);
          assert i < |page| - 1 ==> lt(page[i], page[|page| - 1]);
        }
        AscendingConcat(page, rest, lt);
        forall x | x in rest
          ensures exists i :: 0 <= i < |rs| && x in rs[i].stock
        {
          var i :| 0 <= i < |rs[1..]| && x in rs[1..][i].stock;
          assert x in rs[i + 1].stock;
        }
        forall x | x in rest
          ensures after.Some? ==> lt(after.value, x)
        {
          var j :| 0 <= j < |rest| && rest[j] == x;
          assert ok(x) && lt(next.value, x);
        }
      }
    }
  }

  lemma AscendingConcat<T>(xs: seq<T>, ys: seq<T>, lt: (T, T) -> bool)
    requires Ascending(xs, lt) && Ascending(ys, lt)
    requires forall i, j :: 0 <= i < |xs| && 0 <= j < |ys| ==> lt(xs[i], ys[j])
    ensures Ascending(xs + ys, lt)
  {
    var zs := xs + ys;
    forall i, j | 0 <= i < j < |zs|
      ensures lt(zs[i], zs[j])
    {
      if i < |xs| <= j {
        assert zs[i] == xs[i] && zs[j] == ys[j - |xs|];
      } else if |xs| <= i {
        assert zs[i] == ys[i - |xs|] && zs[j] == ys[j - |xs|];
      }
    }
  }

  /** What every page's listing holds is returned, whatever else came and went. */
  lemma {:induction false} PagesMissNothing<T(!new)>(rs: seq<Request<T>>, after: Option<T>, lt: (T, T) -> bool, ok: T -> bool, x: T)
    requires WellRequested(rs, lt, ok) && (after.Some? ==> ok(after.value)) && Finishes(rs, after, lt)
    requires forall i :: 0 <= i < |rs| ==> x in rs[i].stock
    requires after.Some? ==> lt(after.value, x)
    ensures x in Pages(rs, after, lt)
  {
    hide PageOf;
    PageFacts(rs[0].stock, after, rs[0].limit, lt, ok);
    var (page, next) := PageOf(rs[0].stock, after, rs[0].limit, lt);
    if x !in page {
      PagesMissNothing(rs[1..], next, lt, ok, x);
    }
  }

  /** On an unchanged listing the pages concatenate to what lies behind the first cursor. */
  lemma PagesConcatenate<T(!new)>(rs: seq<Request<T>>, after: Option<T>, lt: (T, T) -> bool, ok: T -> bool, xs: seq<T>)
    requires WellRequested(rs, lt, ok) && (after.Some? ==> ok(after.value)) && Finishes(rs, after, lt)
    requires forall i :: 0 <= i < |rs| ==> rs[i].stock == xs
    ensures Pages(rs, after, lt) == Beyond(xs, after, lt)
  {
    assert rs[0].stock == xs;
    var n := BeyondIsSuffix(xs, after, lt, ok);
    var pages, rest := Pages(rs, after, lt), Beyond(xs, after, lt);
    PagesAscend(rs, after, lt, ok);
    forall x
      ensures x in pages <==> x in rest
    {
      if x in rest {
        var i :| n <= i < |xs| && xs[i] == x;
        PagesMissNothing(rs, after, lt, ok, x);
      }
      if x in pages {
        var i :| 0 <= i < |xs| && xs[i] == x;
        assert i >= n;
        assert rest[i - n] == x;
      }
    }
    AscendingUnique(pages, rest, lt, ok);
  }

  // ---- chains of answers

  /** One answer: the listing it was cut from, the page, the cursor it ended with, and the
      items handed out for the page. */
  datatype Turn<T, I> = Turn(stock: seq<T>, limit: Option<nat>, page: seq<T>, next: Option<T>, items: seq<I>)

  /** Each answer is the page behind the cursor of the one before, until there is none. */
  predicate ChainOf<T(==), I>(turns: seq<Turn<T, I>>, after: Option<T>, lt: (T, T) -> bool) {
    && turns != [] && turns[0].limit != Some(0)
    && (turns[0].page, turns[0].next) == PageOf(turns[0].stock, after, turns[0].limit, lt)
    && |turns[0].items| == |turns[0].page|
    && if turns[0].next.None? then |turns| == 1 else ChainOf(turns[1..], turns[0].next, lt)
  }

  function AsRequests<T, I>(turns: seq<Turn<T, I>>): (rs: seq<Request<T>>)
    ensures |rs| == |turns| && forall i :: 0 <= i < |turns| ==> rs[i] == Request(turns[i].stock, turns[i].limit)
  {
    seq(|turns|, i requires 0 <= i < |turns| => Request(turns[i].stock, turns[i].limit))
  }

  function AllItems<T, I>(turns: seq<Turn<T, I>>): seq<I> {
    if turns == [] then [] else turns[0].items + AllItems(turns[1..])
  }

  /** Each item tells its place in the listing. */
  predicate Tagged<T(==), I>(turns: seq<Turn<T, I>>, tag: I -> T) {
    forall i, m :: 0 <= i < |turns| && 0 <= m < |turns[i].page| && |turns[i].items| == |turns[i].page| ==>
      tag(turns[i].items[m]) == turns[i].page[m]
  }

  /** A chain of answers is a run of pages, and its items have the places returned. */
  lemma {:induction false} ChainIsPages<T, I>(turns: seq<Turn<T, I>>, after: Option<T>, lt: (T, T) -> bool, tag: I -> T)
    requires ChainOf(turns, after, lt) && Tagged(turns, tag)
    ensures Limited(AsRequests(turns)) && Finishes(AsRequests(turns), after, lt)
    ensures |AllItems(turns)| == |Pages(AsRequests(turns), after, lt)|
    ensures forall m :: 0 <= m < |AllItems(turns)| ==> tag(AllItems(turns)[m]) == Pages(AsRequests(turns), after, lt)[m]
    decreases |turns|
  {
    hide PageOf;
    var rs, rest := AsRequests(turns), turns[1..];
    var (page, next) := PageOf(turns[0].stock, after, turns[0].limit, lt);
    assert AsRequests(rest) == rs[1..];
    assert forall m :: 0 <= m < |page| ==> tag(turns[0].items[m]) == page[m];
    if next.Some? {
      assert forall i :: 0 <= i < |rest| ==> rest[i] == turns[i + 1];
      ChainIsPages(rest, next, lt, tag);
    } else {
      assert rest == [] && AllItems(turns) == turns[0].items;
    }
  }

  lemma {:induction false} ItemsFromTurns<T, I>(turns: seq<Turn<T, I>>, x: I)
    requires x in AllItems(turns)
    ensures exists i :: 0 <= i < |turns| && x in turns[i].items
  {
    if x !in turns[0].items {
      ItemsFromTurns(turns[1..], x);
      var i :| 0 <= i < |turns[1..]| && x in turns[1..][i].items;
      assert x in turns[i + 1].items;
    }
  }

  // ---- segments

  /** Every total-th element, from position seg. */
  function Segment<T>(xs: seq<T>, seg: nat, total: nat): seq<T>
    requires total > 0
  {
    if xs == [] then []
    else
      var n := |xs| - 1;
      Segment(xs[..n], seg, total) + (if n % total == seg then [xs[n]] else [])
  }

  lemma {:induction false} InSegment<T>(xs: seq<T>, seg: nat, total: nat, x: T)
    requires total > 0
    ensures x in Segment(xs, seg, total) <==> exists i :: 0 <= i < |xs| && xs[i] == x && i % total == seg
  {
    if xs != [] {
      var n := |xs| - 1;
      InSegment(xs[..n], seg, total, x);
      if i :| 0 <= i < n && xs[..n][i] == x && i % total == seg {
        assert xs[i] == x;
      }
      if i :| 0 <= i < |xs| && xs[i] == x && i % total == seg && i != n {
        assert xs[..n][i] == x;
      }
    }
  }

  lemma {:induction false} SegmentAscending<T>(xs: seq<T>, seg: nat, total: nat, lt: (T, T) -> bool)
    requires total > 0 && Ascending(xs, lt)
    ensures Ascending(Segment(xs, seg, total), lt)
  {
    if xs != [] {
      var n := |xs| - 1;
      SegmentAscending(xs[..n], seg, total, lt);
      var init := Segment(xs[..n], seg, total);
      forall i | 0 <= i < |init|
        ensures lt(init[i], xs[n])
      {
        InSegment(xs[..n], seg, total, init[i]);
      }
    }
  }

  predicate InOneSegment<T(==)>(xs: seq<T>, total: nat, x: T)
    requires total > 0
  {
    exists seg :: 0 <= seg < total && x in Segment(xs, seg, total)
                  && forall other :: 0 <= other < total && x in Segment(xs, other, total) ==> other == seg
  }

  /** Each element is in exactly one of the segments. */
  lemma SegmentsPartition<T(!new)>(xs: seq<T>, total: nat, lt: (T, T) -> bool, ok: T -> bool, x: T)
    requires total > 0 && StrictOrder(lt, ok) && AllOk(xs, ok) && Ascending(xs, lt) && x in xs
    ensures InOneSegment(xs, total, x)
  {
    var i :| 0 <= i < |xs| && xs[i] == x;
    InSegment(xs, i % total, total, x);
    forall other | 0 <= other < total && x in Segment(xs, other, total)
      ensures other == i % total
    {
      InSegment(xs, other, total, x);
      var j :| 0 <= j < |xs| && xs[j] == x && j % total == other;
      assert i < j ==> lt(x, x);
      assert j < i ==> lt(x, x);
    }
    assert 0 <= i % total < total;
  }
}

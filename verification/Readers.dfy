/** What a reader of a stream gets in a run of the storage engine, whatever the requests
    and however the reads are cut. */
module Readers {
  import opened Values
  import opened Records
  import opened StreamRead
  import opened Engine
  import opened Storage
  import opened StorageRuns

  /** The moments of a run at which a reader asks, in order, the last one at n. */
  predicate Visits(stops: seq<nat>, i: nat, n: nat) {
    && stops != [] && stops[|stops| - 1] == n
    && (forall m :: 0 <= m < |stops| ==> i <= stops[m] <= n)
    && forall l, m :: 0 <= l <= m < |stops| ==> stops[l] <= stops[m]
  }

  /** What the reader is shown at these moments. */
  function Shown(trail: seq<World>, t: string, stops: seq<nat>): (bufs: seq<seq<Record>>)
    requires forall m :: 0 <= m < |stops| ==> stops[m] < |trail| && t in trail[stops[m]].bufs
    ensures |bufs| == |stops| && forall m :: 0 <= m < |stops| ==> bufs[m] == trail[stops[m]].bufs[t]
  {
    seq(|stops|, m requires 0 <= m < |stops| => trail[stops[m]].bufs[t])
  }

  /** The hypotheses of a stretch that no trim or restart falls into. */
  ghost predicate Quiet(h: Hash, lib: Lib, steps: seq<Step>, times: seq<int>, trail: seq<World>, fails: seq<nat>,
                        t: string, i: nat, n: nat)
  {
    && IsRun(h, lib, steps, times, trail, fails) && i <= n <= |steps|
    && Streaming(trail[i], t) && Sheltered(steps, trail, fails, t, i, n) && Untrimmed(steps, t, i, n)
  }

  /** Between two moments of such a stretch the buffer has grown by the new records. */
  lemma BufferGrows(h: Hash, lib: Lib, steps: seq<Step>, times: seq<int>, trail: seq<World>, fails: seq<nat>,
                    t: string, i: nat, j: nat, k: nat, n: nat)
    requires Quiet(h, lib, steps, times, trail, fails, t, i, n) && i <= j <= k <= n
    ensures Streaming(trail[j], t) && Continued(trail[j], trail[k], t) && Fed(trail[j], trail[k], t)
    ensures t in trail[j].bufs && t in trail[k].bufs && trail[j].bufs[t] <= trail[k].bufs[t]
  {
    hide WorldOk, Stepped, Seen, Spares, Reshows, Unharmed, Since;
    assert Sheltered(steps, trail, fails, t, i, j) && Sheltered(steps, trail, fails, t, j, k);
    RunContinues(h, lib, steps, times, trail, fails, t, i, j);
    ContinuedStreams(trail[i], trail[j], t);
    RunContinues(h, lib, steps, times, trail, fails, t, j, k);
  }

  /** A reader that is at the end of the buffer at moment i, and reads on at any later
      moments with any limits, the last read without one, gets exactly the records of the
      changes since, each once and in order. */
  lemma ReaderGetsAll(h: Hash, lib: Lib, steps: seq<Step>, times: seq<int>, trail: seq<World>, fails: seq<nat>,
                      t: string, i: nat, n: nat, stops: seq<nat>, limits: seq<int>)
    requires Quiet(h, lib, steps, times, trail, fails, t, i, n)
    requires Visits(stops, i, n) && |limits| == |stops| && limits[|limits| - 1] <= 0
    ensures t in trail[i].bufs && Continued(trail[i], trail[n], t)
    ensures forall m :: 0 <= m < |stops| ==> stops[m] < |trail| && t in trail[stops[m]].bufs
    ensures Chain(Shown(trail, t, stops), limits, |trail[i].bufs[t]|).0 == NewRecords(trail[i], trail[n], t)
  {
    hide Quiet, Continued, Chain;
    InStretch(h, lib, steps, times, trail, fails, t, i, n, stops);
    var bufs := Shown(trail, t, stops);
    forall l, m | 0 <= l <= m < |stops|
      ensures bufs[l] <= bufs[m]
    {
      BufferGrows(h, lib, steps, times, trail, fails, t, i, stops[l], stops[m], n);
    }
    BufferGrows(h, lib, steps, times, trail, fails, t, i, i, stops[0], n);
    BufferGrows(h, lib, steps, times, trail, fails, t, i, i, n, n);
    ChainDelivers(bufs, limits, |trail[i].bufs[t]|);
  }

  lemma InStretch(h: Hash, lib: Lib, steps: seq<Step>, times: seq<int>, trail: seq<World>, fails: seq<nat>,
                  t: string, i: nat, n: nat, stops: seq<nat>)
    requires Quiet(h, lib, steps, times, trail, fails, t, i, n) && Visits(stops, i, n)
    ensures |trail| == |steps| + 1 && i <= n <= |steps|
    ensures forall m :: 0 <= m < |stops| ==> stops[m] < |trail| && t in trail[stops[m]].bufs
  {
    hide Sheltered, Untrimmed, Continued, Fed;
    forall m | 0 <= m < |stops|
      ensures t in trail[stops[m]].bufs
    {
      BufferGrows(h, lib, steps, times, trail, fails, t, i, stops[m], stops[m], n);
    }
  }

  /** What the reader got rebuilds the table from what it held when the reader started. */
  lemma ReaderRebuilds(h: Hash, lib: Lib, steps: seq<Step>, times: seq<int>, trail: seq<World>, fails: seq<nat>,
                       t: string, i: nat, n: nat, stops: seq<nat>, limits: seq<int>)
    requires Quiet(h, lib, steps, times, trail, fails, t, i, n)
    requires t !in trail[i].astray && CarriesNew(trail[i].metas[t].stream.value)
    requires Visits(stops, i, n) && |limits| == |stops| && limits[|limits| - 1] <= 0
    ensures t in trail[i].bufs && t in trail[i].tables && t in trail[n].tables
    ensures forall m :: 0 <= m < |stops| ==> stops[m] < |trail| && t in trail[stops[m]].bufs
    ensures Replay(ReaderKey(h, trail[i].metas[t].schema),
                   Chain(Shown(trail, t, stops), limits, |trail[i].bufs[t]|).0, trail[i].tables[t]) == trail[n].tables[t]
  {
    hide IsRun, Sheltered, Untrimmed, Continued, Chain, Truthful, Since;
    ReaderGetsAll(h, lib, steps, times, trail, fails, t, i, n, stops, limits);
    RunReplays(h, lib, steps, times, trail, fails, t, i, n);
  }

  /** A step other than a restart leaves no buffer behind. */
  lemma StepFeeds(h: Hash, lib: Lib, w: World, step: Step, now: int, w': World, fails: nat, t: string)
    requires Effect(h, lib, w, step, now, w', fails) && Onward(h, lib, w, step, w', fails)
    requires Streaming(w, t) && !OnTable(step, t) && !step.Restart?
    ensures t in w'.behind ==> t in w.behind
  {
    hide Discreet, AllExact, Spares, Unharmed, Since, NewRecords, Grants, UpdateDone, Becomes, BatchDone, TransactDone, Newer;
    if Reshows(step, t) {
      hide Onward;
      assert w'.behind == w.behind;
    } else {
      hide Effect;
      assert Fed(w, w', t);
    }
  }

  lemma RestartLeavesBehind(h: Hash, lib: Lib, w: World, now: int, w': World, fails: nat, t: string)
    requires Effect(h, lib, w, Restart, now, w', fails) && t in w'.behind && t !in w.behind
    ensures t in w.unsynced || fails > 0
  {
    var unread :| |unread| == fails && ReadAgain(w, w', now, unread);
    hide Effect;
    if t !in w.unsynced {
      assert t in unread;
    }
  }

  /** A buffer falls behind its stream only by a restart that could not read its file, or
      found it without a record whose append had failed. */
  lemma BehindOnlyByRestart(h: Hash, lib: Lib, steps: seq<Step>, times: seq<int>, trail: seq<World>, fails: seq<nat>,
                            t: string, j: nat)
    requires IsRun(h, lib, steps, times, trail, fails) && j < |steps|
    requires Streaming(trail[j], t) && !OnTable(steps[j], t) && t !in trail[j].behind && t in trail[j + 1].behind
    ensures steps[j].Restart? && (t in trail[j].unsynced || fails[j] > 0)
  {
    hide WorldOk, Effect, Onward, Seen;
    assert Stepped(h, lib, trail[j], steps[j], times[j], trail[j + 1], fails[j]);
    if !steps[j].Restart? {
      StepFeeds(h, lib, trail[j], steps[j], times[j], trail[j + 1], fails[j], t);
    } else {
      RestartLeavesBehind(h, lib, trail[j], times[j], trail[j + 1], fails[j], t);
    }
  }
}

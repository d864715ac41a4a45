/** The change streams of all tables: in-memory buffers, one append-only file per
    table that is rewritten through a temporary file, and one sequence counter. */
module StreamLog {
  import opened Values
  import opened Records

  /** What holds of one table's buffer and file as long as no removal or read of the file
      has failed: sequence numbers increase and the counter is past them. `cut` is the
      latest retention cutoff applied. */
  predicate Numbered(buf: seq<Record>, file: seq<Record>, cut: int, seqNum: nat) {
    && Increasing(buf) && AtMost(buf, seqNum)
    && Increasing(Newer(file, cut)) && AtMost(Newer(file, cut), seqNum)
  }

  /** The buffer shows what has not expired of the records, be they those of the file or
      all that the stream was given. */
  predicate Shows(buf: seq<Record>, records: seq<Record>, cut: int) {
    Newer(records, cut) == buf
  }

  /** Loading a file that the buffer shows is trimming the buffer. */
  lemma LoadIsTrim(buf: seq<Record>, file: seq<Record>, cut: int, cutoff: int)
    requires Shows(buf, file, cut) && cut <= cutoff
    ensures Newer(file, cutoff) == Newer(buf, cutoff)
  {
    NewerNewer(file, cut, cutoff);
  }

  lemma NumberedTrim(buf: seq<Record>, file: seq<Record>, cut: int, seqNum: nat, cutoff: int)
    requires Numbered(buf, file, cut, seqNum) && cut <= cutoff
    ensures Numbered(Newer(buf, cutoff), file, cutoff, seqNum)
    ensures Numbered(Newer(buf, cutoff), Newer(buf, cutoff), cutoff, seqNum)
  {
    NewerIncreasing(buf, cutoff);
    NewerSize(buf, cutoff);
    NewerNewer(file, cut, cutoff);
    NewerIncreasing(Newer(file, cut), cutoff);
    NewerSize(Newer(file, cut), cutoff);
    NewerNewer(buf, cutoff, cutoff);
  }

  lemma ShowsTrim(buf: seq<Record>, records: seq<Record>, cut: int, cutoff: int)
    requires Shows(buf, records, cut) && cut <= cutoff
    ensures Shows(Newer(buf, cutoff), records, cutoff)
    ensures Shows(Newer(buf, cutoff), Newer(buf, cutoff), cutoff)
  {
    LoadIsTrim(buf, records, cut, cutoff);
    NewerNewer(buf, cutoff, cutoff);
  }

  lemma NumberedAppend(buf: seq<Record>, file: seq<Record>, cut: int, seqNum: nat, r: Record)
    requires Numbered(buf, file, cut, seqNum) && r.seqNum == seqNum + 1
    ensures Numbered(buf + [r], file, cut, seqNum + 1)
    ensures Numbered(buf + [r], file + [r], cut, seqNum + 1)
  {
    IncreasingAppend(buf, r, seqNum);
    NewerAppend(file, r, cut);
    IncreasingAppend(Newer(file, cut), r, seqNum);
  }

  lemma NumberedMore(buf: seq<Record>, file: seq<Record>, cut: int, seqNum: nat, more: nat)
    requires Numbered(buf, file, cut, seqNum) && seqNum <= more
    ensures Numbered(buf, file, cut, more)
  {
  }

  lemma ShowsAppend(buf: seq<Record>, records: seq<Record>, cut: int, r: Record)
    requires Shows(buf, records, cut) && r.createdAt > cut
    ensures Shows(buf + [r], records + [r], cut)
  {
    NewerAppend(records, r, cut);
  }

  /** The retention loop of a trim or a load. */
  method KeepNewer(records: seq<Record>, cutoff: int) returns (kept: seq<Record>)
    ensures kept == Newer(records, cutoff)
  {
    kept := [];
    for i := 0 to |records|
      invariant kept == Newer(records[..i], cutoff)
    {
      assert records[..i + 1][..i] == records[..i];
      if records[i].createdAt > cutoff {
        kept := kept + [records[i]];
      }
    }
    assert records[..|records|] == records;
  }

  // ---- the streams as a value, and what each step makes of it

  /** `cut` is the last cutoff applied to a table, `emitted` all records its present
      stream was ever given. The file of `unsynced` tables is not what the buffer shows,
      as an append or a read failed; the file of `stale` ones may hold numbers that were
      not counted, as its removal or a read failed; the buffer of those `behind` lacks
      records, as a restart found the file unsynced or could not read it. */
  datatype State = State(
    bufs: map<string, seq<Record>>,
    files: map<string, seq<Record>>,
    seqNum: nat,
    clock: int,
    cut: map<string, int>,
    emitted: map<string, seq<Record>>,
    unsynced: set<string>,
    stale: set<string>,
    behind: set<string>)

  /** The records on disk; an absent file has none. */
  function FileOf(files: map<string, seq<Record>>, t: string): seq<Record> {
    if t in files then files[t] else []
  }

  predicate TableOk(s: State, t: string)
    requires t in s.bufs && t in s.cut && t in s.emitted
  {
    && s.cut[t] + RETENTION <= s.clock
    && (t !in s.stale ==> Numbered(s.bufs[t], FileOf(s.files, t), s.cut[t], s.seqNum))
    && (t !in s.unsynced ==> Shows(s.bufs[t], FileOf(s.files, t), s.cut[t]))
    && (t !in s.behind ==> Shows(s.bufs[t], s.emitted[t], s.cut[t]))
  }

  predicate StateOk(s: State) {
    && s.bufs.Keys == s.cut.Keys == s.emitted.Keys
    && (forall t :: t in s.bufs ==> TableOk(s, t))
    && (forall t :: t in s.files ==> t in s.bufs || t in s.stale)
  }

  /** A record reaches the buffer, and the file unless the append fails. */
  function AfterEmit(s: State, t: string, r: Record, appended: bool): State
    requires t in s.bufs && t in s.emitted
  {
    s.(bufs := s.bufs[t := s.bufs[t] + [r]],
       emitted := s.emitted[t := s.emitted[t] + [r]],
       files := if appended then s.files[t := FileOf(s.files, t) + [r]] else s.files,
       unsynced := if appended then s.unsynced else s.unsynced + {t},
       seqNum := s.seqNum + 1,
       clock := r.createdAt)
  }

  lemma EmitKeeps(s: State, t: string, r: Record, appended: bool)
    requires StateOk(s) && t in s.bufs && r.seqNum == s.seqNum + 1 && s.clock <= r.createdAt
    ensures StateOk(AfterEmit(s, t, r, appended))
  {
    hide Numbered, Shows;
    var s' := AfterEmit(s, t, r, appended);
    forall u | u in s'.bufs
      ensures TableOk(s', u)
    {
      assert TableOk(s, u);
      if u == t {
        if u !in s.stale {
          NumberedAppend(s.bufs[t], FileOf(s.files, t), s.cut[t], s.seqNum, r);
        }
        if u !in s'.unsynced {
          ShowsAppend(s.bufs[t], FileOf(s.files, t), s.cut[t], r);
        }
        if u !in s.behind {
          ShowsAppend(s.bufs[t], s.emitted[t], s.cut[t], r);
        }
      } else if u !in s.stale {
        NumberedMore(s.bufs[u], FileOf(s.files, u), s.cut[u], s.seqNum, s'.seqNum);
      }
    }
  }

  /** What rewriting a file with the given records can leave on disk: with none the
      file goes, and a failed step leaves it alone. */
  function Rewritten(files: map<string, seq<Record>>, t: string, records: seq<Record>, done: bool): map<string, seq<Record>> {
    if !done then files else if records == [] then files - {t} else files[t := records]
  }

  /** Records up to the cutoff leave the buffer; the file follows unless its rewrite fails. */
  function AfterTrim(s: State, t: string, cutoff: int, done: bool): State
    requires t in s.bufs
  {
    var kept := Newer(s.bufs[t], cutoff);
    s.(bufs := s.bufs[t := kept],
       cut := s.cut[t := cutoff],
       files := if kept == s.bufs[t] then s.files else Rewritten(s.files, t, kept, done),
       clock := cutoff + RETENTION)
  }

  lemma TrimKeeps(s: State, t: string, cutoff: int, done: bool)
    requires StateOk(s) && t in s.bufs && s.clock <= cutoff + RETENTION
    ensures StateOk(AfterTrim(s, t, cutoff, done))
  {
    hide Numbered, Shows;
    var s', kept := AfterTrim(s, t, cutoff, done), Newer(s.bufs[t], cutoff);
    forall u | u in s'.bufs
      ensures TableOk(s', u)
    {
      assert TableOk(s, u);
      if u == t {
        if u !in s.stale {
          NumberedTrim(s.bufs[t], FileOf(s.files, t), s.cut[t], s.seqNum, cutoff);
        }
        if u !in s.unsynced {
          ShowsTrim(s.bufs[t], FileOf(s.files, t), s.cut[t], cutoff);
        }
        if u !in s.behind {
          ShowsTrim(s.bufs[t], s.emitted[t], s.cut[t], cutoff);
        }
      }
    }
  }

  /** Streaming is switched off: buffer and history go, and the file unless its removal fails. */
  function AfterDelete(s: State, t: string, removed: bool): State {
    s.(bufs := s.bufs - {t},
       cut := s.cut - {t},
       emitted := s.emitted - {t},
       files := if removed then s.files - {t} else s.files,
       unsynced := s.unsynced - {t},
       stale := if removed then s.stale - {t} else s.stale + {t},
       behind := s.behind - {t})
  }

  lemma DeleteKeeps(s: State, t: string, removed: bool)
    requires StateOk(s)
    ensures StateOk(AfterDelete(s, t, removed))
  {
    hide Numbered, Shows;
    var s' := AfterDelete(s, t, removed);
    forall u | u in s'.bufs
      ensures TableOk(s', u)
    {
      assert TableOk(s, u);
    }
  }

  /** A buffer that was just loaded shows the file it came from, rewritten or not, and
      what the stream starts with. */
  lemma LoadedShows(file: seq<Record>, cutoff: int)
    ensures var loaded := Newer(file, cutoff);
            Shows(loaded, file, cutoff) && Shows(loaded, loaded, cutoff)
  {
    NewerNewer(file, cutoff, cutoff);
  }

  lemma NothingShown(cut: int, seqNum: nat)
    ensures Numbered([], [], cut, seqNum) && Shows([], [], cut) && Newer([], cut) == []
  {
  }

  /** A new buffer is filled from the file, if there is a readable one. */
  function AfterEnsure(s: State, t: string, now: int, readable: bool, done: bool): State {
    if t in s.bufs then s.(clock := now)
    else
      var loaded := if readable then Newer(FileOf(s.files, t), now - RETENTION) else [];
      s.(bufs := s.bufs[t := loaded],
         cut := s.cut[t := now - RETENTION],
         emitted := s.emitted[t := loaded],
         files := if readable && loaded != FileOf(s.files, t) then Rewritten(s.files, t, loaded, done) else s.files,
         unsynced := if readable then s.unsynced - {t} else s.unsynced + {t},
         behind := s.behind - {t},
         clock := now)
  }

  lemma EnsureKeeps(s: State, t: string, now: int, readable: bool, done: bool)
    requires StateOk(s) && s.clock <= now
    ensures StateOk(AfterEnsure(s, t, now, readable, done))
  {
    hide Numbered, Shows;
    var s' := AfterEnsure(s, t, now, readable, done);
    NothingShown(now - RETENTION, s.seqNum);
    LoadedShows(FileOf(s.files, t), now - RETENTION);
    forall u | u in s'.bufs
      ensures TableOk(s', u)
    {
      if u in s.bufs {
        assert TableOk(s, u);
      }
    }
  }

  /** A restart at time `now`: memory is lost, every buffer is read back from its file
      but those of `unread`, and the counter starts at the clock or at the highest number
      read. */
  predicate IsRestart(s: State, s': State, now: int, unread: set<string>) {
    && s'.bufs.Keys == s.bufs.Keys == s'.cut.Keys && unread <= s.bufs.Keys
    && s'.clock == now && s'.emitted == s.emitted
    && s'.stale == s.stale + unread && s'.unsynced == unread && s'.behind == Behind(s, unread)
    && s'.files.Keys <= s.files.Keys
    && (forall t :: t in s.bufs ==> ReadBack(s, s', now, unread, t))
  }

  /** The tables whose buffers lack records after a restart. */
  function Behind(s: State, unread: set<string>): set<string> {
    s.behind + (s.unsynced * s.bufs.Keys) + unread
  }

  predicate ReadBack(s: State, s': State, now: int, unread: set<string>, t: string)
    requires t in s'.bufs && t in s'.cut
  {
    && s'.cut[t] == now - RETENTION
    && AtMost(s'.bufs[t], s'.seqNum)
    && if t in unread then s'.bufs[t] == [] && FileOf(s'.files, t) == FileOf(s.files, t)
       else Restored(s'.bufs[t], FileOf(s.files, t), FileOf(s'.files, t), now - RETENTION)
  }

  /** A buffer read from a file that was, if at all, rewritten with it. */
  predicate Restored(buf: seq<Record>, file: seq<Record>, file': seq<Record>, cutoff: int) {
    buf == Newer(file, cutoff) && (file' == file || file' == buf)
  }

  lemma RestartParts(s: State, s': State, now: int, unread: set<string>)
    requires IsRestart(s, s', now, unread)
    ensures s'.bufs.Keys == s.bufs.Keys && unread <= s.bufs.Keys && s'.clock == now
    ensures s'.emitted == s.emitted && s'.unsynced == unread && s'.behind == Behind(s, unread)
  {
  }

  /** A restart is a trim of every buffer but those that could not be read or whose file
      was not in step, and numbering goes on above what was read. */
  lemma RestartIsTrim(s: State, s': State, now: int, unread: set<string>)
    requires StateOk(s) && s.clock <= now && IsRestart(s, s', now, unread)
    ensures StateOk(s')
    ensures forall t :: t in s.bufs && t !in unread && t !in s.unsynced ==> s'.bufs[t] == Newer(s.bufs[t], now - RETENTION)
  {
    hide TableOk, ReadBack;
    forall t | t in s.bufs
      ensures TableOk(s', t)
      ensures t !in unread && t !in s.unsynced ==> s'.bufs[t] == Newer(s.bufs[t], now - RETENTION)
    {
      assert TableOk(s, t) && ReadBack(s, s', now, unread, t);
      TableRestarts(s, s', now, unread, t);
    }
  }

  lemma TableRestarts(s: State, s': State, now: int, unread: set<string>, t: string)
    requires t in s.bufs && t in s.cut && t in s.emitted && t in s'.bufs && t in s'.cut && t in s'.emitted
    requires TableOk(s, t) && s.clock <= now && s'.clock == now && ReadBack(s, s', now, unread, t) && s'.emitted == s.emitted
    requires s'.stale == s.stale + unread && s'.unsynced == unread && s'.behind == Behind(s, unread)
    ensures TableOk(s', t)
    ensures t !in unread && t !in s.unsynced ==> s'.bufs[t] == Newer(s.bufs[t], now - RETENTION)
  {
    hide Numbered, Shows;
    var cutoff := now - RETENTION;
    if t !in s'.stale {
      LoadedNumbered(s.bufs[t], FileOf(s.files, t), s.cut[t], s.seqNum, cutoff, s'.bufs[t], FileOf(s'.files, t), s'.seqNum);
    }
    if t !in unread {
      LoadedShows(FileOf(s.files, t), cutoff);
    }
    if t !in unread && t !in s.unsynced {
      LoadIsTrim(s.bufs[t], FileOf(s.files, t), s.cut[t], cutoff);
      if t !in s.behind {
        ShowsTrim(s.bufs[t], s.emitted[t], s.cut[t], cutoff);
      }
    }
  }

  lemma LoadedNumbered(buf: seq<Record>, file: seq<Record>, cut: int, seqNum: nat, cutoff: int,
                       loaded: seq<Record>, file': seq<Record>, seqNum': nat)
    requires Numbered(buf, file, cut, seqNum) && cut <= cutoff
    requires loaded == Newer(file, cutoff) && (file' == file || file' == loaded) && AtMost(loaded, seqNum')
    ensures Numbered(loaded, file', cutoff, seqNum')
  {
    NewerNewer(file, cut, cutoff);
    NewerIncreasing(Newer(file, cut), cutoff);
    NewerNewer(file, cutoff, cutoff);
  }

  function Millis(now: int): nat { if now < 0 then 0 else now / 1_000_000 }

  class Streams {
    var bufs: map<string, seq<Record>>
    var files: map<string, seq<Record>>
    var temps: map<string, seq<Record>>
    var seqNum: nat
    var clock: int

    ghost var cut: map<string, int>
    ghost var emitted: map<string, seq<Record>>
    ghost var unsynced: set<string>
    ghost var stale: set<string>
    ghost var behind: set<string>

    ghost function St(): State
      reads this
    {
      State(bufs, files, seqNum, clock, cut, emitted, unsynced, stale, behind)
    }

    ghost predicate Valid()
      reads this
    {
      StateOk(St())
    }

    constructor (now: int)
      ensures Valid() && St() == State(map[], map[], Millis(now), now, map[], map[], {}, {}, {})
    {
      bufs, files, temps, emitted, cut := map[], map[], map[], map[], map[];
      unsynced, stale, behind := {}, {}, {};
      seqNum, clock := Millis(now), now;
    }

    /** `emitStreamRecord`: without a buffer nothing happens; the append may fail. */
    method Emit(t: string, event: Event, view: View, keys: Item,
                oldImage: Option<Item>, newImage: Option<Item>, now: int) returns (appended: bool)
      requires Valid() && clock <= now
      modifies this
      ensures Valid()
      ensures St() == if t !in old(bufs) then old(St()).(clock := now)
                      else AfterEmit(old(St()), t, RecordFor(event, view, keys, oldImage, newImage, old(seqNum) + 1, now), appended)
    {
      hide StateOk, RecordFor;
      Domains(St());
      clock := now;
      if t !in bufs {
        ClockKeeps(old(St()), now);
        return false;
      }
      seqNum := seqNum + 1;
      var r := RecordFor(event, view, keys, oldImage, newImage, seqNum, now);
      bufs := bufs[t := bufs[t] + [r]];
      emitted := emitted[t := emitted[t] + [r]];
      appended := *;
      if appended {
        files := files[t := FileOf(files, t) + [r]];
      } else {
        unsynced := unsynced + {t};
      }
      EmitKeeps(old(St()), t, r, appended);
    }

    /** `rewriteStreamFile`: through a temporary file, each step of which may fail.
        `moments` lists what the table's file is at every point a crash could hit. */
    method Rewrite(t: string, records: seq<Record>) returns (done: bool, ghost moments: seq<seq<Record>>)
      modifies this`files, this`temps
      ensures files == Rewritten(old(files), t, records, done)
      ensures forall m :: m in moments ==> m == FileOf(old(files), t) || m == records
      ensures moments != [] && moments[|moments| - 1] == FileOf(files, t)
    {
      moments := [FileOf(files, t)];
      done := *;
      if records == [] {
        if done {
          files := files - {t};
        }
        moments := moments + [FileOf(files, t)];
        return;
      }
      var created: bool := *;
      if !created {
        return false, moments;
      }
      temps := temps[t := []];
      moments := moments + [FileOf(files, t)];
      var written: bool := *;
      if written {
        temps := temps[t := records];
      }
      moments := moments + [FileOf(files, t)];
      if written && done {
        files := files[t := temps[t]];
        temps := temps - {t};
      } else {
        done := false;
        var cleaned: bool := *;
        if cleaned {
          temps := temps - {t};
        }
      }
      moments := moments + [FileOf(files, t)];
    }

    /** `trimStreamForTable` at time `now`. A crash at any moment leaves a file from
        which the trimmed buffer is read back. */
    method Trim(t: string, now: int) returns (done: bool, ghost moments: seq<seq<Record>>)
      requires Valid() && clock <= now
      modifies this
      ensures Valid()
      ensures St() == if t !in old(bufs) then old(St()).(clock := now)
                      else AfterTrim(old(St()), t, now - RETENTION, done)
      ensures t in bufs && t !in unsynced ==>
                forall m :: m in moments ==> Newer(m, now - RETENTION) == bufs[t]
    {
      hide StateOk, Newer;
      if t !in bufs {
        ClockKeeps(St(), now);
        clock := now;
        return false, [];
      }
      TrimKeepsBoth(St(), t, now - RETENTION);
      if t !in unsynced {
        CrashMoments(St(), t, now - RETENTION);
      }
      done, moments := TrimBuffer(t, now - RETENTION);
    }

    method TrimBuffer(t: string, cutoff: int) returns (done: bool, ghost moments: seq<seq<Record>>)
      requires t in bufs
      modifies this
      ensures St() == AfterTrim(old(St()), t, cutoff, done)
      ensures forall m :: m in moments ==> m == FileOf(old(files), t) || m == Newer(old(bufs[t]), cutoff)
    {
      hide Newer;
      var trimmed := KeepNewer(bufs[t], cutoff);
      NewerSize(bufs[t], cutoff);
      cut := cut[t := cutoff];
      clock := cutoff + RETENTION;
      if |trimmed| == |bufs[t]| {
        return false, [FileOf(files, t)];
      }
      bufs := bufs[t := trimmed];
      done, moments := Rewrite(t, trimmed);
    }

    /** `loadStreamRecordsFromDisk`: an unreadable file counts as empty, and a file
        with expired records is rewritten. */
    method Load(t: string, now: int) returns (records: seq<Record>, readable: bool, done: bool, ghost moments: seq<seq<Record>>)
      modifies this`files, this`temps
      ensures records == if readable then Newer(FileOf(old(files), t), now - RETENTION) else []
      ensures files == if readable && records != FileOf(old(files), t)
                       then Rewritten(old(files), t, records, done) else old(files)
      ensures forall m :: m in moments ==> m == FileOf(old(files), t) || m == records
      ensures forall u :: u != t ==> FileOf(files, u) == FileOf(old(files), u)
      ensures readable ==> Restored(records, FileOf(old(files), t), FileOf(files, t), now - RETENTION)
      ensures files.Keys <= old(files.Keys)
    {
      hide Newer;
      readable, done, moments := *, false, [FileOf(files, t)];
      if !readable {
        return [], false, false, moments;
      }
      var all := FileOf(files, t);
      records := KeepNewer(all, now - RETENTION);
      NewerSize(all, now - RETENTION);
      if |records| != |all| {
        done, moments := Rewrite(t, records);
      }
    }

    /** `ensureStreamBuffer`. */
    method Ensure(t: string, now: int) returns (readable: bool, done: bool)
      requires Valid() && clock <= now
      modifies this
      ensures Valid() && St() == AfterEnsure(old(St()), t, now, readable, done)
    {
      hide StateOk, Newer;
      clock := now;
      if t in bufs {
        ClockKeeps(old(St()), now);
        return true, false;
      }
      var records;
      ghost var moments;
      records, readable, done, moments := Load(t, now);
      EnsureKeeps(old(St()), t, now, readable, done);
      bufs := bufs[t := records];
      cut := cut[t := now - RETENTION];
      emitted := emitted[t := records];
      unsynced := if readable then unsynced - {t} else unsynced + {t};
      behind := behind - {t};
    }

    /** The start of a process: memory is gone, and the buffers of the streaming tables
        are read back from disk before the counter is set. */
    method Restart(tables: set<string>, now: int) returns (ghost unread: set<string>)
      requires Valid() && clock <= now && tables == bufs.Keys
      modifies this
      ensures Valid() && IsRestart(old(St()), St(), now, unread)
      ensures forall t :: t in old(bufs) && t !in unread && t !in old(unsynced) ==>
                bufs[t] == Newer(old(bufs[t]), now - RETENTION)
    {
      hide StateOk, IsRestart, Newer;
      unread := Reload(tables, now);
      RestartIsTrim(old(St()), St(), now, unread);
    }

    method Reload(tables: set<string>, now: int) returns (ghost unread: set<string>)
      requires Valid() && clock <= now && tables == bufs.Keys
      modifies this
      ensures IsRestart(old(St()), St(), now, unread)
    {
      hide StateOk, Newer, AtMost, Restored, FileOf, IsRestart, Behind;
      Domains(St());
      seqNum := Millis(now);
      bufs, unread := LoadAll(tables, now);
      cut, stale, unsynced, behind := map t | t in tables :: now - RETENTION, stale + unread, unread, Behind(old(St()), unread);
      var top := HighestSeq(bufs);
      AtMostMax(bufs, top, seqNum);
      if top > seqNum {
        seqNum := top;
      }
      clock := now;
      LoadedIsRestart(old(St()), St(), now, unread);
    }

    /** `loadAllStreamBuffers`. */
    method LoadAll(tables: set<string>, now: int)
      returns (loaded: map<string, seq<Record>>, ghost unread: set<string>)
      modifies this`files, this`temps
      ensures loaded.Keys == tables && files.Keys <= old(files.Keys) && unread <= tables
      ensures forall t :: t in tables ==>
                if t in unread then loaded[t] == [] && FileOf(files, t) == FileOf(old(files), t)
                else Restored(loaded[t], FileOf(old(files), t), FileOf(files, t), now - RETENTION)
    {
      hide Rewritten, FileOf, Restored;
      var rest := tables;
      loaded, unread := map[], {};
      while rest != {}
        invariant rest <= tables && loaded.Keys == tables - rest && unread <= loaded.Keys
        invariant files.Keys <= old(files.Keys)
        invariant forall t :: t in loaded ==>
                    if t in unread then loaded[t] == [] && FileOf(files, t) == FileOf(old(files), t)
                    else Restored(loaded[t], FileOf(old(files), t), FileOf(files, t), now - RETENTION)
        invariant forall t :: t in rest ==> FileOf(files, t) == FileOf(old(files), t)
        decreases rest
      {
        var t :| t in rest;
        var records, readable, done;
        ghost var moments;
        records, readable, done, moments := Load(t, now);
        loaded := loaded[t := records];
        if !readable {
          unread := unread + {t};
        }
        rest := rest - {t};
      }
    }

    /** `deleteStreamBuffer`. */
    method Drop(t: string) returns (removed: bool)
      requires Valid()
      modifies this
      ensures Valid() && St() == AfterDelete(old(St()), t, removed)
    {
      hide StateOk;
      bufs, cut, emitted := bufs - {t}, cut - {t}, emitted - {t};
      unsynced, behind := unsynced - {t}, behind - {t};
      removed := *;
      if removed {
        files := files - {t};
        stale := stale - {t};
      } else {
        stale := stale + {t};
      }
      DeleteKeeps(old(St()), t, removed);
    }
  }

  /** The nested loop that finds the highest restored sequence number. */
  method HighestSeq(bufs: map<string, seq<Record>>) returns (top: nat)
    ensures forall t :: t in bufs ==> AtMost(bufs[t], top)
  {
    top := 0;
    var rest := bufs.Keys;
    while rest != {}
      invariant rest <= bufs.Keys
      invariant forall t :: t in bufs && t !in rest ==> AtMost(bufs[t], top)
      decreases |rest|
    {
      var t :| t in rest;
      ghost var before := top;
      for i := 0 to |bufs[t]|
        invariant before <= top && AtMost(bufs[t][..i], top)
      {
        if bufs[t][i].seqNum > top {
          top := bufs[t][i].seqNum;
        }
      }
      assert bufs[t][..|bufs[t]|] == bufs[t];
      rest := rest - {t};
    }
  }

  lemma LoadedIsRestart(s: State, s': State, now: int, unread: set<string>)
    requires s'.bufs.Keys == s.bufs.Keys && s'.cut == map t | t in s.bufs :: now - RETENTION
    requires s'.clock == now && s'.emitted == s.emitted && unread <= s.bufs.Keys
    requires s'.stale == s.stale + unread && s'.unsynced == unread && s'.behind == Behind(s, unread)
    requires s'.files.Keys <= s.files.Keys
    requires forall t :: t in s'.bufs ==> AtMost(s'.bufs[t], s'.seqNum)
    requires forall t :: t in s'.bufs ==>
               if t in unread then s'.bufs[t] == [] && FileOf(s'.files, t) == FileOf(s.files, t)
               else Restored(s'.bufs[t], FileOf(s.files, t), FileOf(s'.files, t), now - RETENTION)
    ensures IsRestart(s, s', now, unread)
  {
    hide AtMost, Restored, FileOf, Behind;
  }

  lemma AtMostMax(bufs: map<string, seq<Record>>, top: nat, seqNum: nat)
    requires forall t :: t in bufs ==> AtMost(bufs[t], top)
    ensures forall t :: t in bufs ==> AtMost(bufs[t], if top > seqNum then top else seqNum)
  {
  }

  lemma Domains(s: State)
    requires StateOk(s)
    ensures s.bufs.Keys == s.cut.Keys == s.emitted.Keys
  {
  }

  lemma CrashMoments(s: State, t: string, cutoff: int)
    requires StateOk(s) && t in s.bufs && t !in s.unsynced && s.cut[t] <= cutoff
    ensures Newer(FileOf(s.files, t), cutoff) == Newer(s.bufs[t], cutoff)
    ensures Newer(Newer(s.bufs[t], cutoff), cutoff) == Newer(s.bufs[t], cutoff)
  {
    assert TableOk(s, t);
    LoadIsTrim(s.bufs[t], FileOf(s.files, t), s.cut[t], cutoff);
    NewerNewer(s.bufs[t], cutoff, cutoff);
  }

  lemma TrimKeepsBoth(s: State, t: string, cutoff: int)
    requires StateOk(s) && t in s.bufs && s.clock <= cutoff + RETENTION
    ensures StateOk(AfterTrim(s, t, cutoff, true)) && StateOk(AfterTrim(s, t, cutoff, false))
    ensures s.cut[t] <= cutoff
  {
    assert TableOk(s, t);
    TrimKeeps(s, t, cutoff, true);
    TrimKeeps(s, t, cutoff, false);
  }

  lemma ClockKeeps(s: State, now: int)
    requires StateOk(s) && s.clock <= now
    ensures StateOk(s.(clock := now))
  {
    hide Numbered, Shows;
    forall t | t in s.bufs
      ensures TableOk(s.(clock := now), t)
    {
      assert TableOk(s, t);
    }
  }

  function RecordFor(event: Event, view: View, keys: Item, oldImage: Option<Item>, newImage: Option<Item>,
                     seqNum: nat, now: int): (r: Record)
    ensures r.seqNum == seqNum && r.createdAt == now
  {
    match view
    case KeysOnly => Record(event, view, keys, None, None, seqNum, now)
    case NewOnly => Record(event, view, keys, newImage, None, seqNum, now)
    case OldOnly => Record(event, view, keys, None, oldImage, seqNum, now)
    case NewAndOld => Record(event, view, keys, newImage, oldImage, seqNum, now)
  }
}

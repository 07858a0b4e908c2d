/** Runs in which a promise of the store fails, one for each condition proved elsewhere.
    Each is first built on any run with a log of the right shape, then on a new store. */
module StoreCounterexamples {
  import opened LogNames
  import opened Ordered
  import opened StoreTypes
  import opened Directory
  import opened StoreOps
  import opened StoreTheorems
  import opened StoreFailures
  import opened StoreLog

  // ------------------------------------------------------------ building runs

  ghost function After(c: Codecs, evs: seq<Event>): World {
    Run(c, EMPTY_WORLD, evs)
  }

  lemma {:induction false} RunSnoc(c: Codecs, evs: seq<Event>, ev: Event)
    requires LegalRun(c, EMPTY_WORLD, evs) && Legal(c, After(c, evs), ev)
    ensures LegalRun(c, EMPTY_WORLD, evs + [ev]) && After(c, evs + [ev]) == Next(c, After(c, evs), ev)
  {
    var longer := evs + [ev];
    assert longer[..|longer| - 1] == evs && longer[|longer| - 1] == ev;
  }

  lemma {:induction false} OrderlySnoc(c: Codecs, evs: seq<Event>, op: Op)
    requires Orderly(c, evs) && !Stuck(evs) && Contract(op, After(c, evs).mem)
    ensures Orderly(c, evs + [Done(op)]) && !Stuck(evs + [Done(op)])
  {
    var longer := evs + [Done(op)];
    assert longer[..|longer| - 1] == evs && longer[|longer| - 1] == Done(op);
  }

  /** A directory in which an operation can be stopped before its step `at`. */
  lemma {:induction false} StopsHere(c: Codecs, op: Op, w: World, at: nat) returns (files: Files)
    requires Admissible(op, w.mem) && at < |Steps(c, op, w.mem)|
    ensures Legal(c, w, Crashed(op, at, files))
    ensures !Steps(c, op, w.mem)[at].Cache? ==> Legal(c, w, Failed(op, at, files))
  {
    files := DoAll(c, Steps(c, op, w.mem)[..at], w).files;
    assert Torn(c, Steps(c, op, w.mem)[at], files, files);
  }

  function Id(i: U64): LogId {
    LogId(1, 1, i)
  }

  function Blanks(n: U64): (es: seq<Entry>)
    ensures |es| == n && forall k :: 0 <= k < n ==> es[k] == Entry(Id(k), Blank)
  {
    seq(n, k requires 0 <= k < n => Entry(Id(k), Blank))
  }

  lemma {:induction false} BlanksIndexed(n: U64)
    ensures forall k: U64 :: k in Indexed(Blanks(n)) <==> k < n
    ensures forall k: U64 :: k in Indexed(Blanks(n)) ==> Indexed(Blanks(n))[k] == Entry(Id(k), Blank)
  {
    if n > 0 {
      BlanksIndexed(n - 1);
      assert Blanks(n)[..n - 1] == Blanks(n - 1);
    }
  }

  /** A new store that has appended the entries 0 to n - 1. */
  function Begun(n: U64): seq<Event> {
    [Done(Append(Blanks(n)))]
  }

  lemma {:induction false} BegunIs(c: Codecs, n: U64)
    requires c.Lawful()
    ensures Orderly(c, Begun(n)) && !Stuck(Begun(n)) && LegalRun(c, EMPTY_WORLD, Begun(n))
    ensures NeverRestarted(Begun(n)) && !FailedSinceOpen(Begun(n)) && !PurgedSinceOpen(Begun(n))
    ensures var m := After(c, Begun(n)).mem;
            && m.lastPurged == None && (forall k: U64 :: k in m.log <==> k < n)
            && (forall k: U64 :: k in m.log ==> m.log[k] == Entry(Id(k), Blank))
  {
    var es := Blanks(n);
    assert Begun(n) == [] + [Done(Append(es))];
    OrderlySnoc(c, [], Append(es));
    OrderlyIsLegal(c, Begun(n));
    RunSnoc(c, [], Done(Append(es)));
    DoneAppend(c, es, EMPTY_MEM, BLANK_DISK);
    MemAlone(c, Steps(c, Append(es), EMPTY_MEM), EMPTY_WORLD);
    BlanksIndexed(n);
  }

  lemma {:induction false} OnlyKey(keys: seq<U64>, k: U64)
    requires ToSet(keys) == {k} && |keys| == 1
    ensures keys == [k]
  {
    assert keys[0] in ToSet(keys);
  }

  // ------------------------------------------------- `last_log_id` over a restart

  /** Purging everything and starting again loses `last_log_id`. */
  lemma {:induction false} PurgeAllForgets(c: Codecs, evs: seq<Event>, id: LogId)
    requires c.Lawful() && LegalRun(c, EMPTY_WORLD, evs) && !FailedSinceOpen(evs)
    requires Admissible(Purge(id), After(c, evs).mem)
    requires forall k :: k in After(c, evs).mem.log ==> k <= id.index
    ensures var longer := evs + [Done(Purge(id))];
            && LegalRun(c, EMPTY_WORLD, longer) && !FailedSinceOpen(longer)
            && var w := After(c, longer);
               LastLogId(w.mem) == Some(id) && LastLogId(Loaded(c, w.files)) == None
  {
    var w, op := After(c, evs), Purge(id);
    var longer := evs + [Done(op)];
    RunSnoc(c, evs, Done(op));
    assert longer[..|longer| - 1] == evs;
    DoneLog(c, op, w.mem);
    MemAlone(c, Steps(c, op, w.mem), w);
    assert w.mem.log - ToSet(KeysUpTo(w.mem, id.index)) == map[];
    RecoveryRefinesMemory(c, longer);
  }

  /** Append entry 0, purge it, start again: `last_log_id` is gone. */
  lemma {:induction false} RestartForgetsPurged(c: Codecs)
    requires c.Lawful()
    ensures var evs := Begun(1) + [Done(Purge(Id(0)))];
            && LegalRun(c, EMPTY_WORLD, evs) && !FailedSinceOpen(evs)
            && LastLogId(After(c, evs).mem) == Some(Id(0)) && LastLogId(Loaded(c, After(c, evs).files)) == None
  {
    BegunIs(c, 1);
    PurgeAllForgets(c, Begun(1), Id(0));
  }

  lemma {:induction false} DroppedFromCache(m: Mem, d: Disk, k: U64)
    ensures |DropSteps(m, [k])| == 2 && DropSteps(m, [k])[1] == Drop(k)
    ensures MemAfterAll(DropSteps(m, [k])[..1], m) == m.(log := m.log - {k})
    ensures DiskAfterAll(DropSteps(m, [k])[..1], d) == d
  {
    DropDisk(m, d, [k], 1);
    DropMem(m, [k], 1);
    ShrunkNone(d, [k]);
    assert [k][..1] == [k] && ToSet([k]) == {k};
  }

  /** Cutting off the last entry and failing to unlink it. */
  lemma {:induction false} FailedCut(c: Codecs, w: World, id: LogId) returns (files: Files)
    requires c.Lawful() && Sound(c, w.files)
    requires id.index in w.mem.log && forall k :: k in w.mem.log ==> k <= id.index
    ensures Legal(c, w, Failed(Truncate(id), 1, files))
    ensures var u := Next(c, w, Failed(Truncate(id), 1, files));
            && u.mem == w.mem.(log := w.mem.log - {id.index})
            && Sound(c, u.files) && DiskOf(c, u.files) == DiskOf(c, w.files)
  {
    var keys := KeysFrom(w.mem, id.index);
    assert ToSet(keys) == {id.index};
    OnlyKey(keys, id.index);
    DroppedFromCache(w.mem, DiskOf(c, w.files), id.index);
    assert Steps(c, Truncate(id), w.mem) == DropSteps(w.mem, [id.index]);
    files := StopsHere(c, Truncate(id), w, 1);
    EventRefines(c, w, Failed(Truncate(id), 1, files));
  }

  lemma {:induction false} CutChangesLast(m: Mem, loaded: Mem, last: U64, other: U64)
    requires m.log == loaded.log - {last} && last in loaded.log && other in loaded.log && other < last
    requires forall k :: k in loaded.log ==> k <= last && loaded.log[k].logId.index == k
    ensures m.log != map[] && LastLogId(loaded) != LastLogId(m)
  {
    assert other in m.log && Greatest(loaded.log.Keys) == last;
  }

  lemma {:induction false} CutComesBack(c: Codecs, w: World, id: LogId, other: U64) returns (files: Files)
    requires c.Lawful() && Sound(c, w.files) && DiskOf(c, w.files).log == w.mem.log
    requires id.index in w.mem.log && other in w.mem.log && other < id.index
    requires forall k :: k in w.mem.log ==> k <= id.index
    ensures Legal(c, w, Failed(Truncate(id), 1, files))
    ensures var u := Next(c, w, Failed(Truncate(id), 1, files));
            u.mem.log != map[] && LastLogId(Loaded(c, u.files)) != LastLogId(u.mem)
  {
    files := FailedCut(c, w, id);
    var u := Next(c, w, Failed(Truncate(id), 1, files));
    DiskConsistent(c, u.files);
    CutChangesLast(u.mem, Loaded(c, u.files), id.index, other);
  }

  lemma {:induction false} PurgedSnoc(evs: seq<Event>, ev: Event)
    requires !ev.Crashed? && !ev.op.Purge?
    ensures PurgedSinceOpen(evs + [ev]) <==> PurgedSinceOpen(evs)
  {
    var longer := evs + [ev];
    assert longer[..|longer| - 1] == evs && longer[|longer| - 1] == ev;
  }

  /** After any orderly run with two entries or more, a truncation of the last one whose
      unlink fails comes back: the log is not empty, nothing need have been purged, and yet a
      restart changes `last_log_id`. */
  lemma {:induction false} FailedTruncateComesBack(c: Codecs, evs: seq<Event>, id: LogId, other: U64)
    returns (files: Files)
    requires c.Lawful() && Orderly(c, evs) && !Stuck(evs) && other in After(c, evs).mem.log
    requires id.index in After(c, evs).mem.log && other < id.index
    requires forall k :: k in After(c, evs).mem.log ==> k <= id.index
    ensures var longer := evs + [Failed(Truncate(id), 1, files)];
            && LegalRun(c, EMPTY_WORLD, longer) && (PurgedSinceOpen(longer) <==> PurgedSinceOpen(evs))
            && After(c, longer).mem.log != map[]
            && LastLogId(Loaded(c, After(c, longer).files)) != LastLogId(After(c, longer).mem)
  {
    OrderlyIsLegal(c, evs);
    LogHasNoGaps(c, evs);
    files := CutComesBack(c, After(c, evs), id, other);
    var ev := Failed(Truncate(id), 1, files);
    RunSnoc(c, evs, ev);
    PurgedSnoc(evs, ev);
  }

  /** Append entries 0 and 1, fail to unlink entry 1 in a truncation, start again. */
  lemma {:induction false} NewStoreComesBack(c: Codecs) returns (files: Files)
    requires c.Lawful()
    ensures var evs := Begun(2) + [Failed(Truncate(Id(1)), 1, files)];
            && LegalRun(c, EMPTY_WORLD, evs) && !PurgedSinceOpen(evs) && After(c, evs).mem.log != map[]
            && LastLogId(Loaded(c, After(c, evs).files)) != LastLogId(After(c, evs).mem)
  {
    BegunIs(c, 2);
    files := FailedTruncateComesBack(c, Begun(2), Id(1), 0);
  }

  // ------------------------------------------------------------ holes in the log

  ghost predicate HasHole(c: Codecs, files: Files) {
    Sound(c, files) && !Interval(DiskOf(c, files).log.Keys)
  }

  /** After any orderly run, a truncation of two or more entries that leaves one below can
      be killed so that a hole remains. */
  lemma {:induction false} TruncateCanLeaveHole(c: Codecs, evs: seq<Event>, id: LogId, below: U64)
    returns (files: Files)
    requires c.Lawful() && Orderly(c, evs) && !Stuck(evs) && Contract(Truncate(id), After(c, evs).mem)
    requires below in After(c, evs).mem.log && below < id.index
    requires |KeysFrom(After(c, evs).mem, id.index)| >= 2
    ensures Legal(c, After(c, evs), Crashed(Truncate(id), 2, files))
    ensures HasHole(c, files)
  {
    var m := After(c, evs).mem;
    files := StopsHere(c, Truncate(id), After(c, evs), 2);
    TruncateCrash(c, evs, id, 2, files);
    assert below in m.log.Keys && !NoHole(m, id.index, 1);
  }

  lemma {:induction false} TwoKeys(m: Mem, a: U64, b: U64, from: U64)
    requires a in m.log && b in m.log && from <= a < b
    ensures |KeysFrom(m, from)| >= 2
  {
    var keys := KeysFrom(m, from);
    assert a in ToSet(keys) && b in ToSet(keys);
  }

  /** Append entries 0, 1 and 2, die half-way through truncating from 1: entry 2 is still
      there and entry 1 is not. */
  lemma {:induction false} TruncateLeavesHole(c: Codecs) returns (files: Files)
    requires c.Lawful()
    ensures Orderly(c, Begun(3)) && Legal(c, After(c, Begun(3)), Crashed(Truncate(Id(1)), 2, files))
    ensures HasHole(c, files)
  {
    BegunIs(c, 3);
    TwoKeys(After(c, Begun(3)).mem, 1, 2, 1);
    files := TruncateCanLeaveHole(c, Begun(3), Id(1), 0);
  }

  lemma {:induction false} PurgeAtTwo(c: Codecs, m: Mem, d: Disk, id: LogId, low: U64)
    requires KeysUpTo(m, id.index) == [low, id.index]
    ensures var steps := Steps(c, Purge(id), m);
            && |steps| == 5 && steps[2] == Drop(low) && DiskAfterAll(steps[..2], d) == d
            && MemAfterAll(steps[..2], m) == m.(lastPurged := Some(id), log := m.log - {low})
  {
    var keys := [low, id.index];
    PurgeStopped(c, m, d, id, 2);
    ShrunkNone(d, keys);
    assert keys[..1] == [low] && ToSet([low]) == {low};
  }

  /** After any orderly run, a truncation of two or more entries that leaves one below and
      fails to unlink the first leaves a hole in the cache, the disk being untouched. */
  lemma {:induction false} TruncateCanHoleCache(c: Codecs, evs: seq<Event>, id: LogId, below: U64)
    returns (files: Files)
    requires c.Lawful() && Orderly(c, evs) && !Stuck(evs) && Contract(Truncate(id), After(c, evs).mem)
    requires below in After(c, evs).mem.log && below < id.index
    requires |KeysFrom(After(c, evs).mem, id.index)| >= 2
    ensures var ev := Failed(Truncate(id), 1, files);
            && Orderly(c, evs + [ev]) && Legal(c, After(c, evs), ev)
            && !Interval(Next(c, After(c, evs), ev).mem.log.Keys)
  {
    var m := After(c, evs).mem;
    files := StopsHere(c, Truncate(id), After(c, evs), 1);
    var ev := Failed(Truncate(id), 1, files);
    FailedTruncate(c, evs, id, 1, files);
    assert below in m.log.Keys && !NoHole(m, id.index, 1);
    assert (evs + [ev])[..|evs + [ev]| - 1] == evs;
  }

  /** Append entries 0, 1 and 2, fail to unlink entry 1 in a truncation from 1: entries 0 and
      2 are cached. */
  lemma {:induction false} NewStoreHolesCache(c: Codecs) returns (files: Files)
    requires c.Lawful()
    ensures var ev := Failed(Truncate(Id(1)), 1, files);
            && Orderly(c, Begun(3) + [ev]) && Legal(c, After(c, Begun(3)), ev)
            && !Interval(Next(c, After(c, Begun(3)), ev).mem.log.Keys)
  {
    BegunIs(c, 3);
    TwoKeys(After(c, Begun(3)).mem, 1, 2, 1);
    files := TruncateCanHoleCache(c, Begun(3), Id(1), 0);
  }

  /** A purge of the two lowest entries that fails to unlink the first. */
  lemma {:induction false} UnlinkFails(c: Codecs, w: World, id: LogId, low: U64) returns (files: Files)
    requires c.Lawful() && Sound(c, w.files) && w.mem.lastPurged == None
    requires KeysUpTo(w.mem, id.index) == [low, id.index]
    ensures Legal(c, w, Failed(Purge(id), 2, files))
    ensures var u := Next(c, w, Failed(Purge(id), 2, files));
            && u.mem == w.mem.(lastPurged := Some(id), log := w.mem.log - {low})
            && Sound(c, u.files) && DiskOf(c, u.files) == DiskOf(c, w.files)
  {
    PurgeAtTwo(c, w.mem, DiskOf(c, w.files), id, low);
    files := StopsHere(c, Purge(id), w, 2);
    EventRefines(c, w, Failed(Purge(id), 2, files));
  }

  lemma {:induction false} PurgeOne(c: Codecs, m: Mem, d: Disk, id: LogId)
    requires KeysUpTo(m, id.index) == [id.index]
    ensures var steps := Steps(c, Purge(id), m);
            DiskAfterAll(steps[..|steps|], d).log == d.log - {id.index}
  {
    var keys := [id.index];
    PurgeStopped(c, m, d, id, |Steps(c, Purge(id), m)|);
    assert keys[..1] == keys && ToSet(keys) == {id.index};
  }

  /** The same purge again, with the cache one key ahead of the disk. */
  lemma {:induction false} SecondPurge(c: Codecs, u: World, id: LogId, low: U64, high: U64)
    requires c.Lawful() && Sound(c, u.files) && low < id.index < high
    requires low in DiskOf(c, u.files).log && high in DiskOf(c, u.files).log
    requires u.mem.lastPurged == Some(id) && KeysUpTo(u.mem, id.index) == [id.index]
    ensures Legal(c, u, Done(Purge(id))) && Contract(Purge(id), u.mem)
    ensures HasHole(c, Next(c, u, Done(Purge(id))).files)
  {
    var d := DiskOf(c, u.files);
    EventRefines(c, u, Done(Purge(id)));
    PurgeOne(c, u.mem, d, id);
    NotAnInterval((d.log - {id.index}).Keys, low, id.index, high);
  }

  lemma {:induction false} TwoInOrder(keys: seq<U64>, a: U64, b: U64)
    requires Increasing(keys) && ToSet(keys) == {a, b} && |keys| == 2 && a < b
    ensures keys == [a, b]
  {
    assert keys[0] in ToSet(keys) && keys[1] in ToSet(keys) && keys[0] < keys[1];
  }

  lemma {:induction false} FirstTwo(m: Mem)
    requires forall k: U64 :: k in m.log <==> k < 3
    ensures KeysUpTo(m, 1) == [0, 1]
  {
    assert (set k | k in m.log && k <= 1) == {0, 1} && |KeysUpTo(m, 1)| == |{0, 1}|;
    TwoInOrder(KeysUpTo(m, 1), 0, 1);
  }

  lemma {:induction false} LowestGone(m: Mem, after: Mem, upTo: U64, low: U64)
    requires KeysUpTo(m, upTo) == [low, upTo] && low < upTo && after.log == m.log - {low}
    ensures KeysUpTo(after, upTo) == [upTo] && low in m.log
  {
    assert ToSet(KeysUpTo(m, upTo)) == {low, upTo};
    assert forall k :: k in m.log && k <= upTo <==> k in ToSet(KeysUpTo(m, upTo));
    assert (set k | k in after.log && k <= upTo) == {upTo};
    OnlyKey(KeysUpTo(after, upTo), upTo);
  }

  lemma {:induction false} TwoPurges(c: Codecs, w: World, id: LogId, low: U64, high: U64) returns (files: Files)
    requires c.Lawful() && Sound(c, w.files) && DiskOf(c, w.files).log == w.mem.log && w.mem.lastPurged == None
    requires KeysUpTo(w.mem, id.index) == [low, id.index] && low < id.index < high && high in w.mem.log
    ensures Legal(c, w, Failed(Purge(id), 2, files))
    ensures var u := Next(c, w, Failed(Purge(id), 2, files));
            && Legal(c, u, Done(Purge(id))) && Contract(Purge(id), u.mem)
            && HasHole(c, Next(c, u, Done(Purge(id))).files)
  {
    files := UnlinkFails(c, w, id, low);
    var u := Next(c, w, Failed(Purge(id), 2, files));
    LowestGone(w.mem, u.mem, id.index, low);
    SecondPurge(c, u, id, low, high);
  }

  /** Purging up to the second of three entries, failing to unlink the first, and purging
      again without starting again in between: the first stays on disk, the second goes. */
  lemma {:induction false} FailedPurgeLeavesHole(c: Codecs, evs: seq<Event>, id: LogId, low: U64, high: U64)
    returns (files: Files)
    requires c.Lawful() && Orderly(c, evs) && !Stuck(evs) && After(c, evs).mem.lastPurged == None
    requires KeysUpTo(After(c, evs).mem, id.index) == [low, id.index] && low < id.index < high
    requires high in After(c, evs).mem.log
    ensures var failed := evs + [Failed(Purge(id), 2, files)];
            && Contract(Purge(id), After(c, evs).mem) && Contract(Purge(id), After(c, failed).mem)
            && LegalRun(c, EMPTY_WORLD, failed + [Done(Purge(id))])
            && HasHole(c, After(c, failed + [Done(Purge(id))]).files)
  {
    OrderlyIsLegal(c, evs);
    LogHasNoGaps(c, evs);
    files := TwoPurges(c, After(c, evs), id, low, high);
    var failed := evs + [Failed(Purge(id), 2, files)];
    RunSnoc(c, evs, Failed(Purge(id), 2, files));
    RunSnoc(c, failed, Done(Purge(id)));
  }

  /** Append entries 0, 1 and 2, purge up to 1 with a failure, purge again. */
  lemma {:induction false} NewStoreLeavesHole(c: Codecs) returns (files: Files)
    requires c.Lawful()
    ensures var evs := Begun(3) + [Failed(Purge(Id(1)), 2, files)] + [Done(Purge(Id(1)))];
            LegalRun(c, EMPTY_WORLD, evs) && HasHole(c, After(c, evs).files)
  {
    BegunIs(c, 3);
    FirstTwo(After(c, Begun(3)).mem);
    files := FailedPurgeLeavesHole(c, Begun(3), Id(1), 0, 2);
  }

  // -------------------------------------------------------- parted snapshot data

  /** After any legal run, an installation can be killed so that the store recovers with the
      snapshot of the new data and the state machine it had on disk. */
  lemma {:induction false} InstallCanPartData(c: Codecs, evs: seq<Event>, meta: SnapshotMeta, bytes: Bytes)
    returns (files: Files)
    requires c.Lawful() && LegalRun(c, EMPTY_WORLD, evs) && c.data.decode(bytes).Some?
    ensures var w, ev := After(c, evs), Crashed(InstallSnapshot(meta, bytes), 3, files);
            && Legal(c, w, ev) && Sound(c, w.files)
            && Next(c, w, ev).mem.snapshot == Some(StoredSnapshot(meta, bytes))
            && Next(c, w, ev).mem.machine == DiskOf(c, w.files).machine
  {
    var w := After(c, evs);
    RunSound(c, evs);
    InstallDisk(c, w.mem, DiskOf(c, w.files), meta, bytes, 3);
    files := StopsHere(c, InstallSnapshot(meta, bytes), w, 3);
    NextSound(c, w, Crashed(InstallSnapshot(meta, bytes), 3, files));
  }

  /** Die between the write of data.bin and that of state_machine.bin while installing a
      snapshot in a new store: the recovered snapshot has data the state machine has not. */
  lemma {:induction false} InstallPartsData(c: Codecs, meta: SnapshotMeta, data: map<string, string>)
    returns (files: Files)
    requires c.Lawful() && data != map[]
    ensures var ev := Crashed(InstallSnapshot(meta, c.data.encode(data)), 3, files);
            && Legal(c, EMPTY_WORLD, ev)
            && var m := Next(c, EMPTY_WORLD, ev).mem;
               && m.machine.data == map[] && m.snapshot.Some?
               && c.data.decode(m.snapshot.value.data) == Some(data)
  {
    assert c.data.decode(c.data.encode(data)) == Some(data);
    files := InstallCanPartData(c, [], meta, c.data.encode(data));
  }

  /** After any legal run that left a data.bin, an installation can be killed so that the store
      recovers the new metadata with the old data. */
  lemma {:induction false} InstallCanMixSnapshots(c: Codecs, evs: seq<Event>, meta: SnapshotMeta, bytes: Bytes,
      there: Bytes) returns (files: Files)
    requires c.Lawful() && LegalRun(c, EMPTY_WORLD, evs) && c.data.decode(bytes).Some?
    requires Sound(c, After(c, evs).files) && DiskOf(c, After(c, evs).files).data == Some(there)
    ensures var w, ev := After(c, evs), Crashed(InstallSnapshot(meta, bytes), 2, files);
            Legal(c, w, ev) && Next(c, w, ev).mem.snapshot == Some(StoredSnapshot(meta, there))
  {
    var w := After(c, evs);
    InstallDisk(c, w.mem, DiskOf(c, w.files), meta, bytes, 2);
    files := StopsHere(c, InstallSnapshot(meta, bytes), w, 2);
    NextSound(c, w, Crashed(InstallSnapshot(meta, bytes), 2, files));
  }

  lemma {:induction false} InstallLength(c: Codecs, m: Mem, meta: SnapshotMeta, bytes: Bytes)
    requires c.data.decode(bytes).Some?
    ensures |Steps(c, InstallSnapshot(meta, bytes), m)| == 5
  {}

  lemma {:induction false} DoneInstallIs(c: Codecs, w: World, meta: SnapshotMeta, bytes: Bytes)
    requires c.Lawful() && Sound(c, w.files) && c.data.decode(bytes).Some?
    ensures var u := Next(c, w, Done(InstallSnapshot(meta, bytes)));
            && Sound(c, u.files) && DiskOf(c, u.files).data == Some(bytes)
            && DiskOf(c, u.files).meta == Some(meta)
  {
    var op := InstallSnapshot(meta, bytes);
    EventRefines(c, w, Done(op));
    InstallLength(c, w.mem, meta, bytes);
    InstallDisk(c, w.mem, DiskOf(c, w.files), meta, bytes, |Steps(c, op, w.mem)|);
  }

  lemma {:induction false} InstalledOnce(c: Codecs, meta: SnapshotMeta, bytes: Bytes)
    requires c.Lawful() && c.data.decode(bytes).Some?
    ensures var evs := [Done(InstallSnapshot(meta, bytes))];
            && LegalRun(c, EMPTY_WORLD, evs) && Sound(c, After(c, evs).files)
            && DiskOf(c, After(c, evs).files).data == Some(bytes)
            && Loaded(c, After(c, evs).files).snapshot == Some(StoredSnapshot(meta, bytes))
  {
    var ev := Done(InstallSnapshot(meta, bytes));
    assert [ev] == [] + [ev];
    RunSnoc(c, [], ev);
    RunSound(c, []);
    DoneInstallIs(c, After(c, []), meta, bytes);
  }

  /** Install one snapshot in a new store, die between the two snapshot files of another: the
      recovered snapshot has the metadata of the second and the data of the first. */
  lemma {:induction false} InstallMixesSnapshots(c: Codecs, meta: SnapshotMeta, data: map<string, string>,
      other: SnapshotMeta, otherData: map<string, string>) returns (files: Files)
    requires c.Lawful() && meta != other && data != otherData
    ensures var evs := [Done(InstallSnapshot(meta, c.data.encode(data)))];
            var ev := Crashed(InstallSnapshot(other, c.data.encode(otherData)), 2, files);
            && LegalRun(c, EMPTY_WORLD, evs) && Legal(c, After(c, evs), ev)
            && Next(c, After(c, evs), ev).mem.snapshot == Some(StoredSnapshot(other, c.data.encode(data)))
  {
    assert c.data.decode(c.data.encode(data)) == Some(data);
    InstalledOnce(c, meta, c.data.encode(data));
    assert c.data.decode(c.data.encode(otherData)) == Some(otherData);
    files := InstallCanMixSnapshots(c, [Done(InstallSnapshot(meta, c.data.encode(data)))], other,
      c.data.encode(otherData), c.data.encode(data));
  }
}

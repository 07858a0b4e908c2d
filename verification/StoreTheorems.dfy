/** What every run of the store keeps, across failures, crashes and restarts. */
module StoreTheorems {
  import opened LogNames
  import opened Ordered
  import opened StoreTypes
  import opened Directory
  import opened StoreOps

  // ------------------------------------------------ operations stopped half-way

  function Min(a: nat, b: nat): nat {
    if a < b then a else b
  }

  /** The durable state with the first `n` entries added. */
  function Grown(d: Disk, es: seq<Entry>, n: nat): Disk {
    d.(log := d.log + Indexed(es[..Min(n, |es|)]))
  }

  /** The durable state with the first `n` keys removed. */
  function Shrunk(d: Disk, keys: seq<U64>, n: nat): Disk {
    d.(log := d.log - ToSet(keys[..Min(n, |keys|)]))
  }

  function CacheGrown(m: Mem, es: seq<Entry>, n: nat): Mem {
    Extended(m, es[..Min(n, |es|)])
  }

  function CacheShrunk(m: Mem, keys: seq<U64>, n: nat): Mem {
    Without(m, keys[..Min(n, |keys|)])
  }

  lemma {:induction false} GrowStep(d: Disk, es: seq<Entry>, n: nat)
    requires n < |es|
    ensures Grown(d, es, n + 1) == Put(Grown(d, es, n), EntryItem(es[n]))
  {
    assert es[..n + 1][..n] == es[..n];
    assert (d.log + Indexed(es[..n]))[es[n].logId.index := es[n]]
        == d.log + Indexed(es[..n])[es[n].logId.index := es[n]];
  }

  lemma {:induction false} ShrinkStep(d: Disk, keys: seq<U64>, n: nat)
    requires n < |keys|
    ensures Shrunk(d, keys, n + 1).log == Shrunk(d, keys, n).log - {keys[n]}
  {
    ToSetSnoc(keys, n);
  }

  lemma {:induction false} AppendDiskStep(m: Mem, d: Disk, es: seq<Entry>, j: nat)
    requires j < 2 * |es|
    ensures DiskAfter(AppendSteps(m, es)[j], Grown(d, es, (j + 1) / 2)) == Grown(d, es, (j + 2) / 2)
  {
    if j % 2 == 0 {
      GrowStep(d, es, j / 2);
      assert AppendSteps(m, es)[j] == Save(EntryItem(es[j / 2]));
    }
  }

  /** The disk after the first `at` steps of an append. */
  lemma {:induction false} AppendDisk(m: Mem, d: Disk, es: seq<Entry>, at: nat)
    requires at <= 2 * |es|
    ensures DiskAfterAll(AppendSteps(m, es)[..at], d) == Grown(d, es, (at + 1) / 2)
  {
    if at == 0 {
      assert d.log + map[] == d.log;
    } else {
      AppendDisk(m, d, es, at - 1);
      Unroll(AppendSteps(m, es), m, d, at - 1);
      AppendDiskStep(m, d, es, at - 1);
    }
  }

  lemma {:induction false} AppendMemStep(m: Mem, es: seq<Entry>, j: nat)
    requires j < 2 * |es|
    ensures MemAfter(AppendSteps(m, es)[j], CacheGrown(m, es, j / 2)) == CacheGrown(m, es, (j + 1) / 2)
  {}

  /** The cache after the first `at` steps of an append. */
  lemma {:induction false} AppendMem(m: Mem, es: seq<Entry>, at: nat)
    requires at <= 2 * |es|
    ensures MemAfterAll(AppendSteps(m, es)[..at], m) == CacheGrown(m, es, at / 2)
  {
    if at == 0 {
      assert m.log + map[] == m.log;
    } else {
      AppendMem(m, es, at - 1);
      Unroll(AppendSteps(m, es), m, BLANK_DISK, at - 1);
      AppendMemStep(m, es, at - 1);
    }
  }

  lemma {:induction false} DropDiskStep(m: Mem, d: Disk, keys: seq<U64>, j: nat)
    requires j < 2 * |keys|
    ensures DiskAfter(DropSteps(m, keys)[j], Shrunk(d, keys, j / 2)) == Shrunk(d, keys, (j + 1) / 2)
  {
    if j % 2 == 1 {
      ShrinkStep(d, keys, j / 2);
      assert DropSteps(m, keys)[j] == Drop(keys[j / 2]);
    }
  }

  lemma {:induction false} ShrunkNone(d: Disk, keys: seq<U64>)
    ensures Shrunk(d, keys, 0) == d
  {
    assert d.log - {} == d.log;
  }

  /** The disk after the first `at` steps of a deletion loop. */
  lemma {:induction false} DropDisk(m: Mem, d: Disk, keys: seq<U64>, at: nat)
    requires at <= 2 * |keys|
    ensures DiskAfterAll(DropSteps(m, keys)[..at], d) == Shrunk(d, keys, at / 2)
  {
    if at == 0 {
      ShrunkNone(d, keys);
    } else {
      DropDisk(m, d, keys, at - 1);
      Unroll(DropSteps(m, keys), m, d, at - 1);
      DropDiskStep(m, d, keys, at - 1);
    }
  }

  lemma {:induction false} DropMemStep(m: Mem, keys: seq<U64>, j: nat)
    requires j < 2 * |keys|
    ensures MemAfter(DropSteps(m, keys)[j], CacheShrunk(m, keys, (j + 1) / 2)) == CacheShrunk(m, keys, (j + 2) / 2)
  {}

  /** The cache after the first `at` steps of a deletion loop. */
  lemma {:induction false} DropMem(m: Mem, keys: seq<U64>, at: nat)
    requires at <= 2 * |keys|
    ensures MemAfterAll(DropSteps(m, keys)[..at], m) == CacheShrunk(m, keys, (at + 1) / 2)
  {
    if at == 0 {
      assert m.log - {} == m.log;
    } else {
      DropMem(m, keys, at - 1);
      Unroll(DropSteps(m, keys), m, BLANK_DISK, at - 1);
      DropMemStep(m, keys, at - 1);
    }
  }

  lemma {:induction false} PrefixedSteps(s: Step, steps: seq<Step>, m: Mem, d: Disk, at: nat)
    requires at <= |steps|
    ensures MemAfterAll(([s] + steps)[..at + 1], m) == MemAfterAll(steps[..at], MemAfter(s, m))
    ensures DiskAfterAll(([s] + steps)[..at + 1], d) == DiskAfterAll(steps[..at], DiskAfter(s, d))
  {
    var all := [s] + steps;
    assert all[..at + 1][..at] == all[..at];
    if at > 0 {
      PrefixedSteps(s, steps, m, d, at - 1);
      assert steps[..at][..at - 1] == steps[..at - 1];
    }
  }

  /** `purge` marks the purge point first, then deletes. */
  lemma {:induction false} PurgeStopped(c: Codecs, m: Mem, d: Disk, id: LogId, at: nat)
    requires 1 <= at <= |Steps(c, Purge(id), m)|
    ensures MemAfterAll(Steps(c, Purge(id), m)[..at], m)
            == CacheShrunk(m.(lastPurged := Some(id)), KeysUpTo(m, id.index), at / 2)
    ensures DiskAfterAll(Steps(c, Purge(id), m)[..at], d) == Shrunk(d, KeysUpTo(m, id.index), (at - 1) / 2)
  {
    var marked := m.(lastPurged := Some(id));
    var keys := KeysUpTo(m, id.index);
    assert Steps(c, Purge(id), m) == [Cache(marked)] + DropSteps(marked, keys);
    PrefixedSteps(Cache(marked), DropSteps(marked, keys), m, d, at - 1);
    DropDisk(marked, d, keys, at - 1);
    DropMem(marked, keys, at - 1);
  }

  /** What a crash inside `op` may leave behind, given what was there before. */
  ghost predicate CrashOutcome(c: Codecs, op: Op, m: Mem, d: Disk, after: Disk) {
    match op
    case SaveVote(v) => after == d || after == d.(vote := Some(v))
    case SaveCommitted(id) => after == d || after == d.(committed := id)
    case Append(es) => exists n: nat :: n <= |es| && after == Grown(d, es, n)
    case Truncate(id) =>
      var keys := KeysFrom(m, id.index);
      exists n: nat :: n <= |keys| && after == Shrunk(d, keys, n)
    case Purge(id) =>
      var keys := KeysUpTo(m, id.index);
      exists n: nat :: n <= |keys| && after == Shrunk(d, keys, n)
    case Apply(es) => after == d || after == d.(machine := Applied(m.machine, es))
    case BuildSnapshot =>
      var s := SnapshotOf(c, m.machine, m.snapshotIdx + 1);
      || after == d
      || after == d.(meta := Some(s.meta))
      || after == d.(meta := Some(s.meta), data := Some(s.data))
    case InstallSnapshot(meta, bytes) =>
      || after == d
      || (c.data.decode(bytes).Some?
          && var d1 := d.(meta := Some(meta));
             var d2 := d1.(data := Some(bytes));
             || after == d1
             || after == d2
             || after == d2.(machine := MachineFrom(meta, c.data.decode(bytes).value)))
  }

  /** An append is its writes, then one flush. */
  lemma {:induction false} AppendPrefix(c: Codecs, es: seq<Entry>, m: Mem, k: nat)
    requires k <= 2 * |es|
    ensures var steps := Steps(c, Append(es), m);
            |steps| == 2 * |es| + 1 && steps[2 * |es|] == Flush && steps[..k] == AppendSteps(m, es)[..k]
  {}

  lemma {:induction false} AppendOutcome(c: Codecs, es: seq<Entry>, m: Mem, d: Disk, at: nat)
    requires at <= 2 * |es| + 1
    ensures DiskAfterAll(Steps(c, Append(es), m)[..at], d) == Grown(d, es, Min((at + 1) / 2, |es|))
  {
    var steps := Steps(c, Append(es), m);
    var k := Min(at, 2 * |es|);
    AppendDisk(m, d, es, k);
    AppendPrefix(c, es, m, k);
    if k < at { Unroll(steps, m, d, k); }
  }

  lemma {:induction false} TruncateOutcome(c: Codecs, id: LogId, m: Mem, d: Disk, at: nat)
    requires at <= |Steps(c, Truncate(id), m)|
    ensures CrashOutcome(c, Truncate(id), m, d, DiskAfterAll(Steps(c, Truncate(id), m)[..at], d))
  {
    DropDisk(m, d, KeysFrom(m, id.index), at);
  }

  lemma {:induction false} PurgeOutcome(c: Codecs, id: LogId, m: Mem, d: Disk, at: nat)
    requires at <= |Steps(c, Purge(id), m)|
    ensures CrashOutcome(c, Purge(id), m, d, DiskAfterAll(Steps(c, Purge(id), m)[..at], d))
  {
    if at == 0 {
      ShrunkNone(d, KeysUpTo(m, id.index));
    } else {
      PurgeStopped(c, m, d, id, at);
    }
  }

  lemma {:induction false} StoppedOutcome(c: Codecs, op: Op, m: Mem, d: Disk, at: nat)
    requires at <= |Steps(c, op, m)|
    ensures CrashOutcome(c, op, m, d, DiskAfterAll(Steps(c, op, m)[..at], d))
  {
    match op
    case Append(es) => AppendOutcome(c, es, m, d, at);
    case Truncate(id) => TruncateOutcome(c, id, m, d, at);
    case Purge(id) => PurgeOutcome(c, id, m, d, at);
    case _ => SmallStopped(c, op, m, d, at);
  }

  lemma {:induction false} SmallStopped(c: Codecs, op: Op, m: Mem, d: Disk, at: nat)
    requires !op.Append? && !op.Truncate? && !op.Purge?
    requires at <= |Steps(c, op, m)|
    ensures CrashOutcome(c, op, m, d, DiskAfterAll(Steps(c, op, m)[..at], d))
  {
    var steps := Steps(c, op, m);
    if at > 0 { Unroll(steps, m, d, 0); }
    if at > 1 { Unroll(steps, m, d, 1); }
    if at > 2 { Unroll(steps, m, d, 2); }
    if at > 3 { Unroll(steps, m, d, 3); }
    if at > 4 { Unroll(steps, m, d, 4); }
  }

  // -------------------------------------------------------------- sound always

  lemma {:induction false} RunSound(c: Codecs, evs: seq<Event>)
    requires c.Lawful() && LegalRun(c, EMPTY_WORLD, evs)
    ensures Sound(c, Run(c, EMPTY_WORLD, evs).files)
  {
    if evs != [] {
      var n := |evs| - 1;
      RunSound(c, evs[..n]);
      NextSound(c, Run(c, EMPTY_WORLD, evs[..n]), evs[n]);
    }
  }

  lemma {:induction false} NextSound(c: Codecs, w: World, ev: Event)
    requires c.Lawful() && Sound(c, w.files) && Legal(c, w, ev)
    ensures Sound(c, Next(c, w, ev).files)
    ensures ev.Done? ==>
              DiskOf(c, Next(c, w, ev).files) == DiskAfterAll(Steps(c, ev.op, w.mem), DiskOf(c, w.files))
    ensures !ev.Done? ==>
              && ev.at <= |Steps(c, ev.op, w.mem)|
              && DiskOf(c, Next(c, w, ev).files) == DiskAfterAll(Steps(c, ev.op, w.mem)[..ev.at], DiskOf(c, w.files))
  {
    var steps := Steps(c, ev.op, w.mem);
    if ev.Done? {
      StepsRefine(c, steps, w);
    } else {
      StopRefines(c, steps, w, ev.at, ev.files);
    }
  }

  /** Crash atomicity: killed at any file-system call of any operation, after any
      run, the store opens again and finds the old or the new value of what was
      being replaced, a log with a prefix of the batch added, or the log without
      an ascending initial segment of the keys being deleted. */
  lemma {:induction false} CrashAtomicity(c: Codecs, evs: seq<Event>, op: Op, at: nat, files: Files)
    requires c.Lawful() && LegalRun(c, EMPTY_WORLD, evs)
    requires Legal(c, Run(c, EMPTY_WORLD, evs), Crashed(op, at, files))
    ensures var w := Run(c, EMPTY_WORLD, evs);
            && Sound(c, w.files) && Sound(c, files) && Loadable(c, files)
            && CrashOutcome(c, op, w.mem, DiskOf(c, w.files), DiskOf(c, files))
            && Next(c, w, Crashed(op, at, files)).mem == MemOf(DiskOf(c, files))
  {
    var w := Run(c, EMPTY_WORLD, evs);
    RunSound(c, evs);
    NextSound(c, w, Crashed(op, at, files));
    SoundIsLoadable(c, files);
    StoppedOutcome(c, op, w.mem, DiskOf(c, w.files), at);
  }

  // ------------------------------------------------- memory against the disk

  predicate FailedSinceOpen(evs: seq<Event>) {
    evs != [] &&
    var ev := evs[|evs| - 1];
    ev.Failed? || (ev.Done? && FailedSinceOpen(evs[..|evs| - 1]))
  }

  /** The whole of `op` on the cache and on the disk. */
  lemma {:induction false} DoneOp(c: Codecs, op: Op, m: Mem, d: Disk)
    requires MemOf(d) == Reset(m)
    ensures MemOf(DiskAfterAll(Steps(c, op, m), d)) == Reset(MemAfterAll(Steps(c, op, m), m))
  {
    var steps := Steps(c, op, m);
    assert steps[..|steps|] == steps;
    match op
    case Append(es) => DoneAppend(c, es, m, d);
    case Truncate(id) =>
      var keys := KeysFrom(m, id.index);
      DropDisk(m, d, keys, |steps|);
      DropMem(m, keys, |steps|);
    case Purge(id) =>
      PurgeStopped(c, m, d, id, |steps|);
    case _ => DoneSmall(c, op, m, d);
  }

  lemma {:induction false} DoneAppend(c: Codecs, es: seq<Entry>, m: Mem, d: Disk)
    ensures DiskAfterAll(Steps(c, Append(es), m), d) == d.(log := d.log + Indexed(es))
    ensures MemAfterAll(Steps(c, Append(es), m), m) == Extended(m, es)
  {
    var steps := Steps(c, Append(es), m);
    var n := 2 * |es|;
    assert steps[..n] == AppendSteps(m, es) == AppendSteps(m, es)[..n];
    assert steps[..n + 1] == steps && es[..|es|] == es;
    AppendDisk(m, d, es, n);
    AppendMem(m, es, n);
  }

  lemma {:induction false} DoneSmall(c: Codecs, op: Op, m: Mem, d: Disk)
    requires !op.Append? && !op.Truncate? && !op.Purge?
    requires MemOf(d) == Reset(m)
    ensures MemOf(DiskAfterAll(Steps(c, op, m), d)) == Reset(MemAfterAll(Steps(c, op, m), m))
  {
    var steps := Steps(c, op, m);
    if |steps| > 0 {
      Unroll(steps, m, d, 0);
      Unroll(steps, m, d, 1);
      if |steps| > 2 {
        Unroll(steps, m, d, 2);
        Unroll(steps, m, d, 3);
        if |steps| > 4 { Unroll(steps, m, d, 4); }
      }
      assert steps[..|steps|] == steps;
    }
  }

  /** Recovery refines memory: after any run, however often the process was killed,
      in which no I/O call failed since the store was last opened, opening the
      directory rebuilds the cache exactly, except for the purge point and the
      snapshot counter. */
  lemma {:induction false} RecoveryRefinesMemory(c: Codecs, evs: seq<Event>)
    requires c.Lawful() && LegalRun(c, EMPTY_WORLD, evs) && !FailedSinceOpen(evs)
    ensures var w := Run(c, EMPTY_WORLD, evs);
            Sound(c, w.files) && Loaded(c, w.files) == Reset(w.mem)
  {
    RunSound(c, evs);
    if evs == [] {
      assert DiskOf(c, map[]).log == map[];
    } else {
      var n := |evs| - 1;
      var w, ev := Run(c, EMPTY_WORLD, evs[..n]), evs[n];
      if ev.Done? {
        RecoveryRefinesMemory(c, evs[..n]);
        NextSound(c, w, ev);
        DoneOp(c, ev.op, w.mem, DiskOf(c, w.files));
        MemAlone(c, Steps(c, ev.op, w.mem), w);
      }
    }
  }

  predicate PurgedSinceOpen(evs: seq<Event>) {
    evs != [] &&
    var ev := evs[|evs| - 1];
    !ev.Crashed? && (ev.op.Purge? || PurgedSinceOpen(evs[..|evs| - 1]))
  }

  lemma {:induction false} CacheKeepsPurgePoint(steps: seq<Step>, m: Mem, point: Option<LogId>, k: nat)
    requires k <= |steps| && m.lastPurged == point
    requires forall j :: 0 <= j < |steps| && steps[j].Cache? ==> steps[j].mem.lastPurged == point
    ensures MemAfterAll(steps[..k], m).lastPurged == point
  {
    if k > 0 {
      CacheKeepsPurgePoint(steps, m, point, k - 1);
      assert steps[..k][..k - 1] == steps[..k - 1];
    }
  }

  /** A purge moves the purge point before anything of it can fail; nothing else does. */
  lemma {:induction false} StoppedPurgePoint(c: Codecs, op: Op, m: Mem, at: nat)
    requires at <= |Steps(c, op, m)| && (op.Purge? ==> at > 0)
    ensures MemAfterAll(Steps(c, op, m)[..at], m).lastPurged == (if op.Purge? then Some(op.upTo) else m.lastPurged)
  {
    if op.Purge? {
      PurgeStopped(c, m, BLANK_DISK, op.upTo, at);
    } else {
      CacheKeepsPurgePoint(Steps(c, op, m), m, m.lastPurged, at);
    }
  }

  lemma {:induction false} SmallCache(c: Codecs, op: Op, m: Mem, at: nat)
    requires !op.Append? && !op.Truncate? && !op.Purge? && at <= |Steps(c, op, m)|
    ensures var after := MemAfterAll(Steps(c, op, m)[..at], m);
            after.lastPurged == m.lastPurged && after.log == m.log
  {
    CacheKeepsLog(Steps(c, op, m), m, at);
  }

  lemma {:induction false} CacheKeepsLog(steps: seq<Step>, m: Mem, k: nat)
    requires k <= |steps|
    requires forall j :: 0 <= j < |steps| && steps[j].Cache? ==>
               steps[j].mem.log == m.log && steps[j].mem.lastPurged == m.lastPurged
    ensures MemAfterAll(steps[..k], m).log == m.log && MemAfterAll(steps[..k], m).lastPurged == m.lastPurged
  {
    if k > 0 {
      CacheKeepsLog(steps, m, k - 1);
      assert steps[..k][..k - 1] == steps[..k - 1];
    }
  }

  /** The purge point is known exactly when something was purged since the store was
      opened, whether that purge succeeded or not. */
  lemma {:induction false} PurgePointIsSinceOpen(c: Codecs, evs: seq<Event>)
    requires LegalRun(c, EMPTY_WORLD, evs)
    ensures Run(c, EMPTY_WORLD, evs).mem.lastPurged.Some? <==> PurgedSinceOpen(evs)
  {
    if evs != [] {
      var n := |evs| - 1;
      var w, ev := Run(c, EMPTY_WORLD, evs[..n]), evs[n];
      if !ev.Crashed? {
        var steps := Steps(c, ev.op, w.mem);
        var at := if ev.Done? then |steps| else ev.at;
        PurgePointIsSinceOpen(c, evs[..n]);
        StoppedPurgePoint(c, ev.op, w.mem, at);
        assert ev.Done? ==> steps[..at] == steps;
        MemAlone(c, steps[..at], w);
      }
    }
  }

  // ---------------------------------------------------------- snapshot counter

  /** How many snapshots were begun since the store was opened. */
  function BuildsSinceOpen(evs: seq<Event>): nat {
    if evs == [] || evs[|evs| - 1].Crashed? then 0
    else BuildsSinceOpen(evs[..|evs| - 1]) + if evs[|evs| - 1].op.BuildSnapshot? then 1 else 0
  }

  lemma {:induction false} CacheKeepsCounter(steps: seq<Step>, m: Mem, k: nat)
    requires k <= |steps|
    requires forall j :: 0 <= j < |steps| && steps[j].Cache? ==> steps[j].mem.snapshotIdx == m.snapshotIdx
    ensures MemAfterAll(steps[..k], m).snapshotIdx == m.snapshotIdx
  {
    if k > 0 {
      CacheKeepsCounter(steps, m, k - 1);
      assert steps[..k][..k - 1] == steps[..k - 1];
    }
  }

  lemma {:induction false} StoppedCounter(c: Codecs, op: Op, m: Mem, at: nat)
    requires at <= |Steps(c, op, m)| && (op.BuildSnapshot? ==> at > 0)
    ensures MemAfterAll(Steps(c, op, m)[..at], m).snapshotIdx == m.snapshotIdx + if op.BuildSnapshot? then 1 else 0
  {
    if op.BuildSnapshot? {
      BuildCounter(c, m, at);
    } else {
      forall j | 0 <= j < |Steps(c, op, m)| && Steps(c, op, m)[j].Cache?
        ensures Steps(c, op, m)[j].mem.snapshotIdx == m.snapshotIdx
      {
        CachedCounter(c, op, m, j);
      }
      CacheKeepsCounter(Steps(c, op, m), m, at);
    }
  }

  lemma {:induction false} CachedCounter(c: Codecs, op: Op, m: Mem, j: nat)
    requires j < |Steps(c, op, m)| && !op.BuildSnapshot? && Steps(c, op, m)[j].Cache?
    ensures Steps(c, op, m)[j].mem.snapshotIdx == m.snapshotIdx
  {
    match op
    case Append(es) => AppendCounter(m, es, j);
    case Truncate(id) => DropCounter(m, KeysFrom(m, id.index), j);
    case Purge(id) => if j > 0 { DropCounter(m.(lastPurged := Some(id)), KeysUpTo(m, id.index), j - 1); }
    case _ =>
  }

  lemma {:induction false} AppendCounter(m: Mem, es: seq<Entry>, j: nat)
    requires j < |AppendSteps(m, es)| && AppendSteps(m, es)[j].Cache?
    ensures AppendSteps(m, es)[j].mem.snapshotIdx == m.snapshotIdx
  {}

  lemma {:induction false} DropCounter(m: Mem, keys: seq<U64>, j: nat)
    requires j < |DropSteps(m, keys)| && DropSteps(m, keys)[j].Cache?
    ensures DropSteps(m, keys)[j].mem.snapshotIdx == m.snapshotIdx
  {}

  lemma {:induction false} BuildCounter(c: Codecs, m: Mem, at: nat)
    requires 0 < at <= |BuildSteps(c, m)|
    ensures MemAfterAll(BuildSteps(c, m)[..at], m).snapshotIdx == m.snapshotIdx + 1
  {
    var counted := m.(snapshotIdx := m.snapshotIdx + 1);
    var steps := BuildSteps(c, m);
    PrefixedSteps(steps[0], steps[1..], m, BLANK_DISK, at - 1);
    assert [steps[0]] + steps[1..] == steps;
    CacheKeepsCounter(steps[1..], counted, at - 1);
  }

  /** The counter in the snapshot ids is the number of snapshots begun since the store was
      opened, finished or not. */
  lemma {:induction false} CounterCountsBuilds(c: Codecs, evs: seq<Event>)
    requires LegalRun(c, EMPTY_WORLD, evs)
    ensures Run(c, EMPTY_WORLD, evs).mem.snapshotIdx == BuildsSinceOpen(evs)
  {
    if evs != [] {
      var n := |evs| - 1;
      var w, ev := Run(c, EMPTY_WORLD, evs[..n]), evs[n];
      if !ev.Crashed? {
        var steps := Steps(c, ev.op, w.mem);
        var at := if ev.Done? then |steps| else ev.at;
        CounterCountsBuilds(c, evs[..n]);
        StoppedCounter(c, ev.op, w.mem, at);
        assert ev.Done? ==> steps[..at] == steps;
        MemAlone(c, steps[..at], w);
      }
    }
  }

  lemma {:induction false} BuildsGrow(evs: seq<Event>, i: nat, j: nat)
    requires i < j <= |evs| && evs[i].op.BuildSnapshot?
    requires forall k :: i <= k < j ==> !evs[k].Crashed?
    ensures BuildsSinceOpen(evs[..i]) < BuildsSinceOpen(evs[..j])
  {
    assert evs[..j][..j - 1] == evs[..j - 1];
    if i < j - 1 { BuildsGrow(evs, i, j - 1); }
  }

  /** Two snapshots begun without a restart in between have different ids. */
  lemma {:induction false} SnapshotIdsDiffer(c: Codecs, evs: seq<Event>, i: nat, j: nat, before: World, after: World)
    requires i < j <= |evs| && LegalRun(c, EMPTY_WORLD, evs[..i]) && LegalRun(c, EMPTY_WORLD, evs[..j])
    requires evs[i].op.BuildSnapshot? && forall k :: i <= k < j ==> !evs[k].Crashed?
    requires before == Run(c, EMPTY_WORLD, evs[..i]) && after == Run(c, EMPTY_WORLD, evs[..j])
    ensures SnapshotOf(c, before.mem.machine, before.mem.snapshotIdx + 1).meta.snapshotId
            != SnapshotOf(c, after.mem.machine, after.mem.snapshotIdx + 1).meta.snapshotId
  {
    CounterCountsBuilds(c, evs[..i]);
    CounterCountsBuilds(c, evs[..j]);
    BuildsGrow(evs, i, j);
  }
}

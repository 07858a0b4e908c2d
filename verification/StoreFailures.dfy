/** Failed I/O calls, and snapshots torn by a crash. */
module StoreFailures {
  import opened LogNames
  import opened Ordered
  import opened StoreTypes
  import opened Directory
  import opened StoreOps
  import opened StoreTheorems

  predicate SubLog(m: map<U64, Entry>, d: map<U64, Entry>) {
    forall i :: i in m ==> i in d && d[i] == m[i]
  }

  /** A place where an operation can stop with an error, or its end. */
  predicate CanStop(steps: seq<Step>, at: nat) {
    at == |steps| || (at < |steps| && !steps[at].Cache?)
  }

  lemma {:induction false} GrownSubLog(m: Mem, d: Disk, es: seq<Entry>, n: nat)
    requires SubLog(m.log, d.log)
    ensures SubLog(CacheGrown(m, es, n).log, Grown(d, es, n).log)
  {}

  lemma {:induction false} ShrunkSubLog(m: Mem, d: Disk, keys: seq<U64>, n: nat, k: nat)
    requires SubLog(m.log, d.log) && k <= n
    ensures SubLog(CacheShrunk(m, keys, n).log, Shrunk(d, keys, k).log)
  {
    assert forall x :: x in keys[..Min(k, |keys|)] ==> x in keys[..Min(n, |keys|)];
  }

  /** Within an append only the writes and the flush can fail, and they stand at even places. */
  lemma {:induction false} AppendStopsEven(c: Codecs, es: seq<Entry>, m: Mem, at: nat)
    requires at < |Steps(c, Append(es), m)| && !Steps(c, Append(es), m)[at].Cache?
    ensures at % 2 == 0 && at <= 2 * |es|
  {
    assert at < 2 * |es| ==> Steps(c, Append(es), m)[at] == AppendSteps(m, es)[at];
  }

  lemma {:induction false} AppendStopped(c: Codecs, es: seq<Entry>, m: Mem, d: Disk, at: nat)
    requires at % 2 == 0 && at <= 2 * |es|
    ensures |Steps(c, Append(es), m)| == 2 * |es| + 1
    ensures MemAfterAll(Steps(c, Append(es), m)[..at], m) == CacheGrown(m, es, at / 2)
    ensures DiskAfterAll(Steps(c, Append(es), m)[..at], d) == Grown(d, es, at / 2)
  {
    AppendPrefix(c, es, m, at);
    AppendDisk(m, d, es, at);
    AppendMem(m, es, at);
  }

  lemma {:induction false} AppendContained(c: Codecs, es: seq<Entry>, m: Mem, d: Disk, at: nat)
    requires SubLog(m.log, d.log) && CanStop(Steps(c, Append(es), m), at)
    ensures SubLog(MemAfterAll(Steps(c, Append(es), m)[..at], m).log,
                   DiskAfterAll(Steps(c, Append(es), m)[..at], d).log)
  {
    var steps := Steps(c, Append(es), m);
    if at == |steps| {
      assert steps[..at] == steps;
      DoneAppend(c, es, m, d);
    } else {
      AppendStopsEven(c, es, m, at);
      AppendStopped(c, es, m, d, at);
      GrownSubLog(m, d, es, at / 2);
    }
  }

  lemma {:induction false} TruncateContained(c: Codecs, id: LogId, m: Mem, d: Disk, at: nat)
    requires SubLog(m.log, d.log) && at <= |Steps(c, Truncate(id), m)|
    ensures SubLog(MemAfterAll(Steps(c, Truncate(id), m)[..at], m).log,
                   DiskAfterAll(Steps(c, Truncate(id), m)[..at], d).log)
  {
    var keys := KeysFrom(m, id.index);
    DropDisk(m, d, keys, at);
    DropMem(m, keys, at);
    ShrunkSubLog(m, d, keys, (at + 1) / 2, at / 2);
  }

  lemma {:induction false} PurgeContained(c: Codecs, id: LogId, m: Mem, d: Disk, at: nat)
    requires SubLog(m.log, d.log) && 0 < at <= |Steps(c, Purge(id), m)|
    ensures SubLog(MemAfterAll(Steps(c, Purge(id), m)[..at], m).log,
                   DiskAfterAll(Steps(c, Purge(id), m)[..at], d).log)
  {
    PurgeStopped(c, m, d, id, at);
    ShrunkSubLog(m.(lastPurged := Some(id)), d, KeysUpTo(m, id.index), at / 2, (at - 1) / 2);
  }

  lemma {:induction false} SmallContained(c: Codecs, op: Op, m: Mem, d: Disk, at: nat)
    requires !op.Append? && !op.Truncate? && !op.Purge?
    requires SubLog(m.log, d.log) && at <= |Steps(c, op, m)|
    ensures SubLog(MemAfterAll(Steps(c, op, m)[..at], m).log, DiskAfterAll(Steps(c, op, m)[..at], d).log)
  {
    SmallStopped(c, op, m, d, at);
    SmallCache(c, op, m, at);
  }

  lemma {:induction false} StoppedContained(c: Codecs, op: Op, m: Mem, d: Disk, at: nat)
    requires SubLog(m.log, d.log) && CanStop(Steps(c, op, m), at)
    ensures SubLog(MemAfterAll(Steps(c, op, m)[..at], m).log, DiskAfterAll(Steps(c, op, m)[..at], d).log)
  {
    match op
    case Append(es) => AppendContained(c, es, m, d, at);
    case Truncate(id) => TruncateContained(c, id, m, d, at);
    case Purge(id) => if at > 0 { PurgeContained(c, id, m, d, at); }
    case _ => SmallContained(c, op, m, d, at);
  }

  /** Failure containment: after every operation of every run, finished or failed,
      the cached log is part of the log on disk. (It is all of it while nothing has
      failed since the store was opened: RecoveryRefinesMemory.) */
  lemma {:induction false} FailureContainment(c: Codecs, evs: seq<Event>)
    requires c.Lawful() && LegalRun(c, EMPTY_WORLD, evs)
    ensures var w := Run(c, EMPTY_WORLD, evs);
            Sound(c, w.files) && SubLog(w.mem.log, DiskOf(c, w.files).log)
  {
    RunSound(c, evs);
    if evs != [] {
      var n := |evs| - 1;
      FailureContainment(c, evs[..n]);
      var w, ev := Run(c, EMPTY_WORLD, evs[..n]), evs[n];
      NextSound(c, w, ev);
      if !ev.Crashed? {
        var steps := Steps(c, ev.op, w.mem);
        var at := if ev.Done? then |steps| else ev.at;
        StoppedContained(c, ev.op, w.mem, DiskOf(c, w.files), at);
        assert ev.Done? ==> steps[..at] == steps;
        MemAlone(c, steps[..at], w);
      }
    }
  }

  // ----------------------------------------------- `last_log_id` over a restart

  /** Every entry on disk carries the index it is filed under. */
  lemma {:induction false} DiskIsConsistent(c: Codecs, files: Files, i: U64)
    requires Sound(c, files) && i in DiskOf(c, files).log
    ensures DiskOf(c, files).log[i].logId.index == i
  {
    DiskLogAt(c, files, i);
  }

  /** When a restart keeps `last_log_id`, from the purge point, the cached log and the log
      on disk. */
  predicate KeepsLast(purged: Option<LogId>, cached: map<U64, Entry>, disk: map<U64, Entry>) {
    if disk == map[] then purged == None
    else if cached == map[] then purged == Some(disk[Greatest(disk.Keys)].logId)
    else Greatest(cached.Keys) == Greatest(disk.Keys)
  }

  lemma {:induction false} LastKept(m: Mem, loaded: Mem)
    requires SubLog(m.log, loaded.log) && loaded.lastPurged == None
    requires forall i :: i in loaded.log ==> loaded.log[i].logId.index == i
    ensures LastLogId(loaded) == LastLogId(m) <==> KeepsLast(m.lastPurged, m.log, loaded.log)
  {
    assert m.log != map[] ==> Greatest(m.log.Keys) in loaded.log;
  }

  /** `last_log_id` over a restart, after any run, failures included: with nothing on disk it
      is kept exactly if nothing was purged since the store was opened; with entries on disk
      but none cached, exactly if the purge point is the last of them; otherwise exactly if
      the last entry on disk is cached. */
  lemma {:induction false} RestartKeepsLastLogId(c: Codecs, evs: seq<Event>)
    requires c.Lawful() && LegalRun(c, EMPTY_WORLD, evs)
    ensures var w := Run(c, EMPTY_WORLD, evs);
            && Sound(c, w.files)
            && (LastLogId(Loaded(c, w.files)) == LastLogId(w.mem)
                <==> KeepsLast(w.mem.lastPurged, w.mem.log, DiskOf(c, w.files).log))
            && (w.mem.lastPurged.Some? <==> PurgedSinceOpen(evs))
  {
    FailureContainment(c, evs);
    PurgePointIsSinceOpen(c, evs);
    var w := Run(c, EMPTY_WORLD, evs);
    var loaded := Loaded(c, w.files);
    forall i | i in loaded.log ensures loaded.log[i].logId.index == i { DiskIsConsistent(c, w.files, i); }
    LastKept(w.mem, loaded);
  }

  /** The same where no I/O call failed since the store was opened: kept exactly when the log
      is non-empty or nothing was purged since. */
  lemma {:induction false} CleanRestartKeepsLastLogId(c: Codecs, evs: seq<Event>)
    requires c.Lawful() && LegalRun(c, EMPTY_WORLD, evs) && !FailedSinceOpen(evs)
    ensures var w := Run(c, EMPTY_WORLD, evs);
            LastLogId(Loaded(c, w.files)) == LastLogId(w.mem)
            <==> (w.mem.log != map[] || !PurgedSinceOpen(evs))
  {
    RestartKeepsLastLogId(c, evs);
    RecoveryRefinesMemory(c, evs);
  }

  // ---------------------------------------------------------------- failed saves

  /** A failed `save_vote` or `save_committed` changes neither the cache nor any file
      that recovery looks at. */
  lemma {:induction false} FailedSaveChangesNothing(c: Codecs, w: World, ev: Event)
    requires Legal(c, w, ev) && ev.Failed? && (ev.op.SaveVote? || ev.op.SaveCommitted?)
    ensures Next(c, w, ev).mem == w.mem
    ensures SameVisible(w.files, Next(c, w, ev).files)
  {
    var item := Steps(c, ev.op, w.mem)[0].item;
    assert ev.at == 0;
    NotTempItself(PathOf(item));
  }

  // ---------------------------------------------------------- torn snapshots

  lemma {:induction false} ApplyKeepsData(sm: StateMachineData, es: seq<Entry>)
    ensures Applied(sm, es).data == sm.data
  {
    if es != [] { ApplyKeepsData(sm, es[..|es| - 1]); }
  }

  ghost predicate DataAgrees(c: Codecs, m: Mem, d: Disk) {
    && d.machine.data == m.machine.data
    && (d.data.Some? ==> c.data.decode(d.data.value) == Some(m.machine.data))
  }

  lemma {:induction false} OutcomeData(c: Codecs, op: Op, m: Mem, d: Disk, after: Disk)
    requires c.data.Lawful() && DataAgrees(c, m, d) && !op.InstallSnapshot?
    requires CrashOutcome(c, op, m, d, after)
    ensures DataAgrees(c, m, after)
  {
    if op.Apply? { ApplyKeepsData(m.machine, op.entries); }
  }

  lemma {:induction false} StoppedMachineData(c: Codecs, op: Op, m: Mem, at: nat)
    requires !op.InstallSnapshot? && at <= |Steps(c, op, m)|
    ensures MemAfterAll(Steps(c, op, m)[..at], m).machine.data == m.machine.data
  {
    match op
    case Append(es) => AppendMachineData(c, es, m, at);
    case Truncate(id) => DropMem(m, KeysFrom(m, id.index), at);
    case Purge(id) => if at > 0 { PurgeStopped(c, m, BLANK_DISK, id, at); }
    case _ => SmallMachineData(c, op, m, at);
  }

  lemma {:induction false} AppendMachineData(c: Codecs, es: seq<Entry>, m: Mem, at: nat)
    requires at <= |Steps(c, Append(es), m)|
    ensures MemAfterAll(Steps(c, Append(es), m)[..at], m).machine == m.machine
  {
    var k := Min(at, 2 * |es|);
    AppendMem(m, es, k);
    AppendPrefix(c, es, m, k);
    if k < at { Unroll(Steps(c, Append(es), m), m, BLANK_DISK, k); }
  }

  lemma {:induction false} SmallMachineData(c: Codecs, op: Op, m: Mem, at: nat)
    requires !op.InstallSnapshot? && !op.Append? && !op.Truncate? && !op.Purge?
    requires at <= |Steps(c, op, m)|
    ensures MemAfterAll(Steps(c, op, m)[..at], m).machine.data == m.machine.data
  {
    var steps := Steps(c, op, m);
    if op.Apply? { ApplyKeepsData(m.machine, op.entries); }
    if at > 0 { Unroll(steps, m, BLANK_DISK, 0); }
    if at > 1 { Unroll(steps, m, BLANK_DISK, 1); }
    if at > 2 { Unroll(steps, m, BLANK_DISK, 2); }
    if at > 3 { Unroll(steps, m, BLANK_DISK, 3); }
  }

  /** Only `install_snapshot` can part the snapshot data from the state machine. */
  lemma {:induction false} StoppedData(c: Codecs, op: Op, m: Mem, d: Disk, at: nat)
    requires c.Lawful() && DataAgrees(c, m, d) && !op.InstallSnapshot?
    requires at <= |Steps(c, op, m)|
    ensures DataAgrees(c, m, DiskAfterAll(Steps(c, op, m)[..at], d))
    ensures MemAfterAll(Steps(c, op, m)[..at], m).machine.data == m.machine.data
  {
    StoppedOutcome(c, op, m, d, at);
    OutcomeData(c, op, m, d, DiskAfterAll(Steps(c, op, m)[..at], d));
    StoppedMachineData(c, op, m, at);
  }

  lemma {:induction false} DoneInstall(c: Codecs, m: Mem, d: Disk, meta: SnapshotMeta, bytes: Bytes)
    requires DataAgrees(c, m, d)
    ensures var steps := Steps(c, InstallSnapshot(meta, bytes), m);
            DataAgrees(c, MemAfterAll(steps, m), DiskAfterAll(steps, d))
  {
    var steps := Steps(c, InstallSnapshot(meta, bytes), m);
    if steps != [] {
      Unroll(steps, m, d, 0);
      Unroll(steps, m, d, 1);
      Unroll(steps, m, d, 2);
      Unroll(steps, m, d, 3);
      Unroll(steps, m, d, 4);
      assert steps[..5] == steps;
    }
  }

  predicate InstallsComplete(evs: seq<Event>) {
    forall i :: 0 <= i < |evs| && evs[i].op.InstallSnapshot? ==> evs[i].Done?
  }

  /** In every run where each installation of a snapshot runs to its end, the
      snapshot data on disk, if there is any, is the current application data. */
  lemma {:induction false} SnapshotDataIsCurrent(c: Codecs, evs: seq<Event>)
    requires c.Lawful() && LegalRun(c, EMPTY_WORLD, evs) && InstallsComplete(evs)
    ensures var w := Run(c, EMPTY_WORLD, evs);
            Sound(c, w.files) && DataAgrees(c, w.mem, DiskOf(c, w.files))
  {
    RunSound(c, evs);
    if evs != [] {
      var n := |evs| - 1;
      SnapshotDataIsCurrent(c, evs[..n]);
      var w, ev := Run(c, EMPTY_WORLD, evs[..n]), evs[n];
      NextSound(c, w, ev);
      var steps := Steps(c, ev.op, w.mem);
      var at := if ev.Done? then |steps| else ev.at;
      assert ev.Done? ==> steps[..at] == steps;
      MemAlone(c, steps[..at], w);
      if ev.op.InstallSnapshot? {
        DoneInstall(c, w.mem, DiskOf(c, w.files), ev.op.meta, ev.op.bytes);
      } else {
        StoppedData(c, ev.op, w.mem, DiskOf(c, w.files), at);
      }
    }
  }

  /** A crash inside `build_snapshot` recovers no snapshot, or one whose data is what
      the interrupted snapshot would have stored. */
  lemma {:induction false} TornSnapshotIsBenign(c: Codecs, evs: seq<Event>, at: nat, files: Files)
    requires c.Lawful() && LegalRun(c, EMPTY_WORLD, evs) && InstallsComplete(evs)
    requires Legal(c, Run(c, EMPTY_WORLD, evs), Crashed(BuildSnapshot, at, files))
    ensures var w := Run(c, EMPTY_WORLD, evs);
            var s := Next(c, w, Crashed(BuildSnapshot, at, files)).mem.snapshot;
            s == None || c.data.decode(s.value.data) == Some(w.mem.machine.data)
  {
    var w, ev := Run(c, EMPTY_WORLD, evs), Crashed(BuildSnapshot, at, files);
    SnapshotDataIsCurrent(c, evs);
    NextSound(c, w, ev);
    StoppedData(c, BuildSnapshot, w.mem, DiskOf(c, w.files), at);
  }

  /** The disk after the first `at` steps of an installation. */
  function InstalledTo(c: Codecs, d: Disk, meta: SnapshotMeta, bytes: Bytes, at: nat): Disk
    requires c.data.decode(bytes).Some?
  {
    if at < 2 then d
    else if at == 2 then d.(meta := Some(meta))
    else if at == 3 then d.(meta := Some(meta), data := Some(bytes))
    else d.(meta := Some(meta), data := Some(bytes), machine := MachineFrom(meta, c.data.decode(bytes).value))
  }

  lemma {:induction false} InstallDisk(c: Codecs, m: Mem, d: Disk, meta: SnapshotMeta, bytes: Bytes, at: nat)
    requires at <= |Steps(c, InstallSnapshot(meta, bytes), m)|
    ensures DiskAfterAll(Steps(c, InstallSnapshot(meta, bytes), m)[..at], d)
            == if c.data.decode(bytes).Some? then InstalledTo(c, d, meta, bytes, at) else d
  {
    var steps := Steps(c, InstallSnapshot(meta, bytes), m);
    if at > 0 { Unroll(steps, m, d, 0); }
    if at > 1 { Unroll(steps, m, d, 1); }
    if at > 2 { Unroll(steps, m, d, 2); }
    if at > 3 { Unroll(steps, m, d, 3); }
    if at > 4 { Unroll(steps, m, d, 4); }
  }

  lemma {:induction false} InstallStopped(c: Codecs, m: Mem, d: Disk, meta: SnapshotMeta, bytes: Bytes, at: nat)
    requires DataAgrees(c, m, d)
    requires at <= |Steps(c, InstallSnapshot(meta, bytes), m)|
    ensures var after := DiskAfterAll(Steps(c, InstallSnapshot(meta, bytes), m)[..at], d);
            DataAgrees(c, MemOf(after), after) <==> (at == 3 ==> c.data.decode(bytes) == Some(m.machine.data))
  {
    InstallDisk(c, m, d, meta, bytes, at);
  }

  /** Why installations are set apart: after a crash inside one, the snapshot data
      matches the recovered state machine unless the crash fell between the write
      of data.bin and that of state_machine.bin and the data really changed. */
  lemma {:induction false} InterruptedInstall(c: Codecs, evs: seq<Event>, meta: SnapshotMeta, bytes: Bytes, at: nat,
      files: Files)
    requires c.Lawful() && LegalRun(c, EMPTY_WORLD, evs) && InstallsComplete(evs)
    requires Legal(c, Run(c, EMPTY_WORLD, evs), Crashed(InstallSnapshot(meta, bytes), at, files))
    ensures var w := Run(c, EMPTY_WORLD, evs);
            && Sound(c, files)
            && (DataAgrees(c, Loaded(c, files), DiskOf(c, files))
                <==> (at == 3 ==> c.data.decode(bytes) == Some(w.mem.machine.data)))
  {
    var w := Run(c, EMPTY_WORLD, evs);
    SnapshotDataIsCurrent(c, evs);
    NextSound(c, w, Crashed(InstallSnapshot(meta, bytes), at, files));
    InstallStopped(c, w.mem, DiskOf(c, w.files), meta, bytes, at);
  }

  lemma {:induction false} TornSnapshot(c: Codecs, d: Disk, meta: SnapshotMeta, bytes: Bytes, at: nat)
    requires c.data.decode(bytes).Some?
    ensures var was, s := MemOf(d).snapshot, MemOf(InstalledTo(c, d, meta, bytes, at)).snapshot;
            s == was || s == None || s == Some(StoredSnapshot(meta, bytes))
            <==> at != 2 || d.data == None || d.data == Some(bytes) || d.meta == Some(meta)
  {}

  /** The other way an installation can be torn, after any run: the store recovers the snapshot
      it had, none, or the new one unless the crash fell between the writes of meta.bin and
      data.bin, a data.bin was there, and neither the metadata nor the data stay the same;
      then it recovers the new metadata with the old data. */
  lemma {:induction false} InterruptedInstallSnapshot(c: Codecs, evs: seq<Event>, meta: SnapshotMeta, bytes: Bytes,
      at: nat, files: Files)
    requires c.Lawful() && LegalRun(c, EMPTY_WORLD, evs)
    requires Legal(c, Run(c, EMPTY_WORLD, evs), Crashed(InstallSnapshot(meta, bytes), at, files))
    ensures var w := Run(c, EMPTY_WORLD, evs);
            && Sound(c, w.files) && Sound(c, files)
            && var was, s := Loaded(c, w.files).snapshot, Loaded(c, files).snapshot;
               var d := DiskOf(c, w.files);
               s == was || s == None || s == Some(StoredSnapshot(meta, bytes))
               <==> at != 2 || d.data == None || d.data == Some(bytes) || d.meta == Some(meta)
  {
    var w := Run(c, EMPTY_WORLD, evs);
    RunSound(c, evs);
    NextSound(c, w, Crashed(InstallSnapshot(meta, bytes), at, files));
    InstallDisk(c, w.mem, DiskOf(c, w.files), meta, bytes, at);
    if c.data.decode(bytes).Some? { TornSnapshot(c, DiskOf(c, w.files), meta, bytes, at); }
  }
}

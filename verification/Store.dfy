/** `PersistentGuardianStore`: the cache and the directory changed in place, proved
    to perform exactly the steps of StoreOps and to pass only through their crash
    points. */
module Store {
  import opened LogNames
  import opened Ordered
  import opened StoreTypes
  import opened Directory
  import opened StoreOps
  import opened StoreTheorems
  import opened Recovery

  ghost predicate CrashPoint(c: Codecs, steps: seq<Step>, start: World, files: Files) {
    exists at: nat :: StopsIn(c, steps, start, at, files)
  }

  /** Every directory of the trace is a crash point. */
  ghost predicate CrashPoints(c: Codecs, steps: seq<Step>, start: World, trace: seq<Files>) {
    trace == [] ||
    (CrashPoints(c, steps, start, trace[..|trace| - 1]) && CrashPoint(c, steps, start, trace[|trace| - 1]))
  }

  lemma {:induction false} CrashPointsExtend(c: Codecs, steps: seq<Step>, start: World, trace: seq<Files>,
      more: seq<Files>)
    requires CrashPoints(c, steps, start, trace)
    requires forall j :: 0 <= j < |more| ==> CrashPoint(c, steps, start, more[j])
    ensures CrashPoints(c, steps, start, trace + more)
  {
    if more == [] {
      assert trace + more == trace;
    } else {
      var n := |more| - 1;
      CrashPointsExtend(c, steps, start, trace, more[..n]);
      assert (trace + more)[..|trace + more| - 1] == trace + more[..n];
    }
  }

  lemma {:induction false} CrashPointAt(c: Codecs, steps: seq<Step>, start: World, trace: seq<Files>, j: nat)
    requires CrashPoints(c, steps, start, trace) && j < |trace|
    ensures CrashPoint(c, steps, start, trace[j])
  {
    if j < |trace| - 1 { CrashPointAt(c, steps, start, trace[..|trace| - 1], j); }
  }

  /** An error return: stopped at a step that can fail, or refused before any step. */
  ghost predicate FailsAs(c: Codecs, steps: seq<Step>, start: World, end: World) {
    || (steps == [] && end == start)
    || exists at: nat :: FailsAt(c, steps, start, at, end)
  }

  ghost predicate FailsAt(c: Codecs, steps: seq<Step>, start: World, at: nat, end: World) {
    && at < |steps| && !steps[at].Cache?
    && StopsIn(c, steps, start, at, end.files)
    && end.mem == DoAll(c, steps[..at], start).mem
  }

  /** Renaming the complete temporary file is what Save stands for. */
  lemma {:induction false} RenameSaves(c: Codecs, item: Item, before: Files, written: Files)
    requires written == WithTemp(c, item, before, |ContentOf(c, item)|)
    ensures var target := PathOf(item);
            var temp := TempOf(target);
            temp in written
            && (written - {temp})[target := written[temp]] == (before - {temp})[target := ContentOf(c, item)]
  {
    var target := PathOf(item);
    var temp := TempOf(target);
    NotTempItself(target);
    assert ContentOf(c, item)[..|ContentOf(c, item)|] == ContentOf(c, item);
    assert written - {temp} == before - {temp};
  }

  /** An operation under way: its steps, where it began, and how much of the trace of
      directories was there before it. */
  datatype Job = Job(steps: seq<Step>, start: World, from: nat)

  lemma {:induction false} StepDone(c: Codecs, steps: seq<Step>, w: World, k: nat)
    requires k < |steps|
    ensures DoAll(c, steps[..k + 1], w) == After(c, steps[k], DoAll(c, steps[..k], w))
  {
    assert steps[..k + 1][..k] == steps[..k];
  }

  /** A step that can fail, stopped before it took effect. */
  lemma {:induction false} FailsHere(c: Codecs, steps: seq<Step>, w: World, k: nat, end: World)
    requires k < |steps| && !steps[k].Cache?
    requires Torn(c, steps[k], DoAll(c, steps[..k], w).files, end.files) && end.mem == DoAll(c, steps[..k], w).mem
    ensures FailsAs(c, steps, w, end)
  {
    assert FailsAt(c, steps, w, k, end);
  }

  /** One more directory on the trace: the one between two steps. */
  lemma {:induction false} TraceBetween(c: Codecs, steps: seq<Step>, w: World, k: nat, trace: seq<Files>)
    requires k <= |steps| && CrashPoints(c, steps, w, trace)
    ensures CrashPoints(c, steps, w, trace + [DoAll(c, steps[..k], w).files])
  {
    var files := DoAll(c, steps[..k], w).files;
    BetweenSteps(c, steps, w, k);
    assert (trace + [files])[..|trace + [files]| - 1] == trace;
  }

  /** Every directory an atomic write passes through is a crash point. */
  lemma {:induction false} TraceSave(c: Codecs, steps: seq<Step>, w: World, k: nat, trace: seq<Files>, more: seq<Files>)
    requires k < |steps| && CrashPoints(c, steps, w, trace)
    requires forall j :: 0 <= j < |more| ==>
               || Torn(c, steps[k], DoAll(c, steps[..k], w).files, more[j])
               || more[j] == DoAll(c, steps[..k + 1], w).files
    ensures CrashPoints(c, steps, w, trace + more)
  {
    forall j | 0 <= j < |more| ensures CrashPoint(c, steps, w, more[j]) {
      if more[j] == DoAll(c, steps[..k + 1], w).files {
        BetweenSteps(c, steps, w, k + 1);
      } else {
        assert StopsIn(c, steps, w, k, more[j]);
      }
    }
    CrashPointsExtend(c, steps, w, trace, more);
  }

  lemma {:induction false} BetweenSteps(c: Codecs, steps: seq<Step>, w: World, k: nat)
    requires k <= |steps|
    ensures CrashPoint(c, steps, w, DoAll(c, steps[..k], w).files)
  {
    assert k == |steps| ==> steps[..k] == steps;
    assert StopsIn(c, steps, w, k, DoAll(c, steps[..k], w).files);
  }

  lemma {:induction false} AppendRound(c: Codecs, m: Mem, es: seq<Entry>, i: nat)
    requires i < |es|
    ensures var steps := Steps(c, Op.Append(es), m);
            && |steps| == 2 * |es| + 1
            && steps[2 * i] == Save(EntryItem(es[i]))
            && steps[2 * i + 1] == Step.Cache(Extended(m, es[..i + 1]))
    ensures Extended(m, es[..i + 1]) ==
            Extended(m, es[..i]).(log := Extended(m, es[..i]).log[es[i].logId.index := es[i]])
  {
    assert Steps(c, Op.Append(es), m)[2 * i] == AppendSteps(m, es)[2 * i];
    assert Steps(c, Op.Append(es), m)[2 * i + 1] == AppendSteps(m, es)[2 * i + 1];
    assert es[..i + 1][..i] == es[..i];
    assert m.log + Indexed(es[..i + 1]) == (m.log + Indexed(es[..i]))[es[i].logId.index := es[i]];
  }

  ghost predicate EndsDropping(steps: seq<Step>, k: nat, m: Mem, keys: seq<U64>) {
    |steps| == k + 2 * |keys| && steps[k..] == DropSteps(m, keys)
  }

  /** Round `i` takes its key out of what the rounds before left in the cache. */
  ghost predicate DropsAt(steps: seq<Step>, k: nat, m: Mem, keys: seq<U64>, i: nat)
    requires i < |keys| && |steps| == k + 2 * |keys|
  {
    var left := Without(m, keys[..i]);
    && steps[k + 2 * i] == Step.Cache(left.(log := left.log - {keys[i]})) && steps[k + 2 * i + 1] == Drop(keys[i])
    && Without(m, keys[..i + 1]) == left.(log := left.log - {keys[i]})
  }

  ghost predicate DropsEach(steps: seq<Step>, k: nat, m: Mem, keys: seq<U64>) {
    |steps| == k + 2 * |keys| && forall i :: 0 <= i < |keys| ==> DropsAt(steps, k, m, keys, i)
  }

  lemma {:induction false} DropRounds(steps: seq<Step>, k: nat, m: Mem, keys: seq<U64>)
    requires EndsDropping(steps, k, m, keys)
    ensures DropsEach(steps, k, m, keys)
  {
    forall i | 0 <= i < |keys| ensures DropsAt(steps, k, m, keys, i) {
      DropRound(steps, k, m, keys, i);
    }
  }

  lemma {:induction false} DropRound(steps: seq<Step>, k: nat, m: Mem, keys: seq<U64>, i: nat)
    requires i < |keys| && EndsDropping(steps, k, m, keys)
    ensures DropsAt(steps, k, m, keys, i)
  {
    assert steps[k + 2 * i] == steps[k..][2 * i] && steps[k + 2 * i + 1] == steps[k..][2 * i + 1];
    ToSetSnoc(keys, i);
    assert m.log - ToSet(keys[..i + 1]) == m.log - ToSet(keys[..i]) - {keys[i]};
  }

  lemma {:induction false} NoneDropped(m: Mem, keys: seq<U64>)
    ensures Without(m, keys[..0]) == m && Without(m, keys[..|keys|]) == Without(m, keys)
  {
    assert m.log - ToSet([]) == m.log;
    assert keys[..|keys|] == keys;
  }

  lemma {:induction false} KeptBelow(log: map<U64, Entry>, from: U64)
    ensures log - ToSet(InOrder(set k | k in log && from <= k)) == map k | k in log && k < from :: log[k]
  {}

  lemma {:induction false} KeptAbove(log: map<U64, Entry>, upTo: U64)
    ensures log - ToSet(InOrder(set k | k in log && k <= upTo)) == map k | k in log && k > upTo :: log[k]
  {}

  lemma {:induction false} PurgeBegins(c: Codecs, m: Mem, id: LogId)
    ensures var steps := Steps(c, Op.Purge(id), m);
            var marked := m.(lastPurged := Some(id));
            && EndsDropping(steps, 1, marked, KeysUpTo(m, id.index))
            && steps[0] == Step.Cache(marked)
  {}

  class PersistentGuardianStore {
    const c: Codecs
    var files: Files
    var lastPurged: Option<LogId>
    var log: map<U64, Entry>
    var committed: Option<LogId>
    var vote: Option<StoreTypes.Vote>
    var machine: StateMachineData
    var snapshotIdx: nat
    var snapshot: Option<StoredSnapshot>
    /** Every directory state since the store was opened, one per file-system call. */
    ghost var passed: seq<Files>
    /** How many calls of the file system or the serialiser have failed. */
    ghost var faults: nat
    /** How much had passed at the last flush of logs/ that succeeded. */
    ghost var flushed: nat
    /** The file last flushed, and with what content. */
    ghost var synced: Option<(Path, Bytes)>

    ghost function Cached(): Mem
      reads `lastPurged, `log, `committed, `vote, `machine, `snapshotIdx, `snapshot
    {
      Mem(lastPurged, log, committed, vote, machine, snapshotIdx, snapshot)
    }

    ghost function Whole(): World
      reads `lastPurged, `log, `committed, `vote, `machine, `snapshotIdx, `snapshot, `files
    {
      World(Cached(), files)
    }

    ghost predicate Traced(job: Job)
      reads `passed
    {
      job.from <= |passed| && CrashPoints(c, job.steps, job.start, passed[job.from..])
    }

    /** The first `k` steps of the operation are done and nothing else. */
    ghost predicate OnTrack(job: Job, k: nat)
      reads `lastPurged, `log, `committed, `vote, `machine, `snapshotIdx, `snapshot, `files, `passed
    {
      k <= |job.steps| && Whole() == DoAll(c, job.steps[..k], job.start) && Traced(job)
    }

    /** What every operation promises, begun at `start` with `before` as the trace: run
        to the end, or stopped at a step that can fail; and in between only crash
        points of the operation. */
    ghost predicate Performed(op: Op, ok: bool, start: World, before: seq<Files>)
      reads `lastPurged, `log, `committed, `vote, `machine, `snapshotIdx, `snapshot, `files, `passed
    {
      var steps := Steps(c, op, start.mem);
      && (ok ==> Whole() == DoAll(c, steps, start))
      && (!ok ==> FailsAs(c, steps, start, Whole()))
      && before <= passed
      && CrashPoints(c, steps, start, passed[|before|..])
    }

    /** A call fails exactly if something it called failed. */
    ghost predicate FailedIff(failed: bool, before: nat)
      reads `faults
    {
      before <= faults && (failed <==> before < faults)
    }

    /** The item's content was flushed, under its temporary name. */
    ghost predicate Synced(item: Item)
      reads `synced
    {
      synced == Some((TempOf(PathOf(item)), ContentOf(c, item)))
    }

    constructor (codecs: Codecs, directory: Files)
      ensures c == codecs && files == directory && Cached() == EMPTY_MEM && passed == [] && faults == 0
    {
      c := codecs;
      files := directory;
      lastPurged, log, committed, vote := None, map[], None, None;
      machine, snapshotIdx, snapshot := EMPTY_MACHINE, 0, None;
      passed, faults, flushed, synced := [], 0, 0, None;
    }

    // -------------------------------------------------- file-system primitives

    method CreateFile(p: Path) returns (ok: bool)
      modifies `files, `passed, `faults
      ensures files == if ok then old(files)[p := []] else old(files)
      ensures passed == old(passed) + [files]
      ensures FailedIff(!ok, old(faults))
    {
      ok := *;
      if ok { files := files[p := []]; }
      if !ok { faults := faults + 1; }
      passed := passed + [files];
    }

    /** `write_all`: any number of partial writes, any of which may be the last. */
    method WriteAll(p: Path, data: Bytes) returns (ok: bool)
      requires p in files && files[p] == []
      modifies `files, `passed, `faults
      ensures ok ==> files == old(files)[p := data]
      ensures exists n: nat :: n <= |data| && files == old(files)[p := data[..n]]
      ensures FailedIff(!ok, old(faults))
      ensures old(passed) <= passed
      ensures forall j :: |old(passed)| <= j < |passed| ==>
                exists n: nat :: n <= |data| && passed[j] == old(files)[p := data[..n]]
    {
      var n := 0;
      assert files == files[p := data[..0]];
      while n < |data|
        invariant n <= |data| && faults == old(faults)
        invariant files == old(files)[p := data[..n]]
        invariant old(passed) <= passed
        invariant forall j :: |old(passed)| <= j < |passed| ==>
                    exists m: nat :: m <= |data| && passed[j] == old(files)[p := data[..m]]
      {
        var written: int := *;
        if written <= 0 || n + written > |data| {
          faults := faults + 1;
          return false;
        }
        n := n + written;
        files := files[p := data[..n]];
        passed := passed + [files];
      }
      assert data[..n] == data;
      ok := true;
    }

    /** `sync_all` on one file. */
    method SyncFile(p: Path) returns (ok: bool)
      requires p in files
      modifies `faults, `synced
      ensures FailedIff(!ok, old(faults))
      ensures synced == if ok then Some((p, files[p])) else old(synced)
    {
      ok := *;
      if ok { synced := Some((p, files[p])); } else { faults := faults + 1; }
    }

    /** A file that is to survive under its new name is flushed before it gets it. */
    method Rename(source: Path, target: Path, ghost durable: bool) returns (ok: bool)
      requires source in files && (durable ==> synced == Some((source, files[source])))
      modifies `files, `passed, `faults
      ensures files == if ok then (old(files) - {source})[target := old(files)[source]] else old(files)
      ensures passed == old(passed) + [files]
      ensures FailedIff(!ok, old(faults))
    {
      ok := *;
      if ok { files := (files - {source})[target := files[source]]; }
      if !ok { faults := faults + 1; }
      passed := passed + [files];
    }

    method Unlink(p: Path) returns (ok: bool)
      modifies `files, `passed, `faults
      ensures files == if ok then old(files) - {p} else old(files)
      ensures passed == old(passed) + [files]
      ensures FailedIff(!ok, old(faults))
    {
      ok := *;
      if ok { files := files - {p}; }
      if !ok { faults := faults + 1; }
      passed := passed + [files];
    }

    /** Create and write the temporary file, and flush it if asked to. */
    method WriteTemp(item: Item, fsync: bool) returns (ok: bool)
      modifies `files, `passed, `faults, `synced
      ensures ok && fsync ==> Synced(item)
      ensures ok ==> files == WithTemp(c, item, old(files), |ContentOf(c, item)|)
      ensures Torn(c, Save(item), old(files), files)
      ensures FailedIff(!ok, old(faults))
      ensures old(passed) <= passed
      ensures forall j :: |old(passed)| <= j < |passed| ==> Torn(c, Save(item), old(files), passed[j])
    {
      var temp := TempOf(PathOf(item));
      var data := ContentOf(c, item);
      ghost var before := files;
      ok := CreateFile(temp);
      if !ok { return; }
      assert files == WithTemp(c, item, before, 0);
      label created:
      ok := WriteAll(temp, data);
      forall j | |old(passed)| <= j < |passed|
        ensures Torn(c, Save(item), before, passed[j])
      {
        if |old@created(passed)| <= j {
          var n: nat :| n <= |data| && passed[j] == old@created(files)[temp := data[..n]];
          assert passed[j] == WithTemp(c, item, before, n);
        }
      }
      ghost var n: nat :| n <= |data| && files == old@created(files)[temp := data[..n]];
      assert files == WithTemp(c, item, before, n);
      if !ok { return; }
      assert files == WithTemp(c, item, before, |data|);
      if fsync { ok := SyncFile(temp); }
    }

    /** Temporary file, then rename: the target changes in one step or not at all. */
    method AtomicWrite(item: Item, fsync: bool) returns (ok: bool)
      modifies `files, `passed, `faults, `synced
      ensures ok && fsync ==> Synced(item)
      ensures ok ==> files == After(c, Save(item), old(Whole())).files
      ensures !ok ==> Torn(c, Save(item), old(files), files)
      ensures FailedIff(!ok, old(faults))
      ensures old(passed) <= passed
      ensures forall j :: |old(passed)| <= j < |passed| ==>
                || Torn(c, Save(item), old(files), passed[j])
                || passed[j] == After(c, Save(item), old(Whole())).files
    {
      ghost var before := files;
      ok := WriteTemp(item, fsync);
      if !ok { return; }
      RenameSaves(c, item, before, files);
      assert ContentOf(c, item)[..|ContentOf(c, item)|] == ContentOf(c, item);
      ok := Rename(TempOf(PathOf(item)), PathOf(item), fsync);
    }

    // ------------------------------------------------- steps of an operation

    /** Everything but log entries is flushed on the way. */
    method Persist(item: Item, ghost job: Job, ghost k: nat) returns (ok: bool)
      requires OnTrack(job, k) && k < |job.steps| && job.steps[k] == Save(item)
      modifies `files, `passed, `faults, `synced
      ensures ok && !item.EntryItem? ==> Synced(item)
      ensures FailedIff(!ok, old(faults))
      ensures old(passed) <= passed
      ensures ok ==> OnTrack(job, k + 1)
      ensures !ok ==> Traced(job) && FailsAs(c, job.steps, job.start, Whole())
    {
      ok := *;  // serialising the item may fail
      if !ok {
        faults := faults + 1;
        FailsHere(c, job.steps, job.start, k, Whole());
        return;
      }
      ghost var before, at := passed, files;
      ok := AtomicWrite(item, !item.EntryItem?);
      StepDone(c, job.steps, job.start, k);
      PersistTraced(item, job, k, before, at);
      if !ok { FailsHere(c, job.steps, job.start, k, Whole()); }
    }

    lemma {:induction false} PersistTraced(item: Item, job: Job, k: nat, before: seq<Files>, at: Files)
      requires k < |job.steps| && job.steps[k] == Save(item) && at == DoAll(c, job.steps[..k], job.start).files
      requires job.from <= |before| && before <= passed
      requires CrashPoints(c, job.steps, job.start, before[job.from..])
      requires forall j :: |before| <= j < |passed| ==>
                 Torn(c, Save(item), at, passed[j]) || passed[j] == DoAll(c, job.steps[..k + 1], job.start).files
      ensures Traced(job)
    {
      TraceSave(c, job.steps, job.start, k, before[job.from..], passed[|before|..]);
      assert passed[job.from..] == before[job.from..] + passed[|before|..];
    }

    method DeleteLogEntry(index: U64, ghost job: Job, ghost k: nat) returns (ok: bool)
      requires OnTrack(job, k) && k < |job.steps| && job.steps[k] == Drop(index)
      modifies `files, `passed, `faults
      ensures FailedIff(!ok, old(faults))
      ensures old(passed) <= passed
      ensures ok ==> OnTrack(job, k + 1)
      ensures !ok ==> Traced(job) && FailsAs(c, job.steps, job.start, Whole())
    {
      StepDone(c, job.steps, job.start, k);
      if LogPath(index) !in files {
        assert files - {LogPath(index)} == files;
        return true;
      }
      ghost var before := passed;
      ok := Unlink(LogPath(index));
      if ok { Unlinked(job, k, before); } else { UnlinkFailed(job, k, before); }
    }

    lemma {:induction false} Unlinked(job: Job, k: nat, before: seq<Files>)
      requires k < |job.steps| && Whole() == DoAll(c, job.steps[..k + 1], job.start)
      requires passed == before + [files] && job.from <= |before|
      requires CrashPoints(c, job.steps, job.start, before[job.from..])
      ensures OnTrack(job, k + 1)
    {
      TraceBetween(c, job.steps, job.start, k + 1, before[job.from..]);
      assert passed[job.from..] == before[job.from..] + [files];
    }

    lemma {:induction false} UnlinkFailed(job: Job, k: nat, before: seq<Files>)
      requires k < |job.steps| && job.steps[k].Drop? && Whole() == DoAll(c, job.steps[..k], job.start)
      requires passed == before + [files] && job.from <= |before|
      requires CrashPoints(c, job.steps, job.start, before[job.from..])
      ensures Traced(job) && FailsAs(c, job.steps, job.start, Whole())
    {
      TraceBetween(c, job.steps, job.start, k, before[job.from..]);
      assert passed[job.from..] == before[job.from..] + [files];
      FailsHere(c, job.steps, job.start, k, Whole());
    }

    method FsyncLogEntries(ghost job: Job, ghost k: nat) returns (ok: bool)
      requires OnTrack(job, k) && k < |job.steps| && job.steps[k] == Flush
      modifies `faults, `flushed
      ensures FailedIff(!ok, old(faults))
      ensures ok ==> OnTrack(job, k + 1) && flushed == |passed|
      ensures !ok ==> FailsAs(c, job.steps, job.start, Whole())
    {
      ok := *;
      StepDone(c, job.steps, job.start, k);
      if ok {
        flushed := |passed|;
      } else {
        faults := faults + 1;
        FailsHere(c, job.steps, job.start, k, Whole());
      }
    }

    /** Called after the fields have been assigned. */
    lemma {:induction false} CacheUpdated(job: Job, k: nat)
      requires k < |job.steps| && job.steps[k] == Step.Cache(Cached())
      requires files == DoAll(c, job.steps[..k], job.start).files && Traced(job)
      ensures OnTrack(job, k + 1)
    {
      StepDone(c, job.steps, job.start, k);
    }

    lemma {:induction false} Finished(op: Op, job: Job, before: seq<Files>)
      requires job == Job(Steps(c, op, job.start.mem), job.start, |before|) && before <= passed
      requires OnTrack(job, |job.steps|)
      ensures Performed(op, true, job.start, before)
    {
      assert job.steps[..|job.steps|] == job.steps;
    }

    lemma {:induction false} Stopped(op: Op, job: Job, before: seq<Files>)
      requires job == Job(Steps(c, op, job.start.mem), job.start, |before|) && before <= passed
      requires Traced(job) && FailsAs(c, job.steps, job.start, Whole())
      ensures Performed(op, false, job.start, before)
    {}

    /** A call of an operation is an event of the runs that the theorems speak of. */
    lemma {:induction false} PerformedIsEvent(op: Op, ok: bool, start: World, before: seq<Files>) returns (ev: Event)
      requires Performed(op, ok, start, before) && Admissible(op, start.mem)
      ensures ev.op == op && !ev.Crashed? && (ok ==> ev.Done?)
      ensures Legal(c, start, ev) && Next(c, start, ev) == Whole()
    {
      var steps := Steps(c, op, start.mem);
      if ok || steps == [] {
        ev := Done(op);
      } else {
        var at: nat :| FailsAt(c, steps, start, at, Whole());
        ev := Failed(op, at, files);
      }
    }

    /** Every directory a call passes through, after any run, opens again and holds the
        old or the new value of what the call was replacing. */
    lemma {:induction false} EveryPassedDirectoryRecovers(op: Op, ok: bool, evs: seq<Event>, before: seq<Files>, j: nat)
      requires c.Lawful() && LegalRun(c, EMPTY_WORLD, evs)
      requires Performed(op, ok, Run(c, EMPTY_WORLD, evs), before) && Admissible(op, Run(c, EMPTY_WORLD, evs).mem)
      requires |before| <= j < |passed|
      ensures var w := Run(c, EMPTY_WORLD, evs);
              && Sound(c, w.files) && Sound(c, passed[j]) && Loadable(c, passed[j])
              && CrashOutcome(c, op, w.mem, DiskOf(c, w.files), DiskOf(c, passed[j]))
    {
      var w := Run(c, EMPTY_WORLD, evs);
      var steps := Steps(c, op, w.mem);
      CrashPointAt(c, steps, w, passed[|before|..], j - |before|);
      var at: nat :| StopsIn(c, steps, w, at, passed[j]);
      CrashAtomicity(c, evs, op, at, passed[j]);
    }

    // ---------------------------------------------------------------- recovery

    method LoadVoteAndCommitted() returns (ok: bool)
      requires vote == None && committed == None
      modifies `vote, `committed
      ensures ok <==> VoteAndCommittedGood(c, files)
      ensures ok ==> vote == Lookup(c.vote, files, VOTE) && committed == CommittedIn(c, files)
    {
      if VOTE in files {
        match c.vote.decode(files[VOTE]) {
          case None => return false;
          case Some(v) => vote := Some(v);
        }
      }
      if COMMITTED in files {
        match c.committed.decode(files[COMMITTED]) {
          case None => return false;
          case Some(id) => committed := id;
        }
      }
      ok := true;
    }

    /** One name in logs/: a name that is no log entry's is skipped. */
    method ReadLog(name: string) returns (ok: bool)
      requires InLogs(name) in files
      modifies `log
      ensures ok <==> Readable(c, files, InLogs(name))
      ensures ok ==> log == if IsLogFile(InLogs(name))
                            then old(log)[IndexOf(InLogs(name)) := EntryIn(c, files[InLogs(name)])] else old(log)
    {
      match ParseLogIndex(name) {
        case None =>
        case Some(index) =>
          match c.record.decode(files[InLogs(name)]) {
            case None => return false;
            case Some(record) =>
              if record.index != index { return false; }
              log := log[index := record.entry];
          }
      }
      ok := true;
    }

    ghost predicate ReadUpTo(names: seq<string>, k: nat)
      reads this
    {
      ReadableUpTo(c, files, names, k) && ReadFrom(c, files, ToSet(names[..k]), log)
    }

    /** One round of the loop over the names in logs/. */
    method ReadNext(names: seq<string>, k: nat) returns (ok: bool)
      requires k < |names| && InLogs(names[k]) in files && ReadUpTo(names, k)
      modifies `log
      ensures ok ==> ReadUpTo(names, k + 1)
      ensures !ok ==> !Readable(c, files, InLogs(names[k]))
    {
      ghost var before := log;
      ok := ReadLog(names[k]);
      if ok {
        ReadOne(c, files, ToSet(names[..k]), names[k], before, log);
        ToSetSnoc(names, k);
      }
    }

    method ReadLogs(names: seq<string>) returns (ok: bool)
      requires log == map[]
      requires forall n :: n in names ==> InLogs(n) in files
      modifies `log
      ensures ok <==> ReadableUpTo(c, files, names, |names|)
      ensures ok ==> ReadFrom(c, files, ToSet(names), log)
    {
      for k := 0 to |names|
        invariant ReadUpTo(names, k)
      {
        assert names[k] in names;
        ok := ReadNext(names, k);
        if !ok { return; }
      }
      assert names[..|names|] == names;
      ok := true;
    }

    /** The scan of logs/, in whatever order the directory lists its names. */
    method LoadLogs(names: seq<string>) returns (ok: bool)
      requires log == map[]
      requires forall n :: n in names <==> InLogs(n) in files
      modifies `log
      ensures ok <==> LogsGood(c, files)
      ensures ok ==> ReadFrom(c, files, LogNamesIn(files), log)
    {
      ok := ReadLogs(names);
      ReadableAll(c, files, names);
      assert ToSet(names) == LogNamesIn(files) by {
        forall n ensures n in ToSet(names) <==> n in LogNamesIn(files) {
          assert InLogs(n) in files ==> n in LogNamesIn(files);
        }
      }
    }

    method LoadMachineAndSnapshot() returns (ok: bool)
      requires machine == EMPTY_MACHINE && snapshot == None
      modifies `machine, `snapshot
      ensures ok <==> MachineAndSnapshotGood(c, files)
      ensures ok ==> machine == MachineIn(c, files) && snapshot == SnapshotIn(c, files)
    {
      if MACHINE in files {
        match c.machine.decode(files[MACHINE]) {
          case None => return false;
          case Some(sm) => machine := sm;
        }
      }
      if META in files && DATA in files {
        match c.meta.decode(files[META]) {
          case None => return false;
          case Some(meta) => snapshot := Some(StoredSnapshot(meta, files[DATA]));
        }
      }
      ok := true;
    }

    /** `load_state` on a new store: it succeeds exactly on loadable directories, and on
        one the store has written the cache becomes what the disk stands for. */
    method LoadState(names: seq<string>) returns (ok: bool)
      requires Cached() == EMPTY_MEM
      requires forall n :: n in names <==> InLogs(n) in files
      modifies `vote, `committed, `log, `machine, `snapshot
      ensures ok <==> Loadable(c, files)
      ensures ok ==> Restores(c, files, Cached())
      ensures ok && Sound(c, files) ==> Cached() == Loaded(c, files)
    {
      LoadableIs(c, files);
      ok := LoadParts(names);
      if ok && Sound(c, files) { RestoresLoaded(c, files, Cached()); }
    }

    method LoadParts(names: seq<string>) returns (ok: bool)
      requires Cached() == EMPTY_MEM
      requires forall n :: n in names <==> InLogs(n) in files
      modifies `vote, `committed, `log, `machine, `snapshot
      ensures ok <==> VoteAndCommittedGood(c, files) && LogsGood(c, files) && MachineAndSnapshotGood(c, files)
      ensures ok ==> Restores(c, files, Cached())
    {
      ok := LoadVoteAndCommitted();
      if !ok { return; }
      ok := LoadLogs(names);
      if !ok { return; }
      ok := LoadMachineAndSnapshot();
    }

    /** `new`: an empty cache, then whatever the directory holds. */
    static method Open(codecs: Codecs, directory: Files, names: seq<string>)
      returns (ok: bool, store: PersistentGuardianStore)
      requires forall n :: n in names <==> InLogs(n) in directory
      ensures fresh(store) && store.c == codecs && store.files == directory && store.passed == []
      ensures ok <==> Loadable(codecs, directory)
      ensures ok ==> Restores(codecs, directory, store.Cached())
      ensures ok && Sound(codecs, directory) ==> store.Cached() == Loaded(codecs, directory)
    {
      store := new PersistentGuardianStore(codecs, directory);
      ok := store.LoadState(names);
    }

    // -------------------------------------------------------------- operations

    method SaveVote(v: StoreTypes.Vote) returns (ok: bool)
      modifies this
      ensures Performed(Op.SaveVote(v), ok, old(Whole()), old(passed))
      ensures FailedIff(!ok, old(faults)) && (ok ==> Synced(VoteItem(v)))
      ensures vote == (if ok then Some(v) else old(vote))
    {
      ghost var job := Job(Steps(c, Op.SaveVote(v), Cached()), Whole(), |passed|);
      ok := Persist(VoteItem(v), job, 0);
      if !ok { Stopped(Op.SaveVote(v), job, old(passed)); return; }
      vote := Some(v);
      CacheUpdated(job, 1);
      Finished(Op.SaveVote(v), job, old(passed));
    }

    method SaveCommitted(id: Option<LogId>) returns (ok: bool)
      modifies this
      ensures Performed(Op.SaveCommitted(id), ok, old(Whole()), old(passed))
      ensures FailedIff(!ok, old(faults)) && (ok ==> Synced(CommittedItem(id)))
      ensures committed == (if ok then id else old(committed))
    {
      ghost var job := Job(Steps(c, Op.SaveCommitted(id), Cached()), Whole(), |passed|);
      ok := Persist(CommittedItem(id), job, 0);
      if !ok { Stopped(Op.SaveCommitted(id), job, old(passed)); return; }
      committed := id;
      CacheUpdated(job, 1);
      Finished(Op.SaveCommitted(id), job, old(passed));
    }

    /** One entry of an append: to disk, then into the cache. */
    method AppendEntry(e: Entry, ghost job: Job, ghost k: nat) returns (ok: bool)
      requires OnTrack(job, k) && k + 1 < |job.steps|
      requires job.steps[k] == Save(EntryItem(e))
      requires job.steps[k + 1] == Step.Cache(Cached().(log := log[e.logId.index := e]))
      modifies `files, `passed, `faults, `synced, `log
      ensures FailedIff(!ok, old(faults))
      ensures old(passed) <= passed
      ensures ok ==> OnTrack(job, k + 2) && log == old(log)[e.logId.index := e]
      ensures !ok ==> Traced(job) && FailsAs(c, job.steps, job.start, Whole())
    {
      ok := Persist(EntryItem(e), job, k);
      if !ok { return; }
      log := log[e.logId.index := e];
      CacheUpdated(job, k + 1);
    }

    /** One round of the loop in `append`. */
    method AppendOne(entries: seq<Entry>, i: nat, ghost m: Mem, ghost job: Job, ghost at: nat) returns (ok: bool)
      requires i < |entries| && at == 2 * i && job.steps == Steps(c, Op.Append(entries), m)
      requires OnTrack(job, at) && Cached() == Extended(m, entries[..i])
      modifies `files, `passed, `faults, `synced, `log
      ensures FailedIff(!ok, old(faults))
      ensures old(passed) <= passed
      ensures ok ==> OnTrack(job, at + 2) && Cached() == Extended(m, entries[..i + 1])
      ensures !ok ==> Traced(job) && FailsAs(c, job.steps, job.start, Whole())
    {
      AppendRound(c, m, entries, i);
      ok := AppendEntry(entries[i], job, at);
    }

    method AppendAll(entries: seq<Entry>, ghost m: Mem, ghost job: Job) returns (ok: bool)
      requires OnTrack(job, 0) && Cached() == m && job.steps == Steps(c, Op.Append(entries), m)
      modifies `files, `passed, `faults, `synced, `log
      ensures FailedIff(!ok, old(faults))
      ensures old(passed) <= passed
      ensures ok ==> OnTrack(job, 2 * |entries|) && log == m.log + Indexed(entries)
      ensures !ok ==> Traced(job) && FailsAs(c, job.steps, job.start, Whole())
    {
      assert m.log + map[] == m.log;
      ghost var at := 0;
      for i := 0 to |entries|
        invariant at == 2 * i && OnTrack(job, at)
        invariant old(passed) <= passed && faults == old(faults)
        invariant Cached() == Extended(m, entries[..i])
      {
        ok := AppendOne(entries, i, m, job, at);
        if !ok { return; }
        at := at + 2;
      }
      assert entries[..|entries|] == entries;
      ok := true;
    }

    method Append(entries: seq<Entry>) returns (ok: bool)
      modifies this
      ensures Performed(Op.Append(entries), ok, old(Whole()), old(passed))
      ensures FailedIff(!ok, old(faults))
      ensures ok ==> log == old(log) + Indexed(entries) && flushed == |passed|
    {
      ghost var job := Job(Steps(c, Op.Append(entries), Cached()), Whole(), |passed|);
      ok := AppendAll(entries, Cached(), job);
      if ok { ok := FsyncLogEntries(job, 2 * |entries|); }
      if ok { Finished(Op.Append(entries), job, old(passed)); } else { Stopped(Op.Append(entries), job, old(passed)); }
    }

    /** One key: out of the cache, then off the disk. */
    method DeleteKey(key: U64, ghost job: Job, ghost k: nat) returns (ok: bool)
      requires OnTrack(job, k) && k + 1 < |job.steps|
      requires job.steps[k] == Step.Cache(Cached().(log := log - {key})) && job.steps[k + 1] == Drop(key)
      modifies `files, `passed, `faults, `log
      ensures FailedIff(!ok, old(faults))
      ensures old(passed) <= passed
      ensures log == old(log) - {key}
      ensures ok ==> OnTrack(job, k + 2)
      ensures !ok ==> Traced(job) && FailsAs(c, job.steps, job.start, Whole())
    {
      log := log - {key};
      CacheUpdated(job, k);
      ok := DeleteLogEntry(key, job, k + 1);
    }

    /** The first `i` keys are out of the cache and off the disk. */
    ghost predicate Deleted(keys: seq<U64>, i: nat, base: Mem, job: Job, k: nat, at: nat)
      reads `lastPurged, `log, `committed, `vote, `machine, `snapshotIdx, `snapshot, `files, `passed
    {
      i <= |keys| && at == k + 2 * i && OnTrack(job, at) && Cached() == Without(base, keys[..i])
    }

    /** One round of the loop in `truncate` and `purge`. */
    method DeleteOne(keys: seq<U64>, i: nat, ghost base: Mem, ghost job: Job, ghost k: nat,
          ghost at: nat) returns (ok: bool)
      requires i < |keys| && Deleted(keys, i, base, job, k, at) && DropsEach(job.steps, k, base, keys)
      modifies `files, `passed, `faults, `log
      ensures FailedIff(!ok, old(faults))
      ensures old(passed) <= passed
      ensures ok ==> Deleted(keys, i + 1, base, job, k, at + 2)
      ensures !ok ==> Traced(job) && FailsAs(c, job.steps, job.start, Whole())
    {
      assert DropsAt(job.steps, k, base, keys, i);
      ok := DeleteKey(keys[i], job, at);
    }

    /** The common loop of `truncate` and `purge`. */
    method DeleteAll(keys: seq<U64>, ghost base: Mem, ghost job: Job, ghost k: nat) returns (ok: bool, ghost at: nat)
      requires Deleted(keys, 0, base, job, k, k) && DropsEach(job.steps, k, base, keys)
      modifies `files, `passed, `faults, `log
      ensures FailedIff(!ok, old(faults))
      ensures old(passed) <= passed
      ensures ok ==> Deleted(keys, |keys|, base, job, k, at)
      ensures !ok ==> Traced(job) && FailsAs(c, job.steps, job.start, Whole())
    {
      at := k;
      for i := 0 to |keys|
        invariant Deleted(keys, i, base, job, k, at) && old(passed) <= passed && faults == old(faults)
      {
        ok := DeleteOne(keys, i, base, job, k, at);
        if !ok { return; }
        at := at + 2;
      }
      ok := true;
    }

    method DeleteKeys(keys: seq<U64>, ghost base: Mem, ghost job: Job, ghost k: nat) returns (ok: bool)
      requires OnTrack(job, k) && Cached() == base && EndsDropping(job.steps, k, base, keys)
      modifies `files, `passed, `faults, `log
      ensures FailedIff(!ok, old(faults))
      ensures old(passed) <= passed
      ensures ok ==> OnTrack(job, |job.steps|) && Cached() == Without(base, keys)
      ensures !ok ==> Traced(job) && FailsAs(c, job.steps, job.start, Whole())
    {
      ghost var at;
      DeletingBegins(keys, base, job, k);
      DropRounds(job.steps, k, base, keys);
      ok, at := DeleteAll(keys, base, job, k);
      if ok { DeletingEnds(keys, base, job, k, at); }
    }

    lemma {:induction false} DeletingBegins(keys: seq<U64>, base: Mem, job: Job, k: nat)
      requires OnTrack(job, k) && Cached() == base
      ensures Deleted(keys, 0, base, job, k, k)
    {
      NoneDropped(base, keys);
    }

    lemma {:induction false} DeletingEnds(keys: seq<U64>, base: Mem, job: Job, k: nat, at: nat)
      requires Deleted(keys, |keys|, base, job, k, at) && |job.steps| == k + 2 * |keys|
      ensures OnTrack(job, |job.steps|) && Cached() == Without(base, keys)
    {
      NoneDropped(base, keys);
    }

    method Truncate(id: LogId) returns (ok: bool)
      modifies this
      ensures Performed(Op.Truncate(id), ok, old(Whole()), old(passed))
      ensures FailedIff(!ok, old(faults))
      ensures ok ==> log == map k | k in old(log) && k < id.index :: old(log)[k]
    {
      ghost var base := Cached();
      ghost var job := Job(Steps(c, Op.Truncate(id), base), Whole(), |passed|);
      var keys := InOrder(set k | k in log && id.index <= k);
      KeptBelow(log, id.index);
      assert keys == KeysFrom(base, id.index);
      ok := DeleteKeys(keys, base, job, 0);
      if ok { Finished(Op.Truncate(id), job, old(passed)); } else { Stopped(Op.Truncate(id), job, old(passed)); }
    }

    /** The purge point is marked before anything is deleted. */
    method MarkAndDelete(id: LogId, keys: seq<U64>, ghost job: Job) returns (ok: bool)
      requires OnTrack(job, 0) && EndsDropping(job.steps, 1, Cached().(lastPurged := Some(id)), keys)
      requires job.steps[0] == Step.Cache(Cached().(lastPurged := Some(id)))
      modifies this
      ensures FailedIff(!ok, old(faults))
      ensures old(passed) <= passed && lastPurged == Some(id)
      ensures ok ==> OnTrack(job, |job.steps|) && log == old(log) - ToSet(keys)
      ensures !ok ==> Traced(job) && FailsAs(c, job.steps, job.start, Whole())
    {
      lastPurged := Some(id);
      CacheUpdated(job, 0);
      ok := DeleteKeys(keys, Cached(), job, 1);
    }

    method Purge(id: LogId) returns (ok: bool)
      requires lastPurged.Some? ==> LogIdAtMost(lastPurged.value, id)
      modifies this
      ensures Performed(Op.Purge(id), ok, old(Whole()), old(passed))
      ensures FailedIff(!ok, old(faults))
      ensures lastPurged == Some(id)
      ensures ok ==> log == map k | k in old(log) && k > id.index :: old(log)[k]
    {
      ghost var job := Job(Steps(c, Op.Purge(id), Cached()), Whole(), |passed|);
      PurgeBegins(c, Cached(), id);
      KeptAbove(log, id.index);
      ok := MarkAndDelete(id, InOrder(set k | k in log && k <= id.index), job);
      if ok { Finished(Op.Purge(id), job, old(passed)); } else { Stopped(Op.Purge(id), job, old(passed)); }
    }

    method Apply(entries: seq<Entry>) returns (ok: bool, responses: nat)
      modifies this
      ensures Performed(Op.Apply(entries), ok, old(Whole()), old(passed))
      ensures FailedIff(!ok, old(faults)) && (ok ==> Synced(MachineItem(machine)))
      ensures machine == Applied(old(machine), entries)
      ensures machine.data == old(machine).data && responses == |entries|
      ensures machine.lastApplied == if entries == [] then old(machine).lastApplied
                                     else Some(entries[|entries| - 1].logId)
      ensures forall k :: 0 <= k < |entries| && LastChange(entries, k) ==>
                machine.lastMembership == StoredMembership(Some(entries[k].logId), entries[k].payload.membership)
    {
      ghost var job := Job(Steps(c, Op.Apply(entries), Cached()), Whole(), |passed|);
      responses := ApplyEntries(entries);
      AppliedExactly(old(machine), entries);
      CacheUpdated(job, 0);
      ok := Persist(MachineItem(machine), job, 1);
      if ok { Finished(Op.Apply(entries), job, old(passed)); } else { Stopped(Op.Apply(entries), job, old(passed)); }
    }

    method ApplyEntries(entries: seq<Entry>) returns (responses: nat)
      modifies `machine
      ensures machine == Applied(old(machine), entries) && responses == |entries|
    {
      responses := 0;
      for i := 0 to |entries|
        invariant machine == Applied(old(machine), entries[..i]) && responses == i
      {
        var e := entries[i];
        machine := machine.(lastApplied := Some(e.logId));
        match e.payload {
          case Change(membership) =>
            machine := machine.(lastMembership := StoredMembership(Some(e.logId), membership));
          case _ =>
        }
        responses := responses + 1;
        assert entries[..i + 1][..i] == entries[..i];
      }
      assert entries[..|entries|] == entries;
    }

    method GetLogState() returns (purged: Option<LogId>, last: Option<LogId>)
      ensures purged == lastPurged && last == LastLogId(Cached())
      ensures log != map[] ==> exists k :: k in log && last == Some(log[k].logId) && forall j :: j in log ==> j <= k
      ensures log == map[] ==> last == lastPurged
    {
      purged := lastPurged;
      if log == map[] {
        last := lastPurged;
      } else {
        last := Some(log[Greatest(log.Keys)].logId);
      }
    }

    /** Metadata first, then data: the two writes a crash can come between. */
    method PersistSnapshot(s: StoredSnapshot, ghost job: Job, ghost k: nat) returns (ok: bool)
      requires OnTrack(job, k) && k + 1 < |job.steps|
      requires job.steps[k] == Save(MetaItem(s.meta)) && job.steps[k + 1] == Save(DataItem(s.data))
      modifies `files, `passed, `faults, `synced
      ensures ok ==> Synced(DataItem(s.data))
      ensures FailedIff(!ok, old(faults))
      ensures old(passed) <= passed
      ensures ok ==> OnTrack(job, k + 2)
      ensures !ok ==> Traced(job) && FailsAs(c, job.steps, job.start, Whole())
    {
      ok := Persist(MetaItem(s.meta), job, k);
      if !ok { return; }
      ok := Persist(DataItem(s.data), job, k + 1);
    }

    method BuildSteps(ghost job: Job) returns (ok: bool, built: StoredSnapshot)
      requires OnTrack(job, 0) && job.steps == StoreOps.BuildSteps(c, Cached())
      modifies this
      ensures FailedIff(!ok, old(faults)) && snapshotIdx == old(snapshotIdx) + 1
      ensures old(passed) <= passed && built == SnapshotOf(c, old(machine), old(snapshotIdx) + 1)
      ensures ok ==> OnTrack(job, 4) && snapshot == Some(built) && Synced(DataItem(built.data))
      ensures !ok ==> Traced(job) && FailsAs(c, job.steps, job.start, Whole()) && snapshot == old(snapshot)
    {
      var data := c.data.encode(machine.data);
      snapshotIdx := snapshotIdx + 1;
      CacheUpdated(job, 0);
      var meta := SnapshotMeta(machine.lastApplied, machine.lastMembership,
                               SnapshotId(machine.lastApplied, snapshotIdx));
      built := StoredSnapshot(meta, data);
      ok := PersistBuilt(built, job);
    }

    /** The end of a build: the snapshot's files, then the cached snapshot. */
    method PersistBuilt(s: StoredSnapshot, ghost job: Job) returns (ok: bool)
      requires OnTrack(job, 1) && |job.steps| == 4
      requires job.steps[1] == Save(MetaItem(s.meta)) && job.steps[2] == Save(DataItem(s.data))
      requires job.steps[3] == Step.Cache(Cached().(snapshot := Some(s)))
      modifies `files, `passed, `faults, `synced, `snapshot
      ensures ok ==> Synced(DataItem(s.data))
      ensures FailedIff(!ok, old(faults))
      ensures old(passed) <= passed
      ensures ok ==> OnTrack(job, 4)
      ensures !ok ==> Traced(job) && FailsAs(c, job.steps, job.start, Whole())
      ensures snapshot == if ok then Some(s) else old(snapshot)
    {
      ok := PersistSnapshot(s, job, 1);
      if !ok { return; }
      snapshot := Some(s);
      CacheUpdated(job, 3);
    }

    method BuildSnapshot() returns (ok: bool, built: StoredSnapshot)
      modifies this
      ensures Performed(Op.BuildSnapshot, ok, old(Whole()), old(passed))
      ensures FailedIff(!ok, old(faults)) && (ok ==> Synced(DataItem(built.data)))
      ensures built == SnapshotOf(c, old(machine), old(snapshotIdx) + 1)
      ensures snapshot == (if ok then Some(built) else old(snapshot)) && snapshotIdx == old(snapshotIdx) + 1
      ensures built.meta.lastLogId == old(machine).lastApplied
      ensures built.meta.lastMembership == old(machine).lastMembership
      ensures built.meta.snapshotId == SnapshotId(old(machine).lastApplied, old(snapshotIdx) + 1)
      ensures built.data == c.data.encode(old(machine).data)
    {
      ghost var job := Job(Steps(c, Op.BuildSnapshot, Cached()), Whole(), |passed|);
      ok, built := BuildSteps(job);
      if ok { Finished(Op.BuildSnapshot, job, old(passed)); } else { Stopped(Op.BuildSnapshot, job, old(passed)); }
    }

    /** The end of an installation: the state machine, then the cached snapshot. */
    method InstallMachine(s: StoredSnapshot, ghost job: Job) returns (ok: bool)
      requires OnTrack(job, 3) && |job.steps| == 5 && job.steps[3] == Save(MachineItem(machine))
      requires job.steps[4] == Step.Cache(Cached().(snapshot := Some(s)))
      modifies `files, `passed, `faults, `synced, `snapshot
      ensures ok ==> Synced(MachineItem(machine))
      ensures FailedIff(!ok, old(faults))
      ensures old(passed) <= passed
      ensures ok ==> OnTrack(job, 5)
      ensures !ok ==> Traced(job) && FailsAs(c, job.steps, job.start, Whole())
      ensures snapshot == if ok then Some(s) else old(snapshot)
    {
      ok := Persist(MachineItem(machine), job, 3);
      if !ok { return; }
      snapshot := Some(s);
      CacheUpdated(job, 4);
    }

    /** The steps of an installation whose data decodes. */
    method InstallDecoded(meta: SnapshotMeta, bytes: Bytes, data: map<string, string>, ghost job: Job)
      returns (ok: bool)
      requires c.data.decode(bytes) == Some(data) && OnTrack(job, 0)
      requires job.steps == InstallSteps(c, Cached(), meta, bytes)
      modifies this
      ensures FailedIff(!ok, old(faults))
      ensures old(passed) <= passed && machine == MachineFrom(meta, data)
      ensures ok ==> OnTrack(job, 5) && Synced(MachineItem(machine))
      ensures !ok ==> Traced(job) && FailsAs(c, job.steps, job.start, Whole())
      ensures snapshot == if ok then Some(StoredSnapshot(meta, bytes)) else old(snapshot)
    {
      machine := StateMachineData(meta.lastLogId, meta.lastMembership, data);
      CacheUpdated(job, 0);
      ok := PersistSnapshot(StoredSnapshot(meta, bytes), job, 1);
      if ok { ok := InstallMachine(StoredSnapshot(meta, bytes), job); }
    }

    method InstallSnapshot(meta: SnapshotMeta, bytes: Bytes) returns (ok: bool)
      modifies this
      ensures Performed(Op.InstallSnapshot(meta, bytes), ok, old(Whole()), old(passed))
      ensures FailedIff(!ok && c.data.decode(bytes).Some?, old(faults)) && (ok ==> Synced(MachineItem(machine)))
      ensures c.data.decode(bytes) == None ==> !ok && Whole() == old(Whole()) && passed == old(passed)
      ensures c.data.decode(bytes).Some? ==>
                machine == StateMachineData(meta.lastLogId, meta.lastMembership, c.data.decode(bytes).value)
      ensures snapshot == if ok then Some(StoredSnapshot(meta, bytes)) else old(snapshot)
    {
      ghost var job := Job(Steps(c, Op.InstallSnapshot(meta, bytes), Cached()), Whole(), |passed|);
      match c.data.decode(bytes) {
        case None =>
          ok := false;
        case Some(data) =>
          ok := InstallDecoded(meta, bytes, data, job);
      }
      if ok {
        Finished(Op.InstallSnapshot(meta, bytes), job, old(passed));
      } else {
        Stopped(Op.InstallSnapshot(meta, bytes), job, old(passed));
      }
    }
  }
}

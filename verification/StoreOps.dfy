/** The store's operations as the steps they perform, and runs of them with
    I/O failures, process crashes and restarts. */
module StoreOps {
  import opened LogNames
  import opened Ordered
  import opened StoreTypes
  import opened Directory

  /** The cache: `LogStoreInner` and `StateMachineStore`. */
  datatype Mem = Mem(
    lastPurged: Option<LogId>,
    log: map<U64, Entry>,
    committed: Option<LogId>,
    vote: Option<StoreTypes.Vote>,
    machine: StateMachineData,
    snapshotIdx: nat,
    snapshot: Option<StoredSnapshot>)

  datatype World = World(mem: Mem, files: Files)

  const EMPTY_MEM := Mem(None, map[], None, None, EMPTY_MACHINE, 0, None)
  const EMPTY_WORLD := World(EMPTY_MEM, map[])

  /** Save: one `atomic_write`. Drop: one `delete_log_entry`. Flush: fsync of the
      logs directory. Cache: an update of the in-memory state, which cannot fail. */
  datatype Step = Save(item: Item) | Drop(index: U64) | Flush | Cache(mem: Mem)

  function After(c: Codecs, s: Step, w: World): World {
    match s
    case Save(item) => w.(files := (w.files - {TempOf(PathOf(item))})[PathOf(item) := ContentOf(c, item)])
    case Drop(i) => w.(files := w.files - {LogPath(i)})
    case Flush => w
    case Cache(m) => w.(mem := m)
  }

  function DoAll(c: Codecs, steps: seq<Step>, w: World): World {
    if steps == [] then w else
      After(c, steps[|steps| - 1], DoAll(c, steps[..|steps| - 1], w))
  }

  /** The directory while step `s` is under way: nothing done yet, or a temporary
      file holding some prefix of the content. */
  ghost predicate Torn(c: Codecs, s: Step, before: Files, now: Files) {
    || now == before
    || (s.Save? && exists n: nat :: n <= |ContentOf(c, s.item)| && now == WithTemp(c, s.item, before, n))
  }

  function WithTemp(c: Codecs, item: Item, files: Files, n: nat): Files
    requires n <= |ContentOf(c, item)|
  {
    files[TempOf(PathOf(item)) := ContentOf(c, item)[..n]]
  }

  datatype Op =
    | SaveVote(vote: StoreTypes.Vote)
    | SaveCommitted(id: Option<LogId>)
    | Append(entries: seq<Entry>)
    | Truncate(from: LogId)
    | Purge(upTo: LogId)
    | Apply(entries: seq<Entry>)
    | BuildSnapshot
    | InstallSnapshot(meta: SnapshotMeta, bytes: Bytes)

  function Indexed(es: seq<Entry>): map<U64, Entry> {
    if es == [] then map[] else
      var e := es[|es| - 1];
      Indexed(es[..|es| - 1])[e.logId.index := e]
  }

  function Extended(m: Mem, es: seq<Entry>): Mem {
    m.(log := m.log + Indexed(es))
  }

  function Without(m: Mem, keys: seq<U64>): Mem {
    m.(log := m.log - ToSet(keys))
  }

  function InOrder(s: set<U64>): (r: seq<U64>)
    ensures Increasing(r) && ToSet(r) == s && |r| == |s|
  {
    var r := Ascending(s);
    assert forall i :: 0 <= i < |r| ==> r[i] in s;
    r
  }

  /** `log.range(from..)` */
  function KeysFrom(m: Mem, from: U64): seq<U64> {
    InOrder(set k | k in m.log && from <= k)
  }

  /** `log.range(..=upTo)` */
  function KeysUpTo(m: Mem, upTo: U64): seq<U64> {
    InOrder(set k | k in m.log && k <= upTo)
  }

  function ApplyEntry(sm: StateMachineData, e: Entry): StateMachineData {
    match e.payload
    case Blank => sm.(lastApplied := Some(e.logId))
    case Normal(_) => sm.(lastApplied := Some(e.logId))
    case Change(mem) =>
      sm.(lastApplied := Some(e.logId), lastMembership := StoredMembership(Some(e.logId), mem))
  }

  function Applied(sm: StateMachineData, es: seq<Entry>): StateMachineData {
    if es == [] then sm else ApplyEntry(Applied(sm, es[..|es| - 1]), es[|es| - 1])
  }

  /** What a batch does to the state machine, entry by entry or not: the last entry is the last
      applied, the last change of membership is in force, and the data stay. */
  lemma {:induction false} AppliedExactly(sm: StateMachineData, es: seq<Entry>)
    ensures Applied(sm, es).data == sm.data
    ensures Applied(sm, es).lastApplied == if es == [] then sm.lastApplied else Some(es[|es| - 1].logId)
    ensures (forall k :: 0 <= k < |es| ==> !es[k].payload.Change?) ==>
              Applied(sm, es).lastMembership == sm.lastMembership
    ensures forall k :: 0 <= k < |es| && LastChange(es, k) ==>
              Applied(sm, es).lastMembership == StoredMembership(Some(es[k].logId), es[k].payload.membership)
  {
    if es != [] {
      var n := |es| - 1;
      AppliedExactly(sm, es[..n]);
      forall k | 0 <= k < |es| && LastChange(es, k)
        ensures Applied(sm, es).lastMembership == StoredMembership(Some(es[k].logId), es[k].payload.membership)
      {
        if k < n { assert LastChange(es[..n], k); }
      }
    }
  }

  predicate LastChange(es: seq<Entry>, k: nat)
    requires k < |es|
  {
    es[k].payload.Change? && forall j :: k < j < |es| ==> !es[j].payload.Change?
  }

  predicate LastAt(es: seq<Entry>, k: nat)
    requires k < |es|
  {
    forall j :: k < j < |es| ==> es[j].logId.index != es[k].logId.index
  }

  /** What a batch puts into the log: for each index the last entry that has it. */
  lemma {:induction false} IndexedExactly(es: seq<Entry>, i: U64)
    ensures i in Indexed(es) <==> exists k :: 0 <= k < |es| && es[k].logId.index == i
    ensures forall k :: 0 <= k < |es| && LastAt(es, k) && es[k].logId.index == i ==>
              i in Indexed(es) && Indexed(es)[i] == es[k]
  {
    if es != [] {
      var n := |es| - 1;
      IndexedExactly(es[..n], i);
      assert es == es[..n] + [es[n]];
      assert forall k :: 0 <= k < n && LastAt(es, k) ==> LastAt(es[..n], k);
    }
  }

  function SnapshotOf(c: Codecs, sm: StateMachineData, counter: nat): StoredSnapshot {
    StoredSnapshot(
      SnapshotMeta(sm.lastApplied, sm.lastMembership, SnapshotId(sm.lastApplied, counter)),
      c.data.encode(sm.data))
  }

  function MachineFrom(meta: SnapshotMeta, data: map<string, string>): StateMachineData {
    StateMachineData(meta.lastLogId, meta.lastMembership, data)
  }

  function AppendSteps(m: Mem, es: seq<Entry>): (r: seq<Step>)
    ensures |r| == 2 * |es|
  {
    seq(2 * |es|, k requires 0 <= k < 2 * |es| =>
      if k % 2 == 0 then Save(EntryItem(es[k / 2])) else Cache(Extended(m, es[..k / 2 + 1])))
  }

  function DropSteps(m: Mem, keys: seq<U64>): (r: seq<Step>)
    ensures |r| == 2 * |keys|
  {
    seq(2 * |keys|, k requires 0 <= k < 2 * |keys| =>
      if k % 2 == 0 then Cache(Without(m, keys[..k / 2 + 1])) else Drop(keys[k / 2]))
  }

  function BuildSteps(c: Codecs, m: Mem): seq<Step> {
    var counted := m.(snapshotIdx := m.snapshotIdx + 1);
    var s := SnapshotOf(c, m.machine, m.snapshotIdx + 1);
    [Cache(counted), Save(MetaItem(s.meta)), Save(DataItem(s.data)), Cache(counted.(snapshot := Some(s)))]
  }

  function InstallSteps(c: Codecs, m: Mem, meta: SnapshotMeta, bytes: Bytes): seq<Step> {
    match c.data.decode(bytes)
    case None => []
    case Some(data) =>
      var replaced := m.(machine := MachineFrom(meta, data));
      [ Cache(replaced),
        Save(MetaItem(meta)), Save(DataItem(bytes)), Save(MachineItem(replaced.machine)),
        Cache(replaced.(snapshot := Some(StoredSnapshot(meta, bytes)))) ]
  }

  /** What an operation does, in order, started with the cache at `m`. */
  function Steps(c: Codecs, op: Op, m: Mem): seq<Step> {
    match op
    case SaveVote(v) => [Save(VoteItem(v)), Cache(m.(vote := Some(v)))]
    case SaveCommitted(id) => [Save(CommittedItem(id)), Cache(m.(committed := id))]
    case Append(es) => AppendSteps(m, es) + [Flush]
    case Truncate(id) => DropSteps(m, KeysFrom(m, id.index))
    case Purge(id) =>
      var marked := m.(lastPurged := Some(id));
      [Cache(marked)] + DropSteps(marked, KeysUpTo(m, id.index))
    case Apply(es) =>
      var sm := Applied(m.machine, es);
      [Cache(m.(machine := sm)), Save(MachineItem(sm))]
    case BuildSnapshot => BuildSteps(c, m)
    case InstallSnapshot(meta, bytes) => InstallSteps(c, m, meta, bytes)
  }

  /** The assertion at the head of `purge`; nothing else is demanded of callers. */
  predicate Admissible(op: Op, m: Mem) {
    op.Purge? && m.lastPurged.Some? ==> LogIdAtMost(m.lastPurged.value, op.upTo)
  }

  // ---------------------------------------------------------------- recovery

  function MemOf(d: Disk): Mem {
    Mem(None, d.log, d.committed, d.vote, d.machine, 0,
      if d.meta.Some? && d.data.Some? then Some(StoredSnapshot(d.meta.value, d.data.value)) else None)
  }

  /** The cache that `new` builds; the directories met in runs are all sound. */
  ghost function Loaded(c: Codecs, files: Files): Mem {
    if Sound(c, files) then MemOf(DiskOf(c, files)) else EMPTY_MEM
  }

  /** What recovery cannot restore: the purge point and the snapshot counter. */
  function Reset(m: Mem): Mem {
    m.(lastPurged := None, snapshotIdx := 0)
  }

  // -------------------------------------------------------------------- runs

  /** An operation runs to its end, stops at a failed I/O call, or the process dies
      inside it (before step `at`, in directory `files`) and is started again. */
  datatype Event =
    | Done(op: Op)
    | Failed(op: Op, at: nat, files: Files)
    | Crashed(op: Op, at: nat, files: Files)

  ghost predicate StopsIn(c: Codecs, steps: seq<Step>, w: World, at: nat, files: Files) {
    && at <= |steps|
    && (at == |steps| ==> files == DoAll(c, steps, w).files)
    && (at < |steps| ==> Torn(c, steps[at], DoAll(c, steps[..at], w).files, files))
  }

  ghost predicate Legal(c: Codecs, w: World, ev: Event) {
    && Admissible(ev.op, w.mem)
    && var steps := Steps(c, ev.op, w.mem);
       match ev
       case Done(_) => true
       case Failed(_, at, files) => at < |steps| && !steps[at].Cache? && StopsIn(c, steps, w, at, files)
       case Crashed(_, at, files) => StopsIn(c, steps, w, at, files)
  }

  ghost function Next(c: Codecs, w: World, ev: Event): World {
    var steps := Steps(c, ev.op, w.mem);
    match ev
    case Done(_) => DoAll(c, steps, w)
    case Failed(_, at, files) => if at <= |steps| then World(DoAll(c, steps[..at], w).mem, files) else w
    case Crashed(_, _, files) => World(Loaded(c, files), files)
  }

  ghost function Run(c: Codecs, w: World, evs: seq<Event>): World {
    if evs == [] then w else Next(c, Run(c, w, evs[..|evs| - 1]), evs[|evs| - 1])
  }

  ghost predicate LegalRun(c: Codecs, w: World, evs: seq<Event>) {
    evs == [] ||
    (LegalRun(c, w, evs[..|evs| - 1]) && Legal(c, Run(c, w, evs[..|evs| - 1]), evs[|evs| - 1]))
  }

  /** `get_log_state().last_log_id` */
  function LastLogId(m: Mem): Option<LogId> {
    if m.log == map[] then m.lastPurged else Some(m.log[Greatest(m.log.Keys)].logId)
  }

  // ------------------------------------------------- refinement of the directory

  function DiskAfter(s: Step, d: Disk): Disk {
    match s
    case Save(item) => Put(d, item)
    case Drop(i) => d.(log := d.log - {i})
    case Flush => d
    case Cache(_) => d
  }

  function DiskAfterAll(steps: seq<Step>, d: Disk): Disk {
    if steps == [] then d else
      DiskAfter(steps[|steps| - 1], DiskAfterAll(steps[..|steps| - 1], d))
  }

  lemma {:induction false} NotTempItself(p: Path)
    requires Target(p)
    ensures !IsTemp(p) && IsTemp(TempOf(p))
  {
    if p.InLogs? {
      if EndsWith(p.name, TMP) { TempNeverParses(p.name); }
      var t := TempName(p.name);
      assert t[|t| - 4..] == TMP;
    }
  }

  lemma {:induction false} SaveStepRefines(c: Codecs, item: Item, f: Files, g: Files)
    requires c.Lawful() && Sound(c, f)
    requires g == (f - {TempOf(PathOf(item))})[PathOf(item) := ContentOf(c, item)]
    ensures Sound(c, g) && DiskOf(c, g) == Put(DiskOf(c, f), item)
  {
    var p := PathOf(item);
    var saved := f[p := ContentOf(c, item)];
    SaveRefines(c, f, item);
    NotTempItself(p);
    forall q | !IsTemp(q) ensures SameFile(saved, g, q) {}
    TempInvisible(c, saved, g);
  }

  lemma {:induction false} StepRefines(c: Codecs, s: Step, w: World)
    requires c.Lawful() && Sound(c, w.files)
    ensures Sound(c, After(c, s, w).files)
    ensures DiskOf(c, After(c, s, w).files) == DiskAfter(s, DiskOf(c, w.files))
  {
    if s.Save? {
      SaveStepRefines(c, s.item, w.files, After(c, s, w).files);
    } else if s.Drop? {
      DropRefines(c, w.files, s.index);
    }
  }

  /** The files follow the abstract durable state step by step. */
  lemma {:induction false} StepsRefine(c: Codecs, steps: seq<Step>, w: World)
    requires c.Lawful() && Sound(c, w.files)
    ensures Sound(c, DoAll(c, steps, w).files)
    ensures DiskOf(c, DoAll(c, steps, w).files) == DiskAfterAll(steps, DiskOf(c, w.files))
  {
    if steps != [] {
      var n := |steps| - 1;
      StepsRefine(c, steps[..n], w);
      StepRefines(c, steps[n], DoAll(c, steps[..n], w));
    }
  }

  lemma {:induction false} TornIsInvisible(c: Codecs, s: Step, before: Files, now: Files)
    requires Sound(c, before) && Torn(c, s, before, now)
    ensures Sound(c, now) && DiskOf(c, now) == DiskOf(c, before)
  {
    if now != before {
      NotTempItself(PathOf(s.item));
      assert SameVisible(before, now);
    }
    TempInvisible(c, before, now);
  }

  /** Wherever an operation stops, recovery succeeds and sees exactly the steps
      completed before that point. */
  lemma {:induction false} StopRefines(c: Codecs, steps: seq<Step>, w: World, at: nat, files: Files)
    requires c.Lawful() && Sound(c, w.files)
    requires StopsIn(c, steps, w, at, files)
    ensures Sound(c, files)
    ensures DiskOf(c, files) == DiskAfterAll(steps[..at], DiskOf(c, w.files))
  {
    StepsRefine(c, steps[..at], w);
    assert at == |steps| ==> steps[..at] == steps;
    if at < |steps| {
      TornIsInvisible(c, steps[at], DoAll(c, steps[..at], w).files, files);
    }
  }

  // The cache alone: its course does not depend on the files.

  function MemAfter(s: Step, m: Mem): Mem {
    if s.Cache? then s.mem else m
  }

  function MemAfterAll(steps: seq<Step>, m: Mem): Mem {
    if steps == [] then m else
      MemAfter(steps[|steps| - 1], MemAfterAll(steps[..|steps| - 1], m))
  }

  lemma {:induction false} MemAlone(c: Codecs, steps: seq<Step>, w: World)
    ensures DoAll(c, steps, w).mem == MemAfterAll(steps, w.mem)
  {
    if steps != [] {
      MemAlone(c, steps[..|steps| - 1], w);
    }
  }

  lemma {:induction false} Unroll(steps: seq<Step>, m: Mem, d: Disk, k: nat)
    requires k < |steps|
    ensures MemAfterAll(steps[..k + 1], m) == MemAfter(steps[k], MemAfterAll(steps[..k], m))
    ensures DiskAfterAll(steps[..k + 1], d) == DiskAfter(steps[k], DiskAfterAll(steps[..k], d))
  {
    assert steps[..k + 1][..k] == steps[..k];
  }
}

/** The store's directory: files by path, what `load_state` makes of them, and
    the abstract durable state they stand for. */
module Directory {
  import opened LogNames
  import opened StoreTypes

  /** The files with constant names: vote.bin, committed.bin, state_machine.bin,
      snapshot/meta.bin and snapshot/data.bin. */
  datatype Fixed = Vote | Committed | Machine | Meta | Data

  /** A constant-named file, its temporary twin (vote.tmp, ...), or a name in logs/. */
  datatype Path = Main(file: Fixed) | MainTemp(file: Fixed) | InLogs(name: string)

  type Files = map<Path, Bytes>

  const VOTE := Main(Fixed.Vote)
  const COMMITTED := Main(Committed)
  const MACHINE := Main(Machine)
  const META := Main(Meta)
  const DATA := Main(Data)

  function LogPath(i: U64): Path {
    InLogs(LogEntryFilename(i))
  }

  /** One thing that is written to its own file. */
  datatype Item =
    | VoteItem(vote: StoreTypes.Vote)
    | CommittedItem(id: Option<LogId>)
    | EntryItem(entry: Entry)
    | MachineItem(machine: StateMachineData)
    | MetaItem(meta: SnapshotMeta)
    | DataItem(bytes: Bytes)

  function PathOf(item: Item): (p: Path)
    ensures Target(p)
  {
    match item
    case VoteItem(_) => VOTE
    case CommittedItem(_) => COMMITTED
    case EntryItem(e) => FilenameRoundTrip(e.logId.index); LogPath(e.logId.index)
    case MachineItem(_) => MACHINE
    case MetaItem(_) => META
    case DataItem(_) => DATA
  }

  function ContentOf(c: Codecs, item: Item): Bytes {
    match item
    case VoteItem(v) => c.vote.encode(v)
    case CommittedItem(id) => c.committed.encode(id)
    case EntryItem(e) => c.record.encode(LogRecord(e.logId.index, e))
    case MachineItem(m) => c.machine.encode(m)
    case MetaItem(m) => c.meta.encode(m)
    case DataItem(b) => b
  }

  /** A path `atomic_write` is used on: named `*.bin`. */
  predicate Target(p: Path) {
    p.Main? || (p.InLogs? && EndsWith(p.name, BIN))
  }

  function TempOf(p: Path): Path
    requires Target(p)
  {
    if p.Main? then MainTemp(p.file) else InLogs(TempName(p.name))
  }

  predicate IsTemp(p: Path) {
    p.MainTemp? || (p.InLogs? && EndsWith(p.name, TMP))
  }

  predicate IsLogFile(p: Path) {
    p.InLogs? && ParseLogIndex(p.name).Some?
  }

  function IndexOf(p: Path): U64
    requires IsLogFile(p)
  {
    ParseLogIndex(p.name).value
  }

  /** Exactly the condition under which `load_state` returns no error. */
  ghost predicate Loadable(c: Codecs, files: Files) {
    && (VOTE in files ==> c.vote.decode(files[VOTE]).Some?)
    && (COMMITTED in files ==> c.committed.decode(files[COMMITTED]).Some?)
    && LogsGood(c, files)
    && (MACHINE in files ==> c.machine.decode(files[MACHINE]).Some?)
    && (META in files && DATA in files ==> c.meta.decode(files[META]).Some?)
  }

  ghost predicate LogsGood(c: Codecs, files: Files) {
    forall p :: p in files && IsLogFile(p) ==> GoodLogFile(c, files[p], IndexOf(p))
  }

  predicate GoodLogFile(c: Codecs, content: Bytes, index: U64) {
    c.record.decode(content).Some? && c.record.decode(content).value.index == index
  }

  /** What every directory written by the store satisfies. */
  ghost predicate Sound(c: Codecs, files: Files) {
    && (VOTE in files ==> c.vote.decode(files[VOTE]).Some?)
    && (COMMITTED in files ==> c.committed.decode(files[COMMITTED]).Some?)
    && (MACHINE in files ==> c.machine.decode(files[MACHINE]).Some?)
    && (META in files ==> c.meta.decode(files[META]).Some?)
    && LogsSound(c, files)
  }

  ghost predicate LogsSound(c: Codecs, files: Files) {
    forall p :: p in files && IsLogFile(p) ==> CanonicalLogFile(c, p, files[p])
  }

  ghost predicate CanonicalLogFile(c: Codecs, p: Path, content: Bytes)
    requires IsLogFile(p)
  {
    && p == LogPath(IndexOf(p))
    && GoodLogFile(c, content, IndexOf(p))
    && c.record.decode(content).value.entry.logId.index == IndexOf(p)
  }

  lemma {:induction false} SoundIsLoadable(c: Codecs, files: Files)
    requires Sound(c, files)
    ensures Loadable(c, files)
  {
    forall p | p in files && IsLogFile(p) ensures GoodLogFile(c, files[p], IndexOf(p)) {
      assert CanonicalLogFile(c, p, files[p]);
    }
  }

  function LogIndices(files: Files): set<U64> {
    set p | p in files && IsLogFile(p) :: IndexOf(p)
  }

  ghost function DiskLog(c: Codecs, files: Files): map<U64, Entry>
    requires LogsSound(c, files)
  {
    map i | i in LogIndices(files) && LogPath(i) in files && IsLogFile(LogPath(i)) ::
      EntryIn(c, files[LogPath(i)])
  }

  function EntryIn(c: Codecs, content: Bytes): Entry
    requires c.record.decode(content).Some?
  {
    c.record.decode(content).value.entry
  }

  /** The simple thing on disk that the files stand for. */
  datatype Disk = Disk(
    vote: Option<StoreTypes.Vote>,
    committed: Option<LogId>,
    log: map<U64, Entry>,
    machine: StateMachineData,
    meta: Option<SnapshotMeta>,
    data: Option<Bytes>)

  const BLANK_DISK := Disk(None, None, map[], EMPTY_MACHINE, None, None)

  function Lookup<T(!new)>(codec: Codec<T>, files: Files, p: Path): Option<T> {
    if p in files then codec.decode(files[p]) else None
  }

  function CommittedIn(c: Codecs, files: Files): Option<LogId>
    requires COMMITTED in files ==> c.committed.decode(files[COMMITTED]).Some?
  {
    if COMMITTED in files then c.committed.decode(files[COMMITTED]).value else None
  }

  function MachineIn(c: Codecs, files: Files): StateMachineData
    requires MACHINE in files ==> c.machine.decode(files[MACHINE]).Some?
  {
    if MACHINE in files then c.machine.decode(files[MACHINE]).value else EMPTY_MACHINE
  }

  ghost function DiskOf(c: Codecs, files: Files): Disk
    requires Sound(c, files)
  {
    Disk(
      Lookup(c.vote, files, VOTE),
      CommittedIn(c, files),
      DiskLog(c, files),
      MachineIn(c, files),
      Lookup(c.meta, files, META),
      if DATA in files then Some(files[DATA]) else None)
  }

  function Put(d: Disk, item: Item): Disk {
    match item
    case VoteItem(v) => d.(vote := Some(v))
    case CommittedItem(id) => d.(committed := id)
    case EntryItem(e) => d.(log := d.log[e.logId.index := e])
    case MachineItem(m) => d.(machine := m)
    case MetaItem(m) => d.(meta := Some(m))
    case DataItem(b) => d.(data := Some(b))
  }

  /** The log on disk, index by index. */
  lemma {:induction false} DiskLogAt(c: Codecs, files: Files, i: U64)
    requires LogsSound(c, files)
    ensures i in DiskLog(c, files) <==> LogPath(i) in files
    ensures LogPath(i) in files ==>
              && c.record.decode(files[LogPath(i)]).Some?
              && DiskLog(c, files)[i] == EntryIn(c, files[LogPath(i)])
              && DiskLog(c, files)[i].logId.index == i
  {
    FilenameRoundTrip(i);
    var p := LogPath(i);
    assert IsLogFile(p) && IndexOf(p) == i;
    if p in files { assert CanonicalLogFile(c, p, files[p]); }
  }

  ghost predicate SameVisible(f: Files, g: Files) {
    forall p :: !IsTemp(p) ==> SameFile(f, g, p)
  }

  predicate SameFile(f: Files, g: Files, p: Path) {
    (p in f <==> p in g) && (p in f && p in g ==> f[p] == g[p])
  }

  /** The log on disk depends on the log files alone. */
  lemma {:induction false} SameLogFiles(c: Codecs, f: Files, g: Files)
    requires LogsSound(c, f)
    requires forall p :: IsLogFile(p) ==> SameFile(f, g, p)
    ensures LogsSound(c, g) && DiskLog(c, g) == DiskLog(c, f)
  {
    forall p | p in g && IsLogFile(p) ensures CanonicalLogFile(c, p, g[p]) {
      assert SameFile(f, g, p);
    }
    forall i: U64 ensures SameAt(DiskLog(c, f), DiskLog(c, g), i) {
      DiskLogAt(c, f, i);
      DiskLogAt(c, g, i);
      FilenameRoundTrip(i);
      assert SameFile(f, g, LogPath(i));
    }
    SameLog(DiskLog(c, f), DiskLog(c, g));
  }

  lemma {:induction false} LogFileIsNotTemp(p: Path)
    requires IsLogFile(p)
    ensures !IsTemp(p)
  {
    if IsTemp(p) { TempNeverParses(p.name); }
  }

  /** Left-over temporary files are invisible to recovery. */
  lemma {:induction false} TempInvisible(c: Codecs, f: Files, g: Files)
    requires Sound(c, f) && SameVisible(f, g)
    ensures Sound(c, g) && DiskOf(c, g) == DiskOf(c, f)
  {
    forall p | IsLogFile(p) ensures SameFile(f, g, p) { LogFileIsNotTemp(p); }
    SameLogFiles(c, f, g);
    assert SameFile(f, g, VOTE) && SameFile(f, g, COMMITTED) && SameFile(f, g, MACHINE);
    assert SameFile(f, g, META) && SameFile(f, g, DATA);
  }

  /** Replacing one file by the encoding of an item updates exactly that item. */
  lemma {:induction false} SaveRefines(c: Codecs, f: Files, item: Item)
    requires c.Lawful() && Sound(c, f)
    ensures Sound(c, f[PathOf(item) := ContentOf(c, item)])
    ensures DiskOf(c, f[PathOf(item) := ContentOf(c, item)]) == Put(DiskOf(c, f), item)
  {
    if item.EntryItem? {
      SaveEntryRefines(c, f, item.entry);
    } else {
      SaveMainRefines(c, f, item);
    }
  }

  lemma {:induction false} MainKeepsLogs(c: Codecs, f: Files, file: Fixed, content: Bytes)
    requires LogsSound(c, f)
    ensures LogsSound(c, f[Main(file) := content])
    ensures DiskLog(c, f[Main(file) := content]) == DiskLog(c, f)
  {
    var g := f[Main(file) := content];
    forall p | IsLogFile(p) ensures SameFile(f, g, p) {}
    SameLogFiles(c, f, g);
  }

  lemma {:induction false} SaveMainRefines(c: Codecs, f: Files, item: Item)
    requires c.Lawful() && Sound(c, f) && !item.EntryItem?
    ensures var g := f[PathOf(item) := ContentOf(c, item)];
            Sound(c, g) && DiskOf(c, g) == Put(DiskOf(c, f), item)
  {
    var g := f[PathOf(item) := ContentOf(c, item)];
    MainKeepsLogs(c, f, PathOf(item).file, ContentOf(c, item));
    var d, e := DiskOf(c, f), DiskOf(c, g);
    assert e.log == d.log;
    match item
    case VoteItem(v) => assert e.vote == Some(v);
    case CommittedItem(id) => assert e.committed == id && e.vote == d.vote;
    case MachineItem(sm) => assert e.machine == sm && e.vote == d.vote;
    case MetaItem(meta) => assert e.meta == Some(meta) && e.vote == d.vote;
    case DataItem(b) => assert e.data == Some(b) && e.meta == d.meta;
  }

  lemma {:induction false} SaveEntryRefines(c: Codecs, f: Files, e: Entry)
    requires c.record.Lawful() && LogsSound(c, f)
    ensures var g := f[LogPath(e.logId.index) := c.record.encode(LogRecord(e.logId.index, e))];
            LogsSound(c, g) && DiskLog(c, g) == DiskLog(c, f)[e.logId.index := e]
  {
    var i := e.logId.index;
    var content := c.record.encode(LogRecord(i, e));
    var g := f[LogPath(i) := content];
    FilenameRoundTrip(i);
    forall p | p in g && IsLogFile(p) ensures CanonicalLogFile(c, p, g[p]) {
      if p != LogPath(i) { assert CanonicalLogFile(c, p, f[p]); }
    }
    var log := DiskLog(c, f)[i := e];
    forall j: U64 ensures SameAt(log, DiskLog(c, g), j) {
      DiskLogAt(c, f, j);
      DiskLogAt(c, g, j);
      if LogPath(i) == LogPath(j) { FilenameInjective(i, j); }
    }
    SameLog(log, DiskLog(c, g));
  }

  predicate SameAt(m: map<U64, Entry>, n: map<U64, Entry>, j: U64) {
    (j in m <==> j in n) && (j in m && j in n ==> m[j] == n[j])
  }

  lemma {:induction false} SameLog(m: map<U64, Entry>, n: map<U64, Entry>)
    requires forall j: U64 :: SameAt(m, n, j)
    ensures m == n
  {
    assert forall j :: j in m ==> SameAt(m, n, j);
    assert forall j :: j in n ==> SameAt(m, n, j);
  }

  /** Removing an entry's file removes exactly that entry. */
  lemma {:induction false} DropRefines(c: Codecs, f: Files, i: U64)
    requires Sound(c, f)
    ensures Sound(c, f - {LogPath(i)})
    ensures DiskOf(c, f - {LogPath(i)}) == DiskOf(c, f).(log := DiskOf(c, f).log - {i})
  {
    var g := f - {LogPath(i)};
    forall p | p in g && IsLogFile(p) ensures CanonicalLogFile(c, p, g[p]) {
      assert CanonicalLogFile(c, p, f[p]);
    }
    var log := DiskLog(c, f) - {i};
    forall j: U64 ensures SameAt(log, DiskLog(c, g), j) {
      DiskLogAt(c, f, j);
      DiskLogAt(c, g, j);
      if LogPath(i) == LogPath(j) { FilenameInjective(i, j); }
    }
    SameLog(log, DiskLog(c, g));
  }
}

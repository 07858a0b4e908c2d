/** What `load_state` makes of any directory, written by a store or not. */
module Recovery {
  import opened LogNames
  import opened StoreTypes
  import opened Directory
  import opened StoreOps

  // ------------------------------------------------------------- the single files

  predicate VoteAndCommittedGood(c: Codecs, files: Files) {
    && (VOTE in files ==> c.vote.decode(files[VOTE]).Some?)
    && (COMMITTED in files ==> c.committed.decode(files[COMMITTED]).Some?)
  }

  predicate MachineAndSnapshotGood(c: Codecs, files: Files) {
    && (MACHINE in files ==> c.machine.decode(files[MACHINE]).Some?)
    && (META in files && DATA in files ==> c.meta.decode(files[META]).Some?)
  }

  function SnapshotIn(c: Codecs, files: Files): Option<StoredSnapshot>
    requires MachineAndSnapshotGood(c, files)
  {
    if META in files && DATA in files
    then Some(StoredSnapshot(c.meta.decode(files[META]).value, files[DATA])) else None
  }

  lemma {:induction false} LoadableIs(c: Codecs, files: Files)
    ensures Loadable(c, files)
            <==> VoteAndCommittedGood(c, files) && LogsGood(c, files) && MachineAndSnapshotGood(c, files)
  {}

  // -------------------------------------------------------------------- the log

  predicate Readable(c: Codecs, files: Files, p: Path) {
    p in files && (IsLogFile(p) ==> GoodLogFile(c, files[p], IndexOf(p)))
  }

  ghost predicate ReadableUpTo(c: Codecs, files: Files, names: seq<string>, k: nat) {
    k <= |names| && forall j :: 0 <= j < k ==> Readable(c, files, InLogs(names[j]))
  }

  lemma {:induction false} ReadableAll(c: Codecs, files: Files, names: seq<string>)
    requires forall n :: n in names <==> InLogs(n) in files
    ensures ReadableUpTo(c, files, names, |names|) <==> LogsGood(c, files)
  {
    if ReadableUpTo(c, files, names, |names|) {
      forall p | p in files && IsLogFile(p) ensures GoodLogFile(c, files[p], IndexOf(p)) {
        var j :| 0 <= j < |names| && names[j] == p.name;
        assert Readable(c, files, InLogs(names[j]));
      }
    }
    if LogsGood(c, files) {
      forall j | 0 <= j < |names| ensures Readable(c, files, InLogs(names[j])) {
        assert names[j] in names;
      }
    }
  }

  /** The file of that name is read as entry `e` at index `x`. */
  predicate Supplies(c: Codecs, files: Files, name: string, x: U64, e: Entry) {
    && InLogs(name) in files && ParseLogIndex(name) == Some(x)
    && c.record.decode(files[InLogs(name)]).Some? && EntryIn(c, files[InLogs(name)]) == e
  }

  /** The log has an entry for exactly the indices the names stand for, each read from a file
      of such a name. (Two names can stand for one index, as 0a.bin and 0A.bin do; then the
      order of the listing decides.) */
  ghost predicate ReadFrom(c: Codecs, files: Files, names: set<string>, log: map<U64, Entry>) {
    forall x: U64 :: ReadAt(c, files, names, log, x)
  }

  ghost predicate ReadAt(c: Codecs, files: Files, names: set<string>, log: map<U64, Entry>, x: U64) {
    if x in log
    then exists name :: name in names && Supplies(c, files, name, x, log[x])
    else forall name :: name in names ==> ParseLogIndex(name) != Some(x)
  }

  lemma {:induction false} ReadOne(c: Codecs, files: Files, names: set<string>, name: string,
      log: map<U64, Entry>, after: map<U64, Entry>)
    requires ReadFrom(c, files, names, log) && Readable(c, files, InLogs(name))
    requires after == if IsLogFile(InLogs(name))
                      then log[IndexOf(InLogs(name)) := EntryIn(c, files[InLogs(name)])] else log
    ensures ReadFrom(c, files, names + {name}, after)
  {
    forall x: U64 ensures ReadAt(c, files, names + {name}, after, x) {
      assert ReadAt(c, files, names, log, x);
      if ParseLogIndex(name) == Some(x) {
        assert Supplies(c, files, name, x, after[x]);
      } else if x in log {
        var other :| other in names && Supplies(c, files, other, x, log[x]);
        assert other in names + {name} && after[x] == log[x];
      }
    }
  }

  function LogNamesIn(files: Files): set<string> {
    set p | p in files && p.InLogs? :: p.name
  }

  /** In a directory the store has written only one name stands for an index. */
  lemma {:induction false} ReadFromSound(c: Codecs, files: Files, log: map<U64, Entry>)
    requires LogsSound(c, files) && ReadFrom(c, files, LogNamesIn(files), log)
    ensures log == DiskLog(c, files)
  {
    forall x: U64 ensures SameAt(log, DiskLog(c, files), x) {
      assert ReadAt(c, files, LogNamesIn(files), log, x);
      DiskLogAt(c, files, x);
      FilenameRoundTrip(x);
      if x in log {
        var name :| name in LogNamesIn(files) && Supplies(c, files, name, x, log[x]);
        assert CanonicalLogFile(c, InLogs(name), files[InLogs(name)]);
      } else {
        assert LogPath(x) in files ==> LogEntryFilename(x) in LogNamesIn(files);
      }
    }
    SameLog(log, DiskLog(c, files));
  }

  // ------------------------------------------------------------- the whole state

  /** `m` is a cache that `load_state` may build from this directory. */
  ghost predicate Restores(c: Codecs, files: Files, m: Mem) {
    && VoteAndCommittedGood(c, files) && LogsGood(c, files) && MachineAndSnapshotGood(c, files)
    && m.lastPurged == None && m.snapshotIdx == 0
    && m.vote == Lookup(c.vote, files, VOTE) && m.committed == CommittedIn(c, files)
    && m.machine == MachineIn(c, files) && m.snapshot == SnapshotIn(c, files)
    && ReadFrom(c, files, LogNamesIn(files), m.log)
  }

  /** From a directory the store has written it builds exactly one. */
  lemma {:induction false} RestoresLoaded(c: Codecs, files: Files, m: Mem)
    requires Restores(c, files, m) && Sound(c, files)
    ensures m == Loaded(c, files)
  {
    ReadFromSound(c, files, m.log);
  }

  lemma {:induction false} SameName(f: Files, g: Files, name: string)
    requires SameVisible(f, g) && ParseLogIndex(name).Some?
    ensures SameFile(f, g, InLogs(name))
    ensures name in LogNamesIn(f) <==> name in LogNamesIn(g)
  {
    LogFileIsNotTemp(InLogs(name));
    assert InLogs(name) in f ==> name in LogNamesIn(f);
    assert InLogs(name) in g ==> name in LogNamesIn(g);
  }

  lemma {:induction false} SameReading(c: Codecs, f: Files, g: Files, log: map<U64, Entry>)
    requires SameVisible(f, g) && ReadFrom(c, f, LogNamesIn(f), log)
    ensures ReadFrom(c, g, LogNamesIn(g), log)
  {
    forall x: U64 ensures ReadAt(c, g, LogNamesIn(g), log, x) {
      assert ReadAt(c, f, LogNamesIn(f), log, x);
      if x in log {
        var name :| name in LogNamesIn(f) && Supplies(c, f, name, x, log[x]);
        SameName(f, g, name);
        assert Supplies(c, g, name, x, log[x]);
      } else {
        forall name | ParseLogIndex(name).Some? ensures name in LogNamesIn(f) <==> name in LogNamesIn(g) {
          SameName(f, g, name);
        }
      }
    }
  }

  lemma {:induction false} SameLogsGood(c: Codecs, f: Files, g: Files)
    requires SameVisible(f, g) && LogsGood(c, f)
    ensures LogsGood(c, g)
  {
    forall p | p in g && IsLogFile(p) ensures GoodLogFile(c, g[p], IndexOf(p)) {
      LogFileIsNotTemp(p);
      assert SameFile(f, g, p);
    }
  }

  /** Left-over temporary files are invisible: two directories that differ only in them, good
      or bad, load alike. */
  lemma {:induction false} TemporaryFilesAreInvisible(c: Codecs, f: Files, g: Files, m: Mem)
    requires SameVisible(f, g)
    ensures Loadable(c, f) <==> Loadable(c, g)
    ensures Restores(c, f, m) <==> Restores(c, g, m)
  {
    assert SameVisible(g, f);
    SameLoading(c, f, g, m);
    SameLoading(c, g, f, m);
  }

  lemma {:induction false} SameLoading(c: Codecs, f: Files, g: Files, m: Mem)
    requires SameVisible(f, g)
    ensures Loadable(c, f) ==> Loadable(c, g)
    ensures Restores(c, f, m) ==> Restores(c, g, m)
  {
    assert SameFile(f, g, VOTE) && SameFile(f, g, COMMITTED) && SameFile(f, g, MACHINE);
    assert SameFile(f, g, META) && SameFile(f, g, DATA);
    if LogsGood(c, f) { SameLogsGood(c, f, g); }
    if ReadFrom(c, f, LogNamesIn(f), m.log) { SameReading(c, f, g, m.log); }
  }

  /** When loading succeeds, file by file. */
  lemma {:induction false} LoadableExactly(c: Codecs, files: Files)
    ensures Loadable(c, files) <==>
              && (Main(Fixed.Vote) in files ==> c.vote.decode(files[Main(Fixed.Vote)]).Some?)
              && (Main(Committed) in files ==> c.committed.decode(files[Main(Committed)]).Some?)
              && (Main(Machine) in files ==> c.machine.decode(files[Main(Machine)]).Some?)
              && (Main(Meta) in files && Main(Data) in files ==> c.meta.decode(files[Main(Meta)]).Some?)
              && (forall name :: InLogs(name) in files && ParseLogIndex(name).Some? ==>
                   && c.record.decode(files[InLogs(name)]).Some?
                   && c.record.decode(files[InLogs(name)]).value.index == ParseLogIndex(name).value)
  {
    if forall name :: InLogs(name) in files && ParseLogIndex(name).Some? ==>
         && c.record.decode(files[InLogs(name)]).Some?
         && c.record.decode(files[InLogs(name)]).value.index == ParseLogIndex(name).value
    {
      forall p | p in files && IsLogFile(p) ensures GoodLogFile(c, files[p], IndexOf(p)) {
        assert InLogs(p.name) in files;
      }
    }
    if LogsGood(c, files) {
      forall name | InLogs(name) in files && ParseLogIndex(name).Some?
        ensures c.record.decode(files[InLogs(name)]).Some?
                && c.record.decode(files[InLogs(name)]).value.index == ParseLogIndex(name).value
      {
        assert GoodLogFile(c, files[InLogs(name)], IndexOf(InLogs(name)));
      }
    }
  }

  /** What is loaded, file by file. */
  lemma {:induction false} RestoredExactly(c: Codecs, files: Files, m: Mem)
    requires Restores(c, files, m)
    ensures m.lastPurged == None && m.snapshotIdx == 0
    ensures m.vote == if Main(Fixed.Vote) in files then c.vote.decode(files[Main(Fixed.Vote)]) else None
    ensures Some(m.committed)
            == if Main(Committed) in files then c.committed.decode(files[Main(Committed)]) else Some(None)
    ensures Some(m.machine)
            == if Main(Machine) in files then c.machine.decode(files[Main(Machine)]) else Some(EMPTY_MACHINE)
    ensures m.snapshot.Some? <==> Main(Meta) in files && Main(Data) in files
    ensures m.snapshot.Some? ==>
              m.snapshot.value.data == files[Main(Data)]
              && Some(m.snapshot.value.meta) == c.meta.decode(files[Main(Meta)])
    ensures forall x :: x in m.log <==> exists name :: InLogs(name) in files && ParseLogIndex(name) == Some(x)
    ensures forall x :: x in m.log ==> exists name :: Supplies(c, files, name, x, m.log[x])
  {
    forall x: U64
      ensures x in m.log <==> exists name :: InLogs(name) in files && ParseLogIndex(name) == Some(x)
      ensures x in m.log ==> exists name :: Supplies(c, files, name, x, m.log[x])
    {
      assert ReadAt(c, files, LogNamesIn(files), m.log, x);
      if name :| InLogs(name) in files && ParseLogIndex(name) == Some(x) {
        assert name in LogNamesIn(files);
      }
    }
  }
}

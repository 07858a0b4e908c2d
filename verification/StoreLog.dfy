/** The shape of the log under Raft's calling discipline, and snapshots against replay. */
module StoreLog {
  import opened LogNames
  import opened Ordered
  import opened StoreTypes
  import opened Directory
  import opened StoreOps
  import opened StoreTheorems
  import opened StoreFailures

  // -------------------------------------------------------------- contiguity

  function NextIndex(m: Mem): nat {
    match LastLogId(m)
    case None => 0
    case Some(id) => id.index + 1
  }

  function Floor(m: Mem): nat {
    match m.lastPurged
    case None => 0
    case Some(id) => id.index + 1
  }

  predicate Consecutive(es: seq<Entry>, next: nat) {
    forall k :: 0 <= k < |es| ==> es[k].logId.index == next + k
  }

  /** Appends continue after the last log id, purge points do not move back, and
      truncation stays above the purge point. */
  predicate Contract(op: Op, m: Mem) {
    Admissible(op, m) &&
    match op
    case Append(es) => Consecutive(es, NextIndex(m))
    case Truncate(id) => Floor(m) <= id.index
    case Purge(id) => Floor(m) <= id.index + 1
    case _ => true
  }

  ghost predicate Spans(s: set<U64>, lo: nat, hi: nat) {
    forall i: U64 :: i in s <==> lo <= i < hi
  }

  ghost predicate Interval(s: set<U64>) {
    exists lo: nat, hi: nat :: Spans(s, lo, hi)
  }

  ghost predicate Consistent(log: map<U64, Entry>) {
    forall i :: i in log ==> log[i].logId.index == i
  }

  /** The log is exactly the indices from `lo`, above the purge point, up to `last_log_id`. */
  ghost predicate GaplessFrom(m: Mem, lo: nat) {
    Floor(m) <= lo <= NextIndex(m) && Spans(m.log.Keys, lo, NextIndex(m)) && Consistent(m.log)
  }

  ghost predicate Gapless(m: Mem) {
    exists lo: nat :: GaplessFrom(m, lo)
  }

  /** The log is exactly the interval just above the purge point up to `last_log_id`. */
  ghost predicate Contiguous(m: Mem) {
    GaplessFrom(m, Floor(m))
  }

  lemma {:induction false} SpanMember(s: set<U64>, lo: nat, hi: nat, i: U64)
    requires Spans(s, lo, hi)
    ensures i in s <==> lo <= i < hi
  {}

  /** Where a spanning log begins: at the purge point when nothing is left. */
  function Base(m: Mem, lo: nat, hi: nat): nat {
    if lo < hi then lo else Floor(m)
  }

  lemma {:induction false} SpanningLog(m: Mem, lo: nat, hi: nat)
    requires Floor(m) <= lo && hi <= U64_LIMIT
    requires Spans(m.log.Keys, lo, hi) && Consistent(m.log)
    ensures GaplessFrom(m, Base(m, lo, hi)) && (lo < hi ==> NextIndex(m) == hi)
  {
    if lo < hi {
      SpanMember(m.log.Keys, lo, hi, lo);
      SpanMember(m.log.Keys, lo, hi, hi - 1);
    }
    assert m.log == map[] <==> m.log.Keys == {};
  }

  lemma {:induction false} IndexedConsecutive(es: seq<Entry>, start: nat)
    requires Consecutive(es, start)
    ensures Spans(Indexed(es).Keys, start, start + |es|) && Consistent(Indexed(es))
  {
    if es != [] { IndexedConsecutive(es[..|es| - 1], start); }
  }

  lemma {:induction false} SpansJoin(s: set<U64>, t: set<U64>, lo: nat, mid: nat, hi: nat)
    requires lo <= mid <= hi && Spans(s, lo, mid) && Spans(t, mid, hi)
    ensures Spans(s + t, lo, hi)
  {}

  lemma {:induction false} ConsistentJoin(a: map<U64, Entry>, b: map<U64, Entry>)
    requires Consistent(a) && Consistent(b)
    ensures Consistent(a + b)
  {}

  lemma {:induction false} AppendSpans(log: map<U64, Entry>, lo: nat, next: nat, es: seq<Entry>)
    requires lo <= next && Spans(log.Keys, lo, next) && Consistent(log) && Consecutive(es, next)
    ensures Spans((log + Indexed(es)).Keys, lo, next + |es|) && Consistent(log + Indexed(es))
    ensures es != [] ==> next + |es| <= U64_LIMIT
  {
    IndexedConsecutive(es, next);
    SpansJoin(log.Keys, Indexed(es).Keys, lo, next, next + |es|);
    assert (log + Indexed(es)).Keys == log.Keys + Indexed(es).Keys;
    ConsistentJoin(log, Indexed(es));
    assert |es| > 0 ==> es[|es| - 1].logId.index == next + |es| - 1;
  }

  lemma {:induction false} AppendGapless(m: Mem, lo: nat, es: seq<Entry>)
    requires GaplessFrom(m, lo) && Consecutive(es, NextIndex(m))
    ensures GaplessFrom(Extended(m, es), lo)
  {
    if es == [] {
      assert m.log + map[] == m.log;
    } else {
      AppendSpans(m.log, lo, NextIndex(m), es);
      SpanningLog(Extended(m, es), lo, NextIndex(m) + |es|);
    }
  }

  lemma {:induction false} SpansBelow(s: set<U64>, lo: nat, hi: nat, from: U64)
    requires Spans(s, lo, hi)
    ensures Spans(s - (set k | k in s && from <= k), lo, Min(hi, from))
  {}

  lemma {:induction false} SpansAbove(s: set<U64>, lo: nat, hi: nat, upTo: U64)
    requires Spans(s, lo, hi)
    ensures Spans(s - (set k | k in s && k <= upTo), if lo < upTo + 1 then upTo + 1 else lo, hi)
  {}

  lemma {:induction false} TruncateGapless(m: Mem, lo: nat, id: LogId) returns (base: nat)
    requires GaplessFrom(m, lo) && Contract(Truncate(id), m)
    ensures GaplessFrom(Without(m, KeysFrom(m, id.index)), base)
    ensures lo == Floor(m) ==> base == Floor(m)
  {
    var after := Without(m, KeysFrom(m, id.index));
    var hi := Min(NextIndex(m), id.index);
    SpansBelow(m.log.Keys, lo, NextIndex(m), id.index);
    assert after.log.Keys == m.log.Keys - (set k | k in m.log.Keys && id.index <= k);
    SpanningLog(after, lo, hi);
    base := Base(after, lo, hi);
  }

  lemma {:induction false} PurgeGapless(m: Mem, lo: nat, id: LogId) returns (base: nat)
    requires GaplessFrom(m, lo) && Contract(Purge(id), m)
    ensures GaplessFrom(Without(m.(lastPurged := Some(id)), KeysUpTo(m, id.index)), base)
    ensures lo == Floor(m) ==> base == id.index + 1
  {
    var after := Without(m.(lastPurged := Some(id)), KeysUpTo(m, id.index));
    var from := if lo < id.index + 1 then id.index + 1 else lo;
    SpansAbove(m.log.Keys, lo, NextIndex(m), id.index);
    assert after.log.Keys == m.log.Keys - (set k | k in m.log.Keys && k <= id.index);
    SpanningLog(after, from, NextIndex(m));
    base := Base(after, from, NextIndex(m));
  }

  /** A restart begins again without a purge point. */
  lemma {:induction false} RestartGapless(d: Disk)
    requires Interval(d.log.Keys) && Consistent(d.log)
    ensures Gapless(MemOf(d))
  {
    var m := MemOf(d);
    var lo: nat, hi: nat :| Spans(d.log.Keys, lo, hi);
    if d.log == map[] {
      assert GaplessFrom(m, 0);
    } else {
      var last := Greatest(d.log.Keys);
      SpanMember(d.log.Keys, lo, hi, last);
      assert Spans(d.log.Keys, lo, last + 1);
      assert GaplessFrom(m, lo);
    }
  }

  predicate LogAfter(op: Op, m: Mem, after: Mem) {
    match op
    case Append(es) => after == Extended(m, es)
    case Truncate(id) => after == Without(m, KeysFrom(m, id.index))
    case Purge(id) => after == Without(m.(lastPurged := Some(id)), KeysUpTo(m, id.index))
    case _ => after.log == m.log && after.lastPurged == m.lastPurged
  }

  lemma {:induction false} DoneLog(c: Codecs, op: Op, m: Mem)
    ensures LogAfter(op, m, MemAfterAll(Steps(c, op, m), m))
  {
    var steps := Steps(c, op, m);
    assert steps[..|steps|] == steps;
    match op
    case Append(es) => DoneAppend(c, es, m, BLANK_DISK);
    case Truncate(id) =>
      var keys := KeysFrom(m, id.index);
      DropMem(m, keys, |steps|);
      assert keys[..|keys|] == keys;
    case Purge(id) =>
      var keys := KeysUpTo(m, id.index);
      PurgeStopped(c, m, BLANK_DISK, id, |steps|);
      assert keys[..|keys|] == keys;
    case _ => SmallCache(c, op, m, |steps|);
  }

  // ----------------------------------------------------- what is left on disk

  /** In an ascending enumeration, the keys left after `n` are those from the n-th on. */
  lemma {:induction false} RestOfKeys(keys: seq<U64>, n: nat)
    requires Increasing(keys) && n < |keys|
    ensures forall i :: i in ToSet(keys[..n]) <==> i in ToSet(keys) && i < keys[n]
  {
    forall i | i in ToSet(keys) && i < keys[n] ensures i in ToSet(keys[..n]) {
      var j :| 0 <= j < |keys| && keys[j] == i;
      assert keys[..n][j] == i;
    }
    forall i | i in ToSet(keys[..n]) ensures i in ToSet(keys) && i < keys[n] {
      var j :| 0 <= j < n && keys[..n][j] == i;
      assert keys[j] == i;
    }
  }

  lemma {:induction false} PurgedInterval(s: set<U64>, lo: nat, hi: nat, upTo: U64, keys: seq<U64>, n: nat)
    requires Spans(s, lo, hi) && Increasing(keys) && ToSet(keys) == (set k | k in s && k <= upTo)
    requires n <= |keys|
    ensures Interval(s - ToSet(keys[..n]))
  {
    var rest := s - ToSet(keys[..n]);
    if n < |keys| {
      RestOfKeys(keys, n);
      assert keys[n] in ToSet(keys);
      assert Spans(rest, keys[n], hi);
    } else {
      assert keys[..n] == keys;
      assert Spans(rest, if lo <= upTo then upTo + 1 else lo, hi);
    }
  }

  lemma {:induction false} TruncatedInterval(s: set<U64>, lo: nat, hi: nat, from: U64, keys: seq<U64>, n: nat)
    requires Spans(s, lo, hi) && Increasing(keys) && ToSet(keys) == (set k | k in s && from <= k)
    requires n <= |keys|
    ensures Interval(s - ToSet(keys[..n])) <==> (n == 0 || n == |keys| || forall k :: k in s ==> from <= k)
  {
    var rest := s - ToSet(keys[..n]);
    if n == 0 {
      assert Spans(rest, lo, hi);
    } else if n == |keys| {
      assert keys[..n] == keys;
      assert Spans(rest, lo, Min(hi, from));
    } else {
      RestOfKeys(keys, n);
      assert keys[0] in ToSet(keys) && keys[n] in ToSet(keys);
      if k :| k in s && k < from {
        assert k in rest && keys[0] !in rest && keys[n] in rest;
      } else {
        assert Spans(rest, keys[n], hi);
      }
    }
  }

  lemma {:induction false} AppendedInterval(es: seq<Entry>, m: Mem, lo: nat, d: Disk, n: nat)
    requires GaplessFrom(m, lo) && d.log == m.log && Contract(Append(es), m) && n <= |es|
    ensures Interval(Grown(d, es, n).log.Keys)
  {
    var after := Grown(d, es, n);
    IndexedConsecutive(es[..n], NextIndex(m));
    SpansJoin(m.log.Keys, Indexed(es[..n]).Keys, lo, NextIndex(m), NextIndex(m) + n);
    assert after.log.Keys == m.log.Keys + Indexed(es[..n]).Keys;
  }

  lemma {:induction false} PurgedLogInterval(upTo: U64, m: Mem, lo: nat, hi: nat, d: Disk, n: nat)
    requires Spans(m.log.Keys, lo, hi) && d.log == m.log && n <= |KeysUpTo(m, upTo)|
    ensures Interval(Shrunk(d, KeysUpTo(m, upTo), n).log.Keys)
  {
    var keys := KeysUpTo(m, upTo);
    PurgedInterval(m.log.Keys, lo, hi, upTo, keys, n);
    assert Shrunk(d, keys, n).log.Keys == m.log.Keys - ToSet(keys[..n]);
  }

  /** After `n` of the keys to be cut are gone from disk there is no hole: none is gone, all
      are, or nothing lies below the cut. */
  predicate NoHole(m: Mem, from: U64, n: nat) {
    n == 0 || n == |KeysFrom(m, from)| || forall k :: k in m.log.Keys ==> from <= k
  }

  lemma {:induction false} TruncatedLog(m: Mem, lo: nat, hi: nat, from: U64, d: Disk, n: nat)
    requires Spans(m.log.Keys, lo, hi) && d.log == m.log && n <= |KeysFrom(m, from)|
    ensures Shrunk(d, KeysFrom(m, from), n).log == m.log - ToSet(KeysFrom(m, from)[..n])
    ensures Interval(Shrunk(d, KeysFrom(m, from), n).log.Keys) <==> NoHole(m, from, n)
  {
    var keys := KeysFrom(m, from);
    TruncatedInterval(m.log.Keys, lo, hi, from, keys, n);
    assert Shrunk(d, keys, n).log.Keys == m.log.Keys - ToSet(keys[..n]);
  }

  /** An operation stopped at `at` does not cut the log in two. */
  predicate SafeStop(op: Op, m: Mem, at: nat) {
    op.Truncate? ==> NoHole(m, op.from.index, at / 2)
  }

  lemma {:induction false} StoppedInterval(c: Codecs, op: Op, m: Mem, lo: nat, d: Disk, at: nat)
    requires GaplessFrom(m, lo) && d.log == m.log && Contract(op, m)
    requires at <= |Steps(c, op, m)| && SafeStop(op, m, at)
    ensures Interval(DiskAfterAll(Steps(c, op, m)[..at], d).log.Keys)
  {
    match op
    case Append(es) =>
      AppendOutcome(c, es, m, d, at);
      AppendedInterval(es, m, lo, d, Min((at + 1) / 2, |es|));
    case Truncate(id) =>
      DropDisk(m, d, KeysFrom(m, id.index), at);
      TruncatedLog(m, lo, NextIndex(m), id.index, d, at / 2);
    case Purge(id) =>
      if at == 0 {
        assert Spans(d.log.Keys, lo, NextIndex(m));
      } else {
        PurgeStopped(c, m, d, id, at);
        PurgedLogInterval(id.index, m, lo, NextIndex(m), d, (at - 1) / 2);
      }
    case _ =>
      SmallStopped(c, op, m, d, at);
      assert Spans(d.log.Keys, lo, NextIndex(m));
  }

  // -------------------------------------------------------------------- runs

  /** The last deletion loop stopped at an error, with a key gone from the cache but not
      from the disk. */
  predicate Stuck(evs: seq<Event>) {
    evs != [] &&
    var ev := evs[|evs| - 1];
    ev.Failed? && (ev.op.Truncate? || ev.op.Purge?)
  }

  /** Raft's calling discipline, over crashes, restarts and errors: the contract is kept, the
      store is opened again after a deletion loop that failed, and no truncation is stopped
      where it leaves a hole (TruncateCrash says when that is). */
  ghost predicate Orderly(c: Codecs, evs: seq<Event>) {
    evs == [] ||
    var n, w := |evs| - 1, Run(c, EMPTY_WORLD, evs[..|evs| - 1]);
    && Orderly(c, evs[..n]) && Legal(c, w, evs[n])
    && (if Stuck(evs[..n]) then evs[n].Crashed? && evs[n].at == 0 else Contract(evs[n].op, w.mem))
    && (!evs[n].Done? && !Stuck(evs[..n]) ==> SafeStop(evs[n].op, w.mem, evs[n].at))
  }

  predicate NeverRestarted(evs: seq<Event>) {
    forall k :: 0 <= k < |evs| ==> !evs[k].Crashed?
  }

  lemma {:induction false} OrderlyIsLegal(c: Codecs, evs: seq<Event>)
    requires Orderly(c, evs)
    ensures LegalRun(c, EMPTY_WORLD, evs)
  {
    if evs != [] { OrderlyIsLegal(c, evs[..|evs| - 1]); }
  }

  /** Cache and disk hold the same log after an operation that finished, or an append or a
      small write that failed. */
  lemma {:induction false} SameLogAfter(c: Codecs, op: Op, m: Mem, d: Disk, at: nat)
    requires d.log == m.log && CanStop(Steps(c, op, m), at)
    requires at < |Steps(c, op, m)| ==> !op.Truncate? && !op.Purge?
    ensures DiskAfterAll(Steps(c, op, m)[..at], d).log == MemAfterAll(Steps(c, op, m)[..at], m).log
  {
    match op
    case Append(es) => AppendSameLog(c, es, m, d, at);
    case Truncate(id) =>
      DropDisk(m, d, KeysFrom(m, id.index), at);
      DropMem(m, KeysFrom(m, id.index), at);
    case Purge(id) => PurgeStopped(c, m, d, id, at);
    case _ =>
      SmallStopped(c, op, m, d, at);
      SmallCache(c, op, m, at);
  }

  lemma {:induction false} AppendSameLog(c: Codecs, es: seq<Entry>, m: Mem, d: Disk, at: nat)
    requires d.log == m.log && CanStop(Steps(c, Append(es), m), at)
    ensures DiskAfterAll(Steps(c, Append(es), m)[..at], d).log == MemAfterAll(Steps(c, Append(es), m)[..at], m).log
  {
    var steps := Steps(c, Append(es), m);
    if at == |steps| {
      assert steps[..at] == steps;
      DoneAppend(c, es, m, d);
    } else {
      AppendStopsEven(c, es, m, at);
      AppendStopped(c, es, m, d, at);
    }
  }

  lemma {:induction false} DoneGapless(c: Codecs, op: Op, m: Mem, lo: nat) returns (base: nat)
    requires GaplessFrom(m, lo) && Contract(op, m)
    ensures GaplessFrom(MemAfterAll(Steps(c, op, m), m), base)
    ensures lo == Floor(m) ==> base == Floor(MemAfterAll(Steps(c, op, m), m))
  {
    DoneLog(c, op, m);
    base := lo;
    match op
    case Append(es) => AppendGapless(m, lo, es);
    case Truncate(id) => base := TruncateGapless(m, lo, id);
    case Purge(id) => base := PurgeGapless(m, lo, id);
    case _ => assert GaplessFrom(MemAfterAll(Steps(c, op, m), m), lo);
  }

  lemma {:induction false} SameLogGapless(m: Mem, after: Mem, lo: nat)
    requires GaplessFrom(m, lo) && after.log == m.log && after.lastPurged == m.lastPurged
    ensures GaplessFrom(after, lo) && Floor(after) == Floor(m)
  {}

  lemma {:induction false} FailedAppendGapless(c: Codecs, es: seq<Entry>, m: Mem, lo: nat, at: nat)
    requires GaplessFrom(m, lo) && Consecutive(es, NextIndex(m))
    requires at < |Steps(c, Append(es), m)| && !Steps(c, Append(es), m)[at].Cache?
    ensures GaplessFrom(MemAfterAll(Steps(c, Append(es), m)[..at], m), lo)
    ensures Floor(MemAfterAll(Steps(c, Append(es), m)[..at], m)) == Floor(m)
  {
    AppendStopsEven(c, es, m, at);
    AppendStopped(c, es, m, BLANK_DISK, at);
    AppendGapless(m, lo, es[..at / 2]);
  }

  lemma {:induction false} FailedGapless(c: Codecs, op: Op, m: Mem, lo: nat, at: nat)
    requires GaplessFrom(m, lo) && Contract(op, m) && !op.Truncate? && !op.Purge?
    requires at < |Steps(c, op, m)| && !Steps(c, op, m)[at].Cache?
    ensures GaplessFrom(MemAfterAll(Steps(c, op, m)[..at], m), lo)
    ensures Floor(MemAfterAll(Steps(c, op, m)[..at], m)) == Floor(m)
  {
    if op.Append? {
      FailedAppendGapless(c, op.entries, m, lo, at);
    } else {
      SmallCache(c, op, m, at);
      SameLogGapless(m, MemAfterAll(Steps(c, op, m)[..at], m), lo);
    }
  }

  lemma {:induction false} DiskConsistent(c: Codecs, files: Files)
    requires Sound(c, files)
    ensures Consistent(DiskOf(c, files).log)
  {
    forall i | i in DiskOf(c, files).log ensures DiskOf(c, files).log[i].logId.index == i {
      DiskIsConsistent(c, files, i);
    }
  }

  /** What every orderly run keeps. */
  ghost predicate WellShaped(c: Codecs, evs: seq<Event>, lo: nat) {
    var w := Run(c, EMPTY_WORLD, evs);
    && Sound(c, w.files) && Interval(DiskOf(c, w.files).log.Keys)
    && (!Stuck(evs) ==> DiskOf(c, w.files).log == w.mem.log && GaplessFrom(w.mem, lo))
    && (!Stuck(evs) && NeverRestarted(evs) ==> lo == Floor(w.mem))
  }

  lemma {:induction false} RestartShaped(c: Codecs, evs: seq<Event>) returns (lo: nat)
    requires evs != [] && evs[|evs| - 1].Crashed?
    requires var files := Run(c, EMPTY_WORLD, evs).files;
             Sound(c, files) && Interval(DiskOf(c, files).log.Keys)
    ensures WellShaped(c, evs, lo)
  {
    var d := DiskOf(c, Run(c, EMPTY_WORLD, evs).files);
    DiskConsistent(c, Run(c, EMPTY_WORLD, evs).files);
    RestartGapless(d);
    lo :| GaplessFrom(MemOf(d), lo);
  }

  /** How far an event got. */
  function StopOf(c: Codecs, m: Mem, ev: Event): nat {
    if ev.Done? then |Steps(c, ev.op, m)| else ev.at
  }

  lemma {:induction false} EventRefines(c: Codecs, w: World, ev: Event)
    requires c.Lawful() && Sound(c, w.files) && Legal(c, w, ev)
    ensures var steps, at := Steps(c, ev.op, w.mem), StopOf(c, w.mem, ev);
            && at <= |steps| && Sound(c, Next(c, w, ev).files)
            && DiskOf(c, Next(c, w, ev).files) == DiskAfterAll(steps[..at], DiskOf(c, w.files))
            && (!ev.Crashed? ==> Next(c, w, ev).mem == MemAfterAll(steps[..at], w.mem) && CanStop(steps, at))
  {
    var steps, at := Steps(c, ev.op, w.mem), StopOf(c, w.mem, ev);
    NextSound(c, w, ev);
    assert ev.Done? ==> steps[..at] == steps;
    MemAlone(c, steps[..at], w);
  }

  /** The cache after an event that did not end the process. */
  lemma {:induction false} CacheShaped(c: Codecs, w: World, ev: Event, before: nat) returns (lo: nat)
    requires Legal(c, w, ev) && GaplessFrom(w.mem, before) && Contract(ev.op, w.mem)
    requires !ev.Crashed? && (ev.Failed? ==> !ev.op.Truncate? && !ev.op.Purge?)
    ensures var after := MemAfterAll(Steps(c, ev.op, w.mem)[..StopOf(c, w.mem, ev)], w.mem);
            GaplessFrom(after, lo) && (before == Floor(w.mem) ==> lo == Floor(after))
  {
    var steps := Steps(c, ev.op, w.mem);
    if ev.Done? {
      assert steps[..|steps|] == steps;
      lo := DoneGapless(c, ev.op, w.mem, before);
    } else {
      FailedGapless(c, ev.op, w.mem, before, ev.at);
      lo := before;
    }
  }

  lemma {:induction false} DoneIsSafe(c: Codecs, m: Mem, ev: Event)
    requires ev.Done?
    ensures SafeStop(ev.op, m, StopOf(c, m, ev))
  {}

  /** One event of an orderly run after a state without a failed deletion loop. */
  lemma {:induction false} EventShaped(c: Codecs, evs: seq<Event>, before: nat) returns (lo: nat)
    requires c.Lawful() && evs != [] && Orderly(c, evs) && !Stuck(evs[..|evs| - 1])
    requires WellShaped(c, evs[..|evs| - 1], before)
    ensures WellShaped(c, evs, lo)
  {
    var n := |evs| - 1;
    var w, ev := Run(c, EMPTY_WORLD, evs[..n]), evs[n];
    var d, at := DiskOf(c, w.files), StopOf(c, w.mem, ev);
    EventRefines(c, w, ev);
    if ev.Done? { DoneIsSafe(c, w.mem, ev); }
    StoppedInterval(c, ev.op, w.mem, before, d, at);
    lo := before;
    if ev.Crashed? {
      lo := RestartShaped(c, evs);
    } else if !Stuck(evs) {
      SameLogAfter(c, ev.op, w.mem, d, at);
      lo := CacheShaped(c, w, ev, before);
    }
  }

  lemma {:induction false} RunShaped(c: Codecs, evs: seq<Event>) returns (lo: nat)
    requires c.Lawful() && Orderly(c, evs)
    ensures WellShaped(c, evs, lo)
  {
    if evs == [] {
      lo := 0;
      assert DiskOf(c, map[]).log == map[] && DiskOf(c, map[]).log.Keys == {};
      assert Spans(DiskOf(c, map[]).log.Keys, 0, 0);
    } else {
      var n := |evs| - 1;
      var before := RunShaped(c, evs[..n]);
      if Stuck(evs[..n]) {
        var w := Run(c, EMPTY_WORLD, evs[..n]);
        NextSound(c, w, evs[n]);
        assert Steps(c, evs[n].op, w.mem)[..0] == [];
        lo := RestartShaped(c, evs);
      } else {
        lo := EventShaped(c, evs, before);
      }
    }
  }

  /** No gaps: in every orderly run, over any number of crashes, restarts and errors, the log
      on disk is an interval; and so is the cached log, which is the same, lies above the
      purge point and ends at `last_log_id`, unless the last event is a deletion loop that
      failed. (What the cache is then, FailedTruncate and FailedPurge say.) */
  lemma {:induction false} LogHasNoGaps(c: Codecs, evs: seq<Event>)
    requires c.Lawful() && Orderly(c, evs)
    ensures var w := Run(c, EMPTY_WORLD, evs);
            && Sound(c, w.files) && Interval(DiskOf(c, w.files).log.Keys)
            && (!Stuck(evs) ==> Gapless(w.mem) && DiskOf(c, w.files).log == w.mem.log)
  {
    var lo := RunShaped(c, evs);
  }

  /** Contiguity: while the store has not been opened again and the last event is not a failed
      deletion loop, the log begins exactly at the purge point. */
  lemma {:induction false} LogIsContiguous(c: Codecs, evs: seq<Event>)
    requires c.Lawful() && Orderly(c, evs) && NeverRestarted(evs) && !Stuck(evs)
    ensures Contiguous(Run(c, EMPTY_WORLD, evs).mem)
  {
    var lo := RunShaped(c, evs);
  }

  /** A crash inside `append` or `purge`, after any orderly run that does not end in a failed
      deletion loop, leaves a log without gaps. */
  lemma {:induction false} CrashKeepsContiguity(c: Codecs, evs: seq<Event>, op: Op, at: nat, files: Files)
    requires c.Lawful() && Orderly(c, evs) && !Stuck(evs) && (op.Append? || op.Purge?)
    requires Contract(op, Run(c, EMPTY_WORLD, evs).mem)
    requires Legal(c, Run(c, EMPTY_WORLD, evs), Crashed(op, at, files))
    ensures Sound(c, files) && Interval(DiskOf(c, files).log.Keys)
  {
    var w := Run(c, EMPTY_WORLD, evs);
    var lo := RunShaped(c, evs);
    NextSound(c, w, Crashed(op, at, files));
    StoppedInterval(c, op, w.mem, lo, DiskOf(c, w.files), at);
  }

  /** A crash inside `truncate`, after any orderly run that does not end in a failed deletion
      loop, removes an ascending initial segment of the cut range, which opens a hole exactly
      when some cut keys are gone, some are not, and an entry below the cut remains. */
  lemma {:induction false} TruncateCrash(c: Codecs, evs: seq<Event>, id: LogId, at: nat, files: Files)
    requires c.Lawful() && Orderly(c, evs) && !Stuck(evs)
    requires Contract(Truncate(id), Run(c, EMPTY_WORLD, evs).mem)
    requires Legal(c, Run(c, EMPTY_WORLD, evs), Crashed(Truncate(id), at, files))
    ensures var m := Run(c, EMPTY_WORLD, evs).mem;
            var keys := KeysFrom(m, id.index);
            && Sound(c, files) && at <= 2 * |keys|
            && DiskOf(c, files).log == m.log - ToSet(keys[..at / 2])
            && (Interval(DiskOf(c, files).log.Keys) <==> NoHole(m, id.index, at / 2))
  {
    var w := Run(c, EMPTY_WORLD, evs);
    var lo := RunShaped(c, evs);
    NextSound(c, w, Crashed(Truncate(id), at, files));
    var keys := KeysFrom(w.mem, id.index);
    assert Steps(c, Truncate(id), w.mem) == DropSteps(w.mem, keys);
    DropDisk(w.mem, DiskOf(c, w.files), keys, at);
    TruncatedLog(w.mem, lo, NextIndex(w.mem), id.index, DiskOf(c, w.files), at / 2);
  }

  // ------------------------------------------------------- failed deletion loops

  /** A deletion loop over `keys`, begun at `base`, that could not unlink its n-th key: the
      cache has lost that key and those before it, the disk only those before it. */
  ghost predicate StoppedAt(c: Codecs, base: Mem, keys: seq<U64>, n: nat, u: World) {
    && n < |keys| && u.mem == Without(base, keys[..n + 1])
    && Sound(c, u.files) && DiskOf(c, u.files).log == base.log - ToSet(keys[..n])
  }

  lemma {:induction false} DropsAreOdd(m: Mem, keys: seq<U64>, at: nat)
    requires at < 2 * |keys| && !DropSteps(m, keys)[at].Cache?
    ensures at % 2 == 1 && at / 2 < |keys|
  {}

  lemma {:induction false} TruncateStoppedAt(c: Codecs, m: Mem, d: Disk, id: LogId, at: nat)
    requires at < |Steps(c, Truncate(id), m)| && !Steps(c, Truncate(id), m)[at].Cache?
    ensures var n, keys := at / 2, KeysFrom(m, id.index);
            && at == 2 * n + 1 && n < |keys|
            && MemAfterAll(Steps(c, Truncate(id), m)[..at], m) == Without(m, keys[..n + 1])
            && DiskAfterAll(Steps(c, Truncate(id), m)[..at], d) == d.(log := d.log - ToSet(keys[..n]))
  {
    var keys := KeysFrom(m, id.index);
    DropsAreOdd(m, keys, at);
    DropDisk(m, d, keys, at);
    DropMem(m, keys, at);
  }

  lemma {:induction false} FailedTruncateIs(c: Codecs, w: World, id: LogId, at: nat, files: Files)
    requires c.Lawful() && Sound(c, w.files) && DiskOf(c, w.files).log == w.mem.log
    requires Legal(c, w, Failed(Truncate(id), at, files))
    ensures StoppedAt(c, w.mem, KeysFrom(w.mem, id.index), at / 2, Next(c, w, Failed(Truncate(id), at, files)))
  {
    EventRefines(c, w, Failed(Truncate(id), at, files));
    TruncateStoppedAt(c, w.mem, DiskOf(c, w.files), id, at);
  }

  lemma {:induction false} PurgeStoppedAt(c: Codecs, m: Mem, d: Disk, id: LogId, at: nat)
    requires at < |Steps(c, Purge(id), m)| && !Steps(c, Purge(id), m)[at].Cache?
    ensures at >= 2
    ensures var n, keys := at / 2 - 1, KeysUpTo(m, id.index);
            && at == 2 * n + 2 && n < |keys|
            && MemAfterAll(Steps(c, Purge(id), m)[..at], m) == Without(m.(lastPurged := Some(id)), keys[..n + 1])
            && DiskAfterAll(Steps(c, Purge(id), m)[..at], d) == d.(log := d.log - ToSet(keys[..n]))
  {
    var marked, keys := m.(lastPurged := Some(id)), KeysUpTo(m, id.index);
    assert Steps(c, Purge(id), m) == [Cache(marked)] + DropSteps(marked, keys);
    assert at > 0 && Steps(c, Purge(id), m)[at] == DropSteps(marked, keys)[at - 1];
    DropsAreOdd(marked, keys, at - 1);
    PurgeStopped(c, m, d, id, at);
    assert Min(at / 2, |keys|) == at / 2 && Min((at - 1) / 2, |keys|) == at / 2 - 1;
  }

  lemma {:induction false} FailedPurgeIs(c: Codecs, w: World, id: LogId, at: nat, files: Files) returns (n: nat)
    requires c.Lawful() && Sound(c, w.files) && DiskOf(c, w.files).log == w.mem.log
    requires Legal(c, w, Failed(Purge(id), at, files))
    ensures at == 2 * n + 2
    ensures StoppedAt(c, w.mem.(lastPurged := Some(id)), KeysUpTo(w.mem, id.index), n,
                      Next(c, w, Failed(Purge(id), at, files)))
  {
    EventRefines(c, w, Failed(Purge(id), at, files));
    PurgeStoppedAt(c, w.mem, DiskOf(c, w.files), id, at);
    n := at / 2 - 1;
  }

  /** A log without a gap, less the first `n` keys to be cut, is one without a gap exactly if
      that leaves no hole. */
  lemma {:induction false} CutInterval(m: Mem, lo: nat, hi: nat, from: U64, n: nat)
    requires Spans(m.log.Keys, lo, hi) && n <= |KeysFrom(m, from)|
    ensures Interval((m.log - ToSet(KeysFrom(m, from)[..n])).Keys) <==> NoHole(m, from, n)
  {
    TruncatedLog(m, lo, hi, from, BLANK_DISK.(log := m.log), n);
  }

  /** The state after an orderly run that does not end in a failed deletion loop. */
  lemma {:induction false} OrderlyWorld(c: Codecs, evs: seq<Event>) returns (lo: nat)
    requires c.Lawful() && Orderly(c, evs) && !Stuck(evs)
    ensures var w := Run(c, EMPTY_WORLD, evs);
            && Sound(c, w.files) && DiskOf(c, w.files).log == w.mem.log
            && Spans(w.mem.log.Keys, lo, NextIndex(w.mem))
  {
    lo := RunShaped(c, evs);
  }

  /** A failed truncation, after any orderly run that does not end in a failed deletion loop:
      the cached log and the log on disk, which has one entry more, each have a hole exactly
      if some cut keys are gone from it, some are not, and an entry below the cut remains. */
  lemma {:induction false} FailedTruncate(c: Codecs, evs: seq<Event>, id: LogId, at: nat, files: Files)
    requires c.Lawful() && Orderly(c, evs) && !Stuck(evs)
    requires Legal(c, Run(c, EMPTY_WORLD, evs), Failed(Truncate(id), at, files))
    ensures var w := Run(c, EMPTY_WORLD, evs);
            var u := Next(c, w, Failed(Truncate(id), at, files));
            && StoppedAt(c, w.mem, KeysFrom(w.mem, id.index), at / 2, u)
            && (Interval(u.mem.log.Keys) <==> NoHole(w.mem, id.index, at / 2 + 1))
            && (Interval(DiskOf(c, u.files).log.Keys) <==> NoHole(w.mem, id.index, at / 2))
  {
    var w := Run(c, EMPTY_WORLD, evs);
    var lo := OrderlyWorld(c, evs);
    FailedTruncateIs(c, w, id, at, files);
    CutInterval(w.mem, lo, NextIndex(w.mem), id.index, at / 2);
    CutInterval(w.mem, lo, NextIndex(w.mem), id.index, at / 2 + 1);
  }

  /** What is left of an interval after its `n` lowest keys went, and after the next one too. */
  lemma {:induction false} PurgedSpans(s: set<U64>, lo: nat, hi: nat, upTo: U64, keys: seq<U64>, n: nat)
    requires Spans(s, lo, hi) && Increasing(keys) && ToSet(keys) == (set k | k in s && k <= upTo)
    requires n < |keys|
    ensures keys[n] < hi && Spans(s - ToSet(keys[..n]), keys[n], hi)
    ensures Spans(s - ToSet(keys[..n + 1]), 1 + keys[n] as nat, hi)
  {
    RestOfKeys(keys, n);
    ToSetSnoc(keys, n);
    assert keys[n] in ToSet(keys);
  }

  /** On disk the log begins with a key that the cache does not have any more. */
  ghost predicate Orphaned(c: Codecs, u: World, orphan: U64, hi: nat) {
    && orphan < hi && Sound(c, u.files)
    && Spans(DiskOf(c, u.files).log.Keys, orphan, hi) && Spans(u.mem.log.Keys, 1 + orphan as nat, hi)
  }

  lemma {:induction false} StoppedSpans(c: Codecs, m: Mem, lo: nat, hi: nat, id: LogId, n: nat, u: World)
    requires Spans(m.log.Keys, lo, hi)
    requires StoppedAt(c, m.(lastPurged := Some(id)), KeysUpTo(m, id.index), n, u)
    ensures Orphaned(c, u, KeysUpTo(m, id.index)[n], hi)
  {
    var keys := KeysUpTo(m, id.index);
    PurgedSpans(m.log.Keys, lo, hi, id.index, keys, n);
    assert u.mem.log.Keys == m.log.Keys - ToSet(keys[..n + 1]);
    assert DiskOf(c, u.files).log.Keys == m.log.Keys - ToSet(keys[..n]);
  }

  lemma {:induction false} OrphanOf(c: Codecs, m: Mem, lo: nat, hi: nat, id: LogId, n: nat, u: World)
    returns (orphan: U64)
    requires Spans(m.log.Keys, lo, hi)
    requires StoppedAt(c, m.(lastPurged := Some(id)), KeysUpTo(m, id.index), n, u)
    ensures orphan in m.log && orphan <= id.index && Orphaned(c, u, orphan, hi)
    ensures u.mem.lastPurged == Some(id)
  {
    var keys := KeysUpTo(m, id.index);
    orphan := keys[n];
    assert orphan in ToSet(keys);
    StoppedSpans(c, m, lo, hi, id, n, u);
  }

  lemma {:induction false} FailedPurgeFrom(c: Codecs, w: World, lo: nat, hi: nat, id: LogId, at: nat, files: Files)
    returns (orphan: U64)
    requires c.Lawful() && Sound(c, w.files) && DiskOf(c, w.files).log == w.mem.log && Spans(w.mem.log.Keys, lo, hi)
    requires Legal(c, w, Failed(Purge(id), at, files))
    ensures orphan in w.mem.log && orphan <= id.index
    ensures Orphaned(c, Next(c, w, Failed(Purge(id), at, files)), orphan, hi)
    ensures Next(c, w, Failed(Purge(id), at, files)).mem.lastPurged == Some(id)
  {
    var n := FailedPurgeIs(c, w, id, at, files);
    orphan := OrphanOf(c, w.mem, lo, hi, id, n, Next(c, w, Failed(Purge(id), at, files)));
  }

  /** A failed purge leaves two intervals: on disk from the key it stopped at, in the cache
      from the next one on. */
  lemma {:induction false} FailedPurge(c: Codecs, evs: seq<Event>, id: LogId, at: nat, files: Files)
    returns (orphan: U64)
    requires c.Lawful() && Orderly(c, evs) && !Stuck(evs)
    requires Legal(c, Run(c, EMPTY_WORLD, evs), Failed(Purge(id), at, files))
    ensures orphan in Run(c, EMPTY_WORLD, evs).mem.log && orphan <= id.index
    ensures Orphaned(c, Next(c, Run(c, EMPTY_WORLD, evs), Failed(Purge(id), at, files)), orphan,
                     NextIndex(Run(c, EMPTY_WORLD, evs).mem))
    ensures Next(c, Run(c, EMPTY_WORLD, evs), Failed(Purge(id), at, files)).mem.lastPurged == Some(id)
  {
    var w := Run(c, EMPTY_WORLD, evs);
    var lo := OrderlyWorld(c, evs);
    orphan := FailedPurgeFrom(c, w, lo, NextIndex(w.mem), id, at, files);
  }

  lemma {:induction false} NotAnInterval(s: set<U64>, a: U64, b: U64, z: U64)
    requires a < b < z && a in s && b !in s && z in s
    ensures !Interval(s)
  {
    forall lo: nat, hi: nat ensures !Spans(s, lo, hi) {
      assert b in s <==> b in s;
    }
  }

  /** Deleting, of a log that begins with a key the cache does not know, what the cache knows. */
  lemma {:induction false} OrphanInterval(disk: set<U64>, cached: set<U64>, orphan: U64, hi: nat, upTo: U64)
    requires Spans(disk, orphan, hi) && Spans(cached, 1 + orphan as nat, hi) && orphan < hi
    ensures Interval(disk - (set k | k in cached && k <= upTo))
            <==> (forall k :: k in cached ==> upTo < k) || (forall k :: k in cached ==> k <= upTo)
  {
    var rest := disk - (set k | k in cached && k <= upTo);
    if forall k :: k in cached ==> upTo < k {
      assert Spans(rest, orphan, hi);
    } else if forall k :: k in cached ==> k <= upTo {
      forall i: U64 ensures i in rest <==> i == orphan {
        assert i in cached <==> orphan < i < hi;
      }
      assert Spans(rest, orphan, 1 + orphan as nat);
    } else {
      var low :| low in cached && low <= upTo;
      var high :| high in cached && upTo < high;
      var gap: U64 := 1 + orphan as nat;
      assert gap in cached && gap !in rest && orphan in rest && high in rest;
      NotAnInterval(rest, orphan, gap, high);
    }
  }

  lemma {:induction false} DonePurgeIs(c: Codecs, u: World, id: LogId)
    requires c.Lawful() && Sound(c, u.files) && Legal(c, u, Done(Purge(id)))
    ensures var v := Next(c, u, Done(Purge(id)));
            Sound(c, v.files)
            && DiskOf(c, v.files).log == DiskOf(c, u.files).log - ToSet(KeysUpTo(u.mem, id.index))
  {
    var keys := KeysUpTo(u.mem, id.index);
    EventRefines(c, u, Done(Purge(id)));
    PurgeStopped(c, u.mem, DiskOf(c, u.files), id, |Steps(c, Purge(id), u.mem)|);
    assert keys[..|keys|] == keys;
  }

  /** A purge that goes on after one that failed, without a restart in between, leaves no hole
      on disk exactly if it deletes none of the cached entries or all of them. */
  lemma {:induction false} PurgeAfterFailedPurge(c: Codecs, evs: seq<Event>, id: LogId, at: nat, files: Files,
      next: LogId)
    requires c.Lawful() && Orderly(c, evs) && !Stuck(evs)
    requires Legal(c, Run(c, EMPTY_WORLD, evs), Failed(Purge(id), at, files))
    requires Admissible(Purge(next), Next(c, Run(c, EMPTY_WORLD, evs), Failed(Purge(id), at, files)).mem)
    ensures var u := Next(c, Run(c, EMPTY_WORLD, evs), Failed(Purge(id), at, files));
            var v := Next(c, u, Done(Purge(next)));
            && Sound(c, v.files)
            && (Interval(DiskOf(c, v.files).log.Keys)
                <==> || (forall k :: k in u.mem.log.Keys ==> next.index < k)
                     || (forall k :: k in u.mem.log.Keys ==> k <= next.index))
  {
    var w := Run(c, EMPTY_WORLD, evs);
    var orphan := FailedPurge(c, evs, id, at, files);
    var u := Next(c, w, Failed(Purge(id), at, files));
    DonePurgeIs(c, u, next);
    OrphanInterval(DiskOf(c, u.files).log.Keys, u.mem.log.Keys, orphan, NextIndex(w.mem), next.index);
    PurgedKeys(DiskOf(c, u.files).log, u.mem, next.index);
  }

  lemma {:induction false} PurgedKeys(log: map<U64, Entry>, m: Mem, upTo: U64)
    ensures (log - ToSet(KeysUpTo(m, upTo))).Keys == log.Keys - (set k | k in m.log.Keys && k <= upTo)
  {}

  // ---------------------------------------------------------------- snapshots

  lemma {:induction false} AppliedConcat(sm: StateMachineData, a: seq<Entry>, b: seq<Entry>)
    ensures Applied(sm, a + b) == Applied(Applied(sm, a), b)
  {
    if b == [] {
      assert a + b == a;
    } else {
      var n := |b| - 1;
      AppliedConcat(sm, a, b[..n]);
      assert (a + b)[..|a + b| - 1] == a + b[..n];
    }
  }

  lemma {:induction false} DoneMachine(c: Codecs, op: Op, w: World)
    requires op.Apply? || op.BuildSnapshot? || (op.InstallSnapshot? && c.data.decode(op.bytes).Some?)
    ensures var after := DoAll(c, Steps(c, op, w.mem), w).mem;
            && (op.Apply? ==> after.machine == Applied(w.mem.machine, op.entries))
            && (op.BuildSnapshot? ==>
                 after.snapshot == Some(SnapshotOf(c, w.mem.machine, w.mem.snapshotIdx + 1)))
            && (op.InstallSnapshot? ==>
                 after.machine == MachineFrom(op.meta, c.data.decode(op.bytes).value))
  {
    var steps := Steps(c, op, w.mem);
    MemAlone(c, steps, w);
    Unroll(steps, w.mem, BLANK_DISK, 0);
    Unroll(steps, w.mem, BLANK_DISK, |steps| - 1);
    if op.Apply? { Unroll(steps, w.mem, BLANK_DISK, 1); }
    assert steps[..|steps|] == steps;
  }

  /** Snapshot equals replay: a store that has applied a prefix of a log builds a
      snapshot; installing it in a store in any state and applying the rest of the
      log there gives the state machine of applying the whole log. */
  lemma {:induction false} SnapshotEqualsReplay(c: Codecs, sm: StateMachineData, es: seq<Entry>, k: nat,
      source: World, target: World)
    requires c.Lawful() && k <= |es| && source.mem.machine == sm
    ensures var applied := DoAll(c, Steps(c, Apply(es[..k]), source.mem), source);
            var built := DoAll(c, Steps(c, BuildSnapshot, applied.mem), applied).mem.snapshot;
            && built.Some?
            && var install := InstallSnapshot(built.value.meta, built.value.data);
               var installed := DoAll(c, Steps(c, install, target.mem), target);
               var caughtUp := DoAll(c, Steps(c, Apply(es[k..]), installed.mem), installed);
               caughtUp.mem.machine == Applied(sm, es)
  {
    var applied := DoAll(c, Steps(c, Apply(es[..k]), source.mem), source);
    DoneMachine(c, Apply(es[..k]), source);
    DoneMachine(c, BuildSnapshot, applied);
    var s := SnapshotOf(c, applied.mem.machine, applied.mem.snapshotIdx + 1);
    var install := InstallSnapshot(s.meta, s.data);
    assert c.data.decode(s.data) == Some(applied.mem.machine.data);
    DoneMachine(c, install, target);
    var installed := DoAll(c, Steps(c, install, target.mem), target);
    assert installed.mem.machine == applied.mem.machine;
    DoneMachine(c, Apply(es[k..]), installed);
    AppliedConcat(sm, es[..k], es[k..]);
    assert es[..k] + es[k..] == es;
  }
}

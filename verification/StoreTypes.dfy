/** Values the Raft store keeps, and the serialisation it relies on. */
module StoreTypes {
  import opened LogNames

  type Byte = n: nat | n < 256
  type Bytes = seq<Byte>
  type NodeId = U64

  datatype LogId = LogId(term: U64, node: NodeId, index: U64)

  datatype Vote = Vote(term: U64, node: NodeId, committed: bool)

  datatype Membership = Membership(configs: seq<set<NodeId>>, nodes: map<NodeId, string>)

  datatype StoredMembership = StoredMembership(logId: Option<LogId>, membership: Membership)

  datatype Request = Request(client: string, serial: U64, status: string)

  datatype Payload = Blank | Normal(request: Request) | Change(membership: Membership)

  datatype Entry = Entry(logId: LogId, payload: Payload)

  datatype StateMachineData = StateMachineData(
    lastApplied: Option<LogId>,
    lastMembership: StoredMembership,
    data: map<string, string>)

  /** `{leader}-{index}-{n}` or `--{n}`: the applied log id and a counter. */
  datatype SnapshotId = SnapshotId(last: Option<LogId>, counter: nat)

  datatype SnapshotMeta = SnapshotMeta(
    lastLogId: Option<LogId>,
    lastMembership: StoredMembership,
    snapshotId: SnapshotId)

  datatype StoredSnapshot = StoredSnapshot(meta: SnapshotMeta, data: Bytes)

  datatype LogRecord = LogRecord(index: U64, entry: Entry)

  const EMPTY_MACHINE := StateMachineData(None, StoredMembership(None, Membership([], map[])), map[])

  /** Lexicographic order of log ids: leader first, then index. */
  predicate LogIdAtMost(a: LogId, b: LogId) {
    a.term < b.term
    || (a.term == b.term && (a.node < b.node || (a.node == b.node && a.index <= b.index)))
  }

  /** It is a total order, in which the term comes first, then the node, then the index. */
  lemma {:induction false} LogIdOrder(a: LogId, b: LogId, c: LogId)
    ensures LogIdAtMost(a, b) || LogIdAtMost(b, a)
    ensures LogIdAtMost(a, b) && LogIdAtMost(b, a) ==> a == b
    ensures LogIdAtMost(a, b) && LogIdAtMost(b, c) ==> LogIdAtMost(a, c)
    ensures a.term < b.term ==> LogIdAtMost(a, b)
    ensures a.term == b.term && a.node < b.node ==> LogIdAtMost(a, b)
    ensures a.term == b.term && a.node == b.node && a.index < b.index ==> LogIdAtMost(a, b)
  {}

  /** One serialisation format for one type (bincode or serde_json). */
  datatype Codec<!T(!new)> = Codec(encode: T -> Bytes, decode: Bytes -> Option<T>) {
    ghost predicate Lawful() {
      forall x: T :: decode(encode(x)) == Some(x)
    }
  }

  datatype Codecs = Codecs(
    vote: Codec<Vote>,
    committed: Codec<Option<LogId>>,
    record: Codec<LogRecord>,
    machine: Codec<StateMachineData>,
    meta: Codec<SnapshotMeta>,
    data: Codec<map<string, string>>)
  {
    ghost predicate Lawful() {
      && vote.Lawful() && committed.Lawful() && record.Lawful()
      && machine.Lawful() && meta.Lawful() && data.Lawful()
    }
  }
}

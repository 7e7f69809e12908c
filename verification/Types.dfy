/** Protocol-level types: configuration, messages, effects, timer events, phases, log
    entries and the per-replica state (crate `raspen-types`). */
module Types {
  datatype Option<+T> = None | Some(value: T)

  type NodeId = string

  newtype Byte = x: int | 0 <= x < 256

  /** A 32-byte digest. */
  type Hash = h: seq<Byte> | |h| == 32 witness seq(32, i => 0)

  const ZERO_HASH: Hash := FilledHash(0)

  /** The array `[k as u8; 32]`: the cast keeps the low eight bits of `k`. */
  function FilledHash(k: nat): Hash {
    seq(32, i => (k % 256) as Byte)
  }

  datatype KvEntry = KvEntry(opHash: nat, result: seq<Byte>, prevHash: Hash)

  /** Static configuration. `entryHash` stands for SHA-256 of an encoded entry; nothing is
      assumed of it unless a lemma says so. */
  datatype Config = Config(n: nat, f: nat, p: nat, nodesOrdered: seq<NodeId>, entryHash: KvEntry -> Hash) {
    function FastQuorum(): int { n - p }

    function ByzQuorum(): int { n - f }

    function FPlus1(): int { f + 1 }

    function Nodes(): set<NodeId> { set x | x in nodesOrdered }

    /** Distinct node names and enough replicas for Byzantine quorums. The protocol's design
        size, `n >= 3f + 2p + 1`, implies it; only fast quorums need more. */
    ghost predicate WellFormed() {
      && n == |nodesOrdered|
      && n >= 3 * f + 1
      && n >= p
      && forall i, j :: 0 <= i < j < n ==> nodesOrdered[i] != nodesOrdered[j]
    }
  }

  datatype Message =
    | Speculate(fromSeq: NodeId, round: nat, opHash: Hash, eta: nat)
    | SpecReply(from: NodeId, round: nat, logIdx: nat, logHash: Hash)
    | Sync(from: NodeId, round: nat, logIdx: nat, logHash: Hash, etaStar: nat)
    | Checkpoint(from: NodeId, round: nat, logIdx: nat, logHash: Hash)
    | StateRequest(from: NodeId, chkptIdx: nat)
    | StateReply(from: NodeId, chkptIdx: nat, chkptHash: Hash)
    | TimeoutMsg(from: NodeId, round: nat, logIdx: nat)
    | TimeoutProof(round: nat, logIdx: nat)
    | ConflictProof(round: nat, logIdx: nat)
    | LogMsg(from: NodeId, view: nat, round: nat, logHash: Hash)
    | RepairHistory(from: NodeId, view: nat, round: nat, historyHash: nat)
    | RepairPrepare(from: NodeId, view: nat, round: nat, historyHash: nat)
    | RepairCommit(from: NodeId, view: nat, round: nat, historyHash: nat)
    | RepairDone(from: NodeId, view: nat, round: nat, historyHash: nat)
    | CommittedReply(from: NodeId, round: nat, logIdx: nat)
  {
    /** Proof messages and sequencer requests name no replica as their author. */
    predicate Authored() {
      !Speculate? && !TimeoutProof? && !ConflictProof?
    }
  }

  datatype Effect = Broadcast(message: Message) | Send(to: NodeId, message: Message)

  datatype Event = SyncTimeout | ChkptTimeout(logIdx: nat) | RepairViewTimeout

  datatype Phase = Speculative | Aligning | CollectingLogs | PreparePhase | CommitPhase

  /** All mutable fields of one replica. `store` is the content of its key-value store. */
  datatype ReplicaState = ReplicaState(
    nodeId: NodeId,
    phase: Phase,
    round: nat,
    view: nat,
    startIdx: nat,
    kvSize: nat,
    store: map<nat, KvEntry>,
    chkptIdx: nat,
    chkptHash: Hash,
    etaStar: nat,
    inRepair: bool,
    proposed: nat,
    syncMsgs: set<Message>,
    chkptMsgs: set<Message>,
    timeoutMsgs: set<Message>,
    logMsgs: set<Message>,
    historyMsgs: set<Message>,
    prepareMsgs: set<Message>,
    commitMsgs: set<Message>,
    doneMsgs: set<Message>)

  /** What one handler call yields: the new state and the effects it returns. */
  datatype Step = Step(st: ReplicaState, out: seq<Effect>)

  predicate RepairPhase(ph: Phase) {
    ph.CollectingLogs? || ph.PreparePhase? || ph.CommitPhase?
  }

  /** Round-robin leadership: `nodesOrdered[view mod n]`. */
  predicate IsLeader(cfg: Config, node: NodeId, view: nat) {
    var n := |cfg.nodesOrdered|;
    n != 0 && cfg.nodesOrdered[view % n] == node
  }

  // Vote sets: the stored messages that a guard's filter keeps.

  function Senders(ms: set<Message>): set<NodeId> {
    set m | m in ms && m.Authored() :: m.from
  }

  function SyncVotes(ms: set<Message>, round: nat, idx: nat): set<Message> {
    set m | m in ms && m.Sync? && m.round == round && m.logIdx == idx
  }

  function MatchingSyncs(ms: set<Message>, round: nat, idx: nat, hash: Hash): set<Message> {
    set m | m in ms && m.Sync? && m.round == round && m.logIdx == idx && m.logHash == hash
  }

  function CheckpointVotes(ms: set<Message>, round: nat, idx: nat): set<Message> {
    set m | m in ms && m.Checkpoint? && m.round == round && m.logIdx == idx
  }

  function TimeoutVotes(ms: set<Message>, round: nat, idx: nat): set<Message> {
    set m | m in ms && m.TimeoutMsg? && m.round == round && m.logIdx == idx
  }

  function LogVotes(ms: set<Message>, view: nat, round: nat): set<Message> {
    set m | m in ms && m.LogMsg? && m.view == view && m.round == round
  }

  function Histories(ms: set<Message>, view: nat, round: nat): set<Message> {
    set m | m in ms && m.RepairHistory? && m.view == view && m.round == round
  }

  function HistoryHashes(ms: set<Message>, view: nat, round: nat): set<nat> {
    set m | m in ms && m.RepairHistory? && m.view == view && m.round == round :: m.historyHash
  }

  function PrepareVotes(ms: set<Message>, view: nat, round: nat, hash: nat): set<Message> {
    set m | m in ms && m.RepairPrepare? && m.view == view && m.round == round && m.historyHash == hash
  }

  function CommitVotes(ms: set<Message>, view: nat, round: nat, hash: nat): set<Message> {
    set m | m in ms && m.RepairCommit? && m.view == view && m.round == round && m.historyHash == hash
  }

  function DoneVotes(ms: set<Message>, view: nat, round: nat): set<Message> {
    set m | m in ms && m.RepairDone? && m.view == view && m.round == round
  }
}

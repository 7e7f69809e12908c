/** When a checkpoint is provably impossible: the specification's condition, which counts
    senders, is exact; the code's guard, which counts messages, is compared with it. */
module ConflictCondition {
  import opened Types
  import opened Counting
  import Storage
  import RepairEntry

  /** `conflict_proof_possible` of the specification, for `m` SYNC senders of which `c` agree. */
  predicate ConflictProofPossible(cfg: Config, m: nat, c: nat) {
    cfg.n - m < cfg.FastQuorum() - c
  }

  /** `all_sync_senders` and `consistent_syncs` of the specification. */
  function SyncSenders(ms: set<Message>, round: nat, idx: nat): set<NodeId> {
    Senders(SyncVotes(ms, round, idx))
  }

  function ConsistentSenders(ms: set<Message>, round: nat, idx: nat, hash: Hash): set<NodeId> {
    Senders(MatchingSyncs(ms, round, idx, hash))
  }

  /** All SYNCs for (round, idx) come from members; a sender may contribute any number. */
  ghost predicate FromMembers(cfg: Config, ms: set<Message>, round: nat, idx: nat) {
    SyncSenders(ms, round, idx) <= cfg.Nodes()
  }

  /** A way the members not yet heard could still SYNC. */
  ghost predicate Completion(cfg: Config, heard: set<Message>, rest: set<Message>, round: nat, idx: nat) {
    && (forall m :: m in rest ==> m.Sync? && m.round == round && m.logIdx == idx)
    && Senders(rest) <= cfg.Nodes() - SyncSenders(heard, round, idx)
  }

  /** Senders that agree, heard and unheard together. */
  lemma MatchingSplit(cfg: Config, heard: set<Message>, rest: set<Message>, round: nat, idx: nat, hash: Hash)
    requires Completion(cfg, heard, rest, round, idx)
    ensures |ConsistentSenders(heard + rest, round, idx, hash)|
            == |ConsistentSenders(heard, round, idx, hash)| + |ConsistentSenders(rest, round, idx, hash)|
    ensures ConsistentSenders(rest, round, idx, hash) <= cfg.Nodes() - SyncSenders(heard, round, idx)
  {
    var a, b := MatchingSyncs(heard, round, idx, hash), MatchingSyncs(rest, round, idx, hash);
    assert MatchingSyncs(heard + rest, round, idx, hash) == a + b;
    assert Senders(a + b) == Senders(a) + Senders(b);
    assert Senders(a) <= SyncSenders(heard, round, idx) && Senders(b) <= Senders(rest);
  }

  lemma SilentCount(cfg: Config, heard: set<Message>, round: nat, idx: nat)
    requires cfg.WellFormed() && FromMembers(cfg, heard, round, idx)
    ensures |cfg.Nodes() - SyncSenders(heard, round, idx)| == cfg.n - |SyncSenders(heard, round, idx)|
  {
    NodeCount(cfg);
  }

  /** All of `nodes` SYNC `hash`. */
  function Unanimous(nodes: set<NodeId>, round: nat, idx: nat, hash: Hash): set<Message> {
    set q | q in nodes :: Sync(q, round, idx, hash, 0)
  }

  lemma UnanimousSenders(nodes: set<NodeId>, round: nat, idx: nat, hash: Hash)
    ensures Senders(Unanimous(nodes, round, idx, hash)) == nodes
    ensures MatchingSyncs(Unanimous(nodes, round, idx, hash), round, idx, hash) == Unanimous(nodes, round, idx, hash)
  {
    var ms := Unanimous(nodes, round, idx, hash);
    forall q | q in nodes ensures q in Senders(ms) {
      assert Sync(q, round, idx, hash, 0) in ms;
    }
  }

  /** The members not yet heard SYNCing `rest` brings `hash` to the fast quorum. */
  ghost predicate Completes(cfg: Config, heard: set<Message>, rest: set<Message>, round: nat, idx: nat, hash: Hash) {
    && Completion(cfg, heard, rest, round, idx)
    && |ConsistentSenders(heard + rest, round, idx, hash)| >= cfg.FastQuorum()
  }

  /** Some way for them to SYNC does so. */
  ghost predicate Completable(cfg: Config, heard: set<Message>, round: nat, idx: nat, hash: Hash) {
    exists rest :: Completes(cfg, heard, rest, round, idx, hash)
  }

  /** For any SYNCs heard, repeated or not: the specified condition holds exactly when no way
      for the members not yet heard to SYNC brings `hash` to `n - p` distinct senders. */
  lemma SpecifiedConditionIsExact(cfg: Config, heard: set<Message>, round: nat, idx: nat, hash: Hash)
    requires cfg.WellFormed() && FromMembers(cfg, heard, round, idx)
    ensures ConflictProofPossible(cfg, |SyncSenders(heard, round, idx)|, |ConsistentSenders(heard, round, idx, hash)|)
            <==> !Completable(cfg, heard, round, idx, hash)
  {
    var silent := cfg.Nodes() - SyncSenders(heard, round, idx);
    SilentCount(cfg, heard, round, idx);
    forall rest | Completes(cfg, heard, rest, round, idx, hash)
      ensures |ConsistentSenders(heard, round, idx, hash)| + |silent| >= cfg.FastQuorum()
    {
      MatchingSplit(cfg, heard, rest, round, idx, hash);
      SubsetCard(ConsistentSenders(rest, round, idx, hash), silent);
    }
    var all := Unanimous(silent, round, idx, hash);
    UnanimousSenders(silent, round, idx, hash);
    MatchingSplit(cfg, heard, all, round, idx, hash);
    assert |ConsistentSenders(heard, round, idx, hash)| + |silent| >= cfg.FastQuorum() ==>
        Completes(cfg, heard, all, round, idx, hash);
  }

  /** How many senders heard have SYNCed, but never `hash`. */
  function Dissent(heard: set<Message>, round: nat, idx: nat, hash: Hash): int {
    |SyncSenders(heard, round, idx)| - |ConsistentSenders(heard, round, idx, hash)|
  }

  /** The checkpoint is out of reach exactly if more than `p` senders dissent. */
  lemma DissentVersusReach(cfg: Config, heard: set<Message>, round: nat, idx: nat, hash: Hash)
    requires cfg.WellFormed() && FromMembers(cfg, heard, round, idx)
    ensures !Completable(cfg, heard, round, idx, hash) <==> Dissent(heard, round, idx, hash) > cfg.p
    ensures !Completable(cfg, heard, round, idx, hash) ==>
              |ConsistentSenders(heard, round, idx, hash)| < cfg.FastQuorum()
  {
    SpecifiedConditionIsExact(cfg, heard, round, idx, hash);
    SubsetCard(SyncSenders(heard, round, idx), cfg.Nodes());
    NodeCount(cfg);
  }

  /** Some sender contributed two different messages. */
  ghost predicate Repeats(ms: set<Message>) {
    exists a, b :: a in ms && b in ms && a.Authored() && b.Authored() && a.from == b.from && a != b
  }

  lemma RepeatsOrCounts(ms: set<Message>)
    requires forall m :: m in ms ==> m.Authored()
    ensures Repeats(ms) <==> |ms| > |Senders(ms)|
  {
    SendersVersusMessages(ms);
  }

  /** The two numbers the code's guard compares. */
  ghost predicate GuardInNumbers(cfg: Config, heard: set<Message>, round: nat, idx: nat, hash: Hash) {
    |SyncVotes(heard, round, idx)| >= cfg.ByzQuorum() && |MatchingSyncs(heard, round, idx, hash)| < cfg.FastQuorum()
  }

  /** The guard against what it is meant to detect, for any SYNCs stored:
      - when it fires, the checkpoint is out of reach exactly if more than `p` senders dissent;
      - once `n - f` senders are heard and the checkpoint is out of reach, it fires exactly if
        fewer than `n - p` messages match, and stays silent only if matching SYNCs repeat;
      - it fires before `n - f` senders are heard only if SYNCs repeat. */
  lemma GuardVersusReach(cfg: Config, heard: set<Message>, round: nat, idx: nat, hash: Hash)
    requires cfg.WellFormed() && FromMembers(cfg, heard, round, idx)
    ensures GuardInNumbers(cfg, heard, round, idx, hash) ==>
              (!Completable(cfg, heard, round, idx, hash) <==> Dissent(heard, round, idx, hash) > cfg.p)
    ensures |SyncSenders(heard, round, idx)| >= cfg.ByzQuorum() && !Completable(cfg, heard, round, idx, hash) ==>
              && (GuardInNumbers(cfg, heard, round, idx, hash)
                  <==> |MatchingSyncs(heard, round, idx, hash)| < cfg.FastQuorum())
              && (GuardInNumbers(cfg, heard, round, idx, hash) || Repeats(MatchingSyncs(heard, round, idx, hash)))
    ensures GuardInNumbers(cfg, heard, round, idx, hash) && |SyncSenders(heard, round, idx)| < cfg.ByzQuorum() ==>
              Repeats(SyncVotes(heard, round, idx))
  {
    DissentVersusReach(cfg, heard, round, idx, hash);
    RepeatsOrCounts(SyncVotes(heard, round, idx));
    RepeatsOrCounts(MatchingSyncs(heard, round, idx, hash));
    SendersVersusMessages(SyncVotes(heard, round, idx));
  }

  /** The same on a replica: its guard, its stored SYNCs, its log top. */
  lemma GuardVersusSpecification(cfg: Config, st: ReplicaState, idx: nat, hash: Hash)
    requires cfg.WellFormed() && st.phase.Speculative? && !st.inRepair
    requires st.kvSize == idx + 1 && hash == Storage.TopHashOf(st.store)
    requires FromMembers(cfg, st.syncMsgs, st.round, idx)
    ensures var fires := RepairEntry.CanConflictProof(cfg, st).Some?;
            var outOfReach := !Completable(cfg, st.syncMsgs, st.round, idx, hash);
            var matching := MatchingSyncs(st.syncMsgs, st.round, idx, hash);
            var heard := |SyncSenders(st.syncMsgs, st.round, idx)|;
            && (fires ==> (outOfReach <==> Dissent(st.syncMsgs, st.round, idx, hash) > cfg.p))
            && (outOfReach && heard >= cfg.ByzQuorum() ==>
                  && (fires <==> |matching| < cfg.FastQuorum()) && (fires || Repeats(matching)))
            && (fires && heard < cfg.ByzQuorum() ==> Repeats(SyncVotes(st.syncMsgs, st.round, idx)))
  {
    GuardVersusReach(cfg, st.syncMsgs, st.round, idx, hash);
    assert RepairEntry.CanConflictProof(cfg, st).Some? <==> GuardInNumbers(cfg, st.syncMsgs, st.round, idx, hash);
  }
}

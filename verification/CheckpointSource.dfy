/** Where the checkpoint a replica stores, and hands out in STATE-REPLYs, comes from. */
module CheckpointSource {
  import opened Types
  import opened Dispatch
  import opened Justification
  import opened CanonicalLog
  import opened Cluster
  import Storage
  import Counting

  /** (idx, hash) is the initial checkpoint, one the replica announced, or one it adopted by
      completing an alignment: a STATE-REPLY it received carried the index. */
  ghost predicate Sourced(cfg: Config, t: Trail, received: set<Message>, idx: nat, hash: Hash) {
    || (idx == 0 && hash == ZERO_HASH)
    || (exists round :: Checkpoint(t.st.nodeId, round, idx, hash) in Emitted(t.out))
    || (t.aligned != {} && hash == cfg.entryHash(Storage.Synthetic(idx)) &&
        exists from, h :: StateReply(from, idx, h) in received)
  }

  ghost predicate SourceInv(cfg: Config, t: Trail, received: set<Message>) {
    && Sourced(cfg, t, received, t.st.chkptIdx, t.st.chkptHash)
    && forall m :: m in Emitted(t.out) && m.StateReply? ==> Sourced(cfg, t, received, m.chkptIdx, m.chkptHash)
  }

  lemma SourcedGrows(cfg: Config, s: Trail, t: Trail, a: set<Message>, b: set<Message>, idx: nat, hash: Hash)
    requires Sourced(cfg, s, a, idx, hash) && s.st.nodeId == t.st.nodeId
    requires Emitted(s.out) <= Emitted(t.out) && s.aligned <= t.aligned && a <= b
    ensures Sourced(cfg, t, b, idx, hash)
  {
    if round :| Checkpoint(s.st.nodeId, round, idx, hash) in Emitted(s.out) {
      assert Checkpoint(t.st.nodeId, round, idx, hash) in Emitted(t.out);
    } else if from, h :| StateReply(from, idx, h) in a {
      assert StateReply(from, idx, h) in b;
    }
  }

  /** What one handler does to the checkpoint: it keeps it, announces it, or adopts it with the
      index that the delivered STATE-REPLY carries; and a STATE-REPLY carries it as it is. */
  lemma CallSources(cfg: Config, st: ReplicaState, call: Call)
    ensures var s := Run(cfg, st, call);
            && s.st.nodeId == st.nodeId
            && (|| (s.st.chkptIdx == st.chkptIdx && s.st.chkptHash == st.chkptHash)
                || s.out == [Broadcast(Checkpoint(st.nodeId, st.round, s.st.chkptIdx, s.st.chkptHash))]
                || (&& call.AdoptingState? && Rebased(cfg, st, call)
                    && call.msg.StateReply? && s.st.chkptIdx == call.msg.chkptIdx
                    && s.st.chkptHash == cfg.entryHash(Storage.Synthetic(s.st.chkptIdx))))
            && forall e :: e in s.out && e.message.StateReply? ==>
                 e.message.chkptIdx == st.chkptIdx && e.message.chkptHash == st.chkptHash
  {
  }

  /** The checkpoint after a handler has a source. */
  lemma NewCheckpointSourced(cfg: Config, t: Trail, call: Call, received: set<Message>)
    requires Sourced(cfg, t, received, t.st.chkptIdx, t.st.chkptHash) && Given(call) <= received
    ensures var after := Advance(cfg, t, call);
            Sourced(cfg, after, received, after.st.chkptIdx, after.st.chkptHash)
  {
    var s, after := Run(cfg, t.st, call), Advance(cfg, t, call);
    CallSources(cfg, t.st, call);
    EmittedConcat(t.out, s.out);
    if s.st.chkptIdx == t.st.chkptIdx && s.st.chkptHash == t.st.chkptHash {
      SourcedGrows(cfg, t, after, received, received, t.st.chkptIdx, t.st.chkptHash);
    } else if call.AdoptingState? && Rebased(cfg, t.st, call) {
      assert call.msg == StateReply(call.msg.from, after.st.chkptIdx, call.msg.chkptHash) && call.msg in received;
    } else {
      assert s.out[0].message in Emitted(s.out);
    }
  }

  lemma AdvanceSources(cfg: Config, t: Trail, call: Call, received: set<Message>)
    requires SourceInv(cfg, t, received) && Given(call) <= received
    ensures SourceInv(cfg, Advance(cfg, t, call), received)
  {
    var s, after := Run(cfg, t.st, call), Advance(cfg, t, call);
    CallSources(cfg, t.st, call);
    EmittedConcat(t.out, s.out);
    NewCheckpointSourced(cfg, t, call, received);
    forall m | m in Emitted(after.out) && m.StateReply?
      ensures Sourced(cfg, after, received, m.chkptIdx, m.chkptHash)
    {
      SourcedGrows(cfg, t, after, received, received, m.chkptIdx, m.chkptHash);
    }
  }

  lemma {:induction false} RunAllSources(cfg: Config, t: Trail, calls: seq<Call>, received: set<Message>)
    requires SourceInv(cfg, t, received) && forall c :: c in calls ==> Given(c) <= received
    ensures SourceInv(cfg, RunAll(cfg, t, calls), received)
  {
    if calls != [] {
      RunAllSources(cfg, t, calls[..|calls| - 1], received);
      AdvanceSources(cfg, RunAll(cfg, t, calls[..|calls| - 1]), calls[|calls| - 1], received);
    }
  }

  /** All messages delivered to `q` in a run. */
  ghost function Received(sys: System, run: seq<Action>, q: NodeId): set<Message> {
    if run == [] then {}
    else
      var front, a := run[..|run| - 1], run[|run| - 1];
      Received(sys, front, q) +
      if a.Process? && a.node == q && a.input.Deliver? && Enabled(sys, After(sys, front), a) then {a.input.msg} else {}
  }

  lemma SourceInvGrows(cfg: Config, t: Trail, a: set<Message>, b: set<Message>)
    requires SourceInv(cfg, t, a) && a <= b
    ensures SourceInv(cfg, t, b)
  {
    SourcedGrows(cfg, t, t, a, b, t.st.chkptIdx, t.st.chkptHash);
    forall m | m in Emitted(t.out) && m.StateReply? ensures Sourced(cfg, t, b, m.chkptIdx, m.chkptHash) {
      SourcedGrows(cfg, t, t, a, b, m.chkptIdx, m.chkptHash);
    }
  }

  /** One action of the cluster. */
  lemma ActionSources(sys: System, s: State, a: Action, q: NodeId, heard: set<Message>, received: set<Message>)
    requires q in s.replicas && SourceInv(sys.cfg, s.replicas[q], heard) && heard <= received
    requires a.Process? && a.node == q && a.input.Deliver? && Enabled(sys, s, a) ==> a.input.msg in received
    ensures q in Apply(sys, s, a).replicas && SourceInv(sys.cfg, Apply(sys, s, a).replicas[q], received)
  {
    SourceInvGrows(sys.cfg, s.replicas[q], heard, received);
    if a.Process? && a.node == q && Enabled(sys, s, a) {
      RunAllSources(sys.cfg, s.replicas[q], Program(a.input), received);
    }
  }

  lemma {:induction false} SameReplicas(sys: System, run: seq<Action>)
    ensures After(sys, run).replicas.Keys == sys.Correct()
  {
    if run != [] {
      SameReplicas(sys, run[..|run| - 1]);
    }
  }

  /** In every run, every correct replica's checkpoint has such a source. */
  lemma {:induction false} AlwaysSourced(sys: System, run: seq<Action>, q: NodeId)
    requires q in After(sys, run).replicas
    ensures SourceInv(sys.cfg, After(sys, run).replicas[q], Received(sys, run, q))
  {
    if run != [] {
      var front, a := run[..|run| - 1], run[|run| - 1];
      SameReplicas(sys, run);
      SameReplicas(sys, front);
      AlwaysSourced(sys, front, q);
      ActionSources(sys, After(sys, front), a, q, Received(sys, front, q), Received(sys, run, q));
    }
  }

  lemma {:induction false} SentGrows(sys: System, run: seq<Action>, i: nat)
    requires i <= |run|
    ensures After(sys, run[..i]).sent <= After(sys, run).sent
  {
    if i < |run| {
      SentGrows(sys, run[..|run| - 1], i);
      assert run[..|run| - 1][..i] == run[..i];
    } else {
      assert run[..i] == run;
    }
  }

  /** What a replica received had been sent before. */
  lemma {:induction false} ReceivedEarlier(sys: System, run: seq<Action>, q: NodeId, m: Message) returns (i: nat)
    requires m in Received(sys, run, q)
    ensures i < |run| && m in After(sys, run[..i]).sent
  {
    var front := run[..|run| - 1];
    if m in Received(sys, front, q) {
      i := ReceivedEarlier(sys, front, q, m);
      assert front[..i] == run[..i];
    } else {
      i := |run| - 1;
    }
  }

  /** Where a checkpoint index may come from: genesis, a fast quorum of SYNCs, or a Byzantine
      STATE-REPLY. */
  ghost predicate Origin(sys: System, sent: set<Message>, idx: nat) {
    || idx == 0
    || (exists round, hash :: |MatchingSyncs(sent, round, idx, hash)| >= sys.cfg.FastQuorum())
    || (exists byz, hash :: byz in sys.faulty && StateReply(byz, idx, hash) in sent)
  }

  lemma OriginGrows(sys: System, a: set<Message>, b: set<Message>, idx: nat)
    requires Origin(sys, a, idx) && a <= b
    ensures Origin(sys, b, idx)
  {
    if round, hash :| |MatchingSyncs(a, round, idx, hash)| >= sys.cfg.FastQuorum() {
      Counting.SubsetCard(MatchingSyncs(a, round, idx, hash), MatchingSyncs(b, round, idx, hash));
    } else if byz, hash :| byz in sys.faulty && StateReply(byz, idx, hash) in a {
      assert StateReply(byz, idx, hash) in b;
    }
  }

  /** A sourced checkpoint has an origin once all replies received have. */
  lemma SourceHasOrigin(sys: System, run: seq<Action>, q: NodeId, idx: nat, hash: Hash)
    requires sys.WellFormed() && q in After(sys, run).replicas
    requires Sourced(sys.cfg, After(sys, run).replicas[q], Received(sys, run, q), idx, hash)
    requires forall m :: m in Received(sys, run, q) && m.StateReply? ==> Origin(sys, After(sys, run).sent, m.chkptIdx)
    ensures Origin(sys, After(sys, run).sent, idx)
  {
    var s := After(sys, run);
    AlwaysInv(sys, run);
    var t := s.replicas[q];
    if round :| Checkpoint(t.st.nodeId, round, idx, hash) in Emitted(t.out) {
      assert Backed(sys.cfg, s.sent, Checkpoint(t.st.nodeId, round, idx, hash));
    } else if from, h :| StateReply(from, idx, h) in Received(sys, run, q) {
      assert Origin(sys, s.sent, StateReply(from, idx, h).chkptIdx);
    }
  }

  /** In every run, the index of every STATE-REPLY goes back to genesis, to a fast quorum of
      SYNCs, or to a Byzantine sender, through any number of alignments in between. */
  lemma {:induction false} RepliedIndexOrigin(sys: System, run: seq<Action>, m: Message)
    requires sys.WellFormed() && m in After(sys, run).sent && m.StateReply?
    ensures Origin(sys, After(sys, run).sent, m.chkptIdx)
    decreases |run|, 1
  {
    var s := After(sys, run);
    AlwaysInv(sys, run);
    if m.from !in sys.faulty {
      AlwaysSourced(sys, run, m.from);
      ReceivedOrigins(sys, run, m.from);
      SourceHasOrigin(sys, run, m.from, m.chkptIdx, m.chkptHash);
    } else {
      assert m == StateReply(m.from, m.chkptIdx, m.chkptHash);
    }
  }

  lemma {:induction false} ReceivedOrigins(sys: System, run: seq<Action>, q: NodeId)
    requires sys.WellFormed()
    ensures forall m :: m in Received(sys, run, q) && m.StateReply? ==> Origin(sys, After(sys, run).sent, m.chkptIdx)
    decreases |run|, 0
  {
    forall m | m in Received(sys, run, q) && m.StateReply? ensures Origin(sys, After(sys, run).sent, m.chkptIdx) {
      var i := ReceivedEarlier(sys, run, q, m);
      RepliedIndexOrigin(sys, run[..i], m);
      SentGrows(sys, run, i);
      OriginGrows(sys, After(sys, run[..i]).sent, After(sys, run).sent, m.chkptIdx);
    }
  }

  /** So does the checkpoint index that a correct replica stores. */
  lemma CheckpointIndexOrigin(sys: System, run: seq<Action>, q: NodeId)
    requires sys.WellFormed() && q in After(sys, run).replicas
    ensures Origin(sys, After(sys, run).sent, After(sys, run).replicas[q].st.chkptIdx)
  {
    AlwaysSourced(sys, run, q);
    ReceivedOrigins(sys, run, q);
    var st := After(sys, run).replicas[q].st;
    SourceHasOrigin(sys, run, q, st.chkptIdx, st.chkptHash);
  }
}

/** What a replica's replies to clients say, over its whole life. */
module ReplyHistory {
  import opened Types
  import opened Dispatch
  import opened Voting
  import opened CanonicalLog
  import opened Cluster
  import opened Agreement
  import FastPath
  import Storage

  /** Entry `k` of the log that is placeholders below `base` and chained from there on. */
  function EntryOn(cfg: Config, base: nat, k: nat): KvEntry {
    if k < base then Storage.Synthetic(k)
    else KvEntry(k, [], if k == 0 then ZERO_HASH else cfg.entryHash(EntryOn(cfg, base, k - 1)))
  }

  /** Such logs are the canonical ones. */
  lemma {:induction false} CanonicalEntry(cfg: Config, store: map<nat, KvEntry>, size: nat, base: nat, k: nat)
    requires Canonical(cfg, store, size, base) && k < size
    ensures store[k] == EntryOn(cfg, base, k)
  {
    if k > 0 {
      CanonicalEntry(cfg, store, size, base, k - 1);
    }
  }

  /** `base` is where the replica's log of the round starts: at genesis in round 0, at the
      applied history after a repair. */
  ghost predicate BaseOf(out: seq<Effect>, round: nat, base: nat) {
    && (round == 0 ==> base == 0)
    && forall m :: m in Emitted(out) && m.RepairDone? && m.round + 1 == round ==> base == m.historyHash
  }

  /** The reply is the hash of its entry in the log of its round. */
  ghost predicate Faithful(cfg: Config, out: seq<Effect>, m: Message)
    requires m.SpecReply?
  {
    exists base :: BaseOf(out, m.round, base) && m.logHash == cfg.entryHash(EntryOn(cfg, base, m.logIdx))
  }

  ghost predicate LifelongReplies(cfg: Config, t: Trail) {
    forall m :: m in Emitted(t.out) && m.SpecReply? && m.round !in t.aligned ==> Faithful(cfg, t.out, m)
  }

  ghost predicate GenesisInv(t: Trail) {
    t.st.round == 0 && 0 !in t.aligned ==> t.base == 0
  }

  /** What the proof needs to know about a replica. */
  ghost predicate ReplyInv(cfg: Config, t: Trail) {
    && VotingInv(t) && LogInv(cfg, t) && BaseInv(t) && RepliesTruthful(cfg, t)
    && GenesisInv(t) && LifelongReplies(cfg, t)
  }

  /** Handlers other than the fast path send no replies, and REPAIR-DONEs name the round being
      left. */
  lemma FastCallReplies(cfg: Config, st: ReplicaState, call: Call)
    requires !Quiet(call) && !call.Speculating?
    ensures forall e :: e in Run(cfg, st, call).out ==>
              !e.message.SpecReply? && (e.message.RepairDone? ==> e.message.round == st.round)
  {
  }

  lemma OtherCallReplies(cfg: Config, st: ReplicaState, call: Call)
    requires !call.Speculating?
    ensures forall e :: e in Run(cfg, st, call).out ==>
              !e.message.SpecReply? && (e.message.RepairDone? ==> e.message.round == st.round)
  {
    if Quiet(call) {
      QuietCalls(cfg, st, call);
    } else {
      FastCallReplies(cfg, st, call);
    }
  }

  /** A reply stays faithful while REPAIR-DONEs of later rounds are sent. */
  lemma FaithfulLater(cfg: Config, out: seq<Effect>, more: seq<Effect>, m: Message, round: nat)
    requires m.SpecReply? && m.round <= round && Faithful(cfg, out, m)
    requires forall e :: e in more && e.message.RepairDone? ==> e.message.round == round
    ensures Faithful(cfg, out + more, m)
  {
    EmittedConcat(out, more);
    var base :| BaseOf(out, m.round, base) && m.logHash == cfg.entryHash(EntryOn(cfg, base, m.logIdx));
    assert BaseOf(out + more, m.round, base);
  }

  lemma SpeculationReplies(cfg: Config, t: Trail, msg: Message)
    requires ReplyInv(cfg, t)
    ensures LifelongReplies(cfg, Advance(cfg, t, Speculating(msg)))
  {
    var s, after := Run(cfg, t.st, Speculating(msg)), Advance(cfg, t, Speculating(msg));
    EmittedConcat(t.out, s.out);
    forall m | m in Emitted(after.out) && m.SpecReply? && m.round !in after.aligned
      ensures Faithful(cfg, after.out, m)
    {
      if m in Emitted(t.out) {
        FaithfulLater(cfg, t.out, s.out, m, t.st.round);
      } else {
        SpeculatedEntry(cfg, t, m);
        assert BaseOf(after.out, m.round, t.base);
      }
    }
  }

  lemma SpeculatedEntry(cfg: Config, t: Trail, m: Message)
    requires LogInv(cfg, t) && m in Emitted(FastPath.Speculation(cfg, t.st, t.st.kvSize).out)
    ensures m.SpecReply? && m.round == t.st.round
    ensures m.logHash == cfg.entryHash(EntryOn(cfg, t.base, m.logIdx))
  {
    AppendIsCanonical(cfg, t.st.store, t.st.kvSize, t.base);
    var after := FastPath.Speculation(cfg, t.st, t.st.kvSize).st;
    CanonicalEntry(cfg, after.store, after.kvSize, t.base, t.st.kvSize);
  }

  lemma AdvanceLifelong(cfg: Config, t: Trail, call: Call)
    requires ReplyInv(cfg, t)
    ensures LifelongReplies(cfg, Advance(cfg, t, call))
  {
    if call.Speculating? {
      SpeculationReplies(cfg, t, call.msg);
    } else {
      var s, after := Run(cfg, t.st, call), Advance(cfg, t, call);
      OtherCallReplies(cfg, t.st, call);
      EmittedConcat(t.out, s.out);
      forall m | m in Emitted(after.out) && m.SpecReply? && m.round !in after.aligned
        ensures Faithful(cfg, after.out, m)
      {
        FaithfulLater(cfg, t.out, s.out, m, t.st.round);
      }
    }
  }

  lemma AdvanceGenesis(cfg: Config, t: Trail, call: Call)
    requires GenesisInv(t)
    ensures GenesisInv(Advance(cfg, t, call))
  {
    if Quiet(call) {
      QuietCalls(cfg, t.st, call);
    }
  }

  lemma {:induction false} RunAllReplies(cfg: Config, t: Trail, calls: seq<Call>)
    requires ReplyInv(cfg, t)
    ensures ReplyInv(cfg, RunAll(cfg, t, calls))
  {
    if calls != [] {
      var mid, last := RunAll(cfg, t, calls[..|calls| - 1]), calls[|calls| - 1];
      RunAllReplies(cfg, t, calls[..|calls| - 1]);
      AdvanceVotes(cfg, mid, last);
      AdvanceLog(cfg, mid, last);
      AdvanceBase(cfg, mid, last);
      AdvanceReplies(cfg, mid, last);
      AdvanceGenesis(cfg, mid, last);
      AdvanceLifelong(cfg, mid, last);
    }
  }

  /** In every run, every reply a correct replica ever sent, except in rounds in which it
      aligned, is the hash of its entry in the log of that round. */
  lemma {:induction false} RepliesAreFaithful(sys: System, run: seq<Action>, q: NodeId)
    requires q in After(sys, run).replicas
    ensures ReplyInv(sys.cfg, After(sys, run).replicas[q])
  {
    if run == [] {
      assert Storage.Dense(map[]) by { Storage.SizeIs(map[], 0); }
    } else {
      var front, a := run[..|run| - 1], run[|run| - 1];
      SameReplica(sys, front, a, q);
      RepliesAreFaithful(sys, front, q);
      if a.Process? && a.node == q && Enabled(sys, After(sys, front), a) {
        RunAllReplies(sys.cfg, After(sys, front).replicas[q], Program(a.input));
      }
    }
  }

  lemma SameReplica(sys: System, run: seq<Action>, a: Action, q: NodeId)
    requires q in Apply(sys, After(sys, run), a).replicas
    ensures q in After(sys, run).replicas
  {
  }

  /** The base of a round that starts at genesis or that the replica entered by applying
      repair. */
  lemma BaseKnown(sys: System, run: seq<Action>, m: Message) returns (base: nat)
    requires sys.WellFormed() && m in After(sys, run).sent && m.SpecReply? && m.from !in sys.faulty
    requires m.from in After(sys, run).replicas && m.round !in After(sys, run).replicas[m.from].aligned
    ensures m.logHash == sys.cfg.entryHash(EntryOn(sys.cfg, base, m.logIdx))
    ensures m.round == 0 ==> base == 0
    ensures forall d :: d in After(sys, run).sent && d.RepairDone? && d.from == m.from && d.round + 1 == m.round ==>
                          base == d.historyHash
  {
    var s := After(sys, run);
    AlwaysInv(sys, run);
    RepliesAreFaithful(sys, run, m.from);
    CorrectAuthor(sys, s, m);
    base :| BaseOf(s.replicas[m.from].out, m.round, base) &&
            m.logHash == sys.cfg.entryHash(EntryOn(sys.cfg, base, m.logIdx));
    forall d | d in s.sent && d.RepairDone? && d.from == m.from && d.round + 1 == m.round
      ensures base == d.historyHash
    {
      CorrectAuthor(sys, s, d);
    }
  }

  /** The replica started the round at genesis, or by applying repair in the previous one. */
  ghost predicate StartedKnown(sent: set<Message>, q: NodeId, round: nat) {
    round == 0 || exists m :: m in sent && m.RepairDone? && m.from == q && m.round + 1 == round
  }

  /** In every run: replies of correct replicas for the same round and index carry the same
      hash, however long ago they were sent, if the senders started the round at genesis or by
      applying repair and did not align in it. */
  lemma RepliesAgree(sys: System, run: seq<Action>, a: Message, b: Message)
    requires sys.WellFormed()
    requires a in After(sys, run).sent && a.SpecReply? && a.from in After(sys, run).replicas && a.from !in sys.faulty
    requires b in After(sys, run).sent && b.SpecReply? && b.from in After(sys, run).replicas && b.from !in sys.faulty
    requires a.round == b.round && a.logIdx == b.logIdx
    requires a.round !in After(sys, run).replicas[a.from].aligned
    requires b.round !in After(sys, run).replicas[b.from].aligned
    requires StartedKnown(After(sys, run).sent, a.from, a.round) && StartedKnown(After(sys, run).sent, b.from, b.round)
    ensures a.logHash == b.logHash
  {
    var sent := After(sys, run).sent;
    var x := BaseKnown(sys, run, a);
    var y := BaseKnown(sys, run, b);
    if a.round > 0 {
      var c :| c in sent && c.RepairDone? && c.from == a.from && c.round + 1 == a.round;
      var d :| d in sent && d.RepairDone? && d.from == b.from && d.round + 1 == b.round;
      RoundAgreement(sys, run, c, d);
    }
  }
}

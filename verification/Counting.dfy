/** Counting messages against counting their senders, and quorum intersection. */
module Counting {
  import opened Types

  lemma SubsetCard<T>(a: set<T>, b: set<T>)
    requires a <= b
    ensures |a| <= |b|
  {
    if a != {} {
      var x :| x in a;
      SubsetCard(a - {x}, b - {x});
    }
  }

  /** No sender authored two of the messages. */
  ghost predicate OnePerSender(ms: set<Message>) {
    forall a, b :: a in ms && b in ms && a.Authored() && b.Authored() && a.from == b.from ==> a == b
  }

  /** There are never more senders than messages, and equally many exactly when no sender
      contributed two. */
  lemma {:induction false} SendersVersusMessages(ms: set<Message>)
    requires forall m :: m in ms ==> m.Authored()
    ensures |Senders(ms)| <= |ms|
    ensures |Senders(ms)| == |ms| <==> OnePerSender(ms)
    decreases |ms|
  {
    if ms != {} {
      var m :| m in ms;
      var rest := ms - {m};
      SendersVersusMessages(rest);
      assert ms == rest + {m};
      if m.from in Senders(rest) {
        assert Senders(ms) == Senders(rest);
      } else {
        assert Senders(ms) == Senders(rest) + {m.from};
      }
    }
  }

  /** PREPARE, COMMIT and TIMEOUT votes are matched on every field but the sender, so the
      messages a guard counts are exactly as many as the senders the specification counts. */
  lemma VotesAreSenders(ms: set<Message>, view: nat, round: nat, hash: nat, idx: nat)
    ensures |PrepareVotes(ms, view, round, hash)| == |Senders(PrepareVotes(ms, view, round, hash))|
    ensures |CommitVotes(ms, view, round, hash)| == |Senders(CommitVotes(ms, view, round, hash))|
    ensures |TimeoutVotes(ms, round, idx)| == |Senders(TimeoutVotes(ms, round, idx))|
  {
    SendersVersusMessages(PrepareVotes(ms, view, round, hash));
    SendersVersusMessages(CommitVotes(ms, view, round, hash));
    SendersVersusMessages(TimeoutVotes(ms, round, idx));
  }

  lemma DistinctSeqCard<T>(xs: seq<T>)
    requires forall i, j :: 0 <= i < j < |xs| ==> xs[i] != xs[j]
    ensures |set x | x in xs| == |xs|
  {
    if xs != [] {
      var front := xs[..|xs| - 1];
      DistinctSeqCard(front);
      assert (set x | x in xs) == (set x | x in front) + {xs[|xs| - 1]};
    }
  }

  lemma NodeCount(cfg: Config)
    requires cfg.WellFormed()
    ensures |cfg.Nodes()| == cfg.n
  {
    DistinctSeqCard(cfg.nodesOrdered);
  }

  /** Two groups whose sizes exceed `n + f` together share a member outside any `f` nodes. */
  lemma QuorumsMeet(nodes: set<NodeId>, faulty: set<NodeId>, a: set<NodeId>, b: set<NodeId>) returns (q: NodeId)
    requires a <= nodes && b <= nodes
    requires |a| + |b| > |nodes| + |faulty|
    ensures q in a && q in b && q !in faulty
  {
    assert |a + b| + |a * b| == |a| + |b|;
    SubsetCard(a + b, nodes);
    if a * b <= faulty {
      SubsetCard(a * b, faulty);
    }
    q :| q in a * b && q !in faulty;
  }

  lemma CorrectMember(faulty: set<NodeId>, a: set<NodeId>) returns (q: NodeId)
    requires |a| > |faulty|
    ensures q in a && q !in faulty
  {
    if a <= faulty {
      SubsetCard(a, faulty);
    }
    q :| q in a && q !in faulty;
  }

  /** A group certainly has a correct member, whichever up to `f` nodes are faulty, exactly if
      it has more than `f` members. */
  lemma CorrectForSure(group: set<NodeId>, f: nat)
    ensures (forall faulty: set<NodeId> :: |faulty| <= f ==> group - faulty != {}) <==> |group| > f
  {
    if |group| > f {
      forall faulty: set<NodeId> | |faulty| <= f ensures group - faulty != {} {
        var q := CorrectMember(faulty, group);
        assert q in group - faulty;
      }
    } else {
      assert group - group == {};
    }
  }

  /** Leadership rotates: in any `n` consecutive views every member leads exactly once. */
  lemma LeadersRotate(cfg: Config, view: nat, q: NodeId) returns (turn: nat)
    requires cfg.WellFormed() && q in cfg.Nodes()
    ensures view <= turn < view + cfg.n
    ensures forall v: nat :: view <= v < view + cfg.n ==> (IsLeader(cfg, q, v) <==> v == turn)
  {
    var n := cfg.n;
    var i :| 0 <= i < n && cfg.nodesOrdered[i] == q;
    var start := view % n;
    turn := if i >= start then view + (i - start) else view + (i + n - start);
    forall v: nat | view <= v < view + n ensures v % n == i <==> v == turn {
      ViewSlot(n, view, v - view);
    }
  }

  /** The slot of a view `d < n` steps ahead. */
  lemma ViewSlot(n: nat, view: nat, d: nat)
    requires d < n
    ensures (view + d) % n == if view % n + d < n then view % n + d else view % n + d - n
  {
    var slot: int := (view + d) % n;
    var turns: int := (view + d) / n - view / n;
    assert n * turns == view % n + d - slot;
    MultipleBounds(n, turns);
  }

  lemma MultipleBounds(n: int, t: int)
    requires n >= 0
    ensures t >= 2 ==> n * t >= 2 * n
    ensures t <= -1 ==> n * t <= -n
    ensures t == 0 ==> n * t == 0
    ensures t == 1 ==> n * t == n
  {
    if t >= 2 {
      assert n * t == 2 * n + n * (t - 2);
    } else if t <= -1 {
      assert n * t == -n - n * (-t - 1);
    }
  }
}

/** One replica over every input sequence: phase consistency, epoch monotonicity, and at
    most one vote of each kind per round. */
module Voting {
  import opened Types
  import opened Dispatch

  function Rank(ph: Phase): nat {
    match ph
    case Speculative => 0
    case Aligning => 0
    case CollectingLogs => 1
    case PreparePhase => 2
    case CommitPhase => 3
  }

  ghost predicate PhaseConsistent(st: ReplicaState) {
    st.inRepair <==> RepairPhase(st.phase)
  }

  /** (round, phase rank) grows lexicographically and the view never decreases. */
  ghost predicate EpochLe(a: ReplicaState, b: ReplicaState) {
    && a.view <= b.view
    && (a.round < b.round || (a.round == b.round && Rank(a.phase) <= Rank(b.phase)))
  }

  /** The slot that a broadcast uses up. */
  datatype Ballot =
    | NoBallot
    | HistoryBallot(round: nat)
    | CommitBallot(round: nat)
    | DoneBallot(round: nat)
    | LogBallot(view: nat, round: nat)

  function BallotOf(e: Effect): Ballot {
    match e.message
    case RepairHistory(_, _, round, _) => HistoryBallot(round)
    case RepairCommit(_, _, round, _) => CommitBallot(round)
    case RepairDone(_, _, round, _) => DoneBallot(round)
    case LogMsg(_, view, round, _) => LogBallot(view, round)
    case _ => NoBallot
  }

  /** A ballot that the current epoch shows to be used up. */
  ghost predicate Spent(st: ReplicaState, b: Ballot) {
    match b
    case NoBallot => true
    case HistoryBallot(round) => round < st.round || (round == st.round && Rank(st.phase) >= 2)
    case CommitBallot(round) => round < st.round || (round == st.round && Rank(st.phase) >= 3)
    case DoneBallot(round) => round < st.round
    case LogBallot(view, round) =>
      round < st.round || (round == st.round && Rank(st.phase) >= 1 && view <= st.view)
  }

  ghost predicate SingleVotes(out: seq<Effect>) {
    forall i, j :: 0 <= i < j < |out| && BallotOf(out[i]) == BallotOf(out[j]) ==> BallotOf(out[i]).NoBallot?
  }

  ghost predicate VotingInv(t: Trail) {
    && PhaseConsistent(t.st)
    && SingleVotes(t.out)
    && forall e :: e in t.out ==> Spent(t.st, BallotOf(e))
  }

  lemma SpentGrows(a: ReplicaState, b: ReplicaState, ballot: Ballot)
    requires EpochLe(a, b) && Spent(a, ballot)
    ensures Spent(b, ballot)
  {
  }

  /** One handler: the epoch advances, and only unspent ballots are cast, one at a time. */
  ghost predicate VotesWell(st: ReplicaState, s: Step) {
    && PhaseConsistent(s.st) && EpochLe(st, s.st) && SingleVotes(s.out)
    && forall e :: e in s.out && !BallotOf(e).NoBallot? ==> !Spent(st, BallotOf(e)) && Spent(s.st, BallotOf(e))
  }

  lemma EntryCallVotes(cfg: Config, st: ReplicaState, call: Call)
    requires PhaseConsistent(st)
    requires call.CheckingConflict? || call.ReceivingTimeout? || call.EnteringRepair? || call.ViewEvent?
    ensures VotesWell(st, Run(cfg, st, call))
  {
  }

  lemma BallotCallVotes(cfg: Config, st: ReplicaState, call: Call)
    requires PhaseConsistent(st)
    requires call.ReceivingLog? || call.ReceivingHistory? || call.ReceivingPrepare?
    ensures VotesWell(st, Run(cfg, st, call))
  {
  }

  lemma ExitCallVotes(cfg: Config, st: ReplicaState, call: Call)
    requires PhaseConsistent(st)
    requires call.ReceivingCommit? || call.ReceivingDone?
    ensures VotesWell(st, Run(cfg, st, call))
  {
  }

  lemma CallVotes(cfg: Config, st: ReplicaState, call: Call)
    requires PhaseConsistent(st)
    ensures VotesWell(st, Run(cfg, st, call))
  {
    match call {
      case CheckingConflict => EntryCallVotes(cfg, st, call);
      case ReceivingTimeout(_) => EntryCallVotes(cfg, st, call);
      case EnteringRepair(_) => EntryCallVotes(cfg, st, call);
      case ViewEvent(_) => EntryCallVotes(cfg, st, call);
      case ReceivingLog(_) => BallotCallVotes(cfg, st, call);
      case ReceivingHistory(_, _) => BallotCallVotes(cfg, st, call);
      case ReceivingPrepare(_) => BallotCallVotes(cfg, st, call);
      case ReceivingCommit(_) => ExitCallVotes(cfg, st, call);
      case ReceivingDone(_) => ExitCallVotes(cfg, st, call);
      case _ =>
    }
  }

  lemma AdvanceVotes(cfg: Config, t: Trail, call: Call)
    requires VotingInv(t)
    ensures VotingInv(Advance(cfg, t, call)) && EpochLe(t.st, Advance(cfg, t, call).st)
  {
    CallVotes(cfg, t.st, call);
    var s := Run(cfg, t.st, call);
    forall e | e in t.out + s.out ensures Spent(s.st, BallotOf(e)) {
      if e in t.out { SpentGrows(t.st, s.st, BallotOf(e)); }
    }
  }

  lemma {:induction false} RunAllVotes(cfg: Config, t: Trail, calls: seq<Call>)
    requires VotingInv(t)
    ensures VotingInv(RunAll(cfg, t, calls)) && EpochLe(t.st, RunAll(cfg, t, calls).st)
  {
    if calls != [] {
      RunAllVotes(cfg, t, calls[..|calls| - 1]);
      AdvanceVotes(cfg, RunAll(cfg, t, calls[..|calls| - 1]), calls[|calls| - 1]);
    }
  }

  lemma {:induction false} HandleAllVotes(cfg: Config, t: Trail, inputs: seq<Input>)
    requires VotingInv(t)
    ensures VotingInv(HandleAll(cfg, t, inputs))
  {
    if inputs != [] {
      HandleAllVotes(cfg, t, inputs[..|inputs| - 1]);
      RunAllVotes(cfg, HandleAll(cfg, t, inputs[..|inputs| - 1]), Program(inputs[|inputs| - 1]));
    }
  }

  /** Between any two points of a replica's life the epoch only advances. */
  lemma {:induction false} EpochsAdvance(cfg: Config, node: NodeId, inputs: seq<Input>, i: nat, j: nat)
    requires i <= j <= |inputs|
    ensures EpochLe(HandleAll(cfg, Initial(node), inputs[..i]).st, HandleAll(cfg, Initial(node), inputs[..j]).st)
    decreases j
  {
    if i < j {
      EpochsAdvance(cfg, node, inputs, i, j - 1);
      HandleAllVotes(cfg, Initial(node), inputs[..j - 1]);
      assert inputs[..j][..j - 1] == inputs[..j - 1];
      RunAllVotes(cfg, HandleAll(cfg, Initial(node), inputs[..j - 1]), Program(inputs[j - 1]));
    }
  }

  /** Whatever a replica receives, it is `inRepair` exactly in the three REPAIR phases, and
      among everything it ever broadcast no REPAIR-HISTORY, REPAIR-COMMIT or REPAIR-DONE slot
      of a round, and no LOG slot of a (view, round), is used twice. */
  lemma PhasesAgreeAndVotesAreSingle(cfg: Config, node: NodeId, inputs: seq<Input>)
    ensures var t := HandleAll(cfg, Initial(node), inputs);
            PhaseConsistent(t.st) && SingleVotes(t.out)
  {
    HandleAllVotes(cfg, Initial(node), inputs);
  }

  // A commit vote is held until its round ends.

  /** Same round, still in CommitPhase, same view and history. */
  ghost predicate HoldsCommit(a: ReplicaState, b: ReplicaState) {
    b.phase.CommitPhase? && b.round == a.round && b.view == a.view && b.proposed == a.proposed
  }

  lemma CallHoldsCommit(cfg: Config, st: ReplicaState, call: Call)
    requires st.phase.CommitPhase? && PhaseConsistent(st)
    ensures HoldsCommit(st, Run(cfg, st, call).st) || Run(cfg, st, call).st.round > st.round
  {
  }

  lemma {:induction false} RunAllHoldsCommit(cfg: Config, t: Trail, calls: seq<Call>)
    requires t.st.phase.CommitPhase? && VotingInv(t)
    ensures HoldsCommit(t.st, RunAll(cfg, t, calls).st) || RunAll(cfg, t, calls).st.round > t.st.round
  {
    if calls != [] {
      var front, last := calls[..|calls| - 1], calls[|calls| - 1];
      var mid := RunAll(cfg, t, front);
      RunAllHoldsCommit(cfg, t, front);
      RunAllVotes(cfg, t, front);
      AdvanceVotes(cfg, mid, last);
      if HoldsCommit(t.st, mid.st) {
        CallHoldsCommit(cfg, mid.st, last);
      }
    }
  }

  /** Whatever arrives, a replica that entered CommitPhase stays in it, with its view and
      history, until it leaves the round. */
  lemma {:induction false} CommitIsHeld(cfg: Config, t: Trail, inputs: seq<Input>)
    requires t.st.phase.CommitPhase? && VotingInv(t)
    ensures HoldsCommit(t.st, HandleAll(cfg, t, inputs).st) || HandleAll(cfg, t, inputs).st.round > t.st.round
  {
    if inputs != [] {
      var mid := HandleAll(cfg, t, inputs[..|inputs| - 1]);
      CommitIsHeld(cfg, t, inputs[..|inputs| - 1]);
      HandleAllVotes(cfg, t, inputs[..|inputs| - 1]);
      RunAllVotes(cfg, mid, Program(inputs[|inputs| - 1]));
      if HoldsCommit(t.st, mid.st) {
        RunAllHoldsCommit(cfg, mid, Program(inputs[|inputs| - 1]));
      }
    }
  }
}

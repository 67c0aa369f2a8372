/** Every interleaving of finalisation, senders, lease expiry, holds and pollers over one proposal. */
module ExecutionRuns {
  import opened Domain
  import opened OnchainExecution

  /** Which transactions the chain accepts, and the configured poll limit. */
  datatype Chain = Chain(succeeds: Hash -> bool, asset: bool, maxPolls: int)

  /** A poll under way holds what its query read. */
  datatype Snapshot = Snapshot(tx: Hash, polls: nat)

  /** The row, the jobs between two statements, and a history the row does not keep: every recorded
      transaction, whether the last is still unresolved, how often it was polled, and the results of
      the last decision if it was to send. A send job, once enqueued, may be delivered any number of times. */
  datatype State = State(
    execution: Execution,
    voted: bool,
    enqueued: bool,
    mandate: Option<Results>,
    sending: set<nat>,
    expiring: set<nat>,
    polling: map<nat, Snapshot>,
    sent: seq<Hash>,
    unresolved: Option<Hash>,
    pollsDone: nat)

  datatype Label =
    | Finish
    | Finalise(freshSupply: bool, results: Results, tokenApplied: bool)
    | Hold
    | Repair
    | ClaimSend(worker: nat, at: Instant)
    | SendDone(worker: nat, tx: Option<Hash>, at: Instant)
    | LeaseRead(worker: nat, at: Instant)
    | LeaseWrite(worker: nat)
    | PollStart(worker: nat)
    | PollDone(worker: nat, answer: PollAnswer)

  predicate Usable(tx: Option<Hash>) { tx.Some? && tx.value != "" }

  /** Polls report results the chain really has. */
  predicate Truthful(c: Chain, tx: Hash, answer: PollAnswer) { answer.Resolved? ==> answer.succeeded == c.succeeds(tx) }

  predicate Enabled(c: Chain, s: State, l: Label)
  {
    match l
    case Finish => true
    case Finalise(_, _, _) => true
    case Hold => Holdable(s.execution, c.asset, s.voted)
    case Repair => Repairable(s.execution, c.asset, s.voted)
    case ClaimSend(w, _) => s.enqueued && w !in s.sending && Sendable(s.execution, s.voted)
    case SendDone(w, _, _) => w in s.sending
    case LeaseRead(w, at) => LeaseRanOut(s.execution, s.voted, at)
    case LeaseWrite(w) => w in s.expiring
    case PollStart(w) => w !in s.polling && Pollable(s.execution, s.voted)
    case PollDone(w, answer) => w in s.polling && Truthful(c, s.polling[w].tx, answer)
  }

  function Finalised(c: Chain, s: State, freshSupply: bool, results: Results, applied: bool): State
  {
    var next := Decide(s.execution, c.asset, s.voted, freshSupply, results, applied);
    if !c.asset || !s.voted || Settled(s.execution.status) then s.(execution := next)
    else if next.status == Pending then s.(execution := next, enqueued := true, mandate := Some(results))
    else s.(execution := next, mandate := None)
  }

  function Sent(s: State, w: nat, tx: Option<Hash>, at: Instant): State
  {
    if Usable(tx) then
      s.(sending := s.sending - {w}, execution := Execution(Submitted, tx, s.execution.started, Some(at), 0),
         sent := s.sent + [tx.value], unresolved := tx, pollsDone := 0)
    else
      s.(sending := s.sending - {w}, execution := Execution(Failed, None, s.execution.started, None, 0))
  }

  /** The poll ends with the transaction's result on record. */
  predicate Resolves(answer: PollAnswer) { answer.Resolved? && (!answer.succeeded || answer.synced) }

  function PollFinished(c: Chain, s: State, w: nat, answer: PollAnswer): State
    requires w in s.polling
  {
    s.(polling := s.polling - {w}, execution := Polled(s.execution, s.polling[w].polls, answer, c.maxPolls),
       unresolved := if Resolves(answer) && s.unresolved == Some(s.polling[w].tx) then None else s.unresolved,
       pollsDone := s.pollsDone + 1)
  }

  function Step(c: Chain, s: State, l: Label): State
  {
    if !Enabled(c, s, l) then s
    else
      match l
      case Finish => s.(voted := true)
      case Finalise(freshSupply, results, applied) => Finalised(c, s, freshSupply, results, applied)
      case Hold => s.(execution := s.execution.(status := RequiresReview))
      case Repair => s.(execution := s.execution.(status := RequiresReview))
      case ClaimSend(w, at) => s.(sending := s.sending + {w},
                                  execution := Execution(InProgress, None, Some(at), None, 0))
      case SendDone(w, tx, at) => Sent(s, w, tx, at)
      case LeaseRead(w, _) => s.(expiring := s.expiring + {w})
      case LeaseWrite(w) => s.(expiring := s.expiring - {w}, execution := s.execution.(status := RequiresReview))
      case PollStart(w) => s.(polling := s.polling[w := Snapshot(s.execution.tx.value, s.execution.polls)])
      case PollDone(w, answer) => PollFinished(c, s, w, answer)
  }

  function Run(c: Chain, s: State, labels: seq<Label>): State
  {
    if labels == [] then s else Step(c, Run(c, s, labels[..|labels| - 1]), labels[|labels| - 1])
  }

  /** The row as it is created: nothing sent, nobody at work. */
  function Created(c: Chain): State
  {
    State(Reset(if c.asset then Pending else NotRequired), false, false, None, {}, {}, map[], [], None, 0)
  }

  /** No poll starts while another is under way. */
  predicate OnePollerStep(c: Chain, s: State, l: Label) { l.PollStart? && Enabled(c, s, l) ==> s.polling == map[] }

  ghost predicate OnePoller(c: Chain, s: State, labels: seq<Label>)
  {
    forall n :: 0 <= n < |labels| ==> OnePollerStep(c, Run(c, s, labels[..n]), labels[n])
  }

  function PollLimit(c: Chain): nat { if c.maxPolls < 1 then 1 else c.maxPolls }

  // ---- The invariant ----

  /** A send in flight is alone, and its row is claimed or under review. */
  ghost predicate SenderLaw(s: State)
  {
    && (forall a, b :: a in s.sending && b in s.sending ==> a == b)
    && (s.sending != {}
        ==> s.execution.status in {InProgress, RequiresReview} && s.execution.tx.None? && s.polling == map[])
  }

  /** A poll under way reads the row it will write, and the row waits for it. */
  ghost predicate PollerLaw(c: Chain, s: State)
  {
    && (forall a, b :: a in s.polling && b in s.polling ==> a == b)
    && (forall w :: w in s.polling ==>
          && s.execution.status in {Submitted, RequiresReview}
          && s.execution.tx == Some(s.polling[w].tx) && s.execution.polls == s.polling[w].polls
          && s.pollsDone == s.polling[w].polls < PollLimit(c))
    && (s.execution.status == Submitted ==> s.execution.tx.Some? && s.execution.polls == s.pollsDone < PollLimit(c))
    && s.pollsDone <= PollLimit(c)
  }

  /** The last recorded transaction is the one the row names as long as it matters. */
  ghost predicate ChainLaw(c: Chain, s: State)
  {
    && (s.unresolved.Some?
        ==> s.execution.tx == s.unresolved && s.execution.status in {Submitted, RequiresReview} && s.sending == {})
    && (s.execution.status == Submitted || s.polling != map[]
        ==> s.sent != [] && s.execution.tx == Some(s.sent[|s.sent| - 1]))
    && (forall i :: 0 <= i < |s.sent| && c.succeeds(s.sent[i]) ==>
          i == |s.sent| - 1 && s.sending == {} && s.execution.status in {Submitted, Success, RequiresReview}
              && s.execution.tx == Some(s.sent[i]))
    && (s.execution.status == Success ==> s.sent != [] && c.succeeds(s.sent[|s.sent| - 1]))
  }

  /** A row a send job could claim was last decided with a majority and a quorum. */
  ghost predicate MandateLaw(s: State)
  {
    s.enqueued && s.execution.status == Pending
    ==> s.mandate.Some? && IsProposalApproved(s.mandate.value) && HasProposalQuorum(s.mandate.value)
  }

  /** A proposal without an on-chain action never leaves its status. */
  ghost predicate IdleLaw(c: Chain, s: State)
  {
    !c.asset ==>
      && s.execution.status == NotRequired && s.sending == {} && s.expiring == {} && s.polling == map[] && s.sent == []
  }

  ghost predicate Invariant(c: Chain, s: State)
  {
    IdleLaw(c, s) && SenderLaw(s) && PollerLaw(c, s) && ChainLaw(c, s) && MandateLaw(s)
  }

  lemma StepKeepsInvariant(c: Chain, s: State, l: Label)
    requires Invariant(c, s) && OnePollerStep(c, s, l)
    ensures Invariant(c, Step(c, s, l))
  {
    hide IsProposalApproved, HasProposalQuorum;
    if l.PollDone? && Enabled(c, s, l) {
      PollDoneKeepsInvariant(c, s, l.worker, l.answer);
    } else if l.SendDone? && Enabled(c, s, l) {
      SendDoneKeepsInvariant(c, s, l.worker, l.tx, l.at);
    }
  }

  lemma SendDoneKeepsInvariant(c: Chain, s: State, w: nat, tx: Option<Hash>, at: Instant)
    requires Invariant(c, s) && w in s.sending
    ensures Invariant(c, Sent(s, w, tx, at))
  {
    assert s.sending == {w};
    assert s.sending - {w} == {};
  }

  lemma PollDoneKeepsInvariant(c: Chain, s: State, w: nat, answer: PollAnswer)
    requires Invariant(c, s) && w in s.polling && Truthful(c, s.polling[w].tx, answer)
    ensures Invariant(c, PollFinished(c, s, w, answer))
  {
    assert forall v :: v in s.polling <==> v == w;
    assert s.polling - {w} == map[];
  }

  lemma {:induction false} RunKeepsInvariant(c: Chain, labels: seq<Label>)
    requires OnePoller(c, Created(c), labels)
    ensures Invariant(c, Run(c, Created(c), labels))
  {
    hide Invariant, Step, OnePollerStep;
    if labels == [] {
      CreatedIsLawful(c);
    } else {
      var n, earlier := |labels| - 1, labels[..|labels| - 1];
      assert OnePoller(c, Created(c), earlier) by {
        assert forall i :: 0 <= i < n ==> earlier[..i] == labels[..i];
      }
      RunKeepsInvariant(c, earlier);
      assert OnePollerStep(c, Run(c, Created(c), labels[..n]), labels[n]);
      StepKeepsInvariant(c, Run(c, Created(c), earlier), labels[n]);
    }
  }

  lemma CreatedIsLawful(c: Chain)
    ensures Invariant(c, Created(c))
  {
  }

  // ---- Theorems over all runs ----

  /** At most one send is in flight. */
  lemma {:induction false} OneSendInFlight(c: Chain, labels: seq<Label>)
    requires OnePoller(c, Created(c), labels)
    ensures |Run(c, Created(c), labels).sending| <= 1
  {
    hide Run;
    RunKeepsInvariant(c, labels);
    var sending := Run(c, Created(c), labels).sending;
    if sending != {} {
      var w :| w in sending;
      assert sending == {w};
    }
  }

  /** No send starts while a recorded transaction is unresolved, or after one the chain accepts. */
  lemma {:induction false} NoSendWhileUnresolved(c: Chain, labels: seq<Label>, w: nat, at: Instant)
    requires OnePoller(c, Created(c), labels)
    requires Enabled(c, Run(c, Created(c), labels), ClaimSend(w, at))
    ensures var s := Run(c, Created(c), labels);
            s.sending == {} && s.polling == map[] && s.unresolved.None? && forall i :: 0 <= i < |s.sent|
                                                                                       ==> !c.succeeds(s.sent[i])
  {
    hide Run;
    RunKeepsInvariant(c, labels);
    var s := Run(c, Created(c), labels);
    assert s.polling == map[];
  }

  /** An approved action takes effect on chain at most once. */
  lemma {:induction false} ExecutesAtMostOnce(c: Chain, labels: seq<Label>, i: nat, j: nat)
    requires OnePoller(c, Created(c), labels)
    requires var sent := Run(c, Created(c), labels).sent;
             i < |sent| && j < |sent| && c.succeeds(sent[i]) && c.succeeds(sent[j])
    ensures i == j
  {
    hide Run;
    RunKeepsInvariant(c, labels);
  }

  /** A submission is polled at most as often as configured, and once if the limit is not positive. */
  lemma {:induction false} PollsAreBounded(c: Chain, labels: seq<Label>)
    requires OnePoller(c, Created(c), labels)
    ensures var s := Run(c, Created(c), labels);
            s.pollsDone <= PollLimit(c) && (s.execution.status == Submitted ==> s.pollsDone < PollLimit(c))
  {
    hide Run;
    RunKeepsInvariant(c, labels);
  }

  /** Every send rests on a decision with majority and quorum, and no later decision against it. */
  lemma {:induction false} SendsAreMandated(c: Chain, labels: seq<Label>, w: nat, at: Instant)
    requires OnePoller(c, Created(c), labels)
    requires Enabled(c, Run(c, Created(c), labels), ClaimSend(w, at))
    ensures var s := Run(c, Created(c), labels);
            c.asset && s.voted && s.mandate.Some? && Mandated(s.mandate.value)
  {
    hide Run, IsProposalApproved, HasProposalQuorum, Mandated;
    RunKeepsInvariant(c, labels);
    MandateIsExact(Run(c, Created(c), labels).mandate.GetOr(Results(None, None, None, None, 0)));
  }

  /** A row that says SUCCESS has a recorded transaction the chain accepted. */
  lemma {:induction false} SuccessIsOnChain(c: Chain, labels: seq<Label>)
    requires OnePoller(c, Created(c), labels)
    ensures var s := Run(c, Created(c), labels);
            s.execution.status == Success ==> s.sent != [] && c.succeeds(s.sent[|s.sent| - 1])
  {
    hide Run;
    RunKeepsInvariant(c, labels);
  }

  /** With no job between two statements, a row under review stays there: only a person moves it. */
  lemma ReviewIsFinal(c: Chain, s: State, l: Label)
    requires c.asset && s.execution.status == RequiresReview && s.sending == {} && s.polling == map[]
    ensures var next := Step(c, s, l); next.execution == s.execution && next.sending == {} && next.polling == map[]
  {
    hide IsProposalApproved, HasProposalQuorum;
  }

  /** Two pollers at once break the law: a stale FAILED write lands on a claimed row, which is then sent again. */
  lemma TwoPollersSendTwice(r: Results)
    requires Mandated(r)
    ensures var c := Chain(h => false, true, 20);
            exists labels :: {2, 3} <= Run(c, Created(c), labels).sending
  {
    hide Step, IsProposalApproved, HasProposalQuorum, Mandated;
    MandateIsExact(r);
    var c, rejected := Chain(h => false, true, 20), Resolved(false, false);
    var first := [Finish, Finalise(true, r, true), ClaimSend(1, 0), SendDone(1, Some("a"), 0)];
    var second := [PollStart(1), PollStart(2), PollDone(1, rejected), Finalise(true, r, true)];
    var third := [ClaimSend(2, 0), PollDone(2, rejected), Finalise(true, r, true), ClaimSend(3, 0)];
    var s := RunFour(c, Created(c), first[0], first[1], first[2], first[3]);
    Submits(c, r);
    var t := RunFour(c, s, second[0], second[1], second[2], second[3]);
    StalePollRemains(c, r);
    var u := RunFour(c, t, third[0], third[1], third[2], third[3]);
    SendsAgain(c, r);
    RunJoins(c, Created(c), first, second);
    RunJoins(c, Created(c), first + second, third);
    assert Run(c, Created(c), first + second + third) == u;
  }

  function AfterSubmission(r: Results): State
  {
    State(Execution(Submitted, Some("a"), Some(0), Some(0), 0), true, true, Some(r), {}, {}, map[], ["a"], Some("a"), 0)
  }

  /** Rejected and decided again, while a second poll still holds what it read. */
  function AfterRejection(r: Results): State
  {
    State(Reset(Pending), true, true, Some(r), {}, {}, map[2 := Snapshot("a", 0)], ["a"], None, 1)
  }

  lemma Submits(c: Chain, r: Results)
    requires c.asset && IsProposalApproved(r) && HasProposalQuorum(r)
    ensures Step(c, Step(c, Step(c, Step(c, Created(c), Finish), Finalise(true, r, true)), ClaimSend(1, 0)),
                 SendDone(1, Some("a"), 0)) == AfterSubmission(r)
  {
    hide IsProposalApproved, HasProposalQuorum;
    var s := Step(c, Step(c, Step(c, Created(c), Finish), Finalise(true, r, true)), ClaimSend(1, 0));
    assert s == State(Execution(InProgress, None, Some(0), None, 0), true, true, Some(r), {1}, {}, map[], [], None, 0);
    assert {1} - {1} == {};
  }

  lemma StalePollRemains(c: Chain, r: Results)
    requires c.asset && IsProposalApproved(r) && HasProposalQuorum(r) && !c.succeeds("a")
    ensures Step(c, Step(c, Step(c, Step(c, AfterSubmission(r), PollStart(1)), PollStart(2)),
                         PollDone(1, Resolved(false, false))), Finalise(true, r, true)) == AfterRejection(r)
  {
    hide IsProposalApproved, HasProposalQuorum;
    var s := Step(c, Step(c, AfterSubmission(r), PollStart(1)), PollStart(2));
    assert s == AfterSubmission(r).(polling := map[1 := Snapshot("a", 0), 2 := Snapshot("a", 0)]);
    assert map[1 := Snapshot("a", 0), 2 := Snapshot("a", 0)] - {1} == map[2 := Snapshot("a", 0)];
  }

  lemma SendsAgain(c: Chain, r: Results)
    requires c.asset && IsProposalApproved(r) && HasProposalQuorum(r) && !c.succeeds("a")
    ensures {2, 3} <= Step(c, Step(c,
                                   Step(c, Step(c, AfterRejection(r), ClaimSend(2, 0)),
                                        PollDone(2, Resolved(false, false))), Finalise(true, r, true)),
                                        ClaimSend(3, 0)).sending
  {
    hide IsProposalApproved, HasProposalQuorum;
    var s := Step(c, Step(c, AfterRejection(r), ClaimSend(2, 0)), PollDone(2, Resolved(false, false)));
    assert s.execution.status == Failed && s.sending == {2} && 3 !in s.sending;
  }

  lemma RunFour(c: Chain, s: State, l0: Label, l1: Label, l2: Label, l3: Label) returns (t: State)
    ensures t == Step(c, Step(c, Step(c, Step(c, s, l0), l1), l2), l3) == Run(c, s, [l0, l1, l2, l3])
  {
    hide Step;
    var labels := [l0, l1, l2, l3];
    assert labels[..3] == [l0, l1, l2] && [l0, l1, l2][..2] == [l0, l1] && [l0, l1][..1] == [l0] && [l0][..0] == [];
    t := Run(c, s, labels);
    assert Run(c, s, [l0]) == Step(c, Run(c, s, []), l0);
    assert Run(c, s, [l0, l1]) == Step(c, Run(c, s, [l0]), l1);
    assert Run(c, s, [l0, l1, l2]) == Step(c, Run(c, s, [l0, l1]), l2);
  }

  lemma {:induction false} RunJoins(c: Chain, s: State, a: seq<Label>, b: seq<Label>)
    ensures Run(c, s, a + b) == Run(c, Run(c, s, a), b)
  {
    hide Step;
    if b == [] {
      assert a + b == a;
    } else {
      var n := |b| - 1;
      assert (a + b)[..|a| + n] == a + b[..n];
      RunJoins(c, s, a, b[..n]);
    }
  }
}

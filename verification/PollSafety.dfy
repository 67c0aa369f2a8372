/** Exactly when polls that overlap leave the execution law intact: the write of a poll may be stale, and
    what it may then say is decided step by step. */
module PollSafety {
  import opened Domain
  import opened OnchainExecution
  import opened ExecutionRuns

  /** What must hold of the row whatever polls are under way: one send at most, on a claimed row; the row
      names its last transaction while that matters; nothing is sent after a success. */
  ghost predicate SafetyLaw(c: Chain, s: State)
  {
    && IdleLaw(c, s) && MandateLaw(s)
    && (forall a, b :: a in s.sending && b in s.sending ==> a == b)
    && (s.sending != {} ==> s.execution.status in {InProgress, RequiresReview} && s.execution.tx.None?)
    && (s.unresolved.Some? ==>
          s.execution.tx == s.unresolved && s.execution.status in {Submitted, RequiresReview} && s.sending == {})
    && (s.execution.status == Submitted ==> s.sent != [] && s.execution.tx == Some(s.sent[|s.sent| - 1]))
    && (forall i :: 0 <= i < |s.sent| && c.succeeds(s.sent[i]) ==>
          && i == |s.sent| - 1 && s.sending == {} && s.execution.tx == Some(s.sent[i])
          && s.execution.status in {Submitted, Success, RequiresReview})
    && (s.execution.status == Success ==> s.sent != [] && c.succeeds(s.sent[|s.sent| - 1]))
  }

  predicate Settles(s: State, w: nat)
    requires w in s.polling
  {
    s.unresolved.None? || s.unresolved == Some(s.polling[w].tx)
  }

  /** The exact condition on one poll's write: a count always may land; a success only on a row that is
      not waiting for another transaction; a failure only when nothing is in flight, no other transaction
      is unresolved and none has succeeded. */
  predicate HarmlessPoll(c: Chain, s: State, w: nat, answer: PollAnswer)
    requires w in s.polling
  {
    match answer
    case Resolved(true, true) =>
      s.execution.status == Submitted ==> Settles(s, w) && s.sent != [] && c.succeeds(s.sent[|s.sent| - 1])
    case Resolved(false, _) =>
      s.sending == {} && Settles(s, w) && forall i :: 0 <= i < |s.sent| ==> !c.succeeds(s.sent[i])
    case _ => true
  }

  predicate HarmlessStep(c: Chain, s: State, l: Label)
  {
    l.PollDone? && Enabled(c, s, l) ==> HarmlessPoll(c, s, l.worker, l.answer)
  }

  /** A poll's write keeps the law if and only if it is harmless. */
  lemma {:induction false} PollKeepsSafetyIff(c: Chain, s: State, w: nat, answer: PollAnswer)
    requires SafetyLaw(c, s) && w in s.polling && Truthful(c, s.polling[w].tx, answer)
    ensures SafetyLaw(c, PollFinished(c, s, w, answer)) <==> HarmlessPoll(c, s, w, answer)
  {
    hide IsProposalApproved, HasProposalQuorum;
    assert PollFinished(c, s, w, answer).sent == s.sent;
  }

  /** As long as the row still names the polled transaction, whatever the poll says is harmless. */
  lemma {:induction false} NamedPollIsHarmless(c: Chain, s: State, w: nat, answer: PollAnswer)
    requires SafetyLaw(c, s) && w in s.polling && Truthful(c, s.polling[w].tx, answer)
    requires s.execution.tx == Some(s.polling[w].tx)
    ensures HarmlessPoll(c, s, w, answer)
  {
    hide IsProposalApproved, HasProposalQuorum;
  }

  lemma {:induction false} OtherStepsKeepSafety(c: Chain, s: State, l: Label)
    requires SafetyLaw(c, s) && !l.PollDone?
    ensures SafetyLaw(c, Step(c, s, l))
  {
    hide IsProposalApproved, HasProposalQuorum;
    if l.SendDone? && Enabled(c, s, l) {
      assert s.sending == {l.worker};
      assert s.sending - {l.worker} == {};
    }
  }

  lemma {:induction false} StepKeepsSafetyIff(c: Chain, s: State, l: Label)
    requires SafetyLaw(c, s)
    ensures SafetyLaw(c, Step(c, s, l)) <==> HarmlessStep(c, s, l)
  {
    hide SafetyLaw, HarmlessPoll, PollFinished;
    if !l.PollDone? {
      OtherStepsKeepSafety(c, s, l);
    } else if Enabled(c, s, l) {
      PollKeepsSafetyIff(c, s, l.worker, l.answer);
    }
  }

  // ---- Whole runs ----

  ghost predicate SafeThroughout(c: Chain, labels: seq<Label>)
  {
    forall n :: 0 <= n <= |labels| ==> SafetyLaw(c, Run(c, Created(c), labels[..n]))
  }

  ghost predicate HarmlessRun(c: Chain, labels: seq<Label>)
  {
    forall n :: 0 <= n < |labels| ==> HarmlessStep(c, Run(c, Created(c), labels[..n]), labels[n])
  }

  lemma RunGrows(c: Chain, labels: seq<Label>, n: nat)
    requires n < |labels|
    ensures Run(c, Created(c), labels[..n + 1]) == Step(c, Run(c, Created(c), labels[..n]), labels[n])
  {
    assert labels[..n + 1][..n] == labels[..n];
  }

  /** A run is safe at every point if and only if every poll that ends in it is harmless where it ends. */
  lemma {:induction false} SafeIffPollsHarmless(c: Chain, labels: seq<Label>)
    ensures SafeThroughout(c, labels) <==> HarmlessRun(c, labels)
  {
    hide SafetyLaw, HarmlessStep, Step, Run, Created;
    if SafeThroughout(c, labels) {
      forall n | 0 <= n < |labels| ensures HarmlessStep(c, Run(c, Created(c), labels[..n]), labels[n]) {
        RunGrows(c, labels, n);
        StepKeepsSafetyIff(c, Run(c, Created(c), labels[..n]), labels[n]);
      }
    }
    if HarmlessRun(c, labels) {
      forall n | 0 <= n <= |labels| ensures SafetyLaw(c, Run(c, Created(c), labels[..n])) {
        HarmlessPrefixIsSafe(c, labels, n);
      }
    }
  }

  lemma {:induction false} HarmlessPrefixIsSafe(c: Chain, labels: seq<Label>, n: nat)
    requires HarmlessRun(c, labels) && n <= |labels|
    ensures SafetyLaw(c, Run(c, Created(c), labels[..n]))
    decreases n
  {
    hide SafetyLaw, HarmlessStep, Step;
    if n == 0 {
      CreatedIsSafe(c);
    } else {
      HarmlessPrefixIsSafe(c, labels, n - 1);
      RunGrows(c, labels, n - 1);
      StepKeepsSafetyIff(c, Run(c, Created(c), labels[..n - 1]), labels[n - 1]);
    }
  }

  lemma CreatedIsSafe(c: Chain)
    ensures SafetyLaw(c, Created(c))
  {
  }

  /** One poller at a time is one way to have only harmless polls. */
  lemma {:induction false} OnePollerIsHarmless(c: Chain, labels: seq<Label>)
    requires OnePoller(c, Created(c), labels)
    ensures HarmlessRun(c, labels) && SafeThroughout(c, labels)
  {
    hide Run, Invariant, SafetyLaw, HarmlessPoll, OnePollerStep;
    forall n | 0 <= n < |labels| ensures HarmlessStep(c, Run(c, Created(c), labels[..n]), labels[n]) {
      var s, l := Run(c, Created(c), labels[..n]), labels[n];
      PrefixHasOnePoller(c, labels, n);
      RunKeepsInvariant(c, labels[..n]);
      if l.PollDone? && Enabled(c, s, l) {
        LawfulPollsAreNamed(c, s, l.worker);
        NamedPollIsHarmless(c, s, l.worker, l.answer);
      }
    }
    SafeIffPollsHarmless(c, labels);
  }

  lemma {:induction false} PrefixHasOnePoller(c: Chain, labels: seq<Label>, n: nat)
    requires OnePoller(c, Created(c), labels) && n <= |labels|
    ensures OnePoller(c, Created(c), labels[..n])
  {
    hide OnePollerStep, Run;
    forall m | 0 <= m < n ensures OnePollerStep(c, Run(c, Created(c), labels[..n][..m]), labels[..n][m]) {
      assert labels[..n][..m] == labels[..m];
    }
  }

  lemma {:induction false} LawfulPollsAreNamed(c: Chain, s: State, w: nat)
    requires Invariant(c, s) && w in s.polling
    ensures SafetyLaw(c, s) && s.execution.tx == Some(s.polling[w].tx)
  {
    hide IsProposalApproved, HasProposalQuorum;
  }

  /** With harmless polls, overlapping or not: one send at most, none while a transaction is unresolved or
      after one succeeded, and at most one recorded transaction succeeds. */
  lemma {:induction false} HarmlessPollsAreSafe(c: Chain, labels: seq<Label>, w: nat, at: Instant, i: nat, j: nat)
    requires HarmlessRun(c, labels)
    ensures var s := Run(c, Created(c), labels);
            && (forall a, b :: a in s.sending && b in s.sending ==> a == b)
            && (Enabled(c, s, ClaimSend(w, at)) ==>
                  s.sending == {} && s.unresolved.None? && forall k :: 0 <= k < |s.sent| ==> !c.succeeds(s.sent[k]))
            && (i < |s.sent| && j < |s.sent| && c.succeeds(s.sent[i]) && c.succeeds(s.sent[j]) ==> i == j)
  {
    hide Run, IsProposalApproved, HasProposalQuorum;
    HarmlessPrefixIsSafe(c, labels, |labels|);
    assert labels[..|labels|] == labels;
  }
}

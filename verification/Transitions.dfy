/** Resolved transitions: what the backend is about to apply, fixed before Horizon is asked. */
module Transitions {
  import opened Domain
  import opened MemoText
  import opened Memo
  import opened Payments
  import opened Records

  datatype Transition =
    | CreateTransition(hash: Option<Hash>, proposedBy: Account, proposalType: ProposalType, title: string, text: Html)
    | UpdateTransition(pid: ProposalId, hash: Option<Hash>, newTitle: Option<string>, newText: Option<Html>,
                       envelope: Option<string>)
    | SubmitTransition(pid: ProposalId, hash: Option<Hash>, start: Option<Instant>, end: Option<Instant>,
                       envelope: Option<string>, legacyText: Html)

  function Resolve(pid: ProposalId, row: Row): (t: Transition)
    requires row.action != NoAction
    ensures ActionOf(t) == row.action
  {
    match row.action
    case ToCreate => CreateTransition(row.hash, row.proposedBy, row.proposalType, row.title, row.text)
    case ToUpdate => UpdateTransition(pid, row.newHash, row.newTitle, row.newText, row.newEnvelope)
    case ToSubmit => SubmitTransition(pid, row.newHash, row.newStart, row.newEnd, row.newEnvelope, row.text)
  }

  function ActionOf(t: Transition): Action
  {
    match t
    case CreateTransition(_, _, _, _, _) => ToCreate
    case UpdateTransition(_, _, _, _, _) => ToUpdate
    case SubmitTransition(_, _, _, _, _, _) => ToSubmit
  }

  function FieldsOf(t: Transition): Fields
  {
    match t
    case CreateTransition(_, who, kind, title, text) => CreateFields(Some(who), TypeLiteral(kind), Some(title),
                                                                     Some(text))
    case UpdateTransition(pid, _, title, text, _) => UpdateFields(IntegerId(pid), title, text)
    case SubmitTransition(pid, _, start, end, _, _) => SubmitFields(IntegerId(pid), start, end)
  }

  function ExpectationOf(env: Environment, t: Transition): Expectation
  {
    BuildExpectation(env.crypto, FieldsOf(t), if t.SubmitTransition? then Some(t.legacyText) else None,
                     env.acceptLegacy)
  }

  function CostOf(env: Environment, t: Transition): real
  {
    if t.SubmitTransition? then env.submitCost else env.createCost
  }

  /** How the fingerprint spells an instant: as the memo does, or marked as unrepresentable. */
  datatype Spelling = NoInstant | Rendered(text: string) | Unrepresentable(at: Instant)

  function SpellingOf(t: Option<Instant>): Spelling
  {
    if t.None? then NoInstant
    else if IsoUtcSeconds(t.value).Some? then Rendered(IsoUtcSeconds(t.value).value)
    else Unrepresentable(t.value)
  }

  /** The fingerprint comparison against the locked row. */
  predicate MatchesLocked(t: Transition, row: Row)
  {
    match t
    case CreateTransition(hash, who, kind, title, text) =>
      hash == row.hash && who == row.proposedBy && kind == row.proposalType && title == row.title && text == row.text
    case UpdateTransition(_, hash, title, text, _) =>
      hash == row.newHash && title == row.newTitle && text == row.newText
    case SubmitTransition(_, hash, start, end, _, _) =>
      hash == row.newHash && SpellingOf(start) == SpellingOf(row.newStart) && SpellingOf(end) == SpellingOf(row.newEnd)
  }

  /** Equal spellings mean equal instants, so a matching fingerprint names the same window. */
  lemma SpellingInjective(a: Option<Instant>, b: Option<Instant>)
    requires SpellingOf(a) == SpellingOf(b)
    ensures a == b
  {
    if a.Some? && b.Some? && IsoUtcSeconds(a.value).Some? {
      IsoInjective(a.value, b.value);
    }
  }

  /** A transition without the two values no fingerprint covers. */
  function Fingerprinted(t: Transition): Transition
  {
    match t
    case CreateTransition(_, _, _, _, _) => t
    case UpdateTransition(pid, hash, title, text, _) => UpdateTransition(pid, hash, title, text, None)
    case SubmitTransition(pid, hash, start, end, _, _) => SubmitTransition(pid, hash, start, end, None, Html(""))
  }

  /** The fingerprint guard is exact for everything but the carried envelope and legacy text. */
  lemma {:induction false} MatchesLockedIff(pid: ProposalId, t: Transition, row: Row)
    requires row.action == ActionOf(t)
    requires !t.CreateTransition? ==> t.pid == pid
    ensures MatchesLocked(t, row) <==> Fingerprinted(t) == Fingerprinted(Resolve(pid, row))
  {
    if t.SubmitTransition? && MatchesLocked(t, row) {
      SpellingInjective(t.start, row.newStart);
      SpellingInjective(t.end, row.newEnd);
    }
  }
}

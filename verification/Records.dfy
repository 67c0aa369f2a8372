/** The tables the promotion protocol reads and writes, as one database value. */
module Records {
  import opened Domain

  datatype Row = Row(
    proposedBy: Account,
    proposalType: ProposalType,
    asset: Option<string>,
    title: string,
    text: Html,
    version: nat,
    hash: Option<Hash>,
    envelope: Option<string>,
    lastUpdated: Instant,
    startAt: Option<Instant>,
    endAt: Option<Instant>,
    hidden: bool,
    draft: bool,
    action: Action,
    proposalStatus: ProposalStatus,
    legacyStatus: PaymentStatus,
    paymentStatus: PaymentStatus,
    rejectedHash: Option<Hash>,
    notFoundSince: Option<Instant>,
    newTitle: Option<string>,
    newText: Option<Html>,
    newHash: Option<Hash>,
    newEnvelope: Option<string>,
    newStart: Option<Instant>,
    newEnd: Option<Instant>)

  datatype HistoryRow = HistoryRow(
    pid: ProposalId,
    version: nat,
    hidden: bool,
    title: string,
    text: Html,
    hash: Option<Hash>,
    envelope: Option<string>,
    createdAt: Instant)

  datatype Claim = Claim(pid: ProposalId, purpose: Purpose, payer: Option<Account>)

  datatype Slot = Slot(start: Instant, end: Instant)

  datatype Db = Db(
    rows: map<ProposalId, Row>,
    history: seq<HistoryRow>,
    ledger: map<Hash, Claim>,
    slots: map<ProposalId, Slot>)

  /** Unique index on Proposal.transaction_hash: would saving `h` on `pid` collide? */
  predicate HashTaken(rows: map<ProposalId, Row>, pid: ProposalId, h: Option<Hash>)
  {
    h.Some? && exists q :: q in rows && q != pid && rows[q].hash == h
  }

  predicate NewHashTaken(rows: map<ProposalId, Row>, pid: ProposalId, h: Option<Hash>)
  {
    h.Some? && exists q :: q in rows && q != pid && rows[q].newHash == h
  }

  /** Unique index on HistoryProposal.transaction_hash. */
  predicate HistoryHashTaken(history: seq<HistoryRow>, h: Option<Hash>)
  {
    h.Some? && exists i :: 0 <= i < |history| && history[i].hash == h
  }
}

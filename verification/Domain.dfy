/** Vocabulary shared by every component: optional values, identifiers, instants and the
    closed choice sets of the Proposal model. */
module Domain {

  datatype Option<+T> = None | Some(value: T) {
    function GetOr(default: T): T { if Some? then value else default }
  }

  type ProposalId = nat
  type Hash = string
  type Account = string

  /** Microseconds since 0001-01-01T00:00:00Z, which is a Monday midnight in UTC. */
  type Instant = int

  const MICROSECOND: int := 1
  const SECOND: int := 1_000_000
  const DAY: int := 86_400 * SECOND
  const WEEK: int := 7 * DAY

  datatype Action = NoAction | ToCreate | ToUpdate | ToSubmit
  datatype ProposalStatus = Discussion | Queued | Voting | Voted | Expired
  datatype PaymentStatus = HorizonError | BadMemo | InvalidPayment | FailedTransaction | Fine
  datatype ProposalType = General | AddAsset | RemoveAsset
  datatype Purpose = ForCreate | ForUpdate | ForSubmit | Legacy

  predicate IsAssetType(t: ProposalType) { t != General }

  /** A Quill column: `html` is whatever JSON scalar was stored, so it may not be text. */
  datatype Html = Html(text: string) | Unencodable(tag: nat)
}

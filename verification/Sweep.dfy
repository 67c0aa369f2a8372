/** Which rows the payment sweep asks Horizon about again, and what takes a row out of it or back in. */
module Sweep {
  import opened Domain
  import opened Hashes
  import opened Records
  import opened Transitions
  import opened Promotion
  import opened Protocol

  /** The hash the row is waiting for. */
  function PendingHash(row: Row): Option<Hash> { if row.action == ToCreate then row.hash else row.newHash }

  predicate TimedOut(row: Row, now: Instant, timeout: int)
  {
    row.notFoundSince.Some? && row.notFoundSince.value <= now - timeout
  }

  /** The sweep's query: visible, waiting, not already rejected under this hash, not missing for too long. */
  predicate InSweep(row: Row, now: Instant, timeout: int)
  {
    && !row.hidden && row.action != NoAction
    && !(PendingHash(row).Some? && PendingHash(row) == row.rejectedHash)
    && !TimedOut(row, now, timeout)
  }

  /** The two exclusions by the rejected hash, column by column, and the timeout. */
  lemma {:induction false} SweepAsksExactly(row: Row, now: Instant, timeout: int)
    ensures InSweep(row, now, timeout)
            <==> && !row.hidden
                 && (match row.action
                     case NoAction => false
                     case ToCreate => row.hash.None? || row.rejectedHash != row.hash
                     case ToUpdate => row.newHash.None? || row.rejectedHash != row.newHash
                     case ToSubmit => row.newHash.None? || row.rejectedHash != row.newHash)
                 && (row.notFoundSince.Some? ==> now < row.notFoundSince.value + timeout)
  {
  }

  /** A re-armed row is in the sweep again, whatever kept it out, unless it stays hidden. */
  lemma RearmReturnsToSweep(row: Row, action: Action, unhide: bool, now: Instant, timeout: int)
    requires action != NoAction
    ensures InSweep(Rearmed(row, action, unhide), now, timeout) <==> !row.hidden || unhide
    ensures SameContent(row, Rearmed(row, action, unhide))
            && Rearmed(row, action, unhide).proposalStatus == row.proposalStatus
  {
  }

  /** A staged row is in the sweep, even when the same hash was rejected before. */
  lemma StagingReturnsToSweep(row: Row, action: Action, hash: Hash, envelope: Option<string>, advisory: PaymentStatus,
          now: Instant, timeout: int)
    requires OpenForStaging(row) && action != NoAction
    ensures InSweep(Staged(row, action, hash, envelope, advisory), now, timeout)
  {
  }

  /** A terminal rejection takes a creation out of the sweep for good, and an update or submit exactly when
      its stored hash is spelled as the marker spells it: the query compares the two as text. */
  lemma RejectionLeavesSweepIff(db: Db, pid: ProposalId, expected: Action, status: PaymentStatus, now: Instant,
          timeout: int)
    requires pid in db.rows && expected != NoAction
    requires TerminalVerdict(db, pid, expected, status, PendingHash(db.rows[pid])).Rewrite?
    ensures var row, after := db.rows[pid], TerminalVerdict(db, pid, expected, status, PendingHash(db.rows[pid])).row;
            InSweep(after, now, timeout)
            <==> && expected != ToCreate && !row.hidden && !TimedOut(row, now, timeout)
                 && PendingHash(row) != Some(RejectionMarker(PendingHash(row)))
  {
    hide CanonicalHash;
  }

  /** A staged hash is canonical, so its rejection always ends the sweep's questions about it. */
  lemma {:induction false} StagedRejectionLeavesSweep(db: Db, pid: ProposalId, expected: Action, status: PaymentStatus,
          now: Instant, timeout: int)
    requires pid in db.rows && expected != NoAction
    requires PendingHash(db.rows[pid]).Some? && IsCanonicalHash(PendingHash(db.rows[pid]).value)
    requires TerminalVerdict(db, pid, expected, status, PendingHash(db.rows[pid])).Rewrite?
    ensures !InSweep(TerminalVerdict(db, pid, expected, status, PendingHash(db.rows[pid])).row, now, timeout)
  {
    hide IsCanonicalHash, CanonicalHash, InSweep, RejectionMarker;
    MarkerOfCanonical(PendingHash(db.rows[pid]).value);
    RejectionLeavesSweepIff(db, pid, expected, status, now, timeout);
  }

  /** A payment reported missing is asked about until the timeout has passed since it was first missing:
      later not-found answers do not extend it. */
  lemma {:induction false} MissingLeavesSweepAtTimeout(db: Db, pid: ProposalId, expected: Action, reported: Instant,
          now: Instant, timeout: int)
    requires pid in db.rows && expected != NoAction && db.rows[pid].action == expected && !db.rows[pid].hidden
    requires db.rows[pid].rejectedHash.None?
    ensures var row := db.rows[pid]; var c := RetryableVerdict(db, pid, expected, true, reported);
            c.Rewrite? && (InSweep(c.row, now, timeout) <==> now < row.notFoundSince.GetOr(reported) + timeout)
  {
  }
}

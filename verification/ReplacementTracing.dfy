/** Tracing and matching together: a melted balance finds the row of the balance it replaced. */
module ReplacementTracing {
  import opened Domain
  import opened VoteRecords
  import opened VoteMatching
  import Trace = ClaimableTrace

  const MAX_DEPTH: nat := 120

  /** The snapshot resolves origins by tracing Horizon's operations. */
  ghost predicate Traces(p: Provenance, h: Trace.Horizon) { forall b :: p.origin(b) == Trace.Trace(h, b, MAX_DEPTH) }

  lemma {:induction false} OnlyRowWithOrigin(p: Provenance, rows: seq<Stored>, o: BalanceId, row: Stored)
    requires DistinctRows(rows) && row in rows && OriginOf(p, row.vote.balanceId) == Some(o)
    requires forall r :: r in rows && OriginOf(p, r.vote.balanceId) == Some(o) ==> r == row
    ensures RowsWithOrigin(p, rows, o) == [row]
  {
    hide OriginOf;
    var n := |rows| - 1;
    assert rows == rows[..n] + [rows[n]];
    if rows[n] == row {
      forall r | r in rows[..n] ensures OriginOf(p, r.vote.balanceId) != Some(o) {
        assert r in rows && r.id != row.id;
      }
      NoElements(RowsWithOrigin(p, rows[..n], o));
    } else {
      assert row in rows[..n];
      OnlyRowWithOrigin(p, rows[..n], o, row);
    }
  }

  lemma {:induction false} OnlyItemWithOrigin(p: Provenance, items: seq<Item>, o: BalanceId, item: Item)
    requires DistinctItems(items) && item in items && OriginOf(p, Some(item.balance.id)) == Some(o)
    requires forall x :: x in items && OriginOf(p, Some(x.balance.id)) == Some(o) ==> x == item
    ensures ItemsWithOrigin(p, items, o) == [item]
  {
    hide OriginOf;
    var n := |items| - 1;
    assert items == items[..n] + [items[n]];
    if items[n] == item {
      forall x | x in items[..n] ensures OriginOf(p, Some(x.balance.id)) != Some(o) {
        assert x in items && x.index != item.index;
      }
      NoElements(ItemsWithOrigin(p, items[..n], o));
    } else {
      assert item in items[..n];
      OnlyItemWithOrigin(p, items[..n], o, item);
    }
  }

  lemma NoElements<T>(s: seq<T>)
    ensures s == [] || s[0] in s
  {
  }

  /** However often a balance was replaced, its replacement is paired with its row by origin, as long
      as no other leftover row or replacement shares that origin. */
  lemma ReplacementFindsItsRow(p: Provenance, h: Trace.Horizon, rows: seq<Stored>, items: seq<Item>, row: Stored,
          item: Item, b: BalanceId, k: nat, o: BalanceId)
    requires Traces(p, h) && DistinctRows(rows) && DistinctItems(items) && row in rows && item in items
    requires row.vote.balanceId == Some(b) && b != "" && item.balance.id != ""
             && Trace.Ancestor(h, item.balance.id, k) == Some(b)
    requires p.origin(item.balance.id) == Some(o)
    requires forall r :: r in rows && OriginOf(p, r.vote.balanceId) == Some(o) ==> r == row
    requires forall x :: x in items && OriginOf(p, Some(x.balance.id)) == Some(o) ==> x == item
    ensures UniqueOnBothSides(p, rows, items, o, (row, item))
  {
    Trace.OriginSurvivesReplacements(h, item.balance.id, k, b, MAX_DEPTH);
    assert p.origin(b) == Some(o);
    OnlyRowWithOrigin(p, rows, o, row);
    OnlyItemWithOrigin(p, items, o, item);
  }
}

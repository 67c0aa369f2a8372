/** Normalising one stored hash column before the ledger is built from it. */
module HashNormalization {
  import opened Domain
  import opened Hashes

  /** One column in id order; values are distinct because the column has a unique index. */
  type Column = seq<(nat, Option<string>)>

  ghost predicate DistinctIds(column: Column) { forall i, j :: 0 <= i < j < |column| ==> column[i].0 != column[j].0 }

  ghost predicate UniqueValues(column: Column)
  {
    forall i, j :: 0 <= i < j < |column| && column[i].1.Some? ==> column[i].1 != column[j].1
  }

  // ---- The database's own trim ----

  function TrimLeft(s: string): string { if s != "" && s[0] == ' ' then TrimLeft(s[1..]) else s }

  function TrimRight(s: string): string { if s != "" && s[|s| - 1] == ' ' then TrimRight(s[..|s| - 1]) else s }

  /** Trim in SQL removes spaces only; Python's strip removes every kind of white space. */
  function SqlTrim(s: string): string { TrimRight(TrimLeft(s)) }

  function SqlNormal(v: Option<string>): Option<string> { if v.None? then None else Some(Lower(SqlTrim(v.value))) }

  /** What the update leaves in one cell. */
  function Normalized(v: Option<string>): Option<string>
  {
    if CanonicalHash(v) == "" || v == Some(CanonicalHash(v)) then v else SqlNormal(v)
  }

  // ---- Collisions ----

  ghost predicate Collision(column: Column, i: nat, j: nat)
  {
    i < j < |column| && CanonicalHash(column[i].1) != "" && CanonicalHash(column[i].1) == CanonicalHash(column[j].1)
  }

  ghost predicate CollisionFree(column: Column) { forall i: nat, j: nat :: !Collision(column, i, j) }

  type Groups = map<string, seq<(nat, Option<string>)>>

  ghost predicate GroupsOf(groups: Groups, column: Column)
  {
    && (forall h :: h in groups ==> h != "" && groups[h] != [] && forall m :: m in groups[h]
                                                                              ==> m in column
                                                                                  && CanonicalHash(m.1) == h)
    && (forall i :: 0 <= i < |column| && CanonicalHash(column[i].1) != "" ==>
          CanonicalHash(column[i].1) in groups && column[i] in groups[CanonicalHash(column[i].1)])
    && (forall h, a, b :: h in groups && 0 <= a < b < |groups[h]| ==> groups[h][a].0 != groups[h][b].0)
  }

  function Members(groups: Groups, h: string): seq<(nat, Option<string>)> { if h in groups then groups[h] else [] }

  lemma GroupsGrow(groups: Groups, column: Column, i: nat)
    requires DistinctIds(column) && i < |column| && GroupsOf(groups, column[..i])
    ensures var h := CanonicalHash(column[i].1);
            GroupsOf(if h == "" then groups else groups[h := Members(groups, h) + [column[i]]], column[..i + 1])
  {
    hide CanonicalHash;
    var h := CanonicalHash(column[i].1);
    assert column[..i + 1] == column[..i] + [column[i]];
    assert forall m :: m in column[..i] ==> m.0 != column[i].0;
    if h != "" {
      var mine := Members(groups, h);
      assert forall a :: 0 <= a < |mine| ==> mine[a] in mine;
    }
  }

  lemma NoGroupsYet(column: Column)
    ensures GroupsOf(map[], column[..0])
  {
  }

  method GroupByCanonicalHash(column: Column) returns (groups: Groups)
    requires DistinctIds(column)
    ensures GroupsOf(groups, column)
  {
    hide CanonicalHash, GroupsOf;
    NoGroupsYet(column);
    groups := map[];
    for i := 0 to |column|
      invariant GroupsOf(groups, column[..i])
    {
      var canonical := CanonicalHash(column[i].1);
      GroupsGrow(groups, column, i);
      if canonical == "" {
        continue;
      }
      groups := groups[canonical := Members(groups, canonical) + [column[i]]];
    }
    assert column[..|column|] == column;
  }

  lemma LonelyGroups(groups: Groups, column: Column)
    requires DistinctIds(column) && GroupsOf(groups, column)
    ensures (forall h :: h in groups ==> |groups[h]| == 1) <==> CollisionFree(column)
  {
    hide CanonicalHash;
    forall i: nat, j: nat | Collision(column, i, j) ensures |groups[CanonicalHash(column[i].1)]| > 1 {
      var members := groups[CanonicalHash(column[i].1)];
      assert column[i] in members && column[j] in members;
      var a :| 0 <= a < |members| && members[a] == column[i];
      var b :| 0 <= b < |members| && members[b] == column[j];
      assert a != b;
    }
    forall h | h in groups && |groups[h]| != 1 ensures !CollisionFree(column) {
      assert groups[h][0] in groups[h] && groups[h][1] in groups[h];
      var i :| 0 <= i < |column| && column[i] == groups[h][0];
      var j :| 0 <= j < |column| && column[j] == groups[h][1];
      assert groups[h][0].0 != groups[h][1].0;
      assert Collision(column, if i < j then i else j, if i < j then j else i);
    }
  }

  /** Refuses exactly on a case-only duplicate; otherwise rewrites the cells that are not canonical. */
  method NormalizeHashColumn(column: Column) returns (ok: bool, after: Column)
    requires DistinctIds(column)
    ensures ok <==> CollisionFree(column)
    ensures !ok ==> after == column
    ensures ok ==> |after| == |column| && forall i :: 0 <= i < |column|
                                                      ==> after[i] == (column[i].0, Normalized(column[i].1))
  {
    hide CanonicalHash, SqlNormal;
    var groups := GroupByCanonicalHash(column);
    LonelyGroups(groups, column);
    if exists h :: h in groups && |groups[h]| > 1 {
      return false, column;
    }
    ok, after := true, [];
    for i := 0 to |column|
      invariant |after| == i && forall k :: 0 <= k < i ==> after[k] == (column[k].0, Normalized(column[k].1))
    {
      var (id, value) := column[i];
      var canonical := CanonicalHash(value);
      var stale := canonical in groups && groups[canonical][0] == (id, value) && value != Some(canonical);
      AloneInItsGroup(groups, column, i);
      after := after + [(id, if stale then SqlNormal(value) else value)];
    }
  }

  lemma AloneInItsGroup(groups: Groups, column: Column, i: nat)
    requires GroupsOf(groups, column) && i < |column| && forall h :: h in groups ==> |groups[h]| == 1
    ensures var canonical := CanonicalHash(column[i].1);
            (canonical in groups <==> canonical != "") && (canonical in groups ==> groups[canonical][0] == column[i])
  {
    hide CanonicalHash;
    var canonical := CanonicalHash(column[i].1);
    if canonical != "" {
      assert column[i] in groups[canonical] && groups[canonical] == [groups[canonical][0]];
    }
  }

  // ---- Trimming and folding keep the meaning of a hash ----

  lemma {:induction false} StripLeftOfLower(s: string)
    ensures StripLeft(Lower(s)) == Lower(StripLeft(s))
  {
    if s != "" && IsSpace(s[0]) {
      StripLeftOfLower(s[1..]);
      assert Lower(s)[1..] == Lower(s[1..]);
    }
  }

  lemma {:induction false} StripRightOfLower(s: string)
    ensures StripRight(Lower(s)) == Lower(StripRight(s))
  {
    if s != "" && IsSpace(s[|s| - 1]) {
      StripRightOfLower(s[..|s| - 1]);
      assert Lower(s)[..|s| - 1] == Lower(s[..|s| - 1]);
    }
  }

  lemma {:induction false} StripLeftOfTrimmed(s: string)
    ensures StripLeft(TrimLeft(s)) == StripLeft(s)
  {
    if s != "" && s[0] == ' ' {
      StripLeftOfTrimmed(s[1..]);
    }
  }

  lemma {:induction false} StripLeftOfExtended(s: string, c: char)
    ensures StripLeft(s + [c]) == if StripLeft(s) == "" then StripLeft([c]) else StripLeft(s) + [c]
  {
    if s == "" {
      assert s + [c] == [c];
    } else if IsSpace(s[0]) {
      assert (s + [c])[1..] == s[1..] + [c];
      StripLeftOfExtended(s[1..], c);
    }
  }

  lemma {:induction false} StripOfTrimmedRight(s: string)
    ensures Strip(TrimRight(s)) == Strip(s)
  {
    if s != "" && s[|s| - 1] == ' ' {
      var rest := s[..|s| - 1];
      StripOfTrimmedRight(rest);
      assert s == rest + [' '];
      StripLeftOfExtended(rest, ' ');
      var left := StripLeft(rest);
      assert (left + [' '])[..|left|] == left;
      assert StripLeft([' ']) == "";
    }
  }

  /** A normalised cell names the same hash as before. */
  lemma NormalizationKeepsHash(v: Option<string>)
    ensures CanonicalHash(Normalized(v)) == CanonicalHash(v)
  {
    if v.Some? {
      var s := v.value;
      StripLeftOfTrimmed(s);
      StripOfTrimmedRight(TrimLeft(s));
      assert Strip(SqlTrim(s)) == Strip(s);
      StripLeftOfLower(SqlTrim(s));
      StripRightOfLower(StripLeft(SqlTrim(s)));
      LowerIsIdempotent(Strip(s));
    }
  }

  /** No white space other than plain spaces surrounds the text. */
  predicate OnlySpacesAround(s: string)
  {
    var t := SqlTrim(s);
    t != "" && !IsSpace(t[0]) && !IsSpace(t[|t| - 1])
  }

  lemma {:induction false} StripNothing(s: string)
    ensures Strip(s) == s <==> s == "" || (!IsSpace(s[0]) && !IsSpace(s[|s| - 1]))
  {
    if s != "" {
      StripLeftShrinks(s);
      StripRightShrinks(StripLeft(s));
      if IsSpace(s[0]) {
        StripLeftShrinks(s[1..]);
      }
      if !IsSpace(s[0]) && IsSpace(s[|s| - 1]) {
        StripRightShrinks(s[..|s| - 1]);
      }
    }
  }

  lemma {:induction false} StripLeftShrinks(s: string)
    ensures |StripLeft(s)| <= |s|
  {
    if s != "" && IsSpace(s[0]) {
      StripLeftShrinks(s[1..]);
    }
  }

  lemma {:induction false} StripRightShrinks(s: string)
    ensures |StripRight(s)| <= |s|
  {
    if s != "" && IsSpace(s[|s| - 1]) {
      StripRightShrinks(s[..|s| - 1]);
    }
  }

  /** A cell that holds a hash ends up canonical exactly when it was, or when only spaces surround it:
      a tab or a line break survives the database's trim. */
  lemma CanonicalIff(s: string)
    requires CanonicalHash(Some(s)) != ""
    ensures Normalized(Some(s)) == Some(CanonicalHash(Some(s))) <==> s == CanonicalHash(Some(s)) || OnlySpacesAround(s)
  {
    var t := SqlTrim(s);
    StripLeftOfTrimmed(s);
    StripOfTrimmedRight(TrimLeft(s));
    assert Strip(t) == Strip(s);
    StripNothing(t);
    StripLeftShrinks(t);
    StripRightShrinks(StripLeft(t));
    if Strip(t) != t {
      StripIsShorter(t);
      assert |Lower(t)| != |Lower(Strip(t))|;
    }
  }

  lemma {:induction false} StripIsShorter(s: string)
    requires Strip(s) != s
    ensures |Strip(s)| < |s|
  {
    StripLeftShrinks(s);
    StripRightShrinks(StripLeft(s));
    if s != "" && IsSpace(s[0]) {
      StripLeftShrinks(s[1..]);
    } else if s != "" && IsSpace(s[|s| - 1]) {
      StripRightShrinks(s[..|s| - 1]);
    }
  }

  /** The columns hold 64 characters, so nothing fits around a real hash: every stored hash, however it
      is spelled, ends up canonical. */
  lemma ColumnHashBecomesCanonical(s: string)
    requires |s| <= 64 && IsTransactionHash(Strip(s))
    ensures Normalized(Some(s)) == Some(CanonicalHash(Some(s)))
  {
    if Strip(s) != s {
      StripIsShorter(s);
      assert false;
    }
    StripNothing(s);
    assert IsHexDigit(LowerChar(s[0])) && IsHexDigit(LowerChar(s[|s| - 1])) by {
      assert Lower(s)[0] == LowerChar(s[0]) && Lower(s)[|s| - 1] == LowerChar(s[|s| - 1]);
    }
    assert SqlTrim(s) == s;
  }

  /** A cell that stays uncanonical holds text that is no hash. */
  lemma UncanonicalCellIsNoHash(s: string)
    requires |s| <= 64 && Normalized(Some(s)) != Some(CanonicalHash(Some(s))) && CanonicalHash(Some(s)) != ""
    ensures !IsTransactionHash(Strip(s)) && !OnlySpacesAround(s)
  {
    if IsTransactionHash(Strip(s)) {
      ColumnHashBecomesCanonical(s);
    }
    CanonicalIff(s);
  }

  /** Such a cell exists: the database's trim leaves a tab before a word where it is. */
  lemma TabSurvives()
    ensures CanonicalHash(Some("\tx")) == "x" && Normalized(Some("\tx")) == Some("\tx")
  {
    assert "\tx"[1..] == "x";
    assert StripLeft("\tx") == "x" && StripRight("x") == "x";
    assert Lower("x") == "x" && Lower("\tx") == "\tx";
    assert TrimLeft("\tx") == "\tx" && TrimRight("\tx") == "\tx";
  }

  /** An accepted normalisation keeps the unique index, also while only some cells are rewritten. */
  lemma NormalizationStaysUnique(column: Column, i: nat, j: nat, x: Option<string>, y: Option<string>)
    requires UniqueValues(column) && CollisionFree(column) && i < j < |column|
    requires x.Some? && (x == column[i].1 || x == Normalized(column[i].1))
             && (y == column[j].1 || y == Normalized(column[j].1))
    ensures x != y
  {
    hide CanonicalHash;
    NormalizationKeepsHash(column[i].1);
    NormalizationKeepsHash(column[j].1);
    assert !Collision(column, i, j);
  }
}

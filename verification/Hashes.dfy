/** Spelling of transaction hashes: trimming, case folding and the two accepted shapes. */
module Hashes {
  import opened Domain

  predicate IsSpace(c: char) { c == ' ' || '\t' <= c <= '\r' }

  function LowerChar(c: char): char
  {
    if 'A' <= c <= 'Z' then ((c as int) + 32) as char else c
  }

  function Lower(s: string): string { seq(|s|, i requires 0 <= i < |s| => LowerChar(s[i])) }

  function StripLeft(s: string): string
  {
    if |s| > 0 && IsSpace(s[0]) then StripLeft(s[1..]) else s
  }

  function StripRight(s: string): string
  {
    if |s| > 0 && IsSpace(s[|s| - 1]) then StripRight(s[..|s| - 1]) else s
  }

  function Strip(s: string): string { StripRight(StripLeft(s)) }

  /** The spelling the ledger keys on; blank when there is no hash at all. */
  function CanonicalHash(value: Option<string>): string
  {
    if value.None? then "" else Lower(Strip(value.value))
  }

  predicate IsHexDigit(c: char) { '0' <= c <= '9' || 'a' <= c <= 'f' }

  predicate IsCanonicalHash(s: string) { |s| == 64 && forall i :: 0 <= i < |s| ==> IsHexDigit(s[i]) }

  /** 64 hexadecimal characters in either case. */
  predicate IsTransactionHash(s: string) { |s| == 64 && IsCanonicalHash(Lower(s)) }

  lemma CanonicalHashIsFixed(s: string)
    requires IsCanonicalHash(s)
    ensures CanonicalHash(Some(s)) == s
    ensures Lower(s) == s
    ensures IsTransactionHash(s)
  {
    assert !IsSpace(s[0]) && !IsSpace(s[|s| - 1]);
    assert forall i :: 0 <= i < |s| ==> LowerChar(s[i]) == s[i];
    assert Lower(s) == s;
  }

  lemma LowerIsIdempotent(s: string)
    ensures Lower(Lower(s)) == Lower(s)
  {
  }

  /** What a rejection records: the trimmed lower-case hash cut to the column, or "" for none. */
  function RejectionMarker(hash: Option<Hash>): Hash
  {
    var h := CanonicalHash(hash);
    if |h| > 64 then h[..64] else h
  }

  lemma MarkerOfCanonical(s: string)
    requires IsCanonicalHash(s)
    ensures RejectionMarker(Some(s)) == s
  {
    CanonicalHashIsFixed(s);
  }
}

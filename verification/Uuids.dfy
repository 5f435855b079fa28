/** UUIDs as text: any letter case on the way in, one canonical spelling once stored. */
module Uuids {

  /** A uuid value as PostgreSQL prints it, lower case. */
  type Uuid = string

  predicate IsHex(c: char) { '0' <= c <= '9' || 'a' <= c <= 'f' || 'A' <= c <= 'F' }

  /** What the API's pattern 8-4-4-4-12 accepts. */
  predicate IsUuid(s: string)
  {
    |s| == 36 && forall i :: 0 <= i < 36 ==> if i in {8, 13, 18, 23} then s[i] == '-' else IsHex(s[i])
  }

  function Lower(c: char): char
  {
    if 'A' <= c <= 'F' then (c as int + 32) as char else c
  }

  /** The value a spelling stands for. */
  function Canon(s: string): (r: Uuid)
    ensures |r| == |s|
  {
    seq(|s|, i requires 0 <= i < |s| => Lower(s[i]))
  }

  predicate Canonical(s: Uuid) { IsUuid(s) && Canon(s) == s }

  lemma CanonIsCanonical(s: string)
    requires IsUuid(s)
    ensures Canonical(Canon(s))
  {
    var r := Canon(s);
    assert forall i :: 0 <= i < |r| ==> Lower(r[i]) == r[i];
    assert forall i :: 0 <= i < |r| && IsHex(s[i]) ==> IsHex(r[i]);
  }
}

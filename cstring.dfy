/** NUL-terminated strings as the firmware's `while (*str)` walks see them. */
module CString {

  const NUL: bv8 := 0

  /** The index of the first NUL at or after from, or |s| when there is none. */
  function NulIndex(s: seq<bv8>, from: nat): (i: nat)
    requires from <= |s|
    ensures from <= i <= |s|
    ensures forall j :: from <= j < i ==> s[j] != NUL
    ensures i < |s| ==> s[i] == NUL
    decreases |s| - from, s
  {
    if from == |s| || s[from] == NUL then from else NulIndex(s, from + 1)
  }

  /** The bytes a `while (*str)` walk visits: everything before the first NUL.
      A sequence without a NUL stands for a string whose terminator follows it. */
  function UntilNul(s: seq<bv8>): (r: seq<bv8>)
    ensures |r| <= |s| && r == s[..|r|]
    ensures forall j :: 0 <= j < |r| ==> r[j] != NUL
    ensures |r| < |s| ==> s[|r|] == NUL
  {
    s[..NulIndex(s, 0)]
  }

  /** A prefix free of NUL that ends at a NUL (or at the end) is exactly what the walk visits. */
  lemma UntilNulAt(s: seq<bv8>, i: nat)
    requires i <= |s|
    requires forall j :: 0 <= j < i ==> s[j] != NUL
    requires i == |s| || s[i] == NUL
    ensures UntilNul(s) == s[..i]
  {
  }
}

// Small shared vocabulary: optional values, results, and the machine bounds
// that the Rust sources convert against.

module Basics {
  datatype Option<+T> = None | Some(value: T)

  datatype Result<+T, +E> = Ok(value: T) | Err(error: E)

  const U16_MAX: nat := 0xFFFF
  const U32_MAX: nat := 0xFFFF_FFFF

  type u8 = n: nat | n < 0x100
  type u16 = n: nat | n < 0x1_0000
  type u32 = n: nat | n < 0x1_0000_0000
  type u64 = n: nat | n < 0x1_0000_0000_0000_0000

  function Min(a: nat, b: nat): nat {
    if a <= b then a else b
  }

  function Max(a: nat, b: nat): nat {
    if a <= b then b else a
  }

  // ---- selection ----

  // The elements that `keep` picks, in order.
  function Sift<T>(s: seq<T>, keep: T -> bool): (kept: seq<T>)
    ensures |kept| <= |s|
  {
    if s == [] then []
    else
      var earlier := Sift(s[..|s| - 1], keep);
      if keep(s[|s| - 1]) then earlier + [s[|s| - 1]] else earlier
  }

  // The positions `at`, in order, are those that `keep` picks, and `kept` is what is there.
  predicate IsPicked<T(==)>(kept: seq<T>, s: seq<T>, keep: T -> bool, at: seq<nat>) {
    && |at| == |kept|
    && (forall i, j :: 0 <= i < j < |at| ==> at[i] < at[j])
    && (forall i :: 0 <= i < |at| ==> at[i] < |s| && kept[i] == s[at[i]])
    && (forall k :: 0 <= k < |s| ==> (k in at <==> keep(s[k])))
  }

  function Picked<T>(s: seq<T>, keep: T -> bool): seq<nat> {
    if s == [] then []
    else Picked(s[..|s| - 1], keep) + if keep(s[|s| - 1]) then [|s| - 1] else []
  }

  lemma {:induction false} SiftPicks<T>(s: seq<T>, keep: T -> bool)
    ensures IsPicked(Sift(s, keep), s, keep, Picked(s, keep))
  {
    if s != [] {
      var n := |s| - 1;
      SiftPicks(s[..n], keep);
      var kept, at := Sift(s[..n], keep), Picked(s[..n], keep);
      if keep(s[n]) {
        PickedLast(kept, s, keep, at);
      } else {
        assert at + [] == at;
        NotPickedLast(kept, s, keep, at);
      }
    }
  }

  lemma PickedLast<T>(kept: seq<T>, s: seq<T>, keep: T -> bool, at: seq<nat>)
    requires s != [] && keep(s[|s| - 1]) && IsPicked(kept, s[..|s| - 1], keep, at)
    ensures IsPicked(kept + [s[|s| - 1]], s, keep, at + [|s| - 1])
  {
    var n := |s| - 1;
    forall k | 0 <= k < |s| ensures k in at + [n] <==> keep(s[k]) {
      if k < n {
        assert s[..n][k] == s[k];
      }
    }
  }

  lemma NotPickedLast<T>(kept: seq<T>, s: seq<T>, keep: T -> bool, at: seq<nat>)
    requires s != [] && !keep(s[|s| - 1]) && IsPicked(kept, s[..|s| - 1], keep, at)
    ensures IsPicked(kept, s, keep, at)
  {
    var n := |s| - 1;
    forall k | 0 <= k < |s| ensures k in at <==> keep(s[k]) {
      if k < n {
        assert s[..n][k] == s[k];
      } else {
        forall i | 0 <= i < |at| ensures at[i] != n {}
      }
    }
  }

  lemma SiftMembers<T>(s: seq<T>, keep: T -> bool, x: T)
    ensures x in Sift(s, keep) <==> x in s && keep(x)
  {
    SiftPicks(s, keep);
    if x in s && keep(x) {
      var k :| 0 <= k < |s| && s[k] == x;
      assert k in Picked(s, keep);
    }
  }
}

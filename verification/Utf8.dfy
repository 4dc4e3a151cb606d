// UTF-8 text (section 3 of RFC 3629) and the one way the runtime shortens it:
// walk back from a byte limit to a character boundary.

module Utf8 {
  import opened Basics

  predicate IsTail(b: u8) {
    0x80 <= b < 0xC0
  }

  // Length of the well-formed character that starts `s`, or 0 when `s` does not
  // start with one.
  function CharLength(s: seq<u8>): (n: nat)
    ensures n <= 4 && n <= |s|
  {
    if |s| == 0 then 0
    else if s[0] < 0x80 then 1
    else if |s| >= 2 && 0xC2 <= s[0] <= 0xDF && IsTail(s[1]) then 2
    else if |s| >= 3 && ThreeByteLead(s[0], s[1]) && IsTail(s[2]) then 3
    else if |s| >= 4 && FourByteLead(s[0], s[1]) && IsTail(s[2]) && IsTail(s[3]) then 4
    else 0
  }

  predicate ThreeByteLead(a: u8, b: u8) {
    || (a == 0xE0 && 0xA0 <= b <= 0xBF)
    || (0xE1 <= a <= 0xEC && IsTail(b))
    || (a == 0xED && 0x80 <= b <= 0x9F)
    || (0xEE <= a <= 0xEF && IsTail(b))
  }

  predicate FourByteLead(a: u8, b: u8) {
    || (a == 0xF0 && 0x90 <= b <= 0xBF)
    || (0xF1 <= a <= 0xF3 && IsTail(b))
    || (a == 0xF4 && 0x80 <= b <= 0x8F)
  }

  predicate Valid(s: seq<u8>)
    decreases |s|
  {
    s == [] || (CharLength(s) > 0 && Valid(s[CharLength(s)..]))
  }

  type Text = s: seq<u8> | Valid(s) witness []

  // `str::is_char_boundary`: both ends, and any byte that is not a tail byte.
  predicate IsCharBoundary(s: seq<u8>, i: nat) {
    i == 0 || i == |s| || (i < |s| && !IsTail(s[i]))
  }

  // A prefix ending inside the first character is not valid text.
  lemma InsideFirstChar(s: seq<u8>, i: nat)
    requires 0 < i < CharLength(s)
    ensures !Valid(s[..i]) && IsTail(s[i])
  {
    var p := s[..i];
    assert p[0] == s[0];
    assert |p| >= 2 ==> p[1] == s[1];
    assert |p| >= 3 ==> p[2] == s[2];
    assert CharLength(p) == 0;
  }

  // Extending a sequence never changes the character it starts with.
  lemma CharLengthExtends(s: seq<u8>, t: seq<u8>)
    requires s <= t && CharLength(s) > 0
    ensures CharLength(t) == CharLength(s)
  {
    forall k | 0 <= k < |s| ensures t[k] == s[k] {}
  }

  // The byte test that Rust uses is exact on valid text: it accepts an offset
  // precisely when the bytes before it are themselves valid text, and then the
  // bytes after it are valid too.
  lemma {:induction false} BoundaryExact(s: seq<u8>, i: nat)
    requires Valid(s) && i <= |s|
    ensures IsCharBoundary(s, i) <==> Valid(s[..i])
    ensures IsCharBoundary(s, i) ==> Valid(s[i..])
    decreases |s|
  {
    if i == 0 {
      assert s[..0] == [] && s[0..] == s;
    } else {
      var n := CharLength(s);
      if i < n {
        InsideFirstChar(s, i);
      } else {
        BoundaryExact(s[n..], i - n);
        assert s[..i][n..] == s[n..][..i - n];
        assert s[n..][i - n..] == s[i..];
        CharLengthExtends(s[..n], s) by { FirstCharAlone(s); }
        CharLengthExtends(s[..n], s[..i]) by { FirstCharAlone(s); }
        if i == n && i < |s| {
          assert s[n..][0] == s[n];
          assert CharLength(s[n..]) > 0;
        }
      }
    }
  }

  lemma FirstCharAlone(s: seq<u8>)
    requires CharLength(s) > 0
    ensures CharLength(s[..CharLength(s)]) == CharLength(s)
  {
    var p := s[..CharLength(s)];
    forall k | 0 <= k < |p| ensures p[k] == s[k] {}
  }

  lemma {:induction false} ConcatValid(s: seq<u8>, t: seq<u8>)
    requires Valid(s) && Valid(t)
    ensures Valid(s + t)
    decreases |s|
  {
    if s == [] {
      assert s + t == t;
    } else {
      var n := CharLength(s);
      ConcatValid(s[n..], t);
      ConcatFirst(s, t);
      FirstThenRest(s + t, n);
    }
  }

  lemma ConcatFirst(s: seq<u8>, t: seq<u8>)
    requires CharLength(s) > 0
    ensures CharLength(s + t) == CharLength(s) && (s + t)[CharLength(s)..] == s[CharLength(s)..] + t
  {
    CharLengthExtends(s, s + t);
  }

  lemma FirstThenRest(s: seq<u8>, n: nat)
    requires CharLength(s) == n && n > 0 && Valid(s[n..])
    ensures Valid(s)
  {
  }

  // Boundaries after the first character are those of the rest of the text.
  lemma BoundaryOfRest(s: seq<u8>, k: nat)
    requires Valid(s) && s != [] && CharLength(s) <= k <= |s|
    ensures IsCharBoundary(s, k) <==> IsCharBoundary(s[CharLength(s)..], k - CharLength(s))
  {
    var n := CharLength(s);
    if k < |s| {
      assert s[n..][k - n] == s[k];
      if k == n {
        StartsOffTail(s[n..]);
      }
    }
  }

  lemma StartsOffTail(s: seq<u8>)
    requires Valid(s) && s != []
    ensures !IsTail(s[0])
  {
  }

  // Every valid text has a character boundary within any four consecutive offsets.
  lemma {:induction false} BoundaryNearby(s: seq<u8>, i: nat)
    requires Valid(s) && 3 <= i <= |s|
    ensures exists k | i - 3 <= k <= i :: IsCharBoundary(s, k)
    decreases |s|
  {
    var n := CharLength(s);
    if i < n {
      assert IsCharBoundary(s, 0);
    } else if i < n + 3 {
      BoundaryOfRest(s, n);
      assert IsCharBoundary(s, n);
    } else {
      BoundaryNearby(s[n..], i - n);
      var k :| i - n - 3 <= k <= i - n && IsCharBoundary(s[n..], k);
      BoundaryOfRest(s, n + k);
      assert IsCharBoundary(s, n + k);
    }
  }

  // `r` is the longest valid prefix of `s` that is at most `limit` bytes long.
  ghost predicate IsLongestPrefix(s: seq<u8>, limit: nat, r: seq<u8>) {
    && r <= s && |r| <= limit && Valid(r)
    && forall k | |r| < k <= |s| && k <= limit :: !Valid(s[..k])
  }

  lemma LongestPrefixUnique(s: seq<u8>, limit: nat, r: seq<u8>, q: seq<u8>)
    requires IsLongestPrefix(s, limit, r) && IsLongestPrefix(s, limit, q)
    ensures r == q
  {
    assert r == s[..|r|] && q == s[..|q|];
  }

  // The value the walk back from `limit` stops at.
  function Floor(s: seq<u8>, limit: nat): (r: nat)
    requires limit <= |s|
    ensures r <= limit && IsCharBoundary(s, r)
    ensures forall k | r < k <= limit :: !IsCharBoundary(s, k)
  {
    if limit == 0 || IsCharBoundary(s, limit) then limit else Floor(s, limit - 1)
  }

  function Clip(s: Text, limit: nat): (r: Text)
    ensures IsLongestPrefix(s, limit, r)
    ensures |s| <= limit <==> r == s
    ensures |s| > limit ==> limit <= |r| + 3
  {
    var n := Floor(s, Min(|s|, limit));
    assert Valid(s[..n]) && forall k | n < k <= |s| && k <= limit :: !Valid(s[..k]) by {
      BoundaryExact(s, n);
      forall k | n < k <= |s| && k <= limit ensures !Valid(s[..k]) { BoundaryExact(s, k); }
    }
    assert |s| > limit ==> limit <= n + 3 by {
      if |s| > limit >= 3 { BoundaryNearby(s, limit); }
    }
    s[..n]
  }

  // Clipping twice is clipping once at the smaller limit.
  lemma ClipTwice(s: Text, a: nat, b: nat)
    ensures Clip(Clip(s, a), b) == Clip(s, Min(a, b))
  {
    var once := Clip(s, a);
    var twice := Clip(once, b);
    forall k | |twice| < k <= |s| && k <= Min(a, b) ensures !Valid(s[..k]) {
      if k <= |once| { assert once[..k] == s[..k]; }
    }
    LongestPrefixUnique(s, Min(a, b), twice, Clip(s, Min(a, b)));
  }

  // The loop of `truncate` and of the wire encoder: step back to a boundary.
  method FloorBoundary(s: Text, limit: nat) returns (boundary: nat)
    requires limit <= |s|
    ensures boundary == |Clip(s, limit)| && s[..boundary] == Clip(s, limit)
  {
    boundary := limit;
    while boundary > 0 && !IsCharBoundary(s, boundary)
      invariant boundary <= limit && Floor(s, boundary) == Floor(s, limit)
    {
      boundary := boundary - 1;
    }
  }
}

/**
 First occurrences of a pattern, and where a request must cut the stream.
 `bufbuf` and the two modes of `recv_till` are described here as functions of
 a finite stretch of the stream.
 */
module Matching {
  import opened Streams

  /** The arguments of `recv_till`; an empty pattern is the fill mode. */
  datatype RequestBase = Request(cap: nat, pattern: bytes)

  /** The constructors of `recv_till` insist on a non-empty buffer. */
  type Request = r: RequestBase | r.cap > 0 witness Request(1, [])

  predicate MatchAt(s: bytes, p: bytes, i: nat) {
    i + |p| <= |s| && s[i..i + |p|] == p
  }

  /** No occurrence of `p` begins at a position in `[lo, hi)`. */
  ghost predicate NoMatchIn(s: bytes, p: bytes, lo: nat, hi: nat) {
    forall i: nat | lo <= i < hi :: !MatchAt(s, p, i)
  }

  /** The first position at or after `i` where `p` occurs. */
  function FindFrom(s: bytes, p: bytes, i: nat): (r: Option<nat>)
    requires i <= |s|
    ensures r.Some? ==> i <= r.value && MatchAt(s, p, r.value) && NoMatchIn(s, p, i, r.value)
    ensures r.None? ==> NoMatchIn(s, p, i, |s| + 1)
    decreases |s| - i
  {
    if MatchAt(s, p, i) then Some(i)
    else if i == |s| then None
    else FindFrom(s, p, i + 1)
  }

  /**
   How many bytes of the stream `s` request `r` takes, once enough of `s` is known.
   A match that ends beyond the capacity, or the certainty that none ends within
   it, fills the buffer.
   */
  function Cut(s: bytes, r: Request): (k: Option<nat>)
    ensures k.Some? ==> 0 < k.value <= r.cap && k.value <= |s|
  {
    if r.pattern == [] then
      if |s| >= r.cap then Some(r.cap) else None
    else
      match FindFrom(s, r.pattern, 0)
      case Some(i) => Some(Min(i + |r.pattern|, r.cap))
      case None => if |s| + 1 >= r.cap + |r.pattern| then Some(r.cap) else None
  }

  lemma MatchExtends(s: bytes, t: bytes, p: bytes, i: nat)
    requires i + |p| <= |s|
    ensures MatchAt(s + t, p, i) <==> MatchAt(s, p, i)
  {
    assert (s + t)[i..i + |p|] == s[i..i + |p|];
  }

  lemma NoMatchExtends(s: bytes, t: bytes, p: bytes, hi: nat)
    requires NoMatchIn(s, p, 0, hi)
    requires hi == 0 || hi - 1 + |p| <= |s|
    ensures NoMatchIn(s + t, p, 0, hi)
  {
    forall i: nat | 0 <= i < hi ensures !MatchAt(s + t, p, i) {
      MatchExtends(s, t, p, i);
    }
  }

  /** A first match is unique, so it determines `FindFrom`. */
  lemma FindIs(s: bytes, p: bytes, i: nat)
    requires MatchAt(s, p, i) && NoMatchIn(s, p, 0, i)
    ensures FindFrom(s, p, 0) == Some(i)
  {
  }

  /** Bytes that arrive later never change a cut that has been decided. */
  lemma CutStable(s: bytes, t: bytes, r: Request)
    requires Cut(s, r).Some?
    ensures Cut(s + t, r) == Cut(s, r)
  {
    var p := r.pattern;
    if p != [] {
      match FindFrom(s, p, 0) {
        case Some(i) =>
          MatchExtends(s, t, p, i);
          NoMatchExtends(s, t, p, i);
          FindIs(s + t, p, i);
        case None =>
          NoMatchExtends(s, t, p, |s| + 1 - |p|);
      }
    }
  }

  /**
   What the cut means on the whole stream `s + t`: the request ends with the first
   occurrence of its pattern, or at its capacity, whichever comes first.
   */
  lemma CutMeaning(s: bytes, t: bytes, r: Request)
    requires Cut(s, r).Some?
    ensures r.pattern == [] ==> Cut(s, r) == Some(r.cap)
    ensures r.pattern != [] ==>
      match FindFrom(s + t, r.pattern, 0)
      case Some(i) => Cut(s, r) == Some(Min(i + |r.pattern|, r.cap))
      case None => Cut(s, r) == Some(r.cap)
  {
    CutStable(s, t, r);
  }

  /** `s` ends with `p`. */
  predicate EndsWith(s: bytes, p: bytes) { |p| <= |s| && s[|s| - |p|..] == p }

  /** The first occurrence of the pattern in `s` ends within the capacity. */
  predicate FirstFits(s: bytes, r: Request) {
    match FindFrom(s, r.pattern, 0)
    case Some(i) => i + |r.pattern| <= r.cap
    case None => false
  }

  /**
   What a success does not say: the bytes of a pattern receive end with its pattern if and
   only if the first occurrence ends within the capacity.
   */
  lemma FilledOrFound(s: bytes, r: Request, k: nat)
    requires Cut(s, r) == Some(k) && r.pattern != []
    ensures EndsWith(s[..k], r.pattern) <==> FirstFits(s, r)
  {
    var p := r.pattern;
    if |p| <= k {
      assert s[..k][k - |p|..] == s[k - |p|..k];
      assert EndsWith(s[..k], p) <==> MatchAt(s, p, k - |p|);
    }
  }

  /** The cut is decided as soon as the stream holds capacity + |pattern| - 1 bytes, if not before. */
  lemma CutDecided(s: bytes, r: Request)
    ensures r.pattern == [] ==> (Cut(s, r).Some? <==> |s| >= r.cap)
    ensures r.pattern != [] ==>
      (Cut(s, r).Some? <==> FindFrom(s, r.pattern, 0).Some? || |s| >= r.cap + |r.pattern| - 1)
  {
  }

  /** `bufbuf`: the end of the first occurrence of `p` in `buf[..len]`. */
  method BufBuf(buf: array<byte>, len: nat, p: bytes) returns (end: Option<nat>)
    requires len <= buf.Length && p != []
    ensures end == match FindFrom(buf[..len], p, 0) case Some(i) => Some(i + |p|) case None => None
  {
    ghost var s := buf[..len];
    if len < |p| {
      return None;
    }
    var i := 0;
    while i < len - |p| + 1
      invariant 0 <= i <= len - |p| + 1
      invariant NoMatchIn(s, p, 0, i)
    {
      var j := 0;
      while j < |p| && buf[i + j] == p[j]
        invariant 0 <= j <= |p|
        invariant forall k :: 0 <= k < j ==> buf[i + k] == p[k]
      {
        j := j + 1;
      }
      if j == |p| {
        assert forall k | 0 <= k < |p| :: s[i..i + |p|][k] == p[k];
        assert s[i..i + |p|] == p;
        FindIs(s, p, i);
        return Some(i + |p|);
      }
      assert s[i..i + |p|][j] != p[j];
      i := i + 1;
    }
    assert NoMatchIn(s, p, 0, |s| + 1);
    return None;
  }
}

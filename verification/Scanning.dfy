/** Runs of characters of one class, as the HTTP parsers scan them. */
module Scanning {
  import opened Streams

  predicate IsDigit(c: byte) { '0' <= c <= '9' }
  predicate IsLetter(c: byte) { 'a' <= c <= 'z' || 'A' <= c <= 'Z' }

  const DIGITS: string := "0123456789"
  const CAPITALS: string := "ABCDEFGHIJKLMNOPQRSTUVWXYZ"
  const LETTERS: string := "abcdefghijklmnopqrstuvwxyz"

  /** The two classes, one character after the other. */
  lemma ClassesMean(c: byte)
    ensures IsDigit(c) <==> c in DIGITS
    ensures IsLetter(c) <==> c in LETTERS || c in CAPITALS
  {
    assert forall i | 0 <= i < |DIGITS| :: DIGITS[i] as int == '0' as int + i;
  }

  function LowerChar(c: byte): byte {
    if 'A' <= c <= 'Z' then (c as int + 32) as char else c
  }

  function Lower(s: bytes): bytes { seq<byte>(|s|, i requires 0 <= i < |s| => LowerChar(s[i])) }

  /** The same character, or the two cases of one letter. */
  predicate SameLetter(a: char, b: char) {
    || a == b
    || ('A' <= a <= 'Z' && 'a' <= b <= 'z' && a as int - 'A' as int == b as int - 'a' as int)
    || ('a' <= a <= 'z' && 'A' <= b <= 'Z' && a as int - 'a' as int == b as int - 'A' as int)
  }

  /** Two spellings of one word. */
  predicate SameWord(s: string, t: string) { |s| == |t| && forall i | 0 <= i < |s| :: SameLetter(s[i], t[i]) }

  predicate NoCapital(s: string) { forall i | 0 <= i < |s| :: !('A' <= s[i] <= 'Z') }

  /** Of all spellings of a word, `Lower` is the one without capitals. */
  lemma LowerIs(s: bytes, t: string)
    ensures Lower(s) == t <==> SameWord(s, t) && NoCapital(t)
  {
    if SameWord(s, t) && NoCapital(t) {
      assert forall i | 0 <= i < |s| :: LowerChar(s[i]) == t[i];
    }
    if Lower(s) == t {
      assert forall i | 0 <= i < |s| :: t[i] == LowerChar(s[i]);
    }
  }

  predicate AllDecimal(s: bytes) { forall i :: 0 <= i < |s| ==> '0' <= s[i] <= '9' }

  function DecimalValue(s: bytes): nat
    requires AllDecimal(s)
  {
    if s == [] then 0 else 10 * DecimalValue(s[..|s| - 1]) + (s[|s| - 1] as int - '0' as int)
  }

  /** The length of the longest prefix of characters of one class. */
  function Run(s: bytes, p: byte -> bool): (n: nat)
    ensures n <= |s| && (n < |s| ==> !p(s[n]))
  {
    if s == [] || !p(s[0]) then 0 else 1 + Run(s[1..], p)
  }

  lemma {:induction false} RunMeans(s: bytes, p: byte -> bool)
    ensures forall i :: 0 <= i < Run(s, p) ==> p(s[i])
  {
    if s != [] && p(s[0]) {
      RunMeans(s[1..], p);
      forall i | 0 <= i < Run(s, p) ensures p(s[i]) {
        if i > 0 { assert s[i] == s[1..][i - 1]; }
      }
    }
  }

  lemma {:induction false} RunIs(s: bytes, p: byte -> bool, n: nat)
    requires n <= |s| && (forall i :: 0 <= i < n ==> p(s[i])) && (n < |s| ==> !p(s[n]))
    ensures Run(s, p) == n
  {
    if s != [] && p(s[0]) {
      assert forall i :: 0 <= i < n - 1 ==> s[1..][i] == s[i + 1];
      RunIs(s[1..], p, n - 1);
    }
  }

  /** The loops over characters of one class, from index `i`. */
  method Scan(s: bytes, from: nat, p: byte -> bool) returns (i: nat)
    requires from <= |s|
    ensures i == from + Run(s[from..], p) && i <= |s|
  {
    i := from;
    while i < |s| && p(s[i])
      invariant from <= i <= |s|
      invariant forall j :: from <= j < i ==> p(s[j])
    {
      i := i + 1;
    }
    RunIs(s[from..], p, i - from);
  }
}

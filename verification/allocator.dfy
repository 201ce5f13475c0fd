/**
 * The identifier and port allocator. The random generator is not modelled:
 * each random choice is a supplied draw, an index into the alphabet or an
 * offset into the port span, and the preconditions give the draw's range.
 */
module Allocator {
  /** The alphabet of generated ids and guest tokens. */
  const Letters: string := "abcdefghijklmnopqrstuvwxyz0123456789"

  const PortBase: int := 10000
  const PortSpan: int := 5000

  /** Lengths of the generated guest token and session id. */
  const GuestTokenLength: nat := 6
  const SessionIdLength: nat := 8

  /** n results of rand.Intn(len(letters)). */
  predicate IsDraws(draws: seq<int>, n: nat) {
    |draws| == n && forall i :: 0 <= i < n ==> 0 <= draws[i] < |Letters|
  }

  /** A string of n characters, each of them from Letters. */
  predicate IsToken(s: string, n: nat) {
    |s| == n && forall i :: 0 <= i < n ==> s[i] in Letters
  }

  /** randomPort, given the result of rand.Intn(5000). */
  function RandomPort(draw: int): (p: int)
    requires 0 <= draw < PortSpan
    ensures PortBase <= p < PortBase + PortSpan
    ensures p - PortBase == draw
  {
    PortBase + draw
  }

  /** The letters the draws select, in order. */
  function Spell(draws: seq<int>): (s: string)
    requires IsDraws(draws, |draws|)
    ensures IsToken(s, |draws|)
    ensures forall i :: 0 <= i < |draws| ==> s[i] == Letters[draws[i]]
  {
    seq(|draws|, i requires 0 <= i < |draws| => Letters[draws[i]])
  }

  /** Tokens never contain a path separator, so a guest token is a single path element. */
  lemma TokenHasNoSlash(s: string, n: nat)
    requires IsToken(s, n)
    ensures '/' !in s
  {
  }

  /** randSeq(n): fills a buffer of n characters, one draw per position. */
  method RandSeq(n: nat, draws: seq<int>) returns (s: string)
    requires IsDraws(draws, n)
    ensures IsToken(s, n)
    ensures s == Spell(draws)
  {
    var b := new char[n];
    for i := 0 to n
      invariant forall j :: 0 <= j < i ==> b[j] == Letters[draws[j]]
    {
      b[i] := Letters[draws[i]];
    }
    s := b[..];
  }
}

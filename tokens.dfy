/**
 * The opaque refresh-token string: a random alphanumeric prefix followed by
 * a GUID in its default text form. The random source and the GUID
 * generator are inputs here; their distributions are not modelled.
 */
module Tokens {

  /** The characters `RandomString` draws from. */
  const Alphabet: string := "ABCDEFGHIJKLMNOPQRSTUVWXYZ0123456789"

  /** One value of `Random.Next(Alphabet.Length)`. */
  type Draw = n: nat | n < 36

  /** Length of the random prefix of a refresh token. */
  const RandomPartLength: nat := 25

  ghost predicate OverAlphabet(s: string) {
    forall i :: 0 <= i < |s| ==> s[i] in Alphabet
  }

  /** The string that the draws `d` spell, one character per draw. */
  function Spell(d: seq<Draw>): string {
    seq(|d|, i requires 0 <= i < |d| => Alphabet[d[i]])
  }

  /**
   * `RandomString(length)`: fills a fresh character array, position by
   * position, with the character the generator picks for that position.
   */
  method RandomString(length: nat, draws: seq<Draw>) returns (s: string)
    requires |draws| == length
    ensures s == Spell(draws)
    ensures |s| == length && OverAlphabet(s)
  {
    var chars := new char[length];
    for i := 0 to length
      invariant forall k :: 0 <= k < i ==> chars[k] == Alphabet[draws[k]]
    {
      chars[i] := Alphabet[draws[i]];
    }
    s := chars[..];
  }

  ghost function IndexIn(c: char): (n: Draw)
    requires c in Alphabet
    ensures Alphabet[n] == c
  {
    var n: Draw :| Alphabet[n] == c; n
  }

  /**
   * Every string over the alphabet is something `RandomString` can return,
   * and (by RandomString's contract) nothing else is.
   */
  lemma SpellOnto(w: string)
    requires OverAlphabet(w)
    ensures exists d: seq<Draw> :: |d| == |w| && Spell(d) == w
  {
    var d: seq<Draw> := seq(|w|, i requires 0 <= i < |w| => IndexIn(w[i]));
    assert Spell(d) == w;
  }

  type Nibble = n: nat | n < 16

  /** A GUID as the 32 hexadecimal digits of its text form, in display order. */
  type Guid = s: seq<Nibble> | |s| == 32
    witness [0, 0, 0, 0, 0, 0, 0, 0, 0, 0, 0, 0, 0, 0, 0, 0, 0, 0, 0, 0, 0, 0, 0, 0, 0, 0, 0, 0, 0, 0, 0, 0]

  function HexDigit(n: Nibble): (c: char)
    ensures c in "0123456789abcdef"
  {
    if n < 10 then (48 + n) as char else (87 + n) as char
  }

  function Hex(s: seq<Nibble>): (r: string)
    ensures |r| == |s|
    ensures forall i :: 0 <= i < |s| ==> r[i] == HexDigit(s[i])
  {
    seq(|s|, i requires 0 <= i < |s| => HexDigit(s[i]))
  }

  /** `Guid.ToString()`: lower-case digits in groups 8-4-4-4-12. */
  function GuidString(g: Guid): (r: string)
    ensures |r| == 36
    ensures r[8] == '-' && r[13] == '-' && r[18] == '-' && r[23] == '-'
  {
    Hex(g[..8]) + "-" + Hex(g[8..12]) + "-" + Hex(g[12..16]) + "-" + Hex(g[16..20]) + "-" + Hex(g[20..])
  }

  /** Where digit `k` of a GUID stands in its text form. */
  function DigitPosition(k: nat): (p: nat)
    requires k < 32
    ensures p < 36
  {
    if k < 8 then k else if k < 12 then k + 1 else if k < 16 then k + 2 else if k < 20 then k + 3 else k + 4
  }

  lemma GuidStringAt(g: Guid, k: nat)
    requires k < 32
    ensures GuidString(g)[DigitPosition(k)] == HexDigit(g[k])
  {
  }

  /** Distinct GUIDs have distinct text forms. */
  lemma GuidStringInjective(g1: Guid, g2: Guid)
    requires GuidString(g1) == GuidString(g2)
    ensures g1 == g2
  {
    forall k | 0 <= k < 32
      ensures g1[k] == g2[k]
    {
      GuidStringAt(g1, k);
      GuidStringAt(g2, k);
    }
  }

  /** The token string of a refresh-token record: `RandomString(25) + Guid.NewGuid()`. */
  function RefreshTokenValue(draws: seq<Draw>, g: Guid): (t: string)
    requires |draws| == RandomPartLength
    ensures |t| == RandomPartLength + 36
    ensures OverAlphabet(t[..RandomPartLength]) && t[RandomPartLength..] == GuidString(g)
  {
    Spell(draws) + GuidString(g)
  }

  /** Refresh tokens built from different GUIDs differ, whatever the random prefixes. */
  lemma RefreshTokensDiffer(d1: seq<Draw>, g1: Guid, d2: seq<Draw>, g2: Guid)
    requires |d1| == RandomPartLength && |d2| == RandomPartLength
    requires g1 != g2
    ensures RefreshTokenValue(d1, g1) != RefreshTokenValue(d2, g2)
  {
    if RefreshTokenValue(d1, g1) == RefreshTokenValue(d2, g2) {
      GuidStringInjective(g1, g2);
    }
  }
}

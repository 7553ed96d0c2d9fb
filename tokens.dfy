/** The credential record and the random secret it carries. */
module Tokens {
  import opened Primitives

  /** One credential generation: its key id, its secret and its creation time
      (serialised as `kid`, `secret` and `created_at`). */
  datatype Token = Token(kid: string, secret: string, created: int64)

  /** The symbols a secret is drawn from, in the order the generator indexes them. */
  const Letters: string := "abcdefghijklmnopqrstuvwxyzABCDEFGHIJKLMNOPQRSTUVWXYZ0123456789"

  /** The length of every generated secret. */
  const SecretLength: nat := 64

  predicate IsAlphanumeric(c: char) {
    'a' <= c <= 'z' || 'A' <= c <= 'Z' || '0' <= c <= '9'
  }

  /** The i-th symbol of the alphabet, computed from the three character ranges. */
  function Symbol(i: nat): char
    requires i < 62
  {
    if i < 26 then ('a' as int + i) as char
    else if i < 52 then ('A' as int + (i - 26)) as char
    else ('0' as int + (i - 52)) as char
  }

  /** The position of an alphanumeric character in the alphabet. */
  function IndexOf(c: char): (i: nat)
    requires IsAlphanumeric(c)
    ensures i < 62 && Symbol(i) == c
  {
    if 'a' <= c <= 'z' then c as int - 'a' as int
    else if 'A' <= c <= 'Z' then 26 + (c as int - 'A' as int)
    else 52 + (c as int - '0' as int)
  }

  const Lower: string := "abcdefghijklmnopqrstuvwxyz"
  const Upper: string := "ABCDEFGHIJKLMNOPQRSTUVWXYZ"
  const Digits: string := "0123456789"

  lemma LowerAt(i: nat)
    requires i < 26
    ensures Lower[i] == ('a' as int + i) as char
  {}

  lemma UpperAt(i: nat)
    requires i < 26
    ensures Upper[i] == ('A' as int + i) as char
  {}

  lemma DigitAt(i: nat)
    requires i < 10
    ensures Digits[i] == ('0' as int + i) as char
  {}

  lemma LettersAreBlocks()
    ensures Letters == Lower + Upper + Digits
  {}

  lemma LettersAt(i: nat)
    requires i < 62
    ensures |Letters| == 62 && Letters[i] == Symbol(i)
  {
    LettersAreBlocks();
    if i < 26 {
      LowerAt(i);
    } else if i < 52 {
      UpperAt(i - 26);
    } else {
      DigitAt(i - 52);
    }
  }

  /** The alphabet has 62 distinct symbols, and they are exactly a-z, A-Z and 0-9. */
  lemma AlphabetIsAlphanumeric()
    ensures |Letters| == 62
    ensures forall c :: c in Letters <==> IsAlphanumeric(c)
    ensures forall i, j | 0 <= i < j < |Letters| :: Letters[i] != Letters[j]
  {
    LettersAt(0);
    forall c ensures c in Letters <==> IsAlphanumeric(c) {
      if c in Letters {
        var i :| 0 <= i < |Letters| && Letters[i] == c;
        LettersAt(i);
      }
      if IsAlphanumeric(c) {
        LettersAt(IndexOf(c));
      }
    }
    forall i, j | 0 <= i < j < |Letters| ensures Letters[i] != Letters[j] {
      LettersAt(i);
      LettersAt(j);
    }
  }

  /** Every draw indexes the alphabet. */
  predicate ValidDraws(draws: seq<nat>) {
    forall k | 0 <= k < |draws| :: draws[k] < |Letters|
  }

  /** The string a sequence of random draws selects, one symbol per draw. */
  function Spell(draws: seq<nat>): (s: string)
    requires ValidDraws(draws)
  {
    seq(|draws|, k requires 0 <= k < |draws| => Letters[draws[k]])
  }

  /** Different draw sequences spell different strings: no two draws collide,
      so a uniform source of draws yields a uniform secret. */
  lemma SpellInjective(d1: seq<nat>, d2: seq<nat>)
    requires ValidDraws(d1) && ValidDraws(d2)
    requires Spell(d1) == Spell(d2)
    ensures d1 == d2
  {
    AlphabetIsAlphanumeric();
    assert |d1| == |Spell(d1)| == |d2|;
    forall k | 0 <= k < |d1| ensures d1[k] == d2[k] {
      assert Spell(d1)[k] == Letters[d1[k]];
      assert Spell(d2)[k] == Letters[d2[k]];
    }
  }

  /** Every alphanumeric string is spelled by some draw sequence of its length:
      the generator can produce any such string. */
  lemma SpellSurjective(s: string)
    requires forall k | 0 <= k < |s| :: IsAlphanumeric(s[k])
    ensures exists draws: seq<nat> :: |draws| == |s| && ValidDraws(draws) && Spell(draws) == s
  {
    LettersAt(0);
    var draws := seq(|s|, k requires 0 <= k < |s| => IndexOf(s[k]));
    forall k | 0 <= k < |s| ensures Spell(draws)[k] == s[k] {
      LettersAt(draws[k]);
    }
    assert Spell(draws) == s;
  }

  /** Fills a fresh rune buffer of length n, one slot at a time, with a symbol
      picked by a random draw in [0, 62). The draws are returned as a ghost
      record of the choices made. */
  method RandomString(n: nat) returns (s: string, ghost draws: seq<nat>)
    ensures |s| == n
    ensures forall k | 0 <= k < |s| :: IsAlphanumeric(s[k])
    ensures |draws| == n && ValidDraws(draws) && s == Spell(draws)
  {
    AlphabetIsAlphanumeric();
    var runes := new char[n];
    draws := [];
    for i := 0 to n
      invariant |draws| == i && ValidDraws(draws)
      invariant forall k | 0 <= k < i :: runes[k] == Letters[draws[k]]
    {
      var pick: nat :| pick < |Letters|;
      runes[i] := Letters[pick];
      draws := draws + [pick];
    }
    s := runes[..];
  }

  /** The freshly minted credential: the given key id and creation time, and
      a 64-symbol alphanumeric secret. */
  ghost predicate IsFreshToken(t: Token, kid: string, now: int64) {
    t.kid == kid && t.created == now &&
    |t.secret| == SecretLength &&
    forall k | 0 <= k < |t.secret| :: IsAlphanumeric(t.secret[k])
  }

  /** Builds the new credential; the UUID and the clock reading are inputs. */
  method NewToken(kid: string, now: int64) returns (t: Token)
    ensures IsFreshToken(t, kid, now)
  {
    var secret, _ := RandomString(SecretLength);
    t := Token(kid, secret, now);
  }
}

/**
 * Short import names for the wasm post-processor: `symbol(n, buf)` writes the
 * n-th name of the bijective base-52 numbering over `a..z A..Z`, least
 * significant letter first (`a`, `b`, ..., `Z`, `aa`, `ba`, ...).
 */
module Symbol {

  /** `ALPHABET[k]`: the 52-letter table `a..z` followed by `A..Z`. */
  function Alphabet(k: nat): (c: char)
    requires k < 52
  {
    if k < 26 then ('a' as int + k) as char else ('A' as int + k - 26) as char
  }

  predicate IsLetter(c: char) {
    ('a' <= c <= 'z') || ('A' <= c <= 'Z')
  }

  /** Position of a letter in `Alphabet`. */
  function LetterIndex(c: char): (k: nat)
    requires IsLetter(c)
    ensures k < 52 && Alphabet(k) == c
  {
    if 'a' <= c <= 'z' then (c - 'a') as nat else (c - 'A') as nat + 26
  }

  /** The name the loop produces for `n`, as a recursive definition. */
  function SymbolOf(n: nat): (s: string)
    decreases n
  {
    [Alphabet(n % 52)] + (if n / 52 == 0 then [] else SymbolOf(n / 52 - 1))
  }

  /** Reads a name back as a number: the inverse of `SymbolOf`. */
  function Decode(s: string): nat
    requires forall i :: 0 <= i < |s| ==> IsLetter(s[i])
  {
    if |s| == 0 then 0
    else if |s| == 1 then LetterIndex(s[0])
    else LetterIndex(s[0]) + 52 * (Decode(s[1..]) + 1)
  }

  /** The loop of `symbol`: the buffer is cleared, then filled with `SymbolOf(n)`. */
  method Symbol(n: nat, buf: string) returns (out: string)
    ensures out == SymbolOf(n)
    ensures |out| > 0 && forall i :: 0 <= i < |out| ==> IsLetter(out[i])
  {
    out := [];
    var m := n;
    while true
      invariant out + SymbolOf(m) == SymbolOf(n)
      decreases m
    {
      ghost var rest := if m / 52 == 0 then [] else SymbolOf(m / 52 - 1);
      assert SymbolOf(m) == [Alphabet(m % 52)] + rest;
      out := out + [Alphabet(m % 52)];
      assert out + rest == SymbolOf(n);
      m := m / 52;
      if m == 0 {
        break;
      }
      m := m - 1;
    }
    SymbolLetters(n);
  }

  /** Every name is non-empty and made of ASCII letters only. */
  lemma {:induction false} SymbolLetters(n: nat)
    ensures |SymbolOf(n)| > 0
    ensures forall i :: 0 <= i < |SymbolOf(n)| ==> IsLetter(SymbolOf(n)[i])
    decreases n
  {
    assert IsLetter(Alphabet(n % 52));
    if n / 52 != 0 {
      SymbolLetters(n / 52 - 1);
    }
  }

  /** Names below 52 are one letter; 52 is the first two-letter name `aa`. */
  lemma SmallSymbols(n: nat)
    ensures n < 52 ==> SymbolOf(n) == [Alphabet(n)]
    ensures SymbolOf(52) == "aa"
    ensures SymbolOf(53) == "ba" && SymbolOf(103) == "Za"
  {
    assert SymbolOf(0) == "a";
  }

  /** Decoding a name gives back its number. */
  lemma {:induction false} DecodeSymbol(n: nat)
    ensures forall i :: 0 <= i < |SymbolOf(n)| ==> IsLetter(SymbolOf(n)[i])
    ensures Decode(SymbolOf(n)) == n
    decreases n
  {
    SymbolLetters(n);
    var s := SymbolOf(n);
    var q, r := n / 52, n % 52;
    assert n == 52 * q + r;
    assert s[0] == Alphabet(r);
    assert LetterIndex(s[0]) == r by { LetterIndexUnique(r); }
    if q != 0 {
      DecodeSymbol(q - 1);
      assert s[1..] == SymbolOf(q - 1);
      assert Decode(s) == r + 52 * (Decode(SymbolOf(q - 1)) + 1);
    }
  }

  /** Every non-empty letter string is the name of its decoded number. */
  lemma {:induction false} SymbolDecode(s: string)
    requires |s| > 0 && forall i :: 0 <= i < |s| ==> IsLetter(s[i])
    ensures SymbolOf(Decode(s)) == s
    decreases |s|
  {
    var k := LetterIndex(s[0]);
    if |s| > 1 {
      SymbolDecode(s[1..]);
      var d := Decode(s[1..]);
      var n := Decode(s);
      assert n == k + 52 * (d + 1);
      DivModUnique(n, d + 1, k);
      assert SymbolOf(n) == [Alphabet(k)] + SymbolOf(d);
      assert s == [s[0]] + s[1..];
    } else {
      DivModUnique(k, 0, k);
    }
  }

  lemma LetterIndexUnique(r: nat)
    requires r < 52
    ensures IsLetter(Alphabet(r)) && LetterIndex(Alphabet(r)) == r
  {
  }

  lemma DivModUnique(n: nat, q: nat, r: nat)
    requires r < 52 && n == 52 * q + r
    ensures n / 52 == q && n % 52 == r
  {
  }

  /** Distinct import indices get distinct names. */
  lemma SymbolInjective(a: nat, b: nat)
    requires SymbolOf(a) == SymbolOf(b)
    ensures a == b
  {
    DecodeSymbol(a);
    DecodeSymbol(b);
  }
}

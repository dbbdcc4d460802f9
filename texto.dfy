/**
 * Text and number formatting the core relies on: decimal rendering of
 * numbers (`Long.toString`, `"%03d"`, two-digit date fields), Java's
 * `String.trim`, the first element of `String.split(",")`, the UTF-8 bytes
 * of ASCII text and the shape of a SHA-256 hexadecimal digest.
 */
module Texto {
  import opened Wrappers

  /** A Java `byte`, taken as the unsigned octet it holds. */
  newtype Byte = n: int | 0 <= n < 256

  type Bytes = seq<Byte>

  predicate IsDigit(c: char) { '0' <= c <= '9' }

  predicate AllDigits(s: string) { forall i :: 0 <= i < |s| ==> IsDigit(s[i]) }

  function DigitValue(c: char): (d: nat)
    requires IsDigit(c)
    ensures d < 10
  {
    c as int - '0' as int
  }

  function DigitChar(d: nat): (c: char)
    requires d < 10
    ensures IsDigit(c) && DigitValue(c) == d
  {
    ('0' as int + d) as char
  }

  /** The number a string of decimal digits denotes, most significant digit first. */
  function ValorDecimal(s: string): nat
    requires AllDigits(s)
  {
    if s == [] then 0 else 10 * ValorDecimal(s[..|s| - 1]) + DigitValue(s[|s| - 1])
  }

  /** The decimal digits of `n` without leading zeros, as `Long.toString` writes a non-negative value. */
  function Decimal(n: nat): (s: string)
    ensures 1 <= |s| && AllDigits(s)
    ensures ValorDecimal(s) == n
    ensures s[0] == '0' ==> n == 0
    decreases n
  {
    if n < 10 then [DigitChar(n)]
    else
      var prefixo := Decimal(n / 10);
      var s := prefixo + [DigitChar(n % 10)];
      assert s[..|s| - 1] == prefixo;
      s
  }

  /** `Long.toString(n)`: a minus sign before the digits of a negative value. */
  function LongToString(n: int): (s: string)
    ensures 1 <= |s|
    ensures forall i :: 0 <= i < |s| ==> IsDigit(s[i]) || s[i] == '-'
  {
    if n < 0 then "-" + Decimal(-n) else Decimal(n)
  }

  lemma {:induction false} LongToStringInjetivo(a: int, b: int)
    requires LongToString(a) == LongToString(b)
    ensures a == b
  {
    var sa, sb := LongToString(a), LongToString(b);
    if a < 0 && b < 0 {
      assert sa[1..] == Decimal(-a) && sb[1..] == Decimal(-b);
    }
  }

  /** `String.format("%03d", n)` for `0 <= n < 1000`. */
  function TresDigitos(n: nat): (s: string)
    requires n < 1000
    ensures |s| == 3 && AllDigits(s) && ValorDecimal(s) == n
  {
    var m := n / 10;
    assert n == 10 * m + n % 10 && m == 10 * (m / 10) + m % 10 && m / 10 < 10;
    var s := [DigitChar(m / 10), DigitChar(m % 10), DigitChar(n % 10)];
    assert s[..2][..1] == [s[0]] && [s[0]][..0] == [];
    assert ValorDecimal([s[0]]) == m / 10;
    assert ValorDecimal(s[..2]) == m;
    s
  }

  /**
   * The last two decimal digits of `n`, zero-padded; for the month (1..12), the
   * day (1..31) and the year of a date this is what the patterns `MM`, `dd`
   * and `yy` print.
   */
  function DoisDigitos(n: int): (s: string)
    ensures |s| == 2 && AllDigits(s) && ValorDecimal(s) == n % 100
  {
    var v := n % 100;
    var s := [DigitChar(v / 10), DigitChar(v % 10)];
    assert s[..1] == [s[0]] && [s[0]][..0] == [];
    assert ValorDecimal(s[..1]) == v / 10;
    s
  }

  /** The characters `String.trim` removes from both ends: every code point up to the space. */
  predicate Espaco(c: char) { c <= ' ' }

  function TrimInicio(s: string): (r: string)
    ensures |r| <= |s| && r == s[|s| - |r|..]
    ensures r == [] || !Espaco(r[0])
    ensures forall k :: 0 <= k < |s| - |r| ==> Espaco(s[k])
  {
    if s != [] && Espaco(s[0]) then TrimInicio(s[1..]) else s
  }

  function TrimFim(s: string): (r: string)
    ensures |r| <= |s| && r == s[..|r|]
    ensures r == [] || !Espaco(r[|r| - 1])
    ensures forall k :: |r| <= k < |s| ==> Espaco(s[k])
  {
    if s != [] && Espaco(s[|s| - 1]) then TrimFim(s[..|s| - 1]) else s
  }

  /** `String.trim`: the longest infix of `s` that neither starts nor ends with a space or control character. */
  function Trim(s: string): (r: string)
    ensures r == [] || (!Espaco(r[0]) && !Espaco(r[|r| - 1]))
    ensures (s == [] || (!Espaco(s[0]) && !Espaco(s[|s| - 1]))) ==> r == s
  {
    TrimFim(TrimInicio(s))
  }

  predicate SoEspacos(s: string) { forall k :: 0 <= k < |s| ==> Espaco(s[k]) }

  /** Trimming removes exactly the padding around a word that has no spaces at its ends. */
  lemma {:induction false} TrimRemovePreenchimento(antes: string, palavra: string, depois: string)
    requires SoEspacos(antes) && SoEspacos(depois)
    requires palavra == [] || (!Espaco(palavra[0]) && !Espaco(palavra[|palavra| - 1]))
    requires palavra != [] || (antes == [] && depois == [])
    ensures Trim(antes + palavra + depois) == palavra
  {
    var resto := palavra + depois;
    assert antes + palavra + depois == antes + resto;
    if palavra != [] {
      assert resto[0] == palavra[0];
    }
    TrimInicioPreenchimento(antes, resto);
    TrimFimPreenchimento(palavra, depois);
  }

  lemma {:induction false} TrimInicioPreenchimento(antes: string, resto: string)
    requires SoEspacos(antes)
    requires resto == [] || !Espaco(resto[0])
    ensures TrimInicio(antes + resto) == resto
  {
    if antes != [] {
      assert (antes + resto)[1..] == antes[1..] + resto;
      TrimInicioPreenchimento(antes[1..], resto);
    }
  }

  lemma {:induction false} TrimFimPreenchimento(resto: string, depois: string)
    requires SoEspacos(depois)
    requires resto == [] || !Espaco(resto[|resto| - 1])
    ensures TrimFim(resto + depois) == resto
  {
    if depois != [] {
      var d' := depois[..|depois| - 1];
      assert (resto + depois)[..|resto + depois| - 1] == resto + d';
      TrimFimPreenchimento(resto, d');
    }
  }

  /** The characters of `s` before the first `sep`, or all of `s` when there is none. */
  function PrefixoAte(s: string, sep: char): (r: string)
    ensures |r| <= |s| && r == s[..|r|]
    ensures sep !in r
    ensures |r| < |s| ==> s[|r|] == sep
  {
    if s == [] || s[0] == sep then [] else [s[0]] + PrefixoAte(s[1..], sep)
  }

  /** Whatever follows the first separator does not matter. */
  lemma {:induction false} PrefixoAteSeparador(p: string, sep: char, resto: string)
    requires sep !in p
    ensures PrefixoAte(p + [sep] + resto, sep) == p
  {
    if p != [] {
      assert (p + [sep] + resto)[1..] == p[1..] + [sep] + resto;
      PrefixoAteSeparador(p[1..], sep, resto);
    }
  }

  /**
   * `s.split(sep)[0]` for a one-character separator: the split drops trailing
   * empty pieces, so a string made only of separators yields an empty array and
   * indexing it throws.
   */
  function PrimeiroDoSplit(s: string, sep: char): (r: Option<string>)
    ensures r.None? <==> s != [] && forall k :: 0 <= k < |s| ==> s[k] == sep
    ensures r.Some? ==> sep !in r.value && |r.value| <= |s| && r.value == s[..|r.value|]
    ensures r.Some? && |r.value| < |s| ==> s[|r.value|] == sep
  {
    if s != [] && forall k :: 0 <= k < |s| ==> s[k] == sep then None
    else Some(PrefixoAte(s, sep))
  }

  predicate Ascii(s: string) { forall i :: 0 <= i < |s| ==> s[i] as int < 128 }

  /** The UTF-8 encoding of ASCII text: one byte per character, equal to its code. */
  function Utf8(s: string): (b: Bytes)
    requires Ascii(s)
    ensures |b| == |s| && forall i :: 0 <= i < |s| ==> b[i] as int == s[i] as int
  {
    seq(|s|, i requires 0 <= i < |s| => s[i] as int as Byte)
  }

  /** What `DigestUtils.sha256Hex` returns: 64 lower-case hexadecimal characters. */
  predicate HexMinusculo(s: string)
  {
    |s| == 64 && forall i :: 0 <= i < |s| ==> ('0' <= s[i] <= '9' || 'a' <= s[i] <= 'f')
  }

  const DIGEST_ZERO: string := seq(64, _ => '0')

  /**
   * `DigestUtils.sha256Hex` on bytes. SHA-256 itself is not modelled: the
   * digest is any function of the bytes that yields a lower-case hex string of
   * the right length, and every property here holds for all of them.
   */
  type Sha256Hex = f: Bytes -> string | forall b :: HexMinusculo(f(b))
    witness (b: Bytes) => DIGEST_ZERO
}

/**
 * Constants, the option type and the decimal text helpers shared by the
 * layout codec, the macro parser and the layer prompt.
 */
module Common {

  /** Keyboard matrix geometry of the controller. */
  const NUMROWS: int := 20
  const NUMCOLS: int := 8
  const NUMLAYERS_MAX: int := 6
  /** Number of keys in one layer, the stride between layers in the flat form. */
  const NUMKEYS: int := 160
  /** Macro table geometry. */
  const NUM_MACROKEYS: int := 24
  const LEN_MACRO: int := 8

  datatype Option<T> = None | Some(value: T)

  /** bl_macro_t: the number of macros in use and the NUM_MACROKEYS x LEN_MACRO table of 16-bit codes. */
  datatype MacroTable = MacroTable(nmacros: int, macros: seq<seq<int>>)

  predicate IsMacroMatrix(m: seq<seq<int>>)
  {
    |m| == NUM_MACROKEYS && forall y :: 0 <= y < NUM_MACROKEYS ==> |m[y]| == LEN_MACRO
  }

  predicate IsU8(x: int) { 0 <= x < 256 }
  predicate IsU16(x: int) { 0 <= x < 65536 }

  /** Assignment of an int to a uint16_t: the value modulo 2^16. */
  function ToU16(x: int): (r: int)
    ensures IsU16(r)
    ensures IsU16(x) ==> r == x
    ensures (x - r) % 65536 == 0
  {
    x % 65536
  }

  /** isdigit in the C locale. */
  predicate IsDigit(ch: char) { '0' <= ch <= '9' }

  predicate IsNewline(ch: char) { ch == '\n' || ch == '\r' }

  /** Characters the whitespace states of both file scanners skip. */
  predicate IsBlank(ch: char) { IsNewline(ch) || ch == ' ' || ch == '\t' }

  predicate AllDigits(s: string) { forall i :: 0 <= i < |s| ==> IsDigit(s[i]) }

  function DigitChar(d: int): char
    requires 0 <= d < 10
  {
    ('0' as int + d) as char
  }

  function DigitValue(ch: char): int
    requires IsDigit(ch)
  {
    ch as int - '0' as int
  }

  function Pow10(k: nat): nat
  {
    if k == 0 then 1 else 10 * Pow10(k - 1)
  }

  /** The number a string of decimal digits denotes (what atoi computes before any narrowing). */
  function DecValue(s: string): (v: nat)
    requires AllDigits(s)
    ensures v < Pow10(|s|)
  {
    if s == [] then 0 else DecValue(s[..|s| - 1]) * 10 + DigitValue(s[|s| - 1])
  }

  /** The decimal rendering printf's "%u" produces: no sign, no leading zeros. */
  function NatToDec(n: nat): (s: string)
    ensures 1 <= |s| && AllDigits(s)
  {
    if n < 10 then [DigitChar(n)] else NatToDec(n / 10) + [DigitChar(n % 10)]
  }

  lemma {:induction false} DecValueOfNatToDec(n: nat)
    ensures DecValue(NatToDec(n)) == n
  {
    if n >= 10 {
      var s := NatToDec(n);
      assert s[..|s| - 1] == NatToDec(n / 10);
      DecValueOfNatToDec(n / 10);
    }
  }

  /** A number below 10^k is printed with at most k digits. */
  lemma {:induction false} NatToDecShort(n: nat, k: nat)
    requires 1 <= k && n < Pow10(k)
    ensures |NatToDec(n)| <= k
  {
    if n >= 10 {
      NatToDecShort(n / 10, k - 1);
    }
  }

  /** A uint16 value is printed with at most five digits. */
  lemma NatToDecU16(n: nat)
    requires IsU16(n)
    ensures |NatToDec(n)| <= 5
  {
    assert Pow10(5) == 100000;
    NatToDecShort(n, 5);
  }

  /** A function equal on each pair of neighbouring arguments from k to n takes the same value at k and n. */
  lemma {:induction false} ChainBy<T>(f: int -> T, k: int, n: int)
    requires k <= n && forall j :: k <= j < n ==> f(j) == f(j + 1)
    ensures f(k) == f(n)
    decreases n - k
  {
    if k < n {
      ChainBy(f, k + 1, n);
    }
  }

}

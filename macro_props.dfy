/**
 * What bl_macro_parse does with the pieces of a macro file: numbers, the
 * separators after them, line ends, over-long numbers and a number cut off
 * by the end of the file; and the out-of-range store of the code as
 * written.
 */
module MacroProperties {
  import opened Common
  import opened MacroParser

  /** In the number state, digits are appended to the buffer one by one while it has room. */
  lemma {:induction false} DigitsAccumulate(text: string, i: nat, j: nat, p: Parse)
    requires i <= j <= |text| && ParseOk(p) && p.state == InNumber
    requires AllDigits(text[i..j]) && |p.buf| + (j - i) <= BUFLEN
    ensures ParseOk(p.(buf := p.buf + text[i..j]))
    ensures RunFrom(text, i, p) == RunFrom(text, j, p.(buf := p.buf + text[i..j]))
    decreases j - i
  {
    if i < j {
      assert IsDigit(text[i..j][0]);
      var p1 := p.(buf := p.buf + [text[i]]);
      assert text[i + 1..j] == text[i..j][1..];
      DigitsAccumulate(text, i + 1, j, p1);
      assert p1.buf + text[i + 1..j] == p.buf + text[i..j];
    } else {
      assert p.buf + text[i..j] == p.buf;
    }
  }

  /** A number read with an empty buffer, in either state, ends up whole in the buffer. */
  lemma ReadNumber(text: string, i: nat, p: Parse, d: string)
    requires ParseOk(p) && p.buf == []
    requires 1 <= |d| <= BUFLEN && AllDigits(d)
    requires i + |d| <= |text| && text[i..i + |d|] == d
    ensures ParseOk(p.(state := InNumber, buf := d))
    ensures RunFrom(text, i, p) == RunFrom(text, i + |d|, p.(state := InNumber, buf := d))
  {
    assert text[i] == text[i..i + |d|][0] == d[0];
    var p0 := p.(state := InNumber);
    assert RunFrom(text, i, p) == RunFrom(text, i, p0);
    DigitsAccumulate(text, i, i + |d|, p0);
    assert p0.buf + text[i..i + |d|] == d;
  }

  /** The state after a number d and the non-digit ch that ends it, when the store is in range. */
  function AfterNumber(p: Parse, d: string, ch: char): (q: Parse)
    requires ParseOk(p) && CanStore(p) && AllDigits(d)
    ensures ParseOk(q) && q.state == InWhitespace
    ensures q.table.nmacros == p.y + 1
    ensures q.table.macros[p.y][p.x] == ToU16(DecValue(d))
    ensures forall y, x :: 0 <= y < NUM_MACROKEYS && 0 <= x < LEN_MACRO && (y != p.y || x != p.x) ==>
              q.table.macros[y][x] == p.table.macros[y][x]
    ensures IsNewline(ch) ==> q.x == 0 && q.y == p.y + 1
    ensures !IsNewline(ch) ==> q.x == p.x + 1 && q.y == p.y
  {
    var m := SetKey(p.table.macros, p.y, p.x, KeyValue(d));
    if IsNewline(ch) then Parse(InWhitespace, [], 0, p.y + 1, MacroTable(p.y + 1, m))
    else Parse(InWhitespace, [], p.x + 1, p.y, MacroTable(p.y + 1, m))
  }

  /**
   * A number followed by a non-digit stores its value, truncated to 16
   * bits, at macros[macro_y][macro_x], advances macro_x and sets nmacros to
   * macro_y + 1; a line end then starts the next macro at key 0, and only a
   * ',' is consumed with the number (src/bl_macro.c:56-74).
   */
  lemma NumberStored(text: string, i: nat, p: Parse, d: string)
    requires ParseOk(p) && p.buf == [] && CanStore(p)
    requires 1 <= |d| <= BUFLEN && AllDigits(d)
    requires i + |d| < |text| && text[i..i + |d|] == d && !IsDigit(text[i + |d|])
    ensures RunFrom(text, i, p) ==
            RunFrom(text, if text[i + |d|] == ',' then i + |d| + 1 else i + |d|, AfterNumber(p, d, text[i + |d|]))
  {
    var j := i + |d|;
    var p1 := p.(state := InNumber, buf := d);
    ReadNumber(text, i, p, d);
    assert Flush(p1).Some?;
    assert EndNumber(Flush(p1).value, text[j]) == AfterNumber(p, d, text[j]);
  }

  /**
   * Corrected: a number that would be stored past the last key of a macro
   * or past the last macro fails the parse, whatever follows it.
   */
  lemma OutOfRangeRejected(text: string, i: nat, p: Parse, d: string)
    requires ParseOk(p) && p.buf == [] && !CanStore(p)
    requires 1 <= |d| <= BUFLEN && AllDigits(d)
    requires i + |d| < |text| && text[i..i + |d|] == d && !IsDigit(text[i + |d|])
    ensures RunFrom(text, i, p) == None
  {
    ReadNumber(text, i, p, d);
  }

  /** A ninth digit in a row overflows buf and fails the parse (src/bl_macro.c:47-55). */
  lemma NinthDigitRejected(text: string, i: nat, p: Parse)
    requires ParseOk(p) && p.buf == []
    requires i + BUFLEN + 1 <= |text| && AllDigits(text[i..i + BUFLEN + 1])
    ensures RunFrom(text, i, p) == None
  {
    var d := text[i..i + BUFLEN];
    assert d == text[i..i + BUFLEN + 1][..BUFLEN];
    ReadNumber(text, i, p, d);
    assert IsDigit(text[i..i + BUFLEN + 1][BUFLEN]);
  }

  /** Whatever precedes a run of nine digits that starts after a non-digit, the parse fails there. */
  lemma {:induction false} LongRunFrom(text: string, i: nat, p: Parse, j: nat)
    requires i <= j && ParseOk(p)
    requires j + BUFLEN + 1 <= |text| && AllDigits(text[j..j + BUFLEN + 1])
    requires j == 0 || !IsDigit(text[j - 1])
    requires i == j ==> p.buf == []
    ensures RunFrom(text, i, p) == None
    decreases |text| - i, Rank(text, i, p)
  {
    if i == j {
      NinthDigitRejected(text, j, p);
    } else if p.state == InNumber {
      if IsDigit(text[i]) {
        if |p.buf| < BUFLEN {
          LongRunFrom(text, i + 1, p.(buf := p.buf + [text[i]]), j);
        }
      } else {
        match Flush(p)
        case None =>
        case Some(q) =>
          LongRunFrom(text, if text[i] == ',' then i + 1 else i, EndNumber(q, text[i]), j);
      }
    } else if IsBlank(text[i]) {
      LongRunFrom(text, i + 1, p, j);
    } else if IsDigit(text[i]) {
      LongRunFrom(text, i, p.(state := InNumber), j);
    }
  }

  /** A number of nine or more digits anywhere in the file fails the parse. */
  lemma {:induction false} LongNumberRejected(text: string, j: nat, nmacros: int)
    requires j + BUFLEN + 1 <= |text| && AllDigits(text[j..j + BUFLEN + 1])
    ensures ParseText(text, nmacros) == None
  {
    if j > 0 && IsDigit(text[j - 1]) {
      var run := text[j - 1..j + BUFLEN];
      forall t | 0 <= t < |run|
        ensures IsDigit(run[t])
      {
        if t > 0 {
          assert run[t] == text[j..j + BUFLEN + 1][t - 1];
        }
      }
      LongNumberRejected(text, j - 1, nmacros);
    } else {
      LongRunFrom(text, 0, Start(nmacros), j);
    }
  }

  /**
   * A ',' is consumed only together with a number: a second ',' straight
   * after the first one is met in the whitespace state and fails the parse
   * (src/bl_macro.c:70-72, 87-90).
   */
  lemma DoubleCommaRejected(text: string, i: nat, p: Parse, d: string)
    requires ParseOk(p) && p.buf == [] && CanStore(p)
    requires 1 <= |d| <= BUFLEN && AllDigits(d)
    requires i + |d| + 1 < |text| && text[i..i + |d|] == d && text[i + |d|] == ',' && text[i + |d| + 1] == ','
    ensures RunFrom(text, i, p) == None
  {
    NumberStored(text, i, p, d);
  }

  /**
   * A line end after a ',' is skipped in the whitespace state and does not
   * start a new macro: the next number goes to the same macro, one key on
   * (src/bl_macro.c:76-80).
   */
  lemma CommaJoinsLines(text: string, i: nat, p: Parse, d: string)
    requires ParseOk(p) && p.buf == [] && CanStore(p)
    requires 1 <= |d| <= BUFLEN && AllDigits(d)
    requires i + |d| + 1 < |text| && text[i..i + |d|] == d && text[i + |d|] == ',' && IsNewline(text[i + |d| + 1])
    ensures RunFrom(text, i, p) == RunFrom(text, i + |d| + 2, AfterNumber(p, d, ','))
    ensures AfterNumber(p, d, ',').x == p.x + 1 && AfterNumber(p, d, ',').y == p.y
  {
    NumberStored(text, i, p, d);
  }

  /**
   * The buffer is stored only when a non-digit follows, so the digits that
   * run up to the end of the file are dropped: the result is the table as
   * it was before them (src/bl_macro.c:44, 96).
   */
  lemma TrailingDigitsDropped(text: string, i: nat, p: Parse)
    requires ParseOk(p) && p.buf == []
    requires i < |text| && |text| - i <= BUFLEN && AllDigits(text[i..])
    ensures RunFrom(text, i, p) == Some(p.table)
  {
    ReadNumber(text, i, p, text[i..]);
  }

  // ---------------------------------------------------------------------
  // Finding: the store is not bounds-checked
  // ---------------------------------------------------------------------

  /**
   * The loop state of the code as written. The table bm->macros is the
   * contiguous uint16_t[24][8], so the store macros[macro_y][macro_x]
   * writes the word at flat offset macro_y * 8 + macro_x, which nothing
   * bounds: memory is a map from word offsets to values.
   */
  datatype RawParse = RawParse(state: Mode, buf: string, x: int, y: int, nmacros: int, cells: map<int, int>)

  predicate RawOk(p: RawParse)
  {
    AllDigits(p.buf) && |p.buf| <= BUFLEN && 0 <= p.x && 0 <= p.y
    && (p.state == InWhitespace ==> p.buf == [])
  }

  /** The word bm->macros[y][x] addresses in the contiguous 24 x 8 table. */
  function StoreOffsetAsWritten(x: int, y: int): (k: int)
    ensures 0 <= x < LEN_MACRO && 0 <= y < NUM_MACROKEYS ==> 0 <= k < NUM_MACROKEYS * LEN_MACRO
  {
    y * LEN_MACRO + x
  }

  /** The store of src/bl_macro.c:60-65 as written: no check of macro_x or macro_y. */
  function FlushAsWritten(p: RawParse): (r: RawParse)
    requires RawOk(p)
    ensures RawOk(r) && r.buf == [] && r.state == p.state && r.y == p.y
  {
    if p.buf == [] then p
    else RawParse(p.state, [], p.x + 1, p.y, p.y + 1, p.cells[StoreOffsetAsWritten(p.x, p.y) := KeyValue(p.buf)])
  }

  /** src/bl_macro.c:66-73, unchanged: a line end starts the next macro at key 0. */
  function EndNumberAsWritten(q: RawParse, ch: char): (r: RawParse)
    requires RawOk(q) && q.buf == []
    ensures RawOk(r) && r.state == InWhitespace
  {
    if IsNewline(ch) then q.(state := InWhitespace, x := 0, y := q.y + 1)
    else q.(state := InWhitespace)
  }

  function RawRank(text: string, i: nat, p: RawParse): nat
  {
    if i < |text| && (p.state == InNumber) != IsDigit(text[i]) then 1 else 0
  }

  /** The parser as written, from character i in state p: RunFrom with FlushAsWritten for Flush. */
  function RunAsWritten(text: string, i: nat, p: RawParse): (r: Option<map<int, int>>)
    requires i <= |text| && RawOk(p)
    ensures r.Some? ==> p.cells.Keys <= r.value.Keys
    decreases |text| - i, RawRank(text, i, p)
  {
    if i == |text| then Some(p.cells)
    else if p.state == InNumber then
      if IsDigit(text[i]) then
        if |p.buf| < BUFLEN then RunAsWritten(text, i + 1, p.(buf := p.buf + [text[i]])) else None
      else
        RunAsWritten(text, if text[i] == ',' then i + 1 else i, EndNumberAsWritten(FlushAsWritten(p), text[i]))
    else if IsBlank(text[i]) then RunAsWritten(text, i + 1, p)
    else if IsDigit(text[i]) then RunAsWritten(text, i, p.(state := InNumber))
    else None
  }

  /** The state after one one-digit number c and a ',' stored at macro_x. */
  function StoreAsWritten(p: RawParse, c: char): (r: RawParse)
    requires RawOk(p) && IsDigit(c)
    ensures RawOk(r) && r.state == InWhitespace && r.buf == []
  {
    RawParse(InWhitespace, [], p.x + 1, p.y, p.y + 1, p.cells[StoreOffsetAsWritten(p.x, p.y) := KeyValue([c])])
  }

  /** A one-digit number then ',' is stored at macro_x of macro_y and macro_x advances, whatever macro_x is. */
  lemma TokenAsWritten(text: string, j: nat, q: RawParse)
    requires RawOk(q) && q.buf == []
    requires j + 2 <= |text| && IsDigit(text[j]) && text[j + 1] == ','
    ensures RunAsWritten(text, j, q) == RunAsWritten(text, j + 2, StoreAsWritten(q, text[j]))
  {
    var q0 := q.(state := InNumber);
    var q1 := q0.(buf := [text[j]]);
    assert RunAsWritten(text, j, q) == RunAsWritten(text, j, q0);
    assert RunAsWritten(text, j, q0) == RunAsWritten(text, j + 1, q1);
    assert EndNumberAsWritten(FlushAsWritten(q1), ',') == StoreAsWritten(q, text[j]);
  }

  /** The state after the first k one-digit numbers of a line, each followed by ','. */
  function TokensAsWritten(text: string, i: nat, p: RawParse, k: nat): (r: RawParse)
    requires RawOk(p) && i + 2 * k <= |text|
    requires forall t :: 0 <= t < k ==> IsDigit(text[i + 2 * t])
    ensures RawOk(r) && r.x == p.x + k && r.y == p.y
    ensures k > 0 ==> r.buf == [] && r.state == InWhitespace
  {
    if k == 0 then p else StoreAsWritten(TokensAsWritten(text, i, p, k - 1), text[i + 2 * (k - 1)])
  }

  lemma {:induction false} LineAsWritten(text: string, i: nat, p: RawParse, k: nat)
    requires RawOk(p) && p.buf == [] && i + 2 * k <= |text|
    requires forall t :: 0 <= t < k ==> IsDigit(text[i + 2 * t]) && text[i + 2 * t + 1] == ','
    ensures RunAsWritten(text, i, p) == RunAsWritten(text, i + 2 * k, TokensAsWritten(text, i, p, k))
  {
    if k > 0 {
      LineAsWritten(text, i, p, k - 1);
      assert IsDigit(text[i + 2 * (k - 1)]) && text[i + 2 * (k - 1) + 1] == ',';
      TokenAsWritten(text, i + 2 * (k - 1), TokensAsWritten(text, i, p, k - 1));
    }
  }

  /**
   * As written, a line of nine one-digit numbers, eight of them followed by
   * ',' and the ninth by a line end, stores the ninth at macro_x == 8 of
   * macro_y. That word is key 0 of macro macro_y + 1, and on the last
   * macro it lies past the end of the table. The parse goes on from the
   * next line with macro_y + 1, so a 25th line stores past the table too.
   */
  lemma NinthKeyOverrunsAsWritten(text: string, i: nat, p: RawParse)
    requires RawOk(p) && p.buf == [] && p.x == 0 && i + 18 <= |text|
    requires forall t :: 0 <= t < 9 ==> IsDigit(text[i + 2 * t])
    requires forall t :: 0 <= t < 8 ==> text[i + 2 * t + 1] == ','
    requires IsNewline(text[i + 17])
    ensures var q := TokensAsWritten(text, i, p, 8);
            var r := RawParse(InWhitespace, [], 0, p.y + 1, p.y + 1, q.cells[StoreOffsetAsWritten(8, p.y) := KeyValue([text[i + 16]])]);
            RunAsWritten(text, i, p) == RunAsWritten(text, i + 18, r)
            && StoreOffsetAsWritten(8, p.y) == StoreOffsetAsWritten(0, p.y + 1)
            && (p.y + 1 < NUM_MACROKEYS ==> 0 <= StoreOffsetAsWritten(8, p.y) < NUM_MACROKEYS * LEN_MACRO)
            && (p.y + 1 >= NUM_MACROKEYS ==> StoreOffsetAsWritten(8, p.y) >= NUM_MACROKEYS * LEN_MACRO)
            && (p.y + 1 >= NUM_MACROKEYS ==> StoreOffsetAsWritten(0, r.y) >= NUM_MACROKEYS * LEN_MACRO)
  {
    LineAsWritten(text, i, p, 8);
    var q := TokensAsWritten(text, i, p, 8);
    var j := i + 16;
    var q1 := q.(state := InNumber, buf := [text[j]]);
    assert RunAsWritten(text, j, q) == RunAsWritten(text, j, q.(state := InNumber));
    assert RunAsWritten(text, j, q.(state := InNumber)) == RunAsWritten(text, j + 1, q1);
    var r := EndNumberAsWritten(FlushAsWritten(q1), text[j + 1]);
    assert RunAsWritten(text, j + 1, q1) == RunAsWritten(text, j + 1, r);
    assert IsBlank(text[j + 1]);
  }
}

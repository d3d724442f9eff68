/**
 * bl_macro_parse (src/bl_macro.c:10-97): the macro file reader. A second
 * two-state scanner (IN_NUMBER / IN_WHITESPACE) that fills a table of
 * NUM_MACROKEYS macros of LEN_MACRO 16-bit key codes, one macro per line,
 * values separated by commas.
 */
module MacroParser {
  import opened Common

  /** buflen: the digit buffer holds at most 8 digits and the terminator. */
  const BUFLEN: int := 8

  datatype Mode = InNumber | InWhitespace

  /** The loop's variables: state, buf (with i its length), macro_x, macro_y and the table being filled. */
  datatype Parse = Parse(state: Mode, buf: string, x: int, y: int, table: MacroTable)

  predicate ParseOk(p: Parse)
  {
    IsMacroMatrix(p.table.macros)
    && AllDigits(p.buf) && |p.buf| <= BUFLEN
    && 0 <= p.x <= LEN_MACRO && 0 <= p.y
    && (p.state == InWhitespace ==> p.buf == [])
  }

  // ---------------------------------------------------------------------
  // The table and its cells
  // ---------------------------------------------------------------------

  /** The table with every key code zero. */
  function Zeros(): (m: seq<seq<int>>)
    ensures IsMacroMatrix(m)
    ensures forall y, x :: 0 <= y < NUM_MACROKEYS && 0 <= x < LEN_MACRO ==> m[y][x] == 0
  {
    seq(NUM_MACROKEYS, _ => seq(LEN_MACRO, _ => 0))
  }

  /** A table whose every key code is zero is the zero table. */
  lemma AllZero(m: seq<seq<int>>)
    requires IsMacroMatrix(m)
    requires forall y, x :: 0 <= y < NUM_MACROKEYS && 0 <= x < LEN_MACRO ==> m[y][x] == 0
    ensures m == Zeros()
  {
    forall y | 0 <= y < NUM_MACROKEYS
      ensures m[y] == Zeros()[y]
    {
      assert forall x :: 0 <= x < LEN_MACRO ==> m[y][x] == Zeros()[y][x];
    }
  }

  /**
   * The initialisation loops of bl_macro_parse (src/bl_macro.c:16-20),
   * run over the freshly allocated table whatever it held.
   */
  method ClearTable(initial: seq<seq<int>>) returns (m: seq<seq<int>>)
    requires IsMacroMatrix(initial)
    ensures m == Zeros()
  {
    m := initial;
    for i := 0 to NUM_MACROKEYS
      invariant IsMacroMatrix(m)
      invariant forall y, x :: 0 <= y < i && 0 <= x < LEN_MACRO ==> m[y][x] == 0
    {
      for j := 0 to LEN_MACRO
        invariant IsMacroMatrix(m)
        invariant forall y, x :: 0 <= y < i && 0 <= x < LEN_MACRO ==> m[y][x] == 0
        invariant forall x :: 0 <= x < j ==> m[i][x] == 0
      {
        m := m[i := m[i][j := 0]];
      }
    }
    AllZero(m);
  }

  /** The table with macros[y][x] replaced. */
  function SetKey(m: seq<seq<int>>, y: int, x: int, v: int): (m': seq<seq<int>>)
    requires IsMacroMatrix(m) && 0 <= y < NUM_MACROKEYS && 0 <= x < LEN_MACRO
    ensures IsMacroMatrix(m')
    ensures m'[y][x] == v
    ensures forall y', x' :: 0 <= y' < NUM_MACROKEYS && 0 <= x' < LEN_MACRO && (y' != y || x' != x) ==> m'[y'][x'] == m[y'][x']
  {
    m[y := m[y][x := v]]
  }

  // ---------------------------------------------------------------------
  // The scanner
  // ---------------------------------------------------------------------

  /** atoi of the buffer (at most 8 digits, so within int), narrowed to uint16_t by the store. */
  function KeyValue(buf: string): (v: int)
    requires AllDigits(buf)
    ensures IsU16(v)
  {
    ToU16(DecValue(buf))
  }

  /**
   * The store macros[macro_y][macro_x] lies inside the 24 x 8 table. The
   * code as written never checks this (see the findings); the model fails
   * the parse instead of writing outside the table.
   */
  predicate CanStore(p: Parse) { p.x < LEN_MACRO && p.y < NUM_MACROKEYS }

  /**
   * A non-digit in the number state first flushes a pending number: it is
   * stored at macros[macro_y][macro_x], macro_x advances and nmacros
   * becomes macro_y + 1 (src/bl_macro.c:60-65).
   */
  function Flush(p: Parse): (r: Option<Parse>)
    requires ParseOk(p)
    ensures r.Some? ==> ParseOk(r.value) && r.value.buf == [] && r.value.state == p.state && r.value.y == p.y
  {
    if p.buf == [] then Some(p)
    else if !CanStore(p) then None
    else Some(Parse(p.state, [], p.x + 1, p.y, MacroTable(p.y + 1, SetKey(p.table.macros, p.y, p.x, KeyValue(p.buf)))))
  }

  /** The rest of that step: a line end starts the next macro, and the scanner turns to whitespace (src/bl_macro.c:66-73). */
  function EndNumber(q: Parse, ch: char): (r: Parse)
    requires ParseOk(q) && q.buf == []
    ensures ParseOk(r) && r.state == InWhitespace
  {
    if IsNewline(ch) then Parse(InWhitespace, [], 0, q.y + 1, q.table)
    else q.(state := InWhitespace)
  }

  /**
   * Which steps stay on the same character: a non-digit seen in the number
   * state is looked at again in the whitespace state, and a digit seen in
   * the whitespace state again in the number state.
   */
  function Rank(text: string, i: nat, p: Parse): nat
  {
    if i < |text| && (p.state == InNumber) != IsDigit(text[i]) then 1 else 0
  }

  /**
   * The parser run from character i of the file in loop state p. The loop
   * stops at the end of the file; a number still in the buffer then is
   * never stored.
   */
  function RunFrom(text: string, i: nat, p: Parse): (r: Option<MacroTable>)
    requires i <= |text| && ParseOk(p)
    ensures r.Some? ==> IsMacroMatrix(r.value.macros)
    ensures r.Some? ==> r.value.nmacros == p.table.nmacros || p.y < r.value.nmacros <= NUM_MACROKEYS
    decreases |text| - i, Rank(text, i, p)
  {
    if i == |text| then Some(p.table)
    else if p.state == InNumber then
      if IsDigit(text[i]) then
        if |p.buf| < BUFLEN then RunFrom(text, i + 1, p.(buf := p.buf + [text[i]])) else None
      else
        match Flush(p)
        case None => None
        case Some(q) => RunFrom(text, if text[i] == ',' then i + 1 else i, EndNumber(q, text[i]))
    else if IsBlank(text[i]) then RunFrom(text, i + 1, p)
    else if IsDigit(text[i]) then RunFrom(text, i, p.(state := InNumber))
    else None
  }

  /** The loop state before the first character: a zeroed table, nmacros as the allocation left it. */
  function Start(nmacros: int): Parse
  {
    Parse(InNumber, [], 0, 0, MacroTable(nmacros, Zeros()))
  }

  /** The table the file text yields, if any; nmacros is the allocation's prior count. */
  function ParseText(text: string, nmacros: int): (r: Option<MacroTable>)
    ensures r.Some? ==> IsMacroMatrix(r.value.macros)
    ensures r.Some? ==> r.value.nmacros == nmacros || 1 <= r.value.nmacros <= NUM_MACROKEYS
  {
    RunFrom(text, 0, Start(nmacros))
  }

  /**
   * bl_macro_parse on the file's contents; initial and nmacros are what the
   * allocation held. None is the NULL return of both failure paths.
   */
  method MacroParse(text: string, nmacros: int, initial: seq<seq<int>>) returns (r: Option<MacroTable>)
    requires IsMacroMatrix(initial)
    ensures r == ParseText(text, nmacros)
  {
    var macros := ClearTable(initial);
    var count := nmacros;
    var buf: string := [];
    var i := 0;
    var x, y := 0, 0;
    var state := InNumber;
    ghost var p := Start(nmacros);
    while i < |text|
      invariant 0 <= i <= |text| && ParseOk(p)
      invariant p == Parse(state, buf, x, y, MacroTable(count, macros))
      invariant RunFrom(text, i, p) == ParseText(text, nmacros)
      decreases |text| - i, Rank(text, i, p)
    {
      var ch := text[i];
      if state == InNumber {
        if IsDigit(ch) {
          if |buf| < BUFLEN {
            buf := buf + [ch];
            i := i + 1;
            p := p.(buf := buf);
          } else {
            return None;
          }
        } else {
          if |buf| > 0 {
            if !(x < LEN_MACRO && y < NUM_MACROKEYS) {
              return None;
            }
            macros := SetKey(macros, y, x, KeyValue(buf));
            x := x + 1;
            count := y + 1;
            buf := [];
          }
          ghost var q := Flush(p).value;
          assert q == Parse(InNumber, [], x, y, MacroTable(count, macros));
          if ch == '\n' || ch == '\r' {
            x := 0;
            y := y + 1;
          }
          if ch == ',' {
            i := i + 1;
          }
          state := InWhitespace;
          p := EndNumber(q, ch);
        }
      } else {
        if ch == '\n' || ch == '\r' {
          i := i + 1;
        } else if ch == ' ' || ch == '\t' {
          i := i + 1;
        } else if IsDigit(ch) {
          state := InNumber;
          p := p.(state := InNumber);
        } else {
          return None;
        }
      }
    }
    return Some(MacroTable(count, macros));
  }
}

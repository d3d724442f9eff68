/**
 * The keyboard layout (src/layout.c and the serializer of src/usb.c):
 * the layout record, the flat 16-bit form built by bl_layout_convert, the
 * text written by bl_layout_save through bl_usb_raw_print_layout, and the
 * two-state scanner of bl_layout_load_file.
 */
module LayoutCodec {
  import opened Common

  /** bl_matrix_t: uint16_t[NUMLAYERS_MAX][NUMROWS][NUMCOLS]. */
  type Matrix = seq<seq<seq<int>>>

  predicate IsMatrix(m: Matrix)
  {
    |m| == NUMLAYERS_MAX
    && (forall l :: 0 <= l < NUMLAYERS_MAX ==> |m[l]| == NUMROWS)
    && (forall l, r :: 0 <= l < NUMLAYERS_MAX && 0 <= r < NUMROWS ==> |m[l][r]| == NUMCOLS)
    && (forall l, r, c :: 0 <= l < NUMLAYERS_MAX && 0 <= r < NUMROWS && 0 <= c < NUMCOLS ==> IsU16(m[l][r][c]))
  }

  /**
   * bl_layout_t. bl_layout_create(n) yields Layout(n, m) where m is whatever
   * the fresh allocation happens to hold: the model takes it as an argument.
   */
  datatype Layout = Layout(nlayers: int, matrix: Matrix)

  predicate Valid(layout: Layout)
  {
    0 <= layout.nlayers <= NUMLAYERS_MAX && IsMatrix(layout.matrix)
  }

  predicate InGrid(l: int, r: int, c: int)
  {
    0 <= l < NUMLAYERS_MAX && 0 <= r < NUMROWS && 0 <= c < NUMCOLS
  }

  /** Position of matrix[l][r][c] in the flat form: layer-major, then row-major, then column. */
  function FlatIndex(l: int, r: int, c: int): int
  {
    l * NUMKEYS + r * NUMCOLS + c
  }

  /** The cell a flat index denotes. */
  function LayerOf(k: int): (l: int)
    ensures 0 <= k ==> 0 <= l
    ensures 0 <= k < NUMLAYERS_MAX * NUMKEYS ==> l < NUMLAYERS_MAX
  {
    k / NUMKEYS
  }

  function RowOf(k: int): (r: int)
    ensures 0 <= r < NUMROWS
  {
    (k % NUMKEYS) / NUMCOLS
  }

  function ColOf(k: int): (c: int)
    ensures 0 <= c < NUMCOLS
  {
    k % NUMCOLS
  }

  lemma FlatIndexInverse(l: int, r: int, c: int)
    requires 0 <= l && 0 <= r < NUMROWS && 0 <= c < NUMCOLS
    ensures LayerOf(FlatIndex(l, r, c)) == l
    ensures RowOf(FlatIndex(l, r, c)) == r
    ensures ColOf(FlatIndex(l, r, c)) == c
    ensures l * NUMKEYS <= FlatIndex(l, r, c) < (l + 1) * NUMKEYS
  {
    var m := r * NUMCOLS + c;
    assert 0 <= m < NUMKEYS;
    DivModKeys(l, m);
    DivModCols(r, c);
    assert FlatIndex(l, r, c) == (l * NUMROWS + r) * NUMCOLS + c;
    DivModCols(l * NUMROWS + r, c);
  }

  /** Euclidean division by the layer and the row stride. */
  lemma DivModKeys(q: int, rem: int)
    requires 0 <= rem < NUMKEYS
    ensures (q * NUMKEYS + rem) / NUMKEYS == q && (q * NUMKEYS + rem) % NUMKEYS == rem
  {
  }

  lemma DivModCols(q: int, rem: int)
    requires 0 <= rem < NUMCOLS
    ensures (q * NUMCOLS + rem) / NUMCOLS == q && (q * NUMCOLS + rem) % NUMCOLS == rem
  {
  }

  lemma IndexPosition(k: int)
    requires 0 <= k
    ensures 0 <= LayerOf(k) && 0 <= RowOf(k) < NUMROWS && 0 <= ColOf(k) < NUMCOLS
    ensures FlatIndex(LayerOf(k), RowOf(k), ColOf(k)) == k
    ensures k < NUMLAYERS_MAX * NUMKEYS ==> LayerOf(k) < NUMLAYERS_MAX
  {
    var q, rem := k / NUMKEYS, k % NUMKEYS;
    assert k == q * NUMKEYS + rem;
    var r, c := rem / NUMCOLS, rem % NUMCOLS;
    assert rem == r * NUMCOLS + c;
    assert k == (q * NUMROWS + r) * NUMCOLS + c;
    DivModCols(q * NUMROWS + r, c);
  }

  /** Two cells of the grid share a flat index only if they are the same cell. */
  lemma FlatIndexInjective(l: int, r: int, c: int, l': int, r': int, c': int)
    requires 0 <= l && 0 <= r < NUMROWS && 0 <= c < NUMCOLS
    requires 0 <= l' && 0 <= r' < NUMROWS && 0 <= c' < NUMCOLS
    requires FlatIndex(l, r, c) == FlatIndex(l', r', c')
    ensures l == l' && r == r' && c == c'
  {
    FlatIndexInverse(l, r, c);
    FlatIndexInverse(l', r', c');
  }

  /** The matrix with one cell replaced. */
  function Put(m: Matrix, l: int, r: int, c: int, v: int): (m': Matrix)
    requires IsMatrix(m) && InGrid(l, r, c) && IsU16(v)
    ensures IsMatrix(m')
    ensures m'[l][r][c] == v
    ensures forall l', r', c' :: InGrid(l', r', c') && (l' != l || r' != r || c' != c) ==> m'[l'][r'][c'] == m[l'][r'][c']
  {
    m[l := m[l][r := m[l][r][c := v]]]
  }

  // ---------------------------------------------------------------------
  // bl_layout_convert (src/layout.c:55-71)
  // ---------------------------------------------------------------------

  /** The cells of the first n layers in flat order: the reference for the flat form. */
  function Flatten(layout: Layout): (data: seq<int>)
    requires Valid(layout)
    ensures |data| == layout.nlayers * NUMKEYS
    ensures forall k :: 0 <= k < |data| ==> data[k] == layout.matrix[LayerOf(k)][RowOf(k)][ColOf(k)]
    ensures forall k :: 0 <= k < |data| ==> IsU16(data[k])
  {
    seq(layout.nlayers * NUMKEYS, k requires 0 <= k < layout.nlayers * NUMKEYS => layout.matrix[LayerOf(k)][RowOf(k)][ColOf(k)])
  }

  /** Cell (l, r, c) of the first nlayers layers sits at FlatIndex(l, r, c) of the flat form. */
  lemma FlattenAt(layout: Layout, l: int, r: int, c: int)
    requires Valid(layout) && 0 <= l < layout.nlayers && 0 <= r < NUMROWS && 0 <= c < NUMCOLS
    ensures 0 <= FlatIndex(l, r, c) < |Flatten(layout)|
    ensures Flatten(layout)[FlatIndex(l, r, c)] == layout.matrix[l][r][c]
  {
    FlatIndexInverse(l, r, c);
  }

  /**
   * bl_layout_convert: a fresh array of 1 + nlayers * NUMKEYS 16-bit words.
   * Word 0 first receives nlayers, but for nlayers >= 1 the loop overwrites it
   * with cell (0,0,0), so the count does not survive; the last word is never
   * written and is left unconstrained.
   */
  method Convert(layout: Layout) returns (data: seq<int>)
    requires Valid(layout)
    ensures |data| == 1 + layout.nlayers * NUMKEYS
    ensures data[..layout.nlayers * NUMKEYS] == Flatten(layout)
    ensures layout.nlayers == 0 ==> data == [0]
    ensures layout.nlayers >= 1 ==> data[0] == layout.matrix[0][0][0]
  {
    var n := layout.nlayers;
    ghost var flat := Flatten(layout);
    var a := new int[1 + n * NUMKEYS];
    a[0] := n;
    var l := 0;
    while l < n
      invariant 0 <= l <= n
      invariant n == 0 ==> a[0] == 0
      invariant forall k :: 0 <= k < l * NUMKEYS ==> a[k] == flat[k]
    {
      var r := 0;
      while r < NUMROWS
        invariant 0 <= r <= NUMROWS
        invariant forall k :: 0 <= k < l * NUMKEYS + r * NUMCOLS ==> a[k] == flat[k]
      {
        var c := 0;
        while c < NUMCOLS
          invariant 0 <= c <= NUMCOLS
          invariant forall k :: 0 <= k < l * NUMKEYS + r * NUMCOLS + c ==> a[k] == flat[k]
        {
          var index := FlatIndex(l, r, c);
          FlattenAt(layout, l, r, c);
          a[index] := layout.matrix[l][r][c];
          c := c + 1;
        }
        r := r + 1;
      }
      l := l + 1;
    }
    data := a[..];
    assert data[..n * NUMKEYS] == flat;
    if n >= 1 {
      FlattenAt(layout, 0, 0, 0);
    }
  }

  // ---------------------------------------------------------------------
  // bl_usb_raw_print_layout (src/usb.c:264-278) and bl_layout_save
  // ---------------------------------------------------------------------

  /** What follows value k: a newline after the last key of a layer, ", " otherwise. */
  function Separator(k: int): string
  {
    if k % NUMKEYS == NUMKEYS - 1 then "\n" else ", "
  }

  /**
   * The text of the first k words of a uint16_t buffer, as "%u" values
   * with separators; the int model of a word is taken modulo 2^16.
   */
  function RawText(buffer: seq<int>, k: nat): string
    requires k <= |buffer|
  {
    if k == 0 then [] else RawText(buffer, k - 1) + NatToDec(ToU16(buffer[k - 1])) + Separator(k - 1)
  }

  /** bl_usb_raw_print_layout: the text written to the stream, for nlayers layers of the buffer. */
  method RawPrint(buffer: seq<int>, nlayers: int) returns (out: string)
    requires 0 <= nlayers && nlayers * NUMKEYS <= |buffer|
    requires forall i :: 0 <= i < nlayers * NUMKEYS ==> IsU16(buffer[i])
    ensures out == RawText(buffer, nlayers * NUMKEYS)
  {
    out := [];
    ghost var k := 0;
    var l := 0;
    while l < nlayers
      invariant 0 <= l <= nlayers && k == l * NUMKEYS
      invariant out == RawText(buffer, k)
    {
      var r := 0;
      while r < NUMROWS
        invariant 0 <= r <= NUMROWS && k == l * NUMKEYS + r * NUMCOLS
        invariant out == RawText(buffer, k)
      {
        var c := 0;
        while c < NUMCOLS
          invariant 0 <= c <= NUMCOLS && k == l * NUMKEYS + r * NUMCOLS + c
          invariant out == RawText(buffer, k)
        {
          var index := FlatIndex(l, r, c);
          SeparatorAt(l, r, c);
          RawTextStep(buffer, k);
          if c == NUMCOLS - 1 && r == NUMROWS - 1 {
            out := out + NatToDec(buffer[index]) + "\n";
          } else {
            out := out + NatToDec(buffer[index]) + ", ";
          }
          c := c + 1;
          k := k + 1;
        }
        r := r + 1;
      }
      l := l + 1;
    }
  }

  /** The text grows by one value and its separator per word. */
  lemma RawTextStep(buffer: seq<int>, k: nat)
    requires k < |buffer| && IsU16(buffer[k])
    ensures RawText(buffer, k + 1) == RawText(buffer, k) + NatToDec(buffer[k]) + Separator(k)
  {
  }

  /** The separator after a cell: a newline after the last cell of its layer only. */
  lemma SeparatorAt(l: int, r: int, c: int)
    requires 0 <= l && 0 <= r < NUMROWS && 0 <= c < NUMCOLS
    ensures Separator(FlatIndex(l, r, c)) == if c == NUMCOLS - 1 && r == NUMROWS - 1 then "\n" else ", "
  {
    FlatIndexInverse(l, r, c);
  }

  /** The file contents bl_layout_save writes for a layout. */
  function SaveText(layout: Layout): string
    requires Valid(layout)
  {
    RawText(Flatten(layout), layout.nlayers * NUMKEYS)
  }

  lemma {:induction false} RawTextPrefix(a: seq<int>, b: seq<int>, k: nat)
    requires k <= |a| && k <= |b| && a[..k] == b[..k]
    ensures RawText(a, k) == RawText(b, k)
  {
    if k > 0 {
      assert a[k - 1] == a[..k][k - 1] == b[..k][k - 1] == b[k - 1];
      assert a[..k - 1] == a[..k][..k - 1];
      assert b[..k - 1] == b[..k][..k - 1];
      RawTextPrefix(a, b, k - 1);
    }
  }

  /** The first nlayers * NUMKEYS words of a converted layout are 16-bit. */
  lemma ConvertedWords(layout: Layout, buffer: seq<int>)
    requires Valid(layout) && layout.nlayers * NUMKEYS <= |buffer|
    requires buffer[..layout.nlayers * NUMKEYS] == Flatten(layout)
    ensures forall i :: 0 <= i < layout.nlayers * NUMKEYS ==> IsU16(buffer[i])
  {
    forall i | 0 <= i < layout.nlayers * NUMKEYS
      ensures IsU16(buffer[i])
    {
      assert buffer[i] == Flatten(layout)[i];
    }
  }

  /**
   * bl_layout_save: -1 when the file cannot be opened (nothing written),
   * otherwise 0 after writing the raw text of the converted layout.
   */
  method Save(layout: Layout, fileOpens: bool) returns (ret: int, written: string)
    requires Valid(layout)
    ensures !fileOpens ==> ret == -1 && written == []
    ensures fileOpens ==> ret == 0 && written == SaveText(layout)
  {
    if !fileOpens {
      return -1, [];
    }
    var buffer := Convert(layout);
    ConvertedWords(layout, buffer);
    written := RawPrint(buffer, layout.nlayers);
    RawTextPrefix(buffer, Flatten(layout), layout.nlayers * NUMKEYS);
    ret := 0;
  }

  // ---------------------------------------------------------------------
  // bl_layout_load_file (src/layout.c:97-208)
  // ---------------------------------------------------------------------

  /** BL_STATE_WHITESPACE and BL_STATE_DIGIT. */
  datatype Mode = Whitespace | Digits

  /** The loop's variables: state, parse_buffer, layer, row, col and the matrix being filled. */
  datatype Scan = Scan(mode: Mode, buf: string, layer: int, row: int, col: int, matrix: Matrix)

  /** parse_buffer is char[20]: at most 19 digits and the terminator. */
  const PARSE_DIGITS_MAX: int := 19

  predicate ScanOk(s: Scan)
  {
    IsMatrix(s.matrix)
    && 0 <= s.layer <= NUMLAYERS_MAX && 0 <= s.row <= NUMROWS && 0 <= s.col < NUMCOLS
    && AllDigits(s.buf) && |s.buf| <= PARSE_DIGITS_MAX
    && (s.mode == Whitespace ==> s.buf == [])
  }

  /**
   * The store matrix[layer][row][col] stays inside the 6x20x8 array. The
   * code as written never checks this (see the findings); the model fails
   * the load instead of writing outside the array.
   */
  predicate CanStore(s: Scan) { s.layer < NUMLAYERS_MAX && s.row < NUMROWS }

  /** atoi of the buffer, narrowed to uint16_t by the store. */
  function KeyValue(buf: string): int
    requires AllDigits(buf)
  {
    ToU16(DecValue(buf))
  }

  function StoreKey(s: Scan): Matrix
    requires ScanOk(s) && CanStore(s)
  {
    Put(s.matrix, s.layer, s.row, s.col, KeyValue(s.buf))
  }

  /** One character in the digit state: the character is always consumed. */
  function DigitStep(s: Scan, ch: char): (r: Option<Scan>)
    requires ScanOk(s) && s.mode == Digits
    ensures r.Some? ==> ScanOk(r.value)
  {
    if IsDigit(ch) then
      if |s.buf| >= PARSE_DIGITS_MAX then None
      else Some(s.(buf := s.buf + [ch]))
    else if ch == ',' then
      if !CanStore(s) then None
      else if s.col == NUMCOLS - 1 then Some(Scan(Whitespace, [], s.layer, s.row + 1, 0, StoreKey(s)))
      else Some(Scan(Whitespace, [], s.layer, s.row, s.col + 1, StoreKey(s)))
    else if IsNewline(ch) then
      if !CanStore(s) || s.col < NUMCOLS - 1 || s.row < NUMROWS - 1 then None
      else Some(Scan(Whitespace, [], s.layer + 1, 0, 0, StoreKey(s)))
    else
      None
  }

  /**
   * After the last character: store pending digits, count the layers closed
   * by a newline, and fail when row lies strictly between 0 and 19 or col
   * strictly between 0 and 7. A last line without a newline is never
   * counted, and one of 1, 8, 153 or 160 values still loads.
   */
  function Finish(s: Scan): (r: Option<Layout>)
    requires ScanOk(s)
    ensures r.Some? ==> Valid(r.value) && r.value.nlayers == s.layer
  {
    if |s.buf| > 0 && !CanStore(s) then None
    else
      var m := if |s.buf| > 0 then StoreKey(s) else s.matrix;
      if (s.row > 0 && s.row < NUMROWS - 1) || (s.col > 0 && s.col < NUMCOLS - 1) then None
      else Some(Layout(s.layer, m))
  }

  /** The loader run from character i of the file in loop state s. */
  function RunFrom(text: string, i: nat, s: Scan): (r: Option<Layout>)
    requires i <= |text| && ScanOk(s)
    ensures r.Some? ==> Valid(r.value)
    decreases |text| - i, if s.mode == Whitespace then 1 else 0
  {
    if i == |text| then Finish(s)
    else if s.mode == Digits then
      match DigitStep(s, text[i])
      case None => None
      case Some(s') => RunFrom(text, i + 1, s')
    else if IsBlank(text[i]) then RunFrom(text, i + 1, s)
    else if IsDigit(text[i]) then RunFrom(text, i, s.(mode := Digits))
    else None
  }

  /** The loop state before the first character: bl_layout_create(NUMLAYERS_MAX) and zeroed counters. */
  function Start(initial: Matrix): Scan
  {
    Scan(Whitespace, [], 0, 0, 0, initial)
  }

  /** The layout the file text yields, if any; initial is the allocation's prior contents. */
  function Load(text: string, initial: Matrix): (r: Option<Layout>)
    requires IsMatrix(initial)
    ensures r.Some? ==> Valid(r.value)
  {
    RunFrom(text, 0, Start(initial))
  }

  /**
   * bl_layout_load_file on the file's contents. None is the NULL return of
   * every failure path; a failed load never yields a partial layout.
   */
  method LoadFile(text: string, initial: Matrix) returns (r: Option<Layout>)
    requires IsMatrix(initial)
    ensures r == Load(text, initial)
    ensures r.Some? ==> Valid(r.value)
  {
    var mode := Whitespace;
    var buf: string := [];
    var layer, row, col := 0, 0, 0;
    var matrix := initial;
    var i := 0;
    while i < |text|
      invariant 0 <= i <= |text|
      invariant ScanOk(Scan(mode, buf, layer, row, col, matrix))
      invariant RunFrom(text, i, Scan(mode, buf, layer, row, col, matrix)) == Load(text, initial)
      decreases |text| - i, if mode == Whitespace then 1 else 0
    {
      var ch := text[i];
      if mode == Digits {
        if IsDigit(ch) {
          if |buf| >= PARSE_DIGITS_MAX {
            return None;
          }
          buf := buf + [ch];
        } else if ch == ',' {
          if !(layer < NUMLAYERS_MAX && row < NUMROWS) {
            return None;
          }
          matrix := Put(matrix, layer, row, col, KeyValue(buf));
          buf := [];
          if col == NUMCOLS - 1 {
            col := 0;
            row := row + 1;
          } else {
            col := col + 1;
          }
          mode := Whitespace;
        } else if ch == '\n' || ch == '\r' {
          if !(layer < NUMLAYERS_MAX && row < NUMROWS) {
            return None;
          }
          matrix := Put(matrix, layer, row, col, KeyValue(buf));
          buf := [];
          mode := Whitespace;
          if col < NUMCOLS - 1 {
            return None;
          }
          if row < NUMROWS - 1 {
            return None;
          }
          layer := layer + 1;
          col := 0;
          row := 0;
        } else {
          return None;
        }
        i := i + 1;
      } else {
        if ch == '\n' || ch == '\r' || ch == ' ' || ch == '\t' {
          i := i + 1;
        } else if IsDigit(ch) {
          mode := Digits;
        } else {
          return None;
        }
      }
    }
    if |buf| > 0 {
      if !(layer < NUMLAYERS_MAX && row < NUMROWS) {
        return None;
      }
      matrix := Put(matrix, layer, row, col, KeyValue(buf));
    }
    if (row > 0 && row < NUMROWS - 1) || (col > 0 && col < NUMCOLS - 1) {
      return None;
    }
    return Some(Layout(layer, matrix));
  }
}

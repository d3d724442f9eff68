/**
 * The pieces of the layout editor around the navigation loop
 * (src/bl_ui_layout.c and its older copy src/configure_layout.c): the
 * select-box catalog of key codes, the lookup of a cell's code in it, the
 * per-cell select-box initialisation, the zeroing of a fresh layout, the
 * copy of the controller's flat layout into the matrix (bl_layout_read)
 * and the layer-count prompt (bl_layout_manage_layers).
 */
module LayoutUi {
  import opened Common
  import opened LayoutCodec
  import Usb
  import Tui

  // ---------------------------------------------------------------------
  // The catalog (src/configure_layout.c:46-51, 488-508)
  // ---------------------------------------------------------------------

  /** key_mapping_t: virtual key, display name, HID usage code (a uint16_t). */
  datatype KeyMapping = KeyMapping(vk: int, name: string, hid: int)

  /** bl_tui_select_box_value_t as the editor uses it: a caption and the uint16_t its data points to. */
  datatype Item = Item(caption: string, code: int)

  predicate CodesOk(items: seq<Item>)
  {
    forall i :: 0 <= i < |items| ==> IsU16(items[i].code)
  }

  /** What bl_layout_configure builds: "--" for an undefined cell (code 0), then every mapping in order. */
  predicate IsCatalog(items: seq<Item>, mapping: seq<KeyMapping>)
  {
    |items| == |mapping| + 1
    && items[0] == Item("--", 0)
    && forall i :: 0 <= i < |mapping| ==> items[i + 1] == Item(mapping[i].name, mapping[i].hid)
  }

  /** The loop of bl_layout_configure that fills bl_key_mapping_items. */
  method BuildCatalog(mapping: seq<KeyMapping>) returns (items: seq<Item>)
    requires forall i :: 0 <= i < |mapping| ==> IsU16(mapping[i].hid)
    ensures IsCatalog(items, mapping) && CodesOk(items)
  {
    items := [Item("--", 0)];
    var i := 0;
    while i < |mapping|
      invariant 0 <= i <= |mapping|
      invariant |items| == i + 1 && items[0] == Item("--", 0) && CodesOk(items)
      invariant forall j :: 0 <= j < i ==> items[j + 1] == Item(mapping[j].name, mapping[j].hid)
    {
      items := items + [Item(mapping[i].name, mapping[i].hid)];
      i := i + 1;
    }
  }

  /** The captions the select boxes show. */
  function Captions(items: seq<Item>): (s: seq<string>)
    ensures |s| == |items| && forall i :: 0 <= i < |items| ==> s[i] == items[i].caption
  {
    seq(|items|, i requires 0 <= i < |items| => items[i].caption)
  }

  // ---------------------------------------------------------------------
  // bl_layout_get_selected_item (src/bl_ui_layout.c:212-221, src/configure_layout.c:180-189)
  // ---------------------------------------------------------------------

  /** The search from index i on. */
  function FindCode(items: seq<Item>, cell: int, i: nat): (r: int)
    requires i <= |items|
    ensures (exists j :: i <= j < |items| && items[j].code == cell) ==>
              i <= r < |items| && items[r].code == cell && forall j :: i <= j < r ==> items[j].code != cell
    ensures (forall j :: i <= j < |items| ==> items[j].code != cell) ==> r == 0
    decreases |items| - i
  {
    if i == |items| then 0
    else if items[i].code == cell then i
    else FindCode(items, cell, i + 1)
  }

  /** The index of the first item whose code is the cell's, or 0 when there is none. */
  function GetSelectedItem(cell: int, items: seq<Item>): (r: int)
    ensures 0 < |items| ==> 0 <= r < |items|
    ensures (exists j :: 0 <= j < |items| && items[j].code == cell) <==>
              0 <= r < |items| && items[r].code == cell
    ensures 0 <= r < |items| && items[r].code == cell ==> forall j :: 0 <= j < r ==> items[j].code != cell
    ensures (forall j :: 0 <= j < |items| ==> items[j].code != cell) ==> r == 0
  {
    FindCode(items, cell, 0)
  }

  /**
   * A box index agrees with a cell when the item it selects carries the
   * cell's code, or, for a code the catalog lacks, when it is the default 0.
   */
  predicate Shows(items: seq<Item>, s: int, cell: int)
    requires 0 <= s < |items|
  {
    items[s].code == cell || (s == 0 && forall j :: 0 <= j < |items| ==> items[j].code != cell)
  }

  lemma SelectedItemShows(cell: int, items: seq<Item>)
    requires 0 < |items|
    ensures Shows(items, GetSelectedItem(cell, items), cell)
  {
  }

  /** In a catalog an undefined cell (code 0) is always matched by the "--" entry. */
  lemma UndefinedCellSelectsDefault(items: seq<Item>, mapping: seq<KeyMapping>)
    requires IsCatalog(items, mapping)
    ensures GetSelectedItem(0, items) == 0
  {
    assert items[0].code == 0;
  }

  /** A mapping's code selects that mapping's entry, unless an earlier entry carries the same code. */
  lemma {:induction false} CatalogLookup(items: seq<Item>, mapping: seq<KeyMapping>, i: int)
    requires IsCatalog(items, mapping) && 0 <= i < |mapping|
    requires mapping[i].hid != 0 && forall j :: 0 <= j < i ==> mapping[j].hid != mapping[i].hid
    ensures GetSelectedItem(mapping[i].hid, items) == i + 1
    ensures items[GetSelectedItem(mapping[i].hid, items)].caption == mapping[i].name
  {
    var cell := mapping[i].hid;
    assert items[i + 1].code == cell;
    var r := GetSelectedItem(cell, items);
    assert 1 <= r by {
      assert items[0].code == 0;
    }
    assert items[r] == Item(mapping[r - 1].name, mapping[r - 1].hid);
  }

  // ---------------------------------------------------------------------
  // The 6 x 20 x 8 grid of per-cell select boxes
  // ---------------------------------------------------------------------

  /**
   * bl_matrix_ui_t, the select box of every cell. All boxes share the
   * catalog, the width and the popup width; only selected_item_index
   * differs, so a box is represented by that index.
   */
  type Grid = seq<seq<seq<int>>>

  predicate IsGrid(g: Grid)
  {
    |g| == NUMLAYERS_MAX
    && (forall l :: 0 <= l < NUMLAYERS_MAX ==> |g[l]| == NUMROWS)
    && (forall l, r :: 0 <= l < NUMLAYERS_MAX && 0 <= r < NUMROWS ==> |g[l][r]| == NUMCOLS)
  }

  /** Every box selects one of the n items. */
  ghost predicate IsSelection(g: Grid, n: int)
  {
    IsGrid(g) && forall l, r, c :: InGrid(l, r, c) ==> 0 <= g[l][r][c] < n
  }

  function PutCell(g: Grid, l: int, r: int, c: int, v: int): (g': Grid)
    requires IsGrid(g) && InGrid(l, r, c)
    ensures IsGrid(g')
    ensures g'[l][r][c] == v
    ensures forall l', r', c' :: InGrid(l', r', c') && (l' != l || r' != r || c' != c) ==> g'[l'][r'][c'] == g[l'][r'][c']
  {
    g[l := g[l][r := g[l][r][c := v]]]
  }

  function ZeroGrid(): (g: Grid)
    ensures IsGrid(g) && forall l, r, c :: InGrid(l, r, c) ==> g[l][r][c] == 0
  {
    seq(NUMLAYERS_MAX, _ => seq(NUMROWS, _ => seq(NUMCOLS, _ => 0)))
  }

  /** Two grids with the same cells are the same grid. */
  lemma GridExt(a: Grid, b: Grid)
    requires IsGrid(a) && IsGrid(b)
    requires forall l, r, c :: InGrid(l, r, c) ==> a[l][r][c] == b[l][r][c]
    ensures a == b
  {
    forall l | 0 <= l < NUMLAYERS_MAX
      ensures a[l] == b[l]
    {
      forall r | 0 <= r < NUMROWS
        ensures a[l][r] == b[l][r]
      {
        assert forall c :: 0 <= c < NUMCOLS ==> a[l][r][c] == b[l][r][c] by {
          forall c | 0 <= c < NUMCOLS
            ensures a[l][r][c] == b[l][r][c]
          {
            assert InGrid(l, r, c);
          }
        }
      }
    }
  }

  /** Every box agrees with its cell. */
  ghost predicate Agrees(m: Matrix, g: Grid, items: seq<Item>)
    requires IsMatrix(m) && IsSelection(g, |items|)
  {
    forall l, r, c :: InGrid(l, r, c) ==> Shows(items, g[l][r][c], m[l][r][c])
  }

  /** The boxes bl_layout_init_matrix sets up: each selects the catalog entry of its cell's code. */
  function InitialSelection(m: Matrix, items: seq<Item>): (g: Grid)
    requires IsMatrix(m)
    ensures IsGrid(g)
  {
    seq(NUMLAYERS_MAX, l requires 0 <= l < NUMLAYERS_MAX =>
      seq(NUMROWS, r requires 0 <= r < NUMROWS =>
        seq(NUMCOLS, c requires 0 <= c < NUMCOLS => GetSelectedItem(m[l][r][c], items))))
  }

  lemma InitialSelectionAgrees(m: Matrix, items: seq<Item>)
    requires IsMatrix(m) && 0 < |items|
    ensures IsSelection(InitialSelection(m, items), |items|)
    ensures Agrees(m, InitialSelection(m, items), items)
  {
    var g := InitialSelection(m, items);
    forall l, r, c | InGrid(l, r, c)
      ensures 0 <= g[l][r][c] < |items| && Shows(items, g[l][r][c], m[l][r][c])
    {
      SelectedItemShows(m[l][r][c], items);
    }
  }

  /**
   * bl_layout_init_matrix: a box for every cell of all NUMLAYERS_MAX
   * layers, layers beyond nlayers included, each set to the lookup of its
   * cell. The caller's boxes are all overwritten, so they are not an input.
   */
  method InitMatrix(m: Matrix, items: seq<Item>) returns (g: Grid)
    requires IsMatrix(m)
    ensures g == InitialSelection(m, items)
  {
    g := ZeroGrid();
    for l := 0 to NUMLAYERS_MAX
      invariant IsGrid(g)
      invariant forall l', r', c' :: InGrid(l', r', c') && l' < l ==> g[l'][r'][c'] == GetSelectedItem(m[l'][r'][c'], items)
    {
      for r := 0 to NUMROWS
        invariant IsGrid(g)
        invariant forall l', r', c' :: InGrid(l', r', c') && (l' < l || (l' == l && r' < r)) ==>
                    g[l'][r'][c'] == GetSelectedItem(m[l'][r'][c'], items)
      {
        for c := 0 to NUMCOLS
          invariant IsGrid(g)
          invariant forall l', r', c' :: InGrid(l', r', c') && (l' < l || (l' == l && r' < r) || (l' == l && r' == r && c' < c)) ==>
                      g[l'][r'][c'] == GetSelectedItem(m[l'][r'][c'], items)
        {
          g := PutCell(g, l, r, c, GetSelectedItem(m[l][r][c], items));
        }
      }
    }
    GridExt(g, InitialSelection(m, items));
  }

  // ---------------------------------------------------------------------
  // bl_layout_init_layout (src/configure_layout.c:451-459)
  // ---------------------------------------------------------------------

  /** Every cell of all NUMLAYERS_MAX layers becomes 0; the layer count is kept. */
  method InitLayout(layout: Layout) returns (layout': Layout)
    requires IsMatrix(layout.matrix)
    ensures layout'.nlayers == layout.nlayers && IsMatrix(layout'.matrix)
    ensures forall l, r, c :: InGrid(l, r, c) ==> layout'.matrix[l][r][c] == 0
  {
    var m := layout.matrix;
    for l := 0 to NUMLAYERS_MAX
      invariant IsMatrix(m)
      invariant forall l', r', c' :: InGrid(l', r', c') && l' < l ==> m[l'][r'][c'] == 0
    {
      for r := 0 to NUMROWS
        invariant IsMatrix(m)
        invariant forall l', r', c' :: InGrid(l', r', c') && (l' < l || (l' == l && r' < r)) ==> m[l'][r'][c'] == 0
      {
        for c := 0 to NUMCOLS
          invariant IsMatrix(m)
          invariant forall l', r', c' :: InGrid(l', r', c') && (l' < l || (l' == l && r' < r) || (l' == l && r' == r && c' < c)) ==>
                      m[l'][r'][c'] == 0
        {
          m := Put(m, l, r, c, 0);
        }
      }
    }
    layout' := Layout(layout.nlayers, m);
  }

  // ---------------------------------------------------------------------
  // bl_layout_read (src/bl_ui_layout.c:505-521)
  // ---------------------------------------------------------------------

  /** The 16-bit words of the data bl_usb_read_layout hands over, as the cast to uint16_t * reads them. */
  function ReadWords(response: seq<int>): (w: seq<int>)
    requires |response| <= Usb.BUF_SIZE && Usb.IsBytes(response)
    ensures |w| == (Usb.BUF_SIZE - 2) / 2 && Usb.IsWords(w)
  {
    Usb.LeWords(Usb.Padded(response)[2..])
  }

  /** The count byte of the controller's answer. */
  function ReadCount(response: seq<int>): int
    requires |response| <= Usb.BUF_SIZE
  {
    Usb.Padded(response)[0]
  }

  /**
   * The layout after a read: unchanged when the controller's count is
   * rejected; otherwise the count is taken, layers below it hold word
   * l*160 + r*8 + c of the data, and the other layers are untouched.
   */
  ghost predicate ReadInto(layout: Layout, response: seq<int>, layout': Layout)
    requires |response| <= Usb.BUF_SIZE && Usb.IsBytes(response) && IsMatrix(layout.matrix)
  {
    var n := ReadCount(response);
    if 1 <= n <= NUMLAYERS_MAX then
      layout'.nlayers == n && IsMatrix(layout'.matrix)
      && (forall l, r, c :: InGrid(l, r, c) && l < n ==> layout'.matrix[l][r][c] == ReadWords(response)[FlatIndex(l, r, c)])
      && (forall l, r, c :: InGrid(l, r, c) && n <= l ==> layout'.matrix[l][r][c] == layout.matrix[l][r][c])
    else
      layout' == layout
  }

  /**
   * bl_layout_read with the result of bl_usb_read_layout checked: on
   * failure the layout is left as it was (the code as written ignores the
   * result; see LayoutReadAsWritten).
   */
  method LayoutRead(layout: Layout, response: seq<int>) returns (layout': Layout)
    requires |response| <= Usb.BUF_SIZE && Usb.IsBytes(response) && IsMatrix(layout.matrix)
    ensures ReadInto(layout, response, layout')
  {
    var ok, n, data := Usb.ReadLayout(response);
    if !ok {
      return layout;
    }
    var words := Usb.LeWords(data);
    assert words == ReadWords(response);
    var m := layout.matrix;
    for l := 0 to n
      invariant IsMatrix(m)
      invariant forall l', r', c' :: InGrid(l', r', c') && l' < l ==> m[l'][r'][c'] == words[FlatIndex(l', r', c')]
      invariant forall l', r', c' :: InGrid(l', r', c') && l <= l' ==> m[l'][r'][c'] == layout.matrix[l'][r'][c']
    {
      for r := 0 to NUMROWS
        invariant IsMatrix(m)
        invariant forall l', r', c' :: InGrid(l', r', c') && (l' < l || (l' == l && r' < r)) ==> m[l'][r'][c'] == words[FlatIndex(l', r', c')]
        invariant forall l', r', c' :: InGrid(l', r', c') && (l < l' || (l' == l && r <= r')) ==> m[l'][r'][c'] == layout.matrix[l'][r'][c']
      {
        for c := 0 to NUMCOLS
          invariant IsMatrix(m)
          invariant forall l', r', c' :: InGrid(l', r', c') && (l' < l || (l' == l && r' < r) || (l' == l && r' == r && c' < c)) ==>
                      m[l'][r'][c'] == words[FlatIndex(l', r', c')]
          invariant forall l', r', c' :: InGrid(l', r', c') && (l < l' || (l' == l && r < r') || (l' == l && r' == r && c <= c')) ==>
                      m[l'][r'][c'] == layout.matrix[l'][r'][c']
        {
          var k := FlatIndex(l, r, c);
          m := Put(m, l, r, c, words[k]);
        }
      }
    }
    layout' := Layout(n, m);
  }

  /**
   * bl_layout_read is the inverse of bl_layout_convert's indexing: an
   * answer holding the count, one more byte and then the little-endian
   * flat form of a layout fills the first nlayers layers with that
   * layout's cells.
   */
  lemma ReadInvertsConvert(layout: Layout, pad: int, old_: Layout, layout': Layout)
    requires Valid(layout) && 1 <= layout.nlayers && IsU8(pad) && IsMatrix(old_.matrix)
    requires Usb.IsBytes([layout.nlayers, pad] + Usb.LeBytes(Flatten(layout)))
    requires ReadInto(old_, [layout.nlayers, pad] + Usb.LeBytes(Flatten(layout)), layout')
    ensures layout'.nlayers == layout.nlayers
    ensures forall l, r, c :: InGrid(l, r, c) && l < layout.nlayers ==> layout'.matrix[l][r][c] == layout.matrix[l][r][c]
  {
    var words := Flatten(layout);
    var response := [layout.nlayers, pad] + Usb.LeBytes(words);
    Usb.FramedReadDecodes(layout.nlayers, pad, words);
    assert ReadCount(response) == layout.nlayers;
    forall l, r, c | InGrid(l, r, c) && l < layout.nlayers
      ensures layout'.matrix[l][r][c] == layout.matrix[l][r][c]
    {
      FlatIndexInverse(l, r, c);
      assert ReadWords(response)[..|words|][FlatIndex(l, r, c)] == words[FlatIndex(l, r, c)];
    }
  }

  /**
   * The layout struct as bl_layout_read writes it: the count, and the
   * uint16_t matrix[6][20][8] as flat word memory, matrix[l][r][c] being
   * the word at FlatIndex(l, r, c). Nothing bounds the offsets, so words
   * past 960 are the memory after the matrix.
   */
  datatype RawLayout = RawLayout(nlayers: int, cells: map<int, int>)

  /** The memory after the stores of words 0 .. k-1, in increasing order, each taken from the same offset of buffer. */
  function Copied(cells: map<int, int>, buffer: int -> int, k: nat): map<int, int>
  {
    if k == 0 then cells else Copied(cells, buffer, k - 1)[k - 1 := buffer(k - 1)]
  }

  /** After k stores, words 0 .. k-1 hold buffer's words and every other word is as it was. */
  lemma {:induction false} CopiedCells(cells: map<int, int>, buffer: int -> int, k: nat)
    ensures forall j :: 0 <= j < k ==> j in Copied(cells, buffer, k) && Copied(cells, buffer, k)[j] == buffer(j)
    ensures forall j :: j in cells && !(0 <= j < k) ==> j in Copied(cells, buffer, k) && Copied(cells, buffer, k)[j] == cells[j]
    ensures forall j :: j in Copied(cells, buffer, k) <==> j in cells || 0 <= j < k
  {
    if k > 0 {
      CopiedCells(cells, buffer, k - 1);
    }
  }

  /**
   * bl_layout_read as written (src/bl_ui_layout.c:505-518): the count
   * bl_usb_read_layout reported is stored whether or not it was accepted,
   * and the copy runs over that many layers through buffer. When the read
   * failed, buffer is the unset pointer, and its words are whatever it
   * points at: buffer is an unconstrained argument.
   */
  method LayoutReadAsWritten(layout: RawLayout, response: seq<int>, buffer: int -> int) returns (r: RawLayout)
    requires |response| <= Usb.BUF_SIZE
    ensures r.nlayers == ReadCount(response)
    ensures r.cells == Copied(layout.cells, buffer, if r.nlayers > 0 then r.nlayers * NUMKEYS else 0)
  {
    var nlayers := ReadCount(response);
    var m := layout.cells;
    var layer := 0;
    while layer < nlayers
      invariant 0 <= layer && (nlayers > 0 ==> layer <= nlayers) && (nlayers <= 0 ==> layer == 0)
      invariant m == Copied(layout.cells, buffer, layer * NUMKEYS)
    {
      for row := 0 to NUMROWS
        invariant m == Copied(layout.cells, buffer, layer * NUMKEYS + row * NUMCOLS)
      {
        for col := 0 to NUMCOLS
          invariant m == Copied(layout.cells, buffer, layer * NUMKEYS + row * NUMCOLS + col)
        {
          var n := FlatIndex(layer, row, col);
          m := m[n := buffer(n)];
        }
        assert layer * NUMKEYS + row * NUMCOLS + NUMCOLS == layer * NUMKEYS + (row + 1) * NUMCOLS;
      }
      assert layer * NUMKEYS + NUMROWS * NUMCOLS == (layer + 1) * NUMKEYS;
      layer := layer + 1;
    }
    r := RawLayout(nlayers, m);
  }

  /**
   * A count byte of 7 is rejected by bl_usb_read_layout, yet as written
   * the layout takes 7 layers, which no valid layout has, and the copy
   * writes a seventh layer at offsets 960 and up, past the six-layer
   * matrix. A count byte of 0 leaves a layout of no layers. The checked
   * read leaves the layout unchanged in both cases.
   */
  lemma ReadFailureAsWritten(seven: seq<int>, zero: seq<int>, raw: RawLayout, buffer: int -> int, layout: Layout, layout': Layout)
    requires seven == [7] && zero == [0] && IsMatrix(layout.matrix)
    ensures var n := ReadCount(seven);
            var cells := Copied(raw.cells, buffer, n * NUMKEYS);
            !(1 <= n <= NUMLAYERS_MAX) && n == NUMLAYERS_MAX + 1 && !Valid(Layout(n, layout.matrix))
            && (forall r, c :: 0 <= r < NUMROWS && 0 <= c < NUMCOLS ==>
                  FlatIndex(NUMLAYERS_MAX, r, c) >= NUMLAYERS_MAX * NUMKEYS
                  && FlatIndex(NUMLAYERS_MAX, r, c) in cells && cells[FlatIndex(NUMLAYERS_MAX, r, c)] == buffer(FlatIndex(NUMLAYERS_MAX, r, c)))
    ensures !(1 <= ReadCount(zero) <= NUMLAYERS_MAX) && ReadCount(zero) == 0 && Copied(raw.cells, buffer, 0) == raw.cells
    ensures ReadInto(layout, seven, layout') ==> layout' == layout
    ensures ReadInto(layout, zero, layout') ==> layout' == layout
  {
    assert Usb.Padded(seven)[0] == 7;
    assert Usb.Padded(zero)[0] == 0;
    CopiedCells(raw.cells, buffer, 7 * NUMKEYS);
  }

  // ---------------------------------------------------------------------
  // strtol(s, NULL, 10) and the narrowing to int
  // ---------------------------------------------------------------------

  const LONG_MAX: int := 0x7fff_ffff_ffff_ffff
  const LONG_MIN: int := -LONG_MAX - 1

  /** isspace in the C locale. */
  predicate IsSpace(ch: char)
  {
    ch == ' ' || ch == '\t' || ch == '\n' || ch == '\r' || ch == 11 as char || ch == 12 as char
  }

  function SkipSpaces(s: string, i: nat): (j: nat)
    requires i <= |s|
    ensures i <= j <= |s| && (forall k :: i <= k < j ==> IsSpace(s[k])) && (j == |s| || !IsSpace(s[j]))
    decreases |s| - i
  {
    if i < |s| && IsSpace(s[i]) then SkipSpaces(s, i + 1) else i
  }

  function DigitsEnd(s: string, i: nat): (j: nat)
    requires i <= |s|
    ensures i <= j <= |s| && AllDigits(s[i..j]) && (j == |s| || !IsDigit(s[j]))
    decreases |s| - i
  {
    if i < |s| && IsDigit(s[i]) then DigitsEnd(s, i + 1) else i
  }

  /** The number the leading "spaces, optional sign, digits" of s denote; 0 when there are no digits. */
  function LeadingNumber(s: string): int
  {
    var i := SkipSpaces(s, 0);
    var negative := i < |s| && s[i] == '-';
    var j := if i < |s| && (s[i] == '-' || s[i] == '+') then i + 1 else i;
    var e := DigitsEnd(s, j);
    if e == j then 0
    else if negative then -(DecValue(s[j..e]) as int) else DecValue(s[j..e])
  }

  /** strtol's ERANGE case. */
  predicate Overflows(s: string)
  {
    !(LONG_MIN <= LeadingNumber(s) <= LONG_MAX)
  }

  /** strtol with base 10: the leading number, clamped to the range of a 64-bit long. */
  function StrToL(s: string): (v: int)
    ensures LONG_MIN <= v <= LONG_MAX
    ensures !Overflows(s) ==> v == LeadingNumber(s)
  {
    var x := LeadingNumber(s);
    if x > LONG_MAX then LONG_MAX else if x < LONG_MIN then LONG_MIN else x
  }

  /** Assignment of a long to an int: the value modulo 2^32, in the signed range. */
  function ToInt(x: int): (v: int)
    ensures -0x8000_0000 <= v < 0x8000_0000
    ensures -0x8000_0000 <= x < 0x8000_0000 ==> v == x
    ensures (x - v) % 0x1_0000_0000 == 0
  {
    (x + 0x8000_0000) % 0x1_0000_0000 - 0x8000_0000
  }

  /** strtol reads back what printf's "%u" wrote. */
  lemma StrToLOfDecimal(n: nat)
    requires n <= LONG_MAX
    ensures StrToL(NatToDec(n)) == n && !Overflows(NatToDec(n))
  {
    var s := NatToDec(n);
    DecValueOfNatToDec(n);
    assert !IsSpace(s[0]) && s[0] != '-' && s[0] != '+';
    assert SkipSpaces(s, 0) == 0;
    DigitsToEnd(s, 0);
    assert s[0..|s|] == s;
  }

  lemma StrToLOfNegative(n: nat)
    requires n <= LONG_MAX
    ensures StrToL("-" + NatToDec(n)) == -(n as int) && !Overflows("-" + NatToDec(n))
  {
    var s := NatToDec(n);
    DecValueOfNatToDec(n);
    var t := "-" + s;
    assert SkipSpaces(t, 0) == 0;
    DigitsToEnd(t, 1);
    assert t[1..|t|] == s;
  }

  /** The prompt's value for a decimal answer, which leaves errno alone. */
  lemma PromptOfDecimal(n: nat, einval: bool)
    requires n <= LONG_MAX
    ensures PromptValue(Some(NatToDec(n))) == ToInt(n)
    ensures ErrnoAfter(einval, Some(NatToDec(n))) == einval
  {
    StrToLOfDecimal(n);
  }

  lemma {:induction false} DigitsToEnd(s: string, i: nat)
    requires i <= |s| && forall k :: i <= k < |s| ==> IsDigit(s[k])
    ensures DigitsEnd(s, i) == |s|
    decreases |s| - i
  {
    if i < |s| {
      DigitsToEnd(s, i + 1);
    }
  }

  // ---------------------------------------------------------------------
  // bl_layout_manage_layers (src/bl_ui_layout.c:352-390, src/configure_layout.c:335-364)
  // ---------------------------------------------------------------------

  /** The current editor (bl_ui_layout.c) and its older copy (configure_layout.c). */
  datatype Variant = Current | Older

  /**
   * One round of the prompt: the text box's answer (None for NULL,
   * the Cancel button) and the keys the deletion confirmation would read.
   */
  datatype Round = Round(answer: Option<string>, confirmKeys: seq<int>)

  /** The function result (TRUE or FALSE) with the layer count and the active layer afterwards. */
  datatype Managed = Managed(result: int, nlayers: int, layer: int)

  /** The prompt's number: -1 for a cancelled box, otherwise strtol's value narrowed to int. */
  function PromptValue(answer: Option<string>): (v: int)
    ensures answer.None? ==> v == -1
  {
    if answer.None? then -1 else ToInt(StrToL(answer.value))
  }

  /** Whether errno holds EINVAL after strtol read the answer: strtol only ever sets ERANGE. */
  function ErrnoAfter(einval: bool, answer: Option<string>): bool
  {
    einval && !(answer.Some? && Overflows(answer.value))
  }

  /** Whether the confirmation dialog answered Yes; None while it waits for keys. */
  function Confirmed(keys: seq<int>): Option<bool>
  {
    var r := Tui.ConfirmResult(true, keys);
    if r.None? then None else Some(r.value.0 == Tui.TRUE)
  }

  /** What one call of bl_layout_manage_layers does: settle the prompt, or retry with errno as it now is. */
  datatype Step = Retry(einval: bool) | Settled(outcome: Option<Managed>)

  /** One call, einval being whether errno holds EINVAL on entry; Settled(None) while the confirmation waits for keys. */
  function RoundStep(v: Variant, nlayers: int, layer: int, round: Round, einval: bool): Step
  {
    var value := PromptValue(round.answer);
    var e := ErrnoAfter(einval, round.answer);
    if value == -1 then Settled(Some(Managed(Tui.FALSE, nlayers, layer)))
    else if e then Retry(e)
    else if value < 1 || value > NUMLAYERS_MAX then Retry(e)
    else if value < nlayers then
      match Confirmed(round.confirmKeys)
      case None => Settled(None)
      case Some(yes) =>
        if !yes then Settled(Some(Managed(Tui.TRUE, nlayers, layer)))
        else if v == Current && layer + 1 > value then Settled(Some(Managed(Tui.TRUE, value, value - 1)))
        else Settled(Some(Managed(Tui.TRUE, value, layer)))
    else Settled(Some(Managed(Tui.TRUE, value, layer)))
  }

  /** What one call settles on: the result, the count (applied only from the answer, and only with confirmation when it shrinks) and the layer. */
  lemma RoundStepFacts(v: Variant, nlayers: int, layer: int, round: Round, einval: bool)
    ensures var s := RoundStep(v, nlayers, layer, round, einval);
      (s.Retry? ==> s.einval == ErrnoAfter(einval, round.answer))
      && (s.Settled? && s.outcome.Some? ==>
            var m := s.outcome.value;
            (m.result == Tui.TRUE || m.result == Tui.FALSE)
            && (m.result == Tui.FALSE ==> m.nlayers == nlayers && m.layer == layer)
            && (m.nlayers != nlayers ==> 1 <= m.nlayers <= NUMLAYERS_MAX && m.nlayers == PromptValue(round.answer))
            && (m.nlayers < nlayers ==> Confirmed(round.confirmKeys) == Some(true))
            && (v == Older ==> m.layer == layer)
            && (v == Current && 0 <= layer && m.nlayers < nlayers ==> 0 <= m.layer < m.nlayers && m.layer <= layer)
            && (v == Current && m.nlayers >= nlayers ==> m.layer == layer))
  {
  }

  /**
   * The prompt from round i on. The retries of the source are tail calls,
   * one per round; None means the rounds ran out before the prompt was
   * settled.
   */
  function ManageFrom(v: Variant, nlayers: int, layer: int, rounds: seq<Round>, i: nat, einval: bool): (r: Option<Managed>)
    requires i <= |rounds|
    ensures r.Some? ==> r.value.result == Tui.TRUE || r.value.result == Tui.FALSE
    ensures r.Some? && r.value.result == Tui.FALSE ==> r.value.nlayers == nlayers && r.value.layer == layer
    ensures r.Some? && r.value.nlayers != nlayers ==> 1 <= r.value.nlayers <= NUMLAYERS_MAX
    ensures r.Some? && v == Older ==> r.value.layer == layer
    ensures r.Some? && v == Current && 0 <= layer && r.value.nlayers < nlayers ==>
              0 <= r.value.layer < r.value.nlayers && r.value.layer <= layer
    ensures r.Some? && v == Current && r.value.nlayers >= nlayers ==> r.value.layer == layer
    decreases |rounds| - i
  {
    if i == |rounds| then None
    else
      RoundStepFacts(v, nlayers, layer, rounds[i], einval);
      match RoundStep(v, nlayers, layer, rounds[i], einval)
      case Retry(e) => ManageFrom(v, nlayers, layer, rounds, i + 1, e)
      case Settled(r) => r
  }

  /**
   * The whole prompt. The current editor clears errno first (a workaround
   * for a stale EINVAL); the older one keeps whatever errno held.
   */
  function ManageOutcome(v: Variant, nlayers: int, layer: int, rounds: seq<Round>, errnoEinval: bool): Option<Managed>
  {
    ManageFrom(v, nlayers, layer, rounds, 0, v == Older && errnoEinval)
  }

  /** The body of bl_layout_manage_layers for one answer, the recursive retry left to the caller. */
  method PromptRound(v: Variant, nlayers: int, layer: int, round: Round, einval: bool) returns (s: Step)
    ensures s == RoundStep(v, nlayers, layer, round, einval)
  {
    var value := PromptValue(round.answer);
    var e := ErrnoAfter(einval, round.answer);
    if value == -1 {
      return Settled(Some(Managed(Tui.FALSE, nlayers, layer)));
    }
    if e || value < 1 || value > NUMLAYERS_MAX {
      return Retry(e);
    }
    if value < nlayers {
      var yes := Tui.ConfirmOrMsg(true, round.confirmKeys);
      if yes.None? {
        return Settled(None);
      }
      if yes.value.0 != Tui.TRUE {
        return Settled(Some(Managed(Tui.TRUE, nlayers, layer)));
      }
      var layer' := layer;
      if v == Current && layer + 1 > value {
        layer' := value - 1;
      }
      return Settled(Some(Managed(Tui.TRUE, value, layer')));
    }
    return Settled(Some(Managed(Tui.TRUE, value, layer)));
  }

  /** bl_layout_manage_layers, its retries as a loop. */
  method ManageLayers(v: Variant, nlayers: int, layer: int, rounds: seq<Round>, errnoEinval: bool) returns (r: Option<Managed>)
    ensures r == ManageOutcome(v, nlayers, layer, rounds, errnoEinval)
  {
    var einval := v == Older && errnoEinval;
    var i := 0;
    while i < |rounds|
      invariant 0 <= i <= |rounds|
      invariant ManageFrom(v, nlayers, layer, rounds, i, einval) == ManageOutcome(v, nlayers, layer, rounds, errnoEinval)
    {
      var s := PromptRound(v, nlayers, layer, rounds[i], einval);
      if s.Settled? {
        return s.outcome;
      }
      einval := s.einval;
      i := i + 1;
    }
    return None;
  }

  /** A cancelled box ends the prompt with FALSE and changes nothing. */
  lemma CancelChangesNothing(v: Variant, nlayers: int, layer: int, rounds: seq<Round>, i: nat, einval: bool)
    requires i < |rounds| && rounds[i].answer.None?
    ensures ManageFrom(v, nlayers, layer, rounds, i, einval) == Some(Managed(Tui.FALSE, nlayers, layer))
  {
  }

  /**
   * Typing "-1" is taken for Cancel, and so is any number that narrows to
   * -1 as an int, 4294967295 for one.
   */
  lemma MinusOneIsCancel(v: Variant, nlayers: int, layer: int, rounds: seq<Round>, i: nat, einval: bool, n: nat)
    requires i < |rounds| && n <= LONG_MAX && n % 0x1_0000_0000 == 0xffff_ffff
    requires rounds[i].answer == Some("-" + NatToDec(1)) || rounds[i].answer == Some(NatToDec(n))
    ensures ManageFrom(v, nlayers, layer, rounds, i, einval) == Some(Managed(Tui.FALSE, nlayers, layer))
  {
    if rounds[i].answer == Some("-" + NatToDec(1)) {
      StrToLOfNegative(1);
    } else {
      PromptOfDecimal(n, einval);
      NarrowsToMinusOne(n);
    }
    assert PromptValue(rounds[i].answer) == -1;
    assert RoundStep(v, nlayers, layer, rounds[i], einval) == Settled(Some(Managed(Tui.FALSE, nlayers, layer)));
  }

  /** A long that is -1 modulo 2^32 narrows to the int -1. */
  lemma NarrowsToMinusOne(n: nat)
    requires n % 0x1_0000_0000 == 0xffff_ffff
    ensures ToInt(n) == -1
  {
    var q := n / 0x1_0000_0000;
    assert n == q * 0x1_0000_0000 + 0xffff_ffff;
    assert n + 0x8000_0000 == (q + 1) * 0x1_0000_0000 + 0x7fff_ffff;
  }

  /** A number outside 1..6 (and not -1) re-prompts with the next round. */
  lemma OutOfRangeReprompts(v: Variant, nlayers: int, layer: int, rounds: seq<Round>, i: nat, einval: bool)
    requires i < |rounds| && rounds[i].answer.Some?
    requires PromptValue(rounds[i].answer) != -1
    requires PromptValue(rounds[i].answer) < 1 || PromptValue(rounds[i].answer) > NUMLAYERS_MAX
    ensures ManageFrom(v, nlayers, layer, rounds, i, einval)
         == ManageFrom(v, nlayers, layer, rounds, i + 1, ErrnoAfter(einval, rounds[i].answer))
  {
  }

  /** A count of at least the current one is applied at once, without confirmation. */
  lemma GrowingApplied(v: Variant, nlayers: int, layer: int, rounds: seq<Round>, i: nat, n: nat)
    requires i < |rounds| && 1 <= n <= NUMLAYERS_MAX && nlayers <= n
    requires rounds[i].answer == Some(NatToDec(n))
    ensures ManageFrom(v, nlayers, layer, rounds, i, false) == Some(Managed(Tui.TRUE, n, layer))
  {
    PromptOfDecimal(n, false);
  }

  /** A smaller count answered No at the confirmation keeps the count and still returns TRUE. */
  lemma ShrinkingDeclined(v: Variant, nlayers: int, layer: int, rounds: seq<Round>, i: nat, n: nat)
    requires i < |rounds| && 1 <= n <= NUMLAYERS_MAX && n < nlayers
    requires rounds[i].answer == Some(NatToDec(n)) && Confirmed(rounds[i].confirmKeys) == Some(false)
    ensures ManageFrom(v, nlayers, layer, rounds, i, false) == Some(Managed(Tui.TRUE, nlayers, layer))
  {
    PromptOfDecimal(n, false);
    assert ToInt(n) == n;
    assert RoundStep(v, nlayers, layer, rounds[i], false) == Settled(Some(Managed(Tui.TRUE, nlayers, layer)));
  }

  /** A smaller count answered Yes is applied, and the current editor pulls the layer inside it. */
  lemma ShrinkingConfirmed(v: Variant, nlayers: int, layer: int, rounds: seq<Round>, i: nat, n: nat)
    requires i < |rounds| && 1 <= n <= NUMLAYERS_MAX && n < nlayers && 0 <= layer
    requires rounds[i].answer == Some(NatToDec(n)) && Confirmed(rounds[i].confirmKeys) == Some(true)
    ensures ManageFrom(v, nlayers, layer, rounds, i, false).Some?
    ensures ManageFrom(v, nlayers, layer, rounds, i, false).value.nlayers == n
    ensures v == Current ==> ManageFrom(v, nlayers, layer, rounds, i, false).value.layer == if layer < n then layer else n - 1
  {
    PromptOfDecimal(n, false);
    assert ToInt(n) == n;
    var layer' := if v == Current && layer + 1 > n then n - 1 else layer;
    assert RoundStep(v, nlayers, layer, rounds[i], false) == Settled(Some(Managed(Tui.TRUE, n, layer')));
  }

  /**
   * The older copy does not move the active layer: deleting layers 3-6
   * while layer 6 is shown leaves the editor on a layer that no longer
   * exists. The current editor moves it to the last remaining layer.
   */
  lemma OlderKeepsDeletedLayer(rounds: seq<Round>)
    requires |rounds| == 1 && rounds[0] == Round(Some(NatToDec(2)), [Tui.NEWLINE])
    ensures ManageOutcome(Older, 6, 5, rounds, false) == Some(Managed(Tui.TRUE, 2, 5))
    ensures ManageOutcome(Current, 6, 5, rounds, false) == Some(Managed(Tui.TRUE, 2, 1))
  {
    PromptOfDecimal(2, false);
    assert Tui.RunButtons([Tui.NEWLINE], 0, 0, 2) == Some((0, 1));
  }

  /**
   * In the older copy a stale EINVAL in errno makes every answer re-prompt
   * until the box is cancelled: no count is ever applied, unless an
   * overflowing answer replaces errno with ERANGE.
   */
  lemma {:induction false} StaleErrnoNeverApplies(nlayers: int, layer: int, rounds: seq<Round>, i: nat)
    requires i <= |rounds|
    requires forall j :: i <= j < |rounds| && rounds[j].answer.Some? ==> !Overflows(rounds[j].answer.value)
    ensures ManageFrom(Older, nlayers, layer, rounds, i, true).Some? ==>
              ManageFrom(Older, nlayers, layer, rounds, i, true) == Some(Managed(Tui.FALSE, nlayers, layer))
    decreases |rounds| - i
  {
    if i < |rounds| && PromptValue(rounds[i].answer) != -1 {
      assert ErrnoAfter(true, rounds[i].answer);
      StaleErrnoNeverApplies(nlayers, layer, rounds, i + 1);
    }
  }
}

/**
 * What the layout loader accepts and rejects, and the round trip between
 * bl_layout_save and bl_layout_load_file.
 */
module LayoutProperties {
  import opened Common
  import opened LayoutCodec

  // ---------------------------------------------------------------------
  // Index arithmetic of the flat order
  // ---------------------------------------------------------------------

  /** Moving to the next flat index moves one column, wraps to the next row, or to the next layer. */
  lemma PosAdvance(k: int)
    requires 0 <= k
    ensures (k % NUMKEYS == NUMKEYS - 1) <==> (ColOf(k) == NUMCOLS - 1 && RowOf(k) == NUMROWS - 1)
    ensures ColOf(k) < NUMCOLS - 1 ==>
              LayerOf(k + 1) == LayerOf(k) && RowOf(k + 1) == RowOf(k) && ColOf(k + 1) == ColOf(k) + 1
    ensures ColOf(k) == NUMCOLS - 1 && RowOf(k) < NUMROWS - 1 ==>
              LayerOf(k + 1) == LayerOf(k) && RowOf(k + 1) == RowOf(k) + 1 && ColOf(k + 1) == 0
    ensures ColOf(k) == NUMCOLS - 1 && RowOf(k) == NUMROWS - 1 ==>
              LayerOf(k + 1) == LayerOf(k) + 1 && RowOf(k + 1) == 0 && ColOf(k + 1) == 0
  {
    IndexPosition(k);
    var l, r, c := LayerOf(k), RowOf(k), ColOf(k);
    FlatIndexInverse(l, r, c);
    if c < NUMCOLS - 1 {
      FlatIndexInverse(l, r, c + 1);
    } else if r < NUMROWS - 1 {
      FlatIndexInverse(l, r + 1, 0);
    } else {
      FlatIndexInverse(l + 1, 0, 0);
    }
  }

  /** Two matrices with the same cells are equal. */
  lemma MatrixExt(a: Matrix, b: Matrix)
    requires IsMatrix(a) && IsMatrix(b)
    requires forall l, r, c :: InGrid(l, r, c) ==> a[l][r][c] == b[l][r][c]
    ensures a == b
  {
    forall l | 0 <= l < NUMLAYERS_MAX
      ensures a[l] == b[l]
    {
      forall r | 0 <= r < NUMROWS
        ensures a[l][r] == b[l][r]
      {
        assert forall c :: 0 <= c < NUMCOLS ==> a[l][r][c] == b[l][r][c];
      }
    }
  }

  // ---------------------------------------------------------------------
  // Scanner behaviour on the pieces of a file
  // ---------------------------------------------------------------------

  /** In the digit state, digits are appended to the buffer one by one while it has room. */
  lemma {:induction false} DigitsAccumulate(text: string, i: nat, j: nat, s: Scan)
    requires i <= j <= |text| && ScanOk(s) && s.mode == Digits
    requires AllDigits(text[i..j]) && |s.buf| + (j - i) <= PARSE_DIGITS_MAX
    ensures ScanOk(s.(buf := s.buf + text[i..j]))
    ensures RunFrom(text, i, s) == RunFrom(text, j, s.(buf := s.buf + text[i..j]))
    decreases j - i
  {
    if i < j {
      assert IsDigit(text[i..j][0]);
      var s1 := s.(buf := s.buf + [text[i]]);
      assert DigitStep(s, text[i]) == Some(s1);
      assert text[i + 1..j] == text[i..j][1..];
      DigitsAccumulate(text, i + 1, j, s1);
      assert s1.buf + text[i + 1..j] == s.buf + text[i..j];
    } else {
      assert s.buf + text[i..j] == s.buf;
    }
  }

  /** A number read from the whitespace state ends up whole in the buffer. */
  lemma ReadNumber(text: string, i: nat, s: Scan, d: string)
    requires ScanOk(s) && s.mode == Whitespace
    requires 1 <= |d| <= PARSE_DIGITS_MAX && AllDigits(d)
    requires i + |d| <= |text| && text[i..i + |d|] == d
    ensures ScanOk(Scan(Digits, d, s.layer, s.row, s.col, s.matrix))
    ensures RunFrom(text, i, s) == RunFrom(text, i + |d|, Scan(Digits, d, s.layer, s.row, s.col, s.matrix))
  {
    assert text[i] == text[i..i + |d|][0] == d[0];
    var s0 := s.(mode := Digits);
    assert RunFrom(text, i, s) == RunFrom(text, i, s0);
    DigitsAccumulate(text, i, i + |d|, s0);
    assert s0.buf + text[i..i + |d|] == d;
  }

  /**
   * A number followed by ',' stores its value, truncated to 16 bits, at
   * matrix[layer][row][col] and advances col, wrapping to column 0 of the
   * next row after the last column (src/layout.c:142-152).
   */
  lemma CommaStoresKey(text: string, i: nat, s: Scan, d: string)
    requires ScanOk(s) && s.mode == Whitespace
    requires 1 <= |d| <= PARSE_DIGITS_MAX && AllDigits(d)
    requires i + |d| < |text| && text[i..i + |d|] == d && text[i + |d|] == ','
    ensures !CanStore(s) ==> RunFrom(text, i, s) == None
    ensures CanStore(s) ==>
      RunFrom(text, i, s) ==
      RunFrom(text, i + |d| + 1,
              Scan(Whitespace, [], s.layer,
                   if s.col == NUMCOLS - 1 then s.row + 1 else s.row,
                   if s.col == NUMCOLS - 1 then 0 else s.col + 1,
                   Put(s.matrix, s.layer, s.row, s.col, ToU16(DecValue(d)))))
  {
    var s1 := Scan(Digits, d, s.layer, s.row, s.col, s.matrix);
    ReadNumber(text, i, s, d);
    assert RunFrom(text, i + |d|, s1) == match DigitStep(s1, ',')
      case None => None
      case Some(s') => RunFrom(text, i + |d| + 1, s');
  }

  /**
   * A number followed by a newline stores its value and closes the layer:
   * the load fails unless the number was the last key of the layer
   * (col == NUMCOLS-1 and row == NUMROWS-1); otherwise layer advances and
   * row and col restart at 0 (src/layout.c:153-169).
   */
  lemma NewlineClosesLayer(text: string, i: nat, s: Scan, d: string)
    requires ScanOk(s) && s.mode == Whitespace
    requires 1 <= |d| <= PARSE_DIGITS_MAX && AllDigits(d)
    requires i + |d| < |text| && text[i..i + |d|] == d && IsNewline(text[i + |d|])
    ensures !(CanStore(s) && s.col == NUMCOLS - 1 && s.row == NUMROWS - 1) ==> RunFrom(text, i, s) == None
    ensures CanStore(s) && s.col == NUMCOLS - 1 && s.row == NUMROWS - 1 ==>
      RunFrom(text, i, s) ==
      RunFrom(text, i + |d| + 1,
              Scan(Whitespace, [], s.layer + 1, 0, 0, Put(s.matrix, s.layer, s.row, s.col, ToU16(DecValue(d)))))
  {
    var s1 := Scan(Digits, d, s.layer, s.row, s.col, s.matrix);
    ReadNumber(text, i, s, d);
    assert RunFrom(text, i + |d|, s1) == match DigitStep(s1, text[i + |d|])
      case None => None
      case Some(s') => RunFrom(text, i + |d| + 1, s');
  }

  /**
   * Digits that run up to the end of the file are still stored; the layer
   * count is the number of newline-terminated layers, and the load fails
   * when row lies strictly between 0 and 19 or col strictly between 0 and 7
   * (src/layout.c:193-203).
   */
  lemma PendingKeyStoredAtEof(text: string, i: nat, s: Scan, d: string)
    requires ScanOk(s) && s.mode == Whitespace
    requires 1 <= |d| <= PARSE_DIGITS_MAX && AllDigits(d)
    requires i + |d| == |text| && text[i..] == d
    ensures !CanStore(s) || (0 < s.row < NUMROWS - 1) || (0 < s.col < NUMCOLS - 1) ==> RunFrom(text, i, s) == None
    ensures CanStore(s) && !(0 < s.row < NUMROWS - 1) && !(0 < s.col < NUMCOLS - 1) ==>
      RunFrom(text, i, s) == Some(Layout(s.layer, Put(s.matrix, s.layer, s.row, s.col, ToU16(DecValue(d)))))
  {
    assert text[i..i + |d|] == d;
    ReadNumber(text, i, s, d);
  }

  /**
   * The end-of-file test only looks at row and col, so a last line without
   * a newline that holds a single value still loads; its layer is not
   * counted, yet the value is stored.
   */
  lemma UnterminatedLineUncounted(text: string, initial: Matrix)
    requires IsMatrix(initial) && text == "5"
    ensures Load(text, initial) == Some(Layout(0, Put(initial, 0, 0, 0, 5)))
  {
    assert text[0..] == "5";
    assert DecValue("5") == 5 by {
      assert "5"[..0] == [];
    }
    PendingKeyStoredAtEof(text, 0, Start(initial), "5");
  }

  /** From a state with an empty buffer, 20 digits in a row overflow parse_buffer. */
  lemma TwentyDigitsOverflow(text: string, j: nat, s: Scan)
    requires ScanOk(s) && s.buf == []
    requires j + PARSE_DIGITS_MAX + 1 <= |text| && AllDigits(text[j..j + PARSE_DIGITS_MAX + 1])
    ensures RunFrom(text, j, s) == None
  {
    assert IsDigit(text[j..j + PARSE_DIGITS_MAX + 1][0]);
    var s0 := s.(mode := Digits);
    assert RunFrom(text, j, s) == RunFrom(text, j, s0);
    assert text[j..j + PARSE_DIGITS_MAX] == text[j..j + PARSE_DIGITS_MAX + 1][..PARSE_DIGITS_MAX];
    DigitsAccumulate(text, j, j + PARSE_DIGITS_MAX, s0);
    assert IsDigit(text[j..j + PARSE_DIGITS_MAX + 1][PARSE_DIGITS_MAX]);
  }

  /** Whatever precedes a run of 20 digits that starts after a non-digit, the load fails there. */
  lemma {:induction false} LongRunFrom(text: string, i: nat, s: Scan, j: nat)
    requires i <= j && ScanOk(s)
    requires j + PARSE_DIGITS_MAX + 1 <= |text| && AllDigits(text[j..j + PARSE_DIGITS_MAX + 1])
    requires j == 0 || !IsDigit(text[j - 1])
    requires i == j ==> s.buf == []
    ensures RunFrom(text, i, s) == None
    decreases |text| - i, if s.mode == Whitespace then 1 else 0
  {
    if i == j {
      TwentyDigitsOverflow(text, j, s);
    } else if s.mode == Digits {
      match DigitStep(s, text[i])
      case None =>
      case Some(s') =>
        LongRunFrom(text, i + 1, s', j);
    } else if IsBlank(text[i]) {
      LongRunFrom(text, i + 1, s, j);
    } else if IsDigit(text[i]) {
      LongRunFrom(text, i, s.(mode := Digits), j);
    }
  }

  /**
   * A number of 20 or more digits anywhere in the file fails the load:
   * parse_buffer holds at most 19 digits (src/layout.c:127, 132-136).
   */
  lemma {:induction false} LongNumberRejected(text: string, j: nat, initial: Matrix)
    requires IsMatrix(initial)
    requires j + PARSE_DIGITS_MAX + 1 <= |text| && AllDigits(text[j..j + PARSE_DIGITS_MAX + 1])
    ensures Load(text, initial) == None
  {
    if j > 0 && IsDigit(text[j - 1]) {
      var run := text[j - 1..j + PARSE_DIGITS_MAX];
      forall t | 0 <= t < |run|
        ensures IsDigit(run[t])
      {
        if t > 0 {
          assert run[t] == text[j..j + PARSE_DIGITS_MAX + 1][t - 1];
        }
      }
      LongNumberRejected(text, j - 1, initial);
    } else {
      LongRunFrom(text, 0, Start(initial), j);
    }
  }

  /** In the whitespace state a character other than a blank or a digit fails the load (src/layout.c:183-187). */
  lemma StrayCharacterRejected(text: string, i: nat, s: Scan)
    requires ScanOk(s) && s.mode == Whitespace && i < |text|
    requires !IsBlank(text[i]) && !IsDigit(text[i])
    ensures RunFrom(text, i, s) == None
  {
  }

  // ---------------------------------------------------------------------
  // Round trip: bl_layout_save then bl_layout_load_file
  // ---------------------------------------------------------------------

  /** Layers below n taken from top, the others from bottom. */
  function Overlay(top: Matrix, bottom: Matrix, n: int): (m: Matrix)
    requires IsMatrix(top) && IsMatrix(bottom)
    ensures IsMatrix(m)
    ensures forall l, r, c :: InGrid(l, r, c) ==> m[l][r][c] == (if l < n then top[l][r][c] else bottom[l][r][c])
  {
    seq(NUMLAYERS_MAX, l requires 0 <= l < NUMLAYERS_MAX => if l < n then top[l] else bottom[l])
  }

  /** The matrix after the loader stored the first k values of top over bottom, in flat order. */
  function FilledUpTo(top: Matrix, bottom: Matrix, k: int): (m: Matrix)
    requires IsMatrix(top) && IsMatrix(bottom) && 0 <= k <= NUMLAYERS_MAX * NUMKEYS
    ensures IsMatrix(m)
    decreases k
  {
    if k == 0 then bottom
    else
      IndexPosition(k - 1);
      Put(FilledUpTo(top, bottom, k - 1), LayerOf(k - 1), RowOf(k - 1), ColOf(k - 1),
          top[LayerOf(k - 1)][RowOf(k - 1)][ColOf(k - 1)])
  }

  /** A cell whose flat index is below k comes from top, any other from bottom. */
  lemma {:induction false} FilledCell(top: Matrix, bottom: Matrix, k: int, l: int, r: int, c: int)
    requires IsMatrix(top) && IsMatrix(bottom) && 0 <= k <= NUMLAYERS_MAX * NUMKEYS && InGrid(l, r, c)
    ensures FilledUpTo(top, bottom, k)[l][r][c] == (if FlatIndex(l, r, c) < k then top[l][r][c] else bottom[l][r][c])
    decreases k
  {
    if k > 0 {
      FilledCellStep(top, bottom, k, l, r, c);
      FilledCell(top, bottom, k - 1, l, r, c);
    }
  }

  /** Storing the value at flat index k - 1 changes only that cell. */
  lemma FilledCellStep(top: Matrix, bottom: Matrix, k: int, l: int, r: int, c: int)
    requires IsMatrix(top) && IsMatrix(bottom) && 0 < k <= NUMLAYERS_MAX * NUMKEYS && InGrid(l, r, c)
    ensures FilledUpTo(top, bottom, k)[l][r][c]
            == (if FlatIndex(l, r, c) == k - 1 then top[l][r][c] else FilledUpTo(top, bottom, k - 1)[l][r][c])
  {
    IndexPosition(k - 1);
    if FlatIndex(l, r, c) == k - 1 {
      FlatIndexInjective(l, r, c, LayerOf(k - 1), RowOf(k - 1), ColOf(k - 1));
    } else {
      assert l != LayerOf(k - 1) || r != RowOf(k - 1) || c != ColOf(k - 1);
    }
  }

  /** The loader's state just before the k-th value of a saved file. */
  function KeyState(top: Matrix, bottom: Matrix, k: int): Scan
    requires IsMatrix(top) && IsMatrix(bottom) && 0 <= k <= NUMLAYERS_MAX * NUMKEYS
  {
    Scan(Whitespace, [], LayerOf(k), RowOf(k), ColOf(k), FilledUpTo(top, bottom, k))
  }

  lemma FilledStep(top: Matrix, bottom: Matrix, k: int)
    requires IsMatrix(top) && IsMatrix(bottom) && 0 <= k < NUMLAYERS_MAX * NUMKEYS
    ensures InGrid(LayerOf(k), RowOf(k), ColOf(k))
    ensures Put(FilledUpTo(top, bottom, k), LayerOf(k), RowOf(k), ColOf(k), top[LayerOf(k)][RowOf(k)][ColOf(k)])
            == FilledUpTo(top, bottom, k + 1)
  {
    IndexPosition(k);
  }

  lemma {:induction false} RawTextIsPrefix(buffer: seq<int>, k: nat, j: nat)
    requires k <= j <= |buffer|
    ensures |RawText(buffer, k)| <= |RawText(buffer, j)|
    ensures RawText(buffer, j)[..|RawText(buffer, k)|] == RawText(buffer, k)
    decreases j - k
  {
    if k < j {
      RawTextIsPrefix(buffer, k, j - 1);
      var a, b := RawText(buffer, k), RawText(buffer, j - 1);
      assert RawText(buffer, j) == b + (NatToDec(ToU16(buffer[j - 1])) + Separator(j - 1));
      assert RawText(buffer, j)[..|a|] == b[..|a|];
    }
  }

  /** Where a text starts with a + d + sep, d and sep sit right after a. */
  lemma PartsOfPrefix(T: string, a: string, d: string, sep: string)
    requires |a + d + sep| <= |T| && T[..|a + d + sep|] == a + d + sep
    ensures T[|a|..|a| + |d|] == d
    ensures forall i :: 0 <= i < |sep| ==> T[|a| + |d| + i] == sep[i]
  {
    var q := |a + d + sep|;
    assert T[|a|..|a| + |d|] == T[..q][|a|..|a| + |d|];
    forall i | 0 <= i < |sep|
      ensures T[|a| + |d| + i] == sep[i]
    {
      assert T[|a| + |d| + i] == T[..q][|a| + |d| + i];
    }
  }

  /** T holds the number text d at p, followed by "\n" when last and by ", " otherwise. */
  predicate TokenAt(T: string, p: nat, d: string, last: bool)
  {
    p + |d| + (if last then 1 else 2) <= |T| && T[p..p + |d|] == d
    && (if last then T[p + |d|] == '\n' else T[p + |d|] == ',' && T[p + |d| + 1] == ' ')
  }

  lemma SeparatedToken(T: string, a: string, d: string, k: int)
    requires |a + d + Separator(k)| <= |T| && T[..|a + d + Separator(k)|] == a + d + Separator(k)
    ensures TokenAt(T, |a|, d, k % NUMKEYS == NUMKEYS - 1)
  {
    PartsOfPrefix(T, a, d, Separator(k));
    if k % NUMKEYS == NUMKEYS - 1 {
      assert T[|a| + |d| + 0] == '\n';
    } else {
      assert T[|a| + |d| + 0] == ',';
      assert T[|a| + |d| + 1] == ' ';
    }
  }

  /** The k-th value of a saved file sits right after the text of the first k values, followed by its separator. */
  lemma SavedToken(F: seq<int>, k: nat, N: nat)
    requires k < N <= |F| && forall i :: 0 <= i < N ==> IsU16(F[i])
    ensures IsU16(F[k])
    ensures TokenAt(RawText(F, N), |RawText(F, k)|, NatToDec(F[k]), k % NUMKEYS == NUMKEYS - 1)
    ensures |RawText(F, k + 1)| == |RawText(F, k)| + |NatToDec(F[k])| + (if k % NUMKEYS == NUMKEYS - 1 then 1 else 2)
  {
    RawTextIsPrefix(F, k + 1, N);
    assert ToU16(F[k]) == F[k];
    assert RawText(F, k + 1) == RawText(F, k) + NatToDec(F[k]) + Separator(k);
    SeparatedToken(RawText(F, N), RawText(F, k), NatToDec(F[k]), k);
  }

  /** The k-th saved value, printed and parsed back, is the cell it came from. */
  lemma SavedValue(layout: Layout, k: int)
    requires Valid(layout) && 0 <= k < layout.nlayers * NUMKEYS
    ensures InGrid(LayerOf(k), RowOf(k), ColOf(k))
    ensures 1 <= |NatToDec(Flatten(layout)[k])| <= PARSE_DIGITS_MAX
    ensures ToU16(DecValue(NatToDec(Flatten(layout)[k]))) == layout.matrix[LayerOf(k)][RowOf(k)][ColOf(k)]
  {
    IndexPosition(k);
    FlatIndexInverse(LayerOf(k), RowOf(k), ColOf(k));
    var v := Flatten(layout)[k];
    NatToDecU16(v);
    DecValueOfNatToDec(v);
  }

  /** The key state after one value d and its separator, "\n" when last and ", " otherwise. */
  function AfterToken(s: Scan, d: string, last: bool): (s': Scan)
    requires ScanOk(s) && CanStore(s) && AllDigits(d)
    ensures ScanOk(s') && s'.mode == Whitespace
  {
    Scan(Whitespace, [],
         if last then s.layer + 1 else s.layer,
         if last then 0 else if s.col == NUMCOLS - 1 then s.row + 1 else s.row,
         if last || s.col == NUMCOLS - 1 then 0 else s.col + 1,
         Put(s.matrix, s.layer, s.row, s.col, ToU16(DecValue(d))))
  }

  /** The loader reads one value and its separator from the key state s. */
  lemma StepOverToken(T: string, p: nat, s: Scan, d: string, last: bool, q: nat, t: Scan)
    requires ScanOk(s) && s.mode == Whitespace && CanStore(s)
    requires 1 <= |d| <= PARSE_DIGITS_MAX && AllDigits(d) && TokenAt(T, p, d, last)
    requires last <==> (s.col == NUMCOLS - 1 && s.row == NUMROWS - 1)
    requires q == p + |d| + (if last then 1 else 2) && t == AfterToken(s, d, last)
    ensures RunFrom(T, p, s) == RunFrom(T, q, t)
  {
    if last {
      StepOverLast(T, p, s, d, q, t);
    } else {
      StepOverComma(T, p, s, d, q, t);
    }
  }

  lemma StepOverLast(T: string, p: nat, s: Scan, d: string, q: nat, t: Scan)
    requires ScanOk(s) && s.mode == Whitespace && CanStore(s)
    requires 1 <= |d| <= PARSE_DIGITS_MAX && AllDigits(d) && TokenAt(T, p, d, true)
    requires s.col == NUMCOLS - 1 && s.row == NUMROWS - 1
    requires q == p + |d| + 1 && t == AfterToken(s, d, true)
    ensures RunFrom(T, p, s) == RunFrom(T, q, t)
  {
    SamePosition(T, p + |d| + 1, q, t);
    NewlineClosesLayer(T, p, s, d);
  }

  lemma StepOverComma(T: string, p: nat, s: Scan, d: string, q: nat, t: Scan)
    requires ScanOk(s) && s.mode == Whitespace && CanStore(s)
    requires 1 <= |d| <= PARSE_DIGITS_MAX && AllDigits(d) && TokenAt(T, p, d, false)
    requires q == p + |d| + 2 && t == AfterToken(s, d, false)
    ensures RunFrom(T, p, s) == RunFrom(T, q, t)
  {
    SkipBlank(T, p + |d| + 1, q, t);
    CommaStoresKey(T, p, s, d);
  }

  lemma SamePosition(text: string, i: nat, j: nat, s: Scan)
    requires i <= |text| && ScanOk(s) && i == j
    ensures RunFrom(text, i, s) == RunFrom(text, j, s)
  {
  }

  /** In the whitespace state a blank is skipped. */
  lemma SkipBlank(text: string, i: nat, j: nat, s: Scan)
    requires i < |text| && ScanOk(s) && s.mode == Whitespace && IsBlank(text[i]) && j == i + 1
    ensures RunFrom(text, i, s) == RunFrom(text, j, s)
  {
  }

  /** The k-th value of a saved file, with its separator, sits at SavedPos(k) and ends at SavedPos(k + 1). */
  lemma NextToken(layout: Layout, k: int)
    requires Valid(layout) && 0 <= k < layout.nlayers * NUMKEYS
    ensures IsU16(Flatten(layout)[k])
    ensures var d := NatToDec(Flatten(layout)[k]);
      var last := k % NUMKEYS == NUMKEYS - 1;
      1 <= |d| <= PARSE_DIGITS_MAX && AllDigits(d)
      && TokenAt(SaveText(layout), SavedPos(layout, k), d, last)
      && SavedPos(layout, k + 1) == SavedPos(layout, k) + |d| + (if last then 1 else 2)
  {
    var F := Flatten(layout);
    SavedToken(F, k, layout.nlayers * NUMKEYS);
    NatToDecU16(F[k]);
  }

  /** Reading the k-th value and its separator from key state k yields key state k + 1. */
  lemma NextKeyState(layout: Layout, initial: Matrix, k: int)
    requires Valid(layout) && IsMatrix(initial) && 0 <= k < layout.nlayers * NUMKEYS
    ensures var s := KeyState(layout.matrix, initial, k);
      var d := NatToDec(Flatten(layout)[k]);
      var last := k % NUMKEYS == NUMKEYS - 1;
      ScanOk(s) && s.mode == Whitespace && CanStore(s) && AllDigits(d)
      && (last <==> (s.col == NUMCOLS - 1 && s.row == NUMROWS - 1))
      && AfterToken(s, d, last) == KeyState(layout.matrix, initial, k + 1)
  {
    KeyStateOk(layout.matrix, initial, k);
    SavedValue(layout, k);
    FilledStep(layout.matrix, initial, k);
    PosAdvance(k);
  }

  /** Where the k-th value of the saved file starts. */
  function SavedPos(layout: Layout, k: int): (p: nat)
    requires Valid(layout) && 0 <= k <= layout.nlayers * NUMKEYS
    ensures p <= |SaveText(layout)|
  {
    RawTextIsPrefix(Flatten(layout), k, layout.nlayers * NUMKEYS);
    |RawText(Flatten(layout), k)|
  }

  /** The loader resumed at the k-th value of the saved file, in key state k. */
  function Resume(layout: Layout, initial: Matrix, k: int): Option<Layout>
    requires Valid(layout) && IsMatrix(initial) && 0 <= k <= layout.nlayers * NUMKEYS
  {
    KeyStateOk(layout.matrix, initial, k);
    RunFrom(SaveText(layout), SavedPos(layout, k), KeyState(layout.matrix, initial, k))
  }

  lemma KeyStateOk(top: Matrix, bottom: Matrix, k: int)
    requires IsMatrix(top) && IsMatrix(bottom) && 0 <= k <= NUMLAYERS_MAX * NUMKEYS
    ensures ScanOk(KeyState(top, bottom, k))
  {
    IndexPosition(k);
    assert LayerOf(k) == k / NUMKEYS;
  }

  /** Reading one saved value and its separator takes the loader from key state k to key state k+1. */
  lemma TokenStep(layout: Layout, initial: Matrix, k: int)
    requires Valid(layout) && IsMatrix(initial) && 0 <= k < layout.nlayers * NUMKEYS
    ensures Resume(layout, initial, k) == Resume(layout, initial, k + 1)
  {
    NextToken(layout, k);
    NextKeyState(layout, initial, k);
    var F := Flatten(layout);
    StepOverToken(SaveText(layout), SavedPos(layout, k), KeyState(layout.matrix, initial, k), NatToDec(F[k]), k % NUMKEYS == NUMKEYS - 1,
                  SavedPos(layout, k + 1), KeyState(layout.matrix, initial, k + 1));
  }

  /** Resuming at any value of the saved file gives the outcome of resuming at its end. */
  lemma ResumeChain(layout: Layout, initial: Matrix, n: int)
    requires Valid(layout) && IsMatrix(initial) && n == layout.nlayers * NUMKEYS
    ensures Resume(layout, initial, 0) == Resume(layout, initial, n)
  {
    forall j | 0 <= j < n
      ensures Resume(layout, initial, j) == Resume(layout, initial, j + 1)
    {
      TokenStep(layout, initial, j);
    }
    ChainBy(j => if 0 <= j <= n then Resume(layout, initial, j) else None, 0, n);
  }



  lemma FilledLayers(top: Matrix, bottom: Matrix, n: int)
    requires IsMatrix(top) && IsMatrix(bottom) && 0 <= n <= NUMLAYERS_MAX
    ensures FilledUpTo(top, bottom, n * NUMKEYS) == Overlay(top, bottom, n)
  {
    forall l, r, c | InGrid(l, r, c)
      ensures FilledUpTo(top, bottom, n * NUMKEYS)[l][r][c] == Overlay(top, bottom, n)[l][r][c]
    {
      FilledCell(top, bottom, n * NUMKEYS, l, r, c);
      FlatIndexInverse(l, r, c);
    }
    MatrixExt(FilledUpTo(top, bottom, n * NUMKEYS), Overlay(top, bottom, n));
  }

  /**
   * The text bl_layout_save writes parses back to the same number of layers
   * and the same cells in every saved layer; the layers above the count keep
   * what the loader's allocation held (src/layout.c:259-270,
   * src/usb.c:264-278, src/layout.c:142-169).
   */
  lemma LoadSaveRoundTrip(layout: Layout, initial: Matrix)
    requires Valid(layout) && IsMatrix(initial)
    ensures Load(SaveText(layout), initial) == Some(Layout(layout.nlayers, Overlay(layout.matrix, initial, layout.nlayers)))
  {
    var T := SaveText(layout);
    ResumeChain(layout, initial, layout.nlayers * NUMKEYS);
    assert KeyState(layout.matrix, initial, 0) == Start(initial);
    assert SavedPos(layout, 0) == 0;
    assert SavedPos(layout, layout.nlayers * NUMKEYS) == |T|;
    EndIsFinished(T, layout.matrix, initial, layout.nlayers);
  }

  /** At the end of a file of n whole layers, the loader returns n layers. */
  lemma EndIsFinished(T: string, top: Matrix, initial: Matrix, n: int)
    requires IsMatrix(top) && IsMatrix(initial) && 0 <= n <= NUMLAYERS_MAX
    ensures ScanOk(KeyState(top, initial, n * NUMKEYS))
    ensures RunFrom(T, |T|, KeyState(top, initial, n * NUMKEYS)) == Some(Layout(n, Overlay(top, initial, n)))
  {
    FilledLayers(top, initial, n);
    FlatIndexInverse(n, 0, 0);
  }

  /** The round trip in the terms of the layout record: same count, same cells below it. */
  lemma SavedLayoutReloads(layout: Layout, initial: Matrix)
    requires Valid(layout) && IsMatrix(initial)
    ensures Load(SaveText(layout), initial).Some?
    ensures Load(SaveText(layout), initial).value.nlayers == layout.nlayers
    ensures forall l, r, c :: InGrid(l, r, c) && l < layout.nlayers ==>
              Load(SaveText(layout), initial).value.matrix[l][r][c] == layout.matrix[l][r][c]
  {
    LoadSaveRoundTrip(layout, initial);
  }

  // ---------------------------------------------------------------------
  // Overlong lines: the loader as written and as corrected
  // ---------------------------------------------------------------------

  /** The indices layer, row and col of the C loader. */
  datatype Cursor = Cursor(layer: int, row: int, col: int)

  /** The cursor after n values each followed by ',', as written: row is never checked against NUMROWS. */
  function CommasAsWritten(c: Cursor, n: nat): Cursor
  {
    if n == 0 then c
    else
      var p := CommasAsWritten(c, n - 1);
      if p.col == NUMCOLS - 1 then Cursor(p.layer, p.row + 1, 0) else Cursor(p.layer, p.row, p.col + 1)
  }

  /** The newline test as written: it only rejects a row or column that is short. */
  predicate NewlineAcceptedAsWritten(c: Cursor)
  {
    !(c.col < NUMCOLS - 1) && !(c.row < NUMROWS - 1)
  }

  /** The cell offset that the store matrix[layer][row][col] addresses in the 960-cell matrix. */
  function StoreOffsetAsWritten(c: Cursor): int
  {
    c.layer * NUMROWS * NUMCOLS + c.row * NUMCOLS + c.col
  }

  /** After n commas from the start of a layer, the cursor sits at row n / 8, column n % 8. */
  lemma {:induction false} CommasClosedForm(l: int, n: nat)
    ensures CommasAsWritten(Cursor(l, 0, 0), n) == Cursor(l, n / NUMCOLS, n % NUMCOLS)
  {
    if n > 0 {
      CommasClosedForm(l, n - 1);
    }
  }

  /**
   * As written, a line of 168 values is accepted: the 161st to 168th values
   * are stored at row 20, which is row 0 of the next layer, or past the end
   * of the matrix on the sixth line; a seventh full line stores at layer 6,
   * also past the end.
   */
  lemma OverlongLineAcceptedAsWritten(l: int)
    requires 0 <= l < NUMLAYERS_MAX
    ensures CommasAsWritten(Cursor(l, 0, 0), 167) == Cursor(l, NUMROWS, NUMCOLS - 1)
    ensures NewlineAcceptedAsWritten(CommasAsWritten(Cursor(l, 0, 0), 167))
    ensures forall j :: NUMKEYS <= j < NUMKEYS + NUMCOLS ==>
              StoreOffsetAsWritten(CommasAsWritten(Cursor(l, 0, 0), j)) == (l + 1) * NUMKEYS + (j - NUMKEYS)
    ensures l == NUMLAYERS_MAX - 1 ==>
              StoreOffsetAsWritten(CommasAsWritten(Cursor(l, 0, 0), NUMKEYS)) >= NUMLAYERS_MAX * NUMKEYS
    ensures StoreOffsetAsWritten(Cursor(NUMLAYERS_MAX, 0, 0)) >= NUMLAYERS_MAX * NUMKEYS
  {
    CommasClosedForm(l, 167);
    forall j | NUMKEYS <= j < NUMKEYS + NUMCOLS
      ensures StoreOffsetAsWritten(CommasAsWritten(Cursor(l, 0, 0), j)) == (l + 1) * NUMKEYS + (j - NUMKEYS)
    {
      CommasClosedForm(l, j);
    }
    CommasClosedForm(l, NUMKEYS);
  }

  /**
   * The loop state of the loader as written. The matrix is the contiguous
   * uint16_t[6][20][8] of the layout struct, so matrix[layer][row][col] is
   * the word at StoreOffsetAsWritten of the cursor, which nothing bounds:
   * memory is a map from word offsets to values.
   */
  datatype RawScan = RawScan(mode: Mode, buf: string, at: Cursor, cells: map<int, int>)

  predicate RawScanOk(s: RawScan)
  {
    AllDigits(s.buf) && |s.buf| <= PARSE_DIGITS_MAX && 0 <= s.at.col < NUMCOLS
    && (s.mode == Whitespace ==> s.buf == [])
  }

  /** The cursor after one ',', as written (src/layout.c:146-151). */
  function NextAsWritten(c: Cursor): (c': Cursor)
    ensures c'.layer == c.layer && (c'.row == c.row || c'.row == c.row + 1)
    ensures 0 <= c.col < NUMCOLS ==> 0 <= c'.col < NUMCOLS
  {
    if c.col == NUMCOLS - 1 then Cursor(c.layer, c.row + 1, 0) else Cursor(c.layer, c.row, c.col + 1)
  }

  /**
   * One character in the digit state as written (src/layout.c:131-175):
   * the value is stored at the cursor with no check of row or layer.
   */
  function DigitStepAsWritten(s: RawScan, ch: char): (r: Option<RawScan>)
    requires RawScanOk(s) && s.mode == Digits
    ensures r.Some? ==> RawScanOk(r.value) && (r.value.mode == Whitespace ==> r.value.cells.Keys == s.cells.Keys + {StoreOffsetAsWritten(s.at)})
  {
    if IsDigit(ch) then
      if |s.buf| >= PARSE_DIGITS_MAX then None else Some(s.(buf := s.buf + [ch]))
    else if ch == ',' then
      Some(RawScan(Whitespace, [], NextAsWritten(s.at), s.cells[StoreOffsetAsWritten(s.at) := KeyValue(s.buf)]))
    else if IsNewline(ch) then
      if !NewlineAcceptedAsWritten(s.at) then None
      else Some(RawScan(Whitespace, [], Cursor(s.at.layer + 1, 0, 0), s.cells[StoreOffsetAsWritten(s.at) := KeyValue(s.buf)]))
    else None
  }

  /** The end of the file as written (src/layout.c:193-207): the count and the memory, or None. */
  function FinishAsWritten(s: RawScan): (r: Option<(int, map<int, int>)>)
    requires RawScanOk(s)
    ensures r.Some? ==> r.value.0 == s.at.layer
  {
    var m := if |s.buf| > 0 then s.cells[StoreOffsetAsWritten(s.at) := KeyValue(s.buf)] else s.cells;
    if (0 < s.at.row < NUMROWS - 1) || (0 < s.at.col < NUMCOLS - 1) then None else Some((s.at.layer, m))
  }

  /** The loader as written, from character i in state s: RunFrom with DigitStepAsWritten for DigitStep. */
  function RunAsWritten(text: string, i: nat, s: RawScan): (r: Option<(int, map<int, int>)>)
    requires i <= |text| && RawScanOk(s)
    ensures r.Some? ==> s.cells.Keys <= r.value.1.Keys
    decreases |text| - i, if s.mode == Whitespace then 1 else 0
  {
    if i == |text| then FinishAsWritten(s)
    else if s.mode == Digits then
      match DigitStepAsWritten(s, text[i])
      case None => None
      case Some(s') => RunAsWritten(text, i + 1, s')
    else if IsBlank(text[i]) then RunAsWritten(text, i + 1, s)
    else if IsDigit(text[i]) then RunAsWritten(text, i, s.(mode := Digits))
    else None
  }

  /** As written, a one-digit value then ',' is stored at the cursor, and the cursor moves on unbounded. */
  lemma CommaTokenAsWritten(text: string, j: nat, s: RawScan)
    requires RawScanOk(s) && s.buf == []
    requires j + 2 <= |text| && IsDigit(text[j]) && text[j + 1] == ','
    ensures RunAsWritten(text, j, s)
         == RunAsWritten(text, j + 2, RawScan(Whitespace, [], NextAsWritten(s.at), s.cells[StoreOffsetAsWritten(s.at) := KeyValue([text[j]])]))
  {
    var s0 := s.(mode := Digits);
    assert RunAsWritten(text, j, s) == RunAsWritten(text, j, s0);
    assert RunAsWritten(text, j, s0) == RunAsWritten(text, j + 1, s0.(buf := [text[j]]));
  }

  /** atoi of a one-character parse_buffer. */
  function CharKey(ch: char): (v: int)
    ensures IsDigit(ch) ==> v == KeyValue([ch])
  {
    if IsDigit(ch) then KeyValue([ch]) else 0
  }

  /** Memory after the first k one-digit values of a line are stored at base, base + 1, ... */
  function LineCells(cells: map<int, int>, text: string, i: nat, base: int, k: nat): map<int, int>
    requires i + 2 * k <= |text|
  {
    if k == 0 then cells else LineCells(cells, text, i, base, k - 1)[base + k - 1 := CharKey(text[i + 2 * (k - 1)])]
  }

  /** Word base + t holds the t-th value of the line, for every t < k, as word j holds value j - base. */
  lemma {:induction false} LineCellsAt(cells: map<int, int>, text: string, i: nat, base: int, k: nat)
    requires i + 2 * k <= |text|
    ensures forall j :: base <= j < base + k ==>
              j in LineCells(cells, text, i, base, k) && LineCells(cells, text, i, base, k)[j] == CharKey(text[i + 2 * (j - base)])
  {
    if k > 0 {
      LineCellsAt(cells, text, i, base, k - 1);
    }
  }

  /** The state after the first k values of a line, each one digit followed by ',', from column 0 of row 0. */
  function TokensAsWritten(text: string, i: nat, s: RawScan, k: nat): RawScan
    requires i + 2 * k <= |text|
  {
    RawScan(Whitespace, [], CommasAsWritten(s.at, k), LineCells(s.cells, text, i, StoreOffsetAsWritten(s.at), k))
  }

  /** As written, the loader reads k such values from the start of a layer's line to TokensAsWritten. */
  lemma {:induction false} LineTokensAsWritten(text: string, i: nat, s: RawScan, k: nat)
    requires RawScanOk(s) && s.mode == Whitespace && s.at.row == 0 && s.at.col == 0 && i + 2 * k <= |text|
    requires forall t :: 0 <= t < k ==> IsDigit(text[i + 2 * t]) && text[i + 2 * t + 1] == ','
    ensures CommasAsWritten(s.at, k) == Cursor(s.at.layer, k / NUMCOLS, k % NUMCOLS)
    ensures RawScanOk(TokensAsWritten(text, i, s, k))
    ensures RunAsWritten(text, i, s) == RunAsWritten(text, i + 2 * k, TokensAsWritten(text, i, s, k))
  {
    CommasClosedForm(s.at.layer, k);
    if k > 0 {
      LineTokensAsWritten(text, i, s, k - 1);
      var q := TokensAsWritten(text, i, s, k - 1);
      var j := i + 2 * (k - 1);
      assert IsDigit(text[j]) && text[j + 1] == ',';
      CommaTokenAsWritten(text, j, q);
      assert (k - 1) / NUMCOLS * NUMCOLS + (k - 1) % NUMCOLS == k - 1;
      assert StoreOffsetAsWritten(q.at) == StoreOffsetAsWritten(s.at) + k - 1;
      assert NextAsWritten(q.at) == CommasAsWritten(s.at, k);
    }
  }

  /** As written, a one-digit value then a line end closes the layer whenever the newline test passes. */
  lemma NewlineTokenAsWritten(text: string, j: nat, s: RawScan)
    requires RawScanOk(s) && s.buf == [] && NewlineAcceptedAsWritten(s.at)
    requires j + 2 <= |text| && IsDigit(text[j]) && IsNewline(text[j + 1])
    ensures RunAsWritten(text, j, s)
         == RunAsWritten(text, j + 2, RawScan(Whitespace, [], Cursor(s.at.layer + 1, 0, 0), s.cells[StoreOffsetAsWritten(s.at) := CharKey(text[j])]))
  {
    var s0 := s.(mode := Digits);
    var s1 := s0.(buf := [text[j]]);
    assert AllDigits(s1.buf) && RawScanOk(s1);
    assert RunAsWritten(text, j, s) == RunAsWritten(text, j, s0);
    assert RunAsWritten(text, j, s0) == RunAsWritten(text, j + 1, s1);
    assert DigitStepAsWritten(s1, text[j + 1])
        == Some(RawScan(Whitespace, [], Cursor(s.at.layer + 1, 0, 0), s.cells[StoreOffsetAsWritten(s.at) := CharKey(text[j])]));
  }

  /**
   * As written, a line of 168 one-digit values, 167 of them followed by ','
   * and the last by a line end, is read through to the next line: the
   * newline test passes at row 20, the layer advances, and the 161st to
   * 168th values are the words of row 0 of the next layer, which lie past
   * the matrix on the sixth line.
   */
  lemma OverlongLineLoadsAsWritten(text: string, i: nat, s: RawScan)
    requires RawScanOk(s) && s.mode == Whitespace && s.at == Cursor(s.at.layer, 0, 0)
    requires i + 2 * 168 <= |text| && IsNewline(text[i + 2 * 167 + 1])
    requires forall t :: 0 <= t < 168 ==> IsDigit(text[i + 2 * t]) && (t < 167 ==> text[i + 2 * t + 1] == ',')
    ensures RunAsWritten(text, i, s)
         == RunAsWritten(text, i + 2 * 168, RawScan(Whitespace, [], Cursor(s.at.layer + 1, 0, 0),
                                                    LineCells(s.cells, text, i, StoreOffsetAsWritten(s.at), 168)))
    ensures forall j :: StoreOffsetAsWritten(Cursor(s.at.layer + 1, 0, 0)) <= j < StoreOffsetAsWritten(Cursor(s.at.layer + 1, 0, NUMCOLS)) ==>
              j in LineCells(s.cells, text, i, StoreOffsetAsWritten(s.at), 168)
              && LineCells(s.cells, text, i, StoreOffsetAsWritten(s.at), 168)[j] == CharKey(text[i + 2 * (j - StoreOffsetAsWritten(s.at))])
              && NUMKEYS <= j - StoreOffsetAsWritten(s.at) < NUMKEYS + NUMCOLS
    ensures s.at.layer == NUMLAYERS_MAX - 1 ==> StoreOffsetAsWritten(Cursor(s.at.layer + 1, 0, 0)) >= NUMLAYERS_MAX * NUMKEYS
  {
    LineTokensAsWritten(text, i, s, 167);
    var q := TokensAsWritten(text, i, s, 167);
    NewlineTokenAsWritten(text, i + 2 * 167, q);
    assert StoreOffsetAsWritten(q.at) == StoreOffsetAsWritten(s.at) + 167;
    var base := StoreOffsetAsWritten(s.at);
    assert StoreOffsetAsWritten(Cursor(s.at.layer + 1, 0, 0)) == base + NUMKEYS;
    assert StoreOffsetAsWritten(Cursor(s.at.layer + 1, 0, NUMCOLS)) == base + NUMKEYS + NUMCOLS;
    LineCellsAt(s.cells, text, i, base, 168);
  }

  /**
   * Corrected: once row has run past the last row, or layer past the last
   * layer, the next value fails the load whether it is followed by ',', a
   * newline or the end of the file, so no store leaves the matrix.
   */
  lemma OverflowRejected(text: string, i: nat, s: Scan, d: string)
    requires ScanOk(s) && s.mode == Whitespace && (s.row == NUMROWS || s.layer == NUMLAYERS_MAX)
    requires 1 <= |d| <= PARSE_DIGITS_MAX && AllDigits(d)
    requires i + |d| <= |text| && text[i..i + |d|] == d
    requires i + |d| == |text| || text[i + |d|] == ',' || IsNewline(text[i + |d|])
    ensures RunFrom(text, i, s) == None
  {
    if i + |d| == |text| {
      assert text[i..] == d;
      PendingKeyStoredAtEof(text, i, s, d);
    } else if text[i + |d|] == ',' {
      CommaStoresKey(text, i, s, d);
    } else {
      NewlineClosesLayer(text, i, s, d);
    }
  }
}

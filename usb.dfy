/**
 * The logic around the controller's control transfers (src/usb.c): a
 * transfer is abstracted as the bytes the device answered with, or the
 * bytes of the request that would be sent.
 */
module Usb {
  import opened Common

  /** uc_buffer of bl_usb_read_layout and bl_usb_write_layout. */
  const BUF_SIZE: int := 2048
  /** char_ctr_buf of bl_usb_macro_read: NUM_MACROKEYS * LEN_MACRO bytes. */
  const MACRO_BYTES: int := 192

  predicate IsBytes(s: seq<int>) { forall i :: 0 <= i < |s| ==> IsU8(s[i]) }

  predicate IsWords(s: seq<int>) { forall i :: 0 <= i < |s| ==> IsU16(s[i]) }

  // ---------------------------------------------------------------------
  // Little-endian view of uint16_t arrays
  // ---------------------------------------------------------------------

  /** The bytes of a uint16_t array in memory on a little-endian host. */
  function LeBytes(words: seq<int>): (b: seq<int>)
    requires IsWords(words)
    ensures |b| == 2 * |words| && IsBytes(b)
    ensures forall j :: 0 <= j < |b| ==> b[j] == if j % 2 == 0 then words[j / 2] % 256 else words[j / 2] / 256
  {
    seq(2 * |words|, j requires 0 <= j < 2 * |words| => if j % 2 == 0 then words[j / 2] % 256 else words[j / 2] / 256)
  }

  /** The uint16_t values a byte array holds, read pairwise little endian. */
  function LeWords(bytes: seq<int>): (w: seq<int>)
    requires IsBytes(bytes)
    ensures |w| == |bytes| / 2 && IsWords(w)
    ensures forall k :: 0 <= k < |w| ==> w[k] == bytes[2 * k] + 256 * bytes[2 * k + 1]
  {
    seq(|bytes| / 2, k requires 0 <= k < |bytes| / 2 => bytes[2 * k] + 256 * bytes[2 * k + 1])
  }

  /** Word k of the array is stored as bytes 2k (low) and 2k+1 (high). */
  lemma LeBytesAt(words: seq<int>, k: int)
    requires IsWords(words) && 0 <= k < |words|
    ensures LeBytes(words)[2 * k] == words[k] % 256 && LeBytes(words)[2 * k + 1] == words[k] / 256
  {
    var b := LeBytes(words);
    assert b[2 * k] == words[(2 * k) / 2] % 256;
    assert b[2 * k + 1] == words[(2 * k + 1) / 2] / 256;
  }

  /** A 16-bit value is its low byte plus 256 times its high byte. */
  lemma WordSplit(x: int)
    requires IsU16(x)
    ensures x % 256 + 256 * (x / 256) == x
  {
  }

  /** Decoding the bytes of a word array gives the words back. */
  lemma LeWordsOfLeBytes(words: seq<int>)
    requires IsWords(words)
    ensures LeWords(LeBytes(words)) == words
  {
    var b := LeBytes(words);
    var w := LeWords(b);
    forall k | 0 <= k < |words|
      ensures w[k] == words[k]
    {
      LeBytesAt(words, k);
      WordSplit(words[k]);
    }
  }

  // ---------------------------------------------------------------------
  // bl_usb_read_layout (src/usb.c:216-241)
  // ---------------------------------------------------------------------

  /** uc_buffer after memset to zero and the transfer: the response, then zeros. */
  function Padded(response: seq<int>): (buf: seq<int>)
    requires |response| <= BUF_SIZE
    ensures |buf| == BUF_SIZE
    ensures forall i :: 0 <= i < BUF_SIZE ==> buf[i] == if i < |response| then response[i] else 0
  {
    response + seq(BUF_SIZE - |response|, _ => 0)
  }

  /**
   * The layer count is byte 0 of the answer and is reported even on
   * failure; the read fails when it is 0 or above 6. On success the cell
   * data are the BUF_SIZE-2 bytes from offset 2 on.
   */
  method ReadLayout(response: seq<int>) returns (ok: bool, nlayers: int, data: seq<int>)
    requires |response| <= BUF_SIZE && IsBytes(response)
    ensures nlayers == Padded(response)[0] && IsU8(nlayers)
    ensures ok <==> 1 <= nlayers <= NUMLAYERS_MAX
    ensures ok ==> data == Padded(response)[2..] && |data| == BUF_SIZE - 2
    ensures !ok ==> data == []
  {
    var buf := new int[BUF_SIZE];
    for i := 0 to BUF_SIZE
      invariant forall j :: 0 <= j < i ==> buf[j] == 0
    {
      buf[i] := 0;
    }
    for i := 0 to |response|
      invariant forall j :: 0 <= j < BUF_SIZE ==> buf[j] == if j < i then response[j] else 0
    {
      buf[i] := response[i];
    }
    assert buf[..] == Padded(response);
    nlayers := buf[0];
    if nlayers == 0 {
      return false, nlayers, [];
    }
    if nlayers > 6 {
      return false, nlayers, [];
    }
    data := buf[2..];
    ok := true;
  }

  /** Header bytes followed by the bytes of a word array are bytes. */
  lemma FramedBytes(header: seq<int>, words: seq<int>)
    requires IsBytes(header) && IsWords(words)
    ensures IsBytes(header + LeBytes(words))
  {
    var s := header + LeBytes(words);
    forall i | 0 <= i < |s|
      ensures IsU8(s[i])
    {
      if i >= |header| {
        assert s[i] == LeBytes(words)[i - |header|];
      }
    }
  }

  /** The buffer after a transfer of bytes holds bytes from offset 2 on. */
  lemma PaddedTailBytes(response: seq<int>)
    requires |response| <= BUF_SIZE && IsBytes(response)
    ensures IsBytes(Padded(response)[2..])
  {
    var buf := Padded(response);
    forall i | 0 <= i < |buf| - 2
      ensures IsU8(buf[2..][i])
    {
      assert buf[2..][i] == buf[i + 2];
    }
  }

  /** An answer framed as a count byte, one more byte, then the cells: the cells decode back. */
  lemma FramedReadDecodes(n: int, pad: int, words: seq<int>)
    requires IsU8(n) && IsU8(pad) && IsWords(words) && 2 + 2 * |words| <= BUF_SIZE
    ensures IsBytes([n, pad] + LeBytes(words))
    ensures IsBytes(Padded([n, pad] + LeBytes(words))[2..])
    ensures LeWords(Padded([n, pad] + LeBytes(words))[2..])[..|words|] == words
  {
    var bytes := LeBytes(words);
    var response := [n, pad] + bytes;
    FramedBytes([n, pad], words);
    var buf := Padded(response);
    var data := buf[2..];
    PaddedTailBytes(response);
    var w := LeWords(data);
    forall k | 0 <= k < |words|
      ensures w[k] == words[k]
    {
      var lo, hi := 2 * k, 2 * k + 1;
      assert data[lo] == buf[lo + 2] == response[lo + 2] == bytes[lo];
      assert data[hi] == buf[hi + 2] == response[hi + 2] == bytes[hi];
      LeBytesAt(words, k);
      WordSplit(words[k]);
    }
    assert w[..|words|] == words;
  }

  // ---------------------------------------------------------------------
  // bl_usb_write_layout (src/usb.c:243-255)
  // ---------------------------------------------------------------------

  /**
   * The request: nlayers in byte 0, then the 2 * nlayers * NUMKEYS bytes of
   * the cells from byte 1; nlayers * 2 * NUMKEYS + 1 bytes are sent.
   */
  method WriteLayout(layout: seq<int>, nlayers: int) returns (packet: seq<int>)
    requires 0 <= nlayers <= NUMLAYERS_MAX && nlayers * NUMKEYS <= |layout|
    requires IsWords(layout[..nlayers * NUMKEYS])
    ensures |packet| == nlayers * 2 * NUMKEYS + 1
    ensures packet == [nlayers] + LeBytes(layout[..nlayers * NUMKEYS])
  {
    var words := layout[..nlayers * NUMKEYS];
    var bytes := LeBytes(words);
    var size := |bytes|;
    assert size == nlayers * 2 * NUMKEYS && size + 1 <= BUF_SIZE;
    var buf := new int[BUF_SIZE];
    buf[0] := nlayers;
    for j := 0 to size
      invariant buf[0] == nlayers
      invariant forall t :: 0 <= t < j ==> buf[1 + t] == bytes[t]
    {
      buf[1 + j] := bytes[j];
    }
    packet := buf[..size + 1];
    assert forall t :: 0 <= t < size ==> packet[1 + t] == bytes[t];
    assert packet == [nlayers] + bytes;
  }

  /** The cells of a write request decode back from byte 1 on. */
  lemma WriteRequestDecodes(words: seq<int>, n: int)
    requires 0 <= n <= NUMLAYERS_MAX && |words| == n * NUMKEYS && IsWords(words)
    ensures ([n] + LeBytes(words))[1..] == LeBytes(words)
    ensures LeWords(([n] + LeBytes(words))[1..]) == words
  {
    assert ([n] + LeBytes(words))[1..] == LeBytes(words);
    LeWordsOfLeBytes(words);
  }

  /**
   * The two framings disagree: were the device to answer a read with the
   * bytes of a write request, the reader, which skips two bytes, would see
   * every cell shifted by one byte, word k made of the high byte of cell k
   * and the low byte of cell k+1.
   */
  lemma WriteThenReadShifts(words: seq<int>, n: int)
    requires 1 <= n <= NUMLAYERS_MAX && |words| == n * NUMKEYS && IsWords(words)
    ensures IsBytes(Padded([n] + LeBytes(words))[2..])
    ensures forall k :: 0 <= k < |words| - 1 ==>
              LeWords(Padded([n] + LeBytes(words))[2..])[k] == words[k] / 256 + 256 * (words[k + 1] % 256)
  {
    var bytes := LeBytes(words);
    var request := [n] + bytes;
    var buf := Padded(request);
    var data := buf[2..];
    FramedBytes([n], words);
    PaddedTailBytes(request);
    var w := LeWords(data);
    forall k | 0 <= k < |words| - 1
      ensures w[k] == words[k] / 256 + 256 * (words[k + 1] % 256)
    {
      var lo, hi := 2 * k, 2 * k + 1;
      assert data[lo] == buf[lo + 2] == request[lo + 2] == bytes[2 * k + 1];
      assert data[hi] == buf[hi + 2] == request[hi + 2] == bytes[2 * (k + 1)];
      LeBytesAt(words, k);
      LeBytesAt(words, k + 1);
    }
  }

  // ---------------------------------------------------------------------
  // bl_usb_read_matrix_pos (src/usb.c:169-199)
  // ---------------------------------------------------------------------

  /** A matrix position the controller reports. */
  datatype Pos = Pos(row: int, col: int)

  /**
   * What one call reports, given the last reported row and column bytes:
   * a position only when byte 7 flags a key and bytes 0-1 differ from the
   * last ones.
   */
  function DetectPos(last: seq<int>, response: seq<int>): (r: Option<Pos>)
    requires |last| == 8 && |response| == 8
    ensures r.Some? <==> response[7] != 0 && (response[0] != last[0] || response[1] != last[1])
    ensures r.Some? ==> r.value == Pos(response[0], response[1])
  {
    if response[7] != 0 && (response[0] != last[0] || response[1] != last[1]) then
      Some(Pos(response[0], response[1]))
    else
      None
  }

  /** The static buffer_last and buffer_changed that persist between calls. */
  class MatrixPosReader {
    var last: seq<int>
    var changed: bool

    ghost predicate Valid()
      reads this
    {
      |last| == 8 && IsBytes(last) && !changed
    }

    /** The static initialisers: all zero. */
    constructor()
      ensures Valid() && last == [0, 0, 0, 0, 0, 0, 0, 0]
    {
      last := [0, 0, 0, 0, 0, 0, 0, 0];
      changed := false;
    }

    /**
     * One call: on TRUE the position is bytes 0 and 1 and they become the
     * last position; otherwise nothing changes.
     */
    method Read(response: seq<int>) returns (pos: Option<Pos>)
      requires Valid() && |response| == 8 && IsBytes(response)
      modifies this
      ensures Valid()
      ensures pos == DetectPos(old(last), response)
      ensures pos.Some? ==> last == old(last)[0 := response[0]][1 := response[1]]
      ensures pos.None? ==> last == old(last)
      ensures pos.Some? ==> DetectPos(last, response) == None
    {
      if response[7] != 0 {
        for i := 0 to 2
          invariant last == old(last)
          invariant changed <==> exists j :: 0 <= j < i && response[j] != last[j]
        {
          if response[i] != last[i] {
            changed := true;
          }
        }
      }
      if changed {
        changed := false;
        ghost var last0 := last;
        for i := 0 to 2
          invariant |last| == 8 && !changed
          invariant forall j :: 0 <= j < 8 ==> last[j] == if j < i then response[j] else last0[j]
        {
          last := last[i := response[i]];
        }
        assert last == last0[0 := response[0]][1 := response[1]];
        pos := Some(Pos(response[0], response[1]));
      } else {
        pos := None;
      }
    }
  }

  // ---------------------------------------------------------------------
  // bl_usb_macro_read (src/usb.c:409-433)
  // ---------------------------------------------------------------------

  function CountOf(s: seq<int>, v: int): (n: nat)
    ensures n <= |s|
  {
    if s == [] then 0 else CountOf(s[..|s| - 1], v) + (if s[|s| - 1] == v then 1 else 0)
  }

  predicate AllEqualTo(s: seq<int>, v: int) { forall i :: 0 <= i < |s| ==> s[i] == v }

  /** Every byte is v exactly when v is counted once per byte. */
  lemma {:induction false} CountAllEqual(s: seq<int>, v: int)
    ensures CountOf(s, v) == |s| <==> AllEqualTo(s, v)
  {
    if s != [] {
      var init := s[..|s| - 1];
      CountAllEqual(init, v);
      if AllEqualTo(s, v) {
        assert AllEqualTo(init, v);
      }
      if CountOf(s, v) == |s| {
        assert CountOf(init, v) == |init|;
        assert forall i :: 0 <= i < |init| ==> init[i] == s[i];
      }
    }
  }

  /**
   * The table bl_usb_macro_read returns: 24 macros, the 192 answer bytes
   * copied over the first 96 of the 192 16-bit cells (memcpy counts bytes),
   * the other cells left as the allocation held them.
   */
  function MacroTableOf(response: seq<int>, initial: seq<seq<int>>): (t: MacroTable)
    requires |response| == MACRO_BYTES && IsBytes(response) && IsMacroMatrix(initial)
    ensures t.nmacros == NUM_MACROKEYS && IsMacroMatrix(t.macros)
    ensures forall y, x :: 0 <= y < NUM_MACROKEYS && 0 <= x < LEN_MACRO ==>
              t.macros[y][x] == if y * LEN_MACRO + x < MACRO_BYTES / 2
                                then response[2 * (y * LEN_MACRO + x)] + 256 * response[2 * (y * LEN_MACRO + x) + 1]
                                else initial[y][x]
  {
    var w := LeWords(response);
    MacroTable(NUM_MACROKEYS,
      seq(NUM_MACROKEYS, y requires 0 <= y < NUM_MACROKEYS =>
        seq(LEN_MACRO, x requires 0 <= x < LEN_MACRO =>
          if y * LEN_MACRO + x < MACRO_BYTES / 2 then w[y * LEN_MACRO + x] else initial[y][x])))
  }

  /**
   * The EEPROM sanity check: an answer of 192 zero bytes or 192 bytes of 255
   * ends the program (None); any other answer gives the table.
   */
  method MacroRead(response: seq<int>, initial: seq<seq<int>>) returns (r: Option<MacroTable>)
    requires |response| == MACRO_BYTES && IsBytes(response) && IsMacroMatrix(initial)
    ensures r.None? <==> AllEqualTo(response, 0) || AllEqualTo(response, 255)
    ensures r.Some? ==> r.value == MacroTableOf(response, initial)
  {
    var bad1, bad2 := 0, 0;
    for i := 0 to MACRO_BYTES
      invariant bad1 == CountOf(response[..i], 0) && bad2 == CountOf(response[..i], 255)
    {
      assert response[..i + 1][..i] == response[..i];
      if response[i] == 0 {
        bad1 := bad1 + 1;
      }
      if response[i] == 255 {
        bad2 := bad2 + 1;
      }
    }
    assert response[..MACRO_BYTES] == response;
    CountAllEqual(response, 0);
    CountAllEqual(response, 255);
    if bad1 == MACRO_BYTES || bad2 == MACRO_BYTES {
      return None;
    }
    r := Some(MacroTableOf(response, initial));
  }

  // ---------------------------------------------------------------------
  // bl_usb_debounce_write and bl_usb_pwm_write (src/usb.c:332-373)
  // ---------------------------------------------------------------------

  /** The 8-byte request bl_usb_debounce_write sends, or None when it sends nothing. */
  function DebouncePacket(debounce: int): (r: Option<seq<int>>)
    requires IsU8(debounce)
    ensures r.None? <==> debounce == 0
    ensures r.Some? ==> |r.value| == 8 && r.value[0] == debounce && AllEqualTo(r.value[1..], 0)
  {
    if debounce < 1 || debounce > 255 then None
    else Some([debounce, 0, 0, 0, 0, 0, 0, 0])
  }

  /** The range test of bl_usb_pwm_write. */
  predicate PwmOutOfRange(pwmUsb: int, pwmBt: int)
  {
    (pwmUsb < 0 || pwmUsb > 255) || (pwmBt < 0 || pwmBt > 255)
  }

  /**
   * The 8-byte request bl_usb_pwm_write sends: the two levels in bytes 0 and
   * 1 of a static buffer whose other bytes are never written; None is the
   * exit of the range test.
   */
  function PwmPacket(pwmUsb: int, pwmBt: int): (r: Option<seq<int>>)
    requires IsU8(pwmUsb) && IsU8(pwmBt)
    ensures r.Some? && |r.value| == 8
    ensures r.value[0] == pwmUsb && r.value[1] == pwmBt && AllEqualTo(r.value[2..], 0)
  {
    if PwmOutOfRange(pwmUsb, pwmBt) then None
    else Some([pwmUsb, pwmBt, 0, 0, 0, 0, 0, 0])
  }
}

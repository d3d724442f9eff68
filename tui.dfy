/**
 * The key-driven state of the terminal widgets (src/bl_tui.c): the button
 * row, the confirm and message dialogs, the one-line text editor and the
 * scrolling select box. Keys are the sequence of codes getch returns, ERR
 * when no key is waiting; a dialog whose closing key never arrives yields
 * None.
 */
module Tui {
  import opened Common

  /** Key codes of ncurses and of the ASCII control keys the widgets test. */
  const ERR: int := -1
  const CTRL_A: int := 1
  const CTRL_E: int := 5
  const BS: int := 8
  const TAB: int := 9
  const NEWLINE: int := 10
  const ESC: int := 27
  const DEL: int := 127
  const KEY_DOWN: int := 258
  const KEY_UP: int := 259
  const KEY_LEFT: int := 260
  const KEY_RIGHT: int := 261
  const KEY_HOME: int := 262
  const KEY_BACKSPACE: int := 263
  const KEY_DC: int := 330
  const KEY_NPAGE: int := 338
  const KEY_PPAGE: int := 339
  const KEY_BTAB: int := 353
  const KEY_END: int := 360

  const TRUE: int := 1
  const FALSE: int := 0

  /** isprint in the C locale. */
  predicate IsPrint(ch: int) { 32 <= ch <= 126 }

  // ---------------------------------------------------------------------
  // bl_tui_buttons (src/bl_tui.c:141-179)
  // ---------------------------------------------------------------------

  /** Tab and Right select the next button, BTab and Left the previous one, cyclically. */
  function ButtonStep(selected: int, ch: int, n: int): (s: int)
    requires 0 < n && 0 <= selected < n
    ensures 0 <= s < n
    ensures ch == TAB || ch == KEY_RIGHT ==> s == (if selected + 1 < n then selected + 1 else 0)
    ensures ch == KEY_BTAB || ch == KEY_LEFT ==> s == (if 0 < selected then selected - 1 else n - 1)
    ensures ch != TAB && ch != KEY_RIGHT && ch != KEY_BTAB && ch != KEY_LEFT ==> s == selected
  {
    if ch == TAB || ch == KEY_RIGHT then
      ModOfSplit(selected + 1, n, if selected + 1 < n then 0 else 1, if selected + 1 < n then selected + 1 else 0);
      (selected + 1) % n
    else if ch == KEY_BTAB || ch == KEY_LEFT then
      ModOfSplit(selected + n - 1, n, if 0 < selected then 1 else 0, if 0 < selected then selected - 1 else n - 1);
      (selected + n - 1) % n
    else selected
  }

  /** x % n is the remainder of any quotient-remainder split of x. */
  lemma ModOfSplit(x: int, n: int, q: int, r: int)
    requires 0 < n && 0 <= r < n && x == q * n + r
    ensures x % n == r
  {
    var d := q - x / n;
    assert d * n == x % n - r;
  }

  /** Moving forward then back returns to the same button. */
  lemma ButtonStepInverse(selected: int, n: int)
    requires 0 < n && 0 <= selected < n
    ensures ButtonStep(ButtonStep(selected, TAB, n), KEY_BTAB, n) == selected
    ensures ButtonStep(ButtonStep(selected, KEY_BTAB, n), TAB, n) == selected
  {
    var next := ButtonStep(selected, TAB, n);
    var prev := ButtonStep(selected, KEY_BTAB, n);
    if selected + 1 < n {
      ModOfSplit(selected + 1, n, 0, selected + 1);
      ModOfSplit(selected + 1 + n - 1, n, 1, selected);
    } else {
      ModOfSplit(selected + 1, n, 1, 0);
      ModOfSplit(0 + n - 1, n, 0, n - 1);
    }
    if selected == 0 {
      ModOfSplit(selected + n - 1, n, 0, n - 1);
      ModOfSplit(n - 1 + 1, n, 1, 0);
    } else {
      ModOfSplit(selected + n - 1, n, 1, selected - 1);
      ModOfSplit(selected - 1 + 1, n, 0, selected);
    }
  }

  /**
   * The button row run on keys from index i with button selected: the
   * button chosen by Enter and the index after that Enter.
   */
  function RunButtons(keys: seq<int>, i: nat, selected: int, n: int): (r: Option<(int, nat)>)
    requires 0 < n && 0 <= selected < n && i <= |keys|
    ensures r.Some? ==> 0 <= r.value.0 < n && i < r.value.1 <= |keys| && keys[r.value.1 - 1] == NEWLINE
    ensures r.Some? ==> forall j :: i <= j < r.value.1 - 1 ==> keys[j] != NEWLINE
    ensures r.None? ==> forall j :: i <= j < |keys| ==> keys[j] != NEWLINE
    decreases |keys| - i
  {
    if i == |keys| then None
    else if keys[i] == NEWLINE then Some((selected, i + 1))
    else RunButtons(keys, i + 1, ButtonStep(selected, keys[i], n), n)
  }

  /** How far one key moves the selection: +1 for Tab and Right, -1 for BTab and Left. */
  function Shift(ch: int): int
  {
    if ch == TAB || ch == KEY_RIGHT then 1
    else if ch == KEY_BTAB || ch == KEY_LEFT then -1
    else 0
  }

  /** The net number of buttons moved over by keys[i..j]. */
  function NetMoves(keys: seq<int>, i: nat, j: nat): int
    requires i <= j <= |keys|
    decreases j - i
  {
    if i == j then 0 else Shift(keys[i]) + NetMoves(keys, i + 1, j)
  }

  /** Adding after reducing mod n is adding before. */
  lemma ModAddLeft(x: int, y: int, n: int)
    requires 0 < n
    ensures (x % n + y) % n == (x + y) % n
  {
    var z := x % n + y;
    assert x == (x / n) * n + x % n;
    assert z == (z / n) * n + z % n;
    ModOfSplit(x + y, n, x / n + z / n, z % n);
  }

  /** One key moves the selection by its Shift, cyclically. */
  lemma ButtonStepShift(selected: int, ch: int, n: int)
    requires 0 < n && 0 <= selected < n
    ensures ButtonStep(selected, ch, n) == (selected + Shift(ch)) % n
  {
    var s := ButtonStep(selected, ch, n);
    if Shift(ch) == 1 {
      ModOfSplit(selected + 1, n, if selected + 1 < n then 0 else 1, s);
    } else if Shift(ch) == -1 {
      ModOfSplit(selected - 1, n, if 0 < selected then 0 else -1, s);
    } else {
      ModOfSplit(selected, n, 0, selected);
    }
  }

  /** The chosen button is the start moved by the net Tab and BTab count before the first Enter, mod n. */
  lemma {:induction false} ButtonsNet(keys: seq<int>, i: nat, selected: int, n: int)
    requires 0 < n && 0 <= selected < n && i <= |keys|
    ensures RunButtons(keys, i, selected, n).Some? ==>
              RunButtons(keys, i, selected, n).value.0
              == (selected + NetMoves(keys, i, RunButtons(keys, i, selected, n).value.1 - 1)) % n
    decreases |keys| - i
  {
    if i < |keys| {
      if keys[i] == NEWLINE {
        ModOfSplit(selected, n, 0, selected);
      } else {
        var s := ButtonStep(selected, keys[i], n);
        ButtonsNet(keys, i + 1, s, n);
        if RunButtons(keys, i, selected, n).Some? {
          var e := RunButtons(keys, i, selected, n).value.1 - 1;
          ButtonStepShift(selected, keys[i], n);
          ModAddLeft(selected + Shift(keys[i]), NetMoves(keys, i + 1, e), n);
        }
      }
    }
  }

  /** bl_tui_buttons reading keys from index start. */
  method Buttons(keys: seq<int>, start: nat, n: int) returns (r: Option<(int, nat)>)
    requires 0 < n && start <= |keys|
    ensures r == RunButtons(keys, start, 0, n)
  {
    var selected := 0;
    var i := start;
    while i < |keys|
      invariant start <= i <= |keys| && 0 <= selected < n
      invariant RunButtons(keys, i, selected, n) == RunButtons(keys, start, 0, n)
    {
      var ch := keys[i];
      i := i + 1;
      if ch == NEWLINE {
        return Some((selected, i));
      } else if ch == TAB || ch == KEY_RIGHT {
        selected := (selected + 1) % n;
      } else if ch == KEY_BTAB || ch == KEY_LEFT {
        selected := (selected + n - 1) % n;
      }
    }
    return None;
  }

  // ---------------------------------------------------------------------
  // _bl_tui_confirm_or_msg (src/bl_tui.c:181-218)
  // ---------------------------------------------------------------------

  /** The answer of a confirm dialog (Ok, Cancel) or a message dialog (Ok), and the keys it used. */
  function ConfirmResult(isConfirm: bool, keys: seq<int>): (r: Option<(int, nat)>)
    ensures r.Some? ==> r.value.0 == TRUE || r.value.0 == FALSE
    ensures r.None? <==> RunButtons(keys, 0, 0, if isConfirm then 2 else 1).None?
    ensures r.Some? ==> (r.value.0 == TRUE <==> RunButtons(keys, 0, 0, if isConfirm then 2 else 1).value.0 == 0)
    ensures !isConfirm && r.Some? ==> r.value.0 == TRUE
  {
    match RunButtons(keys, 0, 0, if isConfirm then 2 else 1)
    case None => None
    case Some((button, used)) => Some((if button == 0 then TRUE else FALSE, used))
  }

  /** A confirm dialog answers FALSE exactly when the keys before the first Enter move an odd net number of buttons. */
  lemma ConfirmDeclinesOnOddMoves(keys: seq<int>)
    ensures ConfirmResult(true, keys).Some? ==>
              (ConfirmResult(true, keys).value.0 == FALSE
               <==> NetMoves(keys, 0, ConfirmResult(true, keys).value.1 - 1) % 2 == 1)
  {
    ButtonsNet(keys, 0, 0, 2);
  }

  /** Tab then Enter in a confirm dialog answers FALSE; Enter alone answers TRUE. */
  lemma TabThenEnterDeclines()
    ensures ConfirmResult(true, [TAB, NEWLINE]) == Some((FALSE, 2))
    ensures ConfirmResult(true, [NEWLINE]) == Some((TRUE, 1))
  {
    assert RunButtons([TAB, NEWLINE], 1, 1, 2) == Some((1, 2));
  }

  /** The dialog loops until a button maps to TRUE or FALSE; the first Enter always does. */
  method ConfirmOrMsg(isConfirm: bool, keys: seq<int>) returns (r: Option<(int, nat)>)
    ensures r == ConfirmResult(isConfirm, keys)
  {
    var n := if isConfirm then 2 else 1;
    var answer := -1;
    var used: nat := 0;
    while answer != FALSE && answer != TRUE
      invariant answer == -1 ==> used == 0
      invariant answer != -1 ==> ConfirmResult(isConfirm, keys) == Some((answer, used))
      decreases if answer == -1 then 1 else 0
    {
      var button := Buttons(keys, used, n);
      if button.None? {
        return None;
      }
      if button.value.0 == 0 {
        answer := TRUE;
      } else if button.value.0 == 1 {
        answer := FALSE;
      }
      used := button.value.1;
    }
    r := Some((answer, used));
  }

  // ---------------------------------------------------------------------
  // bl_tui_textbox (src/bl_tui.c:253-389)
  // ---------------------------------------------------------------------

  /** The edited text and the cursor position in it. */
  datatype Edit = Edit(text: string, pos: int)

  predicate EditOk(e: Edit, maxlength: int)
  {
    0 <= e.pos <= |e.text| <= maxlength
  }

  /**
   * One editing key in the text: cursor moves, Backspace and Delete, Home
   * (ctrl-a) and End (ctrl-e), and insertion of a printable character
   * while the text is shorter than maxlength. The byte shifts the source
   * does with overlapping strcpy are modelled as their intended effect.
   */
  function EditKey(e: Edit, ch: int, maxlength: int): (r: Edit)
    requires EditOk(e, maxlength)
    ensures EditOk(r, maxlength)
  {
    if ch == KEY_RIGHT then
      if e.pos < |e.text| then e.(pos := e.pos + 1) else e
    else if ch == KEY_LEFT then
      if e.pos > 0 then e.(pos := e.pos - 1) else e
    else if ch == KEY_BACKSPACE || ch == DEL || ch == BS then
      if e.pos > 0 then Edit(e.text[..e.pos - 1] + e.text[e.pos..], e.pos - 1) else e
    else if ch == KEY_DC then
      if e.pos < |e.text| then Edit(e.text[..e.pos] + e.text[e.pos + 1..], e.pos) else e
    else if ch == CTRL_A || ch == KEY_HOME then
      e.(pos := 0)
    else if ch == CTRL_E || ch == KEY_END then
      e.(pos := |e.text|)
    else if IsPrint(ch) then
      if |e.text| < maxlength then Edit(e.text[..e.pos] + [ch as char] + e.text[e.pos..], e.pos + 1) else e
    else
      e
  }

  /** A printable key inserted into a text with room grows it by one, and Backspace takes it out again. */
  lemma InsertThenBackspace(e: Edit, ch: int, maxlength: int)
    requires EditOk(e, maxlength) && IsPrint(ch) && |e.text| < maxlength
    ensures |EditKey(e, ch, maxlength).text| == |e.text| + 1
    ensures EditKey(e, ch, maxlength).text[e.pos] == ch as char
    ensures EditKey(EditKey(e, ch, maxlength), KEY_BACKSPACE, maxlength) == e
  {
    var t := e.text[..e.pos] + [ch as char] + e.text[e.pos..];
    assert t[..e.pos] == e.text[..e.pos];
    assert t[e.pos + 1..] == e.text[e.pos..];
    assert e.text[..e.pos] + e.text[e.pos..] == e.text;
  }

  /** A printable key at the cursor, then Left and Delete, restores the text with the cursor where it was. */
  lemma InsertThenDelete(e: Edit, ch: int, maxlength: int)
    requires EditOk(e, maxlength) && IsPrint(ch) && |e.text| < maxlength
    ensures EditKey(EditKey(EditKey(e, ch, maxlength), KEY_LEFT, maxlength), KEY_DC, maxlength) == e
  {
    var t := e.text[..e.pos] + [ch as char] + e.text[e.pos..];
    assert t[..e.pos] == e.text[..e.pos];
    assert t[e.pos + 1..] == e.text[e.pos..];
    assert e.text[..e.pos] + e.text[e.pos..] == e.text;
  }

  /** A full text takes no more characters. */
  lemma FullTextUnchanged(e: Edit, ch: int, maxlength: int)
    requires EditOk(e, maxlength) && IsPrint(ch) && |e.text| == maxlength
    ensures EditKey(e, ch, maxlength) == e
  {
  }

  /** The scroll offset follows the cursor by at most one column per key. */
  function ScrollStep(scroll: int, pos: int, width: int): (s: int)
    ensures -1 <= s - scroll <= 1
    ensures s < scroll <==> pos < scroll
    ensures s > scroll <==> scroll <= pos && pos >= scroll + width
  {
    if pos < scroll then scroll - 1
    else if pos >= scroll + width then scroll + 1
    else scroll
  }

  /** Scrolling never goes below the first character. */
  lemma ScrollStaysNonNegative(scroll: int, pos: int, width: int)
    requires 0 <= scroll && 0 <= pos
    ensures 0 <= ScrollStep(scroll, pos, width)
  {
  }

  /**
   * Home moves the cursor to 0 in one key, but scroll only steps back by
   * one, so the cursor can end up left of the first shown character and is
   * drawn at a negative column offset: scroll <= pos fails after the key.
   */
  lemma HomeLeavesCursorLeftOfScroll(e: Edit, scroll: int, width: int, maxlength: int)
    requires EditOk(e, maxlength) && 2 <= scroll
    ensures EditKey(e, KEY_HOME, maxlength).pos == 0
    ensures ScrollStep(scroll, EditKey(e, KEY_HOME, maxlength).pos, width) == scroll - 1
    ensures EditKey(e, KEY_HOME, maxlength).pos < ScrollStep(scroll, EditKey(e, KEY_HOME, maxlength).pos, width)
  {
  }

  /** bl_tui_textbox_t: the edit buffer of the dialog. */
  class TextBox {
    var text: string
    var pos: int
    var scroll: int
    const maxlength: int

    ghost predicate Valid()
      reads this
    {
      EditOk(Edit(text, pos), maxlength) && 0 <= scroll
    }

    /** bl_tui_textbox_create: empty text, cursor and scroll at 0. */
    constructor(maxlength: int)
      requires 0 <= maxlength
      ensures Valid() && text == [] && pos == 0 && scroll == 0 && this.maxlength == maxlength
    {
      text := [];
      pos := 0;
      scroll := 0;
      this.maxlength := maxlength;
    }

    /** One editing key followed by the scroll adjustment. */
    method Key(ch: int, width: int)
      requires Valid()
      modifies this
      ensures Valid()
      ensures Edit(text, pos) == EditKey(old(Edit(text, pos)), ch, maxlength)
      ensures scroll == ScrollStep(old(scroll), pos, width)
    {
      if ch == KEY_RIGHT {
        if pos < |text| {
          pos := pos + 1;
        }
      } else if ch == KEY_LEFT {
        if pos > 0 {
          pos := pos - 1;
        }
      } else if ch == KEY_BACKSPACE || ch == DEL || ch == BS {
        if pos > 0 {
          pos := pos - 1;
          text := text[..pos] + text[pos + 1..];
        }
      } else if ch == KEY_DC {
        if pos < |text| {
          text := text[..pos] + text[pos + 1..];
        }
      } else if ch == CTRL_A || ch == KEY_HOME {
        pos := 0;
      } else if ch == CTRL_E || ch == KEY_END {
        pos := |text|;
      } else if IsPrint(ch) {
        if |text| < maxlength {
          text := text[..pos] + [ch as char] + text[pos..];
          pos := pos + 1;
        }
      }
      Rescroll(width);
    }

    /** The same adjustment after a key that does not edit. */
    method Rescroll(width: int)
      requires EditOk(Edit(text, pos), maxlength) && 0 <= scroll
      modifies this
      ensures Valid() && text == old(text) && pos == old(pos)
      ensures scroll == ScrollStep(old(scroll), pos, width)
    {
      if pos < scroll {
        scroll := scroll - 1;
      } else if pos >= scroll + width {
        scroll := scroll + 1;
      }
    }
  }

  /** How a text dialog ends: the text on Ok, or nothing on Cancel or ESC. */
  datatype TextResult = Accepted(text: string) | Cancelled

  /** IN_BUTTONS and IN_TEXT. */
  datatype Focus = InButtons | InText

  /** The dialog's variables: focus, selected button, the edit buffer and scroll. */
  datatype TextDialog = TextDialog(focus: Focus, selected: int, edit: Edit, scroll: int)

  predicate TextDialogOk(d: TextDialog, maxlength: int)
  {
    0 <= d.selected < 2 && EditOk(d.edit, maxlength) && 0 <= d.scroll
  }

  /** One key of the dialog; true when the key closes it. */
  function TextDialogStep(d: TextDialog, ch: int, width: int, maxlength: int): (r: (TextDialog, bool))
    requires TextDialogOk(d, maxlength)
    ensures TextDialogOk(r.0, maxlength)
    ensures ch == ESC ==> r.1 && r.0.selected == 1
    ensures r.1 <==> ch == NEWLINE || ch == ESC
  {
    if d.focus == InButtons then
      if ch == NEWLINE then (d, true)
      else if ch == ESC then (d.(selected := 1), true)
      else if ch == TAB || ch == KEY_RIGHT then (d.(selected := (d.selected + 1) % 2), false)
      else if ch == KEY_BTAB || ch == KEY_LEFT then (d.(selected := (d.selected + 2 - 1) % 2), false)
      else if ch == KEY_UP || ch == KEY_DOWN then (d.(focus := InText), false)
      else (d, false)
    else
      var d1 := if ch == ESC then d.(selected := 1)
                else if ch == KEY_UP || ch == KEY_DOWN then d.(focus := InButtons)
                else if ch == NEWLINE then d
                else d.(edit := EditKey(d.edit, ch, maxlength));
      (d1.(scroll := ScrollStep(d1.scroll, d1.edit.pos, width)), ch == NEWLINE || ch == ESC)
  }

  /** The dialog from key i on: the text is returned only if Ok is selected and the last key is not ESC. */
  function RunTextDialog(keys: seq<int>, i: nat, d: TextDialog, width: int, maxlength: int): (r: Option<TextResult>)
    requires i <= |keys| && TextDialogOk(d, maxlength)
    ensures r.Some? && r.value.Accepted? ==> |r.value.text| <= maxlength
    decreases |keys| - i
  {
    if i == |keys| then None
    else
      var (d', done) := TextDialogStep(d, keys[i], width, maxlength);
      if done then Some(if d'.selected == 0 && keys[i] != ESC then Accepted(d'.edit.text) else Cancelled)
      else RunTextDialog(keys, i + 1, d', width, maxlength)
  }

  /** The dialog as bl_tui_textbox opens it: focus on the buttons, Ok selected, empty text. */
  function InitialTextDialog(): TextDialog
  {
    TextDialog(InButtons, 0, Edit([], 0), 0)
  }

  /** ESC closes the dialog with nothing, whatever the state. */
  lemma EscapeCancels(keys: seq<int>, i: nat, d: TextDialog, width: int, maxlength: int)
    requires i < |keys| && keys[i] == ESC && TextDialogOk(d, maxlength)
    ensures RunTextDialog(keys, i, d, width, maxlength) == Some(Cancelled)
  {
  }

  /** Enter closes the dialog: the text when Ok is selected, nothing when Cancel is, in either focus. */
  lemma EnterAnswersSelectedButton(keys: seq<int>, i: nat, d: TextDialog, width: int, maxlength: int)
    requires i < |keys| && keys[i] == NEWLINE && TextDialogOk(d, maxlength)
    ensures RunTextDialog(keys, i, d, width, maxlength) == Some(if d.selected == 0 then Accepted(d.edit.text) else Cancelled)
  {
  }

  /** Tab moves to Cancel, so Tab then Enter on a fresh dialog returns nothing. */
  lemma TabThenEnterCancels(width: int, maxlength: int)
    requires 0 <= maxlength
    ensures RunTextDialog([TAB, NEWLINE], 0, InitialTextDialog(), width, maxlength) == Some(Cancelled)
  {
    var d := TextDialog(InButtons, 1, Edit([], 0), 0);
    assert TextDialogStep(InitialTextDialog(), TAB, width, maxlength) == (d, false);
    EnterAnswersSelectedButton([TAB, NEWLINE], 1, d, width, maxlength);
  }

  /** Typing printable characters into the empty box and pressing Enter twice returns them, up to maxlength. */
  lemma TypedTextAccepted(s: string, maxlength: int)
    requires |s| <= maxlength && forall j :: 0 <= j < |s| ==> IsPrint(s[j] as int)
    ensures RunTextDialog([KEY_DOWN] + seq(|s|, j requires 0 <= j < |s| => s[j] as int) + [NEWLINE], 0,
                          InitialTextDialog(), maxlength + 1, maxlength) == Some(Accepted(s))
  {
    var codes := seq(|s|, j requires 0 <= j < |s| => s[j] as int);
    var keys := [KEY_DOWN] + codes + [NEWLINE];
    var d0 := TextDialog(InText, 0, Edit([], 0), 0);
    assert TextDialogStep(InitialTextDialog(), KEY_DOWN, maxlength + 1, maxlength) == (d0, false);
    TypingAppends(keys, 1, s, 0, maxlength);
  }

  lemma {:induction false} TypingAppends(keys: seq<int>, i: nat, s: string, k: nat, maxlength: int)
    requires |s| <= maxlength && forall j :: 0 <= j < |s| ==> IsPrint(s[j] as int)
    requires k <= |s| && i + |s| - k < |keys| && keys[i + |s| - k] == NEWLINE
    requires forall j :: k <= j < |s| ==> keys[i + j - k] == s[j] as int
    ensures RunTextDialog(keys, i, TextDialog(InText, 0, Edit(s[..k], k), 0), maxlength + 1, maxlength) == Some(Accepted(s))
    decreases |s| - k
  {
    var d := TextDialog(InText, 0, Edit(s[..k], k), 0);
    if k == |s| {
      assert s[..k] == s;
    } else {
      assert keys[i] == s[k] as int;
      assert s[..k] + [s[k]] + s[..k][k..] == s[..k + 1];
      assert EditKey(d.edit, keys[i], maxlength) == Edit(s[..k + 1], k + 1);
      TypingAppends(keys, i + 1, s, k + 1, maxlength);
    }
  }

  /** bl_tui_textbox on a key sequence; width is the visible width used for scrolling. */
  method TextBoxDialog(keys: seq<int>, width: int, maxlength: int) returns (r: Option<TextResult>)
    requires 0 <= maxlength
    ensures r == RunTextDialog(keys, 0, InitialTextDialog(), width, maxlength)
  {
    var tb := new TextBox(maxlength);
    var inText := false;
    var selected := 0;
    var i := 0;
    while i < |keys|
      invariant 0 <= i <= |keys| && 0 <= selected < 2
      invariant tb.Valid() && tb.maxlength == maxlength
      invariant RunTextDialog(keys, i, TextDialog(if inText then InText else InButtons, selected, Edit(tb.text, tb.pos), tb.scroll), width, maxlength)
                == RunTextDialog(keys, 0, InitialTextDialog(), width, maxlength)
    {
      var ch := keys[i];
      i := i + 1;
      var done := false;
      if !inText {
        if ch == NEWLINE {
          done := true;
        } else if ch == ESC {
          selected := 1;
          done := true;
        } else if ch == TAB || ch == KEY_RIGHT {
          selected := (selected + 1) % 2;
        } else if ch == KEY_BTAB || ch == KEY_LEFT {
          selected := (selected + 2 - 1) % 2;
        } else if ch == KEY_UP || ch == KEY_DOWN {
          inText := true;
        }
      } else {
        if ch == NEWLINE {
          done := true;
          tb.Rescroll(width);
        } else if ch == ESC {
          selected := 1;
          done := true;
          tb.Rescroll(width);
        } else if ch == KEY_UP || ch == KEY_DOWN {
          inText := false;
          tb.Rescroll(width);
        } else {
          tb.Key(ch, width);
        }
      }
      if done {
        return Some(if selected == 0 && ch != ESC then Accepted(tb.text) else Cancelled);
      }
    }
    return None;
  }

  // ---------------------------------------------------------------------
  // Select boxes (src/bl_tui.c:392-551)
  // ---------------------------------------------------------------------

  /** select_box_t with the item labels; the items' data pointers are not modelled. */
  datatype SelectBox = SelectBox(title: string, n: int, selected: int, width: int, popupWidth: int, items: seq<string>)

  /** bl_tui_select_box_create: the first item selected. */
  function CreateSelectBox(title: string, items: seq<string>, n: int, width: int, popupWidth: int): (sb: SelectBox)
    ensures sb.selected == 0 && sb.n == n && sb.items == items && sb.width == width && sb.popupWidth == popupWidth
  {
    SelectBox(title, n, 0, width, popupWidth, items)
  }

  /**
   * bl_tui_select_box_draw: the label of the selected item cut to width
   * characters, or None for the abort on an index at or past n.
   */
  function DrawLabel(sb: SelectBox): (r: Option<string>)
    requires |sb.items| == sb.n && 0 <= sb.selected && 0 <= sb.width
    ensures r.None? <==> sb.selected >= sb.n
    ensures r.Some? ==> |r.value| <= sb.width && r.value <= sb.items[sb.selected]
    ensures r.Some? && |sb.items[sb.selected]| <= sb.width ==> r.value == sb.items[sb.selected]
    ensures r.Some? ==> |r.value| == Min(|sb.items[sb.selected]|, sb.width)
  {
    if sb.selected < sb.n then
      var caption := sb.items[sb.selected];
      Some(if |caption| <= sb.width then caption else caption[..sb.width])
    else
      None
  }

  /** cursor_i, item_start and item_end (exclusive) of the popup list. */
  datatype Window = Window(cursor: int, start: int, end: int)

  /** The list window's invariant: the cursor is a shown item and at most k items are shown. */
  predicate WindowOk(w: Window, n: int, k: int)
  {
    0 <= w.start <= w.cursor < w.end <= n && w.end - w.start <= k
  }

  function Min(a: int, b: int): int { if a < b then a else b }
  function Max(a: int, b: int): int { if a < b then b else a }

  /** The number of list rows of the popup: h - 2 with h = maxy / 2 - 3. */
  function ListRows(maxy: int): int { (maxy / 2 - 3) - 2 }

  /** A terminal of at least 24 rows, which bl_tui_init demands, shows at least 7 items. */
  lemma ListRowsOnMinimalTerminal(maxy: int)
    requires maxy >= 24
    ensures ListRows(maxy) >= 7
  {
  }

  function InitialWindow(selected: int, n: int, k: int): (w: Window)
    requires 0 <= selected < n && 1 <= k
    ensures WindowOk(w, n, k) && w.cursor == selected && w.start == selected
  {
    Window(selected, selected, if n > selected + k then selected + k else n)
  }

  /** Up, Down, PgUp and PgDn on the list window; every move keeps the invariant. */
  function MoveWindow(w: Window, ch: int, n: int, k: int): (w': Window)
    requires WindowOk(w, n, k) && 1 <= k
    ensures WindowOk(w', n, k)
    ensures ch == KEY_UP ==> w'.cursor == Max(w.cursor - 1, 0)
    ensures ch == KEY_DOWN ==> w'.cursor == Min(w.cursor + 1, n - 1)
    ensures ch == KEY_NPAGE ==> w'.cursor == Min(w.cursor + k, n - 1)
    ensures ch == KEY_PPAGE ==> w'.cursor == Max(w.cursor - k, 0)
    ensures ch != KEY_UP && ch != KEY_DOWN && ch != KEY_NPAGE && ch != KEY_PPAGE ==> w' == w
  {
    if ch == KEY_UP && w.cursor > 0 then
      if w.cursor - 1 < w.start then Window(w.cursor - 1, w.start - 1, w.end - 1)
      else w.(cursor := w.cursor - 1)
    else if ch == KEY_DOWN && w.cursor < n - 1 then
      if w.cursor + 1 >= w.end then Window(w.cursor + 1, w.start + 1, w.end + 1)
      else w.(cursor := w.cursor + 1)
    else if ch == KEY_NPAGE && w.cursor < n - 1 then
      var start := Max(0, Min(w.start + k, n - k));
      Window(Min(w.cursor + k, n - 1), start, Min(start + k, n))
    else if ch == KEY_PPAGE && w.cursor > 0 then
      var start := Max(w.start - k, 0);
      Window(Max(w.cursor - k, 0), start, Min(start + k, n))
    else
      w
  }

  /**
   * The popup loop from key i: a key equal to the previous one is ignored,
   * ESC cancels and Enter chooses the cursor's item. The result is the
   * chosen index or None for ESC, inside Some when the loop ended.
   */
  function RunSelect(keys: seq<int>, i: nat, lastCh: int, w: Window, n: int, k: int): (r: Option<Option<int>>)
    requires i <= |keys| && WindowOk(w, n, k) && 1 <= k
    ensures r.Some? && r.value.Some? ==> 0 <= r.value.value < n
    decreases |keys| - i
  {
    if i == |keys| then None
    else
      var ch := keys[i];
      if ch == lastCh then RunSelect(keys, i + 1, lastCh, w, n, k)
      else if ch == ESC then Some(None)
      else if ch == NEWLINE then Some(Some(w.cursor))
      else RunSelect(keys, i + 1, ch, MoveWindow(w, ch, n, k), n, k)
  }

  /**
   * The item a key moves the cursor to, without the scrolling window: one
   * up or down, or a page of k up or down, clamped to the list.
   */
  function CursorStep(c: int, ch: int, n: int, k: int): (c': int)
    requires 0 <= c < n && 1 <= k
    ensures 0 <= c' < n
    ensures -k <= c' - c <= k
  {
    if ch == KEY_UP then Max(c - 1, 0)
    else if ch == KEY_DOWN then Min(c + 1, n - 1)
    else if ch == KEY_NPAGE then Min(c + k, n - 1)
    else if ch == KEY_PPAGE then Max(c - k, 0)
    else c
  }

  /**
   * The choice the popup makes, computed on the cursor alone: repeats are
   * dropped, ESC gives Some(None) and Enter the cursor's item.
   */
  function CursorRun(keys: seq<int>, i: nat, lastCh: int, c: int, n: int, k: int): (r: Option<Option<int>>)
    requires i <= |keys| && 0 <= c < n && 1 <= k
    ensures r.Some? && r.value.Some? ==> 0 <= r.value.value < n
    decreases |keys| - i
  {
    if i == |keys| then None
    else
      var ch := keys[i];
      if ch == lastCh then CursorRun(keys, i + 1, lastCh, c, n, k)
      else if ch == ESC then Some(None)
      else if ch == NEWLINE then Some(Some(c))
      else CursorRun(keys, i + 1, ch, CursorStep(c, ch, n, k), n, k)
  }

  /** The scrolling window never changes the choice: the popup chooses what the cursor alone chooses. */
  lemma {:induction false} WindowKeepsChoice(keys: seq<int>, i: nat, lastCh: int, w: Window, n: int, k: int)
    requires i <= |keys| && WindowOk(w, n, k) && 1 <= k
    ensures RunSelect(keys, i, lastCh, w, n, k) == CursorRun(keys, i, lastCh, w.cursor, n, k)
    decreases |keys| - i
  {
    if i < |keys| {
      var ch := keys[i];
      if ch == lastCh {
        WindowKeepsChoice(keys, i + 1, lastCh, w, n, k);
      } else if ch != ESC && ch != NEWLINE {
        var w' := MoveWindow(w, ch, n, k);
        assert w'.cursor == CursorStep(w.cursor, ch, n, k);
        WindowKeepsChoice(keys, i + 1, ch, w', n, k);
      }
    }
  }

  /** ESC cancels and Enter chooses the cursor's item, unless the key repeats the previous one. */
  lemma EscapeAndEnter(keys: seq<int>, i: nat, lastCh: int, c: int, n: int, k: int)
    requires i < |keys| && keys[i] != lastCh && 0 <= c < n && 1 <= k
    ensures keys[i] == ESC ==> CursorRun(keys, i, lastCh, c, n, k) == Some(None)
    ensures keys[i] == NEWLINE ==> CursorRun(keys, i, lastCh, c, n, k) == Some(Some(c))
  {
  }

  /**
   * What bl_tui_select_box does to the box: TRUE with the chosen index
   * selected, or FALSE with the original selection.
   */
  function SelectOutcome(sb: SelectBox, keys: seq<int>, maxy: int): (r: Option<(SelectBox, bool)>)
    requires 0 <= sb.selected < sb.n && 1 <= ListRows(maxy)
    ensures r.Some? && !r.value.1 ==> r.value.0 == sb
    ensures r.Some? && r.value.1 ==> r.value.0 == sb.(selected := r.value.0.selected) && 0 <= r.value.0.selected < sb.n
    ensures |keys| == 0 ==> r.None?
    ensures |keys| > 0 ==> (r.None? <==> CursorRun(keys, 1, keys[0], sb.selected, sb.n, ListRows(maxy)).None?)
    ensures |keys| > 0 && r.Some? ==> (r.value.1 <==> CursorRun(keys, 1, keys[0], sb.selected, sb.n, ListRows(maxy)).value.Some?)
    ensures |keys| > 0 && r.Some? && r.value.1 ==>
              r.value.0.selected == CursorRun(keys, 1, keys[0], sb.selected, sb.n, ListRows(maxy)).value.value
  {
    if |keys| == 0 then None
    else
      WindowKeepsChoice(keys, 1, keys[0], InitialWindow(sb.selected, sb.n, ListRows(maxy)), sb.n, ListRows(maxy));
      match RunSelect(keys, 1, keys[0], InitialWindow(sb.selected, sb.n, ListRows(maxy)), sb.n, ListRows(maxy))
      case None => None
      case Some(None) => Some((sb, false))
      case Some(Some(c)) => Some((sb.(selected := c), true))
  }

  /** A key repeated straight after itself has no effect, whatever key was read before it. */
  lemma RepeatedKeyIgnored(keys: seq<int>, i: nat, lastCh: int, w: Window, n: int, k: int)
    requires i + 1 < |keys| && keys[i] == keys[i + 1] && WindowOk(w, n, k) && 1 <= k
    requires keys[i] != ESC && keys[i] != NEWLINE
    ensures RunSelect(keys, i, lastCh, w, n, k) == RunSelect(keys[..i + 1] + keys[i + 2..], i, lastCh, w, n, k)
  {
    var keys' := keys[..i + 1] + keys[i + 2..];
    var w' := MoveWindow(w, keys[i], n, k);
    if keys[i] == lastCh {
      RepeatShift(keys, i, lastCh, w, n, k);
    } else {
      assert keys'[i] == keys[i];
      assert RunSelect(keys, i, lastCh, w, n, k) == RunSelect(keys, i + 1, keys[i], w', n, k);
      assert RunSelect(keys', i, lastCh, w, n, k) == RunSelect(keys', i + 1, keys[i], w', n, k);
      assert RunSelect(keys, i + 1, keys[i], w', n, k) == RunSelect(keys, i + 2, keys[i], w', n, k);
      SuffixSelect(keys, keys', i + 2, i + 1, keys[i], w', n, k);
    }
  }

  lemma RepeatShift(keys: seq<int>, i: nat, lastCh: int, w: Window, n: int, k: int)
    requires i + 1 < |keys| && keys[i] == keys[i + 1] == lastCh && WindowOk(w, n, k) && 1 <= k
    ensures RunSelect(keys, i, lastCh, w, n, k) == RunSelect(keys[..i + 1] + keys[i + 2..], i, lastCh, w, n, k)
  {
    var keys' := keys[..i + 1] + keys[i + 2..];
    assert keys'[i] == keys[i];
    SuffixSelect(keys, keys', i + 2, i + 1, lastCh, w, n, k);
  }

  /** RunSelect only depends on the keys that remain. */
  lemma {:induction false} SuffixSelect(a: seq<int>, b: seq<int>, i: nat, j: nat, lastCh: int, w: Window, n: int, k: int)
    requires i <= |a| && j <= |b| && a[i..] == b[j..] && WindowOk(w, n, k) && 1 <= k
    ensures RunSelect(a, i, lastCh, w, n, k) == RunSelect(b, j, lastCh, w, n, k)
    decreases |a| - i
  {
    if i < |a| {
      assert a[i] == a[i..][0] == b[j..][0] == b[j];
      assert a[i + 1..] == a[i..][1..] == b[j..][1..] == b[j + 1..];
      var ch := a[i];
      if ch == lastCh {
        SuffixSelect(a, b, i + 1, j + 1, lastCh, w, n, k);
      } else if ch != ESC && ch != NEWLINE {
        SuffixSelect(a, b, i + 1, j + 1, ch, MoveWindow(w, ch, n, k), n, k);
      }
    } else {
      assert |b| == j;
    }
  }

  /** The cursor and window updates of the popup loop for one key. */
  method MoveList(cursor: int, start: int, end: int, ch: int, n: int, k: int) returns (cursor': int, start': int, end': int)
    requires WindowOk(Window(cursor, start, end), n, k) && 1 <= k
    ensures Window(cursor', start', end') == MoveWindow(Window(cursor, start, end), ch, n, k)
  {
    cursor', start', end' := cursor, start, end;
    if ch == KEY_UP && cursor' > 0 {
      cursor' := cursor' - 1;
      if cursor' < start' {
        start' := start' - 1;
        end' := end' - 1;
      }
    } else if ch == KEY_DOWN && cursor' < n - 1 {
      cursor' := cursor' + 1;
      if cursor' >= end' {
        start' := start' + 1;
        end' := end' + 1;
      }
    } else if ch == KEY_NPAGE && cursor' < n - 1 {
      cursor' := Min(cursor' + k, n - 1);
      start' := Max(0, Min(start' + k, n - k));
      end' := Min(start' + k, n);
    } else if ch == KEY_PPAGE && cursor' > 0 {
      cursor' := Max(cursor' - k, 0);
      start' := Max(start' - k, 0);
      end' := Min(start' + k, n);
    }
  }

  /** bl_tui_select_box on a key sequence, maxy being the terminal height. */
  method SelectDialog(sb: SelectBox, keys: seq<int>, maxy: int) returns (r: Option<(SelectBox, bool)>)
    requires 0 <= sb.selected < sb.n && 1 <= ListRows(maxy)
    ensures r == SelectOutcome(sb, keys, maxy)
  {
    var k := ListRows(maxy);
    var n := sb.n;
    var cursor := sb.selected;
    var start := sb.selected;
    var end := if n > start + k then start + k else n;
    if |keys| == 0 {
      return None;
    }
    var lastCh := keys[0];
    var i := 1;
    while i < |keys|
      invariant 1 <= i <= |keys| && WindowOk(Window(cursor, start, end), n, k)
      invariant RunSelect(keys, i, lastCh, Window(cursor, start, end), n, k)
                == RunSelect(keys, 1, keys[0], InitialWindow(sb.selected, n, k), n, k)
    {
      var ch := keys[i];
      i := i + 1;
      if ch != lastCh {
        if ch == ESC {
          return Some((sb, false));
        } else if ch == NEWLINE {
          return Some((sb.(selected := cursor), true));
        } else {
          cursor, start, end := MoveList(cursor, start, end, ch, n, k);
        }
        lastCh := ch;
      }
    }
    return None;
  }
}

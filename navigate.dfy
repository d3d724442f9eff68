/**
 * bl_layout_navigate_matrix: the editor loop over the keyboard matrix
 * (src/bl_ui_layout.c:407-496 and its older copy src/configure_layout.c:366-443).
 * Each pass takes the key position the controller reports, if any, then
 * one terminal key; the keys move the cursor over the grid, open the
 * cell's select box and commit its choice, load a layout from a file,
 * switch the shown layer or change the number of layers.
 */
module Navigation {
  import opened Common
  import opened LayoutCodec
  import opened LayoutUi
  import Tui
  import Usb

  const SELECT_BOX_WIDTH: int := 8
  const CARRIAGE_RETURN: int := 13

  /** The popup width bl_layout_init_matrix gives the cell boxes: 0 in the current editor, 2 * 8 in the older one. */
  function PopupWidth(v: Variant): int
  {
    if v == Current then 0 else 2 * SELECT_BOX_WIDTH
  }

  /** The select box of a cell: the shared catalog with the cell's own selected index. */
  function CellBox(v: Variant, items: seq<Item>, s: int): (sb: Tui.SelectBox)
    ensures sb.n == |items| && sb.selected == s && sb.items == Captions(items)
  {
    Tui.CreateSelectBox("", Captions(items), |items|, SELECT_BOX_WIDTH, PopupWidth(v)).(selected := s)
  }

  /** The box bl_ui_do_layer_menu opens (src/bl_ui.c:140-157). */
  function LayerMenu(): (sb: Tui.SelectBox)
    ensures sb.n == 2 && sb.selected == 0
  {
    Tui.CreateSelectBox("", ["Show layers", "Number of layers"], 2, 8, 0)
  }

  /** The loop's variables: the layout, the cell boxes, the shown layer and the cursor. */
  datatype NavState = NavState(layout: Layout, sel: Grid, layer: int, row: int, col: int)

  predicate ItemsOk(items: seq<Item>)
  {
    0 < |items| && CodesOk(items)
  }

  /** The loop invariant: a valid layout, boxes that agree with their cells, a cursor on the grid. */
  ghost predicate NavOk(st: NavState, items: seq<Item>)
  {
    Valid(st.layout) && IsSelection(st.sel, |items|) && InGrid(st.layer, st.row, st.col)
    && Agrees(st.layout.matrix, st.sel, items)
  }

  /**
   * What one pass of the loop reads: the position bl_usb_read_matrix_pos
   * reports (see Usb.MatrixPosReader.Read), the key, and the answers the
   * dialogs that key opens would get: the keys of the cell's select box,
   * the layout the file dialog loads, the keys of the layer menu, the
   * rounds of the layer-count prompt and whether errno holds EINVAL when
   * that prompt starts.
   */
  datatype Event = Event(report: Option<Usb.Pos>, ch: int, selectKeys: seq<int>, loaded: Option<Layout>,
                         menuKeys: seq<int>, rounds: seq<Round>, errnoEinval: bool)

  /** Reported positions lie on the grid, as bl_usb_read_matrix_pos promises, and loaded layouts are valid. */
  ghost predicate EventOk(ev: Event)
  {
    (ev.report.Some? ==> 0 <= ev.report.value.row < NUMROWS && 0 <= ev.report.value.col < NUMCOLS)
    && (ev.loaded.Some? ==> Valid(ev.loaded.value))
  }

  /** The cursor after the controller's report. */
  function Locate(st: NavState, ev: Event): NavState
  {
    if ev.report.Some? then st.(row := ev.report.value.row, col := ev.report.value.col) else st
  }

  /**
   * The arrow keys: down and up step the column, right and left the row,
   * within the grid. An arrow at an edge fails every later test of the
   * loop too, so it leaves the state as it is.
   */
  predicate IsArrow(ch: int)
  {
    ch == Tui.KEY_DOWN || ch == Tui.KEY_UP || ch == Tui.KEY_RIGHT || ch == Tui.KEY_LEFT
  }

  function Move(st: NavState, ch: int): (st': NavState)
    requires InGrid(st.layer, st.row, st.col)
    ensures InGrid(st'.layer, st'.row, st'.col)
    ensures st'.layout == st.layout && st'.sel == st.sel && st'.layer == st.layer
    ensures -1 <= st'.row - st.row <= 1 && -1 <= st'.col - st.col <= 1
  {
    if ch == Tui.KEY_DOWN && st.col < NUMCOLS - 1 then st.(col := st.col + 1)
    else if ch == Tui.KEY_UP && st.col > 0 then st.(col := st.col - 1)
    else if ch == Tui.KEY_RIGHT && st.row < NUMROWS - 1 then st.(row := st.row + 1)
    else if ch == Tui.KEY_LEFT && st.row > 0 then st.(row := st.row - 1)
    else st
  }

  /** Enter's write: the cell takes the code of the item its box now selects. */
  function Commit(st: NavState, items: seq<Item>, s: int): (st': NavState)
    requires NavOk(st, items) && CodesOk(items) && 0 <= s < |items|
    ensures NavOk(st', items)
  {
    var st' := st.(layout := st.layout.(matrix := Put(st.layout.matrix, st.layer, st.row, st.col, items[s].code)),
                   sel := PutCell(st.sel, st.layer, st.row, st.col, s));
    CommitKeepsInvariant(st, items, s, st');
    st'
  }

  lemma CommitKeepsInvariant(st: NavState, items: seq<Item>, s: int, st': NavState)
    requires NavOk(st, items) && CodesOk(items) && 0 <= s < |items|
    requires st' == st.(layout := st.layout.(matrix := Put(st.layout.matrix, st.layer, st.row, st.col, items[s].code)),
                        sel := PutCell(st.sel, st.layer, st.row, st.col, s))
    ensures NavOk(st', items)
  {
    forall l, r, c | InGrid(l, r, c)
      ensures 0 <= st'.sel[l][r][c] < |items| && Shows(items, st'.sel[l][r][c], st'.layout.matrix[l][r][c])
    {
      if (l, r, c) != (st.layer, st.row, st.col) {
        assert st'.sel[l][r][c] == st.sel[l][r][c];
      }
    }
  }

  /** Enter: the cell's select box, then the write; None while the box waits. */
  function Enter(v: Variant, st: NavState, ev: Event, items: seq<Item>, maxy: int): (r: Option<NavState>)
    requires NavOk(st, items) && ItemsOk(items) && 1 <= Tui.ListRows(maxy)
    ensures r.Some? ==> NavOk(r.value, items)
  {
    match Tui.SelectOutcome(CellBox(v, items, st.sel[st.layer][st.row][st.col]), ev.selectKeys, maxy)
    case None => None
    case Some((sb, _)) => Some(Commit(st, items, sb.selected))
  }

  /** 'o': a layout the file dialog loaded replaces the edited one, with fresh boxes. */
  function Open(st: NavState, ev: Event, items: seq<Item>): (st': NavState)
    requires NavOk(st, items) && ItemsOk(items) && EventOk(ev)
    ensures NavOk(st', items)
  {
    if ev.loaded.Some? then
      InitialSelectionAgrees(ev.loaded.value.matrix, items);
      st.(layout := ev.loaded.value, sel := InitialSelection(ev.loaded.value.matrix, items))
    else st
  }

  /** The layer-count prompt applied to the state; None while it waits. */
  function Manage(v: Variant, st: NavState, ev: Event, items: seq<Item>): (r: Option<NavState>)
    requires NavOk(st, items)
    ensures r.Some? ==> NavOk(r.value, items)
  {
    match ManageOutcome(v, st.layout.nlayers, st.layer, ev.rounds, ev.errnoEinval)
    case None => None
    case Some(m) => Some(st.(layout := st.layout.(nlayers := m.nlayers), layer := m.layer))
  }

  /**
   * 'l': the current editor asks through the layer menu first and runs
   * the prompt only for "Number of layers"; the older one runs it at once.
   * The menu's other item reaches bl_tui_err, which is not part of this
   * model; it is taken to leave the state alone.
   */
  function LayerKey(v: Variant, st: NavState, ev: Event, items: seq<Item>, maxy: int): (r: Option<NavState>)
    requires NavOk(st, items) && 1 <= Tui.ListRows(maxy)
    ensures r.Some? ==> NavOk(r.value, items)
  {
    if v == Older then Manage(v, st, ev, items)
    else match Tui.SelectOutcome(LayerMenu(), ev.menuKeys, maxy)
      case None => None
      case Some((sb, accepted)) => if accepted && sb.selected == 1 then Manage(v, st, ev, items) else Some(st)
  }

  /**
   * One key on the state the report left. Save, write and the file and
   * macro menus do not change the loop's state. None means a dialog is
   * still waiting for keys.
   */
  function KeyStep(v: Variant, st: NavState, ev: Event, items: seq<Item>, maxy: int): (r: Option<NavState>)
    requires NavOk(st, items) && ItemsOk(items) && EventOk(ev) && 1 <= Tui.ListRows(maxy)
    ensures r.Some? ==> NavOk(r.value, items)
  {
    var ch := ev.ch;
    if IsArrow(ch) then Some(Move(st, ch))
    else if ch == Tui.NEWLINE || ch == CARRIAGE_RETURN then Enter(v, st, ev, items, maxy)
    else if ch == 'o' as int || ch == 'O' as int then Some(Open(st, ev, items))
    else if ch == 'l' as int || ch == 'L' as int then LayerKey(v, st, ev, items, maxy)
    else if 1 <= ch - '0' as int <= st.layout.nlayers then Some(st.(layer := ch - '0' as int - 1))
    else Some(st)
  }

  /** One pass of the loop: the report, then the key. */
  function NavStep(v: Variant, st: NavState, ev: Event, items: seq<Item>, maxy: int): (r: Option<NavState>)
    requires NavOk(st, items) && ItemsOk(items) && EventOk(ev) && 1 <= Tui.ListRows(maxy)
    ensures r.Some? ==> NavOk(r.value, items)
  {
    KeyStep(v, Locate(st, ev), ev, items, maxy)
  }

  /** How the loop ends: with the quit key read, or waiting for more input. */
  datatype NavResult = Quit(ch: int, state: NavState) | Waiting(state: NavState)

  ghost predicate EventsOk(events: seq<Event>)
  {
    forall j :: 0 <= j < |events| ==> EventOk(events[j])
  }

  /** The loop from event i on, ch being the key read last. */
  function NavRun(v: Variant, st: NavState, ch: int, events: seq<Event>, i: nat, items: seq<Item>, maxy: int): (r: NavResult)
    requires NavOk(st, items) && ItemsOk(items) && i <= |events| && EventsOk(events) && 1 <= Tui.ListRows(maxy)
    ensures NavOk(r.state, items)
    ensures r.Quit? ==> r.ch == 'q' as int || r.ch == 'Q' as int
    decreases |events| - i
  {
    if ch == 'q' as int || ch == 'Q' as int then Quit(ch, st)
    else if i == |events| then Waiting(st)
    else match NavStep(v, st, events[i], items, maxy)
      case None => Waiting(st)
      case Some(st') => NavRun(v, st', events[i].ch, events, i + 1, items, maxy)
  }

  /** The state on entry: the caller's layout, boxes and layer, the cursor at (0, 0). */
  function Entry(layout: Layout, sel: Grid, layer: int): NavState
  {
    NavState(layout, sel, layer, 0, 0)
  }

  /**
   * bl_layout_navigate_matrix. The key read before the loop only decides
   * whether the loop runs; the result holds the last key read, which the
   * current editor returns.
   */
  method Navigate(v: Variant, layout: Layout, boxes: Grid, shown: int, first: int, events: seq<Event>, items: seq<Item>, maxy: int)
    returns (r: NavResult)
    requires ItemsOk(items) && EventsOk(events) && 1 <= Tui.ListRows(maxy)
    requires NavOk(Entry(layout, boxes, shown), items)
    ensures r == NavRun(v, Entry(layout, boxes, shown), first, events, 0, items, maxy)
  {
    var st := Entry(layout, boxes, shown);
    var ch := first;
    var i := 0;
    while ch != 'q' as int && ch != 'Q' as int
      invariant 0 <= i <= |events|
      invariant NavOk(st, items)
      invariant NavRun(v, st, ch, events, i, items, maxy) == NavRun(v, Entry(layout, boxes, shown), first, events, 0, items, maxy)
      decreases |events| - i
    {
      if i == |events| {
        return Waiting(st);
      }
      var next := Pass(v, st, events[i], items, maxy);
      ch := events[i].ch;
      i := i + 1;
      if next.None? {
        return Waiting(st);
      }
      st := next.value;
    }
    return Quit(ch, st);
  }

  /** The body of the loop: the controller's report, then one key with the dialogs it opens. */
  method Pass(v: Variant, st: NavState, ev: Event, items: seq<Item>, maxy: int) returns (r: Option<NavState>)
    requires NavOk(st, items) && ItemsOk(items) && EventOk(ev) && 1 <= Tui.ListRows(maxy)
    ensures r == NavStep(v, st, ev, items, maxy)
  {
    var row, col := st.row, st.col;
    if ev.report.Some? {
      row, col := ev.report.value.row, ev.report.value.col;
    }
    var at := st.(row := row, col := col);
    assert at == Locate(st, ev);
    var ch := ev.ch;
    if ch == Tui.KEY_DOWN && col < NUMCOLS - 1 {
      r := Some(at.(col := col + 1));
    } else if ch == Tui.KEY_UP && col > 0 {
      r := Some(at.(col := col - 1));
    } else if ch == Tui.KEY_RIGHT && row < NUMROWS - 1 {
      r := Some(at.(row := row + 1));
    } else if ch == Tui.KEY_LEFT && row > 0 {
      r := Some(at.(row := row - 1));
    } else if ch == Tui.NEWLINE || ch == CARRIAGE_RETURN {
      var outcome := Tui.SelectDialog(CellBox(v, items, at.sel[at.layer][row][col]), ev.selectKeys, maxy);
      if outcome.None? {
        return None;
      }
      r := Some(Commit(at, items, outcome.value.0.selected));
      assert r == Enter(v, at, ev, items, maxy);
    } else if ch == 'o' as int || ch == 'O' as int {
      r := Some(at);
      if ev.loaded.Some? {
        var boxes := InitMatrix(ev.loaded.value.matrix, items);
        r := Some(at.(layout := ev.loaded.value, sel := boxes));
      }
    } else if ch == 'l' as int || ch == 'L' as int {
      r := LayerDialog(v, at, ev, items, maxy);
    } else if 1 <= ch - '0' as int <= at.layout.nlayers {
      r := Some(at.(layer := ch - '0' as int - 1));
    } else {
      r := Some(at);
    }
  }

  /** 'l': the layer menu of the current editor, then the layer-count prompt. */
  method LayerDialog(v: Variant, st: NavState, ev: Event, items: seq<Item>, maxy: int) returns (r: Option<NavState>)
    requires NavOk(st, items) && 1 <= Tui.ListRows(maxy)
    ensures r == LayerKey(v, st, ev, items, maxy)
  {
    var manage := true;
    if v == Current {
      var menu := Tui.SelectDialog(LayerMenu(), ev.menuKeys, maxy);
      if menu.None? {
        return None;
      }
      manage := menu.value.1 && menu.value.0.selected == 1;
    }
    r := Some(st);
    if manage {
      var m := ManageLayers(v, st.layout.nlayers, st.layer, ev.rounds, ev.errnoEinval);
      if m.None? {
        return None;
      }
      r := Some(st.(layout := st.layout.(nlayers := m.value.nlayers), layer := m.value.layer));
    }
  }

  // ---------------------------------------------------------------------
  // Properties of one pass
  // ---------------------------------------------------------------------

  /** A reported position replaces the cursor before the key is applied; without one the key acts on the cursor as it was. */
  lemma ReportComesFirst(v: Variant, st: NavState, ev: Event, items: seq<Item>, maxy: int)
    requires NavOk(st, items) && ItemsOk(items) && EventOk(ev) && 1 <= Tui.ListRows(maxy)
    ensures ev.report.Some? ==> NavOk(st.(row := ev.report.value.row, col := ev.report.value.col), items)
    ensures ev.report.Some? ==>
              NavStep(v, st, ev, items, maxy) == KeyStep(v, st.(row := ev.report.value.row, col := ev.report.value.col), ev, items, maxy)
    ensures ev.report.None? ==> NavStep(v, st, ev, items, maxy) == KeyStep(v, st, ev, items, maxy)
  {
  }

  /** The arrow keys move the cursor by one cell and stop at the edges of the grid; nothing else changes. */
  lemma ArrowsMoveWithinGrid(v: Variant, st: NavState, ev: Event, items: seq<Item>, maxy: int)
    requires NavOk(st, items) && ItemsOk(items) && EventOk(ev) && 1 <= Tui.ListRows(maxy) && ev.report.None?
    ensures ev.ch == Tui.KEY_DOWN ==> NavStep(v, st, ev, items, maxy) == Some(st.(col := if st.col < NUMCOLS - 1 then st.col + 1 else st.col))
    ensures ev.ch == Tui.KEY_UP ==> NavStep(v, st, ev, items, maxy) == Some(st.(col := if st.col > 0 then st.col - 1 else st.col))
    ensures ev.ch == Tui.KEY_RIGHT ==> NavStep(v, st, ev, items, maxy) == Some(st.(row := if st.row < NUMROWS - 1 then st.row + 1 else st.row))
    ensures ev.ch == Tui.KEY_LEFT ==> NavStep(v, st, ev, items, maxy) == Some(st.(row := if st.row > 0 then st.row - 1 else st.row))
  {
  }

  /**
   * Enter writes the code of the item the cell's box ends on into that
   * cell and nowhere else; a cancelled box writes the code of the item it
   * selected before.
   */
  lemma EnterCommitsOneCell(v: Variant, st: NavState, ev: Event, items: seq<Item>, maxy: int, sb: Tui.SelectBox, accepted: bool)
    requires NavOk(st, items) && ItemsOk(items) && EventOk(ev) && 1 <= Tui.ListRows(maxy) && ev.report.None?
    requires ev.ch == Tui.NEWLINE || ev.ch == CARRIAGE_RETURN
    requires Tui.SelectOutcome(CellBox(v, items, st.sel[st.layer][st.row][st.col]), ev.selectKeys, maxy) == Some((sb, accepted))
    ensures NavStep(v, st, ev, items, maxy).Some?
    ensures var st' := NavStep(v, st, ev, items, maxy).value;
      0 <= sb.selected < |items|
      && st'.layout.matrix[st.layer][st.row][st.col] == items[sb.selected].code
      && (!accepted ==> sb.selected == st.sel[st.layer][st.row][st.col])
      && st'.layout.nlayers == st.layout.nlayers
      && (st'.layer, st'.row, st'.col) == (st.layer, st.row, st.col)
      && forall l, r, c :: InGrid(l, r, c) && (l, r, c) != (st.layer, st.row, st.col) ==>
           st'.layout.matrix[l][r][c] == st.layout.matrix[l][r][c]
  {
  }

  /**
   * Opening a cell whose code the catalog lacks and cancelling its box
   * still writes: the box shows the default "--" entry, so the cell is
   * cleared to 0.
   */
  lemma CancelClearsUnknownCode(v: Variant, st: NavState, ev: Event, items: seq<Item>, mapping: seq<KeyMapping>, maxy: int, sb: Tui.SelectBox)
    requires NavOk(st, items) && ItemsOk(items) && EventOk(ev) && 1 <= Tui.ListRows(maxy) && ev.report.None?
    requires IsCatalog(items, mapping) && ev.ch == Tui.NEWLINE
    requires forall j :: 0 <= j < |items| ==> items[j].code != st.layout.matrix[st.layer][st.row][st.col]
    requires Tui.SelectOutcome(CellBox(v, items, st.sel[st.layer][st.row][st.col]), ev.selectKeys, maxy) == Some((sb, false))
    ensures NavStep(v, st, ev, items, maxy).Some?
    ensures NavStep(v, st, ev, items, maxy).value.layout.matrix[st.layer][st.row][st.col] == 0
  {
    assert InGrid(st.layer, st.row, st.col);
    assert Shows(items, st.sel[st.layer][st.row][st.col], st.layout.matrix[st.layer][st.row][st.col]);
    EnterCommitsOneCell(v, st, ev, items, maxy, sb, false);
  }

  /** A digit d with 1 <= d <= nlayers shows layer d - 1; a larger digit does nothing. */
  lemma DigitSelectsLayer(v: Variant, st: NavState, ev: Event, items: seq<Item>, maxy: int, d: int)
    requires NavOk(st, items) && ItemsOk(items) && EventOk(ev) && 1 <= Tui.ListRows(maxy) && ev.report.None?
    requires 1 <= d <= 9 && ev.ch == '0' as int + d
    ensures d <= st.layout.nlayers ==> NavStep(v, st, ev, items, maxy) == Some(st.(layer := d - 1))
    ensures d > st.layout.nlayers ==> NavStep(v, st, ev, items, maxy) == Some(st)
  {
  }

  /** 'o' replaces the layout and rebuilds the boxes only when the file loaded. */
  lemma OpenReplacesOnlyOnLoad(v: Variant, st: NavState, ev: Event, items: seq<Item>, maxy: int)
    requires NavOk(st, items) && ItemsOk(items) && EventOk(ev) && 1 <= Tui.ListRows(maxy) && ev.report.None?
    requires ev.ch == 'o' as int || ev.ch == 'O' as int
    ensures ev.loaded.None? ==> NavStep(v, st, ev, items, maxy) == Some(st)
    ensures ev.loaded.Some? ==>
              NavStep(v, st, ev, items, maxy) == Some(st.(layout := ev.loaded.value, sel := InitialSelection(ev.loaded.value.matrix, items)))
  {
  }

  /** Save, write, the file and macro menus and the quit keys leave the loop's state alone. */
  lemma OtherKeysKeepState(v: Variant, st: NavState, ev: Event, items: seq<Item>, maxy: int)
    requires NavOk(st, items) && ItemsOk(items) && EventOk(ev) && 1 <= Tui.ListRows(maxy) && ev.report.None?
    requires ev.ch in ['s' as int, 'S' as int, 'w' as int, 'W' as int, 'f' as int, 'F' as int,
                       'm' as int, 'M' as int, 'q' as int, 'Q' as int, Tui.ERR]
    ensures NavStep(v, st, ev, items, maxy) == Some(st)
  {
  }

  /**
   * 'l' in the older editor runs the prompt at once and never moves the
   * shown layer; the current one runs it only for the menu's "Number of
   * layers" and keeps the shown layer below a reduced count.
   */
  lemma LayerKeyEffect(v: Variant, st: NavState, ev: Event, items: seq<Item>, maxy: int, m: Managed)
    requires NavOk(st, items) && ItemsOk(items) && EventOk(ev) && 1 <= Tui.ListRows(maxy) && ev.report.None?
    requires ev.ch == 'l' as int || ev.ch == 'L' as int
    requires ManageOutcome(v, st.layout.nlayers, st.layer, ev.rounds, ev.errnoEinval) == Some(m)
    ensures v == Older ==> NavStep(v, st, ev, items, maxy) == Some(st.(layout := st.layout.(nlayers := m.nlayers)))
    ensures v == Current && Tui.SelectOutcome(LayerMenu(), ev.menuKeys, maxy).Some? ==>
              var (sb, accepted) := Tui.SelectOutcome(LayerMenu(), ev.menuKeys, maxy).value;
              NavStep(v, st, ev, items, maxy)
                == Some(if accepted && sb.selected == 1 then st.(layout := st.layout.(nlayers := m.nlayers), layer := m.layer) else st)
    ensures v == Current && m.nlayers < st.layout.nlayers ==> m.layer < m.nlayers
  {
  }

  // ---------------------------------------------------------------------
  // Properties of the loop
  // ---------------------------------------------------------------------

  /** A quit key read before the loop ends it at once, with the caller's state. */
  lemma QuitBeforeLoop(v: Variant, st: NavState, events: seq<Event>, items: seq<Item>, maxy: int)
    requires NavOk(st, items) && ItemsOk(items) && EventsOk(events) && 1 <= Tui.ListRows(maxy)
    ensures NavRun(v, st, 'q' as int, events, 0, items, maxy) == Quit('q' as int, st)
    ensures NavRun(v, st, 'Q' as int, events, 0, items, maxy) == Quit('Q' as int, st)
  {
  }

  /**
   * A pass that reads 'q' (and whose dialogs finish) is the last one: the
   * run ends there with that pass's state, whatever events follow.
   */
  lemma QuitEndsLoop(v: Variant, st: NavState, ch: int, events: seq<Event>, items: seq<Item>, maxy: int, i: nat)
    requires NavOk(st, items) && ItemsOk(items) && EventsOk(events) && 1 <= Tui.ListRows(maxy)
    requires i < |events| && ch != 'q' as int && ch != 'Q' as int && events[i].ch in ['q' as int, 'Q' as int]
    ensures NavStep(v, st, events[i], items, maxy).Some? ==>
              NavRun(v, st, ch, events, i, items, maxy) == Quit(events[i].ch, NavStep(v, st, events[i], items, maxy).value)
    ensures NavStep(v, st, events[i], items, maxy).None? ==> NavRun(v, st, ch, events, i, items, maxy) == Waiting(st)
  {
  }

  /**
   * Reducing the count with the older editor can leave the shown layer
   * beyond the last one; the current editor moves it back.
   */
  lemma OlderLeavesStaleLayer(st: NavState, ev: Event, items: seq<Item>, maxy: int)
    requires NavOk(st, items) && ItemsOk(items) && EventOk(ev) && 1 <= Tui.ListRows(maxy) && ev.report.None?
    requires st.layout.nlayers == 6 && st.layer == 5 && ev.ch == 'l' as int && !ev.errnoEinval
    requires ev.rounds == [Round(Some(NatToDec(2)), [Tui.NEWLINE])]
    ensures NavStep(Older, st, ev, items, maxy) == Some(st.(layout := st.layout.(nlayers := 2)))
    ensures NavStep(Older, st, ev, items, maxy).value.layer >= NavStep(Older, st, ev, items, maxy).value.layout.nlayers
  {
    OlderKeepsDeletedLayer(ev.rounds);
  }
}

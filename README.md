# blusb keyboard configuration tool: a verified model of its core

blusb configures a keyboard controller for the IBM Model M. The controller
stores a key layout: up to 6 layers, each a 20 x 8 matrix of 16-bit HID
usage codes. It also stores a table of 24 macros of 8 key codes each. The
tool reads both from the controller over USB, edits them in a curses user
interface, and loads and saves them as text files.

The model covers five parts of the program:

- the layout text format: the loader `bl_layout_load_file`, the flat
  16-bit packing `bl_layout_convert`, and the writer `bl_layout_save` /
  `bl_usb_raw_print_layout`. The save-then-load round trip is proved;
- the logic around the USB transfers: layer-count validation and framing
  of layout reads and writes, the change detector of
  `bl_usb_read_matrix_pos`, the EEPROM sanity check of the macro read,
  and the debounce and PWM requests;
- the widgets of `bl_tui.c`, driven by a sequence of key codes: the
  button row, the confirm and message dialogs, the text box editor, and
  the select box with its scrolling list window;
- the layout editor, in the current version (`bl_ui_layout.c`) and the
  older copy (`configure_layout.c`): the key-code catalog and its lookup,
  the per-cell select boxes, `bl_layout_read`, the layer-count prompt, and
  the navigation loop;
- the macro file parser `bl_macro_parse`.

Each loop in the source that updates variables step by step is a Dafny
`method` with a `while` or `for` loop. It is proved equal to a recursive
specification function, and the properties are lemmas about that
function. The search loop of `bl_layout_get_selected_item` is a pure
search. It is the recursive function `LayoutUi.FindCode`, which the
function `LayoutUi.GetSelectedItem` calls. The static state of
`bl_usb_read_matrix_pos` and the text box's edit buffer are classes with
mutable fields. The uint16_t buffer of `bl_layout_convert` and the byte
buffers of the USB layout read and write are arrays local to the methods
`LayoutCodec.Convert`, `Usb.ReadLayout` and `Usb.WriteLayout`, which fill
them in loops. Everything else is values.

Files:

- `common.dfy`: constants, `Option`, the macro table, 8- and 16-bit
  ranges, decimal text.
- `layout.dfy` and `layout_props.dfy`: the layout codec and its
  properties.
- `usb.dfy`: the USB transfers.
- `tui.dfy`: the widgets.
- `layout_ui.dfy`: the catalog, the boxes, the read, the layer prompt.
- `navigate.dfy`: the navigation loop.
- `macro.dfy` and `macro_props.dfy`: the macro parser and its properties.

Input and output are parameters.

- A file is its contents as a `string`.
- A USB transfer's answer is a sequence of bytes; a request is the bytes
  that would be sent.
- Terminal input is a sequence of `getch` codes.
- Memory that `malloc` leaves uninitialised is an `initial` argument.

The constants are NUMROWS = 20, NUMCOLS = 8, NUMLAYERS_MAX = 6,
NUMKEYS = 160, NUM_MACROKEYS = 24 and LEN_MACRO = 8. They come from a
header that is not part of this model; the array sizes and byte counts in
the code fix them. Key codes are those of ncurses (KEY_DOWN = 258 and so
on) and of ASCII.

## Model

| member | source | states |
|---|---|---|
| LayoutCodec.FlatIndexInverse | src/layout.c:62-65 | the flat index l*160 + r*8 + c determines layer, row and column back, and lies in layer l's block of 160 |
| LayoutCodec.FlatIndexInjective | src/layout.c:62-65 | two cells of the grid with the same flat index are the same cell |
| LayoutCodec.Flatten | src/layout.c:57-67 | the flat form has nlayers*160 words; word k is the cell that LayerOf/RowOf/ColOf(k) names |
| LayoutCodec.FlattenAt | src/layout.c:62-65 | cell (l, r, c) of a saved layer sits at flat index l*160 + r*8 + c |
| LayoutCodec.Convert | src/layout.c:55-71 | the array has 1 + nlayers*160 words, its first nlayers*160 words are the flat form, and the count written to word 0 survives only when nlayers is 0 |
| LayoutCodec.Put | src/layout.c:143-144 | storing a key changes that cell and no other |
| LayoutCodec.RawPrint | src/usb.c:264-278 | the text written is the decimal "%u" value of every word of the first nlayers layers, ", " after each, "\n" after the last of a layer |
| LayoutCodec.RawTextStep | src/usb.c:266-276 | each word adds its decimal text and its separator |
| LayoutCodec.SeparatorAt | src/usb.c:270-274 | a newline follows only the last cell of a layer, ", " every other |
| LayoutCodec.Save | src/layout.c:259-270 | -1 and nothing written when the file does not open; otherwise 0 and the raw text of the converted layout |
| LayoutCodec.DigitStep | src/layout.c:131-175 | one character in the digit state keeps the scanner's invariant |
| LayoutCodec.Finish | src/layout.c:193-207 | at the end of the file the result is valid and has as many layers as lines were closed |
| LayoutCodec.LoadFile | src/layout.c:97-208 | the loop computes the specification Load, and a result is a valid layout of at most 6 layers |
| LayoutCodec.RunFrom | src/layout.c:127-208 | the loader run from any character in any scanner state yields, if anything, a valid layout of at most 6 layers |
| LayoutCodec.Load | src/layout.c:97-208 | loading a file's text from the start state yields, if anything, a valid layout |
| LayoutProperties.PosAdvance | src/layout.c:143-151 | the next flat index is the next column, the next row after the last column, or the next layer after the last row |
| LayoutProperties.DigitsAccumulate | src/layout.c:131-141 | digits are appended to parse_buffer one at a time while it has room |
| LayoutProperties.ReadNumber | src/layout.c:176-182 | a digit in the whitespace state switches state without being consumed, and the whole number ends up in the buffer |
| LayoutProperties.CommaStoresKey | src/layout.c:142-152 | a number followed by ',' is stored truncated to 16 bits at [layer][row][col] and col advances, wrapping to column 0 of the next row; an out-of-range store fails |
| LayoutProperties.NewlineClosesLayer | src/layout.c:153-169 | a number followed by a line end is stored; the load fails unless it was the layer's last key, otherwise layer advances and row and col restart at 0 |
| LayoutProperties.PendingKeyStoredAtEof | src/layout.c:193-203 | digits that run to the end of the file are stored, nlayers is the number of closed lines, and the load fails exactly when row lies strictly between 0 and 19 or col strictly between 0 and 7 |
| LayoutProperties.UnterminatedLineUncounted | src/layout.c:193-207 | a file holding one value and no newline loads as a layout of 0 layers with that value stored, since the end-of-file test only rejects a row or column strictly inside its range |
| LayoutProperties.TwentyDigitsOverflow | src/layout.c:132-136 | 20 digits in a row overflow parse_buffer and fail the load |
| LayoutProperties.LongRunFrom | src/layout.c:127-141 | from any state, a run of 20 digits after a non-digit fails the load |
| LayoutProperties.LongNumberRejected | src/layout.c:127-141 | a number of 20 or more digits anywhere in the file fails the load |
| LayoutProperties.StrayCharacterRejected | src/layout.c:176-187 | in the whitespace state a character other than a blank or a digit fails the load |
| LayoutProperties.Overlay | src/layout.c:122 | layers below n come from the saved layout, the others from the allocation |
| LayoutProperties.FilledCell | src/layout.c:142-169 | after k stores in flat order, cells below flat index k hold the saved values and the others what the allocation held |
| LayoutProperties.FilledCellStep | src/layout.c:143-144 | the k-th store changes only the cell at flat index k - 1 |
| LayoutProperties.FilledStep | src/layout.c:143-144 | the k-th store is a Put at LayerOf/RowOf/ColOf(k) |
| LayoutProperties.RawTextIsPrefix | src/usb.c:266-276 | the text of the first k words is a prefix of the text of the first j >= k words |
| LayoutProperties.SavedToken | src/usb.c:266-276 | the k-th value of a saved file sits right after the text of the first k values, followed by its separator |
| LayoutProperties.SavedValue | src/layout.c:143-144 | the k-th saved value, printed and read back, is the cell it came from and has at most 19 digits |
| LayoutProperties.AfterToken | src/layout.c:142-169 | reading one value and its separator leaves the scanner in the whitespace state with its invariant |
| LayoutProperties.StepOverToken | src/layout.c:131-175 | the loader reads one saved value and its separator in one go |
| LayoutProperties.NextToken | src/usb.c:266-276 | the k-th saved value and its separator lie between SavedPos(k) and SavedPos(k + 1) |
| LayoutProperties.NextKeyState | src/layout.c:142-169 | reading the k-th value from key state k gives key state k + 1 |
| LayoutProperties.TokenStep | src/layout.c:131-175 | resuming the loader at value k or at value k + 1 of a saved file gives the same result |
| LayoutProperties.ResumeChain | src/layout.c:131-175 | resuming at the first value gives the same result as resuming at the end of the file |
| LayoutProperties.FilledLayers | src/layout.c:142-169 | after n whole layers of stores the matrix is the saved layers over the allocation |
| LayoutProperties.EndIsFinished | src/layout.c:193-207 | at the end of a file of n whole layers the loader returns n layers |
| LayoutProperties.LoadSaveRoundTrip | src/layout.c:259-270 | loading the saved text gives the same nlayers and the same cells in every saved layer; layers above keep what the allocation held |
| LayoutProperties.SavedLayoutReloads | src/layout.c:97-208 | a saved layout always reloads, with the same count and the same cells below it |
| LayoutProperties.CommasClosedForm | src/layout.c:142-152 | as written, n commas from the start of a layer put the cursor at row n / 8, column n % 8, with no bound on the row |
| LayoutProperties.OverlongLineAcceptedAsWritten | src/layout.c:146-162 | as written, a line of 168 values passes the newline test; values 161 to 168 land in the next layer, or past the matrix on the sixth line |
| LayoutProperties.NextAsWritten | src/layout.c:146-151 | as written, a ',' keeps the layer, moves to the next column, or to column 0 of the next row after the last column, with no bound on the row |
| LayoutProperties.DigitStepAsWritten | src/layout.c:131-175 | as written, a value ended by ',' or an accepted line end adds exactly the word at the cursor's flat offset to memory, whatever the row or layer; an overlong number, a rejected line end or another character fails |
| LayoutProperties.FinishAsWritten | src/layout.c:193-207 | as written, a successful end of file reports as many layers as line ends closed |
| LayoutProperties.RunAsWritten | src/layout.c:127-208 | the loader as written, run from any state, only adds words to memory and never takes any away |
| LayoutProperties.CommaTokenAsWritten | src/layout.c:142-152 | as written, a one-digit value and ',' are stored at the cursor's flat offset and the cursor moves on |
| LayoutProperties.CharKey | src/layout.c:143 | atoi of a one-digit parse buffer is that digit's value |
| LayoutProperties.LineCellsAt | src/layout.c:142-152 | after k values of a line from word base, word base + t holds value t for every t < k |
| LayoutProperties.LineTokensAsWritten | src/layout.c:127-175 | as written, k one-digit values each followed by ',' from the start of a line leave the cursor at row k / 8, column k % 8 and memory with those k words stored in a row |
| LayoutProperties.NewlineTokenAsWritten | src/layout.c:153-169 | as written, a one-digit value then a line end that passes the newline test stores the value and moves to row 0, column 0 of the next layer |
| LayoutProperties.OverlongLineLoadsAsWritten | src/layout.c:127-175 | as written, a line of 168 values then a line end loads through to the next line, one layer on, and values 161 to 168 are the words of row 0 of the next layer; on the sixth line those words lie at offset 960 and up, past the matrix |
| LayoutProperties.OverflowRejected | src/layout.c:142-195 | corrected: once row or layer has run past the matrix, the next value fails the load |
| Usb.LeBytes | src/usb.c:249 | a word array's bytes on a little-endian host: low byte, then high byte |
| Usb.LeWords | src/bl_ui_layout.c:515 | a byte array read as uint16_t: word k is byte 2k plus 256 times byte 2k+1 |
| Usb.LeWordsOfLeBytes | src/usb.c:249 | reading the bytes of a word array back as words gives the array |
| Usb.Padded | src/usb.c:221-223 | uc_buffer after memset and the transfer: the answer, then zeros, 2048 bytes |
| Usb.ReadLayout | src/usb.c:216-241 | nlayers is byte 0 even on failure; the read succeeds exactly when 1 <= nlayers <= 6, and then the data are the 2046 bytes from offset 2 |
| Usb.FramedReadDecodes | src/usb.c:237-238 | an answer of count byte, one more byte and a word array's bytes gives the words back |
| Usb.WriteLayout | src/usb.c:243-255 | the request is nlayers, then the bytes of the first nlayers*160 words; it is nlayers*2*160 + 1 bytes long |
| Usb.WriteRequestDecodes | src/usb.c:248-249 | the cells of a write request decode back from byte 1 |
| Usb.WriteThenReadShifts | src/usb.c:237-249 | reading a write request's bytes with the reader's offset of 2 shifts every cell by one byte |
| Usb.DetectPos | src/usb.c:180-198 | a position is reported exactly when byte 7 is non-zero and byte 0 or 1 differs from the last report; it is bytes 0 and 1 |
| Usb.MatrixPosReader.Read | src/usb.c:169-199 | a report records bytes 0 and 1 as the last position, so the same answer next time reports nothing; no report changes nothing |
| Usb.CountAllEqual | src/usb.c:418-423 | counting the bytes equal to v gives the length exactly when every byte is v |
| Usb.MacroTableOf | src/usb.c:428-430 | the table has 24 macros; memcpy fills the first 96 cells with the 192 answer bytes, little endian, and the rest keep what the allocation held |
| Usb.MacroRead | src/usb.c:409-433 | the program exits exactly when the 192-byte answer is all 0 or all 255; otherwise it returns MacroTableOf |
| Usb.DebouncePacket | src/usb.c:360-373 | nothing is sent exactly when debounce is 0; otherwise byte 0 is debounce and the other 7 bytes are 0 |
| Usb.PwmPacket | src/usb.c:332-347 | for 8-bit levels the range test never fires; bytes 0 and 1 are the two levels and the rest are 0 |
| Tui.ButtonStep | src/bl_tui.c:150-159 | Tab and Right select the next button and BTab and Left the previous one, wrapping between n - 1 and 0; any other key keeps the selection, which stays in [0, n) |
| Tui.ButtonStepShift | src/bl_tui.c:150-159 | one key moves the selection by +1 (Tab, Right), -1 (BTab, Left) or 0, mod n |
| Tui.ButtonStepInverse | src/bl_tui.c:153-158 | Tab then BTab, or BTab then Tab, returns to the same button |
| Tui.RunButtons | src/bl_tui.c:148-174 | the first Enter ends the row with a button in [0, n), no Enter comes before it; with no Enter the row keeps waiting |
| Tui.ButtonsNet | src/bl_tui.c:148-174 | the chosen button is the start plus the net count of next and previous keys before the first Enter, mod n |
| Tui.Buttons | src/bl_tui.c:141-179 | the loop computes RunButtons from button 0 |
| Tui.ConfirmResult | src/bl_tui.c:198-212 | button 0 answers TRUE and button 1 FALSE; a message dialog always answers TRUE |
| Tui.ConfirmOrMsg | src/bl_tui.c:181-218 | the loop computes ConfirmResult |
| Tui.ConfirmDeclinesOnOddMoves | src/bl_tui.c:198-212 | a confirm dialog answers FALSE exactly when the keys before the first Enter move an odd net number of buttons |
| Tui.TabThenEnterDeclines | src/bl_tui.c:198-212 | Tab then Enter answers FALSE, Enter alone TRUE |
| Tui.EditKey | src/bl_tui.c:320-346 | every editing key keeps 0 <= pos <= len <= maxlength |
| Tui.InsertThenBackspace | src/bl_tui.c:328-345 | a printable key is inserted at the cursor while the text is shorter than maxlength, and Backspace takes it out again |
| Tui.InsertThenDelete | src/bl_tui.c:324-345 | inserting, then Left and Delete, restores the text and the cursor |
| Tui.FullTextUnchanged | src/bl_tui.c:340-345 | a full text takes no more characters |
| Tui.ScrollStep | src/bl_tui.c:350-354 | the scroll moves by at most one per key, down exactly when pos < scroll and up exactly when pos >= scroll + width |
| Tui.ScrollStaysNonNegative | src/bl_tui.c:350-354 | scroll never goes below 0 |
| Tui.HomeLeavesCursorLeftOfScroll | src/bl_tui.c:336-354 | Home puts the cursor at 0 while scroll steps back by only one, so from scroll 2 or more the cursor ends left of the first shown character |
| Tui.TextBox.Key | src/bl_tui.c:320-354 | the edit buffer becomes EditKey of the old one and scroll follows the cursor |
| Tui.TextBox.Rescroll | src/bl_tui.c:350-354 | a non-editing key in the text only adjusts scroll |
| Tui.TextDialogStep | src/bl_tui.c:279-354 | exactly Enter and ESC close the dialog; ESC selects Cancel |
| Tui.RunTextDialog | src/bl_tui.c:277-381 | a returned text is at most maxlength long |
| Tui.EscapeCancels | src/bl_tui.c:277-381 | ESC ends the dialog with NULL whatever its state |
| Tui.EnterAnswersSelectedButton | src/bl_tui.c:277-381 | Enter in either focus returns the text when Ok is selected and NULL when Cancel is |
| Tui.TabThenEnterCancels | src/bl_tui.c:277-381 | Tab moves to Cancel, so Tab then Enter on a fresh dialog returns NULL |
| Tui.TypedTextAccepted | src/bl_tui.c:277-381 | Down, printable characters and Enter return the characters typed |
| Tui.TextBoxDialog | src/bl_tui.c:253-389 | the loop computes RunTextDialog from focus on the buttons, Ok selected and an empty text |
| Tui.CreateSelectBox | src/bl_tui.c:392-405 | a new box selects item 0 and keeps its items, count and widths |
| Tui.DrawLabel | src/bl_tui.c:414-435 | drawing aborts exactly when the selected index is n or more; otherwise it draws the selected label's first min(length, width) characters |
| Tui.ListRowsOnMinimalTerminal | src/bl_tui.c:465-501 | on the 24 rows bl_tui_init demands, the list shows at least 7 items |
| Tui.InitialWindow | src/bl_tui.c:502-505 | the list opens with the cursor and the first shown item at the selected one, and keeps the window invariant |
| Tui.MoveWindow | src/bl_tui.c:521-541 | Up, Down, PgUp and PgDn keep 0 <= start <= cursor < end <= n and end - start <= n_items, and move the cursor by one or by a page, clamped |
| Tui.RunSelect | src/bl_tui.c:511-547 | Enter chooses an index in [0, n) |
| Tui.CursorStep | src/bl_tui.c:521-541 | a key moves the cursor by at most a page and keeps it in [0, n) |
| Tui.CursorRun | src/bl_tui.c:511-547 | the popup's choice on the cursor alone, without the window, is an index in [0, n) |
| Tui.WindowKeepsChoice | src/bl_tui.c:511-547 | for every window satisfying the invariant, the popup chooses exactly what the cursor alone chooses: the scroll window never changes the choice |
| Tui.EscapeAndEnter | src/bl_tui.c:513-520 | a new ESC cancels and a new Enter chooses the cursor's item |
| Tui.SelectOutcome | src/bl_tui.c:458-551 | the dialog answers TRUE exactly when the cursor run ends on Enter, with the cursor's item selected and nothing else changed; on ESC it answers FALSE with the box as it was |
| Tui.RepeatedKeyIgnored | src/bl_tui.c:513-543 | a key equal to the one before it has no effect, whatever key was read earlier |
| Tui.SuffixSelect | src/bl_tui.c:511-547 | the list depends only on the keys still to come |
| Tui.MoveList | src/bl_tui.c:521-541 | the cursor and window updates compute MoveWindow |
| Tui.SelectDialog | src/bl_tui.c:458-551 | the dialog computes SelectOutcome |
| LayoutUi.BuildCatalog | src/configure_layout.c:501-507 | item 0 is "--" with code 0, and item i+1 is mapping i's name and code |
| LayoutUi.Captions | src/configure_layout.c:504 | the boxes show each item's caption |
| LayoutUi.FindCode | src/bl_ui_layout.c:215-220 | the first index from i whose code is the cell's, or 0 when there is none |
| LayoutUi.GetSelectedItem | src/bl_ui_layout.c:213-221 | the first catalog index whose code equals the cell, or 0 when none does |
| LayoutUi.SelectedItemShows | src/configure_layout.c:181-189 | the looked-up index always agrees with its cell: its item carries the cell's code, or it is 0 when the catalog lacks that code |
| LayoutUi.UndefinedCellSelectsDefault | src/configure_layout.c:501-502 | a cell holding 0 selects the "--" entry |
| LayoutUi.CatalogLookup | src/configure_layout.c:503-507 | a mapping's code selects that mapping's entry and caption, unless an earlier mapping has the same code |
| LayoutUi.PutCell | src/bl_ui_layout.c:238 | setting one box's index changes no other box |
| LayoutUi.InitialSelectionAgrees | src/bl_ui_layout.c:233-242 | every box of all 6 layers selects an item that agrees with its cell |
| LayoutUi.InitMatrix | src/bl_ui_layout.c:227-243 | the loops give every box the lookup of its cell |
| LayoutUi.InitLayout | src/configure_layout.c:451-459 | every cell of all 6 layers becomes 0 and the count is kept |
| LayoutUi.ReadWords | src/bl_ui_layout.c:515 | the data read as uint16_t: 1023 words |
| LayoutUi.LayoutRead | src/bl_ui_layout.c:505-521 | on an accepted count, layers below it hold word l*160 + r*8 + c of the data and the others are untouched; a rejected count changes nothing |
| LayoutUi.ReadInvertsConvert | src/bl_ui_layout.c:511-518 | reading an answer that holds the flat form of a layout gives back its count and all its cells below it |
| LayoutUi.CopiedCells | src/bl_ui_layout.c:511-517 | after the stores of words 0 .. k-1 in increasing order, those words hold the buffer's words and every other word is unchanged |
| LayoutUi.LayoutReadAsWritten | src/bl_ui_layout.c:505-518 | as written, the layout takes the reported count whether or not the read accepted it, and the triple loop copies words 0 .. count*160-1 through the buffer into flat word memory |
| LayoutUi.ReadFailureAsWritten | src/bl_ui_layout.c:509-517 | as written, a count byte of 7 gives a layout of 7 layers, which is not valid, and stores all 160 words of a seventh layer at offsets 960 and up, past the matrix; a count of 0 gives a layout of no layers; the checked read leaves the layout unchanged in both cases |
| LayoutUi.SkipSpaces | src/bl_ui_layout.c:365 | strtol skips leading white space |
| LayoutUi.StrToL | src/bl_ui_layout.c:365 | strtol's value is the leading number, clamped to the range of a 64-bit long |
| LayoutUi.ToInt | src/bl_ui_layout.c:365 | the long is narrowed to int modulo 2^32 |
| LayoutUi.StrToLOfDecimal | src/bl_ui_layout.c:365 | strtol reads a decimal number back without overflow |
| LayoutUi.RoundStepFacts | src/bl_ui_layout.c:360-389 | one call re-prompts on EINVAL or a value outside 1..6 and otherwise settles; the count changes only from the answer, and only with confirmation when it shrinks |
| LayoutUi.ManageFrom | src/bl_ui_layout.c:353-390 | the result is TRUE or FALSE; FALSE changes nothing; a new count is in 1..6; the older copy never moves the layer, the current one keeps it below a reduced count |
| LayoutUi.PromptRound | src/configure_layout.c:336-364 | one call of either copy computes RoundStep |
| LayoutUi.ManageLayers | src/bl_ui_layout.c:353-390 | the retries as a loop compute ManageOutcome |
| LayoutUi.CancelChangesNothing | src/bl_ui_layout.c:364-368 | a cancelled box returns FALSE and changes nothing |
| LayoutUi.MinusOneIsCancel | src/bl_ui_layout.c:365-368 | typing -1, or any number that narrows to -1, is taken for Cancel |
| LayoutUi.OutOfRangeReprompts | src/bl_ui_layout.c:371-373 | a value outside 1..6 prompts again |
| LayoutUi.GrowingApplied | src/bl_ui_layout.c:385-388 | a count at least the current one is applied at once and returns TRUE |
| LayoutUi.ShrinkingDeclined | src/bl_ui_layout.c:375-388 | a smaller count answered No keeps the count and returns TRUE |
| LayoutUi.ShrinkingConfirmed | src/bl_ui_layout.c:375-384 | a smaller count answered Yes is applied, and the current editor clamps the layer to nlayers - 1 |
| LayoutUi.OlderKeepsDeletedLayer | src/configure_layout.c:352-358 | the older copy leaves layer 6 active after cutting the count to 2; the current one moves it to layer 2 |
| LayoutUi.StaleErrnoNeverApplies | src/configure_layout.c:341-347 | in the older copy a stale EINVAL re-prompts every answer, so as long as no answer overflows only a cancel can end the prompt |
| Navigation.CellBox | src/bl_ui_layout.c:236-239 | a cell's box holds the whole catalog with the cell's own index |
| Navigation.LayerMenu | src/bl_ui.c:140-145 | the layer menu has two items, the first selected |
| Navigation.Move | src/bl_ui_layout.c:433-440 | the arrows move the cursor by at most one cell and stay on the grid |
| Navigation.CommitKeepsInvariant | src/bl_ui_layout.c:441-447 | writing the selected code into the cell keeps every box in agreement with its cell |
| Navigation.KeyStep | src/bl_ui_layout.c:433-474 | every key keeps the layout valid, the boxes in agreement and the cursor on the grid |
| Navigation.NavStep | src/bl_ui_layout.c:424-474 | one pass, the report and then the key, keeps the layout valid, every box in agreement with its cell, and the cursor and layer on the grid |
| Navigation.NavRun | src/bl_ui_layout.c:419-493 | the loop keeps that invariant and ends only on 'q' or 'Q' |
| Navigation.Navigate | src/bl_ui_layout.c:408-496 | the loop computes NavRun from the entry state |
| Navigation.Pass | src/bl_ui_layout.c:424-474 | one pass of the loop computes NavStep |
| Navigation.LayerDialog | src/bl_ui.c:140-157 | the layer menu, then the prompt, computes LayerKey |
| Navigation.ReportComesFirst | src/bl_ui_layout.c:424-432 | a reported position replaces the cursor before the key acts |
| Navigation.ArrowsMoveWithinGrid | src/configure_layout.c:390-397 | Down and Up step the column, Right and Left the row, one at a time, clamped to the grid |
| Navigation.EnterCommitsOneCell | src/bl_ui_layout.c:441-447 | Enter writes the code of the item the box ends on into that cell and no other; a cancelled box writes the item it selected before |
| Navigation.CancelClearsUnknownCode | src/bl_ui_layout.c:441-445 | opening a cell whose code the catalog lacks and cancelling still clears the cell to 0 |
| Navigation.DigitSelectsLayer | src/bl_ui_layout.c:471-473 | digit d with 1 <= d <= nlayers shows layer d - 1 and keeps the cursor; a larger digit does nothing |
| Navigation.OpenReplacesOnlyOnLoad | src/bl_ui_layout.c:451-458 | 'o' replaces the layout and rebuilds the boxes only when the file loaded |
| Navigation.OtherKeysKeepState | src/bl_ui_layout.c:448-470 | save, write, the file and macro menus and the quit keys leave the state alone |
| Navigation.LayerKeyEffect | src/bl_ui_layout.c:465-467 | 'l' applies the prompt's count, through the layer menu in the current editor and directly in the older one |
| Navigation.QuitBeforeLoop | src/bl_ui_layout.c:416-419 | a quit key read before the loop ends it at once with the caller's state |
| Navigation.QuitEndsLoop | src/bl_ui_layout.c:419-432 | a pass that reads 'q' is the last |
| Navigation.OlderLeavesStaleLayer | src/configure_layout.c:419-421 | in the older editor, cutting the count below the shown layer leaves that layer shown |
| MacroParser.Zeros | src/bl_macro.c:16-20 | the starting table: every key code zero |
| MacroParser.ClearTable | src/bl_macro.c:16-20 | the loops zero the table whatever it held |
| MacroParser.SetKey | src/bl_macro.c:61 | storing a key changes that cell and no other |
| MacroParser.Flush | src/bl_macro.c:60-65 | storing the pending number empties the buffer and keeps the line |
| MacroParser.ParseText | src/bl_macro.c:10-97 | a result is a 24 x 8 table and nmacros is either left alone or a macro count in 1..24 |
| MacroParser.RunFrom | src/bl_macro.c:44-96 | the parser run from any character in any state yields, if anything, a 24 x 8 table whose nmacros is unchanged or lies in macro_y+1 .. 24 |
| MacroParser.MacroParse | src/bl_macro.c:10-97 | the loop computes ParseText |
| MacroProperties.DigitsAccumulate | src/bl_macro.c:46-55 | digits are appended to buf one at a time while it has room |
| MacroProperties.ReadNumber | src/bl_macro.c:84-86 | a number read from either state ends up whole in the buffer |
| MacroProperties.AfterNumber | src/bl_macro.c:60-73 | after a number: the value is at [y][x], nmacros is y + 1, no other key changes, and a line end starts the next macro at key 0 |
| MacroProperties.NumberStored | src/bl_macro.c:56-74 | a number and the non-digit after it give that state; only a ',' is consumed with the number |
| MacroProperties.NinthDigitRejected | src/bl_macro.c:47-55 | a ninth digit in a row fails the parse |
| MacroProperties.LongRunFrom | src/bl_macro.c:44-94 | from any state, a run of nine digits after a non-digit fails the parse |
| MacroProperties.LongNumberRejected | src/bl_macro.c:47-55 | a number of nine or more digits anywhere fails the parse |
| MacroProperties.DoubleCommaRejected | src/bl_macro.c:70-91 | a second ',' after a number fails the parse |
| MacroProperties.CommaJoinsLines | src/bl_macro.c:76-80 | a line end after a ',' does not start a new macro |
| MacroProperties.TrailingDigitsDropped | src/bl_macro.c:44-96 | digits that run to the end of the file are not stored |
| MacroProperties.StoreOffsetAsWritten | src/bl_macro.c:61 | the store macros[y][x] addresses word y*8 + x of the contiguous table, inside it whenever x < 8 and y < 24 |
| MacroProperties.FlushAsWritten | src/bl_macro.c:60-65 | as written, the store of a non-empty buffer empties it and keeps the state and macro_y, with no bound on the offset it writes |
| MacroProperties.EndNumberAsWritten | src/bl_macro.c:66-73 | as written, the end of a number turns the scanner to whitespace |
| MacroProperties.RunAsWritten | src/bl_macro.c:44-96 | the parser as written, run from any state, only adds words to memory and never takes any away |
| MacroProperties.TokenAsWritten | src/bl_macro.c:56-72 | as written, a one-digit number and ',' are stored at offset y*8 + x and macro_x advances, with no bound on macro_x |
| MacroProperties.TokensAsWritten | src/bl_macro.c:56-72 | after k numbers of a line, macro_x has grown by k and macro_y is unchanged |
| MacroProperties.LineAsWritten | src/bl_macro.c:44-91 | as written, the parser reads k one-digit numbers in a row, each followed by ',', to the state that k stores leave |
| MacroProperties.NinthKeyOverrunsAsWritten | src/bl_macro.c:44-91 | as written, a line of nine numbers is parsed to a state whose ninth store is at the offset of key 0 of the next macro, past the table on the last macro, and the next line starts past the table |
| MacroProperties.OutOfRangeRejected | src/bl_macro.c:60-65 | corrected: a number that would be stored past the last key or the last macro fails the parse |

## Left out

- Drawing is not modelled: curses windows, boxes, attributes, coordinates, `draw_matrix_cell`, `bl_layout_draw_keyboard_matrix` and `bl_tui_select_box_redraw_list`. The key-driven state is kept. Display only.
- libusb is not modelled: opening and closing the device, the control transfers and the service-mode loop. A transfer is its answer bytes or its request bytes.
- `fopen`, `fgetc` and `fprintf` are not modelled: a file is its contents, and a failed open is a flag (`LayoutCodec.Save`). `bl_tui_fselect` and the directory walk are not part of this model; the file dialog's outcome is an input of the navigation loop.
- `printf` diagnostics and the line and column counters that only feed them are left out of both parsers.
- `usleep` timing and malloc/free/strdup ownership are left out. The memory `malloc` leaves uninitialised is an argument. This covers the layout matrix of `bl_layout_create` (the `initial` matrix of `LayoutCodec.Load`), the last word of `bl_layout_convert`, the macro table's `nmacros`, and the cells that `bl_usb_macro_read`'s memcpy does not reach.
- `bl_layout_create` has no member of its own. It is the layout `Layout(n, initial)` that `LayoutCodec.Start` begins with.
- atoi of a number too large for an int is undefined behaviour. The loaders take the exact decimal value, narrowed to 16 bits by the store.
- LayoutCodec.RawPrint: the words of the buffer are printed modulo 2^16, as a uint16_t buffer holds them; the contract assumes they are already 16-bit.
- Tui.EditKey: the overlapping `strcpy` shifts of Backspace, Delete and insertion are modelled as the intended shift of the text by one place. Delete at the end of the text changes nothing in the model. The source has no such guard (src/bl_tui.c:333-335): with the cursor on the terminator, `strcpy` copies from the byte after it. `bl_tui_textbox_create` sets only `text[0]` of its `malloc(maxlength + 1)` buffer (src/bl_tui.c:82-83), so that byte is uninitialised on a fresh box and lies past the allocation on a full text. Delete on an empty box can therefore copy garbage into the answer. The model does not capture that read.
- Tui.ScrollStep: follows the source, which moves scroll by one column per key. The window therefore does not always contain the cursor. Home from pos 40 with scroll 31 gives pos 0 and scroll 30, and End can likewise leave the cursor past the window. The model states no invariant scroll <= pos <= scroll + width, because the source does not keep one.
- The select box's popup width, its position and the list's redraw are left out. Only the row count `maxy / 2 - 3 - 2` matters to the logic.
- Select boxes are values. The navigation loop holds a 6 x 20 x 8 grid of their selected indices, and the dialog returns the updated box instead of writing through a shared pointer.
- Navigation.NavStep: the model requires the reported position to lie on the grid, as `bl_usb_read_matrix_pos` documents, and a loaded layout to be valid, as `LayoutCodec.LoadFile` proves.
- The item catalog `bl_key_mapping` is a parameter. Its hundreds of entries are data, and only `IsCatalog` matters to the lookup.
- The 'f' and 'm' menus of the current editor are not modelled. `bl_ui_do_macro_menu` takes no arguments and never changes `show_layers`, so the loop test reduces to the quit test.
- The layer menu's "Show layers" item reaches `bl_tui_err`, which is not part of this model; the model leaves the state alone there.
- LayoutUi.ErrnoAfter: errno is taken to change only through strtol, and strtol to set only ERANGE (on overflow). POSIX also lets strtol set EINVAL when it reads no digits, and BSD-family C libraries do; the older copy never clears errno, so there an empty answer would make every later answer re-prompt. errno is also taken to be untouched by the text box dialog between `errno=0` and the test, although C lets any library call set it. `LayoutUi.GrowingApplied`, `LayoutUi.ShrinkingDeclined`, `LayoutUi.ShrinkingConfirmed` and `LayoutUi.OlderKeepsDeletedLayer` hold under these two assumptions.
- `manage_layers` calls `bl_tui_textbox` with seven arguments against a six-parameter definition. The prompt's answer is an input of each round.
- After 'o' the loop rebinds its own `layout` parameter to the newly loaded layout, so every later pass uses it, as `Navigation.Open` does. Only the caller's copy of the freed pointer dangles, and the caller never uses it again, because the loop ends only on 'q'. Freeing and the caller's pointer are not modelled.
- `bl_macro_navigate`, `bl_usb_macro_write`, `bl_usb_macro_print`, the pretty printers `bl_layout_print` and `bl_usb_print_layout`, and the command-line dispatch are outside the modelled core.
- The debounce and PWM reads only return byte 0 of the answer, and are left out.

## Findings

| source | as written | input that shows it | evidently intended | confidence | as-written member | corrected member |
|---|---|---|---|---|---|---|
| src/layout.c:142-169 | a ',' after the last column moves to the next row without checking it, and the newline test only rejects a short row or column, so row can reach 20 and layer 6 | a line of 168 comma-separated values then a newline: values 161 to 168 are stored at row 20, which is the next layer or past the matrix | reject a value that does not fit in the matrix | not executed | LayoutProperties.OverlongLineLoadsAsWritten | LayoutProperties.OverflowRejected |
| src/bl_macro.c:60-65 | the store macros[macro_y][macro_x] never checks macro_x < 8 or macro_y < 24 | a line of nine numbers writes the ninth into key 0 of the next macro; a 25th line writes past the table | reject a number that does not fit in the table | not executed | MacroProperties.NinthKeyOverrunsAsWritten | MacroProperties.OutOfRangeRejected |
| src/bl_ui_layout.c:509-518 | the result of bl_usb_read_layout is ignored: the count it rejected is copied into the layout and the copy reads the unset buffer | an answer whose first byte is 7: the copy runs over seven layers, the last outside the six-layer matrix | leave the layout unchanged when the read fails | not executed | LayoutUi.ReadFailureAsWritten | LayoutUi.LayoutRead |

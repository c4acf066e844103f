# ShellInABox, modelled and proved

ShellInABox is a terminal in a web page: a daemon runs a child process and hands its
output to polling requests, and a script in the browser interprets that output as a
terminal would. This project models the logic of both sides, and of a small editor
mode, and proves what it promises.

## The parts

- **The terminal** (`shellinabox/shellinabox/vt100.js`). The page is a list of lines,
  each blank or a list of styled runs, edited in place. `Cells`, `Rows` and `Grid` define what a page
  shows: a grid of cells and the rows scrolled off above it. `LineEdit` and `Display` edit the lines as
  the script does, and each operation is proved to do its simple counterpart on the grid. `TermSpec` says
  what the terminal does with its input, one character at a time; `Terminal` is the script's state machine,
  which collects characters and draws them together, proved to agree. `TermFacts`, `ScreenFacts`,
  `TypingFacts`, `FillingFacts`, `SequenceFacts`, `MotionFacts`, `EditFacts`, `TravelFacts`, `CommandFacts`, `AnswerFacts`,
  `LookFacts`, `ColourFacts`, `SwitchFacts`, `PageFacts` and `Utf8Facts` prove what that means to a user: what each
  character and each sequence, as it is sent, does to the rows of the screen.
- **The byte streams** (`shellinabox/libhttp/httpconnection.c`): `WebSocket` for framing, `HttpLines` for putting
  lines together.
- **The indexes**: `Trie` and `TrieNodes` (`trie.c`), `HashMap` (`hashmap.c`), each refining a finite map.
- **The event loop**: `ServerLoop` (`server.c`).
- **The session**: `Session` and `Json` (`shellinaboxd.c`), `Keys` and `KeyClient` (`shell_in_a_box.js` and the key
  decoder of the daemon), and `EndToEnd`, which joins session, JSON and terminal.
- **Smaller parts**: `Url` (`launcher.c`, `url.c`), `Basic` and `Program` (`demo.js`), `Clike` (`clike.js`).

## How to read the proofs

Code that changes state is a class here, and each of its methods is proved against a function of the old state.
The lemmas then say what those functions mean. `dafny verify dfyconfig.toml` checks everything.

## Choices

- A line shows cells; a missing class name shows as the default colours, a non-breaking space as a space, and
  positions past the end as default blanks.
- Character sets are four arbitrary tables of 256 code units.
- Answers to the host are values (`CursorAt(row, column)`, ...) instead of the strings that spell them.
- Where the code and its intention differ, the code is followed, and a lemma says exactly when they agree:
  `WebSocket.BinaryRoundTrip`, `Keys.KeysArrive`, `SequenceFacts.ReportReturns`, `ScreenFacts.InsertCharsInserts`,
  `ScreenFacts.DeleteCharsDeletes`, `ScreenFacts.EraseDisplayErases`, `ColourFacts.LooksColoured`, `PageFacts.SavedRestores`, `KeyClient.KeysLost`,
  `KeyClient.ReconnectOrders`, `Basic.MinusTakesAll`,
  `Program.Store.Enter`.
- The length test in `printUnicode` compares with a string of three characters, so that ASCII is sent in two bytes;
  the terminal accepts these longer forms.
- `numEntries` of the hash table is proved to be at least the number of entries: growing adds to it twice, and
  iterating does not lower it.

## Model

| member | source | states |
|---|---|---|
| Terminal.Vt100.VT100 | shellinabox/shellinabox/vt100.js:4147-4247 | For every string in every state, the coalescing renderer leaves the screen, cursor, modes and decoders as if each character were processed on its own on the plain grid, returns the answers in order, and terminates, the nested call for repeated text included |
| TermFacts.ProcessConcat | shellinabox/shellinabox/vt100.js:4147-4247 | The input may be cut anywhere, in the middle of a character, a control sequence or a due wrap: the state and the answers after a + b are those after a and then b |
| TermSpec.Process | shellinabox/shellinabox/vt100.js:4147-4247 | Every string keeps the cursor on the screen, 0 <= top < bottom <= height, a defined parser and UTF-8 state, and colours that can be read |
| TermFacts.DrawExtends | shellinabox/shellinabox/vt100.js:4120-4145 | A character drawn after pending text gives what drawing them together gives, at the right border as well, where the last character replaces the one before it |
| TermFacts.FeedExpands | shellinabox/shellinabox/vt100.js:4028-4111 | Only a repetition or a single shift hands text back, always one character over and over, in a state in which it cannot expand again |
| TermFacts.NestedNeverExpands | shellinabox/shellinabox/vt100.js:4234-4238 | Text handed back is processed without handing back more, so that one nested call is enough |
| Terminal.Vt100.ReceiveExpanded | shellinabox/shellinabox/vt100.js:4152-4239 | One character and its expansion, with characters still pending, is one step of the specification |
| Terminal.Vt100.Receive | shellinabox/shellinabox/vt100.js:4152-4239 | Decoding with characters still pending does not disturb them, and is the specification's step |
| Terminal.Vt100.ReceiveChar | shellinabox/shellinabox/vt100.js:4192-4239 | A decoded character is either added to the pending ones or acts after they are drawn |
| Terminal.Vt100.DrawChar | shellinabox/shellinabox/vt100.js:4207-4228 | Adding a character to the pending text, after a due wrap and insertion, has the effect of drawing it |
| Terminal.Vt100.PrepareDrawing | shellinabox/shellinabox/vt100.js:4207-4222 | Pending text is drawn first when a wrap or an insertion is due |
| Terminal.Vt100.DecodeByte | shellinabox/shellinabox/vt100.js:4153-4191 | The decoder's step: bits of continuation bytes are collected below 2^31, and code points beyond 16 bits become U+FFFD |
| Terminal.Vt100.RenderString | shellinabox/shellinabox/vt100.js:4120-4145 | Draws text cut off at the right border, with its last character kept |
| Terminal.Vt100.DoControl | shellinabox/shellinabox/vt100.js:3817-4118 | Each control character and each character of an escape sequence does what the specification says, and answers are appended |
| Terminal.Vt100.EscapeSequence | shellinabox/shellinabox/vt100.js:3853-4115 | The escape-sequence states, one character at a time |
| Terminal.Vt100.AfterEscape | shellinabox/shellinabox/vt100.js:3854-3883 | The character after ESC: saving, restoring, line feeds, tab stops, identification, reset |
| Terminal.Vt100.AfterCsi | shellinabox/shellinabox/vt100.js:3910-3924 | The first character of a control sequence clears the parameters |
| Terminal.Vt100.CsiParameter | shellinabox/shellinabox/vt100.js:3925-3950 | Parameters are collected digit by digit, without bound |
| Terminal.Vt100.CsiEnd | shellinabox/shellinabox/vt100.js:3951-4042 | The end of a control sequence: which command runs, with which answer or text to repeat |
| Terminal.Vt100.CsiGotos | shellinabox/shellinabox/vt100.js:3966-3986 | All cursor-placing sequences, clamped to the screen or, in origin mode, to the scroll region |
| Terminal.Vt100.CsiTravels | shellinabox/shellinabox/vt100.js:3987-4038 | Tabs, line feeds and reverse line feeds by count, saving and restoring |
| Terminal.Vt100.CsiEdits | shellinabox/shellinabox/vt100.js:3988-3996 | The sequences that edit the screen |
| Terminal.Vt100.CsiOthers | shellinabox/shellinabox/vt100.js:3994-4027 | Modes, renditions, reports, tab stops and the scroll region |
| Terminal.Vt100.PrivateModes | shellinabox/shellinabox/vt100.js:3953-3962 | Private modes, all set or all reset, and the end of the question mark |
| Terminal.Vt100.RepeatLast | shellinabox/shellinabox/vt100.js:4028-4035 | The last character as often as asked for, at most once for each position of the screen |
| Terminal.Vt100.ControlMoving | shellinabox/shellinabox/vt100.js:3825-3844 | The control characters that move the cursor |
| Terminal.Vt100.GotoXY | shellinabox/shellinabox/vt100.js:1891-1914 | The cursor is clamped to the screen, or in origin mode to the scroll region, and no wrap is due |
| Terminal.Vt100.GotoXaY | shellinabox/shellinabox/vt100.js:1916-1918 | Rows count from the scroll region in origin mode |
| Terminal.Vt100.EnableAlternateScreen | shellinabox/shellinabox/vt100.js:1929-1978 | Switching pages saves and clears, or restores |
| Terminal.Vt100.Reset | shellinabox/shellinabox/vt100.js:195-264 | A reset leaves the alternate screen and clears the page |
| Terminal.Vt100.SetModes | shellinabox/shellinabox/vt100.js:3375-3403 | All modes of one sequence, in order |
| Terminal.Vt100.Csim | shellinabox/shellinabox/vt100.js:3739-3784 | All renditions of one sequence, in order, then readable colours |
| Terminal.Vt100.SaveCursor | shellinabox/shellinabox/vt100.js:3307-3316 | Cursor, attributes and character sets are saved, the first two for each page |
| Terminal.Vt100.RestoreCursor | shellinabox/shellinabox/vt100.js:3318-3332 | They are restored if they were saved |
| Terminal.Vt100.Ht | shellinabox/shellinabox/vt100.js:3143-3171 | Tabs to the right, stop by stop, at most to the last column |
| Terminal.Vt100.Rt | shellinabox/shellinabox/vt100.js:3173-3201 | Tabs to the left, at most to the first column |
| Terminal.Vt100.Lf | shellinabox/shellinabox/vt100.js:3208-3229 | Line feeds scroll the region at its bottom and move the cursor elsewhere |
| Terminal.Vt100.Ri | shellinabox/shellinabox/vt100.js:3231-3252 | Reverse line feeds |
| Terminal.Vt100.CsiAt | shellinabox/shellinabox/vt100.js:3604-3616 | Insert characters |
| Terminal.Vt100.CsiP | shellinabox/shellinabox/vt100.js:3786-3798 | Delete characters |
| Terminal.Vt100.CsiL | shellinabox/shellinabox/vt100.js:3705-3720 | Insert lines |
| Terminal.Vt100.CsiM | shellinabox/shellinabox/vt100.js:3722-3737 | Delete lines; the clamp of the count is read as this.bottom - this.cursorY |
| Terminal.Vt100.CsiJ | shellinabox/shellinabox/vt100.js:3653-3682 | Erase in the display, by the calls that the code makes |
| Terminal.Vt100.CsiK | shellinabox/shellinabox/vt100.js:3684-3703 | Erase in the line |
| Terminal.Vt100.SetScrollRegion | shellinabox/shellinabox/vt100.js:4019-4027 | A proper scroll region is taken over and the cursor goes home; any other is ignored |
| Display.Screen.PutString | shellinabox/shellinabox/vt100.js:1624-1888 | For any list of runs on any line, putString writes exactly the cells [x, x + n) of row y; all other cells of all rows stay; the line stays within the width |
| LineEdit.PutText | shellinabox/shellinabox/vt100.js:1656-1888 | Padding, splitting, deleting overwritten runs, both merges and pruning of blanks together replace exactly the text's cells of the line's view |
| LineEdit.PlaceText | shellinabox/shellinabox/vt100.js:1702-1758 | Splitting a run and placing the text leaves the cells around it as they were |
| LineEdit.DeleteOverwritten | shellinabox/shellinabox/vt100.js:1761-1774 | Exactly the overwritten characters are deleted from the runs that follow |
| LineEdit.MergeNext | shellinabox/shellinabox/vt100.js:1776-1783 | Merging neighbours of the same look changes no cell |
| LineEdit.PruneBlanks | shellinabox/shellinabox/vt100.js:1857-1887 | Removing wholly blank runs at the end changes no cell |
| LineEdit.PadRun | shellinabox/shellinabox/vt100.js:1681-1700 | A short line is padded with blanks up to the column |
| Display.Screen.Promises | shellinabox/shellinabox/vt100.js:1557-1564 | Every line is at most as long as the screen is wide, numScrollbackLines is the number of lines beyond the height, at most 500 of them, and every row shown has the screen's width |
| Display.Screen.InsertBlankLine | shellinabox/shellinabox/vt100.js:1498-1531 | An inserted line shows as blank in any colour |
| Display.Screen.GrowTo | shellinabox/shellinabox/vt100.js:1643-1655 | Missing lines are created blank, which changes nothing that is seen |
| Display.Screen.ClearRegion | shellinabox/shellinabox/vt100.js:2024-2067 | A rectangle, clipped to the screen, is filled with blanks in the given look; the cursor stays |
| Display.Screen.CopyLineSegment | shellinabox/shellinabox/vt100.js:2069-2119 | Columns of a row are read as a whole and then written, so that overlapping segments copy correctly |
| Display.Screen.ScrollRegion | shellinabox/shellinabox/vt100.js:2121-2275 | Whole lines shift, or feed the history; part of lines moves as a rectangle, all at once, and the vacated strips are filled |
| Display.Screen.ScrollClipped | shellinabox/shellinabox/vt100.js:2150-2273 | The same for a region that is clipped already |
| Display.Screen.ScrollLinesUp | shellinabox/shellinabox/vt100.js:2204-2226 | Moving lines up on the page is a shift of the grid's rows with blank rows below |
| Display.Screen.ScrollLinesDown | shellinabox/shellinabox/vt100.js:2227-2237 | Moving lines down is a shift with blank rows above |
| Display.Screen.ScrollIntoScrollback | shellinabox/shellinabox/vt100.js:2175-2203 | Rows pushed off the normal screen become its newest history, in order, and the oldest beyond 500 are dropped |
| Display.Screen.MoveSegmentsUp | shellinabox/shellinabox/vt100.js:2240-2246 | Copying rows top down is a simultaneous move upwards or sideways |
| Display.Screen.MoveSegmentsDown | shellinabox/shellinabox/vt100.js:2247-2253 | Copying rows bottom up is a simultaneous move downwards |
| Display.Screen.SwitchScreen | shellinabox/shellinabox/vt100.js:1946-1970 | The other page is shown; the cursor keeps its column, and its row counted with the scrolled lines, corrected when it is above the screen or more than one row below it |
| ScreenFacts.PutExactly | shellinabox/shellinabox/vt100.js:1624-1888 | Text changes exactly its own cells of one row |
| ScreenFacts.InsertCharsInserts | shellinabox/shellinabox/vt100.js:3604-3616 | CSI @ is list insertion on the cursor's row as long as some of the row is left to move; at the full remaining width the code changes nothing |
| ScreenFacts.DeleteCharsDeletes | shellinabox/shellinabox/vt100.js:3786-3798 | CSI P is list deletion under the same condition |
| ScreenFacts.InsertLinesInserts | shellinabox/shellinabox/vt100.js:3705-3720 | CSI L is list insertion of blank rows within the scroll region |
| ScreenFacts.DeleteLinesDeletes | shellinabox/shellinabox/vt100.js:3722-3737 | CSI M is list deletion within the scroll region; rows deleted at the top of the whole normal screen join the history |
| ScreenFacts.FeedsScroll | shellinabox/shellinabox/vt100.js:3208-3252 | A line feed at the bottom of the region deletes its top row, a reverse one at its top opens a row |
| ScreenFacts.HistoryKept | shellinabox/shellinabox/vt100.js:2175-2203 | Over any number of line feeds, history and screen together stay a window on one growing text, of which the newest 500 + height rows are kept |
| ScreenFacts.EraseLineErases | shellinabox/shellinabox/vt100.js:3684-3703 | CSI K erases exactly the part of the row that it is for |
| ScreenFacts.EraseDisplayErases | shellinabox/shellinabox/vt100.js:3653-3682 | CSI J erases all rows below the cursor if and only if the cursor is not on the last row but one, or the last row is blank already |
| ScreenFacts.NextTabIsFirst | shellinabox/shellinabox/vt100.js:3143-3171 | A tab goes to the first stop to the right |
| ScreenFacts.PreviousTabIsLast | shellinabox/shellinabox/vt100.js:3173-3201 | A back tab goes to the first stop to the left |
| TypingFacts.TypeOnRow | shellinabox/shellinabox/vt100.js:4192-4228 | Plain text that fits on the row, or that wrapping does not move on, is put there in one go |
| TypingFacts.WrapFirst | shellinabox/shellinabox/vt100.js:4207-4216 | A due wrap may be done at once before more text |
| TypingFacts.TypingAppends | shellinabox/shellinabox/vt100.js:4120-4247 | Plain text of any length typed on the last row is broken into rows that follow the earlier text; no character is lost before it is 500 rows above the screen |
| SequenceFacts.ReadNumber | shellinabox/shellinabox/vt100.js:3925-3936 | A parameter is read back as the number that it was written for, however large |
| SequenceFacts.SequenceActs | shellinabox/shellinabox/vt100.js:3910-4042 | A control sequence of any parameters, written in digits and read in any state, runs its command with exactly those parameters |
| SequenceFacts.AddressGoes | shellinabox/shellinabox/vt100.js:3984-3986 | CSI row ; column H, read in any state, goes there |
| SequenceFacts.ReportReturns | shellinabox/shellinabox/vt100.js:3410-3416 | A reported cursor position, sent back, restores the cursor if and only if origin mode is off, or the region starts at the top and holds the cursor, or the cursor is on the region's last row |
| LookFacts.SequenceSelects | shellinabox/shellinabox/vt100.js:3925-3994 | The characters of one sequence, read in any state, select any look for the text that follows, in readable colours, and change nothing else |
| LookFacts.LookSelected | shellinabox/shellinabox/vt100.js:3739-3784 | Every look is selected by one list of parameters, whatever was selected before |
| LookFacts.LooksKept | shellinabox/shellinabox/vt100.js:3739-3784 | No parameters lead to any other look |
| LookFacts.RenditionsApply | shellinabox/shellinabox/vt100.js:3739-3784 | CSI m applies its parameters in order and then makes the colours readable |
| TermSpec.PenFor | shellinabox/shellinabox/vt100.js:3263-3297 | Whatever the attributes, text and background never have the same colour |
| ColourFacts.LooksColoured | shellinabox/shellinabox/vt100.js:3263-3297 | For every look: its colours in terms of its attributes alone (reversing exchanges them, bright adds eight, dim gives grey, blinking takes the opposite background, underlining is the style); they are shown if and only if they differ and the text is not bright on white, and what is shown instead |
| ColourFacts.PlainColours | shellinabox/shellinabox/vt100.js:3268-3275 | Without other flags a look shows its one colour on the other, if and only if they differ; reversed, they trade places |
| ColourFacts.LookShows | shellinabox/shellinabox/vt100.js:3739-3784 | The characters of the sequence that selects a look, read in any state, and then a text: the text is on the screen in exactly the colours and the style of that look, and all else on the page stays |
| MotionFacts.LineFeedMoves | shellinabox/shellinabox/vt100.js:3208-3229 | A line feed leaves the page alone and goes one row down in the same column, away from the region's bottom: the row is t.y + 1 if and only if origin mode allows it; at the bottom the region's rows move up, with what the history keeps |
| MotionFacts.ReturnMoves | shellinabox/shellinabox/vt100.js:3203-3206 | A carriage return goes to the first column and a backspace one column back; no text changes |
| MotionFacts.HighControlsMove | shellinabox/shellinabox/vt100.js:3832-3844 | The reverse line feed goes one row up, or opens a row at the top of the region; the next-line character goes to the start of the row below |
| MotionFacts.EscapeMoves | shellinabox/shellinabox/vt100.js:3870-3872 | ESC D, ESC E and ESC M: down, to the start of the next row, up, read in any state |
| MotionFacts.EscapeSteps | shellinabox/shellinabox/vt100.js:3208-3252 | ESC D and ESC M, away from the edges of the region: the page stays, the column too, and the cursor goes one row down or up if and only if origin mode allows it |
| MotionFacts.SequenceMovesRows | shellinabox/shellinabox/vt100.js:3968-3974 | CSI A and CSI B, e go up and down by their count in the same column, clamped to the screen or in origin mode to the region; nothing else changes |
| MotionFacts.SequenceMovesColumns | shellinabox/shellinabox/vt100.js:3975-3979 | CSI C, a and CSI D go forward and back by their count, up to the borders |
| MotionFacts.SequenceMovesLines | shellinabox/shellinabox/vt100.js:3980-3983 | CSI E and CSI F go to the start of a row further down or up |
| MotionFacts.SequenceSets | shellinabox/shellinabox/vt100.js:3966-3984 | CSI G, ` and CSI d go to a column or a row counted from one, the row from the region's top in origin mode |
| MotionFacts.SequenceAddresses | shellinabox/shellinabox/vt100.js:3985-3986 | CSI H and f go to a row and a column counted from one |
| EditFacts.LineErased | shellinabox/shellinabox/vt100.js:3684-3703 | CSI K, character by character: from the cursor on, up to it, or the whole row; exactly that becomes blank in the current look |
| EditFacts.CharsErased | shellinabox/shellinabox/vt100.js:3800-3811 | CSI X blanks that many positions from the cursor on, up to the border, and nothing else |
| EditFacts.DisplayErased | shellinabox/shellinabox/vt100.js:3666-3677 | CSI 1 J blanks the rows above the cursor and its own up to it; CSI 2 J blanks every row |
| EditFacts.DisplayErasedBelow | shellinabox/shellinabox/vt100.js:3653-3665 | CSI 0 J blanks the rest of the cursor's row and all rows below it, but for the last one when the cursor is on the row above; other parameters erase nothing |
| EditFacts.CharsInserted | shellinabox/shellinabox/vt100.js:3604-3798 | CSI @ and CSI P on the row as a list: blanks come in at the cursor, or characters go and blanks follow; a count that reaches the border changes nothing |
| EditFacts.LinesInserted | shellinabox/shellinabox/vt100.js:3705-3720 | CSI L: blank rows come into the region at the cursor, and the rest of it moves down |
| EditFacts.LinesDeleted | shellinabox/shellinabox/vt100.js:3722-3737 | CSI M: rows go, blank ones follow at the end of the region, and rows from the top of the whole normal screen join the history |
| EditFacts.NoLinesInserted | shellinabox/shellinabox/vt100.js:3705-3737 | Below the region neither changes anything |
| FillingFacts.TypingFills | shellinabox/shellinabox/vt100.js:4120-4247 | Text typed at any position of the screen, in any region and mode of placement, is on the rows from there on, one after the other, as long as there are rows; everything else, the history included, stays, and the cursor is exactly behind the text |
| FillingFacts.WrittenAt | shellinabox/shellinabox/vt100.js:4120-4145 | Where each character of such a text is: position by position, those before and behind the text stay as they were |
| FillingFacts.TypingScrolls | shellinabox/shellinabox/vt100.js:4120-4247 | On the whole normal screen text of any length goes on below: the rows it has filled scroll up in order, and nothing is lost before it is 500 rows above |
| FillingFacts.TypingStays | shellinabox/shellinabox/vt100.js:4223-4228 | With wrapping off, the cursor stays at the border and each character that finds no room replaces the last one |
| FillingFacts.CharacterShows | shellinabox/shellinabox/vt100.js:4198-4206 | Beyond the tables a character is shown as it is, private ones as positions of the font, and those of no width not at all |
| CommandFacts.ModesSwitched | shellinabox/shellinabox/vt100.js:3375-3403 | CSI h and l with any number of parameters switch insertion, the display of controls and returning line feeds, and nothing else |
| CommandFacts.PrivateModeSwitched | shellinabox/shellinabox/vt100.js:3377-3386 | CSI ? 6 and CSI ? 7 switch origin mode and wrapping |
| CommandFacts.PageSwitched | shellinabox/shellinabox/vt100.js:3391-3393 | CSI ? 47, 1047 and 1049 show the other page: blank when it is the alternate one, with text, history, cursor and attributes as they were saved when it is the normal one |
| CommandFacts.RegionSet | shellinabox/shellinabox/vt100.js:4019-4027 | CSI top ; bottom r takes over a proper region and sends the cursor to its first position; any other changes nothing |
| CommandFacts.PrinterStarts | shellinabox/shellinabox/vt100.js:3618-3651 | CSI 5 i starts the printing |
| CommandFacts.CursorSaved | shellinabox/shellinabox/vt100.js:3307-3332 | ESC 7 and ESC 8 save and bring back position, attributes and character sets, each page's own |
| CommandFacts.CursorSavedBySequence | shellinabox/shellinabox/vt100.js:4036-4037 | CSI s and CSI u do the same |
| CommandFacts.TabSet | shellinabox/shellinabox/vt100.js:3875-4001 | ESC H sets a tab stop at the cursor, CSI 0 g clears it |
| CommandFacts.ResetsAll | shellinabox/shellinabox/vt100.js:195-264 | ESC c: every setting as at the start, on the normal screen, which is blank, with its history kept; from the alternate screen the saved attributes come back with it |
| CommandFacts.FontChosen | shellinabox/shellinabox/vt100.js:3748-3762 | CSI 10, 11 and 12 m choose the set that text shows through and whether controls are shown |
| CommandFacts.OtherRenditions | shellinabox/shellinabox/vt100.js:3739-3784 | What the parameters of CSI m do that no look needs; unknown ones do nothing |
| CommandFacts.SwitchesMean | shellinabox/shellinabox/vt100.js:3839-3848 | CAN and SUB give up any sequence; the controls above 0x7F set a tab stop, shift, or start a sequence |
| CommandFacts.TextInserted | shellinabox/shellinabox/vt100.js:4217-4221 | In insert mode a text pushes the rest of the row to the right; what passes the border is lost |
| AnswerFacts.RequestsAnswered | shellinabox/shellinabox/vt100.js:4009-4016 | CSI 5 n, CSI 6 n and CSI c, character by character and in any state, are answered exactly once, with the cursor's row and column counted from one |
| AnswerFacts.IdentityAnswered | shellinabox/shellinabox/vt100.js:3876-3876 | ESC Z is answered with the terminal's identity |
| AnswerFacts.VersionAnswered | shellinabox/shellinabox/vt100.js:3937-3939 | CSI > c is answered with the version |
| AnswerFacts.OthersSilent | shellinabox/shellinabox/vt100.js:3965-4042 | No other sequence of one parameter is answered |
| TravelFacts.TabGoes | shellinabox/shellinabox/vt100.js:3143-3171 | A tab goes to the first stop behind the cursor, or to the last column |
| TravelFacts.DefaultStops | shellinabox/shellinabox/vt100.js:3143-3201 | Without stops set or cleared, that is the next eighth column, and the one before it backwards |
| TravelFacts.SequenceTabs | shellinabox/shellinabox/vt100.js:3987-4038 | CSI I and CSI Z are as many tabs to the right or left as their count |
| TravelFacts.SequenceFeeds | shellinabox/shellinabox/vt100.js:3997-3998 | CSI S and CSI T are as many line feeds or reverse ones as their count, at most one for each row |
| TravelFacts.SequenceRepeats | shellinabox/shellinabox/vt100.js:4028-4035 | CSI b is the last character as text again, as often as its count, at most once for each position of the screen |
| TravelFacts.EncodingSwitched | shellinabox/shellinabox/vt100.js:4049-4056 | ESC % G and ESC % 8 turn UTF-8 on, ESC % @ turns it off |
| TravelFacts.SingleShifted | shellinabox/shellinabox/vt100.js:4098-4111 | ESC N and ESC O show one character through G2 or G3 |
| TravelFacts.TextDrawn | shellinabox/shellinabox/vt100.js:4192-4228 | Which characters of the tables are text, with and without the display of controls, and that they are drawn through the set in use |
| PageFacts.SavedRestores | shellinabox/shellinabox/vt100.js:3307-3332 | A saved cursor is restored if and only if origin mode does not keep it out of its row |
| PageFacts.AlternateReturns | shellinabox/shellinabox/vt100.js:1929-1978 | Going to the alternate screen and straight back leaves text, history, region and column of the normal one as they were, and the row if and only if origin mode allows it |
| PageFacts.AlternateRestores | shellinabox/shellinabox/vt100.js:1929-1978 | After any input that stays on the alternate screen, leaving it brings back page, history, column and attributes, and the row if and only if the origin mode and region then allow it |
| PageFacts.OtherPageSafe | shellinabox/shellinabox/vt100.js:3817-4118 | A character that does not switch pages leaves the other page alone |
| PageFacts.NormalPageSafe | shellinabox/shellinabox/vt100.js:4147-4247 | Whatever a program sends while it stays on the alternate screen, text, history and saved cursor of the normal one stay as they were |
| SwitchFacts.TabsCleared | shellinabox/shellinabox/vt100.js:4000-4008 | CSI 3 g and CSI 2 g leave no tab stop in any column, and a tab then goes to the last one |
| SwitchFacts.DesignatedText | shellinabox/shellinabox/vt100.js:4066-4083 | After a designation and a kind of character set, all that is typed shows through that set, until another is chosen, if its place is in use |
| SwitchFacts.SetDesignated | shellinabox/shellinabox/vt100.js:3858-4085 | Each designation puts its set into its own place of G0 to G3, and into use exactly if that place is |
| SwitchFacts.TextThrough | shellinabox/shellinabox/vt100.js:4192-4224 | Typed text of any length is drawn as its translation, and changes no mode and no set |
| SwitchFacts.ShiftedText | shellinabox/shellinabox/vt100.js:3833-3838 | Text between SO and SI shows through G1, and everything else is afterwards as it was |
| SwitchFacts.PrinterHolds | shellinabox/shellinabox/vt100.js:3503-3602 | While printing, no input of any length changes the screen or anything but how input is read |
| SwitchFacts.PrinterSteps | shellinabox/shellinabox/vt100.js:3817-3821 | Printing ends exactly with the character that, decoded, completes CSI 4 i |
| SwitchFacts.PrinterEnds | shellinabox/shellinabox/vt100.js:3503-3602 | CSI 4 i turns the printer off whatever was printed before |
| SwitchFacts.PrinterStays | shellinabox/shellinabox/vt100.js:3503-3602 | CSI ? 4 i does not |
| Utf8Facts.FormIsUnit | shellinabox/shellinabox/vt100.js:4153-4191 | One, two and three byte forms, shortest or not, decode to their code unit, whatever was being decoded before |
| Utf8Facts.PrintedDecodes | shellinabox/demo/demo.js:203-227 | The terminal's decoder returns every 16-bit string from printUnicode's output, although ASCII is sent in two bytes there |
| Utf8Facts.PrintedActs | shellinabox/demo/demo.js:203-227 | In a terminal that decodes UTF-8, a printed character acts as the character itself |
| Utf8Facts.SocketTextDecodes | shellinabox/libhttp/httpconnection.c:1820-1842 | The terminal's decoder returns every Latin-1 text that the web socket sends |
| WebSocket.Connection.HandleWebSocket | shellinabox/libhttp/httpconnection.c:1279-1411 | One buffer, processed in runs, leaves the state and the messages of the byte-at-a-time decoder; 0 is returned exactly when a length does not fit; expecting stays within -1 and 2^31 - 1 |
| WebSocket.Connection.HandleBuffered | shellinabox/libhttp/httpconnection.c:1350-1372 | A run of payload is handed over under the right type, up to the end of its frame |
| WebSocket.Connection.ReadHeader | shellinabox/libhttp/httpconnection.c:1284-1310 | Type and length bytes, with the guard against overflow |
| WebSocket.DecodeConcat | shellinabox/libhttp/httpconnection.c:1279-1411 | The stream may be cut anywhere |
| WebSocket.LengthReads | shellinabox/libhttp/httpconnection.c:1287-1300 | The base-128 form of a length is read back if and only if it is at most 2^31 - 1 |
| WebSocket.SendText | shellinabox/libhttp/httpconnection.c:1801-1851 | The measured buffer is filled exactly with type byte, UTF-8 text and end byte |
| WebSocket.PutDigits | shellinabox/libhttp/httpconnection.c:1863-1870 | The length's base-128 digits, least significant first, fit in five bytes |
| WebSocket.ReverseDigits | shellinabox/libhttp/httpconnection.c:1872-1877 | The digits are reversed in place, and the type byte stays |
| WebSocket.SendBinary | shellinabox/libhttp/httpconnection.c:1853-1882 | What is sent: type byte, marked digits in reverse, payload |
| WebSocket.TextRoundTrip | shellinabox/libhttp/httpconnection.c:1820-1850 | A text message is decoded as its type and UTF-8 bytes; an empty one is not delivered |
| WebSocket.BinaryRoundTrip | shellinabox/libhttp/httpconnection.c:1862-1881 | A binary message is decoded as it was sent if and only if it is shorter than 128 bytes: of several digits, the first one is left unmarked |
| WebSocket.StreamRoundTrip | shellinabox/libhttp/httpconnection.c:1801-1882 | Any stream of messages, none of them binary and long, arrives message by message |
| HttpLines.HttpConnection.Receive | shellinabox/libhttp/httpconnection.c:1490-1601 | However the stream is cut into reads, the lines handed to the parser and the kept rest are those of the byte-at-a-time reader; the rest never contains a line end and its length is tracked |
| HttpLines.HttpConnection.ReceiveEnd | shellinabox/libhttp/httpconnection.c:1519-1540 | An unfinished line at the end of the stream counts as a line |
| HttpLines.HttpConnection.GetChar | shellinabox/libhttp/httpconnection.c:957-966 | Negative offsets read the kept bytes, others the new ones, never outside either |
| HttpLines.HttpConnection.ScanLine | shellinabox/libhttp/httpconnection.c:1500-1525 | The line's end is found, with the first colon, the first blank and the last blank after it |
| HttpLines.HttpConnection.PushBack | shellinabox/libhttp/httpconnection.c:1573-1591 | The unfinished line is kept as a whole, whichever buffers it is in |
| HttpLines.HttpConnection.NextStep | shellinabox/libhttp/httpconnection.c:1497-1596 | One line, or the rest, is taken from the stream |
| HttpLines.ReadConcat | shellinabox/libhttp/httpconnection.c:1490-1601 | The stream may be cut anywhere |
| HttpLines.LinesGlue | shellinabox/libhttp/httpconnection.c:1500-1540 | The lines and the rest are exactly the bytes that were read, but for empty lines: none is lost, moved or read twice; unless the parser refuses a line, all are read |
| HttpLines.EndGlues | shellinabox/libhttp/httpconnection.c:1490-1601 | At the end of the stream the unfinished line is handed over too: the lines are then all of the stream, but for empty lines |
| HttpLines.RefusalStops | shellinabox/libhttp/httpconnection.c:1490-1601 | After a line that the parser refuses, nothing is handed over any more, and the connection is open exactly as long as it refused none |
| Trie.AddFinds | shellinabox/libhttp/trie.c:111-175 | A key that was added is found with its value and all others as before, whatever branches are split |
| Trie.HistoryIsMap | shellinabox/libhttp/trie.c:93-228 | From any history of keys added, lookup is that of a finite map |
| Trie.AddSound | shellinabox/libhttp/trie.c:93-175 | Children keep different first bytes, and only leaves are entered by NUL |
| Trie.LongestIsLongest | shellinabox/libhttp/trie.c:177-228 | The match of a search by prefix is the longest stored key that is a prefix of the query |
| Trie.ValuesConserved | shellinabox/libhttp/trie.c:146-160 | The value handed to the destructor is exactly the one that is no longer stored: values stored and destroyed are conserved |
| TrieNodes.Node.AddTo | shellinabox/libhttp/trie.c:111-175 | Nodes rewritten in place stand for the tree with the key added, and the displaced value is destroyed |
| TrieNodes.Node.SplitAt | shellinabox/libhttp/trie.c:117-144 | A branch is split in place; its children move to the lower half |
| TrieNodes.Node.Append | shellinabox/libhttp/trie.c:161-174 | A new child is appended and the others stay |
| TrieNodes.Node.ReplaceValue | shellinabox/libhttp/trie.c:152-158 | A stored value is replaced and handed to the destructor |
| TrieNodes.Node.AddLeaf | shellinabox/libhttp/trie.c:93-109 | A new branch ends in a leaf with the value |
| TrieNodes.Node.Mismatch | shellinabox/libhttp/trie.c:116-118 | The first byte at which key and branch differ, the end of the key included |
| TrieNodes.Node.ScanChildren | shellinabox/libhttp/trie.c:194-226 | The child for a byte, and the end of a key seen before or behind it |
| TrieNodes.Node.Get | shellinabox/libhttp/trie.c:177-228 | Exact lookup, or the longest stored prefix and the rest of the key behind it |
| TrieNodes.Node.Destroy | shellinabox/libhttp/trie.c:73-86 | Every stored value is handed to the destructor, once |
| HashMap.HashMap.Add | shellinabox/libhttp/hashmap.c:104-156 | For any hash function the table stays a finite map with the key updated; a replaced entry is destroyed; the count is at least the number of entries; nested growth terminates |
| HashMap.HashMap.Rehash | shellinabox/libhttp/hashmap.c:106-131 | All bindings survive a growth, and nothing is destroyed |
| HashMap.HashMap.MoveBucket | shellinabox/libhttp/hashmap.c:117-126 | Each entry is added to the larger table as a new one: the path for duplicates is never taken, and nothing is destroyed |
| HashMap.HashMap.Put | shellinabox/libhttp/hashmap.c:132-155 | An entry is replaced or appended in its own bucket |
| HashMap.HashMap.GetRef | shellinabox/libhttp/hashmap.c:188-203 | A key is found where its value is stored, or is not in the table |
| HashMap.HashMap.Delete | shellinabox/libhttp/hashmap.c:158-186 | The key is removed, all others stay, and the count does not drop below zero |
| HashMap.HashMap.RemoveFrom | shellinabox/libhttp/hashmap.c:167-185 | The last entry takes the removed one's place, and the loop that goes on removes no more |
| HashMap.HashMap.Iterate | shellinabox/libhttp/hashmap.c:210-239 | Every entry is visited once and stays, with its new value, exactly if it is accepted; the refused ones, with the values that they were left with, are handed to the destructor in that order, and no others; the count is left as it is |
| HashMap.HashMap.VisitBucket | shellinabox/libhttp/hashmap.c:215-236 | The same for one bucket, with the last entry moved into each gap |
| ServerLoop.Server.Partition | shellinabox/libhttp/server.c:485-511 | The swaps permute connections together with their poll entries, put all with events before all without, and the timeout is the least one set, or -1 |
| ServerLoop.Server.FillFrom | shellinabox/libhttp/server.c:489-506 | Connections without events are swapped behind the end of those to poll |
| ServerLoop.Server.Add | shellinabox/libhttp/server.c:365-387 | A connection and its poll entry are appended together |
| ServerLoop.Server.Compact | shellinabox/libhttp/server.c:598-607 | Exactly the connections that are not deleted stay, in order, with their poll entries |
| ServerLoop.Server.DropAt | shellinabox/libhttp/server.c:600-605 | Both arrays close the gap together |
| ServerLoop.Server.GetConnection | shellinabox/libhttp/server.c:422-453 | With any hint the result is that of the linear search, when live descriptors are unique |
| ServerLoop.Server.Delete | shellinabox/libhttp/server.c:389-397 | The first live connection with the descriptor is marked |
| ServerLoop.Server.Dispatch | shellinabox/libhttp/server.c:571-597 | In a round that starts without deleted connections, exactly those with an event or a timeout that is looked at are handled; old reports of connections that were not polled never count |
| ServerLoop.DueMeans | shellinabox/libhttp/server.c:571-597 | A connection is handled if and only if it is live and has an event, or its time is over and the round is one for timeouts or still has an event to handle |
| ServerLoop.OnlyLive | shellinabox/libhttp/server.c:425-446 | With unique live descriptors a hint that fits is what the linear search finds |
| Session.Session.constructor | shellinabox/shellinabox/shellinaboxd.c:386-475 | A request that opens a session is answered at once, with nothing |
| Session.Session.CompletePendingRequest | shellinabox/shellinabox/shellinaboxd.c:200-274 | A waiting request is answered with buffered and new output, up to the limit; without one the output is kept; the session ends only when its child is gone and nothing is buffered |
| Session.Session.HandleSession | shellinabox/shellinabox/shellinaboxd.c:284-320 | Output of the child goes to a waiting request, or is kept |
| Session.Session.HandlePoll | shellinabox/shellinabox/shellinaboxd.c:441-475 | A new request first answers an older one, then takes what is buffered, up to the limit, or waits |
| Session.Session.HandleKeys | shellinabox/shellinabox/shellinaboxd.c:415-440 | When the child's input is full, a bell is shown in its place among the output |
| Session.Session.SessionDone | shellinabox/shellinabox/shellinaboxd.c:276-282 | The end of the child answers a waiting request, and leaves the remaining output to be fetched |
| Session.Session.Run | shellinabox/shellinabox/shellinaboxd.c:200-475 | Any list of events, as far as they can happen, leads to the state that the one-step specification gives, event after event |
| Session.SessionConserves | shellinabox/shellinabox/shellinaboxd.c:200-475 | Over every list of events of a new session: data sent followed by data buffered is all that was written, in order; the requests answered followed by the waiting one are all that came; a finished session has sent all and answered all |
| Session.RunConserves | shellinabox/shellinabox/shellinaboxd.c:200-475 | The same from any state, with what every run keeps: a request waits only while nothing is buffered, and replies carry at most 2048 raw bytes |
| Session.AllHappen | shellinabox/shellinabox/shellinaboxd.c:284-475 | When all events can happen, nothing is left out of what was written |
| Session.OutputMoves | shellinabox/shellinabox/shellinaboxd.c:217-245 | Output reaches a waiting request at once; a request that finds data takes the first 2048 bytes of it, or all; one that finds none waits, and an older one is answered empty |
| Session.Drains | shellinabox/shellinabox/shellinaboxd.c:224-273 | Once the child is gone, every request takes the next 2048 bytes, and the session ends with exactly the request that takes the last |
| EndToEnd.OutputIsShown | shellinabox/shellinabox/shellinaboxd.c:200-475 | Over every run of a session, what the terminal shows after all replies, escaped, read and shown one by one, and then what is buffered, is what the child's whole output would show; at the end nothing is missing |
| Json.JsonEscape | shellinabox/shellinabox/shellinaboxd.c:124-186 | The counted buffer is filled exactly with the escaped text and a NUL |
| Json.CountEscaped | shellinabox/shellinabox/shellinaboxd.c:127-149 | The first pass counts the length of the second's output |
| Json.RoundTrip | shellinabox/shellinabox/shellinaboxd.c:124-186 | A JSON string reader returns every byte as the code unit of the same value |
| Keys.KeysPressed | shellinabox/shellinabox/shell_in_a_box.js:255-286 | The digits that are sent for a string, the late mask of three-byte characters included |
| Keys.DecodeKeys | shellinabox/shellinabox/shellinaboxd.c:413-433 | The bytes of the digits up to the first other character; half the length is always enough room |
| Keys.KeysArrive | shellinabox/shellinabox/shell_in_a_box.js:255-286 | The child gets the UTF-8 form of what was typed if and only if all code units are below 0x800 |
| KeyClient.ShellInABox.SendKeys | shellinabox/shellinabox/shell_in_a_box.js:214-244 | While connected, keys leave together with the waiting ones if no request is unanswered and the session is known, and wait otherwise; while not connected none are taken |
| KeyClient.ShellInABox.KeyPressReadyStateChange | shellinabox/shellinabox/shell_in_a_box.js:246-253 | After the answer, all waiting keys are on their way in one request if the session is still there |
| KeyClient.ShellInABox.OnReadyStateChange | shellinabox/shellinabox/shell_in_a_box.js:189-212 | A reply connects, and a session once known never changes but by closing |
| KeyClient.ShellInABox.Run | shellinabox/shellinabox/shell_in_a_box.js:189-295 | Any list of events leads to the state that the one-step specification gives, event after event |
| KeyClient.ShellInABox.Reconnect | shellinabox/shellinabox/shell_in_a_box.js:139-162 | A new session forgets what waits and that a request is unanswered; keys still on their way are for no child of it |
| KeyClient.RunConserves | shellinabox/shellinabox/shell_in_a_box.js:189-295 | Between reconnections, over every order of typing, delivery, answers and closing: at most one request with keys is unanswered, and what the child got, what is on the way and what waits are the keys typed while connected, in order |
| KeyClient.SessionKept | shellinabox/shellinabox/shell_in_a_box.js:201-204 | Between reconnections a known session changes only by its end: the link stays as it is if and only if no reply comes with another key or with none, and the session is not closed |
| KeyClient.SessionOpened | shellinabox/shellinabox/shell_in_a_box.js:201-206 | The first reply with a key makes the session known, and one without closes it |
| KeyClient.SessionConserves | shellinabox/shellinabox/shell_in_a_box.js:139-295 | The same for the keys of the last session, over every run whose reconnections find all requests answered |
| KeyClient.RunCounts | shellinabox/shellinabox/shell_in_a_box.js:139-295 | Over every run, each key typed was given to a child, or is on its way or waits, or was lost by a reconnection, once |
| KeyClient.KeysLost | shellinabox/shellinabox/shell_in_a_box.js:139-162 | No key is lost if and only if at each reconnection nothing waits and the child was given all that was sent |
| KeyClient.ReconnectOrders | shellinabox/shellinabox/shell_in_a_box.js:139-253 | After a reconnection, one unanswered request at a time can be relied on if and only if it left no request without its answer |
| KeyClient.KeysOvertaken | shellinabox/shellinabox/shell_in_a_box.js:139-253 | Otherwise an old answer sends a second request, and the child may be given the later of two keys first |
| KeyClient.StaysMoving | shellinabox/shellinabox/shell_in_a_box.js:214-253 | While the connection stays, keys only wait for an answer that is still to come |
| KeyClient.KeysReachChild | shellinabox/shellinabox/shell_in_a_box.js:214-253 | Then one round trip gives the child every key typed |
| Url.EscapeUrl | shellinabox/shellinabox/launcher.c:508-517 | The loop ends, no special character is left, and exactly the special ones are escaped |
| Url.EscapeAt | shellinabox/shellinabox/launcher.c:510-516 | One character is replaced by its sequence in place, and the rest moves up |
| Url.UrlUnescape | shellinabox/libhttp/url.c:69-95 | In-place unescaping gives the specified text; the write position never passes the read position |
| Url.ReadChar | shellinabox/libhttp/url.c:72-92 | What a plus, a complete or a malformed sequence stands for |
| Url.EscapePreserves | shellinabox/shellinabox/launcher.c:508-517 | Unescaping the escaped URL gives what unescaping the URL gives, malformed sequences included |
| Url.UnescapeForm | shellinabox/libhttp/url.c:69-95 | Whatever a browser escapes is given back: plus signs for spaces, two digits for a byte |
| Url.UnescapeMalformed | shellinabox/libhttp/url.c:72-92 | A percent sign without a digit stays, and a single digit becomes a character |
| Basic.Demo.EvalExpr | shellinabox/demo/demo.js:700-734 | The loop over terms is the specified left-to-right evaluation, and takes the same tokens |
| Basic.Demo.EvalTerm | shellinabox/demo/demo.js:736-765 | The loop over factors, likewise |
| Basic.Demo.EvalFactor | shellinabox/demo/demo.js:964-1002 | Numbers, parentheses and the minus sign, with the tokens that they take |
| Basic.ExprReads | shellinabox/demo/demo.js:700-1033 | Evaluating the printed tokens of any tree, with no operator behind them, gives its value and takes exactly those tokens |
| Basic.MinusTakesAll | shellinabox/demo/demo.js:964-976 | A minus sign takes in the whole sum behind it, of any length: without parentheses a negated first term is read as intended if and only if the rest of the sum comes to zero |
| Basic.MissingParenthesis | shellinabox/demo/demo.js:980-986 | An expression in a parenthesis that is not closed is an error |
| Program.Store.FindLine | shellinabox/demo/demo.js:683-698 | Binary search finds the line, or the position where it belongs |
| Program.Store.Enter | shellinabox/demo/demo.js:265-291 | Storing and deleting lines keeps them sorted and updates the map from numbers to texts, except that the first line is not deleted |
| Clike.Mode.Token | Editor/src/main/webapp/lib/clike.js:111-137 | The context after a token, with the alignment that the first token on a line decides |
| Clike.Mode.Indent | Editor/src/main/webapp/lib/clike.js:138-144 | The indentation in every kind of context, aligned or not, and inside a token |
| Clike.BracketKept | Editor/src/main/webapp/lib/clike.js:92-136 | While a bracket is open, its context keeps its place and the alignment that the first token behind it gave, whatever text and brackets follow; so does the outermost context |
| Clike.BracketIndents | Editor/src/main/webapp/lib/clike.js:111-144 | Behind an open bracket and any matched text, lines are indented by a unit if the bracket ended its line, and otherwise start next to it; a line that closes it starts where the bracket's line or the bracket does; the context is a statement if and only if one has begun in the block and not ended |
| Clike.StatementTracked | Editor/src/main/webapp/lib/clike.js:111-136 | Whatever the text, a statement lies on a bracket exactly if it is a block in which one has begun and not ended |
| Clike.StatementEnds | Editor/src/main/webapp/lib/clike.js:123-133 | After a statement's first token, any matched text that does not end it, and a semicolon, a colon or the brace of a block in it, the context is the block's again, only its alignment decided |
| Clike.TopIndents | Editor/src/main/webapp/lib/clike.js:102-144 | Outside all brackets every line starts at the base column |
| Clike.StatementKept | Editor/src/main/webapp/lib/clike.js:111-136 | A statement's context stays through any text that does not end it |
| Clike.StatementIndents | Editor/src/main/webapp/lib/clike.js:123-141 | A line that goes on with a statement in a block is indented by a unit more than the line where the statement starts, but for an opening brace, whatever brackets were opened and closed in between |
| Clike.ContextsMatch | Editor/src/main/webapp/lib/clike.js:92-136 | While brackets match, the contexts are the open brackets, with at most a statement above each block; the outermost context is never left, whatever the text |
| Clike.BracketsRestore | Editor/src/main/webapp/lib/clike.js:92-136 | A text whose brackets match restores the context that it started in, up to one statement on top, and touches nothing below |

## Left out

- Browser UI: the DOM, pixels, mouse and keyboard events, menus, the soft keyboard, beeps, cookies and cursor visibility have no modelled meaning; lines and runs stand for the elements that vt100.js edits, and URLs are not made into links.
- Sizes: width and height are fixed; resizing, 132 columns and the clipping of lines when the window shrinks come from the browser.
- Printing: what the printer window shows; only the mode and the parser state are modelled.
- Modes without effect on the text: key modes, mouse reporting, inversion, the visible bell and palettes.
- Terminal.Vt100.CsiM: the code's clamp names variables that do not exist; it is read as the fields of the terminal, as in CsiL.
- ScreenFacts.EraseDisplayErases: states what the code does; a usual terminal erases the last row as well.
- The colour of rows vacated by whole-line scrolling: they show as default blanks.
- Parameters are unbounded numbers; the code's are floating-point numbers, exact up to 2^53.
- WebSocket.Connection.HandleWebSocket: the branch for bytes kept from before the upgrade, the end-of-frame flag on text, and handlers that refuse a message are not modelled.
- HttpLines.HttpConnection.Receive: requests with payload, the limit on the size of headers and the detection of SSL are not modelled; a parser that refuses a line closes the connection.
- Trie and hash table: allocation, and NULL as a stored value.
- HashMap: keys are compared by value, and the hash function is any function.
- ServerLoop.Server.Dispatch: handlers that add or delete other connections during a round are not modelled; sockets and poll are arbitrary inputs.
- Session.Session.Run: expiry by time, requests closed by the network, HEAD requests and partial writes to the child are not modelled.
- KeyClient.ShellInABox.Run: requests that fail, reloading the page instead of reconnecting, and keys that reach a child of an earlier session after the reconnection are not modelled.
- Keys.KeysPressed: the branch for code points beyond 16 bits cannot be reached by code units.
- Basic.Demo.EvalExpr: division, powers, strings, variables, functions and floating point are not modelled; numbers are exact integers.
- Program.Store.Enter: the first line is not deleted by the code, and the contract says so.
- Clike.Mode.Token: how characters form tokens, and the styles of tokens.
- PAM, launching processes, SSL, logging, configuration and the GeSHi data files.

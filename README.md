# Tic-tac-toe client: the protocol engine

This project models the client side of a networked tic-tac-toe game (`client.c`). The
client is given a fixed byte stream from the server and a fixed sequence of lines from
the user. It then does the following:

- reads its player identity as a single digit;
- waits for the start tag `SRT`, printing a notice for each `HLD` on the way;
- announces its mark ('X' for a non-zero identity, 'O' otherwise) and draws the empty board;
- runs the active loop. Each pass reads one three-byte tag:
  - `TRN` prompts until a line starts with a digit and sends that digit;
  - `INV` and `WAT` only print;
  - `CNT` reads one more digit, the player count;
  - `UPD` reads the acting player and the move, marks the cell and redraws;
  - `WIN`, `LSE` and `DRW` end the game, after which the socket is closed;
  - anything else is fatal.

The project has five modules:

- `Wire` (wire.dfy) is the byte codec. It covers recv_msg's zeroed, NUL-terminated
  four-byte buffer, and recv_int's `msg - '0'` on a signed `char`. It also covers
  write_server_int's `msg + '0'` cast to `char`, and a receive that comes up short when
  the stream runs out.
- `Tags` (tags.dfy) holds the ten tags and the `strcmp` classification of the buffer.
- `Board` (board.dfy) is the 3x3 `char` board: a move placing a mark, and the exact text
  draw_board prints.
- `Prompt` (prompt.dfy) is take_turn's reading of `buffer[0]`.
- `Protocol` (protocol.dfy) is a pure reference semantics of the whole session, from the
  identity digit to the end of the active loop. Its properties are proved there:
  - each tag's effect;
  - the board only ever holds spaces and marks;
  - only digit bytes are ever sent;
  - the announced mark is the identity's;
  - the wait loop skips every message before SRT;
  - complete traced sessions.
- `Engine` (engine.dfy) is the client as it runs. It is a class with a receive cursor, a
  `char board[3][3]` array updated in place and a `msg` buffer. It has one method per C
  function and one method per part of `main`. Each method is proved to do what `Protocol`
  says, and `Engine.Client.Run` ends exactly as `Protocol.Play` does.

Two behaviours of the code are worth stating, and the model follows the code in both:

- The wait loop (client.c:242-246) skips every three-byte message that is not `SRT`: `HLD`,
  but also `TRN`, `WIN` or bytes that are no tag at all. Only the active loop treats a
  message it does not know as fatal (client.c:287-288).
- error() exits without calling closesocket (client.c:60-69). So the model closes the
  socket once, after `WIN`, `LSE` or `DRW`; on a fatal exit it is the operating system
  that closes it.

## Model

| member | source | states |
|---|---|---|
| Wire.CharValue | client.c:93 | the value of a byte stored in a signed `char` lies in -128..127 and is the byte modulo 256 |
| Wire.DecodeDigit | client.c:91-104 | recv_int's value lies in -176..79 for a signed char, and is 0..9 exactly for the bytes '0'..'9' |
| Wire.EncodeDigit | client.c:111-113 | the byte sent is `v + '0'` modulo 256, and a digit value 0..9 travels as one of '0'..'9' |
| Wire.DigitRoundTrip | client.c:103-113 | every value 0..9 that is sent decodes back to itself |
| Wire.RoundTripExactly | client.c:103-113 | a value survives write_server_int then recv_int exactly when it is in -176..79 |
| Wire.EncodeInvertsDecode | client.c:103-113 | re-encoding the decoded value of any byte gives that byte back |
| Wire.Recv | client.c:80 | one receive delivers the next `n` bytes of the stream, or all that remain when fewer are left |
| Wire.Padded | client.c:79-80 | the zeroed buffer after a receive holds the received bytes followed by NULs up to its width |
| Wire.MsgAt | client.c:76-88 | recv_msg succeeds exactly when three bytes remain, and then yields them followed by a NUL; a short read consumes the rest of the stream |
| Wire.MsgAtIsPaddedRecv | client.c:79-83 | recv_msg's outcome is the zeroed four-byte buffer filled by one three-byte receive, judged by whether three bytes arrived |
| Wire.IntAt | client.c:91-104 | recv_int succeeds exactly when a byte remains, and consumes exactly one |
| Wire.IntAtIsRecv | client.c:94-103 | recv_int's outcome is one one-byte receive, decoded as `msg - '0'` |
| Tags.Spelling | client.c:244-283 | each tag is three bytes, none of them NUL |
| Tags.SpellingInjective | client.c:244-288 | no two tags are spelt alike, so a buffer matches at most one branch |
| Tags.CString | client.c:244-246 | the string `strcmp` sees is the buffer up to its first NUL, which it does not contain |
| Tags.Classify | client.c:244-288 | a tag is found exactly when the buffer's C string is its spelling, and none when it spells no tag |
| Tags.ClassifyFrame | client.c:243-257 | for three received bytes and a NUL, the buffer matches tag `t` exactly when those bytes spell `t` |
| Board.Symbol | client.c:208 | get_update's and the announcement's `id ? 'X' : 'O'`; its properties are stated by SymbolOfIdentity |
| Board.SymbolOfIdentity | client.c:208 | identity 0 gets 'O' and 1 gets 'X'; every identity gets a mark and never a space, and 'X' exactly when non-zero |
| Board.Placed | client.c:208 | a move gives its cell the player's mark and leaves the other eight cells as they were |
| Board.PlacedKeepsCells | client.c:208 | a move keeps every cell a space or a mark, and never clears a marked cell |
| Board.Render | client.c:171-178 | the board is drawn as 60 characters of text |
| Board.RenderShowsCell | client.c:173-177 | the drawn text shows cell `k` at column `1 + 4 * (k % 3)` of printed line `2 * (k / 3)` |
| Board.LineFrameFixed | client.c:173 | a printed row's text outside its three cells does not depend on the cells |
| Board.RenderFrameFixed | client.c:173-177 | every drawn character that is not a cell is the same for every board |
| Board.RenderInjective | client.c:171-178 | different boards are drawn differently |
| Board.Flatten | client.c:208 | cell `k` of the board is `board[k/3][k%3]` |
| Board.PlaceMark | client.c:208 | the in-place store changes the array's cells exactly as `Placed` says |
| Board.Draw | client.c:171-178 | the text printed from the array is the rendering of its current cells |
| Prompt.FirstByte | client.c:187-188 | `buffer[0]` after fgets has stored a line, which is `'\n'` for an empty one; its properties are stated by AcceptsIffDigit |
| Prompt.MoveOf | client.c:188 | the move a line asks for, `buffer[0] - '0'`; its properties are stated by AcceptsIffDigit |
| Prompt.Accepts | client.c:189 | take_turn's test `move <= 9 && move >= 0`; AcceptsIffDigit states the lines it accepts |
| Prompt.AcceptsIffDigit | client.c:188-189 | a line is accepted exactly when it starts with '0'..'9'; the digit sent is that first byte; 9 is accepted |
| Prompt.FirstAccepted | client.c:185-197 | the line take_turn settles on is accepted, and every line it read before it was rejected; with none, all remaining lines are rejected |
| Protocol.AwaitStart | client.c:242-246 | the wait loop, when it ends, has consumed at least one whole message and no more than the stream |
| Protocol.OtherTagIsNoStart | client.c:244-246 | HLD, and every tag other than SRT, is a message the wait loop passes over |
| Protocol.AwaitStartAt | client.c:242-246 | with a whole message at the cursor, the loop stops just after it if it is SRT and otherwise goes on after it |
| Protocol.AwaitStartEndsOnStart | client.c:246 | the wait loop ends only just after three bytes spelling SRT |
| Protocol.AwaitStartSkips | client.c:242-246 | after any `n` whole messages that are not SRT, an SRT ends the loop just after it |
| Protocol.AwaitStartShort | client.c:242-246 | a stream that ends before any SRT makes the wait loop fail |
| Protocol.Opening | client.c:228-246 | the identity is the first byte decoded, and the active loop starts after at least four bytes |
| Protocol.OpeningEndsOnStart | client.c:242-254 | the active loop starts right after the SRT that ended the wait |
| Protocol.OpeningAfterWaits | client.c:228-246 | identity digit, any number of non-SRT messages, then SRT: the session begins after the SRT with that identity |
| Protocol.UpdateAt | client.c:201-209 | an update succeeds exactly when both digits arrive and the move is 0..8, and then places the first digit's mark at the move; it fails with a read error or an out-of-range move otherwise |
| Protocol.Dispatch | client.c:257-288 | when the loop goes on, the server cursor is at or past the tag just read; either way the cursors stay within the input and the board has nine cells (that the line cursor only moves forward is DispatchPreserves) |
| Protocol.ActiveStep | client.c:254-289 | each pass of the loop that goes on has consumed at least one byte |
| Protocol.Active | client.c:254-289 | the loop ends in a state within the input |
| Protocol.StepAt | client.c:255-257 | a tag at the cursor is dispatched as itself, three bytes on |
| Protocol.StepOnTurn | client.c:257-260 | TRN sends exactly the first byte of the first accepted line and changes nothing else; with no accepted line left nothing is sent |
| Protocol.StepOnNotice | client.c:261-274 | INV and WAT read nothing more, send nothing and leave the board alone |
| Protocol.StepOnCount | client.c:264-267 | CNT reads exactly one more byte, and its absence is fatal |
| Protocol.StepOnUpdate | client.c:268-271 | UPD reads two digits, marks exactly the move's cell with the player's mark, and draws the new board |
| Protocol.StepOnBadUpdate | client.c:268-271 | an UPD with a missing digit is fatal, one with a move outside 0..8 stops; neither touches the board or sends |
| Protocol.OutcomeOf | client.c:275-286 | exactly WIN, LSE and DRW announce an outcome |
| Protocol.StepOnEnd | client.c:275-286 | WIN, LSE and DRW end the loop with their outcome right after the tag |
| Protocol.StepOnUnknown | client.c:287-288 | three bytes that are no active-phase tag (HLD and SRT included) are fatal |
| Protocol.StepOnShortRead | client.c:255 | fewer than three bytes left for a tag is fatal |
| Protocol.Play | client.c:227-289 | main from the identity digit to the end of the active loop; PlaySound states its properties, and Engine.Client.Run is proved to end equal to it |
| Protocol.TurnPreserves | client.c:185-197 | answering a turn appends only a digit byte and moves forward |
| Protocol.UpdatePreserves | client.c:208 | an update keeps the board well formed and clears no mark |
| Protocol.DispatchPreserves | client.c:257-288 | every branch keeps the board well formed and the sent bytes digits, and only moves forward |
| Protocol.StepPreserves | client.c:254-289 | every pass of the loop keeps these invariants |
| Protocol.ActivePreserves | client.c:254-289 | the whole active loop keeps them: only digits sent, no mark cleared, what was sent and drawn kept |
| Protocol.PlaySound | client.c:228-289 | over a session: the board is well formed; only digits are sent; a mark is announced exactly when the opening completed, right after an SRT, and it is the identity's; the empty board is drawn first; otherwise a read failed and nothing was sent |
| Protocol.UpdateThenWin | client.c:268-277 | UPD by player 1 at cell 4 then WIN: 'X' in the centre, one more drawing, a win |
| Protocol.TurnAnswered | client.c:257-260 | TRN with an acceptable line next sends that line's first byte, uses up the line, and the loop goes on |
| Protocol.TurnUpdateWin | client.c:257-277 | TRN answered "4", then UPD 1 4, then WIN: '4' is sent, the board gains 'X' in the centre, and the client wins |
| Protocol.WinScenario | client.c:228-277 | a complete winning session with a HLD before SRT: the client is 'X', sends '4', ends with 'X' in the centre, draws twice and wins |
| Protocol.TurnThenNotice | client.c:257-274 | TRN then INV or WAT: one byte is sent and the loop continues six bytes on |
| Protocol.RetryAfterInvalid | client.c:257-274 | TRN, INV, TRN, WAT: two moves are sent, in order, and the loop continues |
| Engine.Client.constructor | client.c:234-237 | the client starts at the stream's start with a blank board, nothing sent, drawn or announced |
| Engine.Client.RecvMsg | client.c:76-88 | the buffer is the zeroed buffer after one receive of three bytes, and success and cursor are as MsgAt says |
| Engine.Client.RecvInt | client.c:91-104 | one byte is received and decoded as IntAt says |
| Engine.Client.WriteServerInt | client.c:111-121 | exactly one byte, the encoded value, is appended to what was sent |
| Engine.Client.DrawBoard | client.c:171-178 | the rendering of the array's current cells is appended to what was drawn |
| Engine.Client.TakeTurn | client.c:181-198 | the prompt loop stops at the first accepted line and sends its digit, or sends nothing when the input runs out |
| Engine.Client.GetUpdate | client.c:201-209 | the board and cursor change as UpdateAt says, and a failed update leaves the board as it was |
| Engine.Client.WaitForStart | client.c:242-246 | the wait loop ends where AwaitStart says, and a failure consumes the stream |
| Engine.Client.UpdateAndDraw | client.c:268-271 | the UPD branch changes the state as UpdateAt says and draws the new board |
| Engine.Client.Step | client.c:255-288 | one pass of the loop changes the client's state exactly as ActiveStep says |
| Engine.Client.Begin | client.c:228-252 | the start of main ends as Opening says, with the identity's mark announced and the empty board drawn |
| Engine.Client.ActiveLoop | client.c:254-289 | the active loop ends with the stop and state Active gives |
| Engine.Client.Run | client.c:227-294 | the run ends exactly as Play says, and the socket is closed once exactly when the game ended normally |

## Left out

- connect_to_server, the Winsock start-up and tear-down (init, end) and the argument check
  in main: they concern the operating system, not the protocol.
- What error() prints and its exit: a fatal condition is a returned `Stop`, after which the
  model does nothing more.
- The failure check on send in write_server_int (client.c:115-116): sends to the server
  always succeed in the model.
- The printed notices ("Waiting for a second player...", "Your move...", the player count
  and the others). Only the mark that is announced and the boards drawn are recorded.
- Standard input is a given sequence of `fgets` results; how `fgets` splits long lines into
  reads of at most nine bytes is taken as given, not computed.
- The DEBUG build's diagnostics.
- TCP delivering a message in pieces: each receive delivers what the stream has, up to the
  size asked for, as the code's all-or-nothing reads assume.
- Protocol.UpdateAt: a move outside 0..8 stops the model with `MoveOutOfRange`. In the C
  code that store is out of bounds, which is undefined behaviour, and the model does not
  say what happens after it.
- Engine.Client.GetUpdate: the same out-of-range move stops the model in the same way.
- Engine.Client.TakeTurn: when standard input runs out, the model stops with `NoMoreInput`.
  In C, once this call has read and rejected a line, the loop tests that stale buffer
  again forever. If `fgets` meets the end of input on the call's very first read,
  `buffer` (client.c:183) was never written and `buffer[0]` is indeterminate: the C may
  accept whatever it holds, for example the previous call's digit left in the same stack
  slot, and send it (client.c:188-192).
- Wire.CharValue: a plain `char` is taken to be signed, as on x86 and Windows; on ARM
  Linux it is unsigned. Only values outside 0..9 depend on this: the payload of
  `MoveOutOfRange` and the range in Wire.RoundTripExactly.

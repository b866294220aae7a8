# A verified model of VirtBBS

VirtBBS is a bulletin board with a FidoNet mailer, door games and an ANSI art editor. This project models six of
its cores in Dafny and proves what they are for.

- **ANSI art.** `Canvas`, `AnsiWriter`, `AnsiParser`, `AnsiExpansion`, `AnsiGlyphs`, `AnsiBrackets` and
  `AnsiRoundTrip` follow the editor's writer and its two-pass reader (SGR as in ECMA-48, section 8.3.117). The main
  theorem says exactly when a saved canvas is loaded as the same picture; `AnsiControls` says what every control
  sequence does. `Sauce` is the SAUCE00 trailer, and
  `AnsiFile` the art file, where trailer and text come together. `EditorUndo` is the editor's bounded undo stack as a
  state machine, `TileOptimizer` the choice of a quadrant pattern for four pixels.
- **Maze door.** `MazeGraph`, `MazeSearch` and `Maze` prove that the generator carves a spanning tree and that the
  breadth-first search finds shortest walks. `MathQuestions` and `MathGame` put the quiz and the scores on top.
- **BinkP and packets.** `BinkpFrames`, `BinkpReceiver` and `BinkpSession` follow one connection (FTS-1026) from octets
  to reported files. `BinkpPair` joins two of them by FIFO channels and proves, for every reachable state, that what
  is acknowledged is delivered. `Kludges` and `Packet` are the message text and the Type-2 packet (FTS-0001, FTS-0004,
  FTS-0009), with their tags and octets in `KludgeTags` and `PacketLayout`.
- **Nodelists.** `Nodelist` and `HubNodelist` prove when the lines a hub generates are read back by running zone and
  net (FTS-0005); `NodelistText` has the lines field by field, and `HubMembers` what the list says of each member.
- **Counters and quotas.** `StatsStore`, `StatsEvents`, `StatsMerge`, `FreqQuota` and `FreqCommands`.
- **Width fitting.** `VisibleWidth`, `BoxAlign` and `DisplayText`.

`Text` and `Octets` hold the library calls that several of them rely on. Code that changes things step by step is a
class or a method with loops, proved equal to a specification function; the properties are lemmas about those
functions. Random draws, time-outs and block sizes are arbitrary choices. The clock is a parameter.

Where a promise is false of the code, the exact condition under which it holds is proved, and a lemma gives a case
where it fails:

- The art round trip (`WriteThenParse`) needs rows that do not wrap above drawn ones (`WrappedRowPushesDown`), no dark
  foreground on truecolor after bold (`StaleBoldBrightens`), and no drawn text that spells a colour code
  (`DrawnCodeIsLost`). In a file without a sauce, the text must not end like one (`SaveThenLoad`, `DrawnSignatureIsCut`).
- A resumed BinkP transfer does not shorten an older, longer file (`ResumeRestoresSource`, `OldTailStays`), and one
  resumed at its end is never acknowledged (`TransferDelivers`, `CompleteFileIsNotAcknowledged`).
- The answering side of a session acknowledges files that come in while it sends, but does not report them
  (`BinkpConn.Answer`, `LateFileIsNotReported`).
- A body that starts with a line feed right after a line loses its first, empty line (`NoLineLost`, `FirstLineIsLost`).
- An imported nodelist stores every node as active, because the flag that was read is bound to nothing
  (`FileRoundTrip`, `HeldNodeBecomesActive`).
- Padding a text that ends inside an escape is lost in the escape (`FitsExactly`, `PaddingIsLost`).

A FREQ batch with no allowance left would be unlimited (`ZeroMeansUnlimited`); the guard in front of it prevents that.

Code and comments disagree in one place: AnsiEdit/editor.go calls its limit of 25 a minimum undo depth, but it is the
most the stack ever holds. The model follows the code.

Verify the whole project with `dafny verify dfyconfig.toml`.

## Model

| member | source | states |
|---|---|---|
| CanvasModel.Canvas.constructor | AnsiEdit/canvas.go:52-70 | a new canvas has its size brought into the limits and holds default blanks everywhere |
| CanvasModel.Canvas.Get | AnsiEdit/canvas.go:78-83 | the cell at a coordinate, and a default blank outside the canvas |
| CanvasModel.Canvas.Set | AnsiEdit/canvas.go:85-93 | one cell changes, a zero rune is stored as a space, outside coordinates change nothing, every other cell stays |
| CanvasModel.Canvas.Resize | AnsiEdit/canvas.go:101-121 | the common part of the old canvas is kept cell for cell, the rest is blank, sizes are limited |
| AnsiWriter.EmitSGR | AnsiEdit/write.go:17-55 | the colour change written for a cell, given the colours held by the terminal: a reset and the classic codes, or the truecolor codes of what differs |
| AnsiWriter.FindRowEnd | AnsiEdit/write.go:59-67 | a row ends after its last cell that is not a default blank |
| AnsiWriter.WriteRow | AnsiEdit/write.go:57-85 | the text of a row and the colours held after it |
| AnsiWriter.WriteANSI | AnsiEdit/write.go:12-88 | the whole text: every row up to its end, a line end after each, a reset at the end |
| AnsiParser.ExpandPCBAnsi | AnsiEdit/cp437.go:109-139 | a `[` and a digit, up to a letter, get an ESC in front; everything else stays |
| AnsiParser.ParseParams | AnsiEdit/parse.go:390-409 | the numbers between semicolons; what is no number counts 0 |
| AnsiParser.ApplySGR | AnsiEdit/parse.go:212-268 | colours and bold after the codes of one sequence, including 38/48 with 2 and 5 |
| AnsiParser.MeasurePass | AnsiEdit/parse.go:85-191 | the first pass finds the furthest cell that the text reaches |
| AnsiParser.EraseDisplay | AnsiEdit/parse.go:411-441 | exactly the cells after, before or all around the cursor become blanks of the current colours |
| AnsiParser.EraseLine | AnsiEdit/parse.go:443-459 | the same within the cursor line |
| AnsiParser.Painter.Put | AnsiEdit/parse.go:270-279 | a glyph is stored at the cursor, which moves right and wraps at the margin |
| AnsiParser.Painter.Control | AnsiEdit/parse.go:281-366 | every control sequence: colours, cursor movement with its limits, save and restore, erasing |
| AnsiParser.PaintPass | AnsiEdit/parse.go:281-386 | the second pass paints what the specification of the text says |
| AnsiParser.ParseANSI | AnsiEdit/parse.go:9-388 | both passes together: size of the canvas and every cell |
| AnsiControls.CursorTo | AnsiEdit/parse.go:295-303 | `ESC[r;cH` and `ESC[r;cf` put the cursor in row r and column c, counted from 1 |
| AnsiControls.CursorToRow | AnsiEdit/parse.go:295-303 | one number is the row, and none goes home |
| AnsiControls.CursorUp | AnsiEdit/parse.go:304-312 | `ESC[nA` goes n rows up, to the first at most |
| AnsiControls.CursorDown | AnsiEdit/parse.go:313-321 | `ESC[nB` goes n rows down, to the last at most |
| AnsiControls.CursorRight | AnsiEdit/parse.go:322-330 | `ESC[nC` goes n columns right, to the last at most |
| AnsiControls.CursorLeft | AnsiEdit/parse.go:331-339 | `ESC[nD` goes n columns left, to the first at most |
| AnsiControls.OneUp | AnsiEdit/parse.go:304-312 | without a number it is one row up |
| AnsiControls.OneDown | AnsiEdit/parse.go:313-321 | without a number it is one row down |
| AnsiControls.OneRight | AnsiEdit/parse.go:322-330 | without a number it is one column right |
| AnsiControls.OneLeft | AnsiEdit/parse.go:331-339 | without a number it is one column left |
| AnsiControls.ThereAndBack | AnsiEdit/parse.go:340-343 | `ESC[s`, a move anywhere and `ESC[u` leave the cursor where it was |
| AnsiControls.EraseInDisplay | AnsiEdit/parse.go:344-349 | `ESC[J` with 0, 1 or 2: exactly the cells from the cursor on, up to it, or all become blanks of the current colours |
| AnsiControls.EraseInLine | AnsiEdit/parse.go:350-355 | `ESC[K`: the same within the cursor line |
| AnsiControls.NoCode | AnsiEdit/parse.go:212-216 | a sequence without codes resets the colours |
| AnsiControls.Weights | AnsiEdit/parse.go:219-230 | 0 resets; 1 is bold and brightens a dark foreground; 22 undoes both |
| AnsiControls.Defaults | AnsiEdit/parse.go:231-237 | 39 and 49 give the default foreground, bright when bold, and background |
| AnsiControls.Colours | AnsiEdit/parse.go:238-249 | the eight colours of 30, 40, 90 and 100 |
| AnsiControls.OtherCodes | AnsiEdit/parse.go:217-266 | every other code changes nothing |
| AnsiControls.Palette | AnsiEdit/parse.go:250-265 | 38;5;n and 48;5;n |
| AnsiControls.TrueColours | AnsiEdit/parse.go:250-265 | 38;2;r;g;b and 48;2;r;g;b |
| AnsiControls.CodesInOrder | AnsiEdit/parse.go:212-268 | several codes in a sequence act like one sequence after another |
| AnsiControls.TabStops | AnsiEdit/parse.go:374-380 | a tab draws blanks up to the next column that 8 divides, or wraps at the margin; at such a column it does nothing |
| AnsiControls.SizedTo | AnsiEdit/parse.go:102-110 | the sizing pass goes to the same row and column and notes it |
| AnsiControls.SizedDown | AnsiEdit/parse.go:120-125 | the sizing pass moves down without a limit |
| AnsiControls.SizedRight | AnsiEdit/parse.go:126-131 | and right |
| AnsiControls.SizedUp | AnsiEdit/parse.go:111-119 | and up to the first row |
| AnsiControls.SizedLeft | AnsiEdit/parse.go:132-140 | and left to the first column |
| AnsiControls.SizedTab | AnsiEdit/parse.go:177-190 | a tab in the sizing pass goes on to the next column that 8 divides, even from one |
| AnsiControls.SizedSave | AnsiEdit/parse.go:141-142 | the sizing pass keeps the cursor of `ESC[s` |
| AnsiControls.SizedRestore | AnsiEdit/parse.go:143-144 | and goes back to it at `ESC[u` |
| AnsiControls.PlacedGlyph | AnsiEdit/parse.go:9-388 | a text that places one glyph by a sequence loads as a canvas large enough, with that glyph at its row and column and blanks elsewhere |
| AnsiExpansion.ExpandSgr | AnsiEdit/cp437.go:109-139 | the loader doubles the ESC of every colour code the writer emits and changes nothing else in it |
| AnsiExpansion.ExpandRows | AnsiEdit/cp437.go:109-139 | so for a canvas without a drawn `[` that spells a code, the text as expanded is the written text with those ESCs |
| AnsiRoundTrip.MeasureRows | AnsiEdit/parse.go:85-191 | over a written canvas the first pass finds its widest row and one row more |
| AnsiRoundTrip.PaintRender | AnsiEdit/parse.go:281-386 | while a row is painted, the colours the writer believes to be set are the parser's colours |
| AnsiRoundTrip.PaintRows | AnsiEdit/parse.go:281-386 | the same over all rows, from any held colours |
| AnsiRoundTrip.RowsAppear | AnsiEdit/parse.go:281-386 | under the two conditions every row appears at its own coordinates |
| AnsiRoundTrip.RowsForced | AnsiEdit/parse.go:281-386 | conversely, a canvas that looks the same meets both conditions |
| AnsiRoundTrip.WriteThenParse | AnsiEdit/parse.go:9-388 | loading a saved canvas of printable glyphs, for any default size: the same picture if and only if no drawn `[` spells a colour code, no row that wraps has drawn cells below it and no stale bold meets a dark foreground on truecolor; without a spelled code, its exact size |
| AnsiRoundTrip.SafeCanvasSurvives | AnsiEdit/write.go:12-88 | a canvas whose rows end in a blank, without a spelled code or a dark foreground on truecolor, comes back with its width, every cell at its place and one blank row more |
| AnsiRoundTrip.WrappedRowPushesDown | AnsiEdit/parse.go:270-279 | a row drawn up to the right margin pushes the next one down |
| AnsiRoundTrip.StaleBoldBrightens | AnsiEdit/write.go:25-43 | a dark foreground on truecolor after a bright cell is loaded bright |
| AnsiRoundTrip.DrawnCodeIsLost | AnsiEdit/cp437.go:123-133 | drawn text `[0m` is read as a colour code and lost, although the canvas meets the other two conditions |
| AnsiGlyphs.PaintTimes | AnsiEdit/parse.go:281-386 | painting any text puts a glyph on the canvas at most as often as the text holds it |
| AnsiGlyphs.GridMarks | AnsiEdit/canvas.go:78-83 | a canvas that shows a glyph only where another does holds it at most as often, whatever their sizes |
| AnsiGlyphs.FewerGlyphs | AnsiEdit/parse.go:9-388 | a text that holds a glyph less often than the text of a canvas is loaded with fewer of them than the canvas has |
| AnsiBrackets.PaintMarks | AnsiEdit/parse.go:281-386 | painting a text that ends in a letter draws at most its `[` without an ESC directly in front |
| AnsiBrackets.ExpandedBare | AnsiEdit/cp437.go:109-139 | those are at most the ones that the pre-pass does not take for the start of a code |
| AnsiBrackets.LeftOfRow | AnsiEdit/write.go:57-85 | in the text of a row these are at most the drawn ones, and fewer when one spells a code |
| AnsiBrackets.SpelledIsLost | AnsiEdit/cp437.go:109-139 | a canvas with a drawn `[` that spells a code is always loaded with fewer `[` than it has |
| AnsiFile.SaveFile | AnsiEdit/write.go:91-107 | the file of a canvas: its text, and a trailer with the canvas size when there is a sauce |
| AnsiFile.LoadFile | AnsiEdit/write.go:110-124 | the canvas and sauce of a file |
| AnsiFile.SplitIff | AnsiEdit/sauce.go:48-90 | the end of a text is taken off if and only if its last 128 octets begin like a record and there is room for the comments this announces |
| AnsiFile.SignedIsLost | AnsiEdit/write.go:110-124 | a canvas saved without a sauce whose text ends like that is never loaded as it was |
| AnsiFile.SaveThenLoad | AnsiEdit/write.go:91-124 | saving and loading a file: the same picture if and only if the three conditions hold and there is a sauce or the text does not end like one; the sauce comes back in its normal form |
| AnsiFile.DrawnSignatureIsCut | AnsiEdit/write.go:91-124 | fourteen rows of dots with SAUCE00 drawn in the last are cut, although every other condition holds |
| EditorUndo.RevertRecorded | AnsiEdit/editor.go:507-521 | writing the records of any batch back, last one first, restores the canvas, also when a cell was recorded twice |
| EditorUndo.StepKeepsReachable | AnsiEdit/editor.go:486-521 | every command keeps the stack truthful, at most 25 entries deep and inside the canvas, and the cursor inside it |
| EditorUndo.UndoTimesRestores | AnsiEdit/editor.go:507-521 | k undos in a reachable state give the canvas from before the last k edits |
| EditorUndo.UndoRestoresAnyRun | AnsiEdit/editor.go:486-530 | after any commands on any canvas, k undos restore, cell for cell, the canvas from before the last k edits still on the stack, and at most 25 are |
| EditorUndo.Editor.PushUndoBatch | AnsiEdit/editor.go:493-501 | an empty batch is not pushed; beyond 25 entries the oldest goes |
| EditorUndo.Editor.PushUndo | AnsiEdit/editor.go:486-491 | the cell under a coordinate is recorded, outside the canvas nothing is |
| EditorUndo.Editor.PaintKey | AnsiEdit/editor.go:523-530 | the glyph stands under the cursor in the current colours, no other cell changes, the cursor goes right within the row, and the cell overwritten is recorded |
| EditorUndo.Editor.DeleteKey | AnsiEdit/editor.go:388-394 | a default blank stands under the cursor, no other cell changes, a backspace goes left within the row, and the cell overwritten is recorded |
| EditorUndo.Editor.UndoLast | AnsiEdit/editor.go:507-521 | undo writes back the newest entry and puts the cursor on its first cell |
| EditorUndo.Editor.StampTextGrid | AnsiEdit/textui.go:87-126 | the canvas shows the text over its shadow and nothing else changes; all of it is one undo entry; the count is that of the cells written |
| EditorUndo.StampShows | AnsiEdit/textui.go:94-118 | after a stamp every glyph of the text stands at its place in the current colours; where there is none, the shadow of the glyph one up and left in dark grey on black; every other cell is unchanged |
| EditorUndo.Editor.ResizeTo | AnsiEdit/resizeui.go:92-123 | resizing keeps the common part, empties the undo stack and brings the cursor inside |
| EditorUndo.Editor.ReplaceCanvas | AnsiEdit/editor.go:603-630 | opening or importing a canvas empties the undo stack and homes the cursor |
| EditorUndo.Editor.MoveCursor | AnsiEdit/editor.go:349-378 | where each cursor key leads, within the canvas; nothing else changes |
| MazeGraph.CarveTurn | DoorGames/MathMaze/maze.go:82-103 | a carving step keeps the tree and search invariants, visits one more cell and changes exactly the passages between the two cells |
| MazeGraph.PopTurn | DoorGames/MathMaze/maze.go:82-103 | so does going back from a cell without unvisited neighbours |
| MazeGraph.NoCycle | DoorGames/MathMaze/maze.go:82-103 | the carved passages hold no cycle |
| MazeGraph.CarvingDone | DoorGames/MathMaze/maze.go:82-103 | when the stack is empty the passages are a spanning tree of the grid |
| MazeModel.Maze.Carve | DoorGames/MathMaze/maze.go:73-103 | for any random choices carving ends, and its passages are symmetric, stay in the grid, reach every cell from the origin, number w*h-1 and have no cycle |
| MazeSearch.NoShortcut | DoorGames/MathMaze/maze.go:121-145 | no walk is shorter than the breadth-first front allows |
| MazeSearch.BfsDist | DoorGames/MathMaze/maze.go:121-145 | the result is the length of a shortest open walk, or -1 exactly when there is none |
| MazeModel.Maze.ChooseExit | DoorGames/MathMaze/maze.go:105-118 | the exit is the first of the three corners at the greatest distance, and no distance is -1 |
| MazeModel.Maze.constructor | DoorGames/MathMaze/maze.go:50-119 | a new maze has an odd size of at least 5, is a perfect maze, its exit is a farthest corner and only its start is solved |
| MazeModel.Maze.Neighbor | DoorGames/MathMaze/maze.go:159-169 | the cell behind an open passage inside the grid, one up, down, right or left, or none |
| MazeModel.Maze.MarkSolved | DoorGames/MathMaze/maze.go:175-177 | one more cell is solved |
| MathQuestions.NewQuestion | DoorGames/MathMaze/mathq.go:15-39 | for any level and draws the stored answer solves the printed problem and is not negative; the kinds of problem by level |
| MathQuestions.AddSub | DoorGames/MathMaze/mathq.go:41-52 | sums and non-negative differences of numbers up to 10 + 5 per level |
| MathQuestions.MulEasy | DoorGames/MathMaze/mathq.go:54-58 | products with factors from 2 to level + 6 |
| MathQuestions.MulHard | DoorGames/MathMaze/mathq.go:60-64 | products with factors from 3 to level + 10 |
| MathQuestions.TwoStep | DoorGames/MathMaze/mathq.go:66-80 | a product and a third number, drawn again when the result would be negative |
| MathQuestions.Distractors | DoorGames/MathMaze/mathq.go:84-116 | for any number asked: as many choices, distinct, not negative, with the answer among them |
| MathQuestions.NearChoices | DoorGames/MathMaze/mathq.go:88-102 | the offsets alone give all choices for up to 13, so the fallback loop never runs for 4 |
| MathGame.Game.ReshuffleQuiz | DoorGames/MathMaze/game.go:156-180 | four distinct, non-negative choices of which exactly the one marked is right |
| MathGame.Game.StartLevel | DoorGames/MathMaze/game.go:66-90 | a fresh maze that grows by two every other level up to 21 by 15, the player on its solved start, no score yet |
| MathGame.Game.HandleMove | DoorGames/MathMaze/game.go:129-147 | a wall changes nothing, a solved room is entered, at the exit the level ends, a locked room asks first |
| MathGame.Game.BeginQuiz | DoorGames/MathMaze/game.go:149-154 | the quiz is about a locked room next to the player |
| MathGame.Game.CheckLevelComplete | DoorGames/MathMaze/game.go:217-231 | only at the exit the level's score is stored and the next level begins; the overall score stays |
| MathGame.Game.RightAnswer | DoorGames/MathMaze/game.go:182-215 | a right answer earns 5, solves the room and leads into it |
| MathGame.Game.WrongAnswer | DoorGames/MathMaze/game.go:182-215 | a wrong answer costs 2 or what there is; the overall clamp never applies |
| MathGame.Game.HandleQuiz | DoorGames/MathMaze/game.go:182-215 | what each key does to score, room and quiz |
| MathGame.Game.Finish | DoorGames/MathMaze/game.go:233-245 | the recorded level scores add up to the overall score |
| MathGame.Game.Turn | DoorGames/MathMaze/game.go:50-63 | whatever the key is, scores keep adding up, the player stays on explored solved ground and a quiz in order; only an answer changes the overall score |
| MathGame.Game.Play | DoorGames/MathMaze/game.go:39-64 | over any keys, the record at the end adds up level by level to the overall score, and no level is negative |
| BinkpFrames.FrameRoundTrip | internal/fido/binkp.go:866-916 | a frame is read back from the front of any stream if and only if its length fits 15 bits |
| BinkpFrames.StreamRoundTrip | internal/fido/binkp.go:866-916 | any sequence of such frames is read back as sent |
| BinkpFrames.FrameOctets | internal/fido/binkp.go:866-916 | the octets of a data frame and of a command, high octet of the length first, and that they are read as that frame |
| BinkpFrames.FileArgRoundTrip | internal/fido/binkp.go:969-985 | the four fields of M_FILE come back for any name without white space |
| BinkpFrames.GotNameRoundTrip | internal/fido/binkp.go:1144-1165 | the name in an M_GOT is found again |
| BinkpFrames.ArgumentTexts | internal/fido/binkp.go:969-985 | the arguments of M_FILE and M_GOT as text: name, size, time and offset, and that they are read in this order |
| BinkpReceiver.AckedAreCompleted | internal/fido/binkp.go:759-835 | from any state, M_GOT goes out for exactly the files whose data, up to the next announcement or drop, reaches their size, in order |
| BinkpReceiver.SessionAcknowledgesCompleted | internal/fido/binkp.go:759-835 | the same for a whole session |
| BinkpReceiver.ChunksWrite | internal/fido/binkp.go:807-835 | data in any split writes the same file, and the last missing byte completes it |
| BinkpReceiver.TransferDelivers | internal/fido/binkp.go:769-835 | a transfer from offset k over a file that holds the first k source bytes: the exact content afterwards, acknowledged if and only if something was left to send |
| BinkpReceiver.ResumeRestoresSource | internal/fido/binkp.go:769-835 | the file ends equal to the source if and only if it was sent from the start or was not longer before |
| BinkpReceiver.AnnouncementOpens | internal/fido/binkp.go:759-803 | the file that an M_FILE text opens: empty from the start, or as it is from the offset; none without octets |
| BinkpReceiver.OldTailStays | internal/fido/binkp.go:783-793 | a resume over a longer file leaves its old end |
| BinkpReceiver.CompleteFileIsNotAcknowledged | internal/fido/binkp.go:815-835 | a resume at the end of a complete file is not acknowledged |
| BinkpReceiver.LaterAcknowledgements | internal/fido/binkp.go:769-835 | from a point at which no file is open, what is acknowledged is what the later events complete |
| BinkpSession.BinkpConn.RecvFrame | internal/fido/binkp.go:893-916 | one frame is decoded and taken off the stream |
| BinkpSession.BinkpConn.BeginInboundFILE | internal/fido/binkp.go:769-803 | the old file is dropped; a valid announcement opens the new one, empty or at its offset, an invalid one fails |
| BinkpSession.BinkpConn.WriteInboundDATA | internal/fido/binkp.go:807-835 | data goes to the open file; M_GOT is written exactly when it completes |
| BinkpSession.BinkpConn.HandleOutboundCtrl | internal/fido/binkp.go:1100-1138 | what a frame that arrives while sending does to the receiving half, and its verdict, which the next two rows spell out |
| BinkpSession.VerdictTells | internal/fido/binkp.go:1109-1124 | a restart is exactly an M_GET (9) with the file's name, and its size and time or none, at the offset of its fourth word; delivered is an M_GOT (6) and skipped an M_SKIP (10) whose first word is the name |
| BinkpSession.OtherFrames | internal/fido/binkp.go:1101-1138 | data and unknown commands go on, M_ERR ends the sending, and so does an M_FILE without octets |
| BinkpSession.BinkpConn.PollOutboundCtrl | internal/fido/binkp.go:1072-1098 | nothing arrives in time, or one frame is handled, or the octets of a frame that is cut by the time-out are lost; acknowledgements stay those of the frames read |
| BinkpSession.BinkpConn.WaitForGOT | internal/fido/binkp.go:1144-1189 | the wait goes on over frames that do not concern the file and ends with the verdict of the first that does |
| BinkpSession.BinkpConn.SendBlocks | internal/fido/binkp.go:1037-1061 | the blocks written, each of 1 to 8192 bytes, are the rest of the file from the offset |
| BinkpSession.BinkpConn.SendFileFrom | internal/fido/binkp.go:1026-1068 | announcement, then the rest of the file unless the poll ended it; delivered only after all of it was written and M_GOT for it was read |
| BinkpSession.BinkpConn.SendFile | internal/fido/binkp.go:996-1024 | the file is announced at offset 0 and then at each offset that was asked for, in order, each within the file; an offset outside ends in an error; on success the last frame read is an M_SKIP or M_GOT with its name, the latter after everything from the last announced offset was written |
| BinkpSession.BinkpConn.ReceiveUntilEOB | internal/fido/binkp.go:1193-1249 | what is returned is what was acknowledged, also after an error; no half-received file survives |
| BinkpSession.BinkpConn.Exchange | internal/fido/binkp.go:159-187 | without error, what is reported as received is exactly the names acknowledged, in order, and these are the files that the frames read complete; every file reported as sent was settled by a frame that was read; the batch ends with M_EOB |
| BinkpSession.BinkpConn.Answer | internal/fido/binkp.go:446-470 | the answering side reports the files that the frames of its receiving part complete, and acknowledges also those that the frames of its sending part complete: both are the same if and only if the latter complete none |
| BinkpSession.LateFileIsNotReported | internal/fido/binkp.go:446-470 | a peer's stream by which a file is acknowledged and not reported |
| BinkpPair.SenderKeeps | internal/fido/binkp.go:996-1189 | every step of the sending side keeps the invariant between it, the other side's file and both channels |
| BinkpPair.ReceiverKeeps | internal/fido/binkp.go:759-842 | so does every step of the receiving side, whatever files of its own it is sending |
| BinkpPair.TameVerdict | internal/fido/binkp.go:1100-1189 | between two sides of this code no frame asks for a restart or a skip |
| BinkpPair.AcknowledgedIsDelivered | internal/fido/binkp.go:996-1189 | in every state that any interleaving, block split, time-out or stop can reach, a side between files finds all it counts as sent in the other side's files |
| BinkpPair.DeliveredNow | internal/fido/binkp.go:996-1189 | in the step in which `sendFile` returns, the other side's file is the source |
| BinkpPair.NothingSkipped | internal/fido/binkp.go:159-165 | what was sent and what is left are, in order, what was to be sent |
| BinkpPair.OneBlockGoesAcross | internal/fido/binkp.go:996-1189 | a run that delivers a file |
| Kludges.NormalizeFidoBodyForParse | internal/fido/lines.go:33-51 | control marks inside a line get their own line, and every line ending becomes a line feed |
| Kludges.SplitFidoLines | internal/fido/lines.go:19-30 | the lines of a body |
| Kludges.Parse | internal/fido/packet.go:132-160 | tags, control lines, SEEN-BY and PATH tokens and text gathered line by line |
| Kludges.ReconstructSource | internal/fido/source.go:21-57 | AREA, MSGID, REPLY and kludge lines, the body, SEEN-BY and PATH, each ended by a carriage return |
| KludgeTags.MsgIdLine | internal/fido/packet.go:140-141 | a message of one line `^AMSGID: id` has that MSGID and nothing else |
| KludgeTags.ReplyLine | internal/fido/packet.go:142-143 | the same for `^AREPLY: id` |
| KludgeTags.PathLine | internal/fido/packet.go:144-145 | the same for the tokens of `^APATH: ` |
| KludgeTags.AreaLine | internal/fido/packet.go:148-149 | the same for `AREA:tag` |
| KludgeTags.SeenByLine | internal/fido/packet.go:150-151 | the same for the tokens of `SEEN-BY: ` |
| KludgeTags.KludgeLine | internal/fido/packet.go:146-147 | any other line with a control mark is kept among the kludges |
| KludgeTags.PlainLine | internal/fido/packet.go:152-153 | any other line is text |
| KludgeTags.MixedEnds | internal/fido/lines.go:19-51 | CR LF, CR and LF all end a line |
| KludgeTags.MarkInside | internal/fido/lines.go:19-51 | a control mark inside a line starts a line of its own |
| KludgeTags.WholeSource | internal/fido/source.go:21-57 | the text of any stored columns, tag by tag |
| KludgeTags.OneKludge | internal/fido/source.go:33-42 | a stored kludge line is written as it is |
| Kludges.LinesApart | internal/fido/lines.go:19-51 | the lines of a written text are its head lines, the body lines, its tail lines and one empty line |
| Kludges.LinesMerge | internal/fido/lines.go:19-51 | a body that starts with a line feed loses its first, empty line to the line in front of it |
| Kludges.LinesOfSource | internal/fido/source.go:21-57 | the lines the reader sees in a reconstructed text |
| Kludges.ParseReconstruct | internal/fido/packet.go:132-160 | parsing a reconstructed text recovers the tags, kludge lines, SEEN-BY and PATH tokens, and the body lines in order followed by one empty line |
| Kludges.NoLineLost | internal/fido/source.go:46-50 | the text read back from a reconstructed one holds every line of the body if and only if the body does not start with a line feed right after a line |
| Kludges.FirstLineIsLost | internal/fido/source.go:46-50 | a message identifier and a body of an empty and a second line: only the second line comes back |
| Packet.WritePacket | internal/fido/packet.go:294-353 | header, messages and terminator as laid out by FTS-0001 |
| Packet.WriteHeader | internal/fido/packet.go:296-320 | the 58 octets of the header, filled in place |
| Packet.ReadPacket | internal/fido/packet.go:165-268 | the messages up to the terminator, a wrong type or a cut message; too short and wrong packets are errors |
| Packet.ReadNullStr | internal/fido/packet.go:272-278 | the text up to the first NUL and the octets it took |
| Packet.MessageReadBack | internal/fido/packet.go:201-262 | one written message is read back in its normal form, and reading goes on right after it |
| Packet.ReadWritten | internal/fido/packet.go:165-353 | any messages whose texts hold no NUL come back in order, each in its normal form |
| Packet.ReadIsNulFree | internal/fido/packet.go:222-231 | no text that was read holds a NUL |
| Packet.NormalIff | internal/fido/packet.go:233-262 | the normal form is the message itself if and only if it has the packet's zones, no points, words of 16 bits, nets or the packet's own address, a date of 1 to 20 octets and the area of its body |
| Packet.PacketRoundTrip | internal/fido/packet.go:165-353 | reading a written packet gives the same messages if and only if each of them is such a message |
| PacketLayout.HeaderLayout | internal/fido/packet.go:294-317 | every octet of the header at its place: addresses, the time with the month counted from 0, type 2 and password; two NULs at the end |
| PacketLayout.MessageLayout | internal/fido/packet.go:319-348 | every octet of a packed message: type, nodes, nets, attribute, cost, date field and the four texts |
| Nodelist.NlRoundTrip | internal/fido/nodelist.go:383-395 | decoding undoes encoding if and only if a text is not empty, has no underscore and no white space around it |
| Nodelist.WordIsKind | internal/fido/nodelistedit.go:322-343 | every keyword is read as the kind it was written for |
| Nodelist.LineRoundTrip | internal/fido/nodelistdiff.go:80-145 | a line gives its entry back if and only if a line can carry its fields and its address follows from the running zone and net and its number |
| NodelistText.LineText | internal/fido/nodelistgen.go:315-350 | the line of an entry, field by field: keyword, number, name, location, sysop, phone, baud rate and flags |
| NodelistText.LineRead | internal/fido/nodelistdiff.go:80-145 | what is read from such a line, field by field, and the zone and net after it |
| NodelistText.FieldWritten | internal/fido/nodelist.go:390-395 | spaces become underscores, and an empty text a hyphen |
| NodelistText.FieldRead | internal/fido/nodelist.go:383-385 | underscores become spaces |
| Nodelist.StateAfter | internal/fido/nodelistdiff.go:80-145 | the running zone and net after a line |
| Nodelist.ListRoundTrip | internal/fido/nodelist.go:168-252 | reading the lines of a list gives the list back if and only if that holds at every entry |
| Nodelist.FileRoundTrip | internal/fido/nodelist.go:157-252 | importing a file stores the entries it was written from, in order, if and only if a line can carry their fields, every address follows from the entries before it and every entry is active |
| Nodelist.HeldNodeBecomesActive | internal/fido/nodelist.go:160-162 | a node on hold is read as inactive and stored as active |
| Nodelist.EncodeNodelistEntries | internal/fido/nodelistgen.go:315-322 | the text of the list |
| Nodelist.ImportFile | internal/fido/nodelist.go:157-252 | the rows stored by the import loop, all active; comments, blank and bad lines skipped |
| HubNodelist.GroupByNet | internal/fido/nodelistgen.go:352-358 | the members of each net, in order |
| HubNodelist.SortedNets | internal/fido/nodelistgen.go:360-367 | every net once, ascending |
| HubNodelist.FindHostMember | internal/fido/nodelistgen.go:369-376 | the first member of a net that is a host |
| HubNodelist.HubNodelistEntries | internal/fido/nodelistgen.go:151-190 | the zone line, then for each net its host line, the host as a node if it has a number, and the others |
| HubNodelist.HubPlaced | internal/fido/nodelistgen.go:151-190 | where the reader's running zone and net lead: every address comes out if and only if all members are in the zone and every net is announced |
| HubNodelist.HubRoundTrip | internal/fido/nodelistgen.go:151-190 | reading the generated list gives its entries in order if and only if texts can be listed, every member is active, in the hub's zone and no point, and every net has a host or is the hub's |
| HubMembers.FoundIsFirst | internal/fido/nodelistgen.go:369-376 | the host of a net is its first member that is a host |
| HubMembers.EntriesTell | internal/fido/nodelistgen.go:151-221 | the generated entries, field by field: the zone first, then by ascending net a host entry for each host and a node entry for every member but a host without number, each with the member's own name, location, sysop and flags; nothing else but the hub's own net |
| HubMembers.ReadingTells | internal/fido/nodelistdiff.go:80-145 | reading the generated lines tells all this |
| SauceModel.CopyFixed | AnsiEdit/sauce.go:169-178 | a field is cut to its width or filled with blanks, and nothing outside it changes |
| SauceModel.EncodeSauceRecord | AnsiEdit/sauce.go:145-167 | the 128 octets of the record, filled in place |
| SauceModel.AppendSauce | AnsiEdit/sauce.go:112-143 | art, end-of-file octet, comment block and record |
| SauceModel.SplitSauce | AnsiEdit/sauce.go:48-90 | art and sauce, with every branch for missing, short and malformed trailers |
| SauceModel.RecordRoundTrip | AnsiEdit/sauce.go:92-167 | what a record gives back of every field |
| SauceModel.RecordLayout | AnsiEdit/sauce.go:92-167 | every octet of the record at its place |
| SauceModel.SplitAppended | AnsiEdit/sauce.go:48-143 | splitting a file that was given a trailer returns exactly the art, whatever it is, and the sauce in its normal form |
| SauceModel.SauceSurvives | AnsiEdit/sauce.go:48-167 | every field and comment line comes back if and only if texts fit and do not end in space or NUL, the date has 8 octets and there are at most 255 lines |
| SauceModel.SplitTakesTrailer | AnsiEdit/sauce.go:48-90 | on any file, only a trailer is taken off the end |
| TileOptimizer.OptimizeTile | AnsiEdit/convert.go:192-233 | the pattern returned has least error over all sixteen with rounded means, and is the first such; when the full block replaces pattern 0 |
| TileOptimizer.Averages | AnsiEdit/convert.go:197-216 | the rounded means of both groups, from counts and sums kept in arrays |
| TileOptimizer.OppositeIsEqual | AnsiEdit/convert.go:196-196 | swapping the groups leaves the error, so eight patterns are enough |
| TileOptimizer.LevelNearlyBest | AnsiEdit/convert.go:207-215 | no level beats a mean rounded down by more than 0, 0, 1 and 2 for groups of 1 to 4 |
| TileOptimizer.WithinThree | AnsiEdit/convert.go:192-240 | the error is at most 3 above the best drawing with any pattern and any two integer colours |
| TileOptimizer.ThreeIsReached | AnsiEdit/convert.go:192-240 | the bound of 3 is reached by the search: on one tile, pattern 7 is the first of least error with rounded means, and two colours draw it with 3 less |
| StatsStore.NetRowAfter | internal/fido/binkpstats.go:155-211 | an event is added once to the rows of its day, month, year and all time, and to no other row |
| StatsStore.LinkRowAfter | internal/fido/binkpstats.go:213-245 | and to the link rows of the same periods when it names a link |
| StatsStore.RollUp | internal/fido/binkpstats.go:155-211 | after any events the all-time row is the sum of the day rows, of the month rows and of the year rows |
| StatsStore.LinksAccountForPolls | internal/fido/binkpstats.go:248-298 | in every period uplink rows account for client polls and uplink sessions, downlink rows for downlink sessions, except for what named no peer |
| StatsStore.NamedPeers | internal/fido/binkpstats.go:248-298 | nothing is missing when every event names its peer |
| StatsStore.StatsDB.ApplyStats | internal/fido/binkpstats.go:155-211 | the four rows of a network are written |
| StatsStore.StatsDB.ApplyLinkStats | internal/fido/binkpstats.go:213-245 | the four rows of a link are written |
| StatsStore.StatsDB.RecordClientPoll | internal/fido/binkpstats.go:248-266 | what an outbound poll adds |
| StatsStore.StatsDB.RecordServerSession | internal/fido/binkpstats.go:269-298 | what an inbound session adds, by type of link |
| StatsStore.StatsDB.RecordSessionError | internal/fido/binkpstats.go:301-303 | what a session error adds |
| StatsStore.StatsDB.RecordToss | internal/fido/binkpstats.go:306-321 | what a toss adds |
| StatsStore.StatsDB.RecordScan | internal/fido/binkpstats.go:324-329 | what a scan adds |
| StatsStore.StatsDB.RecordNetmailSent | internal/fido/binkpstats.go:332-341 | what queued netmail adds |
| StatsEvents.NothingElsewhere | internal/fido/binkpstats.go:151-211 | an event adds nothing outside the four periods of its date, and nothing to another network |
| StatsEvents.ClientPollAdds | internal/fido/binkpstats.go:248-267 | the counters of an outbound poll, in the network and on its link |
| StatsEvents.UplinkSessionAdds | internal/fido/binkpstats.go:269-288 | the counters of a session from an uplink |
| StatsEvents.DownlinkSessionAdds | internal/fido/binkpstats.go:269-288 | the counters of a session from a downlink |
| StatsEvents.SessionLinkAdds | internal/fido/binkpstats.go:289-298 | the counters of a session on its link |
| StatsEvents.TossAdds | internal/fido/binkpstats.go:306-321 | the nine counters of a toss |
| StatsEvents.OthersAdd | internal/fido/binkpstats.go:301-342 | the counters of an error, a scan and queued netmail |
| StatsMerge.MergeRows | internal/fido/binkpstats_query.go:80-125 | the rows of both results once each, strictly sorted by key, with every counter added up |
| StatsMerge.MergeConserves | internal/fido/binkpstats_query.go:80-185 | every counter has the same sum over the merged rows as over both results |
| StatsMerge.StatsResult.Enrich | internal/fido/binkpstats_query.go:198-248 | network rows are filled from their links, networks that only links name are added, and the rows are sorted |
| StatsMerge.EnrichTwice | internal/fido/binkpstats_query.go:198-248 | filling a network from its links a second time changes nothing |
| StatsEvents.UplinkFills | internal/fido/binkpstats_query.go:219-225 | what a network takes from an uplink, counter by counter |
| StatsEvents.DownlinkFills | internal/fido/binkpstats_query.go:226-232 | what it takes from a downlink |
| StatsEvents.MailFills | internal/fido/binkpstats_query.go:234-245 | and which mail counters it takes over |
| StatsMerge.EnrichAgain | internal/fido/binkpstats_query.go:198-248 | enriching a result a second time leaves every row and their order |
| FreqQuota.QueueFreqRawFiles | internal/fido/freq.go:231-262 | the batch queued under the two caps |
| FreqQuota.BatchIsCapped | internal/fido/freq.go:231-262 | a batch stays under each cap that is positive and holds only files asked for that could be copied |
| FreqQuota.ZeroMeansUnlimited | internal/fido/freq.go:231-262 | with nothing left of both allowances a batch would be unlimited |
| FreqCommands.LongestFront | internal/fido/freq.go:231-262 | a batch is made of the files small enough, in order, up to the first that does not fit beside those queued, as far as they could be copied |
| FreqQuota.FulfillFreqCommands | internal/fido/freq_req.go:111-176 | totals and queued files after all commands; nothing when requests are switched off |
| FreqQuota.RequestIsCapped | internal/fido/freq_req.go:111-176 | in one request, whatever its commands, files queued by name or wildcard stay under both caps, and the totals count exactly the files queued |
| FreqCommands.TalkQueuesNothing | internal/fido/freq_req.go:126-129 | help and listings queue nothing |
| FreqCommands.ListCommands | internal/fido/freq_req.go:130-139 | NODELIST and NODEDIFF queue the newest file of their kind, whatever the caps |
| FreqCommands.PasswordNeeded | internal/fido/freq_req.go:141-144 | a file with a password is queued for that password alone, after a space or a mark |
| FreqCommands.NameQueues | internal/fido/freq_req.go:145-170 | a name queues its files under what is left of both caps, and nothing when a cap is reached |
| FreqCommands.Caps | internal/fido/config.go:596-610 | the caps are those configured, or 5 files and 5 MiB |
| VisibleWidth.MeasureWidth | internal/ansi/visible.go:10-27 | the visible characters outside escapes |
| VisibleWidth.TruncateVisible | internal/ansi/visible.go:41-67 | the front of the text up to the width, with its escapes |
| VisibleWidth.TruncatedKeeps | internal/ansi/visible.go:41-67 | a truncation is a front of the text, ends outside any escape before a visible character, and has the width |
| VisibleWidth.FitVisibleWidth | internal/ansi/visible.go:30-39 | padded, truncated or unchanged |
| DisplayText.PlainWidth | internal/ansi/visible.go:10-28 | without an escape every character is visible |
| DisplayText.EscapeWidth | internal/ansi/visible.go:10-28 | from an ESC up to the next m nothing is |
| DisplayText.FitPlain | internal/ansi/visible.go:30-39 | a text without escapes is filled with blanks or cut |
| VisibleWidth.FitsExactly | internal/ansi/visible.go:30-39 | the width is exact if and only if it is not negative and no padding ends up in an unfinished escape |
| VisibleWidth.FitTwice | internal/ansi/visible.go:30-39 | fitting twice is fitting once if and only if no padding ends up in an unfinished escape |
| VisibleWidth.PaddingIsLost | internal/ansi/visible.go:30-39 | a lone ESC fitted to one column has no visible column |
| BoxAlign.BoxBorderInnerWidth | internal/display/boxalign.go:33-44 | the horizontal bars of a top border |
| BoxAlign.LastRuneIndex | internal/display/boxalign.go:63-75 | the place of the last occurrence |
| BoxAlign.AlignBoxContentLine | internal/display/boxalign.go:46-61 | a row between bars gets its inner text fitted |
| BoxAlign.AlignBoxLines | internal/display/boxalign.go:13-31 | the first border with a width decides, and every row is aligned to it |
| BoxAlign.RowFits | internal/display/boxalign.go:46-61 | an aligned row has the border's inner width if and only if it is not padded in an unfinished escape |
| BoxAlign.BoxIsAligned | internal/display/boxalign.go:13-31 | rows between bars stay rows, every other line stays as it is, none is added or lost, and every row gets the border's width if and only if none is padded in an unfinished escape |
| BoxAlign.AlignTwice | internal/display/boxalign.go:13-31 | aligning twice is aligning once if and only if no row is padded in an unfinished escape |
| DisplayText.BorderCounts | internal/display/boxalign.go:33-44 | the width of a box is the number of bars of its top border |
| DisplayText.RowAligned | internal/display/boxalign.go:46-61 | a row between two sides gets its text fitted between them |
| DisplayText.BoxOfOneRow | internal/display/boxalign.go:13-31 | a box of two borders and a row, as it comes out |

## Left out

- AnsiRoundTrip.WriteThenParse: canvases with control characters as glyphs, which the editor's keys cannot draw, are not covered.
- AnsiFile.SaveThenLoad: for ASCII glyphs; the UTF-8 encoding of others, and how the loader guesses it back, are not modelled. Writing the file through a temporary one is left out.
- AnsiParser.ParseANSI: cursor coordinates are unbounded, so 64-bit wrap-around of huge movements is not modelled.
- BinkpPair.AcknowledgedIsDelivered: safety only; that a session ends is not claimed. Frames are whole, as `StreamRoundTrip` justifies.
- TileOptimizer.OptimizeTile: image sampling and resizing are not modelled.
- HubNodelist.HubNodelistEntries: companion addresses (`LinkHostAKAs`) and the network name, which no line carries.
- Nodelist.ImportFile: the rows in the order they are stored; the table's replacement of equal addresses and the scanner's line limit are not modelled.
- FreqQuota.FulfillFreqCommands: the reply text, the catalogue search and password lookup, which are parameters.
- StatsStore.StatsDB.ApplyStats: failed database writes, which the code ignores, are not modelled.
- Sockets, deadlines, file errors, path cleaning of received names, the BinkP handshake and the FREQ hook of M_GET.
- The CP437 tables and the guess of a file's encoding: text is taken as code points, and octets as characters below 256.
- White space and case folding are those of ASCII.
- Terminal drawing, prompts, key decoding, bulletins, fonts, image import, the message editor and the score file.
- Nodelist diffs (`GenerateNodelistDiff`), whose lines lose the net.

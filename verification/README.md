# ELM327 adapter and virtual car: a verified model

The modelled system is a diagnostic stack between a serial line and a CAN bus. An adapter core
speaks the ELM327 dialect to a client over USB or TCP, sends requests on the bus only when its
write guard and a listen window allow it, and logs and prints the answers. A virtual car with
ISO-TP ECUs and periodic traffic plays the other end of the bus. A scanner reads the printed text
back into messages. The project models these parts in Dafny and proves what each keeps, and what
they achieve together. `dafny verify dfyconfig.toml` checks all of it.

How the parts fit:

- **Values.** `CanTypes` (ids, frames, ISO-TP control bytes, wrapping deadlines, bounded id set),
  `Config` (session settings and the frames built from them), `IsoTp` (segmentation as an
  independent definition, ISO 15765-2:2016 section 9.6, that every other part is compared with).
- **The adapter.** `WriteGuard` (tiers, heard ids, consecutive-frame verdicts), `Input`, `AtTable`,
  `Text` (line writer, formatter, owed-frame counters), `Links` (one session over two links),
  `Record` (the events of a run, what they add up to, and what a safe record is), `Bus` (controller,
  clock and links, which write the record), `Conversation` (the answer phase of a request as two
  machines, one over frames and one over events), `Exchange` (the courses a request can take),
  `Procedures` (the bus procedures), `Replies` (the texts, and what a settings row sets), `Handlers`
  (printing, monitor, survey, self-test), `Commands` (what a line does), `ElmCore` (the
  interpreter and its main loop), `Typed` and `TypedBus` (what the text of a line comes to: the setting it
  changes, the frames it sends and at what rate, the lines the user reads).
- **The car.** `Vecu` (one ECU), `CarSchedule` (several ECUs and periodic sources on one wrapping
  clock), `RxOrder` (the two receive buffers, or the ring, and the reader that keeps their order).
- **The reader.** `CanScan` (reassembly), `ReplyText` (lines back to frames and messages), `Readout` (the
  text of a reply back to its lines, and headers-off lines back to answers).
- **Together.** `Padding` (the formatter's and the adapter's countdowns agree), `ClosedLoop` (ECU
  against the waiting adapter on one clock), `EndToEnd` (from a typed request over the ECU's answer to
  the message that a client reads).

Objects whose methods update fields in the program are classes here, with the same fields and
loops; each method's contract ties its new state to a function of the old one, and the properties
are proved about those functions. Integer widths are explicit: counters and clocks wrap with a
written `% WORD` (2^32) or `% 256`. Where a property needs time that does not wrap, a ghost value or an
unbounded number carries it, and the code sees its low 32 bits.

The outside world is an argument. A `Hal` holds a finite script of what the bus, the clock, the
controller and the links do; a run of the program is a run against some script, of any length.
Every call on controller, clock and links is written into a record of events, and so are the guard's
verdicts, the tier changes and the lines run. The record speaks for itself: the guard's history,
the tier in force, the session, which bytes were typed and which a wait took, and the listen windows
are functions of the events, and `Record.Safe` judges each event by the events before it alone. It
demands, of every frame sent, the tier that this history requires, WRITE never over TCP, a complete and
unbroken listen window behind a request, the first frame just received behind a flow control, and
loopback mode for a probe; of every frame received, a wait that looks for it, or the verdict on a
request just before; of every tier change, the AT#GUARD line just run or the move to TCP; of every CR,
that the line which is due runs next; and output only while the controller is listen-only or
closed. `Record.SentBelowWrite`, `Record.HeardIdNeedsWrite`, `Record.WriteWasAsked` and
`Record.ExecutedWasTyped` are what a safe record means. `ElmCore.Run` is the whole-run theorem: the
record is safe, and it is the banner, then one turn after the other, each of which did what its byte,
and for a CR its line, has to do.

What a procedure does is said the same way: the record it leaves is a run of a machine
(`Record.AwaitRun` for a wait, `Conversation.DialogueRun` for the answer phase, `Handlers.ViewRun` for
the monitor) or one of a few courses (`Exchange.Went`, `Procedures.SurveyShows`,
`Procedures.LoopShows`), and its results are functions of that record. So the closed loop with an ECU
(`ClosedLoop.AnswerIsReported`) is about the very records that `Procedures.Converse` leaves.

Where a fact about bytes, ids, rates or times decides something, it is also stated with the literal values
and without the functions that the code shares with its specification: `WriteGuard.PassesExactly`,
`Record.SentBelowWrite`, `TypedBus.GoesOutAsTyped`, `Vecu.SenderFollowsFlowControl`,
`CanScan.ReassembledExactly`, `Readout.ShownReadsBack` and the lemmas of `Typed` and `TypedBus`, which start
from the text of a line.

Where the code and its comments differ, the code is followed:

- The scanner calls any message of three bytes or more that starts `7F xx 78` response-pending
  (tools/canscan.py:225-226), the adapter only a single frame of length three
  (lib/elm/src/can_types.cpp:33-35). So a long answer that starts `7F xx 78` is logged and printed
  in full, and dropped by the scanner (`EndToEnd.LongPendingIsDropped`). The scanner keeps a list of
  answers whole exactly if none of them starts so (`CanScan.FinalKeepsExactly`).
- A read of the two receive buffers keeps the order only if at most one frame lands between
  freeing RXB0 and the second status read. `RxOrder.ReadKeepsOrderExactlyWhen` gives the exact condition.
- Held TCP output is younger than 20 ms at every look, as long as no two looks are 24 days apart;
  `Links.PassedModulo` says what the wrapping comparison sees, `Links.OverlookedAfter24Days` gives
  a case it misses.
- A fifth multi-frame responder takes over the last of four slots. Both countdown tables give up
  the same slot, so `Padding.CountdownsAgree` needs no bound. What is shown of a responder is its
  payload exactly if it has a slot whenever its padding comes (`Padding.ShownExactlyWhen`);
  `Padding.FifthTakesASlot` is a case where it has none.
- The scanner reports nothing of a damaged answer (`CanScan.LossNeverCorrupts`), but can take the
  beginning of one and the end of the next for one message; `CanScan.SpliceExactlyWhen` says when.

## Model

| member | source | states |
|---|---|---|
| CanTypes.SeenIds.Contains | lib/elm/src/can_types.h:41-46 | true exactly for the ids added so far |
| CanTypes.SeenIds.Add | lib/elm/src/can_types.h:47-51 | adds an id once, in arrival order, and ignores everything when full; says whether it added |
| Config.NextWaitMs | lib/elm/src/settings.cpp:88-93 | the wait after a frame is never zero and never longer than the AT ST window |
| Config.RequestDataSame | lib/elm/src/settings.cpp:34-49 | a request's data bytes do not depend on the protocol, only its id does |
| Config.RequestCarries | lib/elm/src/settings.cpp:34-49 | with CAF1 a request of up to seven bytes is a single frame of exactly those bytes |
| Config.AnswerIdsAccepted | lib/elm/src/settings.cpp:19-26 | without a filter of the user's, exactly 7E8 to 7EF (11 bits) or 18DAF1xx (29 bits) are accepted: the masked comparison, decided for every id |
| Config.FlowControlReaches | lib/elm/src/settings.cpp:51-82 | in modes 0 and 2 flow control goes to the responder (7E8 to 7EF are answered on 7E0 to 7E7, 18DAF1xx on 18DAxxF1), in mode 1 to the FC SH header; it says 30 00 00, or in modes 1 and 2 what was set, padded |
| IsoTp.ChunksAreThePayload | lib/vecu/src/vecu.cpp:161-199 | the payload bytes of the first k frames, joined, are the payload's first bytes, without gap or overlap |
| IsoTp.AllFramesCarryAll | lib/vecu/src/vecu.cpp:180-199 | the frames of an answer carry all of it, and no proper prefix of them does |
| CanScan.Reassemble | tools/canscan.py:229-252 | the loop computes the reassembly machine's messages without those of three bytes or more that start 7F xx 78 |
| CanScan.ScanConcat | tools/canscan.py:235-251 | reading frames in two parts is reading them at once |
| CanScan.AnswerComesBack | tools/canscan.py:229-252 | the segmentation of one answer adds exactly that answer, whatever came before, even in mid-message |
| CanScan.RoundTrip | tools/canscan.py:229-252 | any list of answers of 1 to 4095 bytes, segmented, is reassembled to exactly that list |
| CanScan.FinalIsAnswers | tools/canscan.py:225-226 | what the scanner drops is exactly the messages of three bytes or more with 7F first and 78 third |
| CanScan.ReassembledExactly | tools/canscan.py:225-252 | the frames of any answers of 1 to 4095 bytes are reassembled to exactly those answers, in order, that do not have three bytes or more with 7F first and 78 third |
| CanScan.FinalKeepsExactly | tools/canscan.py:225-226 | all answers are kept exactly when none of them has three bytes or more and starts 7F xx 78 |
| CanScan.LossNeverCorrupts | tools/canscan.py:240-251 | any proper subsequence of the frames of one answer yields no message at all, even when a multiple of 16 frames is missing |
| CanScan.SpliceExactlyWhen | tools/canscan.py:240-251 | when the end of one long answer and the beginning of the next are lost, a message made of both comes out exactly if the sequence number fits and enough frames follow, and it is that one; else nothing |
| CanScan.FallIn | tools/canscan.py:240-248 | consecutive frames of any origin that fit the number complete the message under way, or add to it |
| ReplyText.PrintedIsFormatted | lib/elm/src/text.cpp:126-133 | with headers on and the DLC off a frame is one line, not cut by the 48-byte buffer |
| ReplyText.PrintedParsesBack | tools/canscan.py:198-207 | a printed frame of either width, with or without spaces, is read back exactly; one without data is taken for status text |
| ReplyText.WholeLine | lib/elm/src/text.cpp:126-133 | whatever is printed whole is one line: the id with headers, the length in one digit with AT D1, every data byte |
| ReplyText.BytesApart | lib/elm/src/text.cpp:61-75 | with AT S1 one blank between two bytes, and none at the ends |
| ReplyText.BytesTogether | lib/elm/src/text.cpp:61-75 | with AT S0 none |
| ReplyText.MonitorMarks | lib/elm/src/text.cpp:168-179 | in payload mode only the monitor prints flow control, after FC:, and a frame that is no ISO-TP frame, marked <DATA ERROR |
| ReplyText.ParseFrames | tools/canscan.py:210-217 | per id, the data of its lines in order; an id is there exactly if it has a frame |
| ReplyText.ParseReply | tools/canscan.py:263-266 | per id, the final messages of its frames |
| ReplyText.PrintKeepsFrames | tools/canscan.py:210-217 | printing frames and reading the lines gives every responder's data back, in order |
| ReplyText.AnswersComeBack | tools/canscan.py:210-266 | however complete answers of several responders interleave, printing, reading and reassembling gives each responder its answers, in order, without those of three bytes or more that start 7F xx 78 |
| Readout.LinesComeBack | tools/canscan.py:465-472 | printed lines, with or without line feeds, and the prompt, are read as exactly those lines |
| Readout.ReplyComesBack | lib/elm/src/elm.cpp:301-328 | whatever the settings, a reply and its prompt are read as the lines of its frames and of its outcome, none cut, joined or blank |
| Readout.ShownReadsBack | lib/elm/src/text.cpp:134-167 | the headers-off lines of the frames of any answers, from any responders, are read as exactly those answers: a plain hex line for a single frame; three digits for the length of a longer answer, then lines labelled with the sequence digit |
| Readout.FirstRead | lib/elm/src/text.cpp:141-155 | a first frame prints the announced length and its six bytes under label 0 |
| Readout.NextRead | lib/elm/src/text.cpp:156-167 | a consecutive frame prints exactly the bytes it adds, under its sequence digit |
| Text.LinesFit | lib/elm/src/text.cpp:91-97 | no line of any frame under any settings is cut by the 48-byte buffer |
| Text.LineWriter.Put | lib/elm/src/text.cpp:92-97 | the buffer holds the written text, cut at 47 characters |
| Text.LineWriter.Bytes | lib/elm/src/text.cpp:73-75 | two hex digits a byte, separated if asked for |
| Text.LineWriter.Id | lib/elm/src/text.cpp:76-89 | three digits for 11 bits, four bytes for 29 |
| Text.CountdownTable.Lookup | lib/elm/src/text.cpp:115-117 | the first slot of an id, or none |
| Text.CountdownTable.Store | lib/elm/src/text.cpp:114-122 | an id keeps its slot; a new one takes a free slot, or the last of four |
| Text.OwedFrames.ExpectFrames | lib/elm/src/bus.cpp:84-95 | a first frame that was answered owes the frames its length announces |
| Text.OwedFrames.FrameReceived | lib/elm/src/bus.cpp:96-99 | a consecutive frame counts its responder down, never below zero |
| Text.OwedFrames.Any | lib/elm/src/bus.cpp:100-105 | true exactly if some responder still owes a frame |
| Text.FrameFormatter.Payload | lib/elm/src/text.cpp:134-167 | the payload bytes shown of a frame, and the countdown after it |
| Text.FrameFormatter.Format | lib/elm/src/text.cpp:124-180 | the lines of a frame, uncut, for the table left by the frames before it; what they say is Readout.ShownReadsBack and ReplyText.WholeLine |
| Text.FrameFormatter.FormatWhole | lib/elm/src/text.cpp:126-133 | CAF0 or H1: id, DLC if asked for, every data byte |
| Text.FrameFormatter.FormatPayload | lib/elm/src/text.cpp:134-180 | CAF1 with H0: payload only, numbered, padding trimmed; read back by Readout.ShownReadsBack |
| Padding.CountdownsAgree | lib/elm/src/bus.cpp:82-121 | after any 8-byte frames with every first frame answered, each frame counter is its responder's remaining bytes in sevens, rounded up |
| Padding.SegmentShown | lib/elm/src/text.cpp:156-167 | the k-th frame of an answer shows exactly the k-th chunk, padding trimmed |
| Padding.SoloShowsAnswers | lib/elm/src/text.cpp:134-167 | one responder's answers are shown byte for byte |
| Padding.EachAsIfAlone | lib/elm/src/text.cpp:114-167 | with at most four multi-frame responders, each is treated as if it were alone, however frames interleave |
| Padding.ShownIsPayload | lib/elm/src/text.cpp:114-167 | the bytes shown for each responder with headers off are exactly its answers, in order, without padding |
| Padding.SlotsDecide | lib/elm/src/text.cpp:114-167 | after any frames, a responder with a slot is treated as if it were alone, and more is shown of it than its payload exactly from the first padded frame that came without a slot |
| Padding.ShownExactlyWhen | lib/elm/src/text.cpp:114-167 | with any number of responders, what is shown of one is exactly its answers if and only if every frame of it with padding came while it had one of the four slots |
| Padding.FifthTakesASlot | lib/elm/src/text.cpp:118-121 | a fifth responder makes the fourth show padding |
| Padding.NothingOwedMeansComplete | lib/elm/src/bus.cpp:100-105 | no frame is owed exactly when every multi-frame responder has sent the last byte it announced |
| Input.LineBuffer.Push | lib/elm/src/text.cpp:11-21 | the buffer is what the pushed bytes spell: upper case, blanks and controls dropped, DEL, high bytes and a 65th character make it invalid |
| Input.LineBuffer.Clear | lib/elm/src/text.cpp:23-27 | nothing pushed |
| Input.LineBuffer.Text | lib/elm/src/text.h:20-21 | the text of the pushed bytes |
| Input.LineIsTyped | lib/elm/src/text.cpp:11-21 | the line is the printable bytes typed, in capitals, the first 64; it is valid exactly if there were no more and none was above 7E |
| Input.ParseRequest | lib/elm/src/text.cpp:29-48 | a request has 1 to 7 bytes (8 with CAF0) and a count digit of at most 15, or none |
| AtTable.ParseHex | lib/elm/src/at_table.cpp:13-22 | the value of a run of hex digits, or nothing if one is no digit |
| AtTable.ParsePattern | lib/elm/src/at_table.cpp:66-81 | value and mask of a pattern, X free, or nothing |
| AtTable.ParsedArgsFit | lib/elm/src/at_table.cpp:36-95 | parsed arguments are in the range their shape promises |
| AtTable.FindAt | lib/elm/src/at_table.cpp:97-112 | the row found matches with those arguments and no match has a longer name; none found means none matches |
| AtTable.SameNameSameRow | lib/elm/src/at_table.cpp:133-391 | two rows of one name never both match |
| AtTable.BestIsUnique | lib/elm/src/at_table.cpp:97-112 | every other match has a shorter name |
| AtTable.OrderIrrelevant | lib/elm/src/at_table.cpp:97-112 | tables with the same rows in any order find the same for every body: the same row with the same arguments, or none |
| WriteGuard.HeardAreFirst128 | lib/elm/src/guard.cpp:53-55 | after any history the recorded ids are exactly the first 128 distinct diagnostic ids heard |
| WriteGuard.RecordedForever | lib/elm/src/guard.h:38-41 | a recorded id stays recorded through every later event |
| WriteGuard.RecordedFollowsLog | lib/elm/src/guard.h:50-56 | which ids are recorded depends on nothing but the ids heard, in order |
| WriteGuard.VerdictFollowsHistory | lib/elm/src/guard.cpp:57-79 | the stored state gives every frame exactly the tier that the history of offers, heard ids and tier changes demands |
| WriteGuard.PassesExactly | lib/elm/src/guard.cpp:21-79 | byte by byte, for every history and frame: it passes exactly if WRITE is in force, or its id is diagnostic and unrecorded and it is flow control, or a single or first frame whose service is 01 to 0A but 04 and 08, 12, 17 to 1A, 20 to 24, 3E, 81 to 83, or 10 without sub-function 02, 82 or 85, or at CLEAR 04 or 14, or a consecutive frame after such a first frame on its id |
| WriteGuard.DiagnosticRanges | lib/elm/src/guard.cpp:47-51 | diagnostic are 600 to 7FF, and 18DAxxxx and 18DBxxxx |
| WriteGuard.ConsecutiveVerdict | lib/elm/src/guard.cpp:72-91 | below WRITE a consecutive frame passes exactly when its id is diagnostic and unrecorded and the last first frame offered on any id, admitted or not, was on its id, with no single frame on it since, and needed no more than the tier now in force |
| WriteGuard.OfferKeepsVerdict | lib/elm/src/guard.cpp:81-95 | offering a frame, admitted or refused, never changes the tier of a frame with the same data on any id |
| WriteGuard.RecordedStaysRefused | lib/elm/src/guard.cpp:57-60 | no frame on a recorded id is admitted below WRITE, ever after |
| WriteGuard.Guard.constructor | lib/elm/src/guard.h:64-70 | starts at READ with nothing heard |
| WriteGuard.Guard.SetTier | lib/elm/src/guard.h:45-45 | the tier, and nothing else, changes |
| WriteGuard.Guard.Hear | lib/elm/src/guard.cpp:53-55 | the id joins the history; the tier stays |
| WriteGuard.Guard.ClassifyFrame | lib/elm/src/guard.cpp:57-79 | the tier the history demands, which WriteGuard.PassesExactly spells out byte by byte |
| WriteGuard.Guard.Permits | lib/elm/src/guard.h:48-48 | whether that tier is in force |
| WriteGuard.Guard.Admit | lib/elm/src/guard.cpp:81-95 | cleared exactly if the tier in force covers the demanded one; only the offer is remembered |
| Links.PassedModulo | lib/elm/src/can_types.h:130-132 | what the wrapping comparison says of anything, however old |
| Links.PassedExactly | lib/elm/src/can_types.h:130-132 | it is exact below 24 days of age |
| Links.OverlookedAfter24Days | lib/elm/src/link_mux.cpp:55-55 | output that nothing looked at for longer can be overlooked |
| Links.LinkMux.constructor | lib/elm/src/link_mux.h:47-47 | USB owns the session, nothing held |
| Links.LinkMux.SwitchTo | lib/elm/src/link_mux.cpp:20-26 | one more switch; unread input and held output are gone |
| Links.LinkMux.FollowLinks | lib/elm/src/link_mux.cpp:11-15 | the session moves exactly if a TCP client calls, and then to it, or the one that has it is gone, and then to USB |
| Links.LinkMux.Poll | lib/elm/src/link_mux.cpp:5-18 | one switch exactly if the session has to move; without one nothing unread is lost, and held output is younger than 20 ms; while TCP owns the session what waits on USB is discarded |
| Links.LinkMux.Look | lib/elm/src/link_mux.cpp:55-55 | held output that is looked at goes out, or is still younger than 20 ms |
| Links.LinkMux.DiscardUsb | lib/elm/src/link_mux.cpp:6-10 | no USB input is left waiting |
| Links.LinkMux.ReadByte | lib/elm/src/link_mux.cpp:28-36 | input is conserved: the byte returned and what stays unread are what was unread; it was received in the current session; closed is reported exactly if nothing is unread and the TCP client is gone |
| Links.LinkMux.Fill | lib/elm/src/link_mux.cpp:29-33 | takes the next run of the session's link without losing or reordering a byte |
| Links.LinkMux.Write | lib/elm/src/link_mux.cpp:38-56 | since the last switch, the chunks sent and the bytes held are all bytes written, in order; chunks have 1 to 1400 bytes; the prompt is never held; what is held is younger than 20 ms |
| Links.LinkMux.HoldAll | lib/elm/src/link_mux.cpp:43-54 | the chunking loop keeps that for a text of any length |
| Links.LinkMux.HoldPart | lib/elm/src/link_mux.cpp:44-53 | a part with the prompt, or a full buffer, sends everything held |
| Links.LinkMux.FlushIfDue | lib/elm/src/link_mux.cpp:55-55 | held output goes out exactly when the wrapping clock says that 20 ms have passed; what stays held is younger than 20 ms if it was looked at in time |
| Links.LinkMux.Flush | lib/elm/src/link_mux.cpp:57-61 | everything held goes out as one chunk, nothing if nothing is held |
| Links.LinkMux.FlushHeld | lib/elm/src/link_mux.cpp:57-61 | the same, at the core's request |
| Record.HistoryIsRecord | lib/elm/src/guard.h:50-56 | the guard's history, as the record has it, holds exactly the ids that listening received and the tier that was set last |
| Record.ListenJoins | lib/elm/src/bus.cpp:58-67 | listening is one wait after the other: a complete wait adds its frame, or ends it |
| Record.VouchedNext | lib/elm/src/bus.cpp:30-38 | a listen window's clearance lasts through every event that does not break it |
| Record.WindowVouches | lib/elm/src/bus.cpp:46-72 | a completed window clears its rate |
| Record.WindowTakes60Ms | lib/elm/src/bus.cpp:55-67 | a completed window lasted at least 60 ms by the clock |
| Record.HeardIdNeedsWrite | lib/elm/src/guard.h:5-7 | in a safe record a frame whose id listening recorded, even the request's own window, is sent only with the WRITE tier and never on TCP |
| Record.SentBelowWrite | lib/elm/src/guard.cpp:57-95 | in a safe record whatever goes out at READ or CLEAR is on a diagnostic id that listening did not record, and is flow control, or a single or first frame with a service byte from the read list (at CLEAR also 04 and 14), or a consecutive frame after such a first frame offered on its id |
| Record.WriteWasAsked | lib/elm/src/guard.h:38-41 | in a safe record the WRITE tier is in force only because AT#GUARDWRITE was typed and run, on USB, with no tier change since |
| Record.LinesWereTyped | lib/elm/src/hal.h:67-70 | in a safe record every line run in a session was spelled by the bytes entered in that session; which bytes those are follows from the record |
| Record.CommandWasTyped | lib/elm/src/elm.cpp:89-103 | in a safe record an AT command runs only as it is typed |
| Record.ExecutedWasTyped | lib/elm/src/hal.h:67-70 | in a safe record whatever runs was typed in the session it runs in: an AT command now, a request now or, if the line entered is blank, earlier |
| Bus.Hal.ReadByte | lib/elm/src/hal.h:26-27 | a byte of the current session, nothing, or the closed link, on record with its session; while no line runs, only if none is still to run |
| Bus.Hal.NowMs | lib/elm/src/hal.h:29-29 | the wrapped clock, on record |
| Bus.Hal.CanReceive | lib/elm/src/hal.h:46-47 | a frame or none, on record with the mode it was received in; only for a wait that has just looked for a byte, or right after the verdict on a request |
| Bus.Hal.CanOpen | lib/elm/src/hal.h:34-39 | every configuration starts with no error event counted and no frame lost; a refused controller is off the bus; another rate ends a clearance |
| Bus.Hal.CanClose | lib/elm/src/hal.h:40-41 | off the bus, clearance ended |
| Bus.Hal.CanSend | lib/elm/src/hal.h:42-45 | only a cleared frame goes out, on record with mode, rate and link; any failure ends the clearance; the record stays safe exactly if everything on it allows the frame |
| Bus.Hal.CanHealthNow | lib/elm/src/hal.h:48-48 | what was counted since the controller was configured, on record |
| Bus.Hal.CanProbe | lib/elm/src/hal.h:49-51 | resets the controller; a detail text of at most 39 characters |
| Bus.Hal.WifiStatus | lib/elm/src/hal.h:72-74 | a line of at most 79 characters, or none, on record |
| Bus.Hal.Write | lib/elm/src/hal.h:58-60 | output, on record, which the design never writes while an answer is awaited |
| Bus.Hal.Prompt | lib/elm/src/elm.cpp:105-106 | the prompt, on record, ends a line; written while silent |
| Bus.Hal.PollLinks | lib/elm/src/link_mux.cpp:5-18 | the session moves, once, exactly if it has to, only between lines, which is then on record, and nothing else changes |
| Conversation.LogIsFilter | lib/elm/src/bus.cpp:176-211 | the log is exactly the arrival-order list of accepted frames that are response-pending or shown, cut at 600; the count digit stops the wait as soon as that many real answers are in |
| Conversation.StepIsFilter | lib/elm/src/bus.cpp:182-207 | one frame keeps the log that filter |
| Conversation.DialogueJoins | lib/elm/src/bus.cpp:168-210 | reading a record of the loop in two parts is reading it at once |
| Conversation.DialogueWaits | lib/elm/src/bus.cpp:173-179 | a complete wait takes the loop from one look to what it woke up to |
| Conversation.PhaseFollows | lib/elm/src/bus.cpp:173-210 | at every event the loop is where the log machine says: it goes on exactly while that listens, and ends by digit or full log exactly when that does |
| Conversation.DialogueIsRecord | lib/elm/src/bus.cpp:168-210 | whatever record the loop leaves: the frames it heard are the frames received, its first frames were answered exactly where our flow control went out, at most once each, nothing else was sent, and a time-out means that the clock just read was past the deadline |
| Exchange.RequestGoesOnce | lib/elm/src/bus.cpp:125-217 | on every course a request goes out exactly once or not at all, as its outcome says; Answered, NoData and BufferFull mean that it went out |
| Exchange.GoesOutAtItsRate | lib/elm/src/bus.cpp:133-166 | on every course every open and every send, request and flow control, is at 500 kbit under protocols 6 and 7 and at 250 kbit under 8 and 9 |
| Exchange.KeptExactly | lib/elm/src/text.cpp:104-112 | which frames are logged and which count as answers, byte by byte |
| Exchange.LogIsWhatCame | lib/elm/src/bus.cpp:176-216 | the log of an exchange is what the settings let through of the frames received in it, in order, the first 600; ended by the digit exactly if that many real answers came, by a full log exactly if one more came than it holds |
| Procedures.DiscardRestOfLine | lib/elm/src/bus.cpp:3-13 | bytes are read up to the first CR, or until the link closes, or 100 ms have passed with nothing waiting |
| Procedures.Await | lib/elm/src/bus.cpp:15-28 | what a wait leaves on record is a run of the wait machine: a byte other than LF interrupts and the rest of its line goes, else a frame, else the clock; and its result is that machine's |
| Procedures.LookForFrame | lib/elm/src/bus.cpp:24-25 | a frame before the clock, so one at the deadline is not lost |
| Procedures.LinkState.Configure | lib/elm/src/bus.cpp:30-38 | what the link believes stays true of the controller; a clearance survives only a change of mode |
| Procedures.LinkState.Close | lib/elm/src/bus.cpp:40-44 | closed and unchecked |
| Procedures.Judge | lib/elm/src/guard.cpp:81-95 | the guard's verdict, on record |
| Procedures.ListenBeforeTalk | lib/elm/src/bus.cpp:46-72 | the record is a listen window of the verdict's kind; Verified and Silent clear the rate; every frame's id went to the guard |
| Procedures.JudgeWindow | lib/elm/src/bus.cpp:55-72 | frames mean Verified, errors without frames a wrong rate, neither Silent |
| Procedures.Watch | lib/elm/src/bus.cpp:55-67 | 60 ms of listening, or up to an interrupting byte |
| Procedures.HearOne | lib/elm/src/bus.cpp:59-66 | one wait while listening; a frame's id goes to the guard before anything else |
| Procedures.Listen | lib/elm/src/bus.cpp:58-67 | the record is listening up to the deadline or a byte, with as many frames as counted |
| Procedures.RxLog.Push | lib/elm/src/bus.cpp:74-78 | appends until 600 frames |
| Procedures.RxLog.Clear | lib/elm/src/bus.h:55-55 | empties the log |
| Procedures.ClearToSend | lib/elm/src/bus.cpp:129-149 | a request goes on only cleared by the guard, on a link cleared at its rate: at once, with nothing done on the bus, if the link already is, else after the window; otherwise the course on record says why not; one refused at once touches nothing but the guard's memory of it |
| Procedures.ListenFirst | lib/elm/src/bus.cpp:135-146 | an interrupted window is Stopped, a refused controller or a wrong rate CAN ERROR |
| Procedures.Transmit | lib/elm/src/bus.cpp:151-162 | the request is on record as sent, in normal mode, right after the controller was emptied and opened; after a failure the controller is silent and unchecked |
| Procedures.SendCleared | lib/elm/src/bus.cpp:158-158 | one send of exactly that frame, with the listen window behind it |
| Procedures.Prepare | lib/elm/src/bus.cpp:151-157 | frames from before the request are thrown away, then the controller goes on air |
| Procedures.Drain | lib/elm/src/bus.cpp:152-154 | reads until none is left waiting, right after the verdict on a request; what is thrown away counts for nothing |
| Procedures.SendRequest | lib/elm/src/bus.cpp:125-166 | either the request is out in normal mode, or the controller is silent and the course on record gives the outcome |
| Procedures.ReplyFlowControl | lib/elm/src/bus.cpp:195-202 | the flow-control frame of the settings is offered to the guard and, if it passes, sent once; it counts as answered exactly if that send succeeded |
| Procedures.ReplyAndCount | lib/elm/src/bus.cpp:194-205 | what one frame adds to the record, and the owed-frame counters after it |
| Procedures.CountAndRearm | lib/elm/src/bus.cpp:192-209 | flow control and counters, then the digit ends the wait or the deadline starts again from the clock just read: the full ST window while frames are owed, else the adaptive one |
| Procedures.OnAnswerFrame | lib/elm/src/bus.cpp:187-209 | one answer frame takes variables and record to the machines' next states |
| Procedures.OnArrival | lib/elm/src/bus.cpp:178-209 | the same for any received frame; unaccepted ones change nothing |
| Procedures.Round | lib/elm/src/bus.cpp:173-209 | one round: a wait, and what is done about a frame |
| Procedures.CollectUntil | lib/elm/src/bus.cpp:173-210 | the loop's record is a dialogue up to its end |
| Procedures.Collect | lib/elm/src/bus.cpp:168-210 | from the first clock reading: the record is a whole dialogue, interrupted exactly if a byte interrupted, and the log is the dialogue's |
| Procedures.AwaitAnswers | lib/elm/src/bus.cpp:168-216 | dialogue, overflow flag, listen-only; the outcome follows from how the dialogue ended, the flag and the log |
| Procedures.FinishAnswers | lib/elm/src/bus.cpp:211-212 | the controller's health is read, then it is silent |
| Procedures.Converse | lib/elm/src/bus.cpp:125-217 | the record is one of the seven courses a request can take, outcome and log are that course's, Stopped exactly if a byte interrupted; the controller ends silent; a request refused at once does nothing on the bus |
| Procedures.Searchable | lib/elm/src/bus.cpp:219-224 | true exactly if the guard lets the request through under some searched protocol |
| Procedures.OfferKeepsSearch | lib/elm/src/bus.cpp:226-250 | offering the request under one protocol never changes the pre-check |
| Procedures.TryProtocol | lib/elm/src/bus.cpp:229-247 | one attempt is one course of the request; one that the pre-check rules out leaves bus and link as they were |
| Procedures.Search | lib/elm/src/bus.cpp:226-250 | the protocols are tried in order; the first attempt that ends the search gives outcome, log and, unless stopped, the adopted protocol; after four failures nothing is adopted; when the pre-check says no, nothing is done on the bus |
| Procedures.SurveyRate | lib/elm/src/bus.cpp:252-279 | the record is a listen window of the given length, or a refused controller; the report counts the frames received, lists their distinct ids and adds up the errors read; unfinished exactly if a byte interrupted; the controller ends closed |
| Procedures.SurveyOffLink | lib/elm/src/bus.cpp:254-278 | the same, without a link that could be affected |
| Procedures.SurveyWindow | lib/elm/src/bus.cpp:261-274 | the same for the listening itself, finished exactly if the deadline ended it |
| Procedures.LoopbackRoundTrip | lib/elm/src/bus.cpp:286-307 | the record is one round trip in loopback mode from start to close; Pass exactly if the probe, admitted and sent, was the first thing back within 50 ms |
| Procedures.SendProbe | lib/elm/src/bus.cpp:293-304 | offer, send and echo, each on record, and the result they give |
| Procedures.AwaitEcho | lib/elm/src/bus.cpp:296-303 | what comes back within 50 ms |
| Replies.ScreenIsPrinted | lib/elm/src/text.cpp:126-133 | with headers on, the screen is the lines the scanner reads |
| Replies.FlowStaysReady | lib/elm/src/settings.h:73-74 | no command leaves flow-control mode 1 or 2 without the id and data it needs |
| Replies.NumberComesBack | lib/elm/src/elm.cpp:14-25 | a number is printed as its decimal digits |
| Handlers.PrintFrame | lib/elm/src/elm.cpp:309-313 | one frame's lines, each with its line end |
| Handlers.PrintFrames | lib/elm/src/elm.cpp:307-314 | exactly the lines of the log, in order |
| Handlers.ListenOn | lib/elm/src/elm.cpp:170-181 | one wait, on record; a frame's id goes to the guard before anything else |
| Handlers.Collate | lib/elm/src/elm.cpp:185-194 | the 256-byte batch never overflows, and no character is lost or moved at its boundaries |
| Handlers.Show | lib/elm/src/elm.cpp:181-194 | an accepted frame is formatted and batched, another one is not |
| Handlers.ViewJoins | lib/elm/src/elm.cpp:168-196 | a complete wait takes the monitor from one wait to the next, or to a batch that is due, or ends it |
| Handlers.MonitorStep | lib/elm/src/elm.cpp:170-198 | the record goes on as a monitor's: a byte ends it, a batch that is 10 ms old is written and pushed out, a frame joins the frames received and is shown, and an empty batch that gets text gets its time |
| Handlers.MonitorLoop | lib/elm/src/elm.cpp:170-198 | the whole record is a monitor's, up to an interrupting byte: one wait after the other, no frame thrown away, text waiting exactly while its time is set; written and batched text together are every accepted frame received, in order |
| Handlers.Monitor | lib/elm/src/elm.cpp:151-202 | ATMA opens with the user's filter; if the controller takes it, the record is a monitor's, and the output is every frame received that the filter accepts, in order, then STOPPED, after a byte; else CAN ERROR |
| Handlers.SurveyOne | lib/elm/src/elm.cpp:210-233 | one rate's record, and the line that its report gives, or STOPPED |
| Handlers.SurveyAll | lib/elm/src/elm.cpp:210-240 | the rates in order up to the first with frames, each report what the record shows, with nothing but output between them; errors are summed over all of them; a rate cut short by a byte is on record too |
| Handlers.SurveyBus | lib/elm/src/elm.cpp:204-264 | the whole record and text of a survey: each rate's report as the record shows it, then the verdict drawn from all of them, or STOPPED exactly if a byte interrupted |
| Handlers.TellVerdict | lib/elm/src/elm.cpp:239-263 | the verdict printed is the one that all reports together give |
| Handlers.LoopbackAll | lib/elm/src/elm.cpp:275-290 | every rate in order, each result what the record shows, with nothing but output between them, until a byte interrupts |
| Handlers.SelfTestBus | lib/elm/src/elm.cpp:266-293 | the whole text of a self-test: the controller with its detail, each rate's result as the record shows it, and PASS exactly if some frame came back |
| Commands.GuardRowSpells | lib/elm/src/at_table.cpp:363-369 | the row that sets the tier matches nothing but AT#GUARD and the word of that tier |
| Typed.RowFound | lib/elm/src/at_table.cpp:97-112 | a matching row is the one found if no row with a longer name matches |
| Typed.FlagTyped | lib/elm/src/at_table.cpp:178-184 | AT, one letter and 0 or 1: E, L, S, H, R, V, D each set the one flag they stand for, M nothing; OK is printed; nothing else changes |
| Typed.NamedFlagTyped | lib/elm/src/at_table.cpp:185-186 | the same for CAF and CFC; CSM and KW set nothing |
| Typed.PlainTyped | lib/elm/src/at_table.cpp:187-269 | ATAL and ATNL turn long messages on and off; ATAR and ATCRA drop every filter |
| Typed.TimeoutTyped | lib/elm/src/at_table.cpp:196-201 | ATST hh: the first wait is 4 ms times hh, 200 ms for 00 |
| Typed.AdaptiveTyped | lib/elm/src/at_table.cpp:190-195 | ATAT 0, 1, 2: the wait after an answer is the ST time, at most 50 ms, at most 25 ms |
| Typed.PriorityTyped | lib/elm/src/at_table.cpp:208-213 | ATCP hh: the five priority bits |
| Typed.HeaderTyped | lib/elm/src/at_table.cpp:202-207 | ATSH and three, six or eight digits: the header is the number typed |
| Typed.FlowHeaderTyped | lib/elm/src/at_table.cpp:295-300 | the same for flow control |
| Typed.FlowDataTyped | lib/elm/src/at_table.cpp:301-307 | ATFCSD and one to five bytes: exactly those |
| Typed.FlowModeTyped | lib/elm/src/at_table.cpp:310-318 | ATFCSM sets the mode, or is refused, exactly if a mode other than 0 lacks data or mode 1 a header |
| Typed.PatternTyped | lib/elm/src/at_table.cpp:270-275 | after ATCRA with X for any digit, exactly the ids of the protocol's width whose last digits are those typed get in |
| Typed.FilterIdTyped | lib/elm/src/at_table.cpp:276-284 | ATCF sets the id; with no mask yet all bits of its width count |
| Typed.FilterMaskTyped | lib/elm/src/at_table.cpp:285-292 | ATCM sets the mask; with no id yet it is 0 |
| Typed.ProtocolTyped | lib/elm/src/at_table.cpp:214-226 | ATSP and ATTP with a digit, with or without A, select the protocol of that number; ATSP stores it |
| Typed.DigitComesBack | lib/elm/src/text.cpp:200-206 | ATDPN prints the digit that was typed |
| Typed.NameComesBack | lib/elm/src/text.cpp:184-198 | ATDP prints AUTO, or the name of the protocol of the number typed, after AUTO if it may be searched for |
| Typed.GuardTyped | lib/elm/src/at_table.cpp:363-369 | AT#GUARD and a word set that tier; WRITE is refused on TCP |
| Typed.InfoTyped | lib/elm/src/at_table.cpp:157-176 | AT#GUARD prints the tier in force, ATI the version, ATRV a fixed voltage |
| Typed.DefaultsTyped | lib/elm/src/settings.h:34-52 | ATD goes back to the defaults, each spelled out, with the stored protocol, off the bus, the tier kept |
| Typed.CloseTyped | lib/elm/src/at_table.cpp:251-256 | ATPC leaves the bus, and changes nothing else |
| TypedBus.RequestIsRead | lib/elm/src/text.cpp:29-48 | bytes in hex and perhaps a count digit are read as those bytes and that count |
| TypedBus.NoRequestTyped | lib/elm/src/text.cpp:29-48 | a line of one character, of more than 17, with one that is no hex digit, or with more bytes than fit gets a question mark, and nothing else happens |
| TypedBus.OldProtocolTyped | lib/elm/src/elm.cpp:141-143 | under protocols 1 to 5 a request gets UNABLE TO CONNECT and nothing happens on the bus |
| TypedBus.FrameIsRequest | lib/elm/src/settings.cpp:10-49 | the request frame, byte by byte: 7DF, the priority bits and DB33F1, or the AT SH header; length and bytes, or the bytes alone; zeros to eight |
| TypedBus.RequestTyped | lib/elm/src/elm.cpp:124-149 | a request typed under a CAN protocol takes the course of a request of exactly those bytes, and the reply shows that course's log and outcome |
| TypedBus.GoesOutAsTyped | lib/elm/src/bus.cpp:125-166 | after ATSP and a digit from 6 to 9 a typed request opens and sends at 500 kbit (6, 7) or 250 kbit (8, 9) and at no other rate, and goes out at most once, as the bytes typed, on 7DF or 18DB33F1 or with the AT SH header |
| TypedBus.ReplyIsRead | lib/elm/src/elm.cpp:307-328 | what the user reads up to the prompt is the lines of the log and then BLOCKED, CAN ERROR, STOPPED, BUFFER FULL, NO DATA or nothing, as the course was |
| TypedBus.SearchTyped | lib/elm/src/bus.cpp:226-250 | a request typed while the protocol is unknown is tried under 6, 7, 8, 9 in that order, each at its own rate, until one attempt is answered, sent without waiting, or stopped; that protocol is adopted, else nothing is set |
| TypedBus.MonitorTyped | lib/elm/src/elm.cpp:151-163 | ATMA opens listen-only, at 250 kbit under 8 and 9 and else at 500; without a filter every id gets in |
| TypedBus.SurveyTyped | lib/elm/src/elm.cpp:204-264 | AT#SURVEY opens at 500, 250, 125, 100 kbit in turn; each line names the rate of the open it reports, with its frames and errors; the verdict is OK, CONNECTED or NOT CONNECTED as frames and errors say |
| TypedBus.SelfTestTyped | lib/elm/src/elm.cpp:266-293 | AT#SELFTEST opens in loopback at each rate in turn; a line names its rate and says PASS only if the very frame sent came back; the last says PASS exactly if one did |
| TypedBus.CountersTyped | lib/elm/src/at_table.cpp:326-336 | ATCS prints the two error counters, as just read, in hex |
| ElmCore.Elm.constructor | lib/elm/src/elm.h:14-14 | defaults, nothing heard, nothing on record |
| ElmCore.Elm.Begin | lib/elm/src/elm.cpp:52-56 | banner and prompt, nothing else |
| ElmCore.Elm.Report | lib/elm/src/elm.cpp:307-328 | the logged frames, then the outcome, nothing else |
| ElmCore.Elm.RequestOn | lib/elm/src/elm.cpp:144-148 | one course of the request on record, then output alone: the frames and the outcome of that course |
| ElmCore.Elm.RequestSearch | lib/elm/src/elm.cpp:134-140 | BLOCKED and nothing else if no searched protocol lets the request through; else the attempts of a search on record, and the reply and protocol that they give |
| ElmCore.Elm.RunRequest | lib/elm/src/elm.cpp:124-149 | "?" for no request; the repeatable request is the last that parsed; the reply of each kind of protocol |
| ElmCore.Elm.SetGuard | lib/elm/src/at_table.cpp:363-369 | WRITE is refused exactly on TCP; otherwise the tier changes, on record right after its command |
| ElmCore.Elm.ResetRow | lib/elm/src/at_table.cpp:135-156 | ATZ, ATWS and ATD: defaults with the stored protocol, off the bus, the guard untouched; the first two print an empty line and the banner |
| ElmCore.Elm.RunBusRow | lib/elm/src/at_table.cpp:320-391 | monitor, survey, self-test and ATPC do what they do, and change nothing else of the session |
| ElmCore.Elm.RunStateRow | lib/elm/src/at_table.cpp:326-378 | AT CS prints the counters just read, AT#WIFI every line read until there is none |
| ElmCore.Elm.TellWifi | lib/elm/src/at_table.cpp:370-378 | the lines printed are the lines read, in order, and then there was none |
| ElmCore.Elm.RunPassiveRow | lib/elm/src/at_table.cpp:157-318 | prints the row's line, or sets what the row names, or refuses with nothing changed |
| ElmCore.Elm.RunRow | lib/elm/src/at_table.cpp:133-391 | what each row does to record, settings, stored protocol and output, and its reply |
| ElmCore.Elm.Answer | lib/elm/src/elm.cpp:301-305 | one line and its end, nothing else |
| ElmCore.Elm.RunAt | lib/elm/src/elm.cpp:109-122 | runs the best row, or changes nothing; then OK or a question mark unless the row printed |
| ElmCore.Elm.RunLine | lib/elm/src/elm.cpp:99-103 | AT lines and requests do what they do |
| ElmCore.Elm.RunEntered | lib/elm/src/elm.cpp:89-103 | a CR runs the valid line; for a blank one the last request; else it prints a question mark; the line that is due is on record first |
| ElmCore.Elm.Execute | lib/elm/src/elm.cpp:89-107 | the same, then the line end and the prompt, always; no CR is left waiting |
| ElmCore.Elm.Echo | lib/elm/src/elm.cpp:73-80 | echoes the byte, CR as line end, if asked for |
| ElmCore.Elm.OnByte | lib/elm/src/elm.cpp:71-87 | LF is ignored; another byte is echoed and joins the line; a CR is echoed, runs the line that is due to its end and prompts, and what that did is what the line does |
| ElmCore.Elm.NextByte | lib/elm/src/elm.cpp:68-68 | the next byte of the session, or none, on record |
| ElmCore.Elm.NoticeSwitch | lib/elm/src/elm.cpp:58-67 | every move of the session is noticed although the counter wraps; nothing typed before survives it, and a WRITE tier is lowered to READ exactly on TCP, on record right after the move |
| ElmCore.Elm.Service | lib/elm/src/elm.cpp:58-69 | the record goes on with one turn for each byte read, in order, each dealt with as its byte says (a CR: the line that is due did what it does), up to looking for a byte and finding none; nothing else happens |
| ElmCore.Elm.Poll | src/firmware/main.cpp:21-23 | the session moves exactly if it has to, which leaves at most one unnoticed switch |
| ElmCore.Elm.Loop | src/firmware/main.cpp:21-27 | the record of any number of rounds is that of the rounds, one after the other |
| ElmCore.Run | src/firmware/main.cpp:16-27 | from power-up, against any links, bus and number of rounds: the record is safe; it is banner and prompt, then, round by round, the moves of the session and what every byte read had to do, and nothing else; no CR is left waiting, the controller ends silent, and the recorded ids are exactly the first 128 distinct diagnostic ids that listening received |
| ElmCore.RunIsSafe | lib/elm/src/guard.h:50-56 | the part of it that the invariant gives: the record is safe, every CR ran the line that was due, and which ids are recorded |
| Vecu.DeliverKeepsSound | lib/vecu/src/vecu.cpp:26-98 | the buffers and counters of an ECU stay in range through every received frame |
| Vecu.PollKeepsSound | lib/vecu/src/vecu.cpp:138-202 | and through every transmission and time-out |
| Vecu.SenderFollowsFlowControl | lib/vecu/src/vecu.cpp:70-94 | whatever flow control arrives and whenever, the frames sent are a prefix of the segmentation, all of it unless given up; under each clear-to-send no more frames go out than its second byte says; due times under it are as far apart as its third byte asks (milliseconds up to 7F, tenths for F1 to F9, else 127 ms), and never less than a frame time |
| Vecu.GrantsCome | lib/vecu/src/vecu.cpp:70-94 | the clear-to-send a frame went out under is one that arrived |
| Vecu.GapIsApart | lib/vecu/src/vecu.cpp:84-85 | the spacing kept is the one the separation-time byte asks for |
| Vecu.FirstMatchAnswers | lib/vecu/src/vecu.cpp:103-109 | a request is answered by the first exchange whose request it begins with |
| Vecu.UnderWayStep | lib/vecu/src/vecu.cpp:161-199 | one delivery or poll keeps that |
| Vecu.SegmentedRequestArrives | lib/vecu/src/vecu.cpp:43-69 | a segmented request of 8 to 64 bytes reaches the service lookup unchanged, whatever the ECU was doing |
| Vecu.RequestFrame | lib/vecu/src/vecu.cpp:55-69 | the k-th consecutive frame of a request adds exactly its chunk |
| Vecu.ConsecutiveSegment | lib/vecu/src/vecu.cpp:55-69 | a consecutive frame of a segmentation carries its sequence number and its chunk |
| Vecu.VirtualEcu.DeliverFrame | lib/vecu/src/vecu.cpp:26-98 | the fields become the state function's result |
| Vecu.VirtualEcu.TakeSingle | lib/vecu/src/vecu.cpp:34-42 | a single-frame request is taken whole |
| Vecu.VirtualEcu.TakeFirst | lib/vecu/src/vecu.cpp:43-54 | a first frame starts a request that fits the 64-byte buffer |
| Vecu.VirtualEcu.TakeConsecutive | lib/vecu/src/vecu.cpp:55-69 | the next frame of a request, or an abort on a wrong sequence number |
| Vecu.VirtualEcu.TakeFlowControl | lib/vecu/src/vecu.cpp:70-94 | clear-to-send, wait and overflow; what the sender then does is Vecu.SenderFollowsFlowControl |
| Vecu.VirtualEcu.AnswerRequest | lib/vecu/src/vecu.cpp:100-127 | the matching exchange, a negative response, or silence to functional requests |
| Vecu.VirtualEcu.PollFrame | lib/vecu/src/vecu.cpp:138-202 | the frame that is due, or a time-out without one |
| Vecu.VirtualEcu.SendConsecutive | lib/vecu/src/vecu.cpp:180-199 | the next consecutive frame and when the one after it is due |
| Vecu.VirtualEcu.NextDue | lib/vecu/src/vecu.cpp:204-208 | the due time unless idle or receiving |
| CarSchedule.EarlierIsLater | lib/vecu/src/vecu.cpp:11-13 | the signed comparison is exact between any two due times, for every clock value |
| CarSchedule.EarlierIsSooner | lib/vecu/src/vecu.cpp:11-13 | and between any two times still ahead |
| CarSchedule.FiringMovesOn | lib/vecu/src/vecu.cpp:225-263 | firing the earliest due source costs work and leaves nothing due that is later than it was |
| CarSchedule.RunWork | lib/vecu/src/vecu.cpp:225-263 | a drain at one clock value ends: its length is bounded by the work at its start |
| CarSchedule.DrainInOrder | lib/vecu/src/vecu.cpp:225-248 | sources fire in order of their due times, clock wrap included |
| CarSchedule.AtMostTwoPerSource | lib/vecu/src/vecu.cpp:254-262 | a drain sends none, one or two frames per periodic source, by its backlog |
| CarSchedule.PhaseKept | lib/vecu/src/vecu.cpp:255-261 | skipping a backlog keeps the source's phase |
| CarSchedule.VirtualCar.OnSchedule | lib/vecu/src/vecu.cpp:216-261 | each source is due at 0.7 ms, 1.3 ms after the source before it, and then every period, however often the clock wraps |
| CarSchedule.VirtualCar.constructor | lib/vecu/src/vecu.cpp:210-219 | counts clamped, every ECU idle, sources on their phases |
| CarSchedule.BuildEcus | lib/vecu/src/vecu.cpp:210-219 | one idle ECU for each specification, each its own object |
| CarSchedule.VirtualCar.Deliver | lib/vecu/src/vecu.cpp:221-223 | every ECU sees the frame, and only its own state changes |
| CarSchedule.VirtualCar.Pick | lib/vecu/src/vecu.cpp:227-249 | the earliest due source, ECUs and lower indices first among equals, or nothing is due |
| CarSchedule.VirtualCar.FireEcu | lib/vecu/src/vecu.cpp:250-253 | one ECU acts |
| CarSchedule.VirtualCar.FirePeriodic | lib/vecu/src/vecu.cpp:254-262 | a source sends and jumps over all but the last period of its backlog |
| CarSchedule.VirtualCar.PollCar | lib/vecu/src/vecu.cpp:225-263 | fires earliest-first until a frame comes out or nothing is due |
| CarSchedule.VirtualCar.Drain | lib/vecu/src/vecu.cpp:338-349 | ends with nothing due, having fired in order |
| CarSchedule.VirtualCar.NextDue | lib/vecu/src/vecu.cpp:265-282 | after a drain, no source acts before the time returned |
| RxOrder.ArrivalQueuesUp | lib/vecu/src/vecu.cpp:351-370 | an arriving frame queues up last, or is dropped with the overflow flag when full |
| RxOrder.ReadRefinesFifo | lib/elm/src/rx_order.h:17-34 | one read with frames arriving at every point of it is one read of a bounded FIFO, and the preference is right for the next |
| RxOrder.ReadKeepsOrderExactlyWhen | lib/elm/src/rx_order.h:17-34 | a read keeps the order exactly when at most one frame lands in the exchange window, unless RXB1 was already full, or the frames are the same |
| RxOrder.RunRefinesFifo | lib/elm/src/rx_order.h:17-34 | whole runs of arrivals and reads return what one bounded FIFO returns, if each read is safe where it happens |
| RxOrder.OneInWindow | lib/elm/src/rx_order.h:17-34 | at most one frame in each exchange window makes a whole run safe |
| RxOrder.SimBus.constructor | lib/vecu/src/vecu.cpp:293-295 | 2 to 32 slots, empty, closed |
| RxOrder.SimBus.Advance | lib/vecu/src/vecu.cpp:338-349 | of what the car sends, accepted frames at the right rate are stored in order; at a wrong rate each counts as an error event and raises REC, up to the limits of both |
| RxOrder.SimBus.OnWire | lib/vecu/src/vecu.cpp:340-348 | one frame is stored, ignored, or counted as an error |
| RxOrder.SimBus.Arrive | lib/vecu/src/vecu.cpp:351-370 | rollover into RXB1, the ring, and overflow |
| RxOrder.SimBus.Open | lib/vecu/src/vecu.cpp:302-313 | what the car has sent comes first; a new rate or filter resets store and counters, a new mode keeps them; error events and overflow restart |
| RxOrder.SimBus.Retune | lib/vecu/src/vecu.cpp:302-313 | a reset exactly if closed, or at another rate or with another filter |
| RxOrder.SimBus.Close | lib/vecu/src/vecu.cpp:315-319 | what the car has sent is counted; then closed and empty |
| RxOrder.SimBus.Send | lib/vecu/src/vecu.cpp:321-336 | refused while closed or listening, looped back, unacknowledged at a wrong rate (TEC by 8, one error event), or on its way to the car |
| RxOrder.SimBus.RxStatus | lib/vecu/src/vecu.cpp:372-379 | what the car has sent until now comes first; then the two full flags, or whether the ring holds anything |
| RxOrder.SimBus.ReadRxb | lib/vecu/src/vecu.cpp:380-393 | reads and frees one buffer |
| RxOrder.RolloverOrder.Read | lib/elm/src/rx_order.h:17-34 | the steps of the code are the read function, on the store that holds what the car has sent until then |
| RxOrder.SimCanHal.CanOpen | lib/vecu/src/sim_can_hal.cpp:8-11 | store and preference stand for one FIFO through every opening |
| RxOrder.SimCanHal.CanClose | lib/vecu/src/sim_can_hal.cpp:13-16 | and through closing |
| RxOrder.SimCanHal.CanReceive | lib/vecu/src/sim_can_hal.cpp:23-26 | what the car has sent until now queues up, as far as it passes the filter; then the oldest frame comes out, whatever passes while the read is under way |
| ClosedLoop.ReplyIsMessages | lib/vecu/src/vecu.cpp:138-202 | the frames the ECU sends are the segmentation of its messages, the response-pending one included |
| ClosedLoop.RequestStarts | lib/vecu/src/vecu.cpp:34-42 | a request of one frame, to the ECU's own id, or functional and known, makes its reply to that request due one latency later, whatever the ECU was doing |
| ClosedLoop.RequestAsks | lib/elm/src/settings.cpp:34-49 | the adapter's request of up to seven bytes asks the ECU exactly those bytes |
| ClosedLoop.HeardNextFrame | lib/elm/src/bus.cpp:177-209 | the next frame of a reply is logged and counted; 5 s follow a response-pending one, and while frames are owed the full ST window starts again |
| ClosedLoop.PendsExactly | lib/elm/src/can_types.cpp:33-35 | an answer looks response-pending to the adapter exactly if it is the three bytes 7F xx 78 |
| ClosedLoop.EcuPending | lib/vecu/src/vecu.cpp:138-160 | a response-pending message puts the answer off by what it announces |
| ClosedLoop.EcuFirst | lib/vecu/src/vecu.cpp:161-177 | the first frame goes out and the ECU waits for flow control |
| ClosedLoop.EcuStarts | lib/vecu/src/vecu.cpp:70-94 | our flow control, in time, starts the rest |
| ClosedLoop.EcuNext | lib/vecu/src/vecu.cpp:180-199 | the ECU sends the n-th frame when it is due |
| ClosedLoop.TimeKeeps | lib/elm/src/bus.cpp:25-26 | between two frames the clock is too early for the deadline, and the sleep is not late; after the last frame the deadline ends the wait |
| ClosedLoop.ArrivalKeeps | lib/elm/src/bus.cpp:24-24 | a frame that comes is the next one, and it was due |
| ClosedLoop.StampKeeps | lib/elm/src/bus.cpp:206-209 | the clock read after a frame sets a deadline that the next frame will meet |
| ClosedLoop.StepKeeps | lib/elm/src/bus.cpp:173-210 | every event ends a complete wait or keeps both ends in step |
| ClosedLoop.AnswerArrives | lib/elm/src/bus.cpp:168-210 | the record of any wait for a reply of 1 to 4095 bytes that starts inside the ST window and is spaced below it, announced by a response-pending message or not, logs its frames in order and nothing else; the wait ends by its deadline, only when it has all of them, and within a bound |
| ClosedLoop.AnswerIsReported | lib/elm/src/bus.cpp:125-217 | a request that went out to an ECU whose reply to it fits, whatever the ECU was doing, on an undisturbed bus and with no frame lost, has the outcome Answered and that reply as its log |
| EndToEnd.DefaultsFit | lib/elm/src/settings.h:34-52 | with default settings every ECU on the standard 11-bit answer ids meets the conditions, unless its answer is 7F xx 78; a frame takes 230 or 460 microseconds |
| EndToEnd.OwedIsCount | lib/elm/src/bus.cpp:82-121 | with every first frame answered, the wait loop's counters are those compared with the formatter's countdown |
| EndToEnd.WaitsWhileOwed | lib/elm/src/bus.cpp:206-209 | after each answer frame the adapter waits the full ST window exactly as long as one of up to four responders has bytes to send |
| EndToEnd.PendingGetsFiveSeconds | lib/elm/src/bus.cpp:181-188 | after a frame 03 7F xx 78 that is logged the adapter waits five seconds |
| EndToEnd.FlowControlAdmitted | lib/elm/src/guard.cpp:60-63 | our flow control needs no more than READ unless its id was recorded |
| EndToEnd.LogReadsBack | tools/canscan.py:210-266 | logged messages of one responder, printed with headers, are read back as those messages, but for those that start 7F xx 78 |
| EndToEnd.LogShows | lib/elm/src/text.cpp:114-167 | logged messages printed without headers are read, line by line, as those messages, all of them |
| EndToEnd.MessagesRead | tools/canscan.py:225-226 | the response-pending message before an answer is dropped by the scanner, and the answer kept unless it has three bytes or more and starts 7F xx 78 |
| EndToEnd.LongPendingIsDropped | tools/canscan.py:225-226 | an answer of more than three bytes that starts 7F xx 78 is no response-pending frame to the adapter, and is dropped by the scanner |
| EndToEnd.AnswerReadsBack | lib/elm/src/bus.cpp:125-217 | a request that goes out is answered, and the text the user is sent up to the prompt reads back, byte for byte: with headers the scanner gets the ECU's answer to that very request (unless it starts 7F xx 78), without headers the lines are all the ECU said |
| EndToEnd.TypedReadsBack | lib/elm/src/elm.cpp:124-149 | the same from the keyboard: bytes typed in hex reach the ECU as a request frame, and what is printed reads back as its answer to them |

## Left out

- The firmware and the terminal simulator (SPI registers, WiFi, sockets, signals): hardware and operating system; the `Hal` and `ByteLink` scripts stand for them.
- Endless runs: time inside a run is whatever the script says; when the script ends, the session link reads as closed, which is how every wait of a finite run ends. Every finite stretch of a real run is such a run.
- The bytes of a frame past its DLC: the program leaves them unspecified, and here a frame has exactly its DLC bytes. Reads at or past the DLC are therefore not modelled (they happen only where the value is not used).
- The one-shot retry rule of the MCP2515 adapter (lib/elm/src/tx_attempt.h), and the electrical facts behind "at most one frame in the exchange window".
- How long the core sleeps when nothing waits: the sleep is the environment's, as is every gap between two calls (`ClosedLoop` bounds them).
- TEC and REC kept across a configuration that does not reset the controller: in `Bus` each reading is the script's, only error events and the overflow flag are known to be cleared. The simulated controller's are `RxOrder.SimBus`.
- ClosedLoop.AnswerArrives: one responder, at most one response-pending message before the answer (as the ECU model sends), no count digit, no byte from the user during the wait; a call on the adapter's side takes at most 100 ms. Several responders at once are `Conversation.LogIsFilter` and `ReplyText.AnswersComeBack`, without the timing.
- ClosedLoop.AnswerArrives: a frame is handed over when the wait looks for one; the two receive buffers between bus and wait are `RxOrder`'s subject, and the bus is lossless.
- Links.LinkMux.Poll: bytes of a replaced TCP connection that its link still holds are the script's business; the model says in which session each byte was read.
- The memory layout of the ECU's request (buffer and length are an array and a count, its text the first bytes) and ECUs that were never bound to a specification.
- The virtual car's scenario tables (lib/vecu/src/renault_scenario.cpp): exchanges are arbitrary lists here.
- The rest of tools/canscan.py: serial input and output, the echo it skips, reports, DTC decoding, argument parsing. Blanks are the only white space that its line reader strips here.
- Readout.ShownReadsBack: one complete answer after the other. Headers off, the lines of answers that interleave cannot be told apart by any reader; what is shown of each responder then is `Padding.ShownExactlyWhen`.
- `VirtualCar::transmits` and getters: one-line reads.

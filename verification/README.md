# Models of CorePTY

CorePTY is a terminal and file manager for SSH, SFTP, Telnet and local shells. This project models
the stateful engines behind it in Dafny and proves what they are for:

- **SFTP file I/O** (`SftpReader.dfy`, `SftpWriter.dfy`): pipelined reads that deliver a file from an
  offset, and writes that overlay one, whatever the server's answers look like and whatever order
  it works in.
- **The faint-text filter** (`SgrParams.dfy`, `SgrNumber.dfy`, `SgrDim.dfy`, `SgrStream.dfy`,
  `SgrPrivate.dfy`, `SgrDimFilter.dfy`): a stream rewriter and the terminal it must not deceive.
- **Editing remote files** (`EditProtocol.dfy`, `EditSession.dfy`, `Upload.dfy`): no save is lost, and
  an upload replaces a file whole.
- **SFTP requests** (`Multiplexer.dfy`): replies find their requests, and a closed session leaves
  nobody waiting.
- **Open filesystems** (`Ownership.dfy`, `FsClaims.dfy`): claims, navigations and the backend's count
  of users.
- **Restoring Claude sessions** (`ResumeArgs.dfy`, `Quoting.dfy`, `Restore.dfy`): the option parser and
  the quoting printer are a fixed point.
- **Telnet** (`TelnetStream.dfy`, `TelnetClient.dfy`): the byte stream and the option negotiation.
- **Permissions, processes, connections, folders, packets** (`ChmodWalk.dfy`, `FindClaude.dfy`,
  `Leases.dfy`, `Folders.dfy`, `SftpCodec.dfy`, `SftpWire.dfy`).

Code that changes state in place is a class here, with the same fields and one method for each
function, or for each stretch between two awaits. Concurrency is a state machine: a `Next` for one
step, a `Run` for any number of them in any order, an invariant every step keeps, and theorems about
every run. A class beside a state machine takes a step as ghost arguments and proves that it does just
that step. `dafny verify dfyconfig.toml` checks the whole project.

Where the code and its comments differ, the models follow the code: a control sequence with a private
prefix, or with a space before its final byte (`31 ` is a colour to `Number`, and so is `+31`), is
rewritten by the faint-text filter (src/dimfix.ts:44-47, 188-191), a colour cut short on the default
foreground is misread (src/dimfix.ts:93-104), faint written `02` is missed (src/dimfix.ts:122-129), and
`--debug=-x` does not survive being restored (src-tauri/src/context.rs:377-393). Each is a lemma with the input that shows it, beside one that says
exactly when the code is right.

## Model

| member | source | states |
|---|---|---|
| SftpReading.ReadToEnd | src-tauri/src/sftp/file.rs:46-148 | Every run, whatever the hint, the chunk, the depth and the server's short, overlong, late or failing answers: what comes out is a prefix of the file from the start offset, the whole of it once the end is reported; the end or an error comes after at most one responsive turn more than there are bytes; an error is the server's answer to a READ sent for just the byte where the output stops; and if the file does not go on past the hint, at most one READ does |
| SftpReading.SftpReader.PollRead | src-tauri/src/sftp/file.rs:97-142 | What was returned stays a prefix of the file, as much as there is room for of what has come; an empty read is returned exactly when all of it was (never because of the probe); an error is the answer to the READ for the next byte, after every byte before it was returned; waiting means that READ is unanswered and nothing is buffered; the hint is kept unless there was data past it |
| SftpReading.SftpReader.FillPipeline | src-tauri/src/sftp/file.rs:76-93 | Only adds READs, next to each other from what was delivered on, each for a full chunk or up to the hint; afterwards `depth` are in flight, or only the probe is left, unless the end is known; after the end none is sent |
| SftpReading.SftpReader.Send | src-tauri/src/sftp/file.rs:85-91 | A READ is asked for exactly where the previous one ends, and the ranges in flight stay contiguous and, but for one probe, within the hint |
| SftpReading.SftpReader.Receive | src-tauri/src/sftp/file.rs:116-138 | An overlong answer is cut, the rest of a short one is asked for again ahead of everything else, and the ranges still cover all that is to come |
| SftpReading.SftpReader.Deliver | src-tauri/src/sftp/file.rs:102-108 | Exactly the next bytes, as many as fit, and none lost |
| SftpReading.SftpReader.Take | src-tauri/src/sftp/file.rs:114-142 | The oldest READ's data leaves something to return; no data, or the end, ends the stream; the hint is given up only for data past it |
| SftpReading.SftpReader.Finish | src-tauri/src/sftp/file.rs:110-115 | The end found by the oldest READ ends the stream: what else is in flight lies beyond it |
| SftpReading.SftpReader.Bounded | src-tauri/src/sftp/file.rs:76-93 | The next offset is never more than `depth * chunk` past what was delivered, and a hint costs at most one READ past it |
| SftpReading.SftpReader.constructor | src-tauri/src/sftp/file.rs:47-66 | Starts with nothing delivered, sent or known |
| SftpReading.Received | src-tauri/src/sftp/file.rs:116-138 | After any honest answer, short or overlong, the requests left are exactly the bytes after the ones taken |
| SftpReading.ContiguousReach | src-tauri/src/sftp/file.rs:76-93 | Contiguous requests reach no further than the pipeline is long |
| SftpReading.Extend | src-tauri/src/sftp/file.rs:76-93 | A request sent at the end of the pipeline keeps the ranges contiguous and at most one past the hint |
| SftpReading.ShortenedHint | src-tauri/src/sftp/file.rs:146-148 | A hint contradicted by data past it is dropped; one that is kept still covers the requests in flight |
| SftpWriting.WriteFile | src-tauri/src/sftp/file.rs:169-290 | Every run, over a server that applies the writes in any order and answers when it likes: whenever a flush or the shutdown finished and no error was reported so far, the file is the old one with exactly the accepted bytes laid over it at the start offset; an error is reported only if the server refused something in that call; however it ended, the handle has been closed exactly once |
| SftpWriting.AnyOrder | src-tauri/src/sftp/file.rs:183-190 | Consecutive writes come to one overlay of all their bytes, in whatever order the server applies them |
| SftpWriting.OverlaysJoin | src-tauri/src/sftp/file.rs:183-190 | Two adjoining overlays are one of both their bytes |
| SftpWriting.OverlaysCommute | src-tauri/src/sftp/file.rs:183-190 | Overlays that do not touch can be applied in either order |
| SftpWriting.LastWriteMovesToEnd | src-tauri/src/sftp/file.rs:183-190 | The last write sent may as well have been applied last |
| SftpWriting.SftpWriter.PollWrite | src-tauri/src/sftp/file.rs:228-258 | Takes the next bytes of the data, as many as the chunk has room for; sends full chunks only, and leaves none unsent while there is room in flight; finds answered writes first, and fails only if one was refused; waits only while the buffer is a full chunk and `depth` writes are in flight with the oldest unanswered; a closed writer refuses |
| SftpWriting.SftpWriter.Accept | src-tauri/src/sftp/file.rs:238-256 | Takes as much as fits the chunk, in order, and sends a full one if there is room |
| SftpWriting.SftpWriter.Dispatch | src-tauri/src/sftp/file.rs:183-190 | The buffer goes out as one WRITE right after the previous one, and the pipeline stays within `depth` |
| SftpWriting.SftpWriter.PollOldest | src-tauri/src/sftp/file.rs:193-200 | Only the oldest write leaves the pipeline, only with its answer, and the outcome is that answer: done, refused or not there yet |
| SftpWriting.SftpWriter.Reap | src-tauri/src/sftp/file.rs:203-211 | Finished writes are retired from the front without waiting; the first unfinished one stays; it fails only if one was refused |
| SftpWriting.SftpWriter.PollDrain | src-tauri/src/sftp/file.rs:213-224 | Done means nothing buffered and every write acknowledged; failed, that one was refused |
| SftpWriting.SftpWriter.PollFlush | src-tauri/src/sftp/file.rs:260-265 | Done means nothing buffered and every write acknowledged; failed, that one was refused; where every answer is that it is done, so is the flush |
| SftpWriting.SftpWriter.PollShutdown | src-tauri/src/sftp/file.rs:267-280 | The CLOSE is sent only once everything is acknowledged, and never twice; done means that it was acknowledged, failed that it or a write was refused; where every answer is that it is done, so is the shutdown |
| SftpWriting.SftpWriter.Drop | src-tauri/src/sftp/file.rs:283-290 | The handle has been closed exactly once, whatever happened before |
| SftpWriting.SftpWriter.Drained | src-tauri/src/sftp/file.rs:213-224 | Drained without a failure, the file is the old one overlaid with all that was accepted, whatever order the server chose |
| SftpWriting.SftpWriter.constructor | src-tauri/src/sftp/file.rs:170-181 | Starts with nothing accepted, sent or closed |
| SftpWriting.Turn | src-tauri/src/sftp/file.rs:227-281 | One call with anything the server did before it: a finished flush or shutdown without failure leaves exactly the overlay; what was taken are the first bytes offered; an error means a refusal |
| SgrDim.RewriteStands | src/dimfix.ts:79-144 | From states in step, for every parameter list that can be read (numbers, leading zeros allowed except in the numbers the code compares as text; colours cut short anywhere, but no foreground cut short on the default one): a terminal fed the rewritten parameters has the original's attributes, grey standing in for faint on the default foreground, and the filter's flags stay those of the original terminal |
| SgrDim.GroupStands | src/dimfix.ts:85-142 | The same for a single parameter with what belongs to it, all there or cut short, whichever branch it takes |
| SgrDim.IncompleteColour | src/dimfix.ts:93-104 | After any complete parameters that could be read, one more group, cut short or not, leaves the terminals in step if and only if it is not a foreground (38) cut short or in an unknown mode, arriving while the original's foreground is the default |
| SgrDim.TruncatedColourTakesTheTwo | src/dimfix.ts:93-104 | The concrete failure: after faint, `38;5` cut short takes the pushed `2` for its palette index |
| SgrDim.BasicAgrees | src/dimfix.ts:44-47 | On numbers, leading zeros included, and colon-separated lists the numeric test finds just 30-37 and 90-97 |
| SgrDim.LeadingZero | src/dimfix.ts:85-142 | A reset, 2, 22 or 39 written with leading zeros keeps the terminals in step if and only if it changes nothing: a 2 while faint, a 22 while not, a 0 or 39 on the default foreground without faint |
| SgrDim.LeadingZeroMissed | src/dimfix.ts:122-129 | The concrete failure: `02` is faint to a terminal and nothing to the filter |
| SgrNumber.NumberOfDigits | src/dimfix.ts:44-47 | `Number` of digits is the number they write |
| SgrNumber.NumberWithout | src/dimfix.ts:44-47 | `Number` of anything with a character that is no digit, sign, point or white space is not a number |
| SgrParams.SplitJoin | src/dimfix.ts:79-144 | Joining parts with semicolons and splitting them again gives the same fields: the output re-tokenises as intended |
| SgrParams.ApplyAppend | src/dimfix.ts:79-144 | A terminal reads a complete parameter list and then the rest as it reads both together (ECMA-48, section 8.3.117) |
| SgrParams.GroupLength | src/dimfix.ts:50-54 | A 38, 48 or 58 takes its mode and what the mode asks for, and never more fields than there are |
| SgrStream.StreamStands | src/dimfix.ts:146-201 | The whole filter over any stream in any chunks whose SGR can be read: what a terminal shows of the output is what it shows of the input, grey for faint on the default foreground |
| SgrStream.ChunksDoNotMatter | src/dimfix.ts:146-201 | For any split whose unfinished tails stay within 64 characters, the output and the final state are those of one chunk |
| SgrStream.FeedTwo | src/dimfix.ts:146-201 | The same for two chunks |
| SgrStream.CarryBounded | src/dimfix.ts:154-201 | The carry never exceeds 64 characters, whatever comes |
| SgrStream.CutSequence | src/dimfix.ts:154-197 | An SGR sequence cut between two chunks is rewritten as if it had come in one piece exactly if at most 64 characters came first; otherwise those go through as they are |
| SgrStream.FaintComesOutGrey | src/dimfix.ts:146-201 | `ESC[2m` and then a letter, on the default foreground, comes out as `ESC[38;2;r;g;bm` and the letter |
| SgrStream.ScanTexts | src/dimfix.ts:158-200 | Scanning loses and moves nothing: the tokens and the tail are the stream |
| SgrStream.ScanOfTexts | src/dimfix.ts:158-200 | Well-formed tokens printed one after another are scanned back as they were |
| SgrStream.RewriteTokensLexed | src/dimfix.ts:186-196 | For every stream the rewritten one is scanned as the rewritten tokens: as many, SGR where SGR was, and every other token as it was in its place |
| SgrStream.TokensStand | src/dimfix.ts:146-201 | Token by token the two terminals stay in step |
| SgrStream.PrivatePrefixIsRewritten | src/dimfix.ts:188-191 | A sequence with a private prefix that ends in `m` is rewritten too |
| SgrStream.IntermediateIsRewritten | src/dimfix.ts:44-47 | So is one with an intermediate byte: in `ESC[31 m` the space is white space to `Number`, and the colour counts |
| SgrPrivate.LeftAlone | src/dimfix.ts:79-144 | Exactly when the filter leaves a sequence that is not SGR alone, in every state: if and only if none of its parameters is one the filter knows, `Number` reading them with white space, signs and fractions |
| SgrPrivate.UntouchedStays | src/dimfix.ts:79-144 | Parameters the filter does not know pass unchanged, and change nothing in it |
| SgrPrivate.TouchedShows | src/dimfix.ts:79-144 | For any other sequence there is a state in which it comes out longer or leaves the filter in another state |
| SgrDimFiltering.SgrDimFilter.RewriteSgr | src/dimfix.ts:79-144 | The loop computes, and leaves in the fields, exactly the rewriting that is proved to keep the terminals in step |
| SgrDimFiltering.SgrDimFilter.RewriteAt | src/dimfix.ts:85-142 | One turn of the loop rewrites one group and skips exactly the parameters it took up |
| SgrDimFiltering.SgrDimFilter.Feed | src/dimfix.ts:146-201 | One chunk, with what was carried over, comes out as the stream specification says, and its unfinished end is carried |
| SgrDimFiltering.SgrDimFilter.FeedSequence | src/dimfix.ts:180-197 | A control sequence is rewritten if it is SGR and passed on as it is otherwise |
| SgrDimFiltering.SgrDimFilter.constructor | src/dimfix.ts:72-77 | Starts with nothing carried and no attribute set |
| SgrDimFiltering.ExtendedColorLength | src/dimfix.ts:50-54 | Never past the last parameter, and as long as the terminal reads the colour |
| EditProtocol.NoSaveIsLost | src-tauri/src/edit.rs:423-510 | Every run of saves, server changes, failures, answers and closing: the copy's folder is deleted only if the copy is gone or holds exactly the bytes of the last completed transfer, with nothing failed pending and no conflict unanswered; the exit prompt misses no such copy; and a failure is told once |
| EditProtocol.DeletedExactlyWhen | src-tauri/src/edit.rs:440-463 | Where a turn ends for good, the folder is deleted if and only if the copy is gone or as last transferred, nothing waits to be tried again and no question is open |
| EditProtocol.SaveIsSent | src-tauri/src/edit.rs:423-619 | And saves do go up: one left alone, on a server that answers and whose file has not changed, has arrived after one turn, and nothing is left to send |
| EditProtocol.ClosingSyncsFirst | src-tauri/src/edit.rs:423-463 | A tab that closes sends what the server lacks first |
| EditProtocol.ClosedEnds | src-tauri/src/edit.rs:423-463 | Once the tab has closed every step of the watcher brings it nearer its end, and there the folder is deleted exactly if the copy is gone or as last transferred, nothing waits to be tried again and no question is open |
| EditProtocol.NeverUnasked | src-tauri/src/edit.rs:540-585 | Every run: an upload is under way only if the last check found the server's file with the stamp last transferred (or found it while that was unknown), or the user answered yes after it; and a check asks, and tells the conflict, exactly when the file is missing or has another known stamp, and uploads exactly when it does not and it is a file |
| EditProtocol.AnswerDecides | src-tauri/src/edit.rs:560-585 | A yes, and nothing else, uploads; after a no nothing is ever uploaded again; the tab closing while asked keeps the copy |
| EditProtocol.FailureIsRetried | src-tauri/src/edit.rs:512-522 | A failed check or upload is told and pending, and synced again when the timer or the connection says so; a failed upload not before that without a new save |
| EditProtocol.StillWriting | src-tauri/src/edit.rs:433-437 | A copy saved again while the editor was given time is left for the next turn |
| EditProtocol.NextKeeps | src-tauri/src/edit.rs:423-619 | Every step keeps the invariant behind it |
| EditProtocol.RunInv | src-tauri/src/edit.rs:423-463 | So does every run |
| EditSession.Session.Kept | src-tauri/src/edit.rs:491-510 | A copy that is not kept is one the server has had all of, with no failure pending and no question open |
| EditSession.Session.Step | src-tauri/src/edit.rs:423-619 | Whatever happens next, the object keeps the invariant: a deleted folder's copy was on the server, and the exit prompt misses nothing; it takes any step exactly as the state machine does |
| EditSession.Session.Drive | src-tauri/src/edit.rs:423-463 | So does any sequence of events, whatever state it starts in |
| EditSession.Watch | src-tauri/src/edit.rs:376-619 | A copy just opened and then any sequence of saves, server answers, failures and closings: the folder is deleted only if the server had all of the copy, with nothing failed pending and no conflict unanswered; the exit prompt misses no such copy; a failure is told once; no upload is under way over a changed file unasked |
| EditSession.Session.constructor | src-tauri/src/edit.rs:376-404 | A session starts in the invariant, with the copy as downloaded and its stamps as last transferred |
| UploadEffects.Upload | src-tauri/src/edit.rs:702-784 | Over a server whose every operation may fail: Ok means the file has the copy's bytes with its old mode, owner and group; an error that touched nothing changed nothing but the temporary; on the staged route the file is at every instant wholly old or wholly new, and the temporary has the mode before its first byte. The file is written in place exactly if it was seen to be a link, no new file could be made beside it, or that could not be given its mode, owner and group; it fails exactly if an answer says so, and says it may have been touched exactly after emptying it or a failed rename. On a healthy server whose new files suit, a file that is no link is replaced on the staged route, and a link is written through |
| UploadEffects.Fill | src-tauri/src/edit.rs:715-732 | The temporary is the whole copy with the file's mode and owner, or nothing came of it, exactly as the answers say; on a healthy server it always is, if new files suit |
| UploadEffects.MakeLike | src-tauri/src/edit.rs:717-732 | The temporary gets the file's mode while it is empty, and is used exactly if that worked and owner and group match |
| UploadEffects.Replace | src-tauri/src/edit.rs:744-760 | The rename swaps old for new in one step, and never over a folder; an error is a folder's or the rename's |
| UploadEffects.RewriteInPlace | src-tauri/src/edit.rs:770-781 | The file's bytes are the copy's, or an error says whether it was emptied first; nothing else is touched |
| UploadEffects.Discard | src-tauri/src/edit.rs:761-764 | Removing the temporary touches nothing else |
| UploadEffects.Server.SendFile | src-tauri/src/edit.rs:651-662 | The copy's bytes in blocks; a failure may leave any part of them, and only in that file |
| UploadEffects.Server.LeftBehind | src-tauri/src/edit.rs:685-690 | True only if the temporary could not be removed |
| UploadEffects.Server.OpenNew | src-tauri/src/edit.rs:715-716 | A failed open changes nothing; a new file is empty and at a path that was free |
| UploadEffects.Server.Truncate | src-tauri/src/edit.rs:772-773 | Empties the file the path leads to, keeping what else it is |
| UploadEffects.Server.Rename | src-tauri/src/edit.rs:751-757 | A rename whose answer was lost may have landed; a folder is never replaced |
| UploadEffects.Server.SetMode | src-tauri/src/edit.rs:719-721 | Only the mode changes, if that |
| UploadEffects.Server.Append | src-tauri/src/edit.rs:651-662 | Only that file's bytes change |
| UploadEffects.BesideSafe | src-tauri/src/edit.rs:715-764 | Nothing but the temporary touched, and that with its mode before its bytes: the file is wholly old |
| UploadEffects.SwappedSafe | src-tauri/src/edit.rs:751-760 | After the rename: wholly new |
| UploadEffects.SendingSafe | src-tauri/src/edit.rs:732-742 | And at every instant in between |
| UploadEffects.InPlaceRewrites | src-tauri/src/edit.rs:770-781 | In place, only the bytes are replaced, where the path leads |
| UploadEffects.AsideResolves | src-tauri/src/edit.rs:709-712 | The temporary does not change where the path leads |
| Multiplexer.EachGetsItsOwnReply | src-tauri/src/sftp/client.rs:125-300 | In every interleaving of sends, replies, drops and closes a request is answered only with a reply carrying its id (the one meant for it, if the server answers what it was asked), and no request is sent two |
| Multiplexer.NoneOutlivesTheClose | src-tauri/src/sftp/client.rs:58-72 | Once a close has been through, no waiter is left and none is ever added; everyone lost then or later is told the first reason; and a poll then leaves every request answered, dropped or told that reason, but for one whose reply the reader has in hand |
| Multiplexer.PollResolves | src-tauri/src/sftp/client.rs:125-142 | A poll tells what there is to tell: the reply that came, or, if the request was refused or its waiter dropped, the reason the session ended |
| Multiplexer.SendComesBack | src-tauri/src/sftp/client.rs:268-300 | A send is refused by a closed session or registered and then queued; with the writer gone it is taken back and not left waiting |
| Multiplexer.FreshIds | src-tauri/src/sftp/client.rs:268-272 | In every run of fewer than 2^32 requests the next id is not in use |
| Multiplexer.ReplyArrives | src-tauri/src/sftp/client.rs:125-240 | And replies do arrive: the reply to a waiting request, read, sent on and polled, is its answer |
| Multiplexer.RoundTrip | src-tauri/src/sftp/client.rs:125-300 | From any open session, whatever else is going on: made, registered, queued, replied to, read, sent on and polled, a request is answered with its reply |
| Multiplexer.NextKeeps | src-tauri/src/sftp/client.rs:125-300 | Every step keeps the invariant: waiters, replies in hand and channels fit together, no waiting request is forgotten, ids in use differ |
| Multiplexer.RunKeeps | src-tauri/src/sftp/client.rs:125-300 | So does every interleaving; and the first reason stays |
| Multiplexer.StaysSwept | src-tauri/src/sftp/client.rs:58-72 | A closed session stays closed |
| Multiplexer.RegisterKeeps | src-tauri/src/sftp/client.rs:276-290 | Registering under the lock, or being refused, keeps it |
| Multiplexer.EnqueueKeeps | src-tauri/src/sftp/client.rs:290-300 | Queueing the packet, or taking the request back without a writer, keeps it |
| Multiplexer.ReceiveKeeps | src-tauri/src/sftp/client.rs:212-240 | Taking a reply's waiter keeps it |
| Multiplexer.SendOnKeeps | src-tauri/src/sftp/client.rs:212-240 | Sending the reply on keeps it, also when the request was dropped meanwhile |
| Multiplexer.SetReasonKeeps | src-tauri/src/sftp/client.rs:58-66 | The first half of a close keeps it |
| Multiplexer.SweepKeeps | src-tauri/src/sftp/client.rs:66-69 | The second half keeps it |
| Multiplexer.PollKeeps | src-tauri/src/sftp/client.rs:125-142 | Polling keeps it |
| Multiplexer.DropKeeps | src-tauri/src/sftp/client.rs:145-151 | Dropping a pending request keeps it |
| Multiplexer.Shared.Register | src-tauri/src/sftp/client.rs:276-290 | Registers exactly if the session is open, under an id nobody has registered; nobody else's registration changes and the invariant stays |
| Multiplexer.Shared.TakeBack | src-tauri/src/sftp/client.rs:290-300 | A request that could not be queued has no registration any more, every other request keeps its own, and the invariant stays |
| Multiplexer.Shared.Take | src-tauri/src/sftp/client.rs:212-240 | Takes out the waiter with the reply's id; if there is none, no request with that id is waiting |
| Multiplexer.Shared.SetReason | src-tauri/src/sftp/client.rs:58-66 | The first reason stays, everyone lost so far was told it, and the invariant stays |
| Multiplexer.Shared.Sweep | src-tauri/src/sftp/client.rs:66-69 | No request is left waiting, except the one whose reply the reader has in hand |
| Multiplexer.Shared.Forget | src-tauri/src/sftp/client.rs:145-151 | A dropped request has no registration any more, every other request keeps its own, and the invariant stays |
| Multiplexer.Shared.constructor | src-tauri/src/sftp/client.rs:35-44 | Starts open, with no waiters, in the invariant |
| Ownership.UsersAreTheHolders | src-tauri/src/sftp/commands.rs:71-127 | At every point of every run of tabs, panels, jobs and edits, `users` is the number of holders (a tab once, jobs and edits, answers to a tab and close messages on their way), and a filesystem is open and registered exactly while it is positive |
| Ownership.NothingIsLeftOpen | src-tauri/src/sftp/commands.rs:71-127 | With every tab closed, every message arrived and no job or edit left, nothing is left open |
| Ownership.Released | src-tauri/src/sftp/commands.rs:71-81 | A release takes one user off the filesystem, none off any other, and closes it exactly when at most one was left |
| Ownership.RetainKeeps | src-tauri/src/sftp/commands.rs:89-97 | Retaining counts one more, or refuses what is not open |
| Ownership.ConnectKeeps | src-tauri/src/sftp/commands.rs:302-349 | Sharing an open filesystem or inserting a new one counts one more |
| Ownership.ReleaseKeeps | src-tauri/src/sftp/commands.rs:71-81 | A close message or a dropped use always finds its filesystem open, and takes exactly its own reference with it |
| Ownership.UseKeeps | src-tauri/src/sftp/commands.rs:105-112 | A job or an edit holds what it uses |
| Ownership.UseKeepsOpen | src-tauri/src/sftp/commands.rs:105-112 | A filesystem a job or an edit uses stays open until that is done, in every run, whatever tabs close |
| Ownership.ShownIsOpen | src/fm/panel-view.ts:190-253 | A remote filesystem shown in a panel of an open tab is open, in every interleaving of navigations, claims, releases and disposals |
| Ownership.NavigationShows | src/fm/panel-view.ts:190-253 | And panels do get there: a navigation in an open tab, to a filesystem that is open, left alone, shows its folder |
| Ownership.OpeningShows | src/fm/panel-view.ts:190-253 | Whatever else is open, a new tab in which a server is opened and its folder listed shows the server's filesystem |
| Ownership.OthersStay | src/fm/panel-view.ts:206-248 | A folder that could not be listed, or whose navigation was overtaken, is not shown; no other panel changes |
| Ownership.GoStep | src/fm/panel-view.ts:190-199 | Starting a navigation holds its target, or needs no claim because it stays on the filesystem held |
| Ownership.AnswerStep | src/fm/panel-view.ts:199-205 | A granted claim is kept by the navigation; one that came too late for the tab is closed |
| Ownership.ShownStep | src/fm/panel-view.ts:212-232 | Showing a folder trades the panel's old claim for the new |
| Ownership.NotShownStep | src/fm/panel-view.ts:236-248 | A navigation that failed or was overtaken gives its claim back |
| Ownership.ListedOrder | src/fm/panel-view.ts:206-232 | Only the latest navigation changes what is shown |
| Ownership.DisposeKeeps | src/fm/panel-view.ts:451-455 | Disposing of a tab sends one close for each filesystem it holds |
| Ownership.ClosingCloses | src/fm/panel-view.ts:451-455 | A tab that closes gives up what it holds, and what nobody else holds is closed with its message |
| Ownership.RunKeeps | src/fm/panel-view.ts:190-253 | All of it in every run |
| Ownership.ConnectedStep | src/fm/claims.ts:41-45 | A reference from connecting is adopted once, or closed |
| Ownership.GivenBack | src/fm/claims.ts:57-69 | Giving back the last claim closes the filesystem, any other only counts down |
| FsClaims.Claims.Claim | src/fm/claims.ts:27-30 | A claim at once if the tab holds the filesystem or needs none; otherwise a retain is to be sent |
| FsClaims.Claims.Answered | src/fm/claims.ts:30-36 | One reference per tab: a second one, or one for a closed tab, is closed |
| FsClaims.Claims.Adopt | src/fm/claims.ts:41-45 | The same for a reference taken by connecting |
| FsClaims.Claims.Referenced | src/fm/claims.ts:31-33 | A reference counted for the tab is held by it or closed, never both and never neither; a closed tab holds nothing more |
| FsClaims.Claims.GiveBack | src/fm/claims.ts:60-67 | However often a claim is given back it counts once, and the last one closes |
| FsClaims.Claims.Dispose | src/fm/claims.ts:48-52 | One close for each filesystem held; later claims given back do nothing |
| FsClaims.Claims.constructor | src/fm/claims.ts:17-25 | Starts with nothing held |
| FsClaims.PanelView.Go | src/fm/panel-view.ts:190-199 | `navigate` up to its first await: its number, and whether a claim is asked for |
| FsClaims.PanelView.Answer | src/fm/panel-view.ts:199-205 | `navigate` when the retain has been answered |
| FsClaims.PanelView.Listed | src/fm/panel-view.ts:206-253 | `navigate` to its end, `finally` included: the panel, the tab's claims and the closes are those of the step |
| FsClaims.PanelView.Dispose | src/fm/panel-view.ts:451-455 | The panel lets go of its claim |
| FsClaims.DisposeTab | src/fm/file-manager-tab.ts:244-256 | Closing a tab, panels first and then what is left of its claims, closes each filesystem it held once, whatever its panels hold |
| FsClaims.SftpSessions.Retain | src-tauri/src/sftp/commands.rs:89-97 | One more user exactly if it is open, the others untouched; what is open stays what is registered and used |
| FsClaims.SftpSessions.Release | src-tauri/src/sftp/commands.rs:71-81 | One user fewer, the others untouched; it stays registered exactly while a user is left |
| FsClaims.SftpSessions.Connect | src-tauri/src/sftp/commands.rs:302-349 | Afterwards it is registered with one user more than before, shared or new, the others untouched; what is open stays what is registered and used |
| ResumeArgs.ResumeArguments | src-tauri/src/context.rs:336-412 | The loop over any arguments keeps and drops exactly what the reading group by group does |
| ResumeArgs.ReadGroup | src-tauri/src/context.rs:340-410 | One turn reads one option with its values, or leaves one argument out |
| ResumeArgs.TakeValues | src-tauri/src/context.rs:362-401 | An option's values: attached, the next argument, or all up to the next option |
| ResumeArgs.ParseFits | src-tauri/src/context.rs:336-412 | Every group kept is a kept option with as many values as it takes, all of which can be typed |
| ResumeArgs.ReadAgain | src-tauri/src/context.rs:336-412 | Groups typed one after another are read back as they are with nothing left out, if and only if none is a `--debug` or `-d` whose value begins with `-` |
| ResumeArgs.NothingLost | src-tauri/src/context.rs:336-412 | Every argument is in exactly one group, in its place: kept with its words as typed (a value attached or not), or reported as left out |
| ResumeArgs.PromptLeftOut | src-tauri/src/context.rs:343-347 | After any groups, `--` and all that follows it is left out as the prompt, whatever it looks like |
| ResumeArgs.KeepsHowClaudeRuns | src-tauri/src/context.rs:234-280 | A model, a flag and any number of folders are kept as they are |
| ResumeArgs.NeverKept | src-tauri/src/context.rs:282-325 | No kept group says which session to open, or starts a one-shot or background run |
| ResumeArgs.Restored | src-tauri/src/context.rs:336-412 | The same behind `--resume <id>`, which alone is left out |
| ResumeArgs.AttachedDashSlips | src-tauri/src/context.rs:377-393 | The concrete failure: `--debug=-x` is kept, and printed apart it is not read as one option any more |
| ResumeArgs.AttachedReads | src-tauri/src/context.rs:354-401 | A value attached to its option (`--model=opus`, `-nwork`) reads as the same group as one that follows it |
| ResumeArgs.FirstAgain | src-tauri/src/context.rs:340-410 | A group before another, or at the end, is read as itself |
| ResumeArgs.FirstSlips | src-tauri/src/context.rs:388-393 | One that slips loses its value |
| ResumeArgs.KeptName | src-tauri/src/context.rs:240-280 | Every option of the table reads as just its name and can be typed |
| Quoting.LineReads | src/restore.ts:289-319 | In each kind of shell, a line of quoted words is split back into exactly those words |
| Quoting.Refused | src/restore.ts:289-319 | A word is refused exactly if it cannot be handed on reliably: a control character or a double quote anywhere; `%`, or a backslash at the end of a word that needs quotes, in Command Prompt; nothing, or white space with a backslash at the end, in PowerShell on Windows |
| Quoting.PosixReads | src/restore.ts:313-316 | Single quotes with `'\''` for a quote (POSIX Shell Command Language, section 2.2.2), and plain words, are read as the word |
| Quoting.PowerShellReads | src/restore.ts:305-312 | Doubled quotes, the typographic ones included, are read as the word |
| Quoting.NativeDelivers | src/restore.ts:305-312 | And what PowerShell hands to a Windows program arrives as the word: nothing empty, no backslash before a closing quote |
| Quoting.CmdReads | src/restore.ts:298-304 | Command Prompt finds nothing of its own in the quoted word |
| Quoting.CmdDelivers | src/restore.ts:298-304 | And a Windows program reads it as the word |
| Quoting.ArgvLine | src/restore.ts:298-312 | Arguments as they are, or in double quotes no backslash closes, are split back by a Windows program |
| Restore.ClaudeLine | src/restore.ts:326-337 | The shell it is for reads the line as `claude`, `--resume <id>` if there is something to resume, and word for word the options that can be typed; the others are reported as typed |
| Restore.RestoreOnce | src/restore.ts:326-337 | Typing the line and reading back what Claude is then started with gives the same option groups with only `--resume <id>` left out, if and only if none of them slips |
| Restore.NoDrift | src/restore.ts:326-337 | However often a session is restored, every line after the first is the same |
| Restore.PosixTakesAll | src/restore.ts:313-316 | A posix shell can be typed everything that was kept |
| Restore.PlainWord | src/restore.ts:299-314 | A word of letters, digits and dashes is typed as it is in every shell |
| TelnetStream.EatPrintedAll | src-tauri/src/session/telnet.rs:286-364 | Printer and parser undo each other: any data, commands and capped subnegotiations in escaped form are parsed back item for item, and the parser is ready for data again (RFC 854, TELNET Command Structure) |
| TelnetStream.EatTwo | src-tauri/src/session/telnet.rs:286-364 | However the stream is split into reads, the same items come out |
| TelnetStream.PayloadBounded | src-tauri/src/session/telnet.rs:343-361 | No stream grows a subnegotiation past the cap |
| TelnetStream.EncodeOutput | src-tauri/src/session/telnet.rs:190-211 | The peer reads what was typed, each CR or CR LF as CR LF, and is left ready for data |
| TelnetStream.EatPrinted | src-tauri/src/session/telnet.rs:286-364 | The same for one item |
| TelnetStream.EatPrintedSub | src-tauri/src/session/telnet.rs:343-361 | A subnegotiation of any length is read back, cut at the cap |
| TelnetStream.PayloadRead | src-tauri/src/session/telnet.rs:343-361 | A payload of up to 8192 bytes is read whole |
| TelnetStream.EatOther | src-tauri/src/session/telnet.rs:303-311 | Any other command, in data or among a payload, is skipped and leaves no trace |
| TelnetClient.StaysProper | src-tauri/src/session/telnet.rs:286-406 | Whatever the peer sends: an option is in `local` exactly if the last WILL or WONT said for it was WILL, in `remote` exactly if the last DO or DONT was DO, the window's size is active exactly if NAWS is in `local`, and nothing in force is agreed to again (RFC 854, General Considerations) |
| TelnetClient.ReactStaysProper | src-tauri/src/session/telnet.rs:366-406 | The same for one item |
| TelnetClient.HonouredOrRefused | src-tauri/src/session/telnet.rs:366-392 | A request for what can be done is honoured, and acknowledged exactly if it changes what is in force; one for anything else is refused; what the peer no longer wants is given up |
| TelnetClient.OwnOutput | src-tauri/src/session/telnet.rs:268-406 | Whatever the client sends of its own is parsed as just the commands and subnegotiations it meant, with no data, and ends ready for data |
| TelnetClient.SizeRead | src-tauri/src/session/telnet.rs:213-229 | The peer reads the window's size back (RFC 1073, section 2) |
| TelnetClient.TextPasses | src-tauri/src/session/telnet.rs:286-302 | Text reaches the terminal as it was sent, an IAC in it doubled, and is answered with nothing |
| TelnetClient.TerminalTypeAnswered | src-tauri/src/session/telnet.rs:394-406 | TERMINAL-TYPE SEND is answered on the wire with `xterm-256color` (RFC 1091) |
| TelnetClient.HelloBytes | src-tauri/src/session/telnet.rs:268-283 | The offer for an 80 by 24 window, byte for byte |
| TelnetClient.Telnet.Feed | src-tauri/src/session/telnet.rs:286-364 | Any bytes, in any state: the terminal's data, the answers and the new options are those of the items in them, and the invariant stays |
| TelnetClient.Telnet.Take | src-tauri/src/session/telnet.rs:322-340 | The terminal's data, the answer on the wire and the options after one item, on record in the order sent |
| TelnetClient.Telnet.OnPeer | src-tauri/src/session/telnet.rs:366-376 | An offered option that is wanted and not in force yet gets DO, an unwanted one DONT; a withdrawn one that was in force gets DONT; anything else no answer |
| TelnetClient.Telnet.OnUs | src-tauri/src/session/telnet.rs:378-392 | A supported option not in force yet gets WILL, an unsupported one WONT, one withdrawn WONT if it was in force; asking for NAWS also gets the window's size |
| TelnetClient.Telnet.OnSubneg | src-tauri/src/session/telnet.rs:394-406 | TERMINAL-TYPE SEND is answered with the terminal's name |
| TelnetClient.Telnet.Hello | src-tauri/src/session/telnet.rs:268-283 | The offers and requests it starts with are on record, and the window's size follows them |
| TelnetClient.Telnet.Resize | src-tauri/src/session/telnet.rs:171-180 | A new size is sent exactly while the server wants it |
| TelnetClient.Telnet.constructor | src-tauri/src/session/telnet.rs:256-265 | Starts with nothing agreed |
| TelnetClient.NawsSubneg | src-tauri/src/session/telnet.rs:213-229 | An IAC in the size is escaped |
| ChmodWalk.Chmod | src-tauri/src/vfs/commands.rs:237-313 | The recursive change succeeds exactly if nothing failed, with the number of entries that are not links; otherwise it says how many failed and which first; a single entry, or a link given directly, is changed alone |
| ChmodWalk.Walk | src-tauri/src/vfs/commands.rs:256-300 | The stack loop lists and changes exactly what the walk of the tree does, in its order, and counts it; a failure does not stop it |
| ChmodWalk.WalkSealed | src-tauri/src/vfs/commands.rs:256-300 | Once an entry is changed or left, nothing at it or inside it is touched again: each at most once, a folder after everything in it; no folder is listed twice |
| ChmodWalk.StillAsBefore | src-tauri/src/vfs/commands.rs:228-236 | Whenever an entry is listed or changed, it and every folder it is in still have their old mode |
| ChmodWalk.EndsAsSet | src-tauri/src/vfs/commands.rs:228-236 | An entry that was changed keeps its new mode |
| ChmodWalk.ReachedIsChanged | src-tauri/src/vfs/commands.rs:256-300 | Every entry that is not a link and is found through folders that can be listed is changed to its new mode |
| ChmodWalk.ChangedIsReached | src-tauri/src/vfs/commands.rs:256-300 | And nothing else is |
| ChmodWalk.NoFailure | src-tauri/src/vfs/commands.rs:301-302 | Without a failure the count is the number of entries that are not links |
| ChmodWalk.ModeBits | src-tauri/src/vfs/commands.rs:220-228 | Every permission bit is on if asked for, or if it was and is not to go; a folder that can be read can be opened; no other bit is touched |
| ChmodWalk.ModeUnknown | src-tauri/src/vfs/commands.rs:216-228 | A mode that isn't known is left alone exactly if the change does not decide every bit |
| ChmodWalk.ModeAgain | src-tauri/src/vfs/commands.rs:220-228 | Changing the same again changes nothing |
| ChmodWalk.PushChildren | src-tauri/src/vfs/commands.rs:271-276 | A folder's entries go on the stack on top of the folder |
| ChmodWalk.ChangeItem | src-tauri/src/vfs/commands.rs:285-298 | An entry's new mode is set, or left if its mode isn't known |
| FindClaude.Find | src-tauri/src/context.rs:166-194 | A matching process as few steps below the shell as any, one to four; none exactly if there is none that near; on any parent map, cycles included |
| FindClaude.Nearest | src-tauri/src/context.rs:176-183 | A match that comes up is as near as any |
| FindClaude.AllSeen | src-tauri/src/context.rs:171-193 | Whatever lies above all that is queued has been looked at |
| FindClaude.SearchGoesOn | src-tauri/src/context.rs:171-193 | One turn of the loop keeps the queue in order of depth and misses nothing |
| Leases.UsersAreLeases | src-tauri/src/connections.rs:281-360 | In every interleaving, two connects racing for one id included: `users` is the number of live leases, a registered connection has one at least, and it is hung up once, when the last is dropped |
| Leases.LossReportedOnce | src-tauri/src/connections.rs:183-205 | A loss is reported at most once; and once a connection is hung up, reported lost or replaced under its id, no lease on it is given out and no loss of it reported any more |
| Leases.LossIsReported | src-tauri/src/connections.rs:183-205 | The loss of a connection known by its id is reported, and its id free again |
| Leases.SharedThenHungUp | src-tauri/src/connections.rs:281-353 | A connection dialled and attached to once more has two users, stays for the second when the first goes, and is hung up and forgotten when the second does |
| Leases.NextKeeps | src-tauri/src/connections.rs:222-360 | Every step keeps the invariant behind it |
| Leases.GoneStays | src-tauri/src/connections.rs:183-205 | What is out of the registry never comes back |
| Leases.ConnectionRegistry.Insert | src-tauri/src/connections.rs:281-292 | The new connection is registered over whatever has its id by then, with one lease |
| Leases.ConnectionRegistry.Attach | src-tauri/src/connections.rs:306-321 | One more lease, only on a registered connection that is up and suits |
| Leases.SshConnection.Leave | src-tauri/src/connections.rs:336-352 | One user fewer, and hung up by the last |
| Leases.ConnectionRegistry.Release | src-tauri/src/connections.rs:334-353 | The last lease forgets the connection, if its id is still its own, and hangs up |
| Leases.ConnectionRegistry.Lost | src-tauri/src/connections.rs:183-205 | Forgotten and reported only if it is the connection known by its id |
| Folders.MoveFolder | src/connections.ts:335-358 | A dropped folder moves if and only if it exists, is not there already, and the folders are then still a forest; sessions stay where they are |
| Folders.IsDescendant | src/connections.ts:410-419 | Decides whether one folder is above another, and ends, on any data, cycles and missing parents included |
| Folders.PutKeeps | src/connections.ts:335-358 | A folder, new or not, put anywhere but into itself or under itself leaves every folder reachable from the root |
| Folders.PutUnderLoses | src/connections.ts:349-352 | Put into itself or under itself it would be lost |
| Folders.DescendantCount | src/connections.ts:204-208 | On any folders with different ids, missing parents and cycles elsewhere included, for any folder that is not under itself: ends, and counts exactly the sessions in the folder and everything under it |
| Folders.NeverEnds | src/connections.ts:204-208 | For a folder under itself it would not: one of its own folders is under itself too |
| Folders.NotInTwo | src/connections.ts:204-208 | Nothing is in two of a folder's own folders, so nothing is counted twice |
| Folders.PartWhole | src/connections.ts:204-208 | And nothing under it is missed |
| Folders.NewFolder | src/connections.ts:48-60 | A new folder keeps the forest, and everything else as it was |
| Folders.Store.FolderUpsert | src-tauri/src/store.rs:212-222 | The folder's parent is the new one, every other folder's is unchanged, ids stay unique |
| Folders.Store.FolderDelete | src-tauri/src/store.rs:226-246 | What was in the folder moves up to its parent; no other folder and no session is lost; the folders stay a forest |
| Folders.WithoutKeeps | src-tauri/src/store.rs:226-246 | Promoting a folder's contents to its parent keeps everything reachable |
| Folders.Store.SessionsReorder | src-tauri/src/store.rs:179-193 | The sessions named are in the folder in the order given; the others are unchanged |
| Folders.Store.SessionsUpsert | src-tauri/src/store.rs:164-174 | The session is written over the first with its id, or added; every other session is unchanged and in its place |
| Folders.Store.constructor | src-tauri/src/store.rs:94-100 | Starts empty, which is a forest |
| SftpCodec.AttrsAgain | src-tauri/src/sftp/protocol.rs:169-203 | Encoded attributes followed by any bytes decode to what the wire carries of them (a lone uid or gid dropped, a lone time doubled) and those bytes (draft-ietf-secsh-filexfer-02, section 5) |
| SftpCodec.ResponseAgain | src-tauri/src/sftp/protocol.rs:296-331 | Every response, NAME lists of any length included, is parsed back with its id from what a server sends for it (section 7), and a status may come without its message |
| SftpCodec.HandleBytes | src-tauri/src/sftp/protocol.rs:296-311 | A HANDLE reply, byte for byte, and back |
| SftpCodec.NamesAgain | src-tauri/src/sftp/protocol.rs:312-324 | Any number of entries is read back |
| SftpCodec.VersionAgain | src-tauri/src/sftp/protocol.rs:337-350 | The VERSION reply is read back with all its extensions |
| SftpCodec.StringAgain | src-tauri/src/sftp/protocol.rs:163-167 | A string is read back, whatever follows |
| SftpCodec.U32Again | src-tauri/src/sftp/protocol.rs:152-155 | Big-endian 32 bits are read back |
| SftpCodec.U64Again | src-tauri/src/sftp/protocol.rs:157-160 | Big-endian 64 bits are read back |
| SftpCodec.U32Written | src-tauri/src/sftp/protocol.rs:243-246 | And four bytes read are the ones that would be written for their value |
| SftpCodec.U64Written | src-tauri/src/sftp/protocol.rs:248-253 | Eight bytes likewise |
| SftpCodec.StringWritten | src-tauri/src/sftp/protocol.rs:255-258 | A string read off a packet likewise |
| SftpCodec.FlagsAgain | src-tauri/src/sftp/protocol.rs:169-190 | Each flag says that its field follows, and no extension does |
| SftpCodec.AttrsBytes | src-tauri/src/sftp/protocol.rs:169-190 | All attributes, byte for byte |
| SftpCodec.PacketsAgain | src-tauri/src/sftp/client.rs:529-543 | Packets sent one after another come out as they went in (section 3) |
| SftpCodec.PacketAgain | src-tauri/src/sftp/client.rs:529-543 | So does one, with what follows left in the stream |
| SftpCodec.NotAPacket | src-tauri/src/sftp/client.rs:529-543 | An empty packet, or one of more than 4 MiB, is refused |
| SftpWire.Encoder.Attributes | src-tauri/src/sftp/protocol.rs:169-203 | What the payload grew by reads back, whatever follows, as the attributes' normal form |
| SftpWire.Encoder.Bytes | src-tauri/src/sftp/protocol.rs:163-167 | What the payload grew by reads back as the bytes, whatever follows, if 32 bits hold their number |
| SftpWire.Encoder.U32 | src-tauri/src/sftp/protocol.rs:152-155 | What the payload grew by reads back as the value, whatever follows |
| SftpWire.Encoder.U64 | src-tauri/src/sftp/protocol.rs:157-160 | What the payload grew by reads back as the value, whatever follows |
| SftpWire.Encoder.Finish | src-tauri/src/sftp/protocol.rs:206-211 | `read_packet` takes the packet back as its body, whatever follows, unless that is too long |
| SftpWire.Encoder.constructor | src-tauri/src/sftp/protocol.rs:139-143 | Starts with the packet's kind |
| SftpWire.FlagsOf | src-tauri/src/sftp/protocol.rs:170-189 | Each flag is set exactly if its field follows: an owner only with a group, the times if either is known; no extension |
| SftpWire.Decoder.Take | src-tauri/src/sftp/protocol.rs:230-237 | Fails exactly if there are fewer bytes, touching nothing; otherwise what it took and what is left are what there was |
| SftpWire.Decoder.U32 | src-tauri/src/sftp/protocol.rs:243-246 | Fails exactly if fewer than four bytes are left; otherwise the value, written again before what is left, is what there was |
| SftpWire.Decoder.U64 | src-tauri/src/sftp/protocol.rs:248-253 | Fails exactly if fewer than eight bytes are left; otherwise the value, written again before what is left, is what there was |
| SftpWire.Decoder.Bytes | src-tauri/src/sftp/protocol.rs:255-258 | What a string read gave, written again before what is left, is what there was; it fails just where the format finds the string cut off |
| SftpWire.Decoder.Attributes | src-tauri/src/sftp/protocol.rs:268-292 | The fields the flags announce, absent ones None, extended pairs skipped; the rest is left |
| SftpWire.Decoder.Skip | src-tauri/src/sftp/protocol.rs:286-291 | Skips as many pairs as announced, or ends at the first that is cut off |
| SftpWire.Decoder.Names | src-tauri/src/sftp/protocol.rs:312-324 | Reads as many entries as announced, or none |
| SftpWire.ParseReply | src-tauri/src/sftp/protocol.rs:296-331 | Parses any bytes at all, as the format says |
| SftpWire.ParseHello | src-tauri/src/sftp/protocol.rs:337-350 | The same for VERSION: the loop ends at the end of the packet |

## Left out

- UploadEffects.Upload: the in-place route on a file that is gone makes a new one, so mode, owner and group are promised only if there was a file like the one remembered; a leftover that could not be removed when the temporary did not fit is not recorded (src-tauri/src/edit.rs:761-764), and nothing is claimed about it.
- SgrStream.StreamStands: the terminal of the model splits the stream as the filter does, so an ESC or a control character inside a control sequence, which a terminal aborts at or executes, is read as the filter reads it; that it ignores a colour cut short or in an unknown mode is an assumption. Parameters that are neither numbers nor colon-separated lists are not SGR and excluded, and so are the failing ones: leading zeros in 0, 2, 5, 22, 38, 39, 48 and 58, and a foreground cut short on the default one. Unfinished escapes longer than the 64-character carry are excluded, and resets by other sequences than SGR are not modelled.
- SgrPrivate.LeftAlone: `Number` is exact for what can stand before a final byte, where there are no letters; white space is that among the first 256 code points, and a decimal is rounded to the nearest double however long it is.
- SgrDimFiltering.SgrDimFilter.constructor: the grey is fixed for each filter; a theme changed while text is shown in the old grey is not modelled.
- SftpWriting.WriteFile: its file is stated for runs in which no call reported an error, since an error is reported once and then forgotten. An answer does not change within one call.
- EditProtocol.NoSaveIsLost: checking the copy and deleting its folder are one step, so a save between the two is outside the model; every save has a fresh stamp; how often the server is checked is not bounded.
- Multiplexer.EachGetsItsOwnReply: no 32-bit id is used again while it is outstanding.
- Folders.DescendantCount: the folders have different ids, as the store keeps them; sorting by name is left out, and ids are never the empty string.
- Folders.MoveFolder: checking and writing are one step; another window's change in between is not modelled.
- Quoting.LineReads: the shells' readings are partial models. fish's own rules, a batch file's splitting of its parameters, and Windows PowerShell's splitting of unquoted words such as `-a.b` are not in them; Windows PowerShell's white space is ECMAScript's.
- Restore.RestoreOnce: the groups reach the front end as they were saved; an id is a UUID in its usual form; `claude_args`, which removes the program's name, is the first word taken off.
- ChmodWalk.Walk: whether a folder can be listed or a mode set is fixed for each path, and nobody else changes the tree; modes are sets of bits.
- FindClaude.Find: reading and checking a session file is a predicate on the process; among equals the order is not stated.
- Leases.UsersAreLeases: the handshake and the login between taking a generation and registering are one wait; a lost connection's handler may call at any time, any number of times.
- TelnetStream.EncodeOutput: one call; a CR at the end of one and an LF at the start of the next are two line ends.
- SftpCodec.ResponseAgain: a status message is bytes, its decoding from UTF-8 being the identity on valid text.
- SftpCodec.PacketsAgain: `read_packet` is a function of the bytes still to come; that a length cut off at the end counts as a clean end is in it.
- Ownership.ShownIsOpen: a message to the backend always arrives, and a folder's listing is on the filesystem asked for.
- The transfer engine and its queue, the other filesystems and the `Vfs` trait: only the operations the models call, each allowed to fail.
- Tauri commands and events, terminals, sockets, pipes, processes, the keychain and the clock: parameters, or steps in any order.
- Panels beyond `navigate` and `dispose`, dialogs, themes, tabs and the rest of the user interface.
- Host keys, authentication, permission formatting, `status_error`'s texts, and other functions of one branch: they would only add easy members.

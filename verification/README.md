# code-graph-harness: a verified model of the LSP client, path handling and outlines

The daemon talks to one language server subprocess on behalf of many goroutines,
turns Windows, WSL and `file://` paths into one host form, and flattens symbol
trees into outlines. This project models those parts in Dafny and proves what the
code promises about them, for every input and every interleaving.
`dafny verify dfyconfig.toml` checks the whole project.

A Go string or `[]byte` is a `Text`, a sequence of bytes.

## What is modelled

**The multiplexer.** `Multiplexer.dfy` is a labelled transition system. Its state
is the pending table, the channels (capacity one), every operation with its
program point, the holder of `writeMu`, the bytes written to stdin and the reader.
One label is one critical section, one write, one channel operation or one frame
taken; callers, notifiers, the reader and `Close` interleave freely, writes may
fail half-way and timeouts may fire at any point of the wait.
`MultiplexerSteps.dfy` has the program order of operations and what each sort of
step leaves alone, `MultiplexerInvariant.dfy` proves an inductive invariant,
`MultiplexerTheorems.dfy` draws the guarantees from it, `MultiplexerReplies.dfy`
follows the server's requests and the replies to them, and `MultiplexerRuns.dfy`
says exactly which peers can stop the reader, building a run for each of them.
`PendingTable.dfy` is the same table as an object updated in place; its methods are
proved against the very functions the transition system uses.

**Wire discipline.** `WireDiscipline.dfy` puts the handshake of `New`, the opening
of files under `openMu`, the three queries and any number of `Close` calls on top
of the multiplexer, whose steps stay interleaved with them. `WireOutcomes.dfy` has
what comes of each message, `WireRuns.dfy` puts runs together, `WireProgress.dfy`
shows that nothing hangs, `WireService.dfy` takes a query all the way, and
`CloseRace.dfy` builds the run in which two `Close` calls make the reader panic.

**Framing.** `Framing.dfy` defines reading and writing of Content-Length frames
(Language Server Protocol 3.17, "Base Protocol", "Header Part") as functions on
byte strings; `FrameStream.dfy` has the reading loop, the two-write writer on a pipe
that may fail at any byte and the skeleton of the reader goroutine, proved against
them. `Decimals.dfy` prints and reads numbers; `StderrBuffer.dfy` is the bounded
capture of stderr.

**Paths and URIs.** `CleanPaths.dfy` is `path.Clean` as a fold over components;
`PathNorm.dfy` the conversions between Windows and WSL paths, and
`PathSpelling.dfy` what they give for every path, errors included; `Uris.dfy` the
percent codec of section 2.1 of RFC 3986 and file URIs (section 2 of RFC 8089), and
`UriSpelling.dfy` the same byte by byte.

**Outlines.** `Symbols.dfy`, `Outlines.dfy` and `Resolver.dfy` have the two mutable
walks over the symbol tree, each proved against a function, and what follows about
the flattened form.

## What the code does not keep

- `Normalize` is documented as idempotent. It is not on a relative path that cleans
  to the name of a drive and something below it, such as `./C:/x`, and only there;
  `NormalizeIdempotent` gives the exact condition on the input.
- A path whose normal form starts with a slash, a letter and a colon, such as
  `/C:/x`, does not come back from its URI; `HostPathUriRoundTrip` gives the exact
  condition.
- A host path with a backslash in a name can change when it is converted to Windows
  twice: `/a\b` does not, `/a\..\b` does. `WSLToWindowsTwice` gives the exact
  condition.
- A drive path does not stay on its drive: `C:\..\..\etc` becomes `/etc`.
  `DriveStays` gives the exact condition.
- `Close` may shut the pending table down while the reader is between looking up a
  channel and sending on it, and the reader then sends on a closed channel; two
  overlapping `Close` calls do it (`CloseRacesReader`). `PanicIsTheRace` says that
  nothing else leads there.
- A peer that answers one call twice can stop the reader for good, and no other
  peer can (`SecondAnswerBlocksReader`).

## Model

| member | source | states |
|---|---|---|
| Decimals.AtoiDecimal | internal/lsp/transport.go:36-40 | reading a printed length gives the length back |
| Decimals.DecimalInjective | internal/lsp/transport.go:82-85 | two ids never share a key of the pending table |
| Decimals.DecimalCanonical | internal/lsp/transport.go:62-62 | a printed number has only digits, and no zero in front unless it is zero |
| Decimals.AtoiIff | internal/lsp/transport.go:36-40 | exactly an optional sign, zeros and a printed number read as a number, and as that one |
| Bytes.EqualFoldIff | internal/lsp/transport.go:35-35 | keys are equal under folding exactly when they have the same letters, case apart, and the same other bytes |
| Framing.ReadFrameOf | internal/lsp/transport.go:18-67 | a framed body, whatever bytes it holds, is read back exactly, and exactly the bytes after it remain |
| Framing.ReadAllFrames | internal/lsp/transport.go:18-67 | iterated reading of concatenated frames gives the bodies in order and then goes on with what follows |
| Framing.ReadHeaderBlock | internal/lsp/transport.go:20-50 | for every header block: unknown headers, order, key case, padding and line ends are immaterial, the last declared length decides, and a malformed length, a missing length and a short body are each their own error |
| Framing.EveryLine | internal/lsp/transport.go:26-40 | every line a peer can send is one of the header lines those blocks are made of |
| Framing.PaddedNumber | internal/lsp/transport.go:34-36 | a printed length with blanks around it is read as that length |
| Framing.TrimSpaceDrops | internal/lsp/transport.go:33-34 | trimming takes away the six kinds of space at both ends, all of them and nothing else |
| Framing.ReadFrameExtend | internal/lsp/transport.go:18-51 | a result other than end of file depends only on the bytes consumed, so more input changes only the rest |
| Framing.ReadPartialFrame | internal/lsp/transport.go:18-51 | a frame cut at any point is reported as end of file and never taken for a message |
| FrameStream.Reader.ReadFrame | internal/lsp/transport.go:18-51 | the reading loop returns what the specification says and consumes exactly that |
| FrameStream.Reader.ReadLoop | internal/lsp/transport.go:140-151 | the reader goroutine takes every frame up to the first failing read, in order |
| FrameStream.Writer.WriteMessage | internal/lsp/transport.go:62-66 | on a pipe that may fail at any byte, the two writes append the frame as far as it goes, and success means all of it |
| FrameStream.Pipe | internal/lsp/transport.go:18-67 | for every sequence of bodies and every point of failure, exactly the messages whose frames got through whole are received, in order; with no failure, all of them |
| FrameStream.ReadCut | internal/lsp/transport.go:18-51 | a stream of frames cut off anywhere is read as exactly the messages that fit |
| StderrBuffer.LastOfLast | internal/lsp/transport.go:223-226 | cutting early loses nothing that a later cut would keep |
| StderrBuffer.Buffer.Drain | internal/lsp/transport.go:217-233 | after any reads the buffer is the last 8192 bytes of everything seen |
| StderrBuffer.Capture | internal/lsp/transport.go:208-233 | for every cut of the stream into reads the capture is its last min(total, 8192) bytes |
| MultiplexerInvariant.TableStep | internal/lsp/transport.go:72-92 | every step keeps the table exact: pending keys are the ids of unreturned calls, ids are unique, every unreturned call is listed or sees its channel closed |
| MultiplexerInvariant.PendingOpen | internal/lsp/transport.go:200-203 | a pending channel is open, so shutdown closes none twice |
| MultiplexerInvariant.DeliveryStep | internal/lsp/transport.go:101-115 | every step keeps each buffered or returned frame an answer to the call it is with, and the frame in the reader's hands undelivered |
| MultiplexerInvariant.LockStep | internal/lsp/transport.go:60-61 | every step keeps at most one operation inside the lock, the recorded holder |
| MultiplexerInvariant.WireStep | internal/lsp/transport.go:55-67 | every step keeps stdin equal to the frames of the log plus the holder's header, and the log in the order of the lock grants, until a write fails |
| MultiplexerInvariant.ChunksStep | internal/lsp/transport.go:55-67 | every step, a failing write included, keeps stdin a sequence of chunks, one for each grant of the lock |
| MultiplexerInvariant.InvStep | internal/lsp/transport.go:72-204 | one step of any goroutine keeps the invariants of table, delivery, race, lock, log and wire together |
| MultiplexerInvariant.ReachableInv | internal/lsp/transport.go:72-204 | the invariants hold in every state any run reaches |
| MultiplexerTheorems.ReplyIsOwn | internal/lsp/transport.go:101-115 | a call that returns a result returns that of a response frame whose raw id is the decimal text of its own id |
| MultiplexerTheorems.NoFrameTwice | internal/lsp/transport.go:169-177 | no frame reaches two calls |
| MultiplexerTheorems.ForeignIdIgnored | internal/lsp/transport.go:169-177 | a response with a quoted, null or otherwise non-decimal id reaches nobody |
| MultiplexerTheorems.ServerRequestAnswered | internal/lsp/transport.go:158-166 | a frame with a method and an id of any shape can neither be skipped nor taken for a response, and the reply started carries that id and that method |
| MultiplexerTheorems.ResponseLookedUp | internal/lsp/transport.go:169-178 | a frame with an id and no method, error responses included, can only be looked up, and finds the call pending under its raw id or none |
| MultiplexerTheorems.OtherSkipped | internal/lsp/transport.go:153-169 | every other frame, notification or malformed, can only be skipped |
| MultiplexerReplies.RequestsAnswered | internal/lsp/transport.go:158-188 | in every reachable state the MethodNotFound operations are one for each server request dealt with, with its id and method, in order, each returned before the next frame, and granted the lock in that order |
| MultiplexerTheorems.ReaderCourse | internal/lsp/transport.go:140-151 | between frames the reader can take any frame or see the end of the stream with any cause, and after the end shuts down and stops |
| MultiplexerTheorems.ReaderGoesOn | internal/lsp/transport.go:140-180 | in every reachable state a reader that neither stopped nor waits for its reply nor faces a full open channel has a step of its own |
| MultiplexerTheorems.FrameIntegrity | internal/lsp/transport.go:55-67 | in every reachable state in which no write has failed, a peer reading stdin recovers exactly the messages written; with the lock free, those of its successive holders with nothing left over |
| MultiplexerTheorems.ReadsUpToFailure | internal/lsp/transport.go:55-67 | in every reachable state, the messages of all holders before the first failed or unfinished write are recovered in order |
| MultiplexerTheorems.WireChunks | internal/lsp/transport.go:55-67 | in every reachable state, failed writes included, stdin is one chunk for each grant: whole frames, parts of frames where a write failed, and the holder's header or nothing |
| MultiplexerTheorems.ReportedIsWritten | internal/lsp/transport.go:94-96 | an operation past its write has its whole frame among the bytes on stdin, written under its one grant of the lock, whatever other writes have failed |
| MultiplexerTheorems.WriteMayFail | internal/lsp/transport.go:62-66 | either write may fail after any number of its bytes, and exactly these have gone out |
| MultiplexerTheorems.SelectIs | internal/lsp/transport.go:101-118 | a waiting call can time out at any moment, receives exactly a buffered reply, and sees the channel closed exactly when nothing is buffered |
| MultiplexerTheorems.AdmittedBefore | internal/lsp/transport.go:73-86 | before shutdown a call gets the next id, its pending entry and an empty open channel, and a notice passes |
| MultiplexerTheorems.RefusedAfterShutdown | internal/lsp/transport.go:121-134 | after shutdown calls and notices are refused on the spot with the recorded cause, and nothing else changes |
| MultiplexerTheorems.CauseIsFirst | internal/lsp/transport.go:192-204 | over every run the recorded cause is that of the first shutdown, the end of the stream or `Close`, and the table is closed exactly when there was one |
| MultiplexerTheorems.ClosedForGood | internal/lsp/transport.go:192-204 | over every run after shutdown the table stays closed and empty, no call gets in, and every failure reports the first cause |
| MultiplexerTheorems.WaitersReleased | internal/lsp/transport.go:101-118 | after shutdown every waiting call has a closed channel and can receive its buffered reply or see the channel closed, without the timeout |
| MultiplexerTheorems.ReleasedOps | internal/lsp/transport.go:192-204 | after shutdown every unreturned operation, or the lock holder it queues behind, can take its next step without timing out |
| MultiplexerTheorems.RankFalls | internal/lsp/transport.go:72-119 | no step moves an operation away from its return and each of its own steps brings it closer |
| MultiplexerTheorems.ShutdownDrains | internal/lsp/transport.go:192-204 | after shutdown all operations can return with no timeout, no peer and no failed write |
| MultiplexerTheorems.NoCallHangs | internal/lsp/transport.go:69-119 | in every reachable state all operations can return by their own steps and timeouts, with no help from the peer |
| MultiplexerTheorems.ReaderProgress | internal/lsp/transport.go:169-177 | with at most one response to each call, and any number to anything else, the reader's send finds an open channel with a free slot, even when the call has already left |
| MultiplexerTheorems.NoSendOnClosed | internal/lsp/transport.go:192-204 | over every run in which `Close` does not shut down between lookup and send, nothing is sent on a closed channel |
| MultiplexerTheorems.PanicIsTheRace | internal/lsp/provider.go:294-294 | the reader panics or is bound to if and only if `Close` closed the channel it had looked up |
| CloseRace.CloseRacesReader | internal/lsp/provider.go:270-296 | from the start of the provider on there is a run in which, with the provider serving and a peer that answers each call once, one of two overlapping `Close` calls makes the reader send on a closed channel |
| MultiplexerRuns.StuckForGood | internal/lsp/transport.go:169-177 | a reader facing the full channel of a returned call takes no further frame in any continuation |
| MultiplexerRuns.StuckIff | internal/lsp/transport.go:169-177 | a reader between lookup and send can never send again if and only if it faces the full channel of a returned call |
| MultiplexerRuns.StuckFrames | internal/lsp/transport.go:84-92 | for all frames: the reader can be stuck on the last of them if and only if it answers a call that an earlier one has answered |
| MultiplexerRuns.SecondAnswerBlocksReader | internal/lsp/transport.go:169-177 | for all frames: they can stop the reader for good if and only if two of them answer one call |
| PendingTable.Calls.Register | internal/lsp/transport.go:73-86 | on the heap, registering refuses on a closed table and otherwise does what the transition system's step does, under a key that was free |
| PendingTable.Calls.Deregister | internal/lsp/transport.go:88-92 | on the heap, the deferred delete removes that key and touches no channel |
| PendingTable.Calls.LookUp | internal/lsp/transport.go:170-173 | the lookup yields the open channel of the call registered under the raw id, or none |
| PendingTable.Calls.CloseAll | internal/lsp/transport.go:200-203 | the loop closes each pending channel exactly once in any order and empties the table |
| PendingTable.Calls.ShutDown | internal/lsp/transport.go:192-204 | on the heap, shutdown keeps the first cause, empties the table and closes exactly the pending channels with their buffers intact |
| WireDiscipline.SystemStep | internal/lsp/provider.go:133-296 | every event of start-up, opening, querying and closing keeps the discipline, whatever the multiplexer does in between |
| WireDiscipline.OneDidOpen | internal/lsp/provider.go:171-197 | while one didOpen for a file is underway no other has been written |
| WireDiscipline.WireOrder | internal/lsp/provider.go:133-245 | over every run: initialize and then initialized, each once, precede every didOpen, query, shutdown and exit; at most one didOpen per file is written and precedes its queries; an open file's didOpen was written |
| WireDiscipline.ServerReadsLog | internal/lsp/provider.go:133-245 | while no write has failed the server reads exactly that disciplined log |
| WireOutcomes.HandshakeSound | internal/lsp/provider.go:133-142 | over every run, from the end of initialize on, the server has answered it with a result and no error, and a provider that serves has sent initialized |
| WireOutcomes.InitializeEnds | internal/lsp/provider.go:133-136 | for every way initialize returns: a result goes on, an error response, a timeout, a lost connection and a failed or refused write end the start-up |
| WireOutcomes.InitializedEnds | internal/lsp/provider.go:137-142 | the provider is handed out exactly when initialized was sent |
| WireOutcomes.NotStartedForGood | internal/lsp/provider.go:133-140 | after a failed start-up nothing is ever started but replies to the server |
| WireOutcomes.DidOpenEnds | internal/lsp/provider.go:193-197 | the file counts as open exactly when its didOpen was sent |
| WireOutcomes.QueryEnds | internal/lsp/provider.go:206-214 | a query returns the result of its response, or an error when that was one or there was none |
| WireOutcomes.QueryReturnsOwn | internal/lsp/provider.go:200-256 | over every run a result returned is that of a response to a request of its own, with its method and for its file |
| WireOutcomes.CloseBeginsWith | internal/lsp/provider.go:270-279 | a first `Close` asks the server to shut down, a later one on a closed table goes straight to it |
| WireOutcomes.ClosedOnReturn | internal/lsp/provider.go:294-295 | once a `Close` call has returned the table is closed and empty |
| WireProgress.EverythingReturns | internal/lsp/provider.go:171-296 | no deadlock: from every state of every run, with nothing new begun, all operations and queries can return and all `Close` calls can finish |
| WireService.QueryGetsThrough | internal/lsp/provider.go:156-245 | on a connection at rest a query for any file goes all the way, opening the file if need be, and returns what the server puts into its answer |
| WireService.UnreadableFile | internal/lsp/provider.go:179-182 | a query whose file cannot be read ends with an error and nothing is sent |
| CleanPaths.CleanIdempotent | internal/pathnorm/pathnorm.go:80-81 | cleaning a cleaned path changes nothing |
| CleanPaths.CleanIsAbs | internal/pathnorm/pathnorm.go:110-113 | a cleaned rooted path is a slash and joined components with no empty, dot or dot-dot component |
| CleanPaths.ResolveOnto | internal/pathnorm/pathnorm.go:124-124 | below a rooted start, components lead where their relative form leads: first up, stopping at the root, then down |
| CleanPaths.CleanRules | internal/pathnorm/pathnorm.go:80-81 | the four rules of `path.Clean` hold anywhere in a path, and what none of them applies to is left as it is |
| PathNorm.DriveToWSL | internal/pathnorm/pathnorm.go:115-126 | a drive path in either case and with any separators leads where its tail, resolved on top of the lower-case mount, leads |
| PathNorm.DriveStays | internal/pathnorm/pathnorm.go:115-126 | exactly those drive paths stay on their mount whose tail does not lead upwards, or up and into the mount again |
| PathNorm.DriveLeaves | internal/pathnorm/pathnorm.go:115-126 | two steps up from the top of any drive lead to the root of the host |
| PathNorm.UncToWSL | internal/pathnorm/pathnorm.go:67-82 | a WSL UNC path with any server spelling, separators and distro, a bare distro and a third separator in front included, leads to the cleaned path inside the distro |
| PathNorm.SpellingIndependence | internal/pathnorm/pathnorm.go:213-223 | drive spellings that differ in letter case and separators have one normal form, absolute and clean |
| PathNorm.UncSpellingIndependence | internal/pathnorm/pathnorm.go:213-223 | UNC spellings that differ independently in server, case, distro and every separator have one normal form, absolute and clean |
| PathNorm.WindowsToWSLDomain | internal/pathnorm/pathnorm.go:84-129 | exactly absolute paths, drive paths with something after the colon and WSL UNC paths with a distro convert; everything else is an error |
| PathNorm.WSLToWindowsDomain | internal/pathnorm/pathnorm.go:165-200 | every path goes to Windows by way of its host path, and does so exactly when that exists and is on a drive mount or the distro is known |
| PathSpelling.WindowsToWSLErrors | internal/pathnorm/pathnorm.go:67-129 | every path that does not convert, and its error |
| PathSpelling.WSLToWindowsFails | internal/pathnorm/pathnorm.go:165-187 | what has no host path fails towards Windows with the same error |
| PathSpelling.RootedToWSL | internal/pathnorm/pathnorm.go:110-113 | a path that is absolute already is cleaned and nothing else |
| PathSpelling.HostSpelled | internal/pathnorm/pathnorm.go:184-200 | what every absolute path becomes, spelled out: upper-case drive, colon and backslashed components, or the same below the distro |
| PathSpelling.SeparatorsTurned | internal/pathnorm/pathnorm.go:190-190 | each separator is turned and no other byte is touched |
| PathNorm.SplitMount | internal/pathnorm/pathnorm.go:134-151 | exactly the paths on a one-letter mount are recognised, with their rest |
| PathNorm.HostToWindows | internal/pathnorm/pathnorm.go:184-200 | an absolute path becomes the drive path of its mount, else the path below the distro, else an error without a distro name |
| PathNorm.WindowsToWSLCanonical | internal/pathnorm/pathnorm.go:101-129 | every converted path is rooted and clean, and free of backslashes when it came from Windows |
| PathNorm.WslRoundTrip | internal/pathnorm/pathnorm.go:101-201 | for every absolute path, there and back gives the cleaned path with a lower-case drive if and only if the cleaned path has no backslash |
| PathNorm.WSLToWindowsTwice | internal/pathnorm/pathnorm.go:165-201 | converting to Windows twice is converting once if and only if the host path is clean, and on a mount or not as before, with backslashes read as separators; so always for Windows paths and paths without backslashes |
| PathNorm.DriveRoundTrip | internal/pathnorm/pathnorm.go:101-201 | a canonical drive path comes back from WSL with its letter in upper case |
| PathNorm.NormalizeCanonical | internal/pathnorm/pathnorm.go:213-223 | a normal form has no backslash and is clean |
| PathSpelling.NormalizeIs | internal/pathnorm/pathnorm.go:203-223 | the normal form of every path: of drive paths, of WSL UNC paths, of everything else that begins with a separator, unsupported shares included, and of the rest, bare drives included |
| PathSpelling.NormalizeAlike | internal/pathnorm/pathnorm.go:203-223 | other paths whose slashed components resolve alike have one normal form |
| PathNorm.NormalizeIdempotent | internal/pathnorm/pathnorm.go:203-223 | normalising twice is normalising once if and only if the path is not a relative one, other than a drive path, whose components resolve to a drive name and something below it; always when the normal form is absolute |
| PathNorm.NormalizeNotIdempotent | internal/pathnorm/pathnorm.go:212-223 | `./C:/x` breaks the documented idempotence |
| Uris.UnescapeEscape | internal/pathnorm/pathnorm.go:225-232 | percent decoding undoes percent encoding on every byte string |
| UriSpelling.EscapeIs | internal/pathnorm/pathnorm.go:225-232 | letters, digits and the listed bytes stand for themselves, every other byte is a percent sign and its two upper-case digits; no space, no quote, nothing beyond ASCII comes out |
| UriSpelling.UnescapeIff | internal/pathnorm/pathnorm.go:242-246 | a text decodes exactly when it falls into plain bytes and percent signs with two digits of either case, and to those bytes |
| UriSpelling.UriIs | internal/lsp/uri.go:15-18 | the URI of a path is the scheme, the empty authority and the encoded path, with the library's two exceptions |
| Uris.PathUriRoundTrip | internal/lsp/uri.go:15-30 | the language server's paths come back from their URI if and only if they are absolute or empty |
| Uris.HostPathUriRoundTrip | internal/pathnorm/pathnorm.go:228-267 | a path comes back from its URI as its normal form if and only if that is absolute and does not begin with a slash, a letter and a colon |
| Uris.FileUriForms | internal/pathnorm/pathnorm.go:234-267 | every percent-encoding of an absolute path, with empty authority or "localhost" in any case, denotes the normal form, a drive letter being read without the slash before it; a malformed encoding is an error |
| UriSpelling.RemoteUri | internal/pathnorm/pathnorm.go:251-253 | another host gives two slashes, the host and the decoded path for the core, and the decoded path for the language client; a bad host or encoding is an error |
| UriSpelling.NoPath | internal/pathnorm/pathnorm.go:254-256 | a URI with a host and no path is an error when the host is this one |
| UriSpelling.OtherForms | internal/pathnorm/pathnorm.go:243-267 | one slash after the scheme is as good as three, and no slash gives no path |
| UriSpelling.OtherScheme | internal/lsp/uri.go:22-29 | any other scheme is an error |
| UriSpelling.QueryIgnored | internal/lsp/uri.go:22-30 | a query after the path is ignored |
| UriSpelling.FragmentIgnored | internal/lsp/uri.go:22-30 | a well-formed fragment is ignored and a malformed one is an error |
| UriSpelling.ControlRejected | internal/lsp/uri.go:22-25 | a control byte makes a URI an error |
| Outlines.Walker.Walk | internal/tools/get_outline.go:95-113 | the recursive closure appends the outline of its forest to what was there |
| Outlines.FlattenSymbols | internal/tools/get_outline.go:93-115 | the walk returns the outline |
| Outlines.OutlineLossless | internal/tools/get_outline.go:16-30 | rebuilding an outline gives back the forest |
| Outlines.OutlineInjective | internal/tools/get_outline.go:16-30 | forests that differ in shape or contents have different outlines |
| Outlines.OutlineShows | internal/tools/get_outline.go:93-115 | the outline has one entry for each symbol, in preorder, showing the symbol's fields and depth |
| Outlines.WireOutlineShows | internal/lsp/provider.go:366-390 | from the server's answer to the outline: one entry for each symbol, in preorder, with its name, detail, kind name, both ranges and depth |
| Outlines.OutlineIff | internal/tools/get_outline.go:93-115 | a list is the outline of a forest if and only if it starts at the given depth, never falls below it and rises by at most one |
| Outlines.FlattenPrune | internal/tools/get_outline.go:78-82 | the first n entries are the outline of the forest pruned to n symbols |
| Outlines.ParentKept | internal/tools/get_outline.go:78-82 | every prefix of an outline contains the parent of each entry it contains |
| Outlines.GetOutline | internal/tools/get_outline.go:70-88 | the result is the first entries of the outline up to the configured cap, or 100 for none, and so the outline of a pruned forest, marked truncated exactly when something was cut |
| Outlines.WireOutlineIff | internal/lsp/provider.go:373-390 | two server answers have the same outline if and only if they are the same tree up to kinds without a name |
| Symbols.DocumentSymbols | internal/lsp/provider.go:259-263 | every symbol of the answer is converted, in order, and the result says of it field by field what the server said |
| Symbols.ToCoreIs | internal/lsp/provider.go:366-390 | the conversion of any tree keeps name, detail, range, selection range and children, names the file and gives the kind its name from the protocol's table |
| Symbols.KindNamesDistinct | internal/lsp/protocol.go:163-197 | no two kinds share a name other than "unknown" |
| Resolver.Walker.Walk | internal/tools/resolve.go:19-36 | the closure's two variables end up as the scan of the outline continues them |
| Resolver.ResolveSymbolPosition | internal/tools/resolve.go:15-45 | a name resolves to where the name of the first entry on the line stands, else of the first entry with the name, else to nothing |
| Resolver.ScanFinds | internal/tools/resolve.go:5-14 | a name resolves if and only if the outline has it, and with a line on which the outline has it to a position on that line |
| Resolver.ResolveOutlineEntry | internal/tools/resolve.go:15-45 | the name and line of any outline entry lead back to that line |

## Left out

- Subprocess start, kill and wait, real pipes and clocks: end of stream is a reader step with an arbitrary cause, a timeout is enabled during the whole wait.
- JSON: an outgoing body is opaque and not empty, an incoming frame is its method, raw id, error mark and payload; encoding the fixed message types cannot fail.
- Which part of the reader's input bytes becomes which incoming frame: the steps of the reader take frames, and `ReadLoop` says separately how bytes become frames.
- FrameIntegrity: stops at the first failed write, which can leave half a frame behind; what holds from then on is said by WireChunks and ReadsUpToFailure.
- WriteMessage: the lock is not part of this class but of the transition system, whose operations make the same two writes.
- Close: closing stdin and waiting for the process are not steps of their own; a write after it is a failed write, which may happen anyway. `closed` is set only at the end of `Close`, so no order between shutdown and queries is claimed.
- ensureOpen and the queries: modelled as steps on values and not as methods on an object, since what they promise is about their interleaving; reading the file may succeed or fail.
- TrimSpace: trims ASCII white space; the Go function also trims the multi-byte spaces of Unicode.
- Atoi: reads numbers of any size; the Go function rejects what does not fit an int.
- EqualFold: folds ASCII only, which is exact for "Content-Length"; for the host "localhost" the Go function also accepts the long s of Unicode.
- ParseFileUrl: the library's treatment of a non-empty authority is a parameter, a function from its text to the host or failure.
- decodeLocations and toLocation: straight decoding by cases, which would add only easy members.
- The text of error messages, and the stderr excerpt inside a cause.
- Integer overflow of the id counter.
- Event logging, configuration, the control socket, the generation counter and the MCP adapter: plumbing or one-line wrappers.

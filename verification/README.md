# A verified model of gritty

gritty keeps a shell alive on a server while clients attach to it, lose their connection and come back.
This project models the whole path of a terminal byte, from the keyboard through the client, the framed
socket, the daemon and the session task to the PTY and back, and proves what that path keeps. Check it with
`dafny verify dfyconfig.toml`.

## How the model is laid out

| Module | Models |
|---|---|
| `Utf8`, `Scalars`, `Decimal`, `Text` | valid UTF-8 (section 4 of RFC 3629) and the scalar values it stands for; printing and parsing of unsigned integers; `find`, `split`, `join`, `lines` on bytes |
| `Protocol` | frames, their encoding, and `FrameCodec` over a byte buffer changed in place |
| `Wire` | what is written and what any bytes are read as, with all numbers written out |
| `RoundTrip`, `Streaming` | when decoding gives back what was encoded; streams cut into arbitrary reads |
| `Escape` | the `~` escape processor |
| `Client`, `ClientLaws`, `ClientTalk` | one connection's relay with its heartbeat, the reconnect loop, and what holds of every script of events: timing, what is said, how it ends |
| `Connect` | destination parser and printer, tunnel monitor |
| `Server`, `SessionLaws` | the session task as a state machine and as its nested loops, and what holds of every session |
| `Survival` | what losing its client does to a session |
| `Daemon` | the session table changed in place, and what one request does |
| `System`, `SystemLaws`, `Connections`, `SystemRuns` | daemon and sessions interleaving freely, with a log of every frame attempted on every connection; invariants of all runs |
| `Availability` | which sessions stay listed, whom a returning client reaches, and what aborts a session |
| `Handover` | that whoever the daemon lets in gets to its session, in order; who is kept out; what the daemon and a session can do next |
| `EndToEnd`, `Replies`, `Upstream` | both sides composed through the codec: what an attached client sees, which answers can be decoded, and what goes from the client to the server |

Code that loops or updates state is written as methods and classes (`FrameCodec`, `EscapeProcessor`, `Relay`,
`RunClient`, `TunnelMonitor`, `RelayLoop`, `AcceptLoop`, `RunTask`, `SessionTable`). Each is proved to compute a
specification function, and the properties are proved of that function for all inputs.

Awaiting code is driven by a *script*: the sequence of what its awaits deliver, with the outcome of each send
as part of the event. Every property is about every script, and in `System` about every interleaving. A frame
counts as *attempted* on a connection when it is handed to it, whether or not the peer ever reads it. Times are
nanoseconds. `byte`, `u16`, `u32`, `u64` and `i32` are bounded, and the frame length is cut to 32 bits as in the source.

## What came out

- A lost client can take the shell with it. Take a client whose bytes stop, and whose end is noticed before any other client takes
  over. The session outlives it if the bytes stop between two frames and nothing failed to be sent to it, or written for it, before that; bytes that
  stop inside a frame, as when the transport breaks or the client dies in the middle of sending one, are an error at the end of the stream, and a
  chunk of output that cannot be sent is one too, and both end the session (`Survival.LostClient`, exactly, and `Survival.LostClientInRun` of every
  run; `Survival.ByteThenGone` and `Survival.PrintedToNoOne` are concrete).
- As long as the session lives, each client picks up exactly where the one before left off: what the connections were shown, one after the other in
  the order the session took them, is what its PTY gave (`SystemRuns.OutputContinuesInRun`, `EndToEnd.ClientShowsPtyOutput`). The other way the source
  promises less: a short or would-block write drops what is left of a Data frame, so the PTY gets the typing with bytes left out, and all of it exactly
  if every write took all it was given (`SessionLaws.InputThinned`, `Upstream.TypedReachesPty`).
- The environment survives its `k=v` lines exactly when no key contains `=`, nothing contains a line feed, and no
  value but the last ends in a carriage return, since `lines()` eats it (`RoundTrip.EnvRoundTrip`, `RoundTrip.CarriageReturnLost`). It also has to
  arrive in time, and without one the first frame lost to the wait is the window size (`Upstream.EnvironmentArrives`, `Upstream.ResizeSwallowed`).
- A carriage return in a session listing is harmless, since every line ends in a digit; a tab or line feed in a name is
  what breaks it, and so does a table whose text outgrows a frame (`EndToEnd.ListingArrives`; `Replies.TabRun` is a run that comes to it).
- A session can be shadowed: a second session named `0` makes the number 0, which the first one's client uses
  to reconnect, lead to the second (`Availability.ShadowedRun`). Otherwise a number keeps its meaning for good (`SystemRuns.NumberKeepsItsMeaning`).
- The exit code a client is told is not always the shell's. If the end of the PTY is noticed first and the poll after the relay loop finds no code,
  because the shell cannot be reaped yet or was killed by a signal, the client is told 0; a shell that was waited for and has no code counts as 1
  (`SessionLaws.ExitTold`; `EndToEnd.ExitCodeArrives` follows the code to the client's own exit).
- A client that comes back by name may be told it is reattached and be somewhere else: a name is free again once its session is gone. It leads to the
  session first attached to exactly if that has not ended and was not killed (`Availability.NameFinds`, `Replies.NameTry`); `Availability.NameReusedRun` is
  a run in which it leads to another.
- A detach can be lost: if a send fails before it in the same read, the client reconnects instead, with the escape
  processor left behind the tilde, so that a single dot then detaches (`ClientTalk.DetachLost`; `ClientTalk.RelayEnds` says exactly when a detach counts).
- A refusal repeats the name or target in a longer message, so the longest ones a request can carry get an answer the
  client's decoder rejects as too large (`Replies.ReplyArrives`, `Replies.LongTarget`). To a reconnecting client such a try means nothing, and it goes
  on trying (`Replies.TryOutcome`, `Client.Reconnect`); one that comes back by number never meets this (`Replies.NumberTry`).
- The repository's README says a connection is dead if no Pong arrives within 15 seconds. The code looks only at
  ticks, so it drops the connection more than 15 and at most 20 seconds after the last Pong (`ClientLaws.DropWindow`, `ClientLaws.HeartbeatDetects`,
  `ClientLaws.SilentRelay`).

## Model

| member | source | states |
|---|---|---|
| Utf8.ValidConcat | src/protocol.rs:244-249 | joining valid UTF-8 gives valid UTF-8, so text built by the encoder is accepted by the decoder |
| Utf8.ValidSplit | src/protocol.rs:168-172 | cutting valid UTF-8 at an ASCII byte leaves valid text on both sides of it |
| Scalars.ValidExactly | src/protocol.rs:105-107 | the byte strings accepted as text are exactly the encodings of sequences of Unicode scalar values: no surrogate, no overlong form, nothing cut short |
| Decimal.ParsePrint | src/protocol.rs:197-200 | a printed number parses back to itself if it fits the type, and to an error if it does not; no prefix overflows early |
| Decimal.PrintInjective | src/daemon.rs:219-219 | different ids are told to clients as different strings |
| Decimal.ParseExact | src/daemon.rs:63-68 | text parses to a number, for any bound, if and only if it is at least one digit behind at most one plus sign, its place value is that number, and the number is within the bound |
| Decimal.PrintExact | src/daemon.rs:219-219 | a printed number is its digits, with that place value, without a sign and without leading zeros |
| Text.SplitJoin | src/protocol.rs:189-191 | splitting at a separator undoes joining by it when no piece contains it |
| Text.LinesJoin | src/protocol.rs:166-169 | `lines()` undoes joining by line feeds, but for one carriage return at the end of every line except the last |
| Protocol.FrameCodec.Encode | src/protocol.rs:223-285 | the buffer grows by exactly the frame's encoding, built in place field by field; it never fails and never checks the size limit |
| Protocol.FrameCodec.Decode | src/protocol.rs:113-217 | the in-place decoder takes exactly what `DecodeOne` says: nothing when more bytes are needed or the header is oversize, one whole frame otherwise, even if its payload is bad |
| RoundTrip.EnvTextReadsBack | src/protocol.rs:162-176 | for variables without delimiters, exactly what comes back: all of them in order, each value but the last without one trailing carriage return |
| RoundTrip.DecodedVarsLackDelimiters | src/protocol.rs:168-173 | whatever text arrives, no decoded key contains `=` and nothing decoded contains a line feed |
| RoundTrip.EnvRoundTrip | src/protocol.rs:244-253 | decoding inverts encoding of an environment if and only if keys lack `=`, nothing has a line feed, and no value but the last ends in a carriage return |
| RoundTrip.CarriageReturnLost | src/protocol.rs:168-173 | a concrete environment whose first value loses its carriage return and whose last keeps it |
| RoundTrip.SessionInfoRoundTrip | src/protocol.rs:183-209 | decoding inverts encoding of a listing if and only if no id, name or PTY path contains a tab or line feed |
| RoundTrip.SendableDecodes | src/protocol.rs:113-285 | every frame within the size limit is taken off the front of any buffer whole, as it reads back; only the two text tables can read back changed |
| RoundTrip.RereadFaithful | src/protocol.rs:162-209 | a frame reads back as itself if and only if its text conditions hold |
| RoundTrip.DecodedSize | src/protocol.rs:121-209 | whatever fits the limit decodes to a frame whose own payload is below 256 MiB, so a wrapped length cannot bring an oversize frame back |
| RoundTrip.DeliverableDecodes | src/protocol.rs:113-217 | a frame within the size limit and text conditions is taken off the front of any buffer whole and unchanged, leaving the rest |
| RoundTrip.FrameRoundTrip | src/protocol.rs:113-285 | for every frame of any size, decoding its encoding gives it back with nothing left over if and only if it is within the size limit and its text conditions hold |
| Streaming.DecodeStable | src/protocol.rs:113-134 | a frame or error once decided on stays the same when more bytes follow; they are left behind it |
| Streaming.ChunkingIndependence | src/protocol.rs:113-217 | for any bytes, malformed ones included, the decoded frames and the first error or pending tail do not depend on how the stream is cut into reads |
| Streaming.StreamingRoundTrip | src/protocol.rs:113-285 | frames encoded back to back and delivered in any cut into reads decode to exactly that sequence with nothing left over |
| Streaming.TruncatedStream | src/protocol.rs:113-285 | a stream broken off anywhere gives a prefix of the frames sent and no error |
| Streaming.StreamingExact | src/protocol.rs:113-285 | a sequence of frames of any size comes back from a stream if and only if each of them is within the size limit and its text conditions hold |
| Streaming.DrainCut | src/protocol.rs:113-134 | a stream cut anywhere gives exactly the frames before the cut, as they read back, and the part of the next one as the pending tail |
| Streaming.CutOnBoundary | src/protocol.rs:114-131 | a stream that breaks off leaves nothing pending if and only if it was cut between two frames |
| Streaming.FirstArrives | src/protocol.rs:113-285 | the first frame of a stream arrives as sent if and only if it is within the limit and its text conditions hold, whatever follows and however it is cut |
| Streaming.DrainAccounts | src/protocol.rs:113-134 | every byte of a buffer drained belongs to one frame: a header and the bytes it announces for each frame, in order and decoding to it alone, one more for a bad payload, and what is left |
| Wire.WireFormat | src/protocol.rs:5-285 | every frame, byte for byte and with all numbers written out: its type, its length most significant byte first, and its payload, text tables with their separators included |
| Wire.ReadsExactly | src/protocol.rs:113-217 | for any bytes at all, which frame is read off their front and what is left, with all numbers written out; and when more bytes are needed |
| Wire.RefusesExactly | src/protocol.rs:113-217 | for any bytes at all, when they are refused, with which error, and what is left |
| Wire.LinesExactly | src/protocol.rs:166-167 | how any text falls into lines: at line feeds, each ended line without one carriage return, and no line after the last line feed if nothing follows it |
| Wire.VarsExactly | src/protocol.rs:166-173 | any lines, in order, give one variable each if they have a `=`, cut at the first one, and none if not |
| Wire.EntriesExactly | src/protocol.rs:187-209 | any lines, in order, give one entry each if they have seven fields, and none if not; a field that is no number within its width counts as 0 |
| Escape.EscapeProcessor.Process | src/client.rs:51-128 | the byte loop with its buffer, flushes and early return yields exactly the machine's state and action list |
| Escape.ProcessMeaning | src/client.rs:51-128 | one call's actions, ungrouped, are the scan's output; no Data is empty or longer than the input plus one held tilde |
| Escape.SplitInvariance | src/client.rs:386-389 | state, output, commands and detach are the same however the input is cut into reads; nothing is processed after a detach |
| Escape.EscapesAreLocal | src/client.rs:45-128 | the machine equals a description that looks two bytes back: Detach at exactly the first `~.` at a line start, Suspend and Help at exactly the `~^Z` and `~?` before it, nothing after it |
| Escape.CommandsFire | src/client.rs:77-101 | the commands fired, in order, are those typed: up to the first detach, Detach for 0x2E, Suspend for 0x1A and Help for 0x3F, each directly behind a tilde at a line start, and nothing else |
| Escape.OneDataPerRead | src/client.rs:55-127 | a read without a tilde goes out as one Data action, together with a tilde held from the read before |
| Escape.Accounting | src/client.rs:55-127 | bytes consumed plus a tilde held before equal bytes output plus two per command plus one per `~~` plus a tilde held after |
| Escape.ProtectScans | src/client.rs:63-119 | text with every line-start tilde doubled is output as itself, fires no command and leaves no tilde held |
| Escape.Transparency | src/client.rs:63-119 | the same for any cut into reads |
| Client.PerformActions | src/client.rs:277-300 | the loop over one read's actions sends, stops at a detach and gives up at the first failed send as specified |
| Client.Relay | src/client.rs:236-360 | opening frames and select loop produce, for every script of events, the specified frames, ending and escape state |
| Client.Reconnect | src/client.rs:397-442 | the retry loop ends with the first try that is interrupted or answered by Ok or Error, every earlier one having failed to connect or send, or been answered by anything else; it goes on if there is none |
| Client.RunClient | src/client.rs:362-446 | the connection loop lives as specified for every sequence of connections, sharing one escape processor among them |
| ClientLaws.DroppedByTick | src/client.rs:349-353 | a running relay is dropped by an event exactly if that is a tick more than 15 s after the last Pong, or the start if there was none |
| ClientLaws.HeartbeatSound | src/client.rs:231-232 | if every Ping is answered in under 15 s, the heartbeat never drops the connection, whatever else happens |
| ClientLaws.DropWindow | src/client.rs:349-357 | with ideal ticks, a drop comes more than 15 s and at most 20 s after the last Pong, or after the start if there was none |
| ClientLaws.HeartbeatDetects | src/client.rs:316-357 | with ideal ticks all delivered, a relay that is still up heard a Pong within the last 20 s |
| ClientLaws.SilentRelay | src/client.rs:349-353 | a concrete run in which a relay is still up 16 s after its last Pong and is dropped at exactly 20 s |
| ClientLaws.KeystrokesSent | src/client.rs:267-304 | on a link still up, the Data frames sent carry exactly what the escape scan makes of everything typed, across all reads, resizes, pings and help requests |
| ClientLaws.EnvironmentOnce | src/client.rs:245-259 | every connection opens with its opening frames as far as they could be sent; only a client's first connection carries an Env frame, only as the first frame |
| ClientLaws.ConnectionStarts | src/client.rs:245-259 | frame by frame, what each connection of a life starts with: the environment on the first if there is any, the window size, and a form feed for a redraw or on any later one; broken off only where a send failed |
| ClientLaws.SettlesExactly | src/client.rs:397-440 | the reconnect loop comes back, or gives up, exactly by the first try that was interrupted by Ctrl-C or, connected and sent, was answered by Ok or Error |
| ClientLaws.LifeExactly | src/client.rs:386-443 | a life goes on to another connection only when one was lost and a try came back, and ends as its last connection did, with the code it was given, or with 1 when it gave up |
| ClientTalk.ConnectionSays | src/client.rs:265-360 | everything a connection says after its opening, in order, is what each event stands for given only the text typed before it; a connection that ended said a prefix of that |
| ClientTalk.RelayEnds | src/client.rs:265-360 | an event ends a running relay, and in a way, exactly as the event and what was typed and heard before it demand; a detach counts only if every send before it in its read succeeds |
| ClientTalk.EscapeKept | src/client.rs:276-306 | however a connection ends, the escape processor has scanned all of the text its reads brought |
| ClientTalk.EscapeSpansConnections | src/client.rs:386-434 | as long as no detach was typed, the processor after a whole life stands where one scan of all text read on all its connections leads |
| ClientTalk.DetachLost | src/client.rs:277-287 | a concrete read whose detach is lost to a failing send and leaves the processor one dot away from detaching |
| Connect.ParseSound | src/connect.rs:20-66 | an accepted destination string is its ssh destination, plus a colon and text that parses to the stored port if there is one |
| Connect.ParseExactly | src/connect.rs:20-49 | a string is accepted, as a destination, if and only if it is the user, not empty, before the first `@` if there is one, then the host, not empty, and the number of a port behind the last colon if there is one |
| Connect.WhyRefused | src/connect.rs:20-49 | which of the four errors any other string gives; the port is looked at before the host |
| Connect.RenderParses | src/connect.rs:20-66 | a destination is recovered from its printed form if and only if its host is not empty, its user (if any) is not empty and free of `@`, its host is free of `@` if there is no user and of `:` if there is no port |
| Connect.TunnelMonitor | src/connect.rs:194-256 | the loop with its pruned list of exit times ends at the first wakeup, and with the verdict, that the full exit history demands; while alive it holds at most four times |
| Connect.VerdictExactly | src/connect.rs:194-256 | with its numbers written out: an exit with a code other than 255 is final, and at any other the monitor gives up if and only if it is the fifth failure, or more, within ten seconds |
| Connect.WindowBound | src/connect.rs:228-235 | no window of ten seconds, wherever it lies, holds five retryable exits of a tunnel that is still up |
| Connect.FailureRate | src/connect.rs:228-235 | a surviving tunnel failed at most 4 * (length / 10 s + 1) times in any interval |
| Server.RelayLoop | src/server.rs:190-285 | the inner loop ends where, and having sent what, the session machine says on every script; `attached` stays set throughout |
| Server.AcceptLoop | src/server.rs:159-306 | the outer loop does on every script what the machine does, with `attached` stored in place |
| Server.RunTask | src/server.rs:57-309 | the whole task, first client and spawn included, ends in the machine's state and has sent its frames, for every script |
| SessionLaws.PtyConservation | src/server.rs:246-268 | the Data payloads attempted, over all clients in order, are exactly the bytes read from the PTY, through all disconnects and takeovers |
| SessionLaws.ClientHears | src/server.rs:190-303 | a client is sent exactly what the events of one stretch make heard, each in a way that looks at no state: the stretch starts where it is taken off the channel and ends where its service does |
| SessionLaws.ExitTold | src/server.rs:237-303 | a client is told an exit code, last of all, if and only if it was served when the end of the shell was noticed; the code is the polled one if there is one, else 0 at the end of the PTY, else the waited one, else 1 |
| SessionLaws.ServedNow | src/server.rs:160-306 | who is served, told by the events alone: whoever was taken last, until it says Exit, its stream ends or the session is over |
| SessionLaws.WhatCanHappen | src/server.rs:89-285 | what a session can meet, exactly, told by the events before: its channel and its shell always, but for the one wait after the first client; the bytes of a client and of the PTY, 4096 at most, only while someone is served |
| SessionLaws.OutputContinues | src/server.rs:246-277 | what the PTY gave is what the clients were shown, one after the other in the order they were taken: each picks up exactly where the one before left off |
| SessionLaws.InputThinned | src/server.rs:195-204 | what is written to the PTY is what the Data frames brought with bytes left out, of each frame a prefix, nothing repeated or reordered; it is all of it if and only if every write took all it was given |
| SessionLaws.OneShell | src/server.rs:115-157 | the shell is spawned at most once; `attached` is true at every await of the relay and false at every later wait for a client |
| SessionLaws.FirstEnvOnly | src/server.rs:101-125 | the shell's environment is what the very first client's first frame carried if that was Env, else empty, and never changes |
| SessionLaws.MetadataExact | src/server.rs:144-234 | what the daemon can read of a session is what the spawn reported and the clock at the last Ping, 0 if there was none |
| SessionLaws.Lifetime | src/server.rs:190-306 | a session is over for a given reason exactly if its last event was fatal for that reason: shell exit or PTY end, channel closed while unattached, I/O or decode error, setup failure, abort |
| Survival.LostClient | src/server.rs:193-268 | a session whose client's bytes stop, in any reads, with the end noticed before any takeover, lives on with its shell if and only if nothing before that failed to be sent or written and the bytes stop between two frames, or the broken end was what the wait for the environment took |
| Survival.LostClientStop | src/server.rs:237-242 | the relay notices the end of its client's stream as a clean end exactly if nothing was pending or the end had been taken before, else as an error |
| Survival.BrokenOff | src/server.rs:193-268 | the same in terms of the frames the client sent: the bytes that got through must end between two of them, unless their broken end was taken before the relay |
| Survival.LostClientRun | src/server.rs:159-306 | the same of every session that can be reached: its run goes on with the turns it takes part in and ends up waiting for a client, or over, accordingly |
| Survival.LostClientInRun | src/server.rs:159-306 | the same in every run of the whole system, whatever other sessions and the daemon do in between |
| Survival.ByteThenGone | src/server.rs:242-242 | a concrete run: one byte of a header, then the end of the stream, ends the session |
| Survival.PrintedToNoOne | src/server.rs:257-257 | a concrete run: one chunk of output that cannot be sent ends the session |
| Daemon.SessionTable.ReapSessions | src/daemon.rs:43-52 | whatever order the map is visited in, exactly the finished sessions are removed |
| Daemon.SessionTable.ResolveSession | src/daemon.rs:55-69 | a session of that name if there is one, else the listed session of that number, else none |
| Daemon.SessionTable.NameTaken | src/daemon.rs:184-185 | finds a duplicate exactly if some table entry, finished or not, has the name |
| Daemon.SessionTable.BuildSessionEntries | src/daemon.rs:71-100 | visiting the map in any order and sorting gives the one listing in id order |
| Daemon.SessionTable.Shutdown | src/daemon.rs:102-109 | every listed session is aborted and the table is empty |
| Daemon.SessionTable.HandleRequest | src/daemon.rs:180-282 | one request changes table and counter and answers as specified, and keeps the table well-formed |
| Daemon.ResolutionUnique | src/daemon.rs:55-69 | in a well-formed table exactly one answer to a lookup is possible, so the map's iteration order does not matter |
| Daemon.TargetMeans | src/daemon.rs:55-69 | a target leads to a session if and only if it is listed and has that name, or has that number, read by place values, and nobody has that name |
| Daemon.UnknownTarget | src/daemon.rs:55-69 | a target leads nowhere if and only if it is no listed session's name and no listed session's number |
| Daemon.NumeralResolves | src/daemon.rs:55-69 | a session's number leads to it, or to none once it is gone, exactly if no other session is named by the numeral |
| Daemon.NumeralNameShadows | src/daemon.rs:54-61 | a concrete pair of requests after which the first session's number leads to the second session |
| Daemon.SortedListing | src/daemon.rs:98-99 | sorting by parsed id gives the same listing for every iteration order of the map |
| Daemon.ServeKeepsWellFormed | src/daemon.rs:180-272 | every request keeps ids below the counter and names non-empty and pairwise distinct |
| Daemon.TableExactly | src/daemon.rs:180-282 | who is listed after any request, and the name of a new session: only requests about sessions reap, and besides goes only what they name |
| Daemon.RefusedNameIsFree | src/daemon.rs:225-246 | whoever is refused a session by name can have that name: the next request to create it is granted |
| SystemLaws.AlwaysSound | src/daemon.rs:149-283 | in every reachable state the table is well-formed, sessions are numbered without gaps, only sessions taken off the table are aborted or see their channel close, and an ended session keeps no connection waiting |
| Connections.AlwaysConversing | src/daemon.rs:180-247 | at any time a connection is in at most one place: the daemon, one session's channel, or one session's current slot; what was attempted on it fits that place |
| Connections.AttachingClientSees | src/server.rs:162-306 | the frames attempted on an attaching connection are one Error, or its greeting, then Data and Pong, then at most one Detached or Exit, which is last |
| SystemRuns.ProjectRuns | src/daemon.rs:196-224 | each session's turns in a run of the system are a run of the session machine, with the same state and sends |
| SystemRuns.PtyOutputConserved | src/server.rs:246-268 | in every run, a session's Data payloads over all connections are the bytes read from its PTY, in order |
| SystemRuns.SessionsConsistent | src/server.rs:152-188 | in every run, each session has spawned at most one shell and its `attached` flag says whether a client is served |
| SystemRuns.ListedEndsByItself | src/daemon.rs:43-52 | a session still listed can only have ended by its shell, its I/O, its client's bytes or its setup, never by an abort or a closed channel |
| SystemRuns.AlwaysPast | src/server.rs:270-276 | a connection is taken off a channel once at most, by one session only, and is never with the daemon or in a channel again after that |
| SystemRuns.RightSession | src/daemon.rs:180-247 | a connection gets to the session its request asked for, by creation or by a target that led to it while it was live, and to no other; a creator is told that very session's number first |
| SystemRuns.ConnectionHears | src/server.rs:162-303 | in every run, an attached connection's whole trace is its greeting and then exactly what its session's events in one stretch make heard |
| SystemRuns.ExitCodeTold | src/server.rs:297-303 | in every run, the last frame on a connection is an exit code if and only if its session ended with that code while serving it |
| SystemRuns.CreatorServedFirst | src/daemon.rs:199-223 | in every run, the first client a session takes is the one whose request created it |
| SystemRuns.CreatorsEnvironment | src/server.rs:89-125 | in every run, a session's shell has the environment its creator sent in its first frame, if it came, and else none |
| SystemRuns.OutputContinuesInRun | src/server.rs:246-277 | in every run, what a session's PTY gave is what its connections were shown, one after the other in the order the session took them, through all disconnects and takeovers |
| SystemRuns.AlwaysAdmitted | src/daemon.rs:216-238 | every client a session ever took had asked to create or attach, and the first frame on it was the daemon's consent |
| SystemRuns.IdsIssuedOnce | src/daemon.rs:196-219 | over any run the ids told to clients are 0, 1, 2, ... in order, none skipped and none repeated |
| SystemRuns.IdentityKept | src/daemon.rs:142-272 | what is still listed under an old id is the same session under the same name |
| SystemRuns.NumberKeepsItsMeaning | src/client.rs:418-422 | a number told to a client leads, at any later time, to that session or to none, exactly if no other listed session is named by the numeral |
| Availability.AlwaysListed | src/daemon.rs:149-283 | in every run, no session disappears from the table while it lives, unless it was killed or the daemon went down |
| Availability.ReconnectFinds | src/daemon.rs:225-239 | a client coming back by its number is handed to that very session with an Ok if and only if the session has not ended, was not killed, and no other session the daemon still has is named by the numeral |
| Availability.ShadowedRun | src/daemon.rs:54-68 | a concrete run of the system after which the number of a live session leads a client to another |
| Availability.NameFinds | src/daemon.rs:54-69 | a name a client once attached by leads it back to that very session if and only if the session has not ended and was not killed |
| Availability.NameReusedRun | src/daemon.rs:180-247 | a concrete run of the system after which a name leads a client to another session than the one it was attached to by it |
| Availability.AbortedOnDemand | src/daemon.rs:253-272 | a session is aborted only because some earlier request killed it by a target that led to it, or the daemon was stopped |
| Availability.EndedByAbort | src/daemon.rs:102-105 | a session that ended by an abort had been condemned by such a step |
| Availability.CondemnedAborts | src/daemon.rs:102-109 | the converse: in every run, killing a session by name or number, or stopping the daemon by request or signal, aborts every session it concerns |
| Availability.AbortTakes | src/daemon.rs:253-262 | a condemned session that is not over can be stopped at any time, and is then over as aborted |
| Handover.GreetedArrives | src/daemon.rs:216-237 | in every run, a connection that was told it is attached is on its way to the session it was let in to, waits in its channel or was taken by it, unless that session is over |
| Handover.ServedInOrder | src/daemon.rs:237-237 | in every run, a session takes its clients in the order in which the daemon let them in, and passes over none |
| Handover.NumberBringsBack | src/client.rs:418-422 | a client back by number, its session living, not killed and not shadowed, is bound for that session or was taken by it at any later time, unless it is over by then |
| Handover.NameBringsBack | src/client.rs:418-422 | the same by name |
| Handover.OutsidersKeptOut | src/daemon.rs:171-174 | in every run, a peer of another user is told nothing, and neither the daemon nor any session ever has its connection |
| Handover.DaemonLoop | src/daemon.rs:149-283 | what the daemon can do next, exactly, told by its own last step: it reaps before it listens, takes one request from each peer it trusts, passes on whom it let in, and stops for good when told to |
| Handover.TurnsExactly | src/server.rs:159-285 | what a session can do next in a run, exactly: what it can meet by itself, and of its channel the next one let in, or its end once the session is unlisted and nobody is left; an abort only if it was condemned |
| Handover.ReportedOnce | src/daemon.rs:43-52 | the end of a task can be reported, so that the daemon reaps it, if and only if it is over and was not reported before |
| EndToEnd.AttachedClientReceives | src/client.rs:310-338 | an attached client decodes exactly what was attempted on its connection, in any cut into reads, or a prefix if the connection breaks; no frame is too large for it |
| EndToEnd.ClientShowsPtyOutput | src/client.rs:312-315 | shell to screen: what a session's i-th client decodes as Data starts exactly where what the clients before it were shown stops, in any cut into reads; if all of it gets through, the next client's part follows |
| EndToEnd.ExitCodeArrives | src/client.rs:320-323 | shell to user: the client served at the shell's end, if all its bytes get through, decodes the exit code last, and a relay still up when it reads that ends with it |
| EndToEnd.ListingIsTable | src/daemon.rs:71-100 | the listing is the table: one entry per listed id, ids strictly increasing, each with what the daemon knows of it |
| EndToEnd.ListingTruthful | src/daemon.rs:248-252 | in any run, the answer to a listing request shows exactly the listed sessions whose tasks have not finished, in order of number, each with its name, what its spawn reported, its last heartbeat and whether a client is served |
| EndToEnd.ListingArrives | src/daemon.rs:248-252 | a client decodes exactly the daemon's listing if and only if its text fits a frame and no listed name or PTY path has a tab or line feed |
| Replies.ReplyArrives | src/daemon.rs:180-282 | for every request, the asker decodes the daemon's answer, in any reads and whatever follows, if and only if it fits: a refusal if name or target leave room for its message, a listing if its text does and is clean, anything else always |
| Replies.RefusalSays | src/daemon.rs:188-281 | what a refused asker reads, word for word: which name is taken or which session there is none of |
| Replies.AskerLearns | src/daemon.rs:180-282 | the same for every asker of every run, refused ones included: the first thing on its connection is the answer to its request, and it decodes it if and only if it fits |
| Replies.TryOutcome | src/client.rs:412-440 | a delivered try of the reconnect loop is Reattached if and only if the target leads to a session that still takes clients, else SessionGone if the refusal fits and no answer at all if not |
| Replies.NumberTry | src/client.rs:418-440 | in every run, a client back by number, unless shadowed, is reattached if and only if its session has not ended and was not killed, and is told that it is gone otherwise |
| Replies.NameTry | src/client.rs:412-440 | in every run, a client back by name is with the session it left if and only if that has not ended and was not killed, and is told it is reattached then |
| Replies.LongTarget | src/daemon.rs:241-246 | a concrete target that can be requested and whose refusal cannot be decoded |
| Replies.TabRun | src/daemon.rs:248-252 | a concrete run in which a session is named by a tab: the answer to a listing request fits a frame and reads back changed |
| Upstream.ClientDeliverable | src/client.rs:265-357 | nothing a client sends after its opening is too large for the server's decoder or reads back changed |
| Upstream.DataSaid | src/client.rs:265-360 | the Data a connection sends after its opening is what the escape scan makes of everything typed, or the typing itself without escapes; a prefix of it if the connection has ended |
| Upstream.TypedTextArrives | src/client.rs:245-360 | keyboard to server: with any environment that fits, with or without redraw or escapes, in any reads and any cut or break of the connection's bytes, the server decodes the redraw request and then what the scan makes of the typing, all of it on a link still up, else a prefix |
| Upstream.TypedReachesPty | src/server.rs:190-205 | keyboard to PTY: what a session writes to the PTY for one connection is what the escape scan makes of the typing with bytes left out, nothing else, repeated or out of order |
| Upstream.PlainTextOut | src/client.rs:63-119 | text with its line-start tildes doubled, and any text without escapes, goes out as itself |
| Upstream.EnvironmentArrives | src/server.rs:101-125 | the shell's environment is exactly the first client's if and only if that is empty, or survives the text format, fits a frame and came whole before the wait ended |
| Upstream.ResizeSwallowed | src/server.rs:102-113 | without an environment, the frame that the wait takes and discards is the opening window size |

## Left out

- PTY, termios, signal, fork, fcntl and stdout calls: foreign code; the PTY and the sockets are event sources and logs.
- Client.Relay: a failing stdout write or `suspend`, which ends the client with an error, and a send that stalls the loop have no events.
- Client.RunClient: likewise; and a try of the reconnect loop is one record of how its connect, send and answer went.
- Resizing the PTY and `clamp_winsize`: foreign calls around one-line arithmetic; a Resize frame has no effect on a session's state.
- `src/security.rs`, `src/main.rs`, ssh command construction, remote exec, `wait_for_socket`, environment lookups and logging: thin wrappers around the operating system.
- Scheduling, fairness and progress: events are chosen freely and nothing is said about what must eventually happen; the relay's closed-channel arm can be chosen forever (src/server.rs:271-277), and a try can wait for its answer forever.
- The framing library: `Streaming.Feed` stands for its read loop, and `Survival.ItemAt` for its rule that bytes left at the end of a stream are an error, after which the stream is over. When the operating system reports a reset instead of a clean end is not modelled; a reset is a `ClientFailed` event like any other error.
- Bytes typed while reconnecting: the source reads and discards them; only Ctrl-C is in the model.
- Daemon.SessionTable.HandleRequest: does not model the wrap of the 32-bit id counter; a NewSession request needs a counter below its maximum, and so does `System.Possible`.
- Daemon.ServeKeepsWellFormed: likewise needs a counter below its maximum for a NewSession request.
- Upstream.TypedTextArrives: takes an environment whose text fits a frame; a larger one is an error to the server's decoder before any Data.
- Upstream.TypedReachesPty: likewise takes an environment that fits; and it says which bytes can reach the PTY, not that they do; the source drops what a short or would-block write leaves over (src/server.rs:197-204), and `SessionLaws.InputThinned` says when nothing is lost.
- ClientLaws.HeartbeatSound: takes ideal ticks of the interval timer and sends that do not stall the loop.
- ClientLaws.DropWindow: likewise takes ideal ticks.
- ClientLaws.HeartbeatDetects: likewise takes ideal ticks, all of them delivered.

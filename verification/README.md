# Telix modem gateway: a verified model

The gateway lets a browser terminal dial a BBS as if through a Hayes modem: browser, Node proxy, Go session, BBS. This
project models the byte-stream and state-machine components in between, each in the form its source has (classes with
mutable fields and loops where the source mutates, functions where it computes), and proves what they promise.

| file | models |
|---|---|
| `TelnetFilter.dfy` | the streaming TELNET filter of `internal/dialer/dialer.go` |
| `Proxy.dfy` | `escapeIAC` and the message multiplexer of `web/server.js` |
| `SRegisters.dfy` | the clamped S-registers of `internal/modem/sregisters.go` |
| `EscapeDetector.dfy`, `EscapeExactness.dfy` | the `+++` detector of `dataLoop` in `internal/server/session.go` |
| `BytePath.dfy` | the path from browser message to BBS, through all of the above |
| `HeaderSplitter.dfy` | `splitAtHeaderBoundaries` and `consume` of `web/public/js/zmodem-sentry.js` |
| `WindowedSend.dfy` | `applyWindowedSend` and the windowed data phase of `handleSend` |
| `ResendLoop.dfy` | the streaming rewind-and-resend loop of `handleSend` |
| `ReceiveSessions.dfy` | how `feed` tells a repeated ZRQINIT from the next file's |
| `RateLimiter.dfy` | `RateLimiter` of `internal/server/ratelimit.go` |
| `ConnectionTracker.dfy` | `ConnectionTracker` of the same file |
| `AtCommands.dfy`, `AtRoundTrip.dfy` | the AT parser of `internal/modem/commands.go` |
| `DialTranscript.dfy` | `handleDial` and `gatedConnect` of `internal/server/dial.go` |
| `ConfigWatcher.dfy` | `Watcher.poll` of `internal/config/watch.go` |

`Bytes.dfy` holds octets, RFC 854 doubling and stream concatenation. `dafny verify dfyconfig.toml` checks everything.

## What the model found

Each of these is a property that the code does not have on all inputs; the model keeps the code as it is, shows an input,
and proves the exact condition under which the property holds.

- **Slow plus signs are lost.** A withheld escape character is released only by a 100 ms read timeout that finds it older
  than the guard time. Another one that comes in the gap between the guard time and that timeout overwrites it
  (`internal/server/session.go:797-801`). `TwoSlowPlusesLoseOne` shows two plus signs reaching the BBS as one;
  `ConservationExact` proves that nothing is lost if and only if that branch is never taken.
- **A terminal 255 columns wide leaks bytes.** The NAWS frame is sent without doubling its size octets
  (`web/server.js:246-252`), though section 2 of RFC 1073 asks for it and the code calls the frame correctly formed.
  `NawsInvisibleExactly` says exactly which sizes survive; `WideTerminalLeaks` shows a stray CAN entering the data. The
  page that comes with the gateway keeps its grid at 80 by 24 (`web/public/js/app.js:28-29`), so only another WebSocket
  client can send such a size.
- **Input that starts with NUL can be taken for a resize.** So is every binary message of five or more octets with a
  leading 0 (`web/server.js:242`). `NulInputVanishes` shows five octets that never arrive; `DeliveredExactly` proves that
  what is delivered is what was meant if and only if no message is misread. This, too, takes another client: the page
  sends keystrokes as text (`web/public/js/app.js:317`), and its ZMODEM library escapes control octets
  (`web/public/js/vendor/zmodem.min.js:1419`).
- **A header need not be one.** From the five octets of a header start on, the splitter cuts out 18 octets whatever they
  are, and CR and LF only if they are there (`web/public/js/zmodem-sentry.js:39-51`), although a header without them is
  what it means to avoid (`web/public/js/zmodem-sentry.js:40-43`). `LettersTakenForHeader` shows a header start and
  fifteen letters, the first thirteen of which are cut out with it; `HeaderWholeExactly` says when a slice carries its
  CR LF, and when it is a hex header.
- **Suppress-go-ahead is agreed on for ever.** The filter keeps no record of what is agreed and answers every WILL and DO
  (`internal/dialer/dialer.go:354-376`), where RFC 854 says that a request for a mode already in effect is not to be
  acknowledged. A gateway offers that option to every caller (`internal/server/session.go:182`), so one that has dialled
  another exchanges answers with it endlessly; `ExchangeEndsExactly` shows this is the only option that does.
- **An empty file never goes to a windowed receiver.** The check after the data phase needs an acknowledgement, and no
  data means no ZCRCW (`web/public/js/zmodem-sentry.js:993-997`): see `SendFile`.
- **A block shorter than the window weakens the limiter.** For every such block and every limit below the global one of
  1000, `ShortBlockForgets` gets one request more than the limit through one window; the bound holds whenever the block
  is at least as long as the window (`AddressBound`).
- **A torn poll can hide a valid configuration.** The watcher reads the file twice; if a valid content is hashed and
  something that does not load is read back, going back to that content is not noticed (`TornPollSticks`). A poll keeps
  the watcher settled if and only if it is not torn (`SettledExactly`).
- **S2 = 0 does not disable the escape**, although `internal/modem/sregisters.go:64` says so. `ZeroStillEscapes` leaves
  data mode on three NULs; exactly which inputs do is said by `EscapesExactly`, for every escape character, 0 included.

## Model

| member | source | states |
|---|---|---|
| TelnetFilters.TelnetFilter.Filter | internal/dialer/dialer.go:239-327 | the loop over a chunk leaves the filter in the state, and returns the data and answers, of the octet-by-octet automaton |
| TelnetFilters.TelnetFilter.NoteDataByte | internal/dialer/dialer.go:227-236 | watching data for a ZMODEM frame changes only the lock and the two remembered octets |
| TelnetFilters.Homomorphism | internal/dialer/dialer.go:239-327 | filtering a stream in two calls gives the data, answers and final state of one call, from every state and at every split |
| TelnetFilters.ChunkingIndependence | internal/dialer/dialer.go:239-327 | the same for any number of TCP chunks |
| TelnetFilters.LocksExactlyAtHeader | internal/dialer/dialer.go:223-236 | the peer verdict locks if and only if ZPAD ZDLE and one of A, B, C have gone by in the noted data |
| TelnetFilters.VerdictFrozen | internal/dialer/dialer.go:156-162 | a locked verdict never changes again, whatever arrives |
| TelnetFilters.RawPeerTransparent | internal/dialer/dialer.go:215-221 | from connection on, once the peer is settled as raw all later bytes pass unchanged and nothing is answered |
| TelnetFilters.DoubledRoundTripExact | internal/dialer/dialer.go:245-256 | doubled data is turned back into the data if and only if no 255 comes after the point where the peer is settled as raw |
| TelnetFilters.DoubledRoundTrip | internal/dialer/dialer.go:150-155 | for a client-facing filter, or a peer that has negotiated, that is always so, before and after the lock |
| TelnetFilters.ExchangeEndsExactly | internal/dialer/dialer.go:354-376 | between two such filters an option exchange dies out if and only if it is not an offer of, or request for, suppress-go-ahead, which is repeated for ever |
| TelnetFilters.NegotiatorIsTelnet | internal/dialer/dialer.go:280-289 | a peer that sends any option command before its verdict is locked is a TELNET peer for good: its doubled data comes out as it was, a ZMODEM header among it or not |
| TelnetFilters.OptionsGranted | internal/dialer/dialer.go:354-376 | of DO, suppress-go-ahead, terminal type and window size are granted, of WILL, echo and suppress-go-ahead; all else is refused, and DONT and WONT are not answered |
| TelnetFilters.UndoubledPasses | internal/dialer/dialer.go:245-275 | data of a board that does not double its 255s passes whole, settled as raw or not, if each 255 is followed by an octet below 240 |
| TelnetFilters.PlainCommandSwallowed | internal/dialer/dialer.go:267-275 | a command without an option goes by unseen |
| TelnetFilters.SubnegotiationTaken | internal/dialer/dialer.go:264-323 | from any state between commands, a framed subnegotiation of up to 511 octets, 255s doubled, leaves nothing in the data but is collected as it was sent |
| TelnetFilters.OverlongGivenUp | internal/dialer/dialer.go:297-305 | a longer one is given up at its 513th octet, which is dropped with the rest, and what follows is data |
| TelnetFilters.BrokenSubnegotiation | internal/dialer/dialer.go:307-323 | one broken off by another command is neither answered nor taken for proof of TELNET |
| TelnetFilters.TerminalTypeAnswered | internal/dialer/dialer.go:329-352 | the terminal type is sent if and only if it is asked for, and no other subnegotiation is answered |
| Proxy.EscapeIac | web/server.js:36-47 | the counted and filled buffer is the RFC 854 doubling of the input; without 255s the input itself is handed back |
| Proxy.NawsInvisibleExactly | web/server.js:242-252 | a window-size frame goes through the gateway's filter unseen if and only if its size octets close it |
| Proxy.WideTerminalLeaks | web/server.js:246-252 | a terminal of 255 by 24 does not: the row count enters the data |
| Proxy.DeliveredExactly | web/server.js:241-254 | of what a client typed, uploaded and resized, all input is delivered if and only if no binary message of it looks like a resize |
| Proxy.MisreadLoses | web/server.js:242-253 | input that is misread is missing: fewer octets are passed on than were meant |
| Proxy.NulInputVanishes | web/server.js:242-244 | the binary message 0 1 2 3 4 is not delivered at all |
| Proxy.LayersCancel | web/server.js:241-254 | for any messages whose resizes close, proxy and client filter together yield exactly the data and no answer |
| Bytes.UndoubleDouble | web/server.js:33-47 | doubling loses nothing: taking pairs of 255s for one undoes it |
| SRegisterFile.SRegisters.Set | internal/modem/sregisters.go:79-97 | a register takes the value of its range nearest to the one asked for, and no other register changes |
| SRegisterFile.SRegisters.EscapeChar | internal/modem/sregisters.go:100-102 | the escape character is ASCII, so never a 255 |
| SRegisterFile.SRegisters.EscapeGuardTime | internal/modem/sregisters.go:135-138 | the guard time is between 0.4 and 5.1 seconds |
| EscapeDetection.DataLoop.OnRead | internal/server/session.go:742-823 | one read, through filter, detector and a single write, advances the session as the trace of its octets says |
| EscapeDetection.DataLoop.OnTimeout | internal/server/session.go:711-738 | a read timeout releases or consumes the withheld characters as the trace says: all of one or two once the guard time is over, none before |
| EscapeDetection.DataLoop.AppendRemote | internal/server/session.go:627-645 | a 255 is doubled toward a TELNET board and nothing else is |
| EscapeDetection.Conservation | internal/server/session.go:711-823 | forwarded octets and withheld characters are the received ones in order, less exactly the escape characters overwritten |
| EscapeDetection.ConservationExact | internal/server/session.go:790-802 | nothing is lost, duplicated or reordered if and only if the late-restart branch is never taken |
| EscapeDetection.TwoSlowPlusesLoseOne | internal/server/session.go:797-801 | with default settings, two plus signs 1.05 s apart are forwarded as one |
| EscapeExactness.EscapesExactly | internal/server/session.go:597-599 | a timeout ends data mode if and only if the data ends in a run of three or more escape characters, guard-time spaced, quiet of bulk chunks, with guard-time silence before and after |
| EscapeExactness.OnlyTimeoutsEscape | internal/server/session.go:711-719 | no octet and no chunk ends data mode by itself |
| EscapeExactness.TimeoutSettles | internal/server/session.go:711-738 | a timeout more than the guard time after the last octet lets the caller escape, if three or more are withheld, or else forwards all that is withheld |
| EscapeExactness.TimeoutWaits | internal/server/session.go:711-715 | an earlier one changes nothing |
| EscapeExactness.SettledExactly | internal/server/session.go:711-738 | after such a timeout that is no escape, everything received has been forwarded if and only if no restart came late |
| EscapeExactness.BulkReadPasses | internal/server/session.go:586-599 | a read of 64 octets of data or more passes to the last octet, whatever it holds |
| EscapeExactness.QuietAfterBulk | internal/server/session.go:766-771 | and so does every octet in the five seconds after it |
| EscapeExactness.ZeroStillEscapes | internal/server/session.go:766-802 | with escape character 0, three NULs and silence leave data mode |
| BytePath.DetectorSeesData | internal/server/session.go:742-752 | from any filter between commands, and however the connection is cut into reads, the detector is given the client's data and nothing else, and nothing is answered |
| BytePath.EndToEnd | internal/server/session.go:601-645 | the BBS reads exactly what was typed and uploaded, up to the characters withheld, if and only if nothing was misread as a resize and no restart came late |
| BytePath.Transparency | web/server.js:33-47 | data without the escape character reaches an undoubling, a filtering or a raw BBS whole and at once |
| BytePath.RunLoop | internal/server/session.go:694-823 | a data loop driven through any reads and timeouts ends, filter, detector and bytes written, as the trace of them says |
| BytePath.Relay | internal/server/session.go:694-823 | the same theorems about the bytes the loop has written: what was meant, if and only if nothing was misread and no restart late, with nothing withheld once a timeout comes late enough |
| HeaderSplitter.SplitAtHeaderBoundaries | web/public/js/zmodem-sentry.js:27-81 | the loop returns the slices and the tail of the scan |
| HeaderSplitter.SlicesTile | web/public/js/zmodem-sentry.js:22-26 | slices and tail together are the input: no octet is lost, added or moved |
| HeaderSplitter.FindsOnlyHeaders | web/public/js/zmodem-sentry.js:30-54 | whatever is found as a header starts with the signature and lies before the tail, with at least 20 octets there to judge it by |
| HeaderSplitter.HeaderWholeExactly | web/public/js/zmodem-sentry.js:39-54 | the slice found carries its CR LF if and only if they come behind the 14 digit places, then with the XON if it is there, and is a hex header if and only if those places hold digits too |
| HeaderSplitter.LettersTakenForHeader | web/public/js/zmodem-sentry.js:39-51 | of a header start and fifteen letters, the start and thirteen letters are cut out as a header, without CR or LF |
| HeaderSplitter.FindsAllHeaders | web/public/js/zmodem-sentry.js:31-65 | every signature before the tail is found, or lies inside a header that is |
| HeaderSplitter.HeaderIsOwnSlice | web/public/js/zmodem-sentry.js:56-63 | each header is a slice of its own, at its own place in the stream |
| HeaderSplitter.TailIsShort | web/public/js/zmodem-sentry.js:47-50 | what is held back is at most 19 octets, and a beginning of the header start or begins with it |
| HeaderSplitter.CarryTail | web/public/js/zmodem-sentry.js:1054-1066 | splitting tail and next chunk together goes on exactly where one call on the whole stream would |
| HeaderSplitter.CutGrows | web/public/js/zmodem-sentry.js:1054-1066 | one call more keeps all slices so far well cut: they carry the stream up to its tail, and those that begin as headers are exactly the headers one call on the whole stream would find, each alone but for a late XON |
| HeaderSplitter.Bridge.Consume | web/public/js/zmodem-sentry.js:1048-1067 | chunking independence, of the slices returned: after any chunks all of them together are so cut, and the held-back tail is that of one call |
| HeaderSplitter.HeaderAmongSlices | web/public/js/zmodem-sentry.js:22-26 | each header of the stream is a slice at its offset, whole or without its trailing XON |
| HeaderSplitter.OnlyHeadersAmongSlices | web/public/js/zmodem-sentry.js:56-63 | no other slice begins as a header does |
| WindowedSend.WindowedSender.SendInterimFilePiece | web/public/js/zmodem-sentry.js:279-340 | a slice goes out in the one way the window allows, whole, or up to and including the first ZCRCW that is not answered by ZACK |
| WindowedSend.PackingUnique | web/public/js/zmodem-sentry.js:287-316 | there is one way only: any two such beginnings of a slice agree |
| WindowedSend.WindowNeverExceeded | web/public/js/zmodem-sentry.js:287-316 | at no point of a paced transfer are more octets unacknowledged than the window holds |
| WindowedSend.SliceFills | web/public/js/zmodem-sentry.js:287-316 | however a file is sliced, each slice, or a beginning of it, goes on filling the windows where the last one stopped |
| WindowedSend.SliceWhole | web/public/js/zmodem-sentry.js:287-298 | no subpacket goes over the end of a slice, and each ends the window, the slice or the file |
| WindowedSend.PackCarries | web/public/js/zmodem-sentry.js:287-316 | the subpackets of a slice carry it in order |
| WindowedSend.FillsIsPaced | web/public/js/zmodem-sentry.js:312-316 | filling window after window, ZCRCW comes exactly at multiples of the window and at the end of the file |
| WindowedSend.WaitsExactly | web/public/js/zmodem-sentry.js:312-339 | the number of waits for a paced file is ceil(size / window) |
| WindowedSend.WindowedSender.SendFile | web/public/js/zmodem-sentry.js:967-1007 | however the data phase ends, a paced beginning of the file has gone out in subpackets as long as window, slice and file allow; the whole file with ceil(size / window) acknowledgements unless one of them fails to come; confirmed, incomplete, rejected or never acknowledged exactly as the ZACKs and the last offset among them say |
| ResendLoop.ChooseBlockSize | web/public/js/zmodem-sentry.js:156-159 | subpackets are 1 KiB or 8 KiB, the latter only when configured |
| ResendLoop.Upload.TakeRewind | web/public/js/zmodem-sentry.js:899-946 | a rewind is refused exactly when it is the fourth, or the second and both go back to the start; where sender and library resume otherwise |
| ResendLoop.Upload.Run | web/public/js/zmodem-sentry.js:967-1028 | whatever is lost and asked for: the loop ends, every subpacket is the file at its announced offset, and a full one unless it ends the file, at most 4 (or 2) times the file is sent, 1 KiB at most after a rewind; done means delivered, failed means given up by the receiver, rewound once too often, unanswered or not through; so an upload repaired within the budget is done, and so is an undisturbed one, having sent the file once |
| ResendLoop.TrackZeof | web/public/js/zmodem-sentry.js:920-946 | a pass that sets out from where the receiver is and comes through intact completes the file, whatever went before |
| ResendLoop.BudgetMeans | web/public/js/zmodem-sentry.js:905-913 | the budget in terms of the offsets asked for: four rewinds are too many, and so are two that both go back to the start |
| ResendLoop.HoldsPrefix | web/public/js/zmodem-sentry.js:836-856 | from a truthful sender, through any losses, the receiver holds a prefix, and the whole file when complete |
| ResendLoop.ResumedPassDelivers | web/public/js/zmodem-sentry.js:850-853 | resuming at the receiver's offset repairs any earlier loss: one intact pass completes the file |
| ReceiveSessions.ReceiveSide.Feed | web/public/js/zmodem-sentry.js:573-585 | a ZRQINIT is dropped, opens a session, or replaces one, by session and offer alone |
| ReceiveSessions.OpensExactly | web/public/js/zmodem-sentry.js:573-585 | over any events, sessions open exactly at the ZRQINITs that are not repeated ones |
| ReceiveSessions.OneSessionPerFile | web/public/js/zmodem-sentry.js:656-678 | in every batch, with or without ZFIN between files, exactly one session opens per file |
| RateLimiting.RateLimiter.Allow | internal/server/ratelimit.go:114-173 | the decision on a request exactly, what is written down, that at most one other address is evicted and only for room, and that every bound is kept, the 10000 tracked addresses included |
| RateLimiting.RateLimiter.EvictOldest | internal/server/ratelimit.go:177-196 | the entry given up is an empty one or one with the oldest last attempt |
| RateLimiting.RateLimiter.CleanAttempts | internal/server/ratelimit.go:198-217 | exactly the leading attempts out of the window are dropped |
| RateLimiting.RateLimiter.Cleanup | internal/server/ratelimit.go:231-257 | one tick drops exactly the expired blocks and old attempts, and keeps every bound |
| RateLimiting.RateLimiter.SetLimits | internal/server/ratelimit.go:91-102 | new limits forgive nobody: attempts, blocks and counts stay |
| RateLimiting.RateLimiter.AddressBound | internal/server/ratelimit.go:154-173 | an untrusted, never evicted address has at most maxAttempts requests allowed in any window, if blocks last as long as the window |
| RateLimiting.ShortBlockForgets | internal/server/ratelimit.go:161-168 | for every block shorter than the window and every limit below 1000, limit + 1 requests of one address get through one window |
| RateLimiting.RateLimiter.GlobalBound | internal/server/ratelimit.go:124-140 | no interval as long as the window holds more than 2000 allowed requests, trusted ones included |
| RateLimiting.SpacedBounds | internal/server/ratelimit.go:161-171 | spacing of a sorted history bounds the count in every interval |
| ConnectionTracking.ConnectionTracker.Add | internal/server/ratelimit.go:301-318 | admission exactly below both ceilings, total the sum of the counts, and never rising past the limit in force |
| ConnectionTracking.ConnectionTracker.Remove | internal/server/ratelimit.go:321-332 | takes back one connection, keeps no zero entry, and touches no other address |
| ConnectionTracking.TotalUpdate | internal/server/ratelimit.go:315-328 | changing one count changes the sum by the difference |
| AtCommands.ParseCommandLine | internal/modem/commands.go:214-329 | the scanning loops compute the line's commands, always advancing; a bare AT is the attention command, and a line without AT is unknown |
| AtRoundTrip.BareAttention | internal/modem/commands.go:222-224 | a bare AT, in any letter case and with any white space around it, is the attention command alone |
| AtRoundTrip.NoAttention | internal/modem/commands.go:218-220 | a line without AT in front is one unknown command |
| AtRoundTrip.JunkReported | internal/modem/commands.go:233-329 | orders followed by something no command begins with: the orders are obeyed, one unknown command is reported, and the rest is not looked at |
| AtRoundTrip.RoundTrip | internal/modem/commands.go:209-329 | printed orders, with any spaces, letter case and white space around, parse back to the same types, registers, values and number |
| AtRoundTrip.PrintClassified | internal/modem/commands.go:63-207 | a single printed order parses to what it means |
| AtRoundTrip.LineNotSingle | internal/modem/commands.go:226-230 | the single-command attempt never swallows a line of several |
| AtRoundTrip.UnderstoodLinesAreOrders | internal/modem/commands.go:63-329 | the converse: whatever is understood throughout is spellings of valid orders and spaces, nothing else, with a dial only at its end, and means those orders |
| AtRoundTrip.CaseNeverMatters | internal/modem/commands.go:215-216 | lines that differ in letter case alone give the same commands, for every input |
| DialTranscript.Session.HandleDial | internal/server/dial.go:51-198 | each outcome's exact condition and transcript; success, data mode, stored remote and a last CONNECT coincide |
| DialTranscript.Session.GatedConnect | internal/server/dial.go:206-244 | after CONNECT only NO CARRIER can follow, and a rejected password stores no connection |
| DialTranscript.Session.PlainConnect | internal/server/dial.go:109-198 | BUSY exactly for a refusal before any ring, a timeout exactly when no result comes in time; 1 to 4 rings otherwise |
| DialTranscript.TranscriptTells | internal/server/dial.go:135-151 | from the codes alone: BUSY never comes with RING, and success is a last CONNECT |
| ConfigWatching.Watcher.OnePoll | internal/config/watch.go:88-121 | one poll applies, reports or ignores what it read, as the two readings say |
| ConfigWatching.SettledExactly | internal/config/watch.go:99-119 | a poll leaves the last considered content applied if valid, unless and only unless it is torn |
| ConfigWatching.SteadyPollConverges | internal/config/watch.go:109-120 | after a steady poll of a valid content, that content runs |
| ConfigWatching.TornPollSticks | internal/config/watch.go:107-113 | a torn poll is not mended by the next |
| ConfigWatching.RunConverges | internal/config/watch.go:33-39 | over any steady run, what runs is the valid content found last, and the reports are each broken content and each read error once while it stays, in order |

## Left out

- Sockets, goroutines, locks, deadlines, TLS, logging and metrics: arrivals, timeouts, clock readings and write success are events or parameters.
- `auto` TELNET mode in the data loop: whether 255s are doubled is fixed over a run, as in modes yes and no.
- ATO and the mode changes around the data loop: the model starts at its entry and ends at an escape or a failed write; a BBS that hangs up, ending the loop from the other goroutine, is left out.
- readFilteredByte and command-mode line reading.
- The 100 ms flush of a held-back header tail, the trace lines, ZRINIT rewriting and the CAN detection of `feed`.
- zmodem.js: its send session is modelled by its contract (a ZDATA with the current offset when one is due, the subpacket, the offset advanced), its Sentry by detection on a ZRQINIT slice. A ZRQINIT during a send session is not modelled.
- WindowedSend.WindowedSender.SendFile: stated for the first file of a session, because the acknowledgement counters are not reset between files (`web/public/js/zmodem-sentry.js:274-275`).
- ResendLoop.Upload.Run: a ZRINIT that answers the ZEOF is taken to come only from a receiver that is complete; rewind targets are arbitrary.
- RateLimiting.RateLimiter.Allow: the address string is taken to be non-empty, since an entry under the empty string is never evicted and the size of the map is then unbounded; CIDR matching of trusted networks is a set of addresses.
- RateLimiting.ShortBlockForgets: for limits from 1000 on, where the global limit interferes, nothing is said about shorter blocks.
- RateLimiting.RateLimiter.AddressBound: counts from the last change of limits, and not for addresses whose attempts were evicted.
- AtRoundTrip.RoundTrip: input is ASCII; Go's case mapping of other characters can change the length of a line. Numbers are printed in their shortest form.
- DialTranscript.Session.HandleDial: client writes succeed, and the password prompt is its verdict; the settings check, the result of the call and when it comes in are parameters.
- ConfigWatching.Watcher.OnePoll: the digest is injective, so contents stand for digests; parsing and validation are a parameter.
- X-Real-IP handling and per-IP counting in `web/server.js`, number normalisation, banners, probes, CP437 and all user interface code: easy or outside the data path.

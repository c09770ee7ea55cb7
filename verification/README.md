# Verification of the BrowserStream signalling server and its tools

This project models BrowserStream, a server that lets a presenter share a screen with a
room's display over WebRTC, and proves what its signalling protocol and its helper
programs keep. The parts, one Dafny module a file:

- **Rooms, RoomObjects** - `core/room.go`. `Rooms` is the room store as a value, with one
  function for each locked method. `RoomObjects` has the classes `Room` and `RoomStore`,
  whose methods update fields as the Go code does and are proved to compute those functions.
- **Signalling** - `handleDisplay` and `handlePresenter` of `core/signal.go` as a state
  machine: one program counter for each connection, every locked method, write and close
  an atomic step, any number of connections and rooms, steps interleaved in every order,
  reads and checks that may fail at any time, connections that may be lost at any time.
  A deleted `Room` object stays in the model, so that old handlers keep using it while a
  new object has its ID.
- **SlotInvariant, RoomActions, SignallingTheorems, Exits, Evictions** - the inductive
  invariant of that machine, what follows from it for every run, that lost handlers return,
  and that exactly those whose slot was taken are closed by others.
- **Gates, Refusals, Conversations, Asides, Writes** - what a handler has passed before it
  takes a slot, why one is refused, and the order of everything that a handler says to its
  own connection and to its display.
- **Reservations, Sessions, Relay, Received, Upward** - reservations, late cleanup,
  verification codes, sessions, and messages relayed both ways over whole runs, up to the
  logs of the display and the presenter that receive them.
- **Screens, Agreement, AgreementLimits, ReplacedDisplay** - what the display's browser
  shows against what the server would accept.
- **DisplayPage** - the display page of `files/static/main.js`: its message listener and
  its ICE candidate queue, with both await points.
- **Lockout** - the lazily pruned table of failed codes and an unpruned reference table.
- **Addresses, ClientHost, LanIp** - prefix arithmetic (section 3.1 of RFC 4632), client
  attribution behind trusted proxies, and the choice of the LAN address.
- **Config, Numbering, AddRooms, ReplaceFile** - the room rules of `core/config.go`, and
  `scripts/configure.py`: prompts, room adding, and replacing or creating the configuration
  file over a directory of names, inodes and hard links in which every call can fail.
- **Enrollment** - the URL printed by `scripts/kiosk_url.py` (section 2.1 of RFC 3986)
  against its parser in `files/static/main.js`, and the auth message the page then sends
  (section 7 of RFC 8259).
- **DotEnv** - the `.env` reader and rewriter embedded in `install.sh`.
- **Text, Wrappers** - splitting, joining, trimming, decimal numerals, UTF-8; optional values.

`dafny verify dfyconfig.toml` checks everything.

## Four promises that hold only under a condition

- **The display shows the code the server would accept.** This is proved for runs in which
  codes are fresh and every accepted code had been written to the room's *current* display,
  unless that display's handler failed before it could send any code and is about to give
  the room up (`DisplayAgreesWithServer`). It is not enough that some screen of the room
  showed the code: a display that has just been replaced can still read the new display's
  code (`core/signal.go:217`) before its connection is closed. `ReplacedDisplayMisleads` is
  such a run, and `GrantIsSafeIffShown` shows that the condition is exact for every grant
  beside an open display.
- **A forwarded list is immune to text a client puts in front of it.** Exactly unless the
  peer is a trusted proxy, the list itself names no valid address of a client, and the text
  does (`PrependedTextIsIgnoredIff`); `EmptyListIsSpoofable` is an instance.
- **The enrollment URL lets a display in.** `validate_public_url` rejects a public URL with a
  query or a fragment, but lets through the bare mark of an empty one. With a stray `?` or
  `#` the room is lost, with a stray `#` the token too; otherwise both come back
  (`RoomRoundTripIff`, `TokenRoundTripIff`). The server trims the token it is sent but not
  the configured one, and drops a message over its read limit, while it accepts configured
  tokens of any length. So the printed URL leads to an accepted message exactly if it
  carries no stray mark, the token has no white space around it, and the message fits the
  limit (`EnrollmentWorksIff`). Generated tokens always fit (`UrlSafeTokenFits`);
  `LongTokenNeverFits` is a configured token that does not.
- **Queued candidates are flushed.** A queue that could be flushed is always being flushed
  exactly if `addIceCandidate` never rejects the last flush that waits (`NoneStrandedIff`).

## Model

| member | source | states |
|---|---|---|
| RoomObjects.Room.PresenterConnections | core/room.go:71-85 | the presenter and the session callers, each once |
| RoomObjects.Room.AuthorizePresenter | core/room.go:93-102 | grants exactly with a display, a free slot and the right code; then takes the slot, consumes the code and answers display, generation and new code; otherwise changes nothing |
| RoomObjects.Room.StartSession | core/room.go:103-113 | opens one session of the presenter and the present display exactly if display, generation, presenter and absence of a session allow it |
| RoomObjects.Room.ReleasePresenter | core/room.go:114-129 | only the present presenter's call changes anything: it ends that presenter's session and frees the slot |
| RoomObjects.RoomStore.Get | core/room.go:31 | finds exactly the live rooms, each of which has a display |
| RoomObjects.RoomStore.SetDisplay | core/room.go:32-50 | keeps the store valid, makes a room when there is none, and reports the replaced display and the stale presenters |
| RoomObjects.RoomStore.RemoveDisplay | core/room.go:51-70 | acts only for the live room's own display; then empties and deletes the room |
| RoomObjects.AuthorizeHeld | core/signal.go:329 | called through a pointer to any Room object ever created, live or deleted, AuthorizePresenter keeps the store valid and changes only that object's entry |
| RoomObjects.StartHeld | core/signal.go:362 | so does StartSession |
| RoomObjects.ReleaseHeld | core/signal.go:342 | so does ReleasePresenter |
| Rooms.SetDisplayKeepsStore | core/room.go:32-50 | a store in which rooms are indexed exactly while they have a display stays one |
| Rooms.RemoveDisplayKeepsStore | core/room.go:51-70 | the same for removal, which leaves a Room object empty |
| Rooms.AuthorizeKeepsCoherent | core/room.go:93-102 | a grant keeps: presenter implies display, at most one session, which joins the two |
| Rooms.StartKeepsCoherent | core/room.go:103-113 | so does opening a session |
| RoomActions.StepPerforms | core/signal.go:183-392 | a handler's step changes the store only by the one room.go call its program counter names |
| RoomActions.HitsMoveGeneration | core/room.go:46-67 | the generation of a Room object counts exactly the SetDisplay and acting RemoveDisplay calls on it, and its display changes by no others |
| SlotInvariant.RemovesIffHeld | core/room.go:51-62 | RemoveDisplay, though it looks up by ID, acts exactly when the handler's own Room object still has this display |
| SlotInvariant.StepKeepsInv | core/signal.go:164-392 | the invariant linking the store with all program counters is kept by every step of every interleaving |
| SlotInvariant.RunKeepsInv | core/signal.go:164-392 | it holds in every state of every run |
| SignallingTheorems.RoomsAreConsistent | core/room.go:32-129 | in every reachable state every Room object is in the store exactly while it has a display, a presenter implies a display, and there is at most one session, joining presenter and display |
| SignallingTheorems.DeletedRoomsStayEmpty | core/room.go:51-70 | a deleted Room object is never changed again, whatever old handlers call on it |
| SignallingTheorems.SlotsBelongToRunningHandlers | core/signal.go:201-212 | a connection holds a slot only while its own handler is between taking and giving it up |
| SignallingTheorems.QuiescentIsEmpty | core/signal.go:208-346 | when all handlers have returned the store is empty and no slot is taken |
| SignallingTheorems.PreAuthIsExact | core/signal.go:164-181 | the semaphore counts exactly the handlers inside initialAuth and never exceeds 128 |
| SignallingTheorems.LostHandlersExit | core/signal.go:193-391 | every failing step of a handler whose connection is lost brings its return nearer, within a fixed number of its own steps plus one for each connection it still has to close |
| Exits.LostHandlersReturn | core/signal.go:193-391 | from any point of any run a handler whose connection is lost takes at most 12 more failing steps of its own, plus one for each connection it still has to close, and after exactly the number given by StepsToExit it has returned |
| SignallingTheorems.SpentForever | core/signal.go:201-346 | a connection that has lost its slot never holds one again |
| Evictions.DisplacedAreClosed | core/signal.go:201-212 | whoever loses a display or presenter slot to a step of another handler is no longer open once that handler has come to iceConfig after SetDisplay, or to closing its own connection after RemoveDisplay, and stays closed |
| Evictions.EvictionIsSafe | core/signal.go:202-212 | whoever is closed by another handler lost its slot to an earlier step of that handler, and holds no slot then or later |
| Evictions.WhatClosesConnections | core/signal.go:193-212 | a step closes an open connection exactly if the network loses it, its own handler ends, or a display change has it next on its list |
| Gates.GrantsPassEveryGate | core/signal.go:316-329 | whoever is granted the slot was found not locked out, then admitted with fewer than 128 others in initialAuth, and then sent the very code the room had at the grant |
| Gates.RegistrationsPassEveryGate | core/signal.go:194-201 | whoever registers as a display was admitted and then sent an accepted token |
| Refusals.BusyIffFull | core/signal.go:165-170 | serverBusy is said exactly if 128 handlers are inside initialAuth; otherwise the connection gets in |
| Refusals.LookupFindsIff | core/signal.go:324-328 | displayNotFound is said at the lookup exactly if no Room object of the room has a display, and otherwise the handler goes on with the one that has |
| Refusals.CheckFindsIff | core/signal.go:325-328 | so it is at the second question, about that Room object |
| Refusals.DenialIsExplained | core/signal.go:329-339 | a refused presenter is told presenterBusy exactly if another holds the slot at that moment, and otherwise what the lockout table answered; if the room did not change since, its code was then wrong or the display gone |
| Conversations.ConversationsFollowScript | core/signal.go:164-392 | what a handler says to its own connection follows the script of its kind: a refusal ends it, iceConfig comes before authAccepted and newSession or displayReady, and after those there is one complaint, of the right type, for every message read and not relayed, in order |
| Asides.AsidesFollowScript | core/signal.go:341-391 | what a presenter's handler writes to its display is refreshCode, then newSession, then exactly what it relays, then presenterClosed, as long as the display is there |
| Asides.RefreshTellsNewCode | core/signal.go:329-349 | the first thing after a grant is refreshCode to the room's display, with the code drawn for the room in that grant |
| Asides.FarewellTellsCode | core/signal.go:341-346 | the first thing after a release is presenterClosed to the room's display, with the ID of the session that ended and the code the room then had |
| SignallingTheorems.LateCleanupIsHarmless | core/room.go:60-62 | the deferred cleanup of a handler that lost its slot changes no room, closes nobody and notifies nobody |
| Reservations.GenerationCountsHits | core/room.go:46-67 | over a run, equal generations of a Room object mean that no display was set on or removed from it, and then its display is the same |
| Reservations.ReservationFidelity | core/signal.go:329-368 | StartSession succeeds exactly if no SetDisplay or acting RemoveDisplay hit the Room object since the grant, and then joins the presenter to the very display kept from authorization |
| Reservations.CleanupActsIffNotReplaced | core/signal.go:208-212 | a display's late RemoveDisplay acts exactly if no other display was set on its Room object since |
| Reservations.CodesAreConsumedOnce | core/room.go:93-101 | every grant consumes the latest code issued for its room, and no issue is consumed twice |
| Reservations.FreshCodesAuthorizeOnce | core/room.go:93-101 | if no code is drawn twice, a code authorizes at most once in a whole run |
| Reservations.IssuesAreCounted | core/room.go:47-100 | issues are grants plus registrations, so grants never outnumber issues |
| Relay.RelayIsOrderedFilter | core/signal.go:375-391 | a presenter's loop has relayed exactly what it accepted of what it read, in order, all to the display it was authorized with |
| Relay.RelayedIsPrefixOfAccepted | core/signal.go:375-391 | at any time the relayed messages are a prefix of the accepted messages of one session, short by at most one |
| Received.ReceivedIsRelayed | core/signal.go:388 | the candidates and offers in a display's log are exactly what presenters' loops relayed to it, in order |
| Received.RelayedArrivesInOrder | core/signal.go:375-391 | everything a presenter relays arrives, in order, in the log of the display it was authorized with |
| Received.SessionArrivesInOrder | core/signal.go:375-391 | under a session ID that no other presenter's messages carry, the display's log holds exactly what that presenter's loop relayed, in order |
| Relay.NothingAfterRelease | core/signal.go:341-391 | nothing is read or relayed once the handler is on its way to release |
| Relay.RelayUpTargetsPresenter | core/signal.go:229-236 | a display's message goes to the connection that is presenter of the same Room object at the lookup |
| Upward.UpwardArrivesInOrder | core/signal.go:220-237 | the answers and callee candidates in a presenter's log are exactly what displays' loops wrote to it; while it is open each loop has written everything it read under a live session of this presenter, in order, but for the message in hand, and after that a front part |
| Upward.LoopTakesUp | core/signal.go:222-234 | a display's loop takes up a message exactly if its type is one of the two and its session is live, addresses it to that session's caller, and otherwise goes on reading |
| Sessions.AnnouncedSessionIsLive | core/signal.go:362-391 | as long as a presenter past StartSession has its slot, the session ID it goes on with is the room's only session, and joins it to the display it was authorized with |
| Sessions.AnswersGoToTheToldSession | core/signal.go:229-234 | while a presenter has the slot, a display's loop takes up for it exactly the answers and callee candidates under the session ID it was told |
| Sessions.ReleaseNotifiesDisplay | core/room.go:114-129 | giving back a held slot ends the session, and the handler then owes the room's display that session's ID and the present code; without the slot it owes nothing |
| Sessions.HandlersUseTheirRoom | core/signal.go:184-329 | the Room object a handler uses is always one of the room it was asked for |
| Sessions.RunKeepsKinds | core/signal.go:201-349 | the other connection that a handler is to write to is always connected and of the other kind |
| Screens.StepWrites | core/signal.go:193-391 | a step changes a log by at most one marked write, a text for the code field or a relayed message, and otherwise by messages that are neither |
| Screens.StepLogs | core/signal.go:201-391 | the server's steps change what a display shows only by five writes, and relayed messages never do |
| Agreement.StepKeepsAgreement | core/signal.go:201-349 | the invariant relating screens, owed messages and room state is kept by every trusted step |
| Agreement.DisplayAgreesWithServer | core/signal.go:201-349 | a drained display with no handler between a state change and its write shows the code to enter while the slot is free and ------ while it is taken, across grants, releases and replacements |
| AgreementLimits.UnshownGrantMisleads | core/signal.go:329-349 | after a grant on a code never written to the current display which is not leaving unserved, some continuation ends with a settled display that shows a code while the slot is taken |
| AgreementLimits.GrantIsSafeIffShown | core/signal.go:329-349 | a grant beside an open display keeps all screens in agreement in every trusted continuation exactly if the accepted code had been written to that display, or the display leaves without ever having been sent one |
| ReplacedDisplay.ReplacedDisplayMisleads | core/signal.go:201-217 | a run from the start, with fresh codes, in which a code seen on a replaced display leads to disagreement |
| DisplayPage.BrowserPage.OnMessage | files/static/main.js:116 | the whole new page state for every message |
| DisplayPage.BrowserPage.AddRemoteCandidate | files/static/main.js:16 | applies a candidate when the remote description is set and queues it otherwise |
| DisplayPage.BrowserPage.FlushRemoteCandidates | files/static/main.js:17 | applies the front of the queue, up to the next await |
| DisplayPage.BrowserPage.ClearPeer | files/static/main.js:25 | empties the queue and gives up the connection |
| DisplayPage.CodeFieldFollowsMessages | files/static/main.js:109-116 | the code field is a function of the messages taken, whatever else runs in between |
| DisplayPage.ConnectionFollowsEvents | files/static/main.js:116-121 | which connection the page has follows from the events: the one of the last newSession, unless presenterClosed or the end of the video came after it |
| DisplayPage.OffersAreHandedOnOnce | files/static/main.js:123 | every offer that finds a connection is handed to it once: it waits for its remote description, was set, or was refused, and each one set goes on to the flush once |
| DisplayPage.CandidatesAreConserved | files/static/main.js:16-25 | in every reachable state each candidate taken since the last clearPeer is applied once to the current connection or still waiting, counted with repetition, and no connection was given more than its session took |
| DisplayPage.PastSessionsAreClosed | files/static/main.js:25 | a connection given up by clearPeer is never handed another candidate |
| DisplayPage.NoneStrandedIff | files/static/main.js:17-123 | a queue that could be flushed is always being flushed exactly if addIceCandidate never rejects the last flush that waits |
| DisplayPage.FlushTerminates | files/static/main.js:17 | once the remote description is set the queue only loses its front, one candidate for each pass, however many arrive; when no flush is under way it is empty |
| Lockout.AuthTable.IsLocked | core/signal.go:271-276 | the method answers the table function Locked |
| Lockout.AuthTable.AuthFailed | core/signal.go:277-301 | the method with its pruning loop makes the table and the answer of Fail |
| Lockout.AuthTable.AuthSucceeded | core/signal.go:302 | the method removes the entry |
| Lockout.ReachableTablesOk | core/signal.go:277-301 | in every reachable table a lock equals updatedAt + lockout and comes with enough failures |
| Lockout.PruningDropsNoLiveLock | core/signal.go:282-289 | pruning changes no answer of locked |
| Lockout.EntriesAreYoung | core/signal.go:282-299 | after any failure every entry is younger than three lockouts |
| Lockout.TableIsBounded | core/signal.go:282-299 | the table has at most as many entries as there were failures in the last three lockouts |
| Lockout.LockedExactly | core/signal.go:271-302 | a key is locked exactly if its last event was a failure answered with the lockout, less than one lockout ago |
| Lockout.AnswerIsLocked | core/signal.go:300 | authFailed answers what locked says at that instant |
| Lockout.PruningIsInvisible | core/signal.go:271-302 | while a key's own failures are less than two lockouts apart, locked and authFailed answer as the unpruned reference, whatever other keys do |
| Lockout.FailureLocksIff | core/signal.go:290-300 | after any history, a key with steady failures has been spared fewer than MaxFailedAuth times since its last success or lockout, and one more failure locks exactly if the key is locked or was spared one time less than that |
| Lockout.MaxFailuresLock | core/signal.go:294-302 | of a key's steady failures since its last success the one numbered MaxFailedAuth locks, and none before it |
| Lockout.GapBoundIsTight | core/signal.go:282-289 | for every limit above one and every gap of two lockouts or more there is a history in which pruning shows |
| ClientHost.IsTrustedProxy | core/signal.go:247-254 | true exactly if some trusted network contains the address |
| ClientHost.ClientHostOf | core/signal.go:255-269 | the downward loop computes the declared attribution |
| ClientHost.LastCandidate | core/signal.go:260-266 | the entry chosen is a valid untrusted address, and no later entry is |
| ClientHost.UntrustedHeaderIsIgnored | core/signal.go:257-259 | an untrusted peer's header is never consulted |
| ClientHost.ForwardedClientIsAttributed | core/signal.go:260-267 | behind a trusted proxy a request comes from an address of the list, white space around it or not, that is no proxy's and after which nothing stands for a client |
| ClientHost.NobodyForwardedLeavesPeer | core/signal.go:260-268 | a list of which nothing stands for a client leaves the peer |
| ClientHost.PrependedTextIsIgnoredIff | core/signal.go:255-269 | text put in front of a forwarded list changes nothing exactly unless the peer is trusted, the list names no client and the text does |
| ClientHost.PrependedTextIsIgnored | core/signal.go:260-268 | text in front of a list that names a client changes nothing, whatever the functions that parse and print addresses |
| ClientHost.PrependedTextDecides | core/signal.go:260-268 | behind a trusted proxy a list that names no client is decided by the text in front of it |
| ClientHost.EmptyListIsSpoofable | core/signal.go:260-268 | an instance: an empty list behind a trusted proxy |
| ClientHost.AuthKeysAreDistinct | core/signal.go:270 | keys of different configured rooms or hosts differ |
| Addresses.NetworkIsRange | scripts/detect_lan_ip.py:62 | an address shares the leading bits of a network exactly if it lies in its range |
| Addresses.NetworkSplits | core/signal.go:247-254 | one more bit of prefix splits a network into two disjoint halves, and a full prefix leaves one address |
| LanIp.SelectDefaultGatewayIp | scripts/detect_lan_ip.py:41-72 | fails exactly if no route offers an address; otherwise answers, for the default route that comes first by metric and then position among those that do, its preferred source if that is one of the addresses offered, or else the first of them |
| LanIp.Preferred | scripts/detect_lan_ip.py:65-70 | the preferred source if it is a candidate, otherwise the first candidate, if there is any |
| LanIp.CandidatesAreShared | scripts/detect_lan_ip.py:53-63 | the candidates are exactly the global IPv4 addresses of the device whose range of addresses holds the gateway, the first one in front |
| LanIp.ChoiceIsBest | scripts/detect_lan_ip.py:34-45 | the first route of the stable order that offers an address comes before all others that do: a lower metric wins, a missing or unreadable one counts as 0, equal ones go by position |
| LanIp.SelectionIsOptimal | scripts/detect_lan_ip.py:41-72 | the declared selection fails exactly if no route offers an address, and otherwise answers for the best route, in terms of the fields of routes and addresses alone |
| Config.ValidateRooms | core/config.go:115-138 | accepts exactly 1-100 rooms with valid distinct IDs, valid labels and valid distinct tokens, and otherwise names the first room that fails and its first failing check |
| Config.FindRoom | core/config.go:215-222 | finds the first room with the ID, the only one in an accepted configuration, and fails exactly if there is none |
| AddRooms.Ask | scripts/configure.py:20-30 | the lines read before the answer were all rejected; the answer is the validator's value on the next line without the white space around it, or on the default if that line is blank or the input ends |
| AddRooms.AskedIsValid | scripts/configure.py:20-30 | the answer was accepted by the validator; an exception comes only at the end of input, and only if the default is not acceptable |
| AddRooms.AskYesNo | scripts/configure.py:33-48 | the lines read before the answer say neither yes nor no and are not blank; y and yes in any case choose true, n and no false, a blank line and the end of input the default |
| AddRooms.RoomLabelIsValid | scripts/configure.py:51-55 | a label the script accepts is accepted by the server |
| AddRooms.ValidateExistingRooms | scripts/configure.py:146-172 | accepts exactly 1-99 rooms that pass the script's checks with distinct IDs and tokens, and returns all of these |
| AddRooms.NextRoomNumber | scripts/configure.py:175-179 | the least unused number from start on, at most start plus the number of identifiers |
| AddRooms.AddRooms | scripts/configure.py:242-272 | the loop over prompts, growing lists and token draws computes Added |
| AddRooms.TypedRoomIsAdded | scripts/configure.py:248-272 | the room added has the first new valid ID typed and the first label typed after it, a blank line standing for the default, and the first draw that is no token yet; yes adds another room, no ends, and the hundredth room ends without asking |
| AddRooms.AddingNeverRaises | scripts/configure.py:248-272 | no prompt of the loop ends in an exception |
| AddRooms.AddingKeepsRooms | scripts/configure.py:248-272 | the list written has the old rooms in front, at least one more and at most 100, and is well formed for the server exactly if the old list was |
| AddRooms.ClosedStdinAddsOneRoom | scripts/configure.py:248-272 | closed standard input adds exactly one default room, under the least unused number and with the first draw that is not a token yet |
| ReplaceFile.FindBackup | scripts/configure.py:185-190 | the suffix search ends, with the first unused backup name |
| ReplaceFile.TryReplace | scripts/configure.py:199-226 | every state passed through is safe, and one exception leaves exactly the names its kind and moment call for |
| ReplaceFile.ReplaceWithBackup | scripts/configure.py:182-227 | stopping at any call leaves the complete old or new file and the old text at the destination or a backup; success leaves both; one Exception before the replacement leaves the directory as it was, one interrupt leaves the backup if it was linked |
| ReplaceFile.WriteAtomic | scripts/configure.py:121-143 | never replaces a file; whenever it stops the destination is absent or complete |
| Enrollment.QuoteRoundTrip | scripts/kiosk_url.py:116-118 | both decoders undo percent-encoding for every byte string |
| Enrollment.RoomRoundTripIff | files/static/main.js:125 | the room ID comes back through the path exactly if the public URL carries no stray mark |
| Enrollment.TokenRoundTripIff | files/static/main.js:105-107 | every token comes back through the fragment exactly if the public URL carries no stray # |
| Enrollment.JsonRoundTrip | core/signal.go:127-135 | decoding a JSON string gives back the text that the page encoded in it |
| Enrollment.EnrollmentWorksIff | core/signal.go:114-198 | opening the printed URL leads to the page of that room and an auth message the server accepts exactly if the public URL carries no stray mark, the configured token has no white space around it, and the message fits the read limit |
| Enrollment.FitsIff | core/signal.go:119 | the auth message fits exactly if the token's bytes, one or five more for each character JSON escapes, and 41 more are within the limit |
| Enrollment.UrlSafeTokenFits | core/config.go:200 | a token of letters, digits, hyphens and underscores fits exactly if it leaves 41 bytes of the limit, so generated tokens fit every accepted limit |
| Enrollment.LongTokenNeverFits | core/config.go:131 | an accepted token with which no display is ever accepted under the smallest limit |
| Enrollment.UrlsAreDistinct | scripts/kiosk_url.py:116-119 | different rooms or tokens have different URLs |
| DotEnv.EnvFile.PersistedValue | install.sh:13-39 | reads the last matching line, and refuses unsupported characters |
| DotEnv.EnvFile.Rewrite | install.sh:148-195 | rewrites the file, or changes nothing if a value is not supported |
| DotEnv.LinesOfText | install.sh:169-182 | joining lines and reading them back in text mode is the identity |
| DotEnv.LinesOfLaid | install.sh:29-30 | a loop over a text with any mixture of the three line endings, with or without a final one, sees exactly its lines |
| DotEnv.EveryTextIsLaid | install.sh:29-30 | every text is such a text |
| DotEnv.ReadsLastAssignment | install.sh:29-37 | reads the value of the last line of such a text that assigns the key, white space around the key or not; nothing is read if no line does |
| DotEnv.ReadsWhatWasWritten | install.sh:29-37 | after a rewrite every managed key reads as the value written |
| DotEnv.OtherKeysAreKept | install.sh:29-37 | every other key reads as before |
| DotEnv.UnmanagedLinesSurvive | install.sh:170-173 | unmanaged lines survive in their order |
| DotEnv.LineSurvivesIff | install.sh:169-182 | a line of such a text is still there after a rewrite, between the same neighbours, exactly if its key is not managed; the entries follow |
| DotEnv.LaterRewriteWins | install.sh:156-182 | writing v1 and then v2 gives the file of writing v2 |
| DotEnv.RepeatingChangesNothing | install.sh:156-182 | repeating a rewrite leaves the file unchanged |

## Left out

- HTTP serving, headers, WebSocket upgrades, JSON, deadlines and heartbeats: a read or write that fails is a step that may happen at any time.
- `wsWriteLocks`: a write is one atomic step, in order for each connection; nothing is claimed about lock lifetimes.
- Trimming and upper-casing of a submitted code: the code in Signalling is the text that AuthorizePresenter is given.
- Randomness of codes, session IDs and tokens: they are inputs of the steps; freshness is a hypothesis where a theorem needs it.
- The generation is an unbounded number and durations do not overflow: wrap-around at 2^64 generations or 292 years is not modelled.
- The two questions about display and presenter after a refused code are one step, and so are the writes of iceConfig and authAccepted; they reach only the asking connection.
- Whether a presenter's failed code locks the key is a free choice in the signalling machine; the table itself is in Lockout.
- Only the relay property is stated for a display's messages: the source does not compare the sender with the session's callee.
- Relay.RelayUpTargetsPresenter: says whom the message is addressed to at the lookup; the write comes later, to that connection, and may find it closed.
- Order of ICE candidates: direct ones may overtake queued ones, so DisplayPage counts them. Answering an offer after setRemoteDescription (createAnswer and on) is not modelled.
- DisplayPage.FlushTerminates: counts passes of the loop; that a settled promise is eventually resumed is left to the browser.
- Agreement.DisplayAgreesWithServer: assumes fresh codes, and of accepted codes the exact condition given above.
- Received.SessionArrivesInOrder: that no other presenter's messages carry the session ID is a hypothesis, since session IDs are random.
- Enrollment.EnrollmentWorksIff: that the public URL reaches the server and that the page's origin is allowed is not part of the model; of JSON messages only the form the page sends is decoded.
- Enrollment.JsonRoundTrip: escaped surrogates are not decoded; text without lone surrogates is never written with them.
- ICE server credentials and coturn settings (`core/turn.go`, `SafeConfig`): library calls and one-branch facts.
- Parsing and printing of IP addresses and URLs are functions given to the model; validate_public_url appears through the origins it returns.
- The room checks and room selection of `scripts/kiosk_url.py`: they repeat checks shown for the server.
- Labels: the scripts and the server trim slightly differently, so AddRooms relates its result to what the server accepts of the old list.
- AddRooms.AddRooms: starts from the parsed room list and an accepted public_url; draws of tokens are a list, which may run out.
- Lower case in yes/no answers is ASCII only; no other character lowers to a letter of these answers.
- AddRooms.AskYesNo: the exception after the loop's warning cannot occur, since the end of input already chose the default.
- ClientHost.PrependedTextIsIgnoredIff: assumes of the library that printing a parsed address and parsing it again gives the same address.
- ReplaceFile: the namespace and contents as other processes see them; what survives a power loss before fsync, symbolic links and other writers in the directory are not modelled. A call that raises an Exception has had no effect, while an interrupt may come before or after one.
- ReplaceFile.WriteAtomic: excepts the case that the random temporary name is the destination's own name.
- DotEnv: file modes, the symbolic-link check and the temporary file of the rewrite are not modelled; a file that is not UTF-8 is not read.
- Audio and video capture, the presenter's page, DOM and styles, Docker and shell option handling.

# Verified models of the Exosite Ready SDK core

A Dafny 4.11 model of the parts of the SDK that decide what happens to a request, with proofs of what
they promise. `dafny verify dfyconfig.toml` checks everything.

## What is modelled

**The pattern matcher** (`src/lib/pmatch.c`). `PatternSyntax` reads a pattern as a list of items,
`PatternGrammar` writes such lists down and proves that they are read back, `PatternSemantics` says which
stretches of a subject an item list matches and which match has priority; `PatternClasses` writes out
the characters of each class, `PatternLaws` ties the items to each other and to texts.
`PatternMatcher` has the backtracking matcher with its capture table, changed in place, and proves it
sound, complete and faithful to the priorities; failed attempts restore the captures. `PatternCaptures`
says what the captures of a match are, `PatternFind` has `str_find` with its plain search, and
`PatternGroups` what it finds for groups behind or in front of literal text. `HttpPayload` is the payload
parsing that rests on it (`src/server_api/exosite_http_api.c`), `HttpHeader` the parsing of responses
(`src/protocol_clients/http_parser.c`, and `http_recv` of `src/protocol_clients/http_client.c`).

**The protocol client state machine** (`src/protocol_client_sm.c`). `ProtocolModel` is one step of a
machine as a function of its state, the state all machines share, and the answers of network, protocol
client and clock; `ProtocolClientSm` is the same as objects updated in place, each method proved to take
the step of the model and to hand out the callbacks it ran. Over all runs: every request is accounted for
(`ProtocolSafety`), the counter and the limit hold and an abort drains (`ProtocolFlow`), exactly which
requests are overwritten (`ProtocolLoss`) or let go unfinished (`ProtocolLetGo`), exactly when a clear calls
all requests back and with which codes (`ProtocolPromise`), exactly when `is_empty` tells the truth
(`ProtocolEmpty`), only one of N interleaved machines connects at a time (`ConnectLock`), how often it tries
(`ConnectRetries`), a request that was taken from the queue is called back in time
(`ResponseDeadline`), failed sends and receives, timeouts and aborts end a session and when
(`ProtocolFailures`), and a response reaches its request while no callback comes without a reason
(`ProtocolAnswers`).

**The exosite object** (`src/exosite_api.c`) on top of it. `ExositeModel` is one step of the activation
machine, one step of a protocol machine with the callbacks it runs, and the calls of the user;
`ExositeApi` is the same as an object. Over all interleaved runs: the activation state agrees with what is
under way in the machines (`ExositeActivation`), the subscribe map does (`ExositeSubscriptions`), and the
user's requests enter the main machine first in, first out, each once, and no other machine
(`ExositeQueue`); `ExositeSafety` puts them together and states the results. `ExositePhases` says
exactly when each state is left and for which other, `ExositeProgress` when requests and subscriptions
go down, `ExositeReactivation` that a refused CIK, and nothing else, leads to a re-activation, and
`ExositeResponses` that over HTTP a response reaches the request on the wire. `ExositeRequests`
carries lock, accounts and losses of the single machines over to all machines of an object. `MachineJobs` is
the interface between the layers: which callbacks a step of a machine can run.

**What these rely on.** `Dictionary` (`src/lib/tdictionary.c`) is the search tree with parent pointers and
its climbing iterator over nodes on the heap, against the sorted pairs of `DictionaryModel`. `Scheduler`
(`src/lib/pclb.c`) is the pass over two linked lists, against `SchedulerModel`. `StringClass`
(`src/lib/string_class.c`) is the string buffer and its replacement, against `ReplaceAll`; `HttpRequest`
builds the content of a write with it and reads it back.

The main results are `PatternMatcher.MatchState.Match`, `PatternFind.StrFind`,
`PatternCaptures.CaptureOfGroup`, `HttpPayload.ParsePayload`, `HttpHeader.ParseHeader`,
`HttpHeader.ResponseIsRead`, `ProtocolSafety.EveryRunAccounts`,
`ProtocolPromise.CallsAllBackIff`, `ProtocolPromise.AbortsAllIff`, `ProtocolEmpty.TruthfulIff`,
`ProtocolLetGo.StepLetsGo`, `ConnectLock.OnlyOwnerConnects`, `ConnectRetries.ClosesAtOnceIff`,
`ResponseDeadline.CallbackTime`, `ProtocolFailures.FailsAfterTooMany`, `ProtocolFailures.VisitLeadsTo`,
`ProtocolAnswers.EveryCallbackHasAReason`, `ExositeSafety.SentIffPending`, `ExositeSafety.OneActivate`,
`ExositeSafety.NoStaleTraffic`, `ExositeSafety.FifoHandoff`,
`ExositeReactivation.RefusedThenReactivates`, `ExositeReactivation.OnlyRefusalsAsk`,
`ExositeResponses.ResponseFinishes`, `ExositePhases.ActivateIsAnswered`,
`ExositeRequests.OnlyReactivationDrops`, `Dictionary.Dict.Visit`,
`SchedulerModel.GapBounds`, `SchedulerModel.TimeIsAccounted` and `StringClass.Str.Replace`.

## Inputs

Network, host lookup, protocol client, allocator, flash and clock are parameters of each step (`Env`,
`ActEnv`, `PushEnv`, `Reply`, flags named `memory`), and the theorems hold for all of them. The clock of a
step is a 32-bit counter where the code subtracts times. One call of a periodic function is one atomic
step, as all of them run in one pass of the scheduler.

## Where the code differs from what is written about it

- The header promises that after `protocol_client_sm_clear` every request is called back with
  ERR_REQUEST_ABORTED (`src/include/protocol_client_sm.h:111-119`). A request in the active slot is dropped
  without a callback when an abort completes another one: every request is called back if and only if the
  slot was empty or held the only request (`ProtocolPromise.CallsAllBackIff`). And an aborting machine still
  sends its active request, takes responses and times requests out: all get ERR_REQUEST_ABORTED if and only
  if nothing was active or sent (`ProtocolPromise.AbortsAllIff`); those that were may get the code of a
  response or ERR_TIMEOUT instead (`PollCodes`, `QueuedGetAborted`). `UnsafeIsReachable` is a run to a state
  where a clear breaks the promise (`PromiseIsBroken`).
- The header says `protocol_client_sm_is_empty` tells whether requests are queued. It tells whether no abort
  is in progress. Without an abort it answers TRUE even if requests are queued
  (`ProtocolEmpty.TrueThoughQueued`); during one it answers FALSE, also right after a clear of an empty
  machine (`ProtocolEmpty.FalseThoughEmpty`). `ProtocolEmpty.TruthfulIff` says for every state of every run
  when the answer is right. The way `activate_sm` uses it, polling until TRUE after a clear, is sound and
  ends (`ProtocolFlow.ClearedMeansEmpty`).
- The comment on `CONNECT_RETRIES` says that after an error connecting is retried that many times before the
  socket is closed. There is one attempt per socket whatever is configured
  (`ConnectRetries.OneAttemptPerSocket`): an error closes it at once (`FirstErrorCloses`), and so does an
  attempt that takes too long if more than one retry is configured; `ConnectRetries.ClosesAtOnceIff` is the
  exact condition. The connect lock is not released then, so a host that never answers keeps all other
  machines from connecting, and even connected ones from sending or receiving (`ConnectLock.LockIsKept`).
- An asynchronous subscription that times out in the active slot, after a good response and outside an
  abort, is called back and then neither kept on a list nor freed; `ProtocolLetGo.StepLetsGo` says that
  this is the only case, `LetGoIsReachable` that it happens. With HTTP it cannot (`SynchLetsNoneGo`).
- A push to a machine that was just created reports the success of its creation even if its queue has no
  room; `ExositeMachines.SuccessMeansQueuedIff` shows that this matters only for a queue size of 0, which
  the theorems of `ExositeSafety` therefore exclude (the shipped size is 1).
- `pclb_task` counts in 64 bits: a callback with a period close to 2^64 can be skipped;
  `SchedulerModel.DueButWraps` gives the run, `SchedulerModel.RunsWhenDue` the exact bound on the period.
- The clock is read twice in a call of `pclb_task` that is given no time; what passes between the two
  readings is accounted for by no pass (`SchedulerModel.TimeIsAccounted`).
- The header says that `http_parse_header` extracts the position of the payload. It takes the place behind
  the last empty line, so a body that holds one is cut; `HttpHeader.BodyIsFoundIff` is the exact condition,
  `BodyIsCut` what happens otherwise. Status and length are read in base 0: a leading zero makes them octal,
  or, with an 8 or 9 in them, refuses the header (`HttpHeader.ReadWhole`).
- `http_recv` sets the token by which a response is paired, except when it returns ERR_OVERFLOW: the
  machine, which pairs such a response too, then uses the one of an earlier response
  (`HttpHeader.Receive`).
- `string_replace` gives up its buffer when an allocation fails, and with an empty needle it can only end
  that way, if it ends; its header speaks of `strtok`, the code uses `strstr`.

## Model

| member | source | states |
|---|---|---|
| PatternSyntax.ClassEnd | src/lib/pmatch.c:103-130 | the class at a position ends behind it and inside the pattern |
| PatternGrammar.SetEndReads | src/lib/pmatch.c:113-124 | the scan for the end of a set stops behind the bracket that closes it, whatever escapes and ranges it holds |
| PatternGrammar.MembersReads | src/lib/pmatch.c:181-192 | the members of a set are read as they were written |
| PatternGrammar.ItemReads | src/lib/pmatch.c:320-414 | every kind of item, with its repetition, is read as it was written |
| PatternGrammar.ReadsBack | src/lib/pmatch.c:317-416 | writing an item list down as the manual of Lua 5.1 prescribes and reading it back gives the list |
| PatternSemantics.BalanceEndIsBalanced | src/lib/pmatch.c:212-234 | the counting scan of `%bxy` ends exactly at the ends of balanced strings, of which there is at most one |
| PatternSemantics.RunEndIsLongest | src/lib/pmatch.c:241-242 | the runs of the class from a position are exactly the stretches up to the greedy count |
| PatternSemantics.ReachIsStep | src/lib/pmatch.c:317-416 | for every kind of item, the subject positions the matcher tries are exactly those the declarative meaning of the item allows |
| PatternSemantics.FirstIsFirstPath | src/lib/pmatch.c:317-416 | the backtracking search finds the path of the declarative language that comes first in priority order, and finds none only if there is none |
| PatternSemantics.FirstAmongIsFirstPath | src/lib/pmatch.c:236-267 | the same over the repetitions of one item: longest first for greedy, shortest first for lazy ones |
| PatternMatcher.OutcomeOfFirst | src/lib/pmatch.c:317-416 | end position and captures of the search are those of the first path |
| PatternMatcher.LastOpenIsLastUnfinished | src/lib/pmatch.c:92-101 | the capture a `)` closes is the last unfinished one, whatever the captures hold |
| PatternMatcher.NoParensKeepsCaps | src/lib/pmatch.c:386-394 | items without parentheses leave the captures alone |
| PatternMatcher.OutcomeOptional | src/lib/pmatch.c:387-394 | trying the rest behind an optional item before looking whether the item matches gives the right outcome |
| PatternMatcher.ClassEndOf | src/lib/pmatch.c:103-130 | the scan along the pattern returns the end of the class at p |
| PatternClasses.ClassIs | src/lib/pmatch.c:137-160 | every class letter is read as the characters it stands for, written out one by one; in upper case as all others; any other character as itself |
| PatternClasses.SetIs | src/lib/pmatch.c:173-194 | a set holds exactly the characters that one of its members covers |
| PatternMatcher.MatchBracketClass | src/lib/pmatch.c:173-194 | the scan of a set decides membership: some member matches, or none for a complemented set |
| PatternMatcher.SingleMatch | src/lib/pmatch.c:196-208 | a character matches the class at p exactly if it satisfies the class the pattern denotes there; for a class letter exactly if it is one of the written-out characters the letter stands for, for `.` always, for a plain character if it is the same |
| PatternMatcher.MatchState.CheckCapture | src/lib/pmatch.c:84-90 | the index of a back reference if that capture is on the table and finished, and -1 otherwise |
| PatternMatcher.MatchState.CaptureToClose | src/lib/pmatch.c:92-101 | the downward scan returns the last unfinished capture |
| PatternMatcher.MatchState.MatchBalance | src/lib/pmatch.c:212-234 | the end of the balanced string at s, or none |
| PatternMatcher.MatchState.MatchCapture | src/lib/pmatch.c:301-315 | a back reference matches exactly the text of the finished capture |
| PatternMatcher.MatchState.StartCapture | src/lib/pmatch.c:269-287 | matches the rest with one more capture; on failure level and captures are as before |
| PatternMatcher.MatchState.EndCapture | src/lib/pmatch.c:289-299 | matches the rest with the last unfinished capture closed; on failure it is unfinished again |
| PatternMatcher.MatchState.MaxExpand | src/lib/pmatch.c:236-252 | the outcome of the greedy search, longest run first; failure restores the captures |
| PatternMatcher.MatchState.MinExpand | src/lib/pmatch.c:254-267 | the outcome of the lazy search, shortest run first; failure restores the captures |
| PatternMatcher.MatchState.Match | src/lib/pmatch.c:317-416 | match returns the end of the first path in priority order and leaves its captures; it fails only if there is no path, and then restores the captures |
| PatternMatcher.MatchState.MatchItem | src/lib/pmatch.c:380-414 | one pattern item with its quantifier, in the same sense |
| PatternMatcher.MatchState.TryOptional | src/lib/pmatch.c:387-394 | the item `?`, whose continuation runs first, in the same sense |
| PatternCaptures.OneCapturePerOpen | src/lib/pmatch.c:269-299 | a match of a balanced pattern leaves one closed capture for each opening parenthesis |
| PatternCaptures.CaptureOfGroup | src/lib/pmatch.c:269-299 | the capture of a group is the stretch of the subject between the positions at its two parentheses, which its own sub-pattern accepts |
| PatternCaptures.GroupsNest | src/lib/pmatch.c:269-299 | nested groups have nested captures |
| PatternCaptures.BalancedIsLocal | src/lib/pmatch.c:92-101 | a balanced sub-pattern leaves the captures before it as they were |
| PatternCaptures.PathAscends | src/lib/pmatch.c:317-416 | matching only moves forward in the subject |
| PatternFind.MemChr | src/lib/pmatch.c:430-430 | the first occurrence of a character |
| PatternFind.LMemFind | src/lib/pmatch.c:418-441 | the first occurrence of the text, or none only if there is none |
| PatternFind.PushCaptures | src/lib/pmatch.c:443-463 | the reported slices are the captures of the match, as far as there is room |
| PatternFind.StrFind | src/lib/pmatch.c:465-509 | reports the leftmost match, at the initial position only if anchored, with its captures; plain patterns are searched for as text |
| PatternFind.FindMatch | src/lib/pmatch.c:490-505 | the loop over start positions finds the leftmost match, or none only if there is none |
| PatternFind.CapsAreSlices | src/lib/pmatch.c:455-459 | at the end of a match every capture is a slice inside the subject |
| PatternFind.PlainParse | src/lib/pmatch.c:483-488 | a pattern without special characters and closing parentheses is a list of literal characters |
| PatternFind.LiteralsMatch | src/lib/pmatch.c:418-441 | such a list matches at a position exactly if the text occurs there |
| PatternFind.PlainBranchAgrees | src/lib/pmatch.c:475-508 | the plain branch reports found exactly if the general search from the same start would |
| PatternLaws.OptIsEither | src/lib/pmatch.c:387-394 | `x?` matches in front of a rest where x or nothing does |
| PatternLaws.StarUnfolds | src/lib/pmatch.c:236-252 | `x*` is nothing, or x and `x*` |
| PatternLaws.PlusIsOneStar | src/lib/pmatch.c:400-404 | `x+` is x and `x*` |
| PatternLaws.LazyIsStar | src/lib/pmatch.c:254-267 | `x-` matches in front of a rest exactly where `x*` does |
| PatternLaws.FirstStopIs | src/lib/pmatch.c:236-267 | of all runs that let the rest match the first path takes the longest for `x*` and the shortest for `x-` |
| PatternLaws.AtEndIsEnd | src/lib/pmatch.c:374-379 | a text and a final `$` match exactly where that text is all that is left |
| PatternLaws.BalancedPair | src/lib/pmatch.c:212-234 | `%bxy` takes an x, a text with neither in it, and a y, and nothing else there |
| PatternLaws.BackRepeats | src/lib/pmatch.c:301-315 | a group and `%1` match exactly where a stretch the group accepts stands twice |
| PatternGroups.LitsPath | src/lib/pmatch.c:317-416 | a path through escaped literal text and a rest goes along the text, which stands there, and then through the rest |
| PatternGroups.GroupPath | src/lib/pmatch.c:269-299 | a path through a group around one repetition stops twice at the end of its run, which is the capture the rest sees |
| HttpHeader.ReportedNumber | src/protocol_clients/http_parser.c:39-65 | a match of literal text and `(%d+)` that str_find reports captures the longest run of the characters 0 to 9 behind the text |
| HttpHeader.FoundNumber | src/protocol_clients/http_parser.c:57-90 | it is found exactly if the text stands somewhere with a digit behind it, and it is the first such place |
| HttpHeader.FoundEnd | src/protocol_clients/http_parser.c:38-53 | `(.*)` and an empty line is found exactly if there is one, and captures all in front of the last one |
| HttpHeader.StatusReads | src/protocol_clients/http_parser.c:39-39 | the pattern for the status is read as the text `HTTP/1.1 ` and `(%d+)` |
| HttpHeader.LengthReads | src/protocol_clients/http_parser.c:40-40 | the pattern for the length is read as the text `Content-Length: ` and `(%d+)` |
| HttpHeader.ReadNumber | src/protocol_clients/http_parser.c:70-79 | strtol in base 0 reads the whole run, unless a leading zero makes an 8 or 9 stop it |
| HttpHeader.ParseHeader | src/protocol_clients/http_parser.c:25-111 | a header is found exactly if there is an empty line, a status and a length that are read whole, and the memory for both; the numbers are those, the index is behind the last empty line |
| HttpHeader.Receive | src/protocol_clients/http_client.c:57-109 | the error code, response code, token, and payload of a received response: ERR_FAILURE exactly without a header, ERR_OVERFLOW exactly if the rest does not fit, else the rest of the buffer is in the payload; the token is 1 except for an overflow |
| HttpHeader.NumbersAreRead | src/protocol_clients/http_parser.c:75-76 | a number written in decimal, or in octal behind a zero, is read back |
| HttpHeader.ResponseIsRead | src/protocol_clients/http_parser.c:25-111 | of a response with a status, header fields, a length, an empty line and a body without one, status, length and body are read back |
| HttpHeader.BodyIsFoundIff | src/protocol_clients/http_parser.h:19-31 | the payload index is that of the body, behind the first empty line, if and only if no other empty line follows |
| HttpHeader.BodyIsCut | src/protocol_clients/http_parser.c:52-53 | a body with an empty line loses what is in front of it |
| HttpPayload.ParsePayload | src/server_api/exosite_http_api.c:561-614 | the status by response code, with the numbers of codes and statuses written out, and payload, and the buffer: the longest alphanumeric run at the front, or behind the first equals sign; unchanged otherwise |
| HttpPayload.ReportedValue | src/server_api/exosite_http_api.c:597-604 | the match of `(%w-)=(%w*)` that str_find reports captures the maximal alphanumeric run behind the first equals sign |
| HttpPayload.ReportedWord | src/server_api/exosite_http_api.c:580-586 | the match of `(%w*)` captures the maximal alphanumeric run at the start |
| HttpPayload.MatchesAtEquals | src/server_api/exosite_http_api.c:597-599 | any equals sign gives a match, so the payload is refused only if there is none |
| HttpPayload.MoveToFront | src/server_api/exosite_http_api.c:601-601 | memmove of the capture to the front |
| HttpPayload.ValueRoundTrip | src/server_api/exosite_http_api.c:284-294 | reading back `alias=value` gives the value, for an alias without equals sign and an alphanumeric value that fits |
| HttpRequest.WriteContent | src/server_api/exosite_http_api.c:280-298 | the content built for a write is the alias, an equals sign and the value; it fails only for lack of memory, never up to 256 characters |
| HttpRequest.ReadBack | src/server_api/exosite_http_api.c:561-614 | a payload with that content, parsed by http_parse_payload, leaves the value as a C string in the buffer |
| ProtocolClientSm.Globals.constructor | src/protocol_client_sm.c:155-159 | nothing is connecting at first |
| ProtocolClientSm.Sm.constructor | src/protocol_client_sm.c:745-818 | a new machine holds no request and no socket and is in the reset state |
| ProtocolClientSm.Sm.ConnectWait | src/protocol_client_sm.c:130-144 | takes the lock if it is free or already its own |
| ProtocolClientSm.Sm.StReset | src/protocol_client_sm.c:201-222 | waits a second since the last reset, then closes the socket |
| ProtocolClientSm.Sm.CreateSocket | src/protocol_client_sm.c:177-199 | looks up the host and creates the socket |
| ProtocolClientSm.Sm.StConnect | src/protocol_client_sm.c:224-299 | one step of connecting, on the machine and on the shared variables |
| ProtocolClientSm.Sm.StNewTransmit | src/protocol_client_sm.c:307-328 | takes the head of the queue if the slot is free, the limit allows it and nothing is aborted |
| ProtocolClientSm.Sm.StSendRequest | src/protocol_client_sm.c:330-365 | a sent request moves from the slot to the front of the sent list |
| ProtocolClientSm.Sm.StRecvResponse | src/protocol_client_sm.c:367-399 | the response code and status of what was received |
| ProtocolClientSm.Sm.PairRequestToResponse | src/protocol_client_sm.c:440-459 | the first sent request with the message id of the response |
| ProtocolClientSm.Sm.ListDel | src/protocol_client_sm.c:430-430 | the sent list without that record |
| ProtocolClientSm.Sm.StTransmitComplete | src/protocol_client_sm.c:401-438 | runs the callback, with the request and the response code, and frees the request unless it is a subscription that stays open |
| ProtocolClientSm.Sm.CheckTimeout | src/protocol_client_sm.c:461-505 | takes the first late request of the sent list, else a late active one, and nulls the slot |
| ProtocolClientSm.Sm.AbortTransfers | src/protocol_client_sm.c:507-553 | takes one request from queue, sent list or slot while aborting, and ends the abort when all are empty |
| ProtocolClientSm.Sm.StTransmit | src/protocol_client_sm.c:560-638 | one visit to the transmit state; it hands out the callbacks it ran, which are those the history has gained |
| ProtocolClientSm.Sm.Task | src/protocol_client_sm.c:640-677 | one task call is one step of the model, including the two static variables, and hands out exactly the callbacks it ran, in order |
| ProtocolClientSm.Sm.TransmitRequest | src/protocol_client_sm.c:687-718 | queues the request if there is room and memory, and changes nothing otherwise |
| ProtocolSafety.EveryRunAccounts | src/protocol_client_sm.c:307-553 | in every state of every run an accepted request is in exactly one of queue, slot, sent list, finished, overwritten or let go (the last two bounded by `ProtocolLoss` and `ProtocolLetGo`), a finished one is never called back again, and an overwritten one never |
| ProtocolSafety.ApplyAccounts | src/protocol_client_sm.c:401-438 | every event keeps that account |
| ProtocolSafety.CompleteAccounts | src/protocol_client_sm.c:401-438 | completing a request runs one more callback of it and none of another; unless it stays open it is then finished, and in no list or slot |
| ProtocolSafety.PairIsSent | src/protocol_client_sm.c:440-459 | only a request on the sent list is paired with a response |
| ProtocolSafety.TimedOutIsSent | src/protocol_client_sm.c:467-485 | only a request on the sent list times out there |
| ProtocolFlow.EveryRunFlows | src/protocol_client_sm.c:317-325 | the in-flight counter is between 0 and the length of the sent list in every run, exact with a limit of one outside an abort, and then at most one request is active or sent |
| ProtocolFlow.ApplyFlow | src/protocol_client_sm.c:429-436 | every event keeps that |
| ProtocolFlow.AbortDrains | src/protocol_client_sm.c:507-553 | while aborting, each visit to the transmit state leaves fewer requests or ends the abort, and it ends only when queue, slot, sent list and counter are empty |
| ProtocolFlow.ClearedMeansEmpty | src/protocol_client_sm.c:735-743 | after a clear, with nothing new submitted, a TRUE answer of is_empty means that no request is left, and the answer is TRUE after more visits to the transmit state than there were requests; `ProtocolEmpty` has the exact condition |
| ProtocolFlow.IdleStaysIdle | src/protocol_client_sm.c:560-638 | a machine without requests stays so and calls nothing back |
| ProtocolLoss.StepLosses | src/protocol_client_sm.c:461-553 | a step overwrites a request in exactly two cases: the active one when another times out on the sent list, or when an abort completes another |
| ProtocolLoss.LimitOneLosesNone | src/protocol_client_sm.c:461-553 | with a limit of one and no clear, no request is ever overwritten |
| ProtocolLoss.SafeClearLosesNone | src/protocol_client_sm.c:507-553 | clearing a machine whose slot is empty, or holds the only request, loses nothing in any run of polls |
| ProtocolLoss.UnsafeClearLoses | src/protocol_client_sm.c:518-526 | otherwise there is a poll that overwrites the active request |
| ProtocolLoss.ClearLosesNoneIff | src/include/protocol_client_sm.h:111-119 | no run of polls after a clear overwrites a request if and only if the slot was empty or held the only request; `ProtocolPromise` has the callbacks and their codes |
| ProtocolLetGo.StepLetsGo | src/protocol_client_sm.c:401-438 | a step lets a request go, neither kept nor freed after its callback, exactly when an open subscription in the active slot times out with status TRUE and no abort |
| ProtocolLetGo.EventLetsNoneGo | src/protocol_client_sm.c:411-427 | an event at a synchronous machine lets none go |
| ProtocolLetGo.SynchLetsNoneGo | src/protocol_client_sm.c:411-427 | so no request is ever let go in any run of a synchronous machine |
| ProtocolLetGo.LetGoIsReachable | src/protocol_client_sm.c:461-505 | every asynchronous machine with room in its queue, no negative limit and a timeout below 2^32 ms has a run in which a subscription is let go |
| ProtocolPromise.CallsAllBackIff | src/include/protocol_client_sm.h:111-119 | each request queued, active or sent at a clear has finished, by one callback, in every run of polls that empties the machine, if and only if the slot was empty or held the only request |
| ProtocolPromise.AbortsAllIff | src/include/protocol_client_sm.h:111-119 | the promise of clear as it is written, each such request called back with ERR_REQUEST_ABORTED and nothing else, holds if and only if no request was active or sent |
| ProtocolPromise.SafeCallsBack | src/protocol_client_sm.c:507-553 | after a safe clear a request the machine held has finished by one callback once the machine is empty |
| ProtocolPromise.UnsafeBreaks | src/protocol_client_sm.c:518-526 | from any other cleared state a run leads to an empty machine without a finishing callback of the active request |
| ProtocolPromise.ReachEmpty | src/protocol_client_sm.c:507-553 | from every cleared state some run of polls leads to an empty machine |
| ProtocolPromise.QueuedGetAborted | src/protocol_client_sm.c:518-526 | a request that is only queued at the clear gets no code but ERR_REQUEST_ABORTED |
| ProtocolPromise.AnswerIsPassedOn | src/protocol_client_sm.c:367-399 | an aborting machine still sends its active request and passes a response on to a request on the wire |
| ProtocolPromise.WireBreaks | src/protocol_client_sm.c:560-638 | so a request active or sent at the clear can finish with a code other than ERR_REQUEST_ABORTED |
| ProtocolPromise.PollCodes | src/protocol_client_sm.c:401-553 | every callback of a poll has the response code, ERR_TIMEOUT or ERR_REQUEST_ABORTED |
| ProtocolPromise.EveryRunReached | src/protocol_client_sm.c:560-677 | every state of every run satisfies what these results assume |
| ProtocolPromise.UnsafeIsReachable | src/protocol_client_sm.c:307-328 | with room in the queue and no negative limit, a run from the creation of a machine leads to a state that is not safe to clear |
| ProtocolPromise.PromiseIsBroken | src/protocol_client_sm.c:507-553 | after that run a clear does not call every request back |
| ProtocolEmpty.FalseThoughEmpty | src/protocol_client_sm.c:735-743 | right after a clear of a new machine is_empty answers FALSE with no request queued |
| ProtocolEmpty.TrueThoughQueued | src/protocol_client_sm.c:735-743 | with one request queued on a new machine is_empty answers TRUE |
| ProtocolEmpty.PendingIffUnsettled | src/protocol_client_sm.c:307-553 | a machine holds no request exactly when every accepted one has finished, or was overwritten or let go |
| ProtocolEmpty.AbortingYetEmptyIff | src/protocol_client_sm.c:507-553 | the abort flag is set on an empty machine exactly when a clear found it empty, or a visit emptied it, and it has neither been visited nor taken a request since |
| ProtocolEmpty.TruthfulIff | src/include/protocol_client_sm.h:121-128 | in every state of every run is_empty tells whether requests are queued if and only if, with no abort in progress, all accepted ones are settled, and, with one in progress, it is not so that a clear found the machine empty, or a visit emptied it, and nothing has visited it or reached its queue since |
| ProtocolFailures.FailuresCount | src/protocol_client_sm.c:572-596 | each failed send and each failed receive of a connected visit raises the count by one, the failure state clears it, and nothing else changes it |
| ProtocolFailures.FailsIff | src/protocol_client_sm.c:664-665 | a connected visit leads to the failure state if and only if the count is then above the configured retries |
| ProtocolFailures.OneFailureFails | src/client_config.c:57-57 | without retries, as configured, one failed send or receive of a connected visit leads to the failure state |
| ProtocolFailures.CountIsSince | src/protocol_client_sm.c:572-596 | in every run the count is that of the failed sends and receives since the last failure state |
| ProtocolFailures.FailsAfterTooMany | src/protocol_client_sm.c:664-665 | in every run a connected visit leads to the failure state if and only if it brings these above the configured retries |
| ProtocolFailures.LeavesFailure | src/protocol_client_sm.c:201-222 | a poll in the failure state leads to a reset, and the reset ends, with the socket closed, at the first poll a second after the last one |
| ProtocolFailures.Recovers | src/protocol_client_sm.c:301-305 | two polls, the second late enough, bring a failed machine back to the transmit state without a socket and with all its requests |
| ProtocolFailures.ClosedBehindFailure | src/protocol_client_sm.c:201-222 | in every run a machine that comes back from the failure state has no socket |
| ProtocolFailures.ResetsAreSpaced | src/protocol_client_sm.c:201-222 | in every run two successive resets end at least 1000 ms apart |
| ProtocolFailures.SessionEndsIff | src/protocol_client_sm.c:598-637 | a connected visit closes the socket if and only if it sees the sixth timeout since that happened last, or ends an abort |
| ProtocolFailures.SessionFlags | src/protocol_client_sm.c:612-621 | in every state of every run there are at most five timeouts and no abort to be followed up, as this assumes |
| ProtocolFailures.ConnectLeadsTo | src/protocol_client_sm.c:224-299 | where connecting leads: transmitting, a reset, failure or another attempt, by what lookup, socket and connect answered and how long that took |
| ProtocolFailures.VisitLeadsTo | src/protocol_client_sm.c:560-665 | the state after a visit to the transmit state, by failures, attempts, timeouts and aborts |
| ProtocolAnswers.PairIsFirst | src/protocol_client_sm.c:440-459 | the paired request is the first on the list with the id, and there is none only if none has it |
| ProtocolAnswers.PairedIs | src/protocol_client_sm.c:584-589 | a connected visit that receives a response, or one that is too long, pairs it with the first request on the wire that has its id |
| ProtocolAnswers.ResponseIsPassedOn | src/protocol_client_sm.c:378-386 | that request is called back with the code of the response, before any other callback of the visit, and is finished unless it is a subscription that stays open |
| ProtocolAnswers.StatusIsTaken | src/protocol_client_sm.c:382-384 | the status that decides about that is the one of the last response |
| ProtocolAnswers.EveryCallbackHasAReason | src/protocol_client_sm.c:560-638 | every callback a poll runs is for a response to a request on the wire, with its code, for a request that has waited longer than the timeout, or for an abort |
| ConnectLock.TaskKeeps | src/protocol_client_sm.c:640-677 | a task call of one machine keeps what links and lock promise |
| ConnectLock.MoveKeeps | src/protocol_client_sm.c:130-153 | every step of any of N machines keeps it for all of them |
| ConnectLock.ExecutionSound | src/protocol_client_sm.c:130-153 | so it holds in every state of every interleaved execution |
| ConnectLock.OneConnects | src/protocol_client_sm.c:130-144 | at most one machine is in the middle of a connection attempt |
| ConnectLock.OnlyOwnerConnects | src/protocol_client_sm.c:224-299 | only the owner of the lock creates a socket, starts an attempt or becomes connected, and no other machine is attempting then |
| ConnectLock.NextStateIsWritten | src/protocol_client_sm.c:643-676 | the static next_state is written before it is read: its old content never matters |
| ConnectLock.StartTimeIsOwn | src/protocol_client_sm.c:227-271 | an attempting machine has a socket and reads the start time of its own attempt from the static start_time |
| ConnectLock.LockIsKept | src/protocol_client_sm.c:270-296 | a machine whose connection attempts get no answer keeps the lock through all its resets; meanwhile no other machine gets connected, and even one that is connected sends and receives nothing |
| ConnectLock.LockAfterVisit | src/protocol_client_sm.c:224-299 | who has the lock after a visit to the transmit state: another machine that had it, this one if it has no socket or no answer yet, and else none |
| ConnectRetries.OneAttemptPerSocket | src/client_config.c:43-47 | in every execution the count that is compared with CONNECT_RETRIES never exceeds 1 |
| ConnectRetries.NoSecondAttempt | src/protocol_client_sm.c:253-258 | no step starts a second attempt on a socket |
| ConnectRetries.ClosesAtOnceIff | src/client_config.c:43-47 | an attempt that fails or goes on closes the socket in the same step if and only if connect returned an error, or has been blocking for too long with more than one retry configured, or the machine resets for another reason; the retries before that are the configured number only if that is 0 |
| ConnectRetries.GivesUpAfterOne | src/client_config.c:43-47 | an attempt that takes too long closes the socket the first time, for any configured number of retries above one |
| ConnectRetries.SlowAttemptFails | src/protocol_client_sm.c:270-276 | with at most one retry configured it leads to the failure state instead |
| ConnectRetries.FailureCloses | src/protocol_client_sm.c:301-305 | from there the next reset closes the socket, with no attempt in between |
| ConnectRetries.FirstErrorCloses | src/client_config.c:43-47 | a new machine whose first connect returns an error has closed its socket at once, for any configured number of retries |
| ResponseDeadline.ElapsedIs | src/system_utils.c:53-58 | the 32-bit difference is the elapsed time as long as less than one turn of the clock has passed |
| ResponseDeadline.VisitLeavesNoneLate | src/protocol_client_sm.c:601-603 | after each visit to the transmit state nothing in flight is late |
| ResponseDeadline.NextKeeps | src/protocol_client_sm.c:201-222 | every event keeps the bound on how long a machine is away from the transmit state |
| ResponseDeadline.CalledBackInTime | src/protocol_client_sm.c:560-677 | a request taken from the queue is finished by one callback once transmission timeout, 1000 ms and three polls have passed, through any failure, reset or wait for another machine |
| ResponseDeadline.CallbackTime | src/protocol_client_sm.c:560-677 | and the state in which it is finished comes at most one poll later |
| ResponseDeadline.TakenIsPopTime | src/protocol_client_sm.c:320-323 | the time this is counted from is that of the poll that took the request, the head of the queue |
| MachineJobs.TaskWithin | src/protocol_client_sm.c:560-638 | a step calls back only requests the machine held, and afterwards holds no others |
| MachineJobs.TaskSolo | src/protocol_client_sm.c:560-638 | a machine with one request, or none, goes on as it is or calls the request back once and is empty |
| MachineJobs.TaskDrained | src/protocol_client_sm.c:507-553 | once cleared, a machine is aborting or empty |
| StringOrder.BeforeIsTotal | src/lib/tdictionary.c:109-118 | of two different keys one comes before the other in the order of strcmp |
| StringOrder.BeforeIsTransitive | src/lib/tdictionary.c:109-118 | the order is transitive |
| StringOrder.BeforeIff | src/lib/tdictionary.c:109-118 | a key comes before another exactly if it ends, or has the smaller character, at the first difference |
| ExositeModel.FindSm | src/exosite_api.c:258-278 | the first machine of the kind and name on the list, or none only if there is none |
| ExositeMachines.PushShape | src/exosite_api.c:633-746 | handing a request down either changes at most the list of machines, by an empty one, or puts exactly this request, with the type for its procedure and the message id it was built with (1 over HTTP), into the queue of the machine it is for |
| ExositeMachines.SuccessMeansQueuedIff | src/exosite_api.c:633-746 | success is reported with a request queued if and only if the machines have a queue size above 0 |
| ExositeMachines.StepSolo | src/exosite_api.c:429-491 | at this level: nothing, or one callback and an empty machine |
| ExositeActivation.PushWhenIdle | src/exosite_api.c:779-840 | an activate or timestamp request handed down while nothing is under way is then the only one under way |
| ExositeActivation.SendStepSound | src/exosite_api.c:937-994 | the sending states lead to the waiting states with exactly that request under way |
| ExositeActivation.ActivatedStepSound | src/exosite_api.c:997-1037 | the steps of an activated device hand down only other requests |
| ExositeActivation.ActivateStepSound | src/exosite_api.c:922-1045 | every step of activate_sm keeps the agreement of its state with the machines, and the CIK |
| ExositeActivation.WaitingStepSound | src/exosite_api.c:800-840 | a step while waiting leaves the request alone, or answers it and leaves every machine empty |
| ExositeActivation.MachineStepSound | src/exosite_api.c:429-491 | every step of a machine with its callbacks keeps that agreement |
| ExositeSubscriptions.PushItem | src/exosite_api.c:1012-1024 | handing a subscription down puts it into the empty long-poll machine of its alias and marks it as sent, together or not at all |
| ExositeSubscriptions.AnsweredItem | src/exosite_api.c:1081-1111 | the callback of a subscription finds its machine empty and marks it as not sent |
| ExositeSubscriptions.LongPollStepKeepsItems | src/exosite_api.c:1081-1111 | a step of a long-poll machine keeps the agreement with its item |
| ExositeSubscriptions.OtherStepKeepsItems | src/exosite_api.c:429-491 | a step of any other machine calls no subscription back |
| ExositeSubscriptions.ActivateStepKeepsItems | src/exosite_api.c:922-1045 | every step of activate_sm keeps the agreement of all items |
| ExositeSubscriptions.SubscribeKeepsItems | src/exosite_api.c:572-592 | a new item, in the order of the dictionary, keeps it |
| ExositeQueue.ActivateStepHands | src/exosite_api.c:997-1037 | a step of activate_sm leaves the queue and what has entered the machines alone, or enters the head of the queue into the main machine, the latter only when activated and with no re-activation asked for |
| ExositeQueue.PushEnters | src/exosite_api.c:633-746 | a push enters its request into the first main machine if it is a user request and the push succeeds, and no user request into any machine otherwise |
| ExositeQueue.StepEnters | src/exosite_api.c:429-491 | a step of a machine enters none |
| ExositeQueue.MoveKeepsQueue | src/exosite_api.c:607-627 | every move keeps what has entered the main machine, followed by what waits, equal to what was accepted; no other machine takes a user request; and the queue keeps its limit |
| ExositeSafety.MoveKeeps | src/exosite_api.c:922-1045 | every move of user, activation machine or any protocol machine keeps all of these |
| ExositeSafety.ExecutionSound | src/exosite_api.c:922-1045 | they hold in every state of every interleaved run |
| ExositeSafety.SentIffPending | src/exosite_api.c:1012-1024 | with HTTP, an item is marked as sent exactly when the one machine of its alias has exactly one request under way |
| ExositeSafety.LongPollsHaveNames | src/exosite_api.c:264-275 | every long-poll machine has the name of an item, so the search of find_sm never stops before one without |
| ExositeSafety.MachinesHoldTheirOwn | src/exosite_api.c:640-713 | in every run a long-poll machine holds only subscriptions of the alias it is named after, the time-sync machine only timestamp requests, the main machine neither of them over HTTP |
| ExositeSafety.OneActivate | src/exosite_api.c:975-996 | in all machines together exactly one activate request is under way while the state is AS_WAIT_ACTIVATE, and none otherwise |
| ExositeSafety.NoStaleTraffic | src/exosite_api.c:961-994 | when the activate request is handed down, queue, slot and sent list of every machine are empty |
| ExositeSafety.ActivatedHasCik | src/exosite_api.c:944-960 | AS_ACTIVATED always comes with a CIK of 40 alphanumerics |
| ExositeSafety.FifoHandoff | src/exosite_api.c:1029-1036 | the user requests that have entered the first main machine, in order, followed by the queue, are those the user handed over with success, in order; no other machine has taken one; the queue keeps its limit |
| ExositeSafety.EntersOnce | src/exosite_api.c:1029-1036 | no user request enters a machine twice |
| ExositeSafety.HandoffOnlyActivated | src/exosite_api.c:1002-1036 | a hand-off takes the head of the queue, leaves it last in the queue of the main machine, and happens only when activated and without a pending re-activation |
| ExositeSafety.MoveKeepsTime | src/exosite_api.c:842-850 | the time of the last activation changes only when the machines are cleared, and that takes more than the delay since then |
| ExositeSafety.ActivationsAreSpaced | src/exosite_api.c:961-973 | two successive activations start more than the delay apart, in every run |
| ExositeReactivation.RefusedIff | src/server_api/exosite_http_api.c:549-552 | the status is ERR_CIK_NOT_VALID exactly for the codes 401 and -104 |
| ExositeReactivation.CallbackAsksIff | src/exosite_api.c:441-447 | the callback of a read or write asks for re-activation if and only if its code is one of these, and changes nothing else |
| ExositeReactivation.DeliverAsksIff | src/exosite_api.c:441-447 | the callbacks of one step at an activated device ask for it if and only if one of them was refused |
| ExositeReactivation.EventReactivates | src/exosite_api.c:1003-1009 | in every run a poll of an activated device that was asked to re-activate leads to AS_PREPARE_ACTIVATE, takes the event back and hands nothing down |
| ExositeReactivation.EventStays | src/exosite_api.c:441-447 | in every run the event stays until that poll |
| ExositeReactivation.RefusedThenReactivates | src/exosite_api.c:1003-1009 | in every run, after a callback with a refused CIK at an activated device, the next poll of activate_sm starts a re-activation |
| ExositeReactivation.OnlyRefusalsAsk | src/exosite_api.c:441-447 | in every run nothing but a refused CIK sets the event, and an activated device stays activated but for such a poll |
| ExositeResponses.ExecutionHasOneId | src/exosite_api.c:342-345 | in every run over HTTP every request that is queued, active or sent in any machine has message id 1 |
| ExositeResponses.ResponseFinishes | src/protocol_client_sm.c:440-459 | in every run over HTTP a response with id 1 that a connected machine receives calls back the request on its wire that was sent last, with the code of the response, and finishes it |
| ExositeResponses.RefusalIsNoted | src/exosite_api.c:441-447 | and if its code is 401, an activated device is asked to re-activate |
| ExositeProgress.PushSucceedsIff | src/exosite_api.c:633-746 | a push succeeds exactly if the machine for the request has room, or can be created, the request can be built and there is memory |
| ExositeProgress.PushPlaces | src/exosite_api.c:640-713 | the request is then last in the queue of that machine, the first of its kind and name |
| ExositeProgress.ExecutionBounded | src/exosite_api.c:165-256 | in every run no queue exceeds its size, and there are no more machines than the limit |
| ExositeProgress.HeadGoesDown | src/exosite_api.c:1029-1036 | a poll of an activated device hands the head of the request queue down if the main machine has room and the request gets what it takes |
| ExositeProgress.SubscriptionsGoDown | src/exosite_api.c:1012-1024 | and it leaves every subscription under way if all that takes is given and machines are not limited |
| ExositePhases.InitTakesConfigured | src/exosite_api.c:944-953 | a configured CIK is taken exactly if it is forty letters or digits |
| ExositePhases.StartTakesStored | src/exosite_api.c:954-960 | otherwise a stored one of that form; without one an activation is prepared |
| ExositePhases.PrepareClearsIff | src/exosite_api.c:961-973 | a prepared activation sets every abort flag once ten seconds have passed since the last one, and does nothing before |
| ExositePhases.ActivateIsSentIff | src/exosite_api.c:975-994 | the activate request goes down exactly once no machine is aborting, the main machine has room and the request gets what it takes |
| ExositePhases.TimestampIsSentIff | src/exosite_api.c:937-941 | the request for the time goes down exactly if there is room and it gets what it takes |
| ExositePhases.WaitingPollsDoNothing | src/exosite_api.c:942-996 | a poll while an answer is awaited does nothing |
| ExositePhases.ActivateIsAnswered | src/exosite_api.c:885-920 | the answer to the activate request activates the device with the first forty characters of the payload exactly if it is a success and these are letters or digits; otherwise it starts again |
| ExositePhases.TimestampIsAnswered | src/exosite_api.c:800-823 | the answer to the request for the time leads on exactly if it is a success with a time that can be converted |
| ExositePhases.SubscriptionIsAnswered | src/exosite_api.c:1081-1111 | the answer to a subscription changes its item only: to be sent again without success or over HTTP, else acknowledged |
| ExositePhases.DeliverJoins | src/exosite_api.c:429-491 | the callbacks of a step run in order, each with its own response |
| ExositePhases.RequestIsTakenIff | src/exosite_api.c:607-627 | a read or write is taken exactly if there is memory and the queue is below its limit, and goes to its end as it was asked for |
| ExositePhases.SubscriptionIsTakenIff | src/exosite_api.c:572-592 | a subscription is taken exactly if there is memory and none with its alias; the others stay as they are |
| ExositeRequests.StepKeepsRequests | src/protocol_client_sm.c:640-677 | a step of one machine keeps lock, links and accounts of all of them |
| ExositeRequests.ActivateStepKeepsRequests | src/exosite_api.c:922-1045 | so does every step of activate_sm |
| ExositeRequests.ExecutionAccounts | src/exosite_api.c:633-746 | they hold in every state of every run of an exosite object |
| ExositeRequests.OneMachineConnects | src/protocol_client_sm.c:130-144 | of all machines of an exosite object at most one is in the middle of connecting |
| ExositeRequests.EveryRequestAccounted | src/exosite_api.c:715-742 | every request handed to any machine is in exactly one place there and is never called back after it has finished |
| ExositeRequests.ActivateStepDropsNone | src/exosite_api.c:961-973 | the activation machine drops nothing itself, and sets an abort flag only to re-activate |
| ExositeRequests.SideMachineDropsNone | src/protocol_client_sm.c:507-553 | clearing a long-poll or time-sync machine drops nothing |
| ExositeRequests.OnlyReactivationDrops | src/exosite_api.c:961-994 | with HTTP a request is dropped without a callback only while a re-activation drains the main machine, and is then no subscription, activate or timestamp request |
| ExositeApi.IsCikFormatValid | src/system_utils.c:60-78 | accepts exactly 40 alphanumerics |
| ExositeApi.Exosite.constructor | src/exosite_api.c:1183-1258 | a new object has no machines, requests or subscriptions |
| ExositeApi.Exosite.FindSm | src/exosite_api.c:258-278 | the loop over the list finds the first machine that answers; it terminates because long-poll machines have names |
| ExositeApi.Exosite.CreateNewSm | src/exosite_api.c:165-256 | appends a new machine, unless the limit is reached or an allocation fails |
| ExositeApi.Exosite.SelectMachine | src/exosite_api.c:640-713 | finds or creates the machine for a procedure |
| ExositeApi.Exosite.PushToMachine | src/exosite_api.c:715-745 | queues the request, or returns the error code with nothing queued |
| ExositeApi.Exosite.Push | src/exosite_api.c:633-746 | both together are one push of the model |
| ExositeApi.Exosite.ClearSms | src/exosite_api.c:971-972 | sets the abort flag of every machine and nothing else |
| ExositeApi.Exosite.AllSmsEmpty | src/exosite_api.c:982-988 | whether no machine is aborting any more |
| ExositeApi.Exosite.PushSubscriptions | src/exosite_api.c:1012-1024 | the pass over the subscribe map |
| ExositeApi.Exosite.PushRequest | src/exosite_api.c:1029-1036 | the hand-off of the head of the queue |
| ExositeApi.Exosite.ActivateSm | src/exosite_api.c:922-1045 | one call of activate_sm is one step of the model, in every state |
| ExositeApi.Exosite.OnActivated | src/exosite_api.c:885-920 | takes over the CIK and its state, and drops a pending re-activation with a valid one |
| ExositeApi.Exosite.OnSubscribed | src/exosite_api.c:1081-1111 | updates exactly the item of the alias |
| ExositeApi.Exosite.OnResponse | src/exosite_api.c:429-491 | dispatches the callback; the one of a read or write asks for re-activation if and only if its code is 401 or -104, and changes nothing else |
| ExositeApi.Exosite.PollMachine | src/exosite_api.c:429-491 | a machine task, and then the callbacks it hands out, is one step of the model |
| ExositeApi.Exosite.RequestQueuePush | src/exosite_api.c:607-627 | accepts the request at the end of the queue if there is room and memory |
| DictionaryModel.InsertedKeeps | src/lib/tdictionary.c:96-124 | inserting a new key keeps strict order and adds exactly that pair |
| DictionaryModel.AddAllIs | src/lib/tdictionary.c:156-159 | after any sequence of additions the keys ascend strictly and hold, for each key, the first addition for which there was memory |
| Dictionary.Insert | src/lib/tdictionary.c:96-124 | a duplicate or failed insertion leaves the tree as it was; otherwise one new node hangs where the path of the key ends, linked to its parent |
| Dictionary.GrowInserts | src/lib/tdictionary.c:111-121 | that place keeps the tree ordered and puts the key in front of the first larger one |
| Dictionary.FoundIff | src/lib/tdictionary.c:109-113 | the path of a key meets it exactly if the tree holds it |
| Dictionary.Lookup | src/lib/tdictionary.c:127-143 | returns the node of the key, and NULL exactly if there is none |
| Dictionary.GetBegin | src/lib/tdictionary.c:188-201 | the first node in order |
| Dictionary.Climb | src/lib/tdictionary.c:222-233 | one step of climbing: what follows a right child also follows its parent, a left child is followed by its parent |
| Dictionary.Successor | src/lib/tdictionary.c:215-234 | the next node in order is the first one to the right, or else what follows the subtree |
| Dictionary.Ascend | src/lib/tdictionary.c:222-233 | the climbing loop terminates at what follows the subtree |
| Dictionary.Descend | src/lib/tdictionary.c:217-220 | the other loop ends at the first node of the subtree |
| Dictionary.Iterate | src/lib/tdictionary.c:210-238 | returns the next node in order, NULL behind the last |
| Dictionary.Dict.constructor | src/lib/tdictionary.c:58-72 | a new dictionary is empty |
| Dictionary.Dict.Contents | src/lib/tdictionary.c:156-159 | the keys of a dictionary ascend strictly |
| Dictionary.Dict.Add | src/lib/tdictionary.c:156-159 | adds the pair in order, or leaves the dictionary as it was with ERR_DUPLICATE or for lack of memory |
| Dictionary.Dict.Find | src/lib/tdictionary.c:145-154 | the value of a key, none exactly if it was not added |
| Dictionary.Dict.Visit | src/lib/tdictionary.c:203-248 | iterating from the beginning terminates and visits every pair exactly once, in ascending order |
| SchedulerModel.PassIs | src/lib/pclb.c:202-211 | what a pass does to each callback, and which run |
| SchedulerModel.FollowIsTask | src/lib/pclb.c:180-211 | visiting the callbacks one after the other, each of which may register more, is a pass over those registered before, followed by the new ones |
| SchedulerModel.CounterIs | src/lib/pclb.c:204-208 | the counter of a callback is the time accounted for since its registration or last run |
| SchedulerModel.RunsWhenDue | src/lib/pclb.c:204-209 | it runs again in exactly the first pass with which that time exceeds its period |
| SchedulerModel.GapBounds | src/lib/pclb.c:204-209 | two successive runs are more than the period and at most the period plus the last pass apart |
| SchedulerModel.DueButWraps | src/lib/pclb.c:204-209 | for any period within 2^32 of the counter width there is a run in which a callback that is due does not run |
| SchedulerModel.CallAdvances | src/lib/pclb.c:194-213 | what one call accounts for, with what passes between its two readings of the clock, takes the noted time on to the next one |
| SchedulerModel.TimeIsAccounted | src/lib/pclb.c:194-213 | over all calls the time accounted for, with what passes between the two readings of the clock, is the time since the start: none is counted twice or halved |
| Scheduler.Pclb.constructor | src/lib/pclb.c:232-250 | nothing is registered at first |
| Scheduler.Pclb.RegisterClb | src/lib/pclb.c:66-111 | appends a callback with a cleared counter to the registrations, or changes nothing without memory |
| Scheduler.Pclb.FollowAll | src/lib/pclb.c:175-192 | the list of the pass becomes all registrations |
| Scheduler.Pclb.Visit | src/lib/pclb.c:203-211 | one item of the pass: it runs if due, may register more, and its counter is reset |
| Scheduler.Pclb.RunDue | src/lib/pclb.c:202-211 | the loop visits exactly those registered before the pass, in order, while callbacks register more |
| Scheduler.Pclb.ReadClock | src/lib/pclb.c:194-200 | the time a pass accounts for, and the time that is noted for the next one |
| Scheduler.Pclb.RunTask | src/lib/pclb.c:169-213 | one call of pclb_task is one pass of the model |
| ReplaceAll.ReplacedFirst | src/lib/string_class.c:172-191 | up to the first occurrence nothing changes; behind it replacement goes on, without rescanning |
| ReplaceAll.ReplacedIsJoined | src/lib/string_class.c:161-196 | replacing all occurrences is cutting the text at them and joining the pieces with the replacement |
| ReplaceAll.PiecesAreClean | src/lib/string_class.c:161-196 | no piece holds an occurrence |
| ReplaceAll.StrStr | src/lib/string_class.c:173-173 | the first occurrence behind a position, or none only if there is none |
| StringClass.Str.constructor | src/lib/string_class.c:52-89 | the text is the initial one, terminated, with 256 characters to spare |
| StringClass.Str.Const | src/lib/string_class.c:91-120 | a constant string of exactly that size |
| StringClass.Str.Reserve | src/lib/string_class.c:132-141 | reallocation keeps the text |
| StringClass.Str.Catcn | src/lib/string_class.c:122-149 | appends the chunk and keeps size, buffer size and terminator; the error code says exactly when it does not |
| StringClass.Str.ReplaceAt | src/lib/string_class.c:173-193 | one round: the occurrence replaced in a new buffer of the right size, terminated |
| StringClass.Str.ReplaceEach | src/lib/string_class.c:172-195 | the loop: all occurrences replaced if the allocations suffice; when they run out, as they must for an empty needle, the buffer is lost |
| StringClass.Str.Replace | src/lib/string_class.c:161-196 | string_replace is replace-all exactly when it returns success, which for a non-empty needle is when there is memory for each replacement |

## Left out

- PatternMatcher.MatchState.Match: patterns with `%f`, malformed patterns, back references to captures that are not finished, more than 20 captures, and `?` with a parenthesis behind it are excluded, because the code reads or writes outside its data for them; a `?` elsewhere is covered, but for what the next two lines say.
- PatternMatcher.MatchState.MatchCapture: when a back reference follows a `?` item that is tried at the end of the subject, the code compares memory behind the subject, as the unsigned difference of the two ends is then huge; here the attempt fails. Its result is dropped in either case, because the `?` item matched no character.
- PatternMatcher.MatchState.MatchBalance: likewise `%bxy` behind such a `?` item reads one character behind the terminator; here the attempt fails, and its result is dropped in either case.
- PatternFind.StrFind: position captures `()` are excluded, because the code asserts them away; without an explicit plain search a NUL in the pattern is excluded.
- HttpPayload.ParsePayload: the bound `max_size` of the buffer is its length; the characters are those of the C locale.
- ResponseDeadline.CalledBackInTime: for a synchronous protocol with a limit of one request that is not cleared, as with the shipped HTTP configuration, and for a clock that does not turn over while one request is under way.
- SchedulerModel.RunsWhenDue: no callback is unregistered; a callback does not poll the scheduler itself.
- StringClass.Str.Replace: for content without NUL, as its header demands; lengths are not bounded by the width of size_t. The number of allocations that succeed is finite: with an empty needle and an empty replacement each round of the code frees what it allocated, so it goes round for as long as allocations succeed, and for ever if they always do.
- Dictionary.Insert: what is written through the pointer to the root pointer is returned, and stored by the caller.
- Dictionary.Dict.Add: the node that is leaked when copying the key fails is not modelled.
- ExositeApi.Exosite.PollMachine: the callbacks of a step run behind it rather than inside it, in the same order; they touch nothing the machine reads.
- ExositeSafety.SentIffPending: for HTTP; subscriptions over CoAP stay open after a response, and how they are paired depends on the client.
- ExositeActivation.ActivateStepSound: exponential backoff between activations is not modelled, linear delay is; storing a CIK is not.
- User callbacks that call back into the object from inside a callback are separate moves of a run.
- The transfer queue, the request queue, the sent list, the list of machines and the subscribe map are sequences in the two machines; their links, and the locks of `src/lib/concurrent_queue.c`, are not modelled there.
- HttpHeader.ReadNumber: a `long` has 64 bits, and lengths fit `size_t`; the sign and the white space strtol would skip cannot occur in a run of digits.
- HttpHeader.Receive: there is memory for the two numbers (`HttpHeader.ParseHeader` covers the other case); what a failed call leaves in its out-parameters is modelled for the token only.
- ExositeResponses.ExecutionHasOneId: over CoAP ids are counted up, or given by the client; there the id of each push is an input.
- Building and sending requests (`http_send`), CoAP payloads and clients, sockets, TLS and DTLS clients: the rest of `src/protocol_clients/`.
- The copy of the CIK in each request, and the hand-over of payloads to user callbacks.
- Memory allocation itself, logging and assertions; an allocation succeeds or fails as an input says.
- `pclb_unregister`, `dictionary_remove`, `protocol_client_sm_delete` and `string_empty`, which are stubs or give up the invariants above.
- `src/configurator_server.c`, `src/rtc.c`, ring and packet buffers, fault injection.

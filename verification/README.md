# Verification of the network programs

A Dafny 4.11 project that models four programs of this repository and proves what they
deliver: the parallel UDP downloader (HW4), the TCP range downloader (HW3), the chat server's
directory and text protocol (pro), and the per-connection loop of the HTTP proxy (hw5).
`dafny verify dfyconfig.toml` checks everything.

## How it is built

* `Text`, `Bytes`, `HttpText`: the C conventions the programs rely on (`strtok`, `atol`,
  `%ld`, `%s`, `strcpy` stopping at a NUL, `fread`, `sscanf`, `strstr`).
* `Ranges`, `Combining`: cutting a file into ranges and joining the part files; both clients.
* `Lists`: the growing list (HW4 server list, both chat lists) and the fixed job list, as
  classes over arrays.
* `Packets`, `Receiving`: the HW4 commands, packet loop and receive loop.
* `Pool`: the HW4 worker threads as a step machine. One step is one locked section, one
  unlocked test of the done list, one packet or time-out, or one broadcast. A run is a
  schedule, that is any sequence of enabled (worker, time-out?) moves, so a statement about
  all schedules covers every interleaving and every pattern of server deaths. `Gathering`,
  `PoolInvariant`, `PoolTermination`, `PoolResults`, `PoolCompletion` and `PoolJoins` hold the
  proofs; `Downloading` is the same program on its real lists, one method per section, each shown to
  be the machine's step, with a scheduler that runs them to the end.
* `RangeServer`, `RangeClient`: HW3.
* `WaitingList`, `ChatProtocol`, `Directory`, `Handlers`, `ChatServing`: the chat server. A run
  of the directory is any sequence of sections; `Handlers` are the connection handlers that
  produce them from the texts they read, interleaved in any way, and `ChatServing` is one round
  of a handler on the real arrays.
* `Proxy`, `ProxyField`, `ProxyRuns`, `ProxyLog`: the proxy loop, the field it adds, and what it
  forwards and logs in all runs.

## What came out

* HW4 delivers the file in every run that records every job, exactly when the file has no NUL
  byte (`PoolResults.EndToEnd`). But a range whose length is one more than a multiple of 1024
  (a single byte included), or an empty range, is never flagged as finished by the server, so
  no run records it: `PoolCompletion.CompletableExactly` gives the exact condition on size and
  job count, and `PoolCompletion.NeverFinishing` two families of inputs that fail it. Its
  readme promises such downloads too; the model follows the code.
* HW4 workers never lose a wake-up and every run is finite. The joins of the client return in
  every run if and only if there are at least as many servers as workers
  (`PoolJoins.JoinsReturnExactly`); with fewer, some run drops every server and leaves a worker
  asleep (HW4/readme.md, potential problem 1, says that the client may get stuck).
* HW3 has no exceptional lengths. Its upload loop ends exactly for the requests of
  `RangeServer.EndsExactly`; a request that reaches further past the end of the file loops, for
  example 1025 bytes of an empty file. A connection that closes early is not noticed: the
  result is the file exactly when every connection brings enough records for its part
  (HW3/readme.md, potential problem 1).
* After the joins the HW4 client combines the temp files that are there, finished or not
  (`Downloading.Download`), as the source does.
* In no run of the chat server, whatever its handlers read, are two CONNECTs answered with the
  same entry (`Handlers.NeverAnsweredTwice`).
* The chat reply parser recovers colon-free names exactly when the first one is not empty, and
  misses the end of the reply exactly when the last colon arrives alone.
* The chat server's name list stays free of duplicates in a run exactly when no handler adds a
  name that another one added, and no QUIT removed, since its own test, which is outside the
  lock (`Handlers.NamesStayDistinct`); `Handlers.JoinRace` is a run in which that happens.
* The proxy sends every request of a connection to the first host it connected to
  (hw5/readme.md, potential problem 7): a request reaches the host it names exactly when none
  or that one is connected (`ProxyRuns.Forwarded`, `ProxyRuns.SecondHostIgnored`).
* When a request's last Host field has no value, the name of the next field becomes the host
  (`HttpText.HostIsLastValue`, `HttpText.NextNameIsHost`).
* The proxy looks for Content-Length in the whole first chunk of a response. Without such a
  field it logs the body's length exactly when the body has no NUL and its part in the first
  chunk does not look like the field, or looks like it and announces that very length
  (`ProxyLog.LoggedLength`; `ProxyLog.NulBodyLogged` and `ProxyLog.LengthBodyLogged` fail). A
  field that the end of the first read cuts announces its first digits
  (`ProxyLog.CutFieldLogged`).
* The proxy crashes exactly when the first chunk of a response has neither a Content-Length nor
  a blank line (`ProxyLog.CrashesExactly`), for example when the header section comes in two
  reads (`ProxyLog.SplitHeadCrashes`).

## Modelling choices

* A server's packets reach the HW4 client as a prefix of the stream, in order; a time-out
  means that no more packets come. All servers hold the same file. File names hold no space.
* HW4: `ret` counts as "not 1" before a first transfer (HW4/client.c:256 leaves it unset).
  Server addresses are distinct tokens, as heap pointers are. No spurious wake-ups. Results
  that need a worker per job require at most as many jobs as workers: the program has that
  for up to 100 jobs, and its join loop (HW4/client.c:90) is sound only then.
* HW3 and the proxy take each `write`, package or `read` as one record. A socket descriptor is
  positive or -1. HW3 threads share nothing, so they are run one after the other.
* Chat: a waiting entry has a serial number in place of its heap address. One `read` holds one
  command. LIST and the test of JOIN read the arrays without a lock, and each such scan counts
  as one step.
* Proxy: a name, host or value is what `sscanf` finds between white space, so "Host:" must be
  followed by some. Whatever is read counts up to its first NUL, as `strcat` and `strlen` do.
* Strings and numbers are unbounded; every number a program prints fits its C type.

## Model

| member | source | states |
|---|---|---|
| Text.AtolOfPrintLong | HW4/server.c:133-134 | reading back a printed number gives the number, negative ones included |
| Text.AtolReads | HW4/server.c:133-134 | any printed number is read behind white space and a plus sign and up to the first non-digit |
| Text.StrtokJoin | HW4/server.c:111-132 | strtok cuts a joined field off again and goes on behind the delimiter |
| Text.TokenIsField | pro/src/server.c:41-43 | any token strtok finds is non-empty and free of the delimiter, whatever the text |
| Text.StrtokCuts | HW4/server.c:111-134 | any text is delimiters, the token, one delimiter and the rest, or delimiters only |
| Bytes.CStringStops | HW4/server.c:69 | a "%s" or strcpy carries everything up to the first NUL |
| Packets.DownloadRoundTrip | HW4/client.c:348 | the server parses a printed DWN command to the same name, start and end, end -1 included |
| Packets.StartUpRoundTrip | HW4/client.c:161-182 | the handshake and the file query read back too |
| Packets.WireTexts | HW4/client.c:161-348 | what the three commands look like on the wire |
| Packets.OtherRequest | HW4/server.c:111-149 | a text with any other first word is no command |
| Packets.BrokenRequests | HW4/server.c:111-134 | the texts that break off before a field the server uses |
| Packets.Upload | HW4/server.c:52-73 | the packet loop sends exactly the packets of Stream |
| Packets.StreamShape | HW4/server.c:55-73 | for a range in the file only the last packet can be flagged, and it is flagged if and only if start < end and (end - start) mod 1024 is not 0; the number of packets |
| Packets.StreamPayload | HW4/server.c:55-73 | the contents are the whole range when flagged and the range without its last byte otherwise, if and only if those bytes have no NUL |
| Receiving.UdpDownloadFile | HW4/client.c:351-366 | return code and file content of the receive loop for any packets that arrive |
| Receiving.ReceivedExactly | HW4/client.c:351-366 | for any packets, in any order: the file gets what the download packets up to the first flagged one carry, and the result is 0; all of them and 1 when none is flagged |
| Receiving.TransferOutcome | HW4/client.c:335-367 | a transfer succeeds exactly when every packet came and the range can be flagged, and then stores the range exactly when it has no NUL |
| Receiving.PrefixPayload | HW4/client.c:356-358 | k packets carry exactly the bytes they cover |
| Ranges.Tiling | HW4/client.c:204-213 | the ranges lie in the file and each starts where the one before stopped |
| Ranges.PartsRebuildFile | HW4/client.c:199-217 | the ranges laid end to end are the file, for every size and part count |
| Combining.CombineFile | HW4/client.c:319-331 | the byte-wise copy loop writes the numbered files in order, and fails when one is missing |
| Combining.CombinedIs | HW4/client.c:305-333 | whatever the files hold, the result is the files 0 to k - 1 laid end to end, and none exactly when one is missing |
| Combining.CombinedExactly | HW4/client.c:305-333 | files no longer than their ranges combine to the whole if and only if each is its whole range |
| Lists.GrowingList.Add | HW4/mydatastructure.c:18-26 | appends, growing the array by 5 when it is full |
| Lists.GrowingList.Remove | HW4/mydatastructure.c:35-44 | removes the item at the index by shifting, and nothing for a bad index |
| Lists.GrowingList.Pop | pro/src/dynamicarray.c:46-51 | returns the item at the index and removes it |
| Lists.JobList.AddJobItem | HW4/mydatastructure.c:69-72 | appends into the fixed array; needs room |
| Lists.JobList.RemoveJobItem | HW4/mydatastructure.c:74-83 | removes the job at the index by shifting |
| Lists.JobList.PopJobItem | HW4/mydatastructure.c:99-104 | returns and removes the last job, or nothing |
| Pool.CreateJobsList | HW4/client.c:199-217 | the loop makes one job per range, in order |
| Pool.JobsAreCut | HW4/client.c:202-213 | job i has number i, starts at i times the chunk length, and is one chunk long, the last one long enough for the rest |
| PoolInvariant.StepInv | HW4/client.c:231-303 | every step keeps job and server conservation, wake-ups, the bound after a worker left, and what each temp file holds |
| PoolInvariant.RunInv | HW4/client.c:231-303 | every state of every run has the invariant, and the workers that timed out are the time-outs of the run |
| PoolInvariant.ReplyIsStream | HW4/client.c:348-349 | the printed command of a job makes the server send that job's stream |
| PoolResults.OnePlacePerJob | HW4/client.c:257-288 | each job is in exactly one of the chunk list, one worker's hands, the done list |
| PoolResults.RoomInLists | HW4/mydatastructure.c:69-72 | a worker about to add a job finds room in the list |
| PoolResults.OneWriterPerFile | HW4/client.c:335-345 | a temp file has at most one writer, and none while its job is listed |
| PoolResults.OnePlacePerServer | HW4/client.c:234-240 | each server is free, held by one worker, or dropped by one worker |
| PoolResults.NoSleeperForgotten | HW4/client.c:293-300 | while a worker sleeps and a server is free, some worker has yet to broadcast |
| PoolResults.DoneFile | HW4/client.c:276-280 | a recorded job had a range that can be flagged, and its temp file is that range exactly when it has no NUL |
| PoolResults.DoneStays | HW4/client.c:276-280 | a recorded job stays recorded in every later state |
| PoolResults.InFlightFile | HW4/client.c:351-363 | the temp file of a job in flight is exactly the bytes its packets cover, earlier attempts left no trace |
| PoolResults.EndToEnd | HW4/client.c:88-93 | once every job is recorded the combined text is the served file, if and only if the file has no NUL |
| PoolResults.LeaversLeaveLittle | HW4/client.c:257-288 | once a worker left without a time-out, the jobs in the chunk list are at most the time-outs so far |
| PoolResults.UnfinishedAtMostTimeOuts | HW4/client.c:88-92 | with a worker per job, the jobs unfinished when all workers exited are at most the time-outs |
| PoolResults.QuietRunDelivers | HW4/client.c:88-93 | a run without time-outs that goes on as long as it can records every job and delivers the file |
| PoolResults.CombineAfterExit | HW4/client.c:90-93 | after all workers exited, combinefile gives the file if and only if every job with a non-empty range was recorded and every empty one at least opened |
| PoolTermination.MeasureStep | HW4/client.c:234-303 | every step lowers a natural measure |
| PoolTermination.RunLength | HW4/client.c:234-303 | a run has at most a given number of steps, whatever the interleaving and the time-outs |
| PoolTermination.StuckExactly | HW4/client.c:234-303 | the states without a next step are those with all workers exited, or the rest asleep, no free server and every server dropped |
| PoolTermination.StuckRun | HW4/client.c:234-303 | in the second kind the time-outs are as many as the servers |
| PoolJoins.JoinsReturnExactly | HW4/client.c:86-92 | every run that can go no further has all workers exited, so the joins return, if and only if there are at least as many servers as workers |
| PoolJoins.StarvingRun | HW4/client.c:234-237 | with fewer servers: a run that drops every server and ends with a worker asleep for ever |
| PoolCompletion.CanFinishMeans | HW4/client.c:202-213 | the condition on size and job count is that every range can be flagged |
| PoolCompletion.CompletableExactly | HW4/client.c:257-288 | some run records every job if and only if the size and job count meet the condition |
| PoolCompletion.NeverFinishing | HW4/server.c:55-64 | no run finishes 1025 bytes in one job, or one byte per job |
| Downloading.Downloader.TakeServer | HW4/client.c:234-240 | the section on the real list is the machine's step |
| Downloading.Downloader.TestDone | HW4/client.c:257 | the unlocked test is the machine's step |
| Downloading.Downloader.TakeJob | HW4/client.c:259-271 | the section on the real list is the machine's step |
| Downloading.Downloader.Transfer | HW4/client.c:339-363 | opening, one packet, or a time-out is the machine's step |
| Downloading.Downloader.RecordJob | HW4/client.c:278-280 | the section on the real list is the machine's step, and the store is in bounds |
| Downloading.Downloader.PutJobBack | HW4/client.c:283-286 | the section on the real list is the machine's step, and the store is in bounds |
| Downloading.Downloader.ReleaseServer | HW4/client.c:296-298 | the section on the real list is the machine's step |
| Downloading.Downloader.Broadcast | HW4/client.c:299 | wakes every sleeper and exits |
| Downloading.Downloader.Run | HW4/client.c:219-229 | under any scheduler the workers reach a state where none can move, along a run of the machine |
| Downloading.Download | HW4/client.c:86-93 | with at least as many servers as workers the joins always return; they fail to only after every server timed out. After them the target is the temp files laid end to end, finished or not, and none exactly when one is missing; the unfinished jobs are the jobs not recorded, at most the time-outs; with none the target is the file exactly when it has no NUL |
| RangeServer.ServerUploadFile | HW3/mysocket.c:88-109 | the upload loop ends and writes exactly the packages of Packages |
| RangeServer.EndsExactly | HW3/mysocket.c:94-103 | the loop ends if and only if the end is at most 1023 past the start or the file's length, whichever is larger |
| RangeServer.RoundsExactly | HW3/mysocket.c:94-109 | for every request on which the loop ends, it is over after k rounds exactly when k is at least the number of packages less one: one goes out per round and one behind the loop |
| RangeServer.EmptyFileLoops | HW3/mysocket.c:94-103 | asked for 1025 bytes of an empty file, the loop never gets past its first read |
| RangeServer.RangeShape | HW3/mysocket.c:94-109 | exactly the last package is flagged, every other holds 1023 bytes, and the number of packages and the last length are as computed from the request |
| RangeServer.LastIsFull | HW3/mysocket.c:104-108 | the last package holds at most 1024 bytes, and 1024 exactly when end - start is a positive multiple of 1023 |
| RangeServer.RangePayload | HW3/mysocket.c:94-109 | the contents are the range, for every length, if and only if it has no NUL |
| RangeServer.AnyRangePayload | HW3/mysocket.c:94-109 | for any ending request, past the end of the file too, the contents are what the file holds of the range, if and only if that has no NUL |
| RangeServer.DownloadSinglePart | HW3/client.c:182-188 | what the read loop stores for any records |
| RangeServer.CollectedExactly | HW3/client.c:170-191 | for any records: the part file gets what the download records up to the first flagged one carry, or all of them |
| RangeServer.CutPrefix | HW3/client.c:170-191 | of a range without a NUL, a connection that closes after k records too early leaves exactly its first 1023 k bytes |
| RangeServer.PartOutcome | HW3/client.c:170-191 | when the connection closes after k records, the part file is the range if and only if it has no NUL and k records suffice for it, that is all of them unless the range is empty |
| RangeClient.BuildSockets | HW3/client.c:64-79 | the socket array is the attempts made followed by zeros, and valid_conn counts the positive ones |
| RangeClient.AssignParts | HW3/client.c:244-263 | entry i has number i, the descriptor sockets[i], and, unless that is negative, the part counted so far with its range |
| RangeClient.PartAssignment | HW3/client.c:241-263 | every entry has its own number and descriptor; a positive socket gets the part numbered by the positive sockets before it, with the tiling range; zeros of the tail get parts beyond all of these |
| RangeClient.SocketOfPart | HW3/client.c:241-263 | every part from 0 to threadsnum - 1 is given to some positive socket |
| RangeClient.PartsInOrder | HW3/client.c:241-263 | later positive sockets get later parts, so no part is given twice |
| RangeClient.DownloadParts | HW3/client.c:230-272 | after the joins every part file is there and is its range exactly when that has no NUL and the connection on its own descriptor brought enough records |
| RangeClient.DownloadFile | HW3/client.c:64-110 | for every list of connection outcomes with a live one, and every number of records each descriptor brings before it closes, the result is the file if and only if it has no NUL and every descriptor brings enough for its part |
| WaitingList.PrintList | pro/src/dynamicarray.c:64-85 | the text is the list text of the names, and the size reported is its length |
| WaitingList.PrintWaitingList | pro/src/client_util.c:51-67 | the scan prints the names of PrintedFrom |
| WaitingList.ListRoundTrip | pro/src/client_util.c:51-67 | for colon-free names the printed names are those listed, in order, if and only if the first is not empty |
| WaitingList.ProcessWaitingList | pro/src/client_util.c:69-101 | the read loop stops, shows or reads on as ProcessFrom says, for any chunks |
| WaitingList.ChunkedReply | pro/src/client_util.c:77-96 | under any chunking the reader never stops before the last chunk, and stops there with the whole list exactly when that chunk has two characters or more |
| ChatProtocol.CommandRoundTrip | pro/src/myprotocol.c:7-61 | every command the client prints parses back to itself, and the length reported counts the NUL |
| ChatProtocol.WireTexts | pro/src/myprotocol.c:7-61 | what the commands and the CONNECT reply look like on the wire |
| ChatProtocol.OtherCommand | pro/src/server.c:41-116 | a text with any other first word is no command |
| ChatProtocol.BrokenCommands | pro/src/server.c:41-105 | the texts that break off before a field the server uses |
| ChatProtocol.ParsedNames | pro/src/server.c:41-104 | every name of a parsed command is non-empty and colon-free, whatever the text |
| ChatProtocol.ConnectReply | pro/src/client.c:139-152 | the connecting client reads back the name, address and port of the entry found |
| ChatProtocol.BrokenReply | pro/src/client.c:139-152 | a reply that breaks off behind the name or the address is no peer |
| Directory.EntriesConserved | pro/src/server.c:57-110 | every entry made is waiting, handed out, or removed |
| Directory.OneFate | pro/src/server.c:57-110 | in any interleaving each entry has exactly one of the three fates |
| Directory.NeverHandedTwice | pro/src/server.c:70-84 | no entry is given to two connectors |
| Directory.OldestIsHanded | pro/src/server.c:73-77 | CONNECT gets the entry of that name that has waited longest, and none only if there is none |
| Directory.CommandEffect | pro/src/server.c:41-116 | for each command, in terms of the lists: JOIN adds the name or is rejected and closes, WAIT appends an entry, CONNECT, LEAVEWAIT and QUIT take out the longest-waiting entry of the name with the others in order, QUIT one copy of the name as well; with the texts replied |
| Directory.JoinAnswer | pro/src/client_util.c:33-49 | the client reads success exactly when the name was not listed, and the connection ends exactly otherwise |
| Handlers.TraceLeadsThere | pro/src/server.c:37-118 | what handlers that read any texts do to the lists, however they interleave, is one of the section sequences of Directory |
| Handlers.RoundAlone | pro/src/server.c:40-117 | a command that no other handler interrupts has the effect, the reply and the closing of CommandEffect |
| Handlers.ConnectServed | pro/src/server.c:70-84 | whatever other handlers did since it was read, CONNECT takes out the longest-waiting entry of the peer and replies with its fields, or changes nothing and replies "c::" |
| Handlers.AnswerHandsOver | pro/src/server.c:73-79 | in every run, a CONNECT answered with anything but "c::" takes the entry it is answered with out of the list |
| Handlers.GoneForGood | pro/src/server.c:57-110 | in every run, an entry that left the list is never in it again |
| Handlers.NeverAnsweredTwice | pro/src/server.c:70-84 | in no run are two CONNECTs answered with the same entry |
| Handlers.LeaveWaitServed | pro/src/server.c:103-111 | LEAVEWAIT takes out the longest-waiting entry of the name, whatever other handlers did, and is not answered |
| Handlers.QuitServed | pro/src/server.c:57-64 | the first half of QUIT takes out the longest-waiting entry of the name; nothing more is read |
| Handlers.QuitEnds | pro/src/server.c:65-69 | the second half takes out the last copy of the name, and the connection ends |
| Handlers.WaitServed | pro/src/server.c:85-98 | WAIT appends an entry with the name, the port and the address the server sees |
| Handlers.JoinServed | pro/src/server.c:42-56 | JOIN, with anything in between: a name listed at the test reads as a conflict and the connection ends, any other is added and reads as success |
| Handlers.AnsweredAtOnce | pro/src/server.c:99-116 | LIST and unknown commands are answered at once and change nothing |
| Handlers.NamesStayDistinct | pro/src/server.c:42-69 | the names are distinct throughout a run if and only if no handler adds a name that another one added, and no QUIT removed, since its own test |
| Handlers.NamesAreJoined | pro/src/server.c:42-69 | as long as that does not happen, a name is listed once if the last JOIN or QUIT section about it was a JOIN, and not at all otherwise |
| Handlers.JoinRace | pro/src/server.c:44-54 | a run from the empty lists: two handlers both pass the unlocked test and both add the name, and after one QUIT it is still taken |
| Handlers.ListReadsBack | pro/src/server.c:99-102 | whatever texts the clients sent, a LIST reply prints as the waiting names in order |
| Handlers.ListReplyInChunks | pro/src/server.c:99-102 | cut anywhere, the LIST reply is shown whole, reported as empty, or, when its last colon comes alone, awaited further |
| Handlers.ConnectReadsBack | pro/src/server.c:70-84 | whatever texts the clients sent, a CONNECT reply reads back as the longest-waiting entry of the name, or unavailable |
| Directory.ConnectReachesWaiter | pro/src/server.c:70-98 | from a WAIT text through other handlers' sections to a CONNECT text, the connector gets the waiter's name, address and port |
| ChatServing.FindItem | pro/src/dynamicarray.c:53-62 | the index of the first entry with the name, or -1 |
| ChatServing.RemoveNameItem | pro/src/dynamicarray.c:117-132 | removes the last entry equal to the name |
| ChatServing.Server.CommandResponse | pro/src/server.c:41-116 | one round has on the arrays the effect of CommandEffect, with its reply, and closes exactly after a rejected JOIN or a QUIT |
| HttpText.ScanFindsLastHost | hw5/proxy.c:151-166 | for any fields with names, the scan at each carriage return yields the host of HostOf, and whether a field asks to keep alive |
| HttpText.HostIsLastValue | hw5/proxy.c:156-160 | the host is the value of the last Host field if and only if that has a value; otherwise it is the name of the next field, or empty |
| HttpText.NextNameIsHost | hw5/proxy.c:156-160 | "Host:" before "X: y" makes "X:" the host |
| HttpText.KeepsAliveAt | hw5/proxy.c:161-163 | a request below HTTP/1.1 asks to keep the connection exactly when some Proxy-Connection field has the value Keep-Alive |
| HttpText.KeepAliveField | hw5/proxy.c:161 | "Proxy-Connection: Keep-Alive" is such a field |
| HttpText.LineWords | hw5/proxy.c:134 | the first and the third word of a request: those of its first line, and the fields' words for words that it lacks |
| HttpText.ScanWordCuts | hw5/proxy.c:134 | any text is white space, the word, and a rest that starts with white space, or white space only |
| HttpText.LengthIsFirstValue | hw5/proxy.c:243-256 | with a Content-Length field the scan yields the value of the first one if and only if that has a value; otherwise it is the next field's name, the next word behind the fields, or a word read before |
| HttpText.FoundInBody | hw5/proxy.c:243-256 | without one the scan goes on in the body, with the word it carries over, and finds nothing if and only if no line of the body looks like the field |
| HttpText.BlankEndsRequest | hw5/proxy.c:115 | a request's only blank line is its end |
| Proxy.RelayResponse | hw5/proxy.c:232-273 | the response loop gives the code, length, log and chunks of RelayAll, for any chunks, failures and crashes |
| Proxy.HandleRequest | hw5/proxy.c:117-281 | one complete request changes the connection as OnRequest says |
| Proxy.ThreadProxy | hw5/proxy.c:74-287 | the whole loop is RunFrom on the texts read, whatever the responses |
| ProxyRuns.RunIsRequests | hw5/proxy.c:112-117 | over every run, a connection is the same as its complete requests one by one, however they are cut into reads |
| ProxyRuns.NulCutsRead | hw5/proxy.c:113 | of each read, what stands behind its first NUL is lost |
| ProxyRuns.OnlyAcceptableForwarded | hw5/proxy.c:134-229 | over every run, the texts written to the host are those of requests that were read, in order, each once, with the field added, and none of a refused request |
| ProxyRuns.OneHostPerConnection | hw5/proxy.c:190-229 | over every run, all texts go to one host, which is not a forbidden site |
| ProxyRuns.ForwardAddsField | hw5/proxy.c:196-223 | the text sent is the request with its fields unchanged and the Forwarded field added; it is well-formed again and its only blank line is its end; the field gives the client for "for" and the proxy for "by" |
| ProxyField.FieldReads | hw5/proxy.c:196 | cut at ";" and "=" the added field, named Forwarded, gives the client's address for "for", http for "proto" and the proxy's address for "by" |
| ProxyField.FieldIsAdded | hw5/proxy.c:196 | and it is one line |
| ProxyRuns.VerdictIsRefusal | hw5/proxy.c:134-203 | from the lines of a request alone: 501 exactly for a method other than GET and HEAD, 403 exactly for a forbidden host in a request with a known method and version, none exactly when the host may be asked, and 400 for the rest |
| ProxyRuns.Refused | hw5/proxy.c:134-203 | a refused request is logged once with the printed code, "501", "403" or "400", and length 0, answered with an error page and not forwarded; only a 403 closes |
| ProxyRuns.Forwarded | hw5/proxy.c:190-229 | any other request goes, with the field for client and proxy added, to the host of the connection, which is the one it names if and only if none or that one was connected |
| ProxyRuns.UnwrittenCloses | hw5/proxy.c:225-229 | when the write to the host fails, the connection ends without an answer or a log line |
| ProxyRuns.ForwardedExactly | hw5/proxy.c:112-229 | over every connection of well-formed requests, each cut anywhere: what is written to the host is exactly the accepted requests, in order, with the field for client and proxy added |
| ProxyRuns.CutsAreRequests | hw5/proxy.c:112-117 | requests cut anywhere are put together again, whole and once |
| ProxyRuns.SecondHostIgnored | hw5/proxy.c:190-221 | of two requests for different hosts on one connection the second goes to the first host |
| ProxyRuns.RelayOutcome | hw5/proxy.c:236-276 | the program crashes if and only if the first chunk has neither a Content-Length nor a blank line, and otherwise the response fails if and only if a write to the browser does |
| ProxyRuns.RelaySends | hw5/proxy.c:266-272 | the browser gets the chunks up to the first failing write, and all of them exactly when none fails |
| ProxyRuns.ResponseRelayed | hw5/proxy.c:236-281 | unless that crash happens, the browser gets the chunks of the response up to the first failing write; the connection stays open exactly when none fails and the request has HTTP/1.1 or a keep-alive field; in a crash nothing is sent or logged |
| ProxyLog.CrashesExactly | hw5/proxy.c:260 | over every run, the program crashes if and only if the first chunk of some response is of that kind |
| ProxyLog.OneLinePerRequest | hw5/proxy.c:112-282 | over every run without failing writes, one log line per complete request, except the one it crashes on |
| ProxyLog.LoggedLength | hw5/proxy.c:243-276 | without a Content-Length field, for every chunking with the header section in the first chunk, one line is logged, and its length is the body's if and only if the body is quiet in that chunk and has no NUL, or is not quiet and announces just that length |
| ProxyLog.NulBodyLogged | hw5/proxy.c:260-264 | of a five-character body with a NUL in third place, 2 is logged |
| ProxyLog.LengthBodyLogged | hw5/proxy.c:249-258 | for the seventeen-character body "Content-Length: 7", 7 is logged |
| ProxyLog.AnnouncedLength | hw5/proxy.c:249-258 | with a Content-Length field in the first chunk, wherever the header section ends, the number at the first one is logged once, even if the browser goes away; a field without a value has the word instead |
| ProxyLog.AnnouncedLine | hw5/proxy.c:249-258 | the same for anything in the first chunk that scans as the field |
| ProxyLog.CutFieldLogged | hw5/proxy.c:249-258 | a Content-Length cut behind its digit 1 by the end of the first read is logged as 1 |
| ProxyLog.SplitHeadCrashes | hw5/proxy.c:260 | a header section in two reads, without a Content-Length in the first: the program crashes and logs nothing |
| ProxyLog.LoggedExactly | hw5/proxy.c:112-282 | over every connection of well-formed requests, each cut anywhere, and of responses that are empty or have the header section in the first chunk: the log is exactly the lines given by the requests' and responses' own lines, in order, "501", "403" and "400" for the refused; an empty response is logged with the status code left from before |

## Left out

- Packets.Upload: a read takes what is in the file; failing to open the file ends the server thread and is not modelled.
- RangeServer.ServerUploadFile: requires start at least 0 and at most end + 1, which the client's ranges meet; a larger start makes the last read size negative.
- PoolResults.UnfinishedAtMostTimeOuts: needs a worker per job; with more than 100 jobs the program has only 100 workers and joins threads that do not exist.
- PoolResults.CombineAfterExit: for a NUL-free file and no temp files of earlier runs; a left-over temp file of a job nobody opened would be joined as it is.
- Downloading.Downloader.Run: the scheduler lets one section run at a time, which is what the locks give; memory effects of unlocked reads beyond the one test of the done list are not modelled.
- Handlers.TraceLeadsThere: a text that lacks a token is never received, because the program then uses a null pointer and ends.
- ChatServing.Server.CommandResponse: requires that no token is missing, because the program then uses a null pointer.
- WaitingList.PrintWaitingList: requires a non-empty text, because the unsigned loop bound wraps for an empty one.
- Proxy.ThreadProxy: creating and connecting the remote socket always works, since a failure ends the whole program.
- ProxyLog.LoggedLength: for responses whose header section lies in the first chunk; for a longer one the first chunk has no blank line, and AnnouncedLine and RelayOutcome say what happens.
- ProxyLog.LoggedExactly: for connections whose responses, when not empty, have their header sections in the first chunk; otherwise AnnouncedLine and RelayOutcome say what happens.
- ProxyRuns.Refused: which error page is sent, with its code and version, but not the text of that page.
- ProxyField.FieldReads: for addresses without white space, ';', '=' and NUL, as printed Internet addresses are.
- ProxyRuns.ForwardedExactly: each request ends a read at its blank line; what a read holds behind it counts as part of the request, as in RunIsRequests, which covers that too.
- Sockets, select, address lookup, time-out values, readline, printing and log time stamps: input and output of the system.
- C memory: malloc and free, buffer sizes and missing terminators (the 1024-byte payloads, names, hosts and the 2048-byte request buffer, and the zero padding of fixed-size writes).
- UDP loss in the middle of a stream, reordering and duplicates: the protocol ignores its sequence number.
- The start-up of the HW4 client (handshake and file query) and the reading of server lists: the models begin with the servers that answered and a known size.
- The chat client's modes, signal handler and detached threads: unlocked races on its state.
- hw1, hw2, the Python scripts, util.c and hw5/dynamicarray.c: thin.

# Asterism Node: verified models

A Dafny model of the parts of the Asterism Node whose guarantees hold over whole
runs or over every input: who gets which loopback port, when a restarted service
counts as converged, how a remote command is executed at most once, how a
credential is replaced by renames that a power cut may separate, which turns go
into a conversation's history, how the credential registry is brought into
agreement with the shared pool, how a journal is streamed while it grows, and
three parsers and rewriters with inverses.

Each module states what its operations must achieve in terms that do not mention
the loop or the bookkeeping (looks at a service, retry links between records, the
files in a home, the table of projects), and proves that the operations achieve
it. Loops and in-place updates of the source are methods and classes here.
Protocols whose interest is interleaving or interruption are state machines over
single reads and writes; the source's own method is then proved to be a run of
the machine, so that every theorem about runs covers it.

| file | models |
|---|---|
| Convergence.dfy | src/convergence.rs |
| CredentialSwap.dfy | src/credential_swap.rs |
| AttemptChains.dfy, ChatHistory.dfy, Sessions.dfy, Sorting.dfy | src/chathistory.rs |
| Credentials.dfy, PoolListing.dfy | src/credentials.rs |
| Control.dfy | src/control.rs, with the tables of src/remote.rs |
| Inventory.dfy, Endpoints.dfy | src/inventory.rs |
| SseStream.dfy | src/api.rs |
| ChunkedBody.dfy | src/client.rs |
| Approvals.dfy | src/approvals.rs |
| Text.dfy, Sequences.dfy, Options.dfy | shared text, sequence and option helpers |

`dafny verify dfyconfig.toml` checks the whole project.

## Model

| member | source | states |
|---|---|---|
| Convergence.Converge | src/convergence.rs:334-408 | the answer is the one `Report` calls for: given at the first round at which all targets have settled or the deadline, counted from the start read before the loop, has passed; on success every target in order with the pid of its first settling window, all of whose looks are active, on the expected executable, and of one pid, device and inode; on failure exactly the targets without a window, each with the first thing wrong in its last look, or that it kept changing |
| Convergence.LookAtAll | src/convergence.rs:356-378 | after a round each watch records the first settling window, or the start of the longest steady stretch and the last look; "all done" is "all settled" |
| Convergence.StepTracks | src/convergence.rs:361-375 | one look keeps that record true: done exactly when a window of equal pid, device and inode closes |
| Convergence.ReportConverged | src/convergence.rs:378-387 | the success list is a correct report |
| Convergence.ReportFailed | src/convergence.rs:388-405 | the failure list is a correct report |
| Convergence.ReportIsUnique | src/convergence.rs:331-339 | a script of looks allows one round and one answer |
| Convergence.FailedAreTheUnsettled | src/convergence.rs:389-404 | the failure list is, in target order and both ways, the targets with no settling window |
| Convergence.HorizonExists | src/convergence.rs:388-407 | with a positive interval the deadline is reached, so the loop ends |
| Convergence.AnsweredInTime | src/convergence.rs:388-407 | the answer comes less than one interval after the deadline |
| Convergence.SteadyTargetIsNotFailed | src/convergence.rs:362-368 | a target steady from a look at `s`, with `s + settle` within the deadline, is never reported as a failure |
| CredentialSwap.CredentialHome.SwapIn | src/credential_swap.rs:169-192 | refused exactly without a plain staged store or with a rollback store waiting, and then nothing moves; done exactly when enough renames reached the disk, and exactly when the staged store is live and the live one set aside; otherwise what each prefix leaves |
| CredentialSwap.CredentialHome.RollBack | src/credential_swap.rs:195-212 | done exactly when the rollback store is live again and none is left; otherwise what each prefix of the removal and rename leaves |
| CredentialSwap.CredentialHome.Accept | src/credential_swap.rs:219-228 | done exactly when no rollback store is left; nothing else changes, and repeating it is harmless |
| CredentialSwap.CredentialHome.ReadState | src/credential_swap.rs:149-160 | the shape of a home |
| CredentialSwap.EveryRunIsSound | src/credential_swap.rs:131-228 | over any number of generations with every operation cut off anywhere: Swapped means live is the incoming store and rollback the accepted one, Interrupted means rollback is the accepted one, Settled means live is; a home that once held a store never loses the accepted one |
| CredentialSwap.EveryHomeIsSound | src/credential_swap.rs:131-228 | that holds of every home from its beginning, whatever is staged and live there |
| CredentialSwap.OnlyAcceptReplaces | src/credential_swap.rs:214-228 | over any run without an acceptance, what is accepted stays the same |
| CredentialSwap.AcceptedIsRecoverable | src/credential_swap.rs:194-212 | after any run, rolling back makes the accepted store the live one again |
| CredentialSwap.AcceptIsSafeIff | src/control.rs:1848-1862 | accepting keeps a recoverable store if and only if the home is not Interrupted, which is the caller's discipline |
| CredentialSwap.RollBacksRestore | src/credential_swap.rs:195-212 | roll backs, cut off any number of times, never lose what they restore and are complete exactly when enough file operations reached the disk |
| CredentialSwap.SwapThenRollBackIsIdentity | src/credential_swap.rs:194-212 | a swap cut off anywhere and rolled back leaves the home exactly as it was, if and only if enough file operations reached the disk |
| CredentialSwap.SwapInConserves | src/credential_swap.rs:162-192 | wherever a swap stops, each material is in as many places as before; nothing changes in the Swapped and Interrupted shapes |
| AttemptChains.AttemptChain | src/chathistory.rs:174-189 | terminates, and returns `ChainOf`: exactly the root and its transitive retries, each once, ordered by creation time and among equals by when they were found, even beside retry cycles |
| AttemptChains.ChainHoldsAttempts | src/chathistory.rs:174-189 | `ChainOf` holds exactly the attempts that the retry links give |
| AttemptChains.SearchFinishes | src/chathistory.rs:176-185 | the search comes to its end, reaches every retry and stays inside every set closed under retries |
| AttemptChains.Search | src/chathistory.rs:175-185 | the loop with its stack finds the records `Discovered` names, in that order |
| AttemptChains.PushRetries | src/chathistory.rs:178-184 | one popped id pushes its retries, in record order, onto both the chain and the frontier |
| AttemptChains.RetriesInElements | src/chathistory.rs:179-183 | those are exactly the records that retry the id, each once |
| AttemptChains.RootRuns | src/chathistory.rs:175-175 | exactly the records with the root's id |
| Sorting.SortBySorts | src/chathistory.rs:187-187 | sorting orders by key and keeps exactly the elements |
| Sorting.SortByIsStable | src/chathistory.rs:187-187 | elements with equal keys keep their order |
| Sorting.SortedIsUnique | src/chathistory.rs:91-91 | with distinct keys a sorted sequence is determined by its elements |
| ChatHistory.LatestCompletedAnswer | src/chathistory.rs:192-202 | the last attempt's with output, in chain order: one is returned if and only if some attempt completed with output, and it is a newest such attempt's |
| ChatHistory.CollectTurns | src/chathistory.rs:134-171 | one turn per root of the session that has a message and an answer, never the current run, in record order |
| ChatHistory.Truncate | src/chathistory.rs:93-125 | keeps the longest suffix within both limits (or nothing), counts what it omits, and sends whole pairs |
| ChatHistory.MessagesArePairs | src/chathistory.rs:108-118 | kept turns become whole user and assistant messages, in place |
| ChatHistory.TruncationIsUnique | src/chathistory.rs:93-107 | the limits determine the result |
| ChatHistory.Build | src/chathistory.rs:84-125 | the result is `HistoryOf` the records, ties included, and is a history of the session as the records alone call for it; every pair of messages is the message of a root of the session other than the current run, and the output of an attempt at it that completed |
| ChatHistory.HistoryIsUnique | src/chathistory.rs:79-91 | with distinct creation times the records alone call for one history, whatever order they come in |
| ChatHistory.BuildIgnoresOrder | src/chathistory.rs:79-91 | with distinct creation times, records in any order give the same history |
| Sessions.OtherSessionsContributeNothing | src/chathistory.rs:134-158 | with every root's attempts in its own session, deleting all other sessions leaves the very same history, also when creation times are equal |
| Sessions.ChainSurvivesDeletion | src/chathistory.rs:174-189 | a root whose attempts are all in the session has the very same chain without the other sessions |
| Sessions.DeletionIsHarmlessIff | src/chathistory.rs:84-171 | with distinct creation times, deleting the other sessions leaves every history, under all limits and sizes, as it was if and only if for each question of the session the newest answering attempt is reached by retries inside the session, or the newest one so reached has the same output |
| Sessions.HistoriesTellAnswers | src/chathistory.rs:84-171 | without any assumption on times, all histories are the same without the other sessions if and only if each question keeps its answer |
| Sessions.AnswerSurvivesIff | src/chathistory.rs:158-202 | the same condition, question by question |
| Sessions.CarriedSessionsAreEnough | src/chathistory.rs:141-158 | retries that carry the session of the run they retry keep every root's attempts in its session |
| Sessions.AttemptsSurviveDeletionIff | src/chathistory.rs:174-185 | a root's attempts survive deleting the other sessions if and only if none of them is in another session |
| Sessions.ForeignRetryLeaks | src/chathistory.rs:158-161 | for every unanswered question whose retry was recorded and answered in another session, that answer enters, and the turn is gone without the other session |
| Sessions.ForeignRetryChangesHistory | src/chathistory.rs:158-161 | for every such pair some history differs |
| Sessions.ForeignRetryExists | src/chathistory.rs:158-161 | such a pair of records |
| Credentials.Registry.Reconcile | src/credentials.rs:417-511 | the in-place repair is `Reconciled` of the old rows, and the flag is true if and only if the registry changed |
| Credentials.Registry.AdmitPool | src/credentials.rs:424-476 | the first pass, entry by entry, stopping at the cap |
| Credentials.Registry.FindWaiting | src/credentials.rs:439-448 | the first row waiting on a login under this label |
| Credentials.Registry.IsTracked | src/credentials.rs:425-432 | whether a pooled row of the provider already holds the entry |
| Credentials.ReconcileIsIdempotent | src/credentials.rs:400-511 | a second reconcile at any later time changes nothing, also after stopping at the cap |
| Credentials.ReconcileFrame | src/credentials.rs:415-511 | isolated rows and other providers' rows are untouched, entries once set stay, rows keep their place, and the length is at most the larger of 16 and what it was |
| Credentials.EveryRowAfter | src/credentials.rs:417-511 | what becomes of every row: with an entry it is authorized while the pool has the entry, and required if it was authorized and the pool has it no more; without one it is given an entry only as the first login that waits under that label, when no row held it |
| Credentials.EveryAddedRow | src/credentials.rs:457-476 | a row is added only for a pool entry that no row held and no login waited for, and every field of it |
| Credentials.WaitingLoginIsBound | src/credentials.rs:434-456 | the first login that waits under an entry no row holds is given it, and no row is added for it, unless the pass stopped at an earlier entry because the registry was full |
| Credentials.PoolOrderDecides | src/credentials.rs:424-459 | rows are added in pool order, and after an entry that found no room no later entry gets a row |
| Credentials.ReconcileKeepsEntriesDistinct | src/credentials.rs:424-476 | no two pooled rows of a provider come to share an entry |
| Credentials.AuthorizedIffInPool | src/credentials.rs:478-508 | afterwards a pooled row is authorized if and only if the pool holds its entry |
| Credentials.EveryEntryIsTracked | src/credentials.rs:404-476 | every pool entry has a row afterwards, unless the registry is full |
| PoolListing.ParsePoolListing | src/credentials.rs:247-280 | the loop yields the entries of the lines that parse, in order |
| PoolListing.FindKind | src/credentials.rs:261-269 | the last field from the third on that names a kind |
| PoolListing.ParseUndoesListing | src/credentials.rs:224-280 | every listing is read back exactly: ids with spaces and kind words whole, any spacing, headings ignored |
| PoolListing.ParsedAreUsable | src/credentials.rs:271-290 | whatever the text, every entry read has an id of 1 to 64 bytes without control characters and one of the three kinds |
| PoolListing.ParseLineIff | src/credentials.rs:249-279 | a line gives an entry exactly when it is a number sign, a number, the words of such an id, and the last field that names a kind; every other line is skipped |
| PoolListing.ByteLengthBounds | src/credentials.rs:288-290 | a length in bytes is one per ASCII character and never less than one nor more than four per character |
| Control.ExecutedAtMostOnce | src/control.rs:941-1073 | in every run with redelivery, lost sessions, storage failures and crashes, an id is executed at most once and only with its recorded fingerprint |
| Control.ReusedIdNeverExecutes | src/control.rs:990-1002 | once an id is recorded, the same id with another fingerprint is never executed |
| Control.LeftForGood | src/remote.rs:237-252 | a recorded command the handler let go of is never run again and its record never changes |
| Control.OneOutcome | src/control.rs:1003-1064 | once a record is terminal, every answer queued or sent for the id, earlier or later, is that outcome |
| Control.AnswersReflectOutcomes | src/control.rs:1037-1054 | in every run each record, queued answer and sent answer is completed exactly with a success, failed exactly with an error, and otherwise has no outcome |
| Control.AcknowledgedMeansDelivered | src/control.rs:871-878 | an answer stops being resent only after that very answer was confirmed, although acknowledgement is by id |
| Control.AdmittedOnlyWithRoom | src/control.rs:969-988 | commands are recorded only while the outbox has room, and the room is still there when the result is queued |
| Control.OutboxStaysBounded | src/remote.rs:264-287 | commands alone never take the outbox past its limit |
| Control.PendingIsUnacknowledged | src/remote.rs:289-299 | what is pending is exactly the unacknowledged messages, in their order |
| Control.AcknowledgedIsNotPending | src/remote.rs:310-318 | acknowledging an id leaves nothing for it pending and everything else as it was |
| Control.AcknowledgedReportIsNotPending | src/remote.rs:310-318 | the same for a report |
| Control.DepthCountsPending | src/remote.rs:254-262 | the depth is the number of pending messages |
| Control.Node.HandleCommand | src/control.rs:941-1073 | the handler, stopped before any statement, is a run of the protocol; a known id is neither executed nor changed; a full outbox or a mismatched fingerprint leaves everything as it was; how far a new command gets, statement by statement; unless stopped, the recorded answer is queued, completed for a success and failed for an error, and the outbox is flushed |
| Control.Node.ExecuteOnce | src/control.rs:1025-1054 | from first record to recorded outcome, stopped before any statement: whether it ran and what the record says by then |
| Control.Node.Execute | src/control.rs:1034-1054 | the execution and the record of its outcome, completed for a success and failed for an error |
| Control.Node.QueueAnswer | src/control.rs:1056-1072 | touches neither records nor executions; with room, and unless stopped, queues the answer that is due and flushes |
| Control.Node.FlushOutbox | src/control.rs:2536-2558 | sends a prefix of the unacknowledged messages, at most 64, and changes nothing else |
| Inventory.NoPortIsEverShared | src/inventory.rs:247-529 | in every interleaving of any number of reservers, releases, removals, registrations with or without an endpoint and unconditional writes made when safe, no two projects ever hold one port, however endpoints are spelled |
| Inventory.EveryTableStaysUnshared | src/inventory.rs:247-529 | that holds from any table without a shared port, before any reserver is at work |
| Inventory.EndpointLife | src/inventory.rs:453-529 | unless written unconditionally, an endpoint appears only by a claim of a port in range, not reserved and not occupied at its probe; it goes only by a release before readiness; it is never exchanged |
| Inventory.ReservedStays | src/inventory.rs:453-467 | through every run a reserved project keeps its endpoint until it is written, removed or released before readiness; a ready one survives releases |
| Inventory.AnswerIsTrue | src/inventory.rs:455-467 | a returned endpoint is the project's at that moment, and "not registered" is true |
| Inventory.FailureMeansExhausted | src/inventory.rs:444-515 | with no release, rewrite or removal and one reserver per project, either failure means every port of the range is reserved, was seen occupied or is held by another project |
| Inventory.UncheckedWriteIsSafeIff | src/inventory.rs:320-348 | after an unconditional endpoint write every continuation with safe writes keeps ports unshared, if and only if no other project is on that port and the endpoint is in the Node's own spelling or no other project's reserver can still claim the port |
| Inventory.UnsafeWriteShares | src/inventory.rs:684-700 | after any other write two projects share a port at once or within four steps, two if whoever is reserving has no endpoint yet |
| Inventory.OtherSpellingShares | src/inventory.rs:495-510 | the failing family: a write in another spelling under a claim leaves the table unshared, and the claim, which compares spellings, does not |
| Inventory.TrailingSlashShares | src/inventory.rs:495-510 | such as a trailing slash |
| Inventory.Registry.ReserveEndpoint | src/inventory.rs:437-516 | the retry loop, with others let in between any two statements to do anything but unsafe writes, is a run of one reserver and ends with its result; an endpoint it returns is the project's own, on a port that no other row's text ends in, and if claimed by this call on a port in range, not reserved and not occupied at its probe |
| Inventory.ChoosePort | src/inventory.rs:469-482 | the first port of the range that is neither reserved, nor named by an endpoint read, nor occupied |
| Inventory.FirstFree | src/inventory.rs:480-482 | a result is free and everything before it is not; no result means nothing is free |
| Inventory.SearchReadsTheTable | src/inventory.rs:469-478 | reading the endpoints in any order avoids exactly the ports in the table |
| Endpoints.PortOfEndpoint | src/inventory.rs:656-663 | reading the port back from a written endpoint gives the port |
| Endpoints.PortBeforeSlash | src/inventory.rs:656-663 | a trailing slash names the same port in another spelling |
| Endpoints.PortIsReadIff | src/inventory.rs:656-663 | a port is read from a text exactly when the text, after its last colon, is an optional plus, digits of that value up to 65535, and slashes |
| Endpoints.PortAfterAnyHost | src/inventory.rs:656-663 | whatever host it follows and however many slashes follow it, a port is read |
| SseStream.Stream | src/api.rs:311-363 | for every interleaving, at which round and how the stream ends and every frame it sends: exactly the entries after the starting cursor in order, and the terminal notice last, after the whole journal; it stops only at an unreadable page, a client that took too few sends, a closed bus or a drained terminal run |
| SseStream.Turn | src/api.rs:318-361 | one round: the frames it adds and how it ends, case by case |
| SseStream.AfterShortPage | src/api.rs:336-361 | the terminal notice, the heartbeat, or the wait, which only a closed bus or a client gone ends |
| SseStream.EveryRoundAdvances | src/api.rs:318-334 | every round that goes on catches up with the journal or sends a full page |
| SseStream.SendPage | src/api.rs:323-329 | sending a page moves the cursor with the last entry the client took |
| SseStream.FramedIndex | src/api.rs:323-329 | one data frame per entry, in order |
| SseStream.ResumesWithoutGap | src/api.rs:299-306 | reading from the cursor gives exactly what has not been sent |
| SseStream.TerminalJournalIsWhole | src/api.rs:336-344 | what precedes the terminal notice is the journal for good |
| ChunkedBody.Reader.ReadLine | src/client.rs:318-337 | the bytes up to a line feed or the end, without carriage returns, or the error of a closed connection exactly when nothing else is left |
| ChunkedBody.Reader.ReadChunk | src/client.rs:296-316 | one chunk, the end, or the error, exactly when the size line and the bytes that follow call for it, and where reading goes on |
| ChunkedBody.Reader.ReadBody | src/client.rs:266-272 | chunk after chunk joined up to the last, or broken at the first that cannot be read |
| ChunkedBody.DecodeUndoesEncode | src/client.rs:293-316 | for every payload and split, with sizes in any case and optional extensions after optional blanks, reading gives the payload and stops after the final blank line (section 7.1 of RFC 9112) |
| ChunkedBody.SizeIsReadIff | src/client.rs:302-303 | a size is read exactly from an optional plus and hexadecimal digits in either case, as the number they spell, up to 64 bits |
| ChunkedBody.HexSpells | src/client.rs:302-303 | every number has a spelling that is read back as it |
| ChunkedBody.SizeTextIs | src/client.rs:298-298 | the size is what stands before a semicolon, without the white space around it |
| Approvals.RewriteAllowlist | src/approvals.rs:244-269 | the lines before the key and after its items stay, the block between is replaced; without the key it is an error |
| Approvals.RewriteOfFile | src/approvals.rs:244-269 | a whole file with any line endings: lines before the indented key and after its items kept, every old item gone however indented, the key and the new entries in their place |
| Approvals.NoKeyNoRewrite | src/approvals.rs:267-269 | a file without the key is refused |
| Approvals.LastRewriteWins | src/approvals.rs:220-266 | on lines, rewriting twice is rewriting once with the later entries |
| Approvals.LastRewriteWinsOnFilesIff | src/approvals.rs:241-266 | on whole files that holds if and only if no kept line still ends in a carriage return |
| Approvals.KeptBytesIff | src/approvals.rs:220-266 | of a file cut into what precedes the block, the block and what follows, the rewrite keeps the outer parts byte for byte if and only if both are made of complete lines ended by a bare line feed |
| Approvals.EveryFileIsCut | src/approvals.rs:244-262 | every file that can be rewritten has such a cut |
| Approvals.KeptLineLosesCarriageReturn | src/approvals.rs:244-266 | the failing family: any kept line before the key that ends in a carriage return is written back without it |
| Approvals.CrlfFileIsNotKept | src/approvals.rs:244-266 | the smallest such file |
| Approvals.LastRewriteLoses | src/approvals.rs:244-266 | a kept line ending in two carriage returns: rewriting twice is not rewriting once |
| Approvals.StripColours | src/approvals.rs:108-123 | removes each escape sequence up to its letter |
| Approvals.WrittenBlockParses | src/approvals.rs:125-134 | parsing the written block returns exactly the entries, when they are trimmed, unquoted, on one line and without escapes |
| Approvals.PrintedAllowlistParses | src/approvals.rs:107-134 | a listing coloured anywhere, indented, spaced and quoted in any way is read as its entries, in order and nothing else |
| Approvals.PlainOfPrinted | src/approvals.rs:108-123 | escape sequences vanish and everything else stays |

## Where code and documentation differ

The model follows the code.

- The allowlist rewrite is documented to leave every other line byte-identical. It
  normalises line endings and a missing final newline outside the block;
  `Approvals.KeptLineLosesCarriageReturn` is the failing input and
  `Approvals.KeptBytesIff` the exact condition.
- Another session is documented to contribute nothing to a history. The session of
  a retry is never looked at; `Sessions.ForeignRetryLeaks` is the failing input and
  `Sessions.DeletionIsHarmlessIff` the exact condition.
- Two projects are documented never to share a port. The writes that registration,
  profile recording and an operator make are unconditional, and the claim compares
  endpoints as text; `Inventory.OtherSpellingShares` is the failing input and
  `Inventory.UncheckedWriteIsSafeIff` the exact condition.
- Endpoint reservation is documented to happen inside one transaction. Only the
  claim does; the model separates the reads from it.

## Left out

- Sockets, handshakes, TLS, HTTP serving, task scheduling, logging and metrics: only the steps and the durable state they drive are modelled.
- SQLite: a statement or an immediate transaction is one atomic step, and a failed one is a step that did not happen.
- Fingerprints and adopted ids: SHA-256 appears as an opaque fingerprint and as a naming function; collisions are not modelled.
- Redaction and size bounds of stored payloads: an outcome is stored and answered as it is, so the truncated form of an oversized answer is not modelled.
- Outbox correlation ids: command ids and report ids are separate in the model, so a report whose id equals a command id is not modelled.
- JSON payloads: a run record carries the trimmed non-empty texts that `text_field` extracts, and the serialized size of turns is a parameter.
- Convergence.Converge: what a look sees is an input; reading systemd and classifying an executable path (`observe`, `classify`) are not modelled, nor is `restart_and_converge`. The clock must not run backwards and must reach the deadline; with an interval of zero and a clock that stands still the source polls for ever.
- Endpoint validation: a registration or an unconditional write takes any text, also what `validate_runtime_endpoint` refuses.
- Run ids: unique, as the primary key of the runs table makes them; without that the search for attempts need not end.
- CredentialSwap.CredentialHome.SwapIn: file modes, owners, symlink checks and syncing are one flag, `plain`, that makes the swap refuse.
- ChunkedBody.Reader.ReadLine: lines stay bytes; the lossy UTF-8 conversion, and with it non-ASCII white space around a chunk size, is not modelled. Trailers are outside the round trip.
- Link classification and reference state of credential homes, `provider_state`, `cursor_from`, identifier and label validation, revocation and clearing of allowlist entries: decision tables that would only add easy members.
- Scrubbing of stored device codes, device-code delivery, subscriptions and update progress.
- File replacement in the allowlist rewrite (temporary file, permissions, rename): only the text transformation is modelled.

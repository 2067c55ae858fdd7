# Agent gateway: a verified model

The gateway queues agent runs, relays end-to-end encrypted conversations and keeps their ciphertext. This
project models its hardest logic in Dafny and proves what that logic is for. `dafny verify dfyconfig.toml`
checks everything.

| part | files |
|---|---|
| The run queue: the `runs` and `conversations` tables as a state machine, one call per SQL function; its inductive invariant, lease fencing, timeouts, order | `RunTypes`, `RunSteps`, `RunInvariant`, `LeaseFencing`, `CsapiTimeouts`, `RunRecovery`, `QueueOrder`, `RunWitnesses`, `RunUpdates`, `RunStore` |
| The hash chain of a conversation: the check, its binding, several tabs on one key store over a lossy link, and their gateway as the run queue | `ConversationChain`, `ChainTabs`, `ChainResync`, `ChainGateway`, `SecureClient` |
| Relay history: two levels of keys, key epochs, numbering under concurrency, cursor paging | `RelayRows`, `RelayAppends`, `RelayPaging`, `RelayHistory`, `RelayRefinement`, `RelayStore` |
| Canonical JSON, its parser, and the signed asset manifest | `JsonNumbers`, `NumberGrammar`, `Json`, `JsonStrings`, `JsonShortest`, `JsonText`, `JsonRoundTrip`, `CanonicalJson`, `CanonicalMeaning`, `CanonicalShortest`, `Manifest` |
| UTF-8 and UTF-16: characters, bytes, code units, and the streaming decoder | `Utf8`, `Utf16`, `Utf8Stream` |
| Server-sent events: incremental reader and writer | `Sse` |
| Chinese and Latin line wrapping, continuation cards | `LineWrap`, `LineChoice`, `Cards` |
| Building and clipping prompts | `ClipUtf8`, `PromptSections` |
| The two history truncators | `History` |
| Admission control for Hermes | `Hermes` |

Code that changes state is a class or a method with its loops (`RunStore.RunStore`, `RelayStore.RelayStore`,
the classes of `SecureClient`, `Hermes.HermesConcurrencyController`, the readers and wrappers), specified by
functions over values; the two stores carry their invariant as `Valid()` through every method. The lemmas
are about those functions, over every call and every run. A run of the
system is a sequence of calls with clock readings; the free choices of a call (the row a claim picks among
equals, a fresh lease id) are part of the call, and `RunSteps.Enabled` says which choices the SQL allows.

What the model found out about the code:

- `restoreConversation` can let a run overtake an older waiting one, exactly when the restored conversation
  holds an earlier queued run (`QueueOrder.RestoreOvertakesIff`); a run created in a conversation that has
  just been deleted is such a run (`RunWitnesses.RestoreCanOvertake`).
- The last loop of `dequeueNext` is meant to prefer an idle chat further back in the queue, but it is only
  reached with an empty queue or no free slot, so it starts nothing; a head whose chat is busy blocks the
  line (`Hermes.HeadBlocksIff`, `Hermes.BlockedLine`).
- `_clip_utf8` keeps its budget on an over-long text exactly when the budget exceeds the 43 bytes of the
  marker; at exactly 43 the slice `raw[-0:]` keeps the whole text (`ClipUtf8.ClipFitsIff`).
- A write of `sse` reads back exactly when neither name nor data holds a newline and the name is trimmed and
  not empty (`Sse.ReadsBackIff`). The reader cuts at two line feeds only; section 9.2 of the WHATWG HTML
  standard also ends lines at carriage returns.
- The two history truncators agree exactly when the newest turn fits the budget (`History.TruncationsAgreeIff`).
- `appendRelayMessage` itself does not compare the account with the conversation's: called for another
  account on a conversation with messages it rekeys the conversation, and no message in it can be read any
  more. It keeps the history readable exactly otherwise (`RelayHistory.AppendKeepsIff`,
  `RelayHistory.ForeignAppendStrands`).
- The replay of an accepted plaintext result stops answering once its conversation has been scrubbed
  (`LeaseFencing.ReplayPlaintext`, `RunWitnesses.ScrubEndsReplay`).

## Model

| member | source | states |
|---|---|---|
| RunInvariant.InvKept | apps/server/src/db.ts:1091-1379 | every enabled call of the queue keeps the invariant: deleted rows are terminal, attempts are bounded, running rows hold fresh distinct leases, no runner or conversation has two running E2EE runs, sequences are unique, the budget holds |
| RunInvariant.InvAlways | apps/server/src/db.ts:1091-1379 | the invariant holds after every legal run of calls |
| RunInvariant.BudgetHolds | apps/server/src/e2eeDb.ts:668-782 | in every database reachable by mixed plaintext and E2EE traffic at most maxConcurrentJobs runs are running, at most one E2EE run per runner and per conversation, and every deleted run is terminal so restoring cannot raise the count |
| RunInvariant.ChangesWithinRank | apps/server/src/db.ts:1160-1226 | the status changes left to a run never exceed a rank of remaining attempts and status |
| RunInvariant.BoundedRetries | apps/server/src/db.ts:1114-1225 | though no claim checks the attempt count, queued means attempts below the maximum, running means between 1 and the maximum, and a run changes status at most 2 * maxAttempts + 1 times |
| LeaseFencing.TouchesOnlyItsClaim | apps/server/src/db.ts:1228-1358 | a renew, progress, finish or reject call changes at most the one run whose current claim is its runner and lease |
| LeaseFencing.LosingTheClaimKills | apps/server/src/db.ts:1160-1226 | a step after which a run is no longer running under its lease leaves that lease dead |
| LeaseFencing.FencedForever | apps/server/src/db.ts:1228-1358 | after any traffic, a call under a lease that died before it changes no run |
| LeaseFencing.TerminalForever | apps/server/src/db.ts:1250-1330 | finished, error and cancelled are absorbing, results are never replaced, and only scrubbing touches the verdict |
| LeaseFencing.OneResult | apps/server/src/e2eeDb.ts:853-904 | after one accepted result no further result is ever accepted for that run, nor under that lease for any run |
| LeaseFencing.ReplayPlaintext | apps/server/src/db.ts:1282-1330 | replaying an accepted finish answers with the stored record exactly when the outcome is the same and the run has not been scrubbed |
| LeaseFencing.ReplayE2ee | apps/server/src/e2eeDb.ts:853-904 | replaying an accepted E2EE result answers with the stored envelope exactly when the message id is the stored one |
| RunWitnesses.ScrubEndsReplay | apps/server/src/db.ts:1282-1330 | a legal run from an empty database after which an accepted result is no longer answered, because its conversation was scrubbed |
| CsapiTimeouts.SweepLeavesNothingLate | apps/server/src/db.ts:1963-2041 | a csapi run is live after the sweep exactly when it was live and past no deadline; other rows are untouched |
| CsapiTimeouts.LateByLessThanTheGap | apps/server/src/db.ts:1963-2041 | with a sweep at least every gap no csapi run stays live a gap or more beyond its queue, idle or absolute deadline, through any claims, requeues and approvals in between |
| CsapiTimeouts.StartIsForever | apps/server/src/db.ts:1114-1125 | the start the absolute deadline counts from is set once and survives every requeue |
| CsapiTimeouts.ReasonIsHighestPassed | apps/server/src/db.ts:1963-2041 | the recorded reason is a deadline the run passed, with none of higher precedence passed, and the claim is cleared |
| CsapiTimeouts.CountsAddUp | apps/server/src/db.ts:2020-2041 | the three reported counts sum to the runs cancelled |
| CsapiTimeouts.SweptIsCancellable | apps/server/src/db.ts:1886-1950 | cancelRun with the sweep's reason and limit would have cancelled a swept run, identically |
| CsapiTimeouts.CancelAgreesWithSweep | apps/server/src/db.ts:1886-1950 | in every reachable database the sweep cancels a csapi run if and only if some timeout cancelRun with the same limits would |
| QueueOrder.NoOvertaking | apps/server/src/db.ts:1114-1145 | with an advancing clock and live conversations no call adds a run to those ahead of a waiting one |
| QueueOrder.ClaimTakesFromAhead | apps/server/src/db.ts:1114-1145 | a successful claim takes the waiting run itself or one ahead of it |
| QueueOrder.RestoreOvertakesIff | apps/server/src/db.ts:1858-1884 | restoring a conversation lets a run overtake exactly when the conversation holds an earlier queued run of the same executor |
| RunWitnesses.RestoreCanOvertake | apps/server/src/db.ts:1858-1884 | a legal run from an empty database after which restoring a conversation puts a run ahead of one that was first in line |
| QueueOrder.WaitIsBounded | apps/server/src/db.ts:1114-1145 | a run stays waiting through at most as many successful claims as there were runs ahead of it |
| QueueOrder.NoStarvation | apps/server/src/db.ts:1091-1158 | the same bound for every run reachable from an empty database |
| RunRecovery.RecoversTheSilent | apps/server/src/db.ts:1160-1226 | in columns: what one recovery makes of a row whose last sign is older than the limit, and that it leaves every other row alone |
| RunRecovery.ReportingKeepsTheClaim | apps/server/src/db.ts:1160-1358 | a worker that renews or reports at least every limit keeps its claim through any number of recoveries, until it finishes, its user cancels or a deadline passes |
| RunUpdates.PickQueued | apps/server/src/db.ts:1096-1145 | the candidate subquery: none over budget, otherwise a first claimable run in (queued_at, created_at) order |
| RunStore.RunStore.CreateConversation | apps/server/src/db.ts:915-934 | one new live plaintext conversation and nothing else, as one step of the machine; the invariant is kept |
| RunStore.RunStore.CreateRun | apps/server/src/db.ts:1032-1089 | one new row, stamped now and with no attempt spent; the invariant is kept |
| RunStore.RunStore.CreateE2eeRun | apps/server/src/e2eeDb.ts:213-366 | created, existing or the conflict, each under its own condition; the whole new state; the invariant is kept |
| RunStore.RunStore.SubmitE2eeApproval | apps/server/src/e2eeDb.ts:368-421 | approved, not found, mismatch or already submitted, each under its own condition; repeating an approval changes nothing; the invariant is kept |
| RunStore.RunStore.ApproveRun | apps/server/src/db.ts:1360-1379 | succeeds exactly on the owner's waiting plaintext run, which joins the back of the queue; the invariant is kept |
| RunStore.RunStore.ClaimNextRun | apps/server/src/db.ts:1091-1158 | the first claimable run within the budget, or none; the budget still holds, and the claimed row alone carries the lease |
| RunStore.RunStore.ClaimNextE2eeRun | apps/server/src/e2eeDb.ts:668-782 | expired leases recovered, unexpired claims untouched, and the oldest claimable run claimed, all decided on the state before the call; the budget still holds and the claim is held |
| RunStore.RunStore.RecoverStaleRuns | apps/server/src/db.ts:1160-1226 | a live plaintext run of the executor is recovered exactly if its last sign is older than the limit: queued again while it has attempts left, in error otherwise; every other row stays; the counts are of runs that went to error and to the queue, and their leases are dead |
| RunStore.RunStore.RenewRunLease | apps/server/src/db.ts:1228-1248 | succeeds exactly for the holder of the live plaintext claim; under a dead lease no run changes |
| RunStore.RunStore.UpdateRunProgress | apps/server/src/db.ts:1332-1358 | succeeds exactly for the holder of the plaintext claim; under a dead lease no run changes |
| RunStore.RunStore.FinishRun | apps/server/src/db.ts:1250-1330 | stores the outcome for the holder and answers a replay with the stored record; an answer means that the run is terminal and its lease dead; under a dead lease no run changes |
| RunStore.RunStore.RenewE2eeLease | apps/server/src/e2eeDb.ts:821-851 | succeeds exactly for the holder under its key; under a dead lease no run changes |
| RunStore.RunStore.UpdateE2eeProgress | apps/server/src/e2eeDb.ts:784-819 | succeeds exactly for the holder with a later progress sequence; under a dead lease no run changes |
| RunStore.RunStore.FinishE2eeRun | apps/server/src/e2eeDb.ts:853-904 | stores the envelope and releases the claim, answers a replay with the record holding that message id; under a dead lease no run changes |
| RunStore.RunStore.RejectE2eeRun | apps/server/src/e2eeDb.ts:906-957 | ends the holder's run in error and nobody else's; a repeated rejection is answered with the failed run; under a dead lease no run changes |
| RunStore.RunStore.CancelRun | apps/server/src/db.ts:1886-1950 | throws without its timeout, else cancels exactly the owner's active run that meets the condition of the reason, and unclaims it; a caller, client or runner needs no condition |
| RunStore.RunStore.CancelE2eeRun | apps/server/src/e2eeDb.ts:487-511 | cancels and unclaims exactly the owner's active E2EE run |
| RunStore.RunStore.ExpireCsapiRuns | apps/server/src/db.ts:1963-2041 | the sweep as one step; its three counts add up to the runs swept, and no live csapi run is late afterwards |
| RunStore.RunStore.SoftDeleteRun | apps/server/src/db.ts:1619-1665 | deletes, refuses while running, or does not find; queued runs are cancelled on the way |
| RunStore.RunStore.SoftDeleteConversation | apps/server/src/db.ts:1667-1767 | deletes the conversation with its live runs unless one is running |
| RunStore.RunStore.RestoreRun | apps/server/src/db.ts:1836-1856 | returns a run, and restores it, exactly when it was deleted on its own and its conversation is live; no run becomes busy |
| RunStore.RunStore.RestoreConversation | apps/server/src/db.ts:1858-1884 | restores the conversation with the runs deleted along with it; no run becomes busy |
| RunStore.RunStore.ScrubLegacyData | apps/server/src/e2eeDb.ts:593-666 | erases what was answered in all chosen plaintext runs unless one is still active, and then changes nothing |
| ConversationChain.CheckChain | apps/secure-web/src/secureClient.ts:137-172 | the loop of `runs` accepts exactly the valid chains, sorted |
| ConversationChain.AnyOrderPasses | apps/secure-web/src/secureClient.ts:141-157 | a valid chain passes in whatever order it is listed |
| ConversationChain.ChainBinding | apps/secure-web/src/secureClient.ts:141-157 | with a collision-free digest two lists that pass and end in one digest hold the same requests, equally many |
| ChainTabs.AcceptedExtendsAll | apps/server/src/db.ts:406-408 | by the unique index, a post that extends some stored prefix is accepted only on the whole of it, and keeps the chain valid |
| ChainTabs.ChainSurvives | apps/secure-web/src/secureClient.ts:235-310 | for any interleaving of tabs, lost messages and racing tip writes: sequences 1..n with predecessor digests, the tip names a stored prefix, no tab ever sees an invalid chain |
| ChainResync.AlwaysRecovers | apps/secure-web/src/secureClient.ts:137-310 | from every possible world with stored runs, listing them alone puts the tip on the last one, and the next submit of a new run is created as number n + 1 on its digest |
| ChainResync.ResyncsAmongOthers | apps/secure-web/src/secureClient.ts:141-168 | with other tabs acting in between, a tab that listed n runs either finds the tip beyond them or comes to write it onto the n-th |
| ChainResync.FirstSubmit | apps/secure-web/src/secureClient.ts:183-310 | the first submit of a conversation is created as number 1 without a digest and leaves the tip on it |
| ChainTabs.HistoryOnlyGrows | apps/server/src/e2eeDb.ts:213-366 | a later history extends every earlier one |
| ChainGateway.PostIsCreate | apps/server/src/e2eeDb.ts:213-366 | for a request in its conversation's context the run queue answers a create as the chain model answers the post, and refuses also an id in use elsewhere |
| ChainGateway.MirrorIsExact | apps/server/src/e2eeDb.ts:213-366 | through any legal traffic of the whole queue the requests of a conversation are exactly those created in it |
| ChainGateway.GatewayIsQueue | apps/server/src/e2eeDb.ts:213-366 | from an empty database on, the gateway of the chain model is the run queue seen through one conversation: same answers, same stored requests |
| SecureClient.KeyStore.AdvanceConversation | apps/secure-web/src/keyStore.ts:306-320 | moves the tip forward or reports a regression and changes nothing |
| SecureClient.SecureGatewayClient.Runs | apps/secure-web/src/secureClient.ts:137-172 | returns the whole stored chain and leaves the tip on its end |
| SecureClient.SecureGatewayClient.SubmitRun | apps/secure-web/src/secureClient.ts:183-310 | extends the chain by exactly one run when the post arrives; consistent in every case, losses included |
| SecureClient.SecureGatewayClient.SubmitFirstRun | apps/secure-web/src/secureClient.ts:183-310 | the first run of a conversation starts the chain at 1 with no digest |
| RelayRows.MaxIsCount | apps/server/src/csRelayHistory.ts:252-327 | the highest number of a conversation is its number of rows |
| RelayRows.SequencesExact | apps/server/src/csRelayHistory.ts:252-327 | the numbers in use are exactly 1..n |
| RelayRows.QueryComplete | apps/server/src/csRelayHistory.ts:471-500 | a page misses no matching row up to its cursor, and a short page misses none at all |
| RelayRows.QuerySplits | apps/server/src/csRelayHistory.ts:471-525 | two pages in a row are one longer page |
| RelayRows.QueryGrows | apps/server/src/csRelayHistory.ts:471-500 | appends only lengthen what a query returns |
| RelayAppends.AppendsStayDense | apps/server/src/csRelayHistory.ts:252-327 | however the statements of concurrent appends interleave: numbers exactly 1..n, one row per (account, key), and every append that returns reports its own row or its key's |
| RelayRefinement.AloneIsAppendStep | apps/server/src/csRelayHistory.ts:243-344 | an append whose statements nobody interrupts leaves the rows and gives the answer of the single step of the history |
| RelayPaging.WalkReturnsAll | apps/server/src/csRelayHistory.ts:471-525 | a finished cursor walk, any limit on each page, appends between pages, returned every message after its start once, in order, and nothing else |
| RelayPaging.WalkTerminates | apps/server/src/csRelayHistory.ts:471-525 | the walk is done within one page more than the table has rows |
| RelayHistory.OpensEveryEpoch | apps/server/src/csRelayHistory.ts:52-114 | every key epoch ever stored stays openable |
| RelayHistory.BumpKeeps | apps/server/src/csRelayHistory.ts:116-141 | a bump adds the next epoch and touches neither messages nor conversations |
| RelayHistory.EnsureDekKeeps | apps/server/src/csRelayHistory.ts:143-212 | ensuring a conversation key keeps everything readable and yields the key its messages are under |
| RelayHistory.AppendKeepsIff | apps/server/src/csRelayHistory.ts:143-327 | an append keeps every message readable exactly when the caller owns the conversation, it holds no message, or the call is answered from its idempotency key |
| RelayHistory.ForeignAppendStrands | apps/server/src/csRelayHistory.ts:155-202 | after two allowed calls, an append by a second account leaves the owner without the conversation |
| RelayHistory.RunKeeps | apps/server/src/csRelayHistory.ts:243-344 | after any run of appends and bumps every ciphertext opens under its own (conversation, sequence, role) and the transcript is what was accepted |
| RelayStore.RelayStore.EnsureAccountKek | apps/server/src/csRelayHistory.ts:80-114 | the account's latest key, made at epoch 1 if there is none; the invariant is kept |
| RelayStore.RelayStore.BumpAccountKekEpoch | apps/server/src/csRelayHistory.ts:116-141 | a new epoch exactly for an account with one, the next after its latest; every earlier one kept as it was; the invariant is kept |
| RelayStore.RelayStore.EnsureConversationDek | apps/server/src/csRelayHistory.ts:143-212 | a key always comes back; for the owner it is the key the messages are under, and the invariant is kept |
| RelayStore.RelayStore.AppendRelayMessage | apps/server/src/csRelayHistory.ts:243-344 | one append step; the message joins the end of its transcript, with the next number, exactly when it is reported as appended, and no other transcript changes; the store stays readable if and only if the caller owns the conversation, it was empty, or the call is answered from its key |
| RelayStore.RelayStore.ListRelayMessages | apps/server/src/csRelayHistory.ts:427-531 | for the owner exactly that page of everything said, decrypted; for anybody else a denial |
| RelayStore.AppendThenList | apps/server/test/cs-relay-db.test.ts:86-107 | an owner who appends and lists from just before reads exactly that message |
| RelayStore.AppendAnswers | apps/server/src/csRelayHistory.ts:252-344 | a held key is answered with its message's number; otherwise the message is accepted exactly if the conversation is known and the caller expects nothing, the current number of messages, or the next |
| RelayStore.ReadsBackWhatWasAccepted | apps/server/src/csRelayHistory.ts:427-531 | after any calls, rotations included, the owner reads back exactly the accepted (role, text) pairs in append order |
| JsonStrings.ReadsBack | scripts/e2ee/asset-manifest-cli.ts:68-75 | every string of UTF-16 units, lone surrogates included, is read back from its quoted form |
| JsonShortest.EscapeIsTheShortest | scripts/e2ee/asset-manifest-cli.ts:69 | of all well-formed texts that read as a string, the quoted form is the one that is shortest with lower-case digits |
| JsonShortest.PlainTextUnchanged | scripts/e2ee/asset-manifest-cli.ts:69 | printable text without quote, backslash or surrogate is quoted as it is, slashes included |
| JsonRoundTrip.ParseUndoesRender | scripts/e2ee/asset-manifest-cli.ts:147-149 | a value written in any white-space layout, the indented one of the signer included, is read back as it was |
| JsonText.ParsedIsReadable | scripts/e2ee/asset-manifest-cli.ts:156-159 | whatever a text parses to has no repeated key, no undefined field, and only numbers in shortest form |
| JsonText.RewrittenNumber | scripts/e2ee/verify-secure-web.ts:83-93 | a number written at more length is read as the value whose shortest text it stands for |
| JsonText.MalformedNumbers | scripts/e2ee/verify-secure-web.ts:83-93 | "-", "01" and "1." are refused, as section 6 of RFC 8259 has it |
| NumberGrammar.TokensAreGrammatical | scripts/e2ee/verify-secure-web.ts:83-93 | the numbers that are read are exactly those the grammar of section 6 of RFC 8259 derives |
| CanonicalJson.SortInOrder | scripts/e2ee/asset-manifest-cli.ts:71-73 | the sorted entries ascend strictly by UTF-16 code units |
| CanonicalMeaning.SortedMeans | scripts/e2ee/asset-manifest-cli.ts:71-74 | sorting keys and dropping undefined fields leaves the key/value meaning alone |
| CanonicalMeaning.CanonicalReadsBack | scripts/e2ee/verify-secure-web.ts:51-58 | parsing a canonical text gives back the value, sorted and without undefined fields |
| CanonicalMeaning.CanonicalIff | scripts/e2ee/asset-manifest-cli.ts:68-75 | two values have one canonical text if and only if they mean the same |
| CanonicalShortest.CanonicalIsShortest | scripts/e2ee/asset-manifest-cli.ts:68-75 | no well-formed text that reads as the value, its numbers spelled the same, is shorter than the canonical text |
| CanonicalShortest.CanonicalString | scripts/e2ee/asset-manifest-cli.ts:69 | the canonical text of a string is the one well-formed text of it that is shortest with lower-case digits |
| CanonicalMeaning.CanonicalWellFormed | scripts/e2ee/asset-manifest-cli.ts:68-75 | no canonical text holds a lone surrogate, so nothing is lost when its bytes are signed |
| CanonicalMeaning.BytesIff | scripts/e2ee/asset-manifest-cli.ts:145-149 | two values have the same signed bytes if and only if they mean the same |
| Manifest.SignedFileVerifies | scripts/e2ee/asset-manifest-cli.ts:145-161 | the file the signer writes passes the signature step |
| Manifest.AcceptedIffSameMeaning | scripts/e2ee/verify-secure-web.ts:98-107 | a file carrying a manifest's signature is accepted exactly when the rest of it means that manifest, however reformatted, reordered and respelled, numbers included |
| Manifest.OriginAcceptsIffSameMeaning | scripts/e2ee/verify-secure-web.ts:83-107 | the same for a served manifest under the pinned key, and otherwise which of wrong key or wrong signature is reported |
| Manifest.VerdictMeans | scripts/e2ee/verify-secure-web.ts:83-107 | which of the five outcomes each kind of file gets: unreadable, no object, no pinned fingerprint, no signature text, or a signature that is right or wrong |
| Sse.ParseSseBlock | apps/secure-adapter/src/secureClient.ts:521-534 | the last event name, the data lines joined, and whether a comment occurred |
| Sse.LineKinds | apps/secure-adapter/src/secureClient.ts:521-534 | what a data, event and comment line says, its text empty or not; one space after the colon of a data line is dropped |
| Utf8Stream.FeedConcat | apps/secure-adapter/src/secureClient.ts:499-507 | where the bytes of a stream are cut makes no difference to the text decoded, for any bytes, malformed ones included |
| Utf8Stream.FeedEncoded | apps/secure-adapter/src/secureClient.ts:499-507 | the UTF-8 form of any text is decoded to that text |
| Utf8Stream.LeadTable | apps/secure-adapter/src/secureClient.ts:499-507 | which bytes start a character and which may follow, as Table 3-7 of the Unicode Standard has it |
| Utf8Stream.TextDecoder.Decode | apps/secure-adapter/src/secureClient.ts:499-507 | each chunk, cut inside characters or not, yields the next piece of the stream's text, a leading byte order mark dropped |
| Sse.ReadSse | apps/secure-adapter/src/secureClient.ts:499-519 | for every cutting of the bytes into chunks, inside characters too, the events of the whole stream's text |
| Sse.LastEvent | apps/secure-adapter/src/secureClient.ts:516 | what follows the last blank line is an event of its own unless it is white space |
| Sse.SplitMore | apps/secure-adapter/src/secureClient.ts:505-515 | text that arrives later never moves an earlier cut |
| Sse.SplitGlues | apps/secure-adapter/src/secureClient.ts:505-515 | the pieces glue back to the text and every block stops at its first blank line |
| Sse.SplitUnique | apps/secure-adapter/src/secureClient.ts:505-515 | no other cutting into blocks has that property |
| Sse.RoundTrip | apps/secure-adapter/src/facade.ts:67-71 | any cutting of the bytes of a list of single-line writes reads back as that list, names trimmed |
| Sse.ReadsBackIff | apps/secure-adapter/src/facade.ts:67-71 | one write, its bytes cut anywhere, reads back as written if and only if its data has no newline and its name, if any, is trimmed, not empty and has no newline |
| LineWrap.VisualWidth | integrations/xiaohongshu/publisher.py:97-102 | two columns for each wide character, one for every other |
| LineWrap.Tokenise | integrations/xiaohongshu/publisher.py:112-126 | maximal Latin words, every other character alone |
| LineWrap.WrapLongLine | integrations/xiaohongshu/publisher.py:105-175 | the pieces spell the text; at width 2 or more none is empty, too wide, cut off inside a Latin word that fits, or ended with room for what comes next, and a word too wide for a line starts one; if every word fits no cutting between segments takes fewer lines |
| LineWrap.EveryLineIsLegal | integrations/xiaohongshu/publisher.py:105-175 | what the wrapper's result says of each piece and each cut |
| LineChoice.LinesAreUnique | integrations/xiaohongshu/publisher.py:105-175 | these demands leave one way of cutting a text |
| LineWrap.FewestLines | integrations/xiaohongshu/publisher.py:128-173 | greedy filling takes no more lines than any cutting into lines that fit |
| Cards.DisplayLines | integrations/xiaohongshu/publisher.py:56-80 | each raw line with ink on one line if it fits, else cut up; one blank line for any number of blank ones, none at the start; no ink is lost, added or moved, and every line fits |
| Cards.DisplayIsUnique | integrations/xiaohongshu/publisher.py:56-80 | a text has one layout |
| Cards.FittingLinesShown | integrations/xiaohongshu/publisher.py:66-77 | lines that have ink and fit are displayed as they are, stripped, one for one |
| Cards.WrapText | integrations/xiaohongshu/publisher.py:56-94 | all display lines if they are at most maxLines, else the first maxLines with an ellipsis on the last, and the others joined as overflow; ink is kept but for one elided character |
| Cards.PageIsUnique | integrations/xiaohongshu/publisher.py:56-94 | a text has one page and one overflow |
| Cards.ExportManual | integrations/xiaohongshu/publisher.py:411-449 | the loop over the list it appends to ends; a card is continued exactly if its body has more display lines than a page at the drawn width, by a card of exactly the lines after the page; cards are at most the initial cards plus their ink |
| Utf8.DecodeCharSound | apps/hermes-runner/hermes_cursor_runner.py:125-135 | what is decoded is there, encoded, at the front of the bytes |
| Utf8.DecodeCharComplete | apps/hermes-runner/hermes_cursor_runner.py:125-135 | every encoded character is decoded |
| ClipUtf8.PrefixDecodes | apps/hermes-runner/hermes_cursor_runner.py:133 | the first k bytes of an encoding, cut anywhere, decode to the longest prefix that fits in them |
| ClipUtf8.SuffixDecodes | apps/hermes-runner/hermes_cursor_runner.py:134 | the last bytes decode to the longest suffix that fits in them |
| ClipUtf8.LongestPrefixIsLongest | apps/hermes-runner/hermes_cursor_runner.py:133 | no longer prefix fits |
| ClipUtf8.LongestSuffixIsLongest | apps/hermes-runner/hermes_cursor_runner.py:134 | no longer suffix fits |
| ClipUtf8.ClipKeepsMost | apps/hermes-runner/hermes_cursor_runner.py:125-135 | an over-long text becomes its longest prefix within the head budget, the marker, and its longest suffix within the tail budget |
| ClipUtf8.ClipFitsIff | apps/hermes-runner/hermes_cursor_runner.py:125-135 | the result fits its budget exactly when the text did or the budget exceeds the marker |
| ClipUtf8.PromptFitsAndSurvives | apps/hermes-runner/hermes_cursor_runner.py:138-163 | every prompt fits PROMPT_MAX_BYTES, and a current prompt of at most 59,979 bytes ends it word for word |
| PromptSections.WholePrompt | apps/hermes-runner/hermes_cursor_runner.py:138-163 | a prompt that fits is its seven sections, word for word and in order: workspace path, write policy, clipped history and memory between their tags, current prompt |
| PromptSections.PolicyIff | apps/hermes-runner/hermes_cursor_runner.py:147-156 | what stands before the history ends in the permission to write exactly when the job has it, and in the restriction to answering exactly when not |
| PromptSections.SectionsStand | apps/hermes-runner/hermes_cursor_runner.py:138-163 | when the whole is clipped: with a workspace path of at most 59,000 bytes path and policy stand at the start, with one of at most 42,000 every section before the current prompt |
| History.TruncateConversationHistory | apps/server/src/history.ts:6-29 | the longest fitting suffix of the history with its newest turn cut to the budget |
| History.TruncateHistory | apps/secure-web/src/secureClient.ts:72-88 | the longest fitting suffix of the completed turns |
| History.TurnOfRun | apps/secure-web/src/secureClient.ts:72-88 | a finished run that answered something counts as a turn, no other run does |
| History.LongestFitIsLongest | apps/server/src/history.ts:6-29 | no fitting suffix has more turns |
| History.KeptWithinLimits | apps/server/src/history.ts:1-29 | what is kept has at most 20 turns and 48,000 characters |
| History.TruncationsAgreeIff | apps/server/src/history.ts:6-29 | on turns with non-empty responses both agree exactly when the newest turn is within 48,000 characters; otherwise the client keeps nothing and the server one turn of exactly 48,000 |
| Hermes.HermesConcurrencyController.Admit | apps/server/src/hermesProviders.ts:63-84 | started, queued with its position, or rejected for its reason; the whole new state |
| Hermes.AdmissionMeans | apps/server/src/hermesProviders.ts:63-84 | a request starts exactly when its provider is known, its id new, its chat idle and a slot free; one of a busy chat waits even with slots free |
| Hermes.HermesConcurrencyController.Complete | apps/server/src/hermesProviders.ts:86-91 | a valid completion releases the chat and starts the head if it can start; any other changes nothing |
| Hermes.HermesConcurrencyController.CancelQueued | apps/server/src/hermesProviders.ts:93-98 | removes exactly the queued request with that id |
| Hermes.HermesConcurrencyController.DequeueNext | apps/server/src/hermesProviders.ts:100-120 | whatever starts is the head of the queue |
| Hermes.HermesConcurrencyController.StartFirstIdle | apps/server/src/hermesProviders.ts:111-119 | the search of the last loop on its own: the first request of an idle chat, if a slot is free |
| Hermes.AlwaysGood | apps/server/src/hermesProviders.ts:63-120 | over all call sequences: limits hold, every accepted id is in exactly one of running, waiting, completed, cancelled, a non-empty queue has something running, requests leave the queue in the order they entered |
| Hermes.ReachableIsGood | apps/server/src/hermesProviders.ts:43-120 | the same in every state reachable from a new controller |
| Hermes.DefaultLimitsHold | apps/server/src/hermesProviders.ts:40-50 | a default controller never has more than 3 chats running and 30 requests waiting |
| Hermes.Drains | apps/server/src/hermesProviders.ts:86-120 | once admissions stop every effective call lowers the load by exactly one, and while any is left something running can be completed |
| Hermes.HeadBlocksIff | apps/server/src/hermesProviders.ts:100-120 | with an idle chat's request queued, a completion moves the queue exactly when the head's chat is idle; otherwise the line stands still beside a free slot |
| Hermes.BlockedLine | apps/server/src/hermesProviders.ts:110-119 | five calls from a new controller after which an idle chat's request waits beside a free slot |

## Left out

- SQL text, connection pools and row locks: each SQL function is one atomic step given the time as an argument; `claimNextE2eeRun` decides capacity and candidates on the state before its own expiry updates.
- Encryption, digests and signatures are symbolic: sealed values open only under their own key and context, digests and signatures are injective where a lemma says so. Lease ids, keys and run ids are fresh values passed in.
- RunStore.RunStore.CreateRun: never called with status running, as in the source; the prompt, origin, idempotency key and csapi key columns are not modelled, nor are audit rows and notifications.
- RunStore.RunStore.UpdateRunProgress: the progress kind is not modelled, since nothing in the queue reads it.
- RunStore.RunStore.ScrubLegacyData: memory facts, and the counts of conversations and memory facts, are not modelled.
- RelayStore.RelayStore.AppendRelayMessage: one atomic step. Its separate statements are `RelayAppends`, joined to it by `RelayRefinement.AloneIsAppendStep`.
- ChainGateway.GatewayIsQueue: a request's columns beyond the chained ones are packed into the body by an injective function that is a parameter.
- QueueOrder.NoOvertaking: needs an advancing clock and runs created in live conversations; `RestoreOvertakesIff` says exactly what happens without the latter.
- RelayHistory.RunKeeps: calls are serialised, and an append to a conversation with messages is its owner's (`AppendKeepsIff` says what happens otherwise); nothing in the code orders two first uses of an account or conversation key, so those races are not covered. Appends as separate statements are covered by `RelayAppends`.
- SecureClient.SecureGatewayClient.SubmitRun: one tab alone, `ChainTabs` has several; encryption, approvals and context tests are not modelled; a conversation whose first post was lost is unknown to the gateway, so later submits into it fail; the model shows this as no run stored.
- SecureClient.SecureGatewayClient.SubmitFirstRun: key creation, encryption and approvals are not modelled.
- ChainTabs.ChainSurvives: one conversation at a time; decryption of results, memory and titles is not modelled, nor are the copies of this client in the web app and the browser extension.
- Numbers in JSON: the grammar is section 6 of RFC 8259; which double a text denotes, and so its shortest text, is a parameter of the parser, assumed only to return numbers that stand for themselves.
- Sse.ReadSse: the generator is a returned list; a stream that fails while being read is not modelled.
- The asset loops of the manifest verifiers (fetching and hashing each file) compare one digest after another and would only add easy members.
- ClipUtf8.ClipKeepsMost: strings hold Unicode scalar values; a Python string with a lone surrogate, on which encoding raises, is not modelled.
- ClipUtf8.PromptFitsAndSurvives: history and memory come already serialised to JSON, and no string holds a lone surrogate.
- Cards.ExportManual: drawing is left out; whether a card can be drawn as PNG is a parameter. Titles are wrapped but never continued in the source and are not followed.
- LineWrap.WrapLongLine: the two inner stages of its filling loop are methods of their own, `PlaceSegment` and `BreakOverlong`.
- Hermes.HermesConcurrencyController.DequeueNext: its first loop returns in every branch of its body, so it is an `if`; its second loop is the method `StartFirstIdle`.
- Hermes: whether a queued request overtakes a later direct admission of the same chat is not claimed, since the code does not order them.
- Pairing, passkeys, recovery, approvals outside runs, social publications, the flow machine, the run waiter, HTTP routes, Telegram, the user interfaces, storage plumbing, SSH, metrics, image rendering and configuration are not modelled.

# Fluxer: protocols, tools and texts

A model in Dafny of the parts of Fluxer that keep state across awaits, recover from crashes, or
parse and compute, with proofs of what they keep in every run.

| file | what it models |
|---|---|
| `GuildSettings.dfy` | the debounced writer of guild settings: updates are merged per guild, timed, and sent as one PATCH |
| `FetchKey.dfy`, `Coalescing.dfy`, `Paging.dfy`, `BucketScan.dfy` | message fetches: JSON keys, sharing of requests in flight (deletes too), pages and their flags against the server's page functions, down to the scan over buckets |
| `MessageSend.dfy` | the send path of direct messages: encrypt, or ask before sending in the clear |
| `Reactions.dfy` | optimistic reactions with backoff, rollback and restart |
| `Profiles.dfy` | profile requests, shared in flight, with invalidation and the profile store |
| `CallRing.dfy` | the latch that rings a call's recipients once the voice connection is up |
| `MigrationText.dfy`, `MigrationRunner.dfy`, `MigrationName.dfy` | the Cassandra migration tool: checker and parser, runs with failures at any call, file names |
| `License.dfy` | the licence header normaliser |
| `BuildCache.dfy` | the build cache of the dev server |
| `Hsl.dfy`, `Phone.dfy` | colour conversion over the reals; phone number patterns |
| `Text.dfy`, `Wrappers.dfy` | string functions of the source's language, `Option` |

Where the source keeps state in module variables or objects, the model has a class with those
fields; each method is one stretch of code between awaits and is proved equal to one step of a
transition function. Theorems about runs are about that function: over every sequence of events,
hence every interleaving. Fields that record the past (requests sent, operations performed,
prompts raised) are there for the theorems only. Stores, HTTP and commands appear as their
outcomes: an event, or an oracle that answers each call.

`dafny verify dfyconfig.toml` checks the whole project.

## What does not hold

Each of these was expected of the code and is false; the lemma named gives the exact condition
or a run that shows it.

- Merging payloads is not associative (`GuildSettings.MergeAssociates`); a channel's override that
  is removed while a change to it is pending is sent all the same (`GuildSettings.RemovalIsSent`).
- A direct message goes out in the clear without asking if the channel store does not have its
  channel when the send begins, if the user id is missing, or if its channel goes away while its
  files are encrypted (`MessageSend.UnaskedIff`, `MessageSend.ClearWithoutAskingIff`,
  `MessageSend.ClearAfterFilesIff`, `MessageSend.LateChannelIsClear`).
- A failed reaction that changed nothing is taken back all the same
  (`Reactions.FailureRestoresIffEffective`), and every overlap of two actions for one reaction can
  end apart from the server (`Reactions.OverlapDiverges`); a start is safe exactly if neither is
  the case (`Reactions.StartIsSafeIff`).
- A profile request that completes after an invalidation can remove the entry of a newer one
  (`Profiles.StaleCompletionIff`), and its late response is cached and returned as if it were new
  (`Profiles.FreshAfterIff`).
- Starting a call on a channel that is connected already does not ring, although the reaction is
  set up to run immediately (`CallRing.AlreadyConnectedDoesNotRing`).
- The header normaliser is not stable from the first rewriting on for every file; for exactly which
  it is, `License.NormalizeOnceIff` and `License.AddOnceIff` say. Stripping does not undo adding on
  bodies with leading blank lines (`License.StripUndoesAdd`).
- The build cache records steps that never ran once a signal came, and the next process skips
  them (`BuildCache.SignalSkipsTheNextRun`); so it does, without a signal, for older inputs after a
  save that failed (`BuildCache.FailedSaveSkipsTheNextRun`, `BuildCache.SoundIff`).
- The header normaliser deletes a comment of the author's own at the top of a file if both names
  occur in its first lines (`License.OwnCommentLostIff`), and a comment right below a header in a
  line style (`License.JustHeaderTakenIff`).
- Loading forward, `after` by `after`, skips messages if there are more of them than the limit
  (`Paging.LoadAllAfter`, `Paging.AfterSkips`).
- After a jump, a reader whose history is cut off can be told that nothing newer is left though
  there is (`Paging.CutoffHidesNewer`, exactly when: `Paging.JumpFlagsIff`). On a server that stops
  at half the limit it could also happen with a known latest id that is out of date
  (`Paging.JumpFlagsAreSound`).

## Model

| member | source | states |
|---|---|---|
| `GuildSettings.UpdatesAreConserved` | fluxer_app/src/actions/UserGuildSettingsActionCreators.tsx:54-110 | in every run of delayed and immediate updates and timers, the updates of a key are, in order and without gap or repetition, one non-empty segment for each PATCH sent and a last one that is pending; each PATCH and the pending payload is the left fold of exactly its segment |
| `GuildSettings.QuietMeansAllSent` | fluxer_app/src/actions/UserGuildSettingsActionCreators.tsx:54-110 | once no timer is left, the segments of the PATCHes make up all updates: nothing is lost |
| `GuildSettings.OneTimerPerPendingKey` | fluxer_app/src/actions/UserGuildSettingsActionCreators.tsx:54-107 | in every run a key has a live timer exactly while it has a pending payload, never two timers, and each request goes to its key's address |
| `GuildSettings.ImmediateIsSent` | fluxer_app/src/actions/UserGuildSettingsActionCreators.tsx:86-100 | an immediate update makes exactly one request, to the address of its guild, with all that was pending for it and the update merged; the key has then neither payload nor timer, and every other key is as before |
| `GuildSettings.DelayedWaits` | fluxer_app/src/actions/UserGuildSettingsActionCreators.tsx:86-107 | a delayed update makes no request: what is pending, with the update merged, waits for a new timer, the only one of its key; every other key is as before |
| `GuildSettings.FireSends` | fluxer_app/src/actions/UserGuildSettingsActionCreators.tsx:61-107 | a timer that fires sends exactly what is pending for its key and leaves the other keys alone; one that was replaced or has fired does nothing |
| `GuildSettings.RequestsHaveOccasions` | fluxer_app/src/actions/UserGuildSettingsActionCreators.tsx:54-110 | in every run there are as many requests as immediate updates and live timers that fired: without immediate updates none is made but by a timer |
| `GuildSettings.KeysAreGuilds` | fluxer_app/src/actions/UserGuildSettingsActionCreators.tsx:54-83 | two updates share payload, timer and address exactly if they are for the same guild, private channels being `@me` |
| `GuildSettings.FieldIsLastWritten` | fluxer_app/src/actions/UserGuildSettingsActionCreators.tsx:39-59 | a field of the folded payload is there exactly if some update mentions it, with the value of the last one that does |
| `GuildSettings.OverridesAreLastWritten` | fluxer_app/src/actions/UserGuildSettingsActionCreators.tsx:39-59 | `channel_overrides` is absent exactly if never mentioned, has the reset value if last mentioned so, and is a map exactly if maps follow the last reset |
| `GuildSettings.ChannelIsLastWritten` | fluxer_app/src/actions/UserGuildSettingsActionCreators.tsx:39-59 | of those maps the fold has exactly the channels written since the last reset, each as last written |
| `GuildSettings.MergeAssociates` | fluxer_app/src/actions/UserGuildSettingsActionCreators.tsx:39-52 | merging three updates associates exactly if the middle one does not reset the overrides between two maps of which the earlier has a channel that the later lacks |
| `GuildSettings.RemovalIsSent` | fluxer_app/src/actions/UserGuildSettingsActionCreators.tsx:45-49 | removing a channel's override takes it out of the pending PATCH exactly if no override is left at all or none was pending for that channel; otherwise the removed override is still sent |
| `GuildSettings.ChangedElseStoredElseDefault` | fluxer_app/src/actions/UserGuildSettingsActionCreators.tsx:128-171 | each field of a channel's new override is as changed, else as stored, else the default |
| `GuildSettings.OverrideIsReplaced` | fluxer_app/src/actions/UserGuildSettingsActionCreators.tsx:128-171 | the update for one channel carries all stored overrides with this one replaced or removed, and null exactly if none is left |
| `GuildSettings.SettingsWriter.ScheduleUpdate` | fluxer_app/src/actions/UserGuildSettingsActionCreators.tsx:54-110 | on the two maps of the module, an update has exactly the effect of the step that `ImmediateIsSent` and `DelayedWaits` describe: merged and sent at once, or merged and its timer replaced |
| `GuildSettings.SettingsWriter.Flush` | fluxer_app/src/actions/UserGuildSettingsActionCreators.tsx:61-83 | a flush sends the pending payload to the address of its guild, if there is one, and leaves neither payload nor timer |
| `GuildSettings.SettingsWriter.TimerFires` | fluxer_app/src/actions/UserGuildSettingsActionCreators.tsx:102-107 | the callback of a live timer flushes its guild and removes only that timer |
| `GuildSettings.SettingsWriter.UpdateChannelOverride` | fluxer_app/src/actions/UserGuildSettingsActionCreators.tsx:128-171 | the local store is given the stored map with just this channel replaced, defaults filled in, or removed; the same map is scheduled to be sent, and null once no channel is left |
| `FetchKey.KeysAgreeIffRequestsDo` | fluxer_app/src/actions/MessageActionCreators.tsx:97-120 | two fetches have the same JSON key exactly if channel, `before`, `after` and limit are equal, both have no jump or both have one to the same message with the same return message and type, and present, flash and offset agree once absent is read as false, false and 0; strings with quotes, backslashes and control characters included |
| `FetchKey.TextIsInjective` | fluxer_app/src/actions/MessageActionCreators.tsx:97-120 | the JSON text of a request, its parts written one after another, is read in one way only |
| `Coalescing.EveryRunShares` | fluxer_app/src/actions/MessageActionCreators.tsx:345-360 | in every interleaving of calls and completions the keys of the map are exactly those of the requests in flight, each mapped to its own, and no two requests outstanding have the same key |
| `Coalescing.CallsInBetweenShare` | fluxer_app/src/actions/MessageActionCreators.tsx:345-350 | until the request in flight is finished, every call for its key gets its promise, whatever happens to other keys meanwhile |
| `Coalescing.CallMakesRequestIff` | fluxer_app/src/actions/MessageActionCreators.tsx:645-651 | a call makes a request, a new one mapped to its key, exactly if none is in flight for the key and it is not answered without one; else it changes nothing |
| `Coalescing.SettledIsNotOutstanding` | fluxer_app/src/actions/MessageActionCreators.tsx:434-445 | a settled request is the only one that is not waited for any more, and stays mapped |
| `Coalescing.FinishFreesTheKey` | fluxer_app/src/actions/MessageActionCreators.tsx:443-445 | a finished request leaves its key free, so that the next call for it makes a new request; all other keys and requests stay |
| `Coalescing.FinishedIsNotShared` | fluxer_app/src/actions/MessageActionCreators.tsx:345-360 | in no run does a call after the finish get the promise of a request from before it |
| `Coalescing.RequestTable.Request` | fluxer_app/src/actions/MessageActionCreators.tsx:645-651 | a call returns the promise in flight for its key, else makes one request and maps it |
| `Coalescing.RequestTable.Finally` | fluxer_app/src/actions/MessageActionCreators.tsx:443-445 | the completion removes the entry of its own key and no other |
| `SharedFetches.SharedIffSameRequest` | fluxer_app/src/actions/MessageActionCreators.tsx:97-120 | while a fetch is in flight, another call shares it exactly if it agrees with it in all those fields |
| `Paging.HasMoreFlags` | fluxer_app/src/actions/MessageActionCreators.tsx:382-411 | both flags in all cases: without a target they say whether a full page came in that direction; with one, by the first place the target has in the page, the messages on each side and the known latest id; both true if the target is missing |
| `Paging.FindIndex` | fluxer_app/src/actions/MessageActionCreators.tsx:394 | the first index of the target, if it is in the page |
| `Paging.JumpFlagsAreSound` | fluxer_app/src/actions/MessageActionCreators.tsx:386-411 | for a page with up to half the limit on each side of the target, a false flag means that its side is exhausted if the known latest id is the true one, or none is known; with a stale one it fails in exactly one case, when the page happens to end at that id |
| `Paging.JumpFlagsIff` | packages/api/src/channel/services/message/MessageRetrievalService.tsx:138-155 | after a jump, on the pages that the server builds and cuts off for the reader: a false `hasMoreBefore` is always right; a false `hasMoreAfter` is wrong exactly if there are more newer messages than the page has room for, the cutoff takes away some of the older ones fetched, and either the limit is even and at least half of it older messages exist, or the newest message of the page is taken for the latest |
| `Paging.CutoffHidesNewer` | packages/api/src/channel/services/message/MessageRetrievalService.tsx:148-155 | an input where it is wrong: five messages, two of them cut off, limit 4 |
| `Paging.JumpToMessage` | fluxer_app/src/actions/MessageActionCreators.tsx:374-411 | from the request to the flags: what the page is and when each flag is wrong, as above; both flags are true if the reader does not see the target; a reader with the right to read history is never misled, whatever latest id is known |
| `Paging.GetMessages` | packages/api/src/channel/services/message/MessageRetrievalService.tsx:138-155 | the page that a reader gets: a page before an id is that of the history as far as the reader sees it; a page around one is the page of the whole history, cut off; nothing without a cutoff |
| `Paging.SeenIff` | packages/api/src/channel/services/message/MessageRetrievalService.tsx:138-155 | a reader sees of the history all, with the right to read it, else what is not before the cutoff, and without one nothing |
| `Paging.FetchMessagesAround` | packages/api/src/channel/services/message/MessageProcessingService.tsx:209-270 | the page around an id is an unbroken stretch of the history: each side has its share of the limit and what the newer side leaves of it, or what the older side lacks; also if the target was deleted; the removal of duplicates finds none |
| `Paging.LoadAllBefore` | fluxer_app/src/actions/MessageActionCreators.tsx:374-388 | asking for what is before the oldest message loaded, while there is said to be more, ends with each older message that the reader may see loaded exactly once, in order, in just as many requests as it takes to get a page that is not full; with and without a cutoff |
| `Paging.PageBefore` | packages/api/src/channel/repositories/message/MessageDataRepository.tsx:70-99 | a page before an id is the next stretch of the history, and its last id is where the next page goes on |
| `Paging.LoadAllAfter` | fluxer_app/src/lib/ScrollManager.tsx:585-630 | asking for what is after the newest message loaded, while there is said to be more, loads just the newest messages up to the limit, in one request or two; each newer message that the reader may see is loaded exactly if there are no more of them than the limit |
| `Paging.AfterSkips` | packages/api/src/channel/repositories/message/MessageDataRepository.tsx:210-252 | an input where one is skipped: two newer messages, limit 1 |
| `BucketScan.ScanBuckets` | packages/api/src/channel/repositories/message/BucketScanEngine.tsx:82-243 | the scan over the pages of the bucket index, latest first, finds just the newest messages of the range asked for, in order and up to the limit, each once, whatever the page size and however many empty buckets the index lists |
| `BucketScan.ListMessages` | packages/api/src/channel/repositories/message/MessageDataRepository.tsx:70-252 | so `listMessages` before an id, after one, or for the latest answers with the pages that the theorems about paging read off the history |
| `BucketScan.ScanPage` | packages/api/src/channel/repositories/message/BucketScanEngine.tsx:219-239 | the loop over one page of buckets takes no bucket twice and stops at the limit |
| `BucketScan.Push` | packages/api/src/channel/repositories/message/BucketScanEngine.tsx:174-181 | rows that are new are all appended, as far as the limit goes |
| `MessageSend.EveryRunKeepsDmsSealed` | fluxer_app/src/actions/MessageActionCreators.tsx:455-616 | in every run in which only the prompt skips encryption, each job is that of a raised and confirmed prompt; or it has its text gone, the flag set, the other flags kept, no stickers and no files but encrypted ones; or it is in the clear, because its channel was not known as a DM or group DM when the send began, or channel or user were gone when it was to be encrypted; no confirmation sends twice; each send that began is enqueued, asked about, under way or dropped by a throwing encryption, exactly once |
| `MessageSend.SealedFilesWereEncrypted` | fluxer_app/src/actions/MessageActionCreators.tsx:521-582 | in every run from the start, with stores changing in between: an enqueued job that has files and an encrypted text comes from a send to the same channel with the same parameters whose files were encrypted earlier, with success |
| `MessageSend.FailedFilesAsk` | fluxer_app/src/actions/MessageActionCreators.tsx:521-526 | after a failed encryption of its files a send is gone, exactly one question is raised, with its channel and parameters, and nothing is enqueued |
| `MessageSend.EncryptedFilesGoOn` | fluxer_app/src/actions/MessageActionCreators.tsx:521-545 | after a successful one it goes on to its text if channel and user are known, with no question and nothing enqueued; else exactly its text in the clear is enqueued |
| `MessageSend.EncryptionEnds` | fluxer_app/src/actions/MessageActionCreators.tsx:544-599 | an encrypted text is enqueued as payload, with empty content, the flag added and all other flags kept; if it cannot be encrypted exactly one question is raised; if that throws neither happens; the send is gone in all three cases |
| `MessageSend.BeginsOneOfFour` | fluxer_app/src/actions/MessageActionCreators.tsx:485-554 | a send begins by a question, by encrypting its files, by encrypting its text, or by going out in the clear: which one is told by channel type, stickers, files, upload store and user, and nothing else happens |
| `MessageSend.DismissedIsClosed` | fluxer_app/src/actions/MessageActionCreators.tsx:455-483 | dismissing a question closes it alone and sends nothing |
| `MessageSend.StoresAreSet` | fluxer_app/src/actions/MessageActionCreators.tsx:485-521 | the stores that a send looks at, before and after its files, have what was set last |
| `MessageSend.UnaskedIff` | fluxer_app/src/actions/MessageActionCreators.tsx:497-580 | of the jobs that no prompt allowed, exactly those are in the clear whose channel was unknown or no DM or group DM when the send began, or whose channel or user was gone when it was to be encrypted |
| `MessageSend.FreshOwesNothing` | fluxer_app/src/actions/MessageActionCreators.tsx:485-492 | the start of every run is such a state, whatever the stores hold |
| `MessageSend.SteadyRunsSealOrAsk` | fluxer_app/src/actions/MessageActionCreators.tsx:485-580 | with a user present and every channel known from the sends' beginnings on and of one type, a job of a DM without payload has a nonce whose prompt was raised and confirmed, and every other one is encrypted, empty and flagged |
| `MessageSend.LateChannelIsClear` | fluxer_app/src/actions/MessageActionCreators.tsx:499-503 | a run in which the channel store learns of a DM after the send began: with a user present its text is out and no one was asked |
| `MessageSend.ClearWithoutAskingIff` | fluxer_app/src/actions/MessageActionCreators.tsx:499-554 | a send begins by going out in the clear without a question exactly if the store does not have its channel as a DM or group DM, or it is text only and the user id is missing |
| `MessageSend.ClearAfterFilesIff` | fluxer_app/src/actions/MessageActionCreators.tsx:522-545 | after its files are encrypted a send goes out with its text in the clear, and no question is raised, exactly if its channel or the user is gone by then |
| `MessageSend.Client.SendMessage` | fluxer_app/src/actions/MessageActionCreators.tsx:485-582 | a send up to its first pause: asks, pauses or enqueues exactly as the runs assume |
| `MessageSend.ConfirmedIsWhatWasAsked` | fluxer_app/src/actions/MessageActionCreators.tsx:455-483 | a question stays open as it is through every run that does not answer it, and confirming it enqueues the very text, nonce and flags that it was asked about, to the same channel, as a retry, and closes it |
| `MessageSend.Client.AfterFiles` | fluxer_app/src/actions/MessageActionCreators.tsx:522-545 | the continuation after the files: a failure raises the prompt and ends the send (`FailedFilesAsk`); a success looks at the stores again before the text is encrypted (`EncryptedFilesGoOn`) |
| `MessageSend.Client.AfterEncryption` | fluxer_app/src/actions/MessageActionCreators.tsx:544-599 | the continuation after the text: the payload replaces the text and the flag is added, or the prompt is raised, or an exception ends the send with nothing enqueued |
| `MessageSend.Client.SendUnencrypted` | fluxer_app/src/actions/MessageActionCreators.tsx:477-480 | confirming sends the same parameters again, marked as retry and as not to be encrypted, once |
| `Reactions.EveryRunConverges` | fluxer_app/src/actions/ReactionActionCreators.tsx:45-199 | in every interleaving of effective, non-overlapping actions, replies, backoffs and restarts: each idle reaction is shown exactly if the server has it, a busy add is only shown and a busy remove is only on the server; each round makes at most 4 calls and 7000 ms of pauses |
| `Reactions.RunsFromAgreementConverge` | fluxer_app/src/actions/ReactionActionCreators.tsx:45-199 | from the server's own store on, every run with such actions has all that, and shows exactly what the server has once nothing is under way |
| `Reactions.StepKeepsInv` | fluxer_app/src/actions/ReactionActionCreators.tsx:45-199 | each single event keeps that, with at most one action per reaction |
| `Reactions.EndsIff` | fluxer_app/src/actions/ReactionActionCreators.tsx:45-81 | an action ends exactly when its call is done or is refused with another status than 429: done, the server has it and it stays shown; refused, the server is unchanged and it is taken back |
| `Reactions.RateLimitKeepsAction` | fluxer_app/src/actions/ReactionActionCreators.tsx:62-67 | a 429 takes nothing back and ends nothing: up to the third attempt the action pauses for 1, 2 and 4 seconds, after the fourth it is to start over |
| `Reactions.WakeGoesOn` | fluxer_app/src/actions/ReactionActionCreators.tsx:160-199 | after a pause the next attempt is due; after a round of rate limits the first one of a new round, with the change shown again |
| `Reactions.RateLimitsEndNothing` | fluxer_app/src/actions/ReactionActionCreators.tsx:45-199 | in every run in which all replies to an action are 429, whatever else happens, the action stays under way, shown or hidden as its kind says, and the server is not changed by it |
| `Reactions.FourRateLimitsStartOver` | fluxer_app/src/actions/ReactionActionCreators.tsx:149-199 | four rate limits and the pauses after them bring the action back to the first attempt of a round, with the server unchanged and the change still shown |
| `Reactions.FailureRestoresIffEffective` | fluxer_app/src/actions/ReactionActionCreators.tsx:172-199 | a failed action leaves what is shown and what the server has in agreement exactly if it changed something to begin with |
| `Reactions.StartIsSafeIff` | fluxer_app/src/actions/ReactionActionCreators.tsx:45-199 | from every state reached so far: a start keeps all idle reactions in agreement with the server, in all continuations without further starts, exactly if it changes something and no action for the same reaction is under way |
| `Reactions.OverlapDiverges` | fluxer_app/src/actions/ReactionActionCreators.tsx:172-199 | whatever stage an action is at, in calls, pauses or waiting to start over, and whatever the second one for the same reaction is: some continuation ends with the reaction idle, and shown but not on the server or the other way round |
| `Reactions.RetryWithExponentialBackoff` | fluxer_app/src/actions/ReactionActionCreators.tsx:149-170 | the result is the first response that is no rate limit, or the last of the calls allowed; the calls and the sum of the pauses are exact |
| `Reactions.RoundIsBounded` | fluxer_app/src/actions/ReactionActionCreators.tsx:43-170 | four calls and seven seconds are the most that a round takes |
| `Reactions.ReactionClient.PerformReactionAction` | fluxer_app/src/actions/ReactionActionCreators.tsx:172-183 | the change is shown and a round of calls begins |
| `Reactions.UndoIffEffective` | fluxer_app/src/actions/ReactionActionCreators.tsx:83-109 | taking a change back restores the store exactly if the change was effective |
| `Reactions.ReactionClient.HandleReply` | fluxer_app/src/actions/ReactionActionCreators.tsx:149-197 | a reply has exactly the effect of the step that `EndsIff` and `RateLimitKeepsAction` describe |
| `Reactions.ReactionClient.HandleWake` | fluxer_app/src/actions/ReactionActionCreators.tsx:160-164 | after a pause the next call is made; after a round of rate limits the whole action starts over |
| `Profiles.EveryRunBoundsOrphans` | fluxer_app/src/actions/UserProfileActionCreators.tsx:36-129 | in every interleaving, invalidations and clearings included, each mapped request is in flight under its own key, and the requests that no call can find any more are at most one for each removal of their key's entry |
| `Profiles.DuplicatesAreBounded` | fluxer_app/src/actions/UserProfileActionCreators.tsx:42-129 | no more than one request per key is in flight, and one more for each invalidation or clearing that removed its entry |
| `Profiles.FetchMakesRequestIff` | fluxer_app/src/actions/UserProfileActionCreators.tsx:42-87 | a fetch makes one new request exactly if none is in flight for its key and it is forced or finds nothing cached; else it changes nothing and returns what is cached or in flight; other users' entries stay |
| `Profiles.ResponseIsCachedIff` | fluxer_app/src/actions/UserProfileActionCreators.tsx:70-85 | a response is cached exactly if it is a profile, in the place of its user and guild only |
| `Profiles.CompletedIsGone` | fluxer_app/src/actions/UserProfileActionCreators.tsx:89-96 | a completed request is gone and its key is free; other keys, requests and cached profiles stay |
| `Profiles.InvalidateIsExact` | fluxer_app/src/actions/UserProfileActionCreators.tsx:103-112 | invalidating removes entry and cached profile of one user and guild; those of others stay and no request ends |
| `Profiles.ForgettingIsExact` | fluxer_app/src/stores/UserProfileStore.tsx:43-140 | clearing drops just the cached profiles of the current user, a timeout just its own, a new connection all, and the last two touch no request |
| `Profiles.QuietRunsShare` | fluxer_app/src/actions/UserProfileActionCreators.tsx:42-101 | without invalidations and clearings the map has exactly the requests in flight, one for each key |
| `Profiles.StaleCompletionIff` | fluxer_app/src/actions/UserProfileActionCreators.tsx:89-96 | a completing request removes the entry of another one, still in flight, exactly if its key is mapped to that other one |
| `Profiles.StaleCompletionHappens` | fluxer_app/src/actions/UserProfileActionCreators.tsx:36-112 | five steps after which a forgotten request's completion lets a third request start beside the second: the bound is met |
| `Profiles.FreshAfterIff` | fluxer_app/src/actions/UserProfileActionCreators.tsx:103-129 | after an invalidation or clearing, all fetches of the profile in all runs return one that was requested afterwards, exactly if no request for it was without response at that time |
| `Profiles.SharedAfterIsNew` | fluxer_app/src/actions/UserProfileActionCreators.tsx:57-64 | a forced fetch after an invalidation or clearing never gets a request made before it |
| `Profiles.StepStaysFresh` | fluxer_app/src/stores/UserProfileStore.tsx:49-112 | no event brings back an older request or cached profile once none is left |
| `Profiles.KeyIsInjective` | fluxer_app/src/actions/UserProfileActionCreators.tsx:38-40 | for user ids without a colon two keys agree exactly if user and scope do |
| `Profiles.PrefixIsUser` | fluxer_app/src/actions/UserProfileActionCreators.tsx:119-125 | the prefix test finds exactly the keys of the current user |
| `Profiles.ClearIsExact` | fluxer_app/src/actions/UserProfileActionCreators.tsx:114-129 | clearing removes the entries of the current user, keeps all others as they are and ends no request |
| `Profiles.ProfileRequests.FetchProfile` | fluxer_app/src/actions/UserProfileActionCreators.tsx:42-87 | a fetch returns the cached profile unless forced, else the request in flight, else makes one |
| `Profiles.ProfileRequests.RemoveEntry` | fluxer_app/src/actions/UserProfileActionCreators.tsx:89-96 | a completed request removes whatever entry its key has |
| `Profiles.ProfileRequests.Respond` | fluxer_app/src/actions/UserProfileActionCreators.tsx:70-85 | a successful response is cached under its user and scope, even if it was forgotten meanwhile |
| `Profiles.ProfileRequests.InvalidateProfile` | fluxer_app/src/actions/UserProfileActionCreators.tsx:103-112 | entry and cached profile of this user and scope go, and no others |
| `Profiles.ProfileRequests.ClearCurrentUserProfiles` | fluxer_app/src/actions/UserProfileActionCreators.tsx:114-129 | the loop over the keys removes exactly those with the prefix, in any order |
| `CallRing.RingsExactly` | fluxer_app/src/actions/CallActionCreators.tsx:75-124 | in every run, a change of the voice connection rings exactly if it brings up the channel of a call that was started, with no start, no leaving of that channel and no coming up of it in between; it rings once, that channel, with the recipients of that start |
| `CallRing.StepOnInv` | fluxer_app/src/actions/CallActionCreators.tsx:75-144 | what each start, leaving and voice change does to the latch and the rings: a silent start rings nobody at once, another sets the latch with its recipients, a change rings exactly if it brings up the latch's channel, and leaving drops the latch of that channel only |
| `CallRing.VoiceIsRemembered` | fluxer_app/src/actions/CallActionCreators.tsx:85-99 | in every run the voice connection is as its last change says |
| `CallRing.VoiceStays` | fluxer_app/src/actions/CallActionCreators.tsx:104-144 | and without a change it stays as it was, whatever calls are started and left |
| `CallRing.LatchIsArmed` | fluxer_app/src/actions/CallActionCreators.tsx:75-144 | before each event the latch holds channel and recipients of the one start that arms it, and nothing if there is none |
| `CallRing.NoMoreRingsThanStarts` | fluxer_app/src/actions/CallActionCreators.tsx:75-124 | no call rings twice: in every run there are at most as many rings as starts, and one less while the latch is set |
| `CallRing.EveryRunKeepsInv` | fluxer_app/src/actions/CallActionCreators.tsx:75-102 | in every run at most one reaction is live: that of the latch, while it is set |
| `CallRing.AlreadyConnectedDoesNotRing` | fluxer_app/src/actions/CallActionCreators.tsx:85-101 | a call started on a channel that is connected already never rings while the connection stays as it is and no other call is started, though the reaction asks to run at once |
| `CallRing.Recipients` | fluxer_app/src/actions/CallActionCreators.tsx:110 | the recipients are the channel's, each as often as listed, without the current user |
| `CallRing.DisposeIsExact` | fluxer_app/src/actions/CallActionCreators.tsx:75-80 | clearing the latch disposes of its reaction and of no other |
| `CallRing.RecipientsInOrder` | fluxer_app/src/actions/CallActionCreators.tsx:110 | the recipients are in the channel's order |
| `CallRing.CallActions.StartCall` | fluxer_app/src/actions/CallActionCreators.tsx:104-124 | starting sets the latch, or clears it and rings nobody if silent |
| `CallRing.CallActions.SetupPendingRing` | fluxer_app/src/actions/CallActionCreators.tsx:82-102 | the old latch and its reaction go before the new one is made |
| `CallRing.CallActions.LeaveCall` | fluxer_app/src/actions/CallActionCreators.tsx:136-144 | leaving clears the latch only if it is for that channel |
| `CallRing.CallActions.VoiceChanges` | fluxer_app/src/actions/CallActionCreators.tsx:85-99 | all live reactions run in turn, those disposed of meanwhile do not |
| `MigrationRunner.EveryRunIsSound` | fluxer_api/scripts/CassandraMigrate.tsx:224-258 | in every sequence of `up` and `ack` runs with a failure possible before or after each statement and insert: the table has exactly what was there or was recorded, once each; a file recorded as run had all its statements executed, in order, just before; nothing is done for a recorded file |
| `MigrationRunner.RecordsAreExplained` | fluxer_api/scripts/CassandraMigrate.tsx:224-258 | from any table on: a file that is recorded and was not before has a record in the log that says how it came about, and that is so: its statements ran just before, it has the annotation, or it was acknowledged by name |
| `MigrationRunner.StepSound` | fluxer_api/scripts/CassandraMigrate.tsx:316-433 | each single run, however it ends, keeps that |
| `MigrationRunner.AckReturnsNormallyIff` | fluxer_api/scripts/CassandraMigrate.tsx:406-433 | `ack` returns normally exactly if both calls are done, the file is listed and it is not yet recorded |
| `MigrationRunner.AckRecordsIff` | fluxer_api/scripts/CassandraMigrate.tsx:406-433 | then, or if the insert fails after its effect, the file is recorded and the log has one entry more, that it was acknowledged; in every other case nothing changes |
| `MigrationRunner.AckAgainDoesNothing` | fluxer_api/scripts/CassandraMigrate.tsx:410-417 | a recorded file is not recorded again, and `ack` fails |
| `MigrationRunner.RanInOrder` | fluxer_api/scripts/CassandraMigrate.tsx:224-258 | of such a file each statement that the parser yields was executed once, in its order, right before the record, and there is at least one |
| `MigrationRunner.UpDoesItsPlan` | fluxer_api/scripts/CassandraMigrate.tsx:316-378 | `up` adds to the log exactly the part of its plan that its calls get to, and to the table exactly the files that this part runs or skips |
| `MigrationRunner.PerformStopsAtFirstFailure` | fluxer_api/scripts/CassandraMigrate.tsx:224-258 | a plan is followed just up to the first operation that does not go well, which is done itself exactly if its call failed after its effect |
| `MigrationRunner.UpReturnsNormally` | fluxer_api/scripts/CassandraMigrate.tsx:316-378 | `up` returns normally exactly if no call fails and no pending file is empty |
| `MigrationRunner.NormalReturnRecordsAll` | fluxer_api/scripts/CassandraMigrate.tsx:358-374 | a normal return leaves every file recorded |
| `MigrationRunner.NothingMoreToDo` | fluxer_api/scripts/CassandraMigrate.tsx:324-361 | once every file is recorded no later run executes a statement or records anything |
| `MigrationRunner.UpRecordsAPrefix` | fluxer_api/scripts/CassandraMigrate.tsx:334-372 | however `up` ends, what it recorded is a prefix of the annotated files followed by the pending ones, both in listing order |
| `MigrationRunner.PerformSucceeds` | fluxer_api/scripts/CassandraMigrate.tsx:224-232 | a plan gets through exactly if all its calls are done and it has no empty file |
| `MigrationRunner.HasSkipCi` | fluxer_api/scripts/CassandraMigrate.tsx:152-164 | the loop finds the annotation exactly if one of the first ten lines has it |
| `MigrationRunner.SkippedForComment` | fluxer_api/scripts/CassandraMigrate.tsx:152-164 | a file is skipped only for a comment in one of its first ten lines |
| `MigrationRunner.AnnotationSkips` | fluxer_api/scripts/CassandraMigrate.tsx:152-164 | it is skipped if one of these lines is the annotation, with or without a space after the dashes and in any case |
| `MigrationRunner.Migrator.Execute` | fluxer_api/scripts/CassandraMigrate.tsx:224-248 | a failing call may or may not have had its effect |
| `MigrationRunner.Migrator.ApplyMigration` | fluxer_api/scripts/CassandraMigrate.tsx:224-258 | the loop over a file's statements does as much of the file's plan as its calls allow, and returns normally exactly if that is all |
| `MigrationRunner.Migrator.RunMigrations` | fluxer_api/scripts/CassandraMigrate.tsx:316-378 | the three loops of `up` do as much of the plan as their calls allow: all skipped files, then all pending ones |
| `MigrationRunner.Migrator.AcknowledgeAll` | fluxer_api/scripts/CassandraMigrate.tsx:351-354 | the skipped files are recorded one by one, up to the first failure |
| `MigrationRunner.Migrator.ApplyAllPending` | fluxer_api/scripts/CassandraMigrate.tsx:370-372 | the pending files are run one by one, up to the first failure |
| `MigrationRunner.Migrator.Classify` | fluxer_api/scripts/CassandraMigrate.tsx:331-342 | the files not in the table, in listing order, parted by the annotation |
| `MigrationRunner.Migrator.AcknowledgeMigration` | fluxer_api/scripts/CassandraMigrate.tsx:406-433 | `ack` does to table and log what `AckReturnsNormallyIff` and `AckRecordsIff` say, and returns as they say |
| `MigrationText.CheckerReadsWhatRuns` | fluxer_api/scripts/CassandraMigrate.tsx:72-112 | the checker, which cuts and filters lines in passes of its own, reads what the runner executes: the statements joined by spaces are the comment-free text with its newlines read as spaces |
| `MigrationText.PassesAgree` | fluxer_api/scripts/CassandraMigrate.tsx:72-91 | the three passes of the checker leave the very lines that the loop of the parser works on |
| `MigrationText.ParseRoundTrip` | fluxer_api/scripts/CassandraMigrate.tsx:84-112 | parsing a file's statements written one per line gives the same statements |
| `MigrationText.GroupAppend` | fluxer_api/scripts/CassandraMigrate.tsx:84-112 | lines up to a semicolon at the end of one are parsed on their own, whatever follows |
| `MigrationText.StatementsAreClean` | fluxer_api/scripts/CassandraMigrate.tsx:84-112 | each statement is trimmed, not empty, on one line and without comment, and all but the last end with a semicolon |
| `MigrationText.EmptyIffNoStatement` | fluxer_api/scripts/CassandraMigrate.tsx:118-133 | a file is reported empty exactly if it yields no statement |
| `MigrationText.PatternSeesWhatRuns` | fluxer_api/scripts/CassandraMigrate.tsx:36-50 | each of the ten forbidden patterns is found in the checked text exactly if it is found in one of the statements executed: neither a newline nor a comment hides it, and none is found across two statements |
| `MigrationText.MatchesIff` | fluxer_api/scripts/CassandraMigrate.tsx:36-50 | a pattern is found exactly if the text has its words, in upper or lower case, with white space between each two and no letter, digit or underscore right before or after |
| `MigrationText.ParseStatements` | fluxer_api/scripts/CassandraMigrate.tsx:84-112 | the accumulating loop yields the comment-free lines grouped up to each one that ends with a semicolon |
| `MigrationText.ValidateMigrationContent` | fluxer_api/scripts/CassandraMigrate.tsx:118-133 | a forbidden pattern is reported exactly if some statement that would be executed has it, and emptiness exactly if nothing would be executed |
| `MigrationName.SanitizeName` | fluxer_api/scripts/CassandraMigrate.tsx:60-70 | however many passes the loop makes, the result is the words of the kept characters with one underscore between each two |
| `MigrationName.SanitizedIsName` | fluxer_api/scripts/CassandraMigrate.tsx:60-70 | the result is made of words of a-z and 0-9 with single underscores between them; such a name is its own result; sanitising twice is sanitising once; nothing is left exactly if no letter or digit is kept |
| `MigrationName.KeptIsMapped` | fluxer_api/scripts/CassandraMigrate.tsx:60-70 | the passes over the name keep its characters in order: letters lowered, spaces and hyphens as underscores, all but a-z, 0-9 and underscores dropped |
| `Text.JoinOfLines` | fluxer_api/scripts/CassandraMigrate.tsx:72-82 | splitting at newlines and joining again gives the text back |
| `Text.LinesOfJoin` | fluxer_api/scripts/CassandraMigrate.tsx:72-82 | joining lines and splitting again gives the lines back |
| `License.NormalizeReachesFixpoint` | fluxer_api/scripts/LicenseEnforcer.tsx:236-349 | stripping and adding is stable from the second application on, for every content that is stripped at all, in all three styles, with or without shebang, with empty bodies too |
| `License.NormalizeOnceIff` | fluxer_api/scripts/LicenseEnforcer.tsx:236-349 | it is stable from the first application on exactly for contents that begin with a shebang line, that are a header alone ending with a newline, or that have text below the header, unless that is a shebang line with blank lines below it |
| `License.HeaderAloneIsNotNormal` | fluxer_api/scripts/LicenseEnforcer.tsx:309-349 | a file that is a header alone without a final newline, in any style and with any text, is recognised, and needs two rewritings |
| `License.ShebangBelowIsNotNormal` | fluxer_api/scripts/LicenseEnforcer.tsx:242-349 | so does a file with a shebang line below its header and a blank line below that, whatever follows |
| `License.AddOnceIff` | fluxer_api/scripts/LicenseEnforcer.tsx:318-364 | a file that had no header is in normal form once it has one exactly if the body round-trips or is a shebang line alone |
| `License.TemplateIsRecognisable` | fluxer_api/scripts/LicenseEnforcer.tsx:23-74 | a text of at most 21 lines that names the licence in one line and the product in another, as the templates do, makes a header that is recognised |
| `License.LossIsOneComment` | fluxer_api/scripts/LicenseEnforcer.tsx:247-309 | normalising deletes the first comment below the shebang line, with blank lines above and below it, and not a line else |
| `License.JustHeaderTakenIff` | fluxer_api/scripts/LicenseEnforcer.tsx:259-301 | of a header just the header is deleted, whatever is right below it, exactly if it is a block comment or what is below is nothing, a blank line or no comment line |
| `License.OwnCommentLostIff` | fluxer_api/scripts/LicenseEnforcer.tsx:202-349 | a comment of the author's own at the top of a file is deleted exactly if both names occur in the first 25 lines, be it in the comment or below it; else it is kept below the header |
| `License.StripUndoesAdd` | fluxer_api/scripts/LicenseEnforcer.tsx:236-328 | stripping what was added gives back the body exactly, on exactly these bodies: first line not blank, or a newline-terminated shebang line followed by nothing or by a line that is not blank, or a single newline |
| `License.StripAddHeader` | fluxer_api/scripts/LicenseEnforcer.tsx:236-328 | stripping what was added always succeeds, and takes nothing from the body but leading blank lines |
| `License.HeaderIsFound` | fluxer_api/scripts/LicenseEnforcer.tsx:259-303 | the end of an added header is found just where it was put, whatever follows |
| `License.HeaderIsGood` | fluxer_api/scripts/LicenseEnforcer.tsx:318-328 | a header in any of the styles starts as the style expects, ends where its comment does and has no line that ends it early |
| `License.AddedIsDetected` | fluxer_api/scripts/LicenseEnforcer.tsx:202-230 | a file that was given a header is recognised as having one, below a shebang too |
| `License.ProcessingConverges` | fluxer_api/scripts/LicenseEnforcer.tsx:330-364 | processing a file again and again: it is rewritten each time, to the same content from the third time on, and from the second on if it had a header |
| `License.StripLicenseHeader` | fluxer_api/scripts/LicenseEnforcer.tsx:236-316 | the loops cut out what lies between the shebang line and the first line below the header that is not blank, and keep a newline at the end; without a header nothing is changed and failure is reported |
| `License.EndOfHeader` | fluxer_api/scripts/LicenseEnforcer.tsx:259-303 | the line after the comment's end, or after the last line with the prefix; none if the comment does not start or end |
| `License.NextNonBlank` | fluxer_api/scripts/LicenseEnforcer.tsx:247-250 | the next line that is not blank, or the end |
| `License.AddHeaderLines` | fluxer_api/scripts/LicenseEnforcer.tsx:318-328 | adding puts the header's lines and one empty line above the content, or below its shebang line and an empty line |
| `License.DetectLicense` | fluxer_api/scripts/LicenseEnforcer.tsx:202-230 | both names are looked for in the first 25 lines, not necessarily in the same one |
| `License.NamesInAnyCase` | fluxer_api/scripts/LicenseEnforcer.tsx:202-230 | title, short name and product name are recognised in the case of the templates and in lower case |
| `Hsl.HslComesBack` | fluxer_app/scripts/GenerateEmojiSprites.tsx:82-106 | hue, saturation and lightness can be read off the channels again, for every colour that is not grey: the conversion loses nothing before rounding |
| `Hsl.ClosedForm` | fluxer_app/scripts/GenerateEmojiSprites.tsx:82-106 | at every hue, saturation and lightness the channels are those of the closed form of CSS Color Module Level 4 |
| `Hsl.ExtremesAreExact` | fluxer_app/scripts/GenerateEmojiSprites.tsx:91-105 | the highest channel is q and the lowest is p, and both are in [0, 1] |
| `Hsl.ClampIsIdentity` | fluxer_app/scripts/GenerateEmojiSprites.tsx:108-112 | for saturation and lightness in [0, 1] the clamps change nothing and the lightness is halfway between highest and lowest channel (section 4.2.4 of CSS Color Module Level 3) |
| `Hsl.ThirdTurnRotates` | fluxer_app/scripts/GenerateEmojiSprites.tsx:103-105 | 120 degrees more rotate the channels |
| `Hsl.WholeTurns` | fluxer_app/scripts/GenerateEmojiSprites.tsx:83-84 | whole turns do not change the colour, at negative hues either |
| `Hsl.OneTurnIsHue` | fluxer_app/scripts/GenerateEmojiSprites.tsx:83 | the two remainders bring every hue, negative ones too, to [0, 360) by whole turns |
| `Hsl.PlaceholderColour` | fluxer_app/scripts/GenerateEmojiSprites.tsx:115-117 | a placeholder has one channel at 224, one at 82 and the third between them, at every hue |
| `Hsl.BytesAreChannels` | fluxer_app/scripts/GenerateEmojiSprites.tsx:108-112 | each byte is the nearest to 255 times its channel, in the order red, green, blue |
| `Hsl.PrimaryColours` | fluxer_app/scripts/GenerateEmojiSprites.tsx:82-112 | 0, 120 and 240 degrees are pure red, green and blue |
| `BuildCache.SkippedOnlyIfUnchanged` | fluxer_app/scripts/DevServer.tsx:91-179 | in every run, with commands failing, files breaking, processes restarting and signals, in which no event records a command that did not succeed or leaves an older entry in the file: a step is skipped only if its last successful command had exactly the inputs gathered now |
| `BuildCache.PeacefulRunsKeep` | fluxer_app/scripts/DevServer.tsx:162-261 | runs without a signal, in which a failed save never leaves the file as it was, are among these |
| `BuildCache.SoundIffNoWrongSkip` | fluxer_app/scripts/DevServer.tsx:47-102 | a state is sound exactly if no step can be skipped wrongly, now or in a process started on it |
| `BuildCache.SkippedIffUnchanged` | fluxer_app/scripts/DevServer.tsx:91-179 | in runs without a signal in which saving works a step is skipped exactly then; otherwise its command is started |
| `BuildCache.SoundIff` | fluxer_app/scripts/DevServer.tsx:162-179 | an event keeps memory and file true to the last successful commands exactly if it neither records an unfinished command while shutting down nor leaves an older entry in the file |
| `BuildCache.SignalSkipsTheNextRun` | fluxer_app/scripts/DevServer.tsx:221-261 | after a signal a step that never ran is recorded, and the next process skips it |
| `BuildCache.FailedSaveSkipsTheNextRun` | fluxer_app/scripts/DevServer.tsx:66-73 | over three processes that run the step once each, without any signal: after a save that failed and left the older file, the next process skips the step for inputs that are not those of its last command |
| `BuildCache.FailureChangesNothing` | fluxer_app/scripts/DevServer.tsx:174-178 | a command that fails leaves entries and file as they were |
| `BuildCache.RecordedIff` | fluxer_app/scripts/DevServer.tsx:162-261 | a step that is due is recorded exactly if its command succeeded, or a signal came before it or while it ran; other steps' entries stay |
| `BuildCache.StartedIff` | fluxer_app/scripts/DevServer.tsx:91-261 | a command is started exactly if its step is due and no signal has come |
| `BuildCache.BootLoadsTheFile` | fluxer_app/scripts/DevServer.tsx:47-64 | a new process has what the file holds, nothing if it is unreadable, and no signal; booting and signals leave file and past as they are |
| `BuildCache.NothingChangedNothingRuns` | fluxer_app/scripts/DevServer.tsx:47-179 | while the inputs stay the same no command is started, over any restarts |
| `BuildCache.HaveInputsChanged` | fluxer_app/scripts/DevServer.tsx:75-89 | the loop answers yes exactly if the two maps differ in any path or time |
| `BuildCache.DevServer.ShouldRunStep` | fluxer_app/scripts/DevServer.tsx:91-102 | a step is to run exactly if there is no entry for it or one with other inputs |
| `BuildCache.DevServer.RunCommand` | fluxer_app/scripts/DevServer.tsx:221-261 | the command is not started while shutting down, and counts as done if a signal comes |
| `BuildCache.DevServer.RunCachedStep` | fluxer_app/scripts/DevServer.tsx:162-179 | a step has exactly the effect that the run theorems are about |
| `BuildCache.DevServer.HandleShutdown` | fluxer_app/scripts/DevServer.tsx:207-215 | a signal changes nothing but the flag |
| `Phone.FormatKeepsDigitsIff` | fluxer_app/src/data/CountryCodes.tsx:237-263 | the digits of the output are the first digits of the input, as many as the pattern has slots, for all inputs exactly if the pattern has no digit after its first slot |
| `Phone.StableIff` | fluxer_app/src/data/CountryCodes.tsx:237-263 | formatting what is shown changes nothing, for all inputs, exactly if the pattern has no slot, or has no digit between its slots and either nothing or a digit after the last one |
| `Phone.NoDanglingSeparatorIff` | fluxer_app/src/data/CountryCodes.tsx:247-260 | no separator is ever left at the end exactly if the pattern ends in a slot or a digit, or has no slot |
| `Phone.E164Iff` | fluxer_app/src/data/CountryCodes.tsx:265-268 | for a number that fits the pattern the number sent is the same for the text typed and the text shown exactly if no digit of the pattern is kept; for one that does not fit it differs, unless the pattern has just as many digits of its own as are lost |
| `Phone.E164IsCodeThenDigits` | fluxer_app/src/data/CountryCodes.tsx:265-268 | the number sent is the dial code followed by the digits typed |
| `Phone.DigitsAreAllInOrder` | fluxer_app/src/data/CountryCodes.tsx:237-238 | the digits of a text are in the order in which they stand there |
| `Phone.DigitsAreCounted` | fluxer_app/src/data/CountryCodes.tsx:237-238 | and are all of them, each as often as it stands there, and nothing else |
| `Phone.TableObeysLaws` | fluxer_app/src/data/CountryCodes.tsx:30-229 | with each pattern of the country table the first three laws hold for all inputs |
| `Phone.FormatPhoneNumber` | fluxer_app/src/data/CountryCodes.tsx:237-263 | the loop with its break fills slots in order and keeps a separator exactly between digits |

## Left out

- Strings are sequences of characters; the halves of surrogate pairs that the source's strings can hold one by one are not modelled.
- HTTP, stores other than the ones named, modals, toasts, logging and file reading: only their outcomes, as events or parameters. Handlers of stores do not throw.
- GuildSettings: a PATCH that fails is only logged by the source and is not sent again; the length of the delay and the functions that only forward to an update are not modelled.
- FetchKey.KeysAgreeIffRequestsDo: limits are integers, as all callers pass; the JSON text of fractions is not modelled.
- Coalescing: what `tryFetchMessagesCached` and the gate of a channel decide is a parameter.
- Paging.GetMessages: the cutoff is the least id of its time, as ids grow with time; permissions other than reading history, and messages that arrive between two requests, are not modelled.
- BucketScan: the index lists every bucket that has messages, as each insert sees to; the scan from the earliest buckets on, pages between two ids, repairs of rows and the marking of empty buckets are not modelled.
- MessageSend: encryption itself, attachment files after a failed encryption, and what happens after a job is enqueued (sender caches, callbacks, the queue's own retries).
- Reactions: a missing user id, removing all reactions or all of one emoji, the server's echoes and other devices; a failed request is taken not to have been applied by the server.
- Profiles: the timers of the profile store appear as events that drop a cached profile at any time; the key without guild and the key of a guild called `@me` are the same, as in the source.
- CallRing: joining, rejecting and ignoring calls, the stop-ringing requests, and the automatic connection after a start; the voice connection changes as the runs say.
- MigrationRunner: session creation with its retries, the failure of `shutdown`, and listing the directory; file contents stay the same over the runs.
- License.ProcessingConverges: a file that has a header which cannot be stripped counts as not rewritten; the branch that then only updates its year is not modelled, since its first-occurrence replacement converges only conditionally.
- License.DetectLicense: the year that it finds besides is not modelled.
- License: the text of the templates (`GoodText` and `Recognisable` say what is needed of it), gitignore rules, the walk over directories and the choice of template by extension.
- Hsl: floating point rounding; arithmetic is over the reals up to the final rounding to bytes.
- BuildCache: gathering modification times, and metadata files that hold valid JSON of another shape.
- Phone.E164Iff: for a number with more digits than slots and a pattern with digits of its own it gives only a necessary condition for the numbers to agree; and it says nothing of dial codes, some of which have a hyphen in the table and so do not make E.164 numbers.
- GuildSettings.SettingsWriter.UpdateChannelOverride: what the settings store makes of the map it is given (normalising, expired mutes) is not modelled.
- Easy members such as chunking, role numbering, emoji and sticker names, time presets, grid offsets and locale tables.

# Verified models of the assistant's protocols, translators and numeric loops

Each module models one self-contained part of the repository and proves what that part is for. Check all of it
with `dafny verify dfyconfig.toml`.

**Protocols.** In the runtime everything between two waits is one atomic turn, so each protocol is a state machine:
a `State`, an `Event` for every turn, `Enabled` and `Apply`. A run is the list of events that happened, replayed by
`Exec`, and the theorems are about every run. Beside it stands a class whose methods update their fields as the source
does, each proved to have exactly the effect of its event.

- `Quorum`: parallel slices drained when k succeed, with a grace window and a freeze.
- `A2AClient`: the registry of peers, with card fetches that outlast stops, restarts and ticks.
- `DraftStore`: a promise-chain mutex over memory and an atomic file replace.
- `AssistWaiters`: browser runs that wait for a human.
- `WarmQueue`: prompt-cache warm-ups that give way to turns.

**Translators.** `QueryText`, `QueryParser` and `QueryLowering` take a mail query from text to tokens, tree and server
criteria; `IcsText`, `IcsDate` and `ICalendar` print and read calendar events; `ConfigMerge` and `ConfigApply` merge
proposed changes into a config. Each has its inverse or its reference meaning beside it.

**Loops.** `Png` reverses image filters in place; `Temperature` fits a softmax temperature; `PathTokens`, `NearCopy` and
`PathRepair` find the file names in a text and put mis-copied ones back, and `SecondPass` tells when doing so twice is
doing so once; `NewestMail` picks the newest messages over several mailboxes; `DecimalSum` and `SumCheck` check addition
chains exactly.

Where a promise of the repository's own words is not kept, the model follows the code. For each disagreement below the
lemma named last gives the exact condition under which the code does what is said; one named before it gives what
happens, or an input or run on which, when the condition fails:

- The client's header says unreachable peers stay registered; a failed poll unregisters their agents
  (`A2AClient.StaysRegisteredIff`).
- The agents registered are to be those the peers list; when a card's skill list breaks off, at a `null` say, agents
  behind it stay registered for good (`A2AClient.StrayAgentStays`, `A2AClient.RegistryExactIff`).
- A drain is to resolve when enough runners succeed or all have settled; with no runner it never returns
  (`Quorum.ZeroRunnersNeverReturn`, `Quorum.EveryRunReturns`).
- `unescapeIcs` is to undo `escapeIcs`; it turns an original backslash before an `n` into a line feed
  (`IcsText.EscapeRoundTripsIff`).
- A mailbox hint beside another term drops the whole line (`QueryLowering.HintDropsItsNeighbours`,
  `QueryLowering.OneLineKeepsMeaningIff`).
- The draft store's mutex is to lose no mutation; first loads can overlap and do (`DraftStore.OverlappingLoadsLoseADraft`,
  `DraftStore.OneLoadIff`).
- A second request for help is said to reuse the same wait, yet a timeout never ends it
  (`AssistWaiters.TimeoutLeavesTheSecondWaiting`, `AssistWaiters.OrphanIffLeftBehind`).
- The idle window after a short turn is said to arm a fresh queue; an earlier queue that is still unwinding swallows it
  (`WarmQueue.RewarmIsLost`, `WarmQueue.SendsAgainIff`).
- A whole-map change is said to drop no agent; `null` or a scalar there does (`ConfigApply.ChangeIsNamedIff`).
- The guard on config paths is to read a path as the writer does; a segment `__proto__` passes it and leads the writer
  out of the config (`ConfigApply.InheritedIsLetThrough`, `ConfigApply.LeavesConfigIff`).
- A second pass of path repair is said to change nothing; it can when a token is repaired to a name with a character
  outside the token pattern, such as a space, which cuts the token in two (`PathRepair.SecondPassChangesAgain`,
  `SecondPass.OpenPathBreaks`, `SecondPass.PromiseIff`).
- The search is to return the newest messages of all mailboxes; of two copies of one message the first met is kept,
  and a newer one is lost (`NewestMail.NewerCopyIsLost`, `NewestMail.ReturnedOrOlderIff`).

## Model

| member | source | states |
|---|---|---|
| `Quorum.QuorumSafety` | packages/core/src/agent/delegation-quorum.ts:47-94 | In the array of every run that returns, over all interleavings, entry i is slice i's own value, its `onError` value, or, exactly where it was still `undefined` at the freeze, the abandon placeholder with its signal aborted; slices are cut short only after k successes and a grace timer that fired |
| `Quorum.EveryOutcomeWithoutQuorumTimeout` | packages/core/src/agent/delegation-quorum.ts:8-9 | With fewer than k successes, or without the timer having fired, every slice's own outcome is returned, save where that outcome is `undefined` |
| `Quorum.UndefinedSuccessIsAbandoned` | packages/core/src/agent/delegation-quorum.ts:87-92 | A concrete run: a runner that succeeds with `undefined` is replaced by a placeholder and aborted although everything settled |
| `Quorum.PreAbortedAbandonsAll` | packages/core/src/agent/delegation-quorum.ts:41-45 | A parent aborted at entry: no runner starts, every entry is a placeholder, every signal is aborted, and later events change nothing |
| `Quorum.ResolvedIff` | packages/core/src/agent/delegation-quorum.ts:48-60 | Until a run returns, `resolveDone` has been called exactly if the successes are at least one and as many as k or as all runners, or if all of at least one runner are through |
| `Quorum.OwnIs` | packages/core/src/agent/delegation-quorum.ts:55-59 | What a slice is owed: its result, or the `onError` value when it was rejected or judging it threw, and what stood there before when `onError` throws too |
| `Quorum.GraceOnlyForStragglers` | packages/core/src/agent/delegation-quorum.ts:62-82 | The main turn waits out the grace window exactly if some slice is not through, and else hands the array back |
| `Quorum.FrozenForGood` | packages/core/src/agent/delegation-quorum.ts:84-86 | Nothing that happens after the return writes the array or touches a signal |
| `Quorum.RunInv` | packages/core/src/agent/delegation-quorum.ts:47-94 | The invariant of every run: entries belong to their slices, the counters count, `resolveDone` is called at quorum or when all settled |
| `Quorum.RunsAreFinite` | packages/core/src/agent/delegation-quorum.ts:55-82 | No run of n runners has more than 3n + 4 events |
| `Quorum.NeverStuck` | packages/core/src/agent/delegation-quorum.ts:62-82 | With at least one runner every reachable unreturned state has an enabled event that brings it forward, also when the timer calls back synchronously |
| `Quorum.EveryRunReturns` | packages/core/src/agent/delegation-quorum.ts:48-94 | Every run of at least one runner that has not returned goes on to one that returns, within its rank of events, and once `resolveDone` was called by the main turn and the grace timer alone |
| `Quorum.ZeroRunnersNeverReturn` | packages/core/src/agent/delegation-quorum.ts:48-62 | Without runners no run ever returns |
| `Quorum.Drain.constructor` | packages/core/src/agent/delegation-quorum.ts:33-60 | The launch, or the early return for an aborted parent, is the start state of the protocol |
| `Quorum.Drain.SliceSettles` | packages/core/src/agent/delegation-quorum.ts:57 | The fulfilment handler changes exactly what the protocol's settle event changes |
| `Quorum.Drain.SliceCatches` | packages/core/src/agent/delegation-quorum.ts:58 | The rejection handler is the catch event |
| `Quorum.Drain.SliceFinishes` | packages/core/src/agent/delegation-quorum.ts:59 | The finally handler is the finish event |
| `Quorum.Drain.QuorumReached` | packages/core/src/agent/delegation-quorum.ts:62-82 | Past the quorum: on to the freeze when all settled, else into the grace window |
| `Quorum.Drain.HandBack` | packages/core/src/agent/delegation-quorum.ts:84-94 | The freezing loop over the array gives the frozen state, entry by entry and signal by signal |
| `A2AClient.EpochSafety` | packages/core/src/a2a/client.ts:106-162 | With the config unchanged since the last start, every registered peer is one that start wants, none when A2A is off, whatever order older and newer card fetches, ticks, stops and restarts finish in |
| `A2AClient.OneLiveTimer` | packages/core/src/a2a/client.ts:114-122 | In every run at most one interval ticks, `_refreshTimer` holds it, and the current run set it |
| `A2AClient.StoppedStaysQuiet` | packages/core/src/a2a/client.ts:138-144 | From a stop to the next start nothing registers, unregisters or ticks |
| `A2AClient.DesiredIff` | packages/core/src/a2a/client.ts:146-152 | A peer is wanted exactly if A2A is on and a peer of that id is switched on in the config |
| `A2AClient.TicksIff` | packages/core/src/a2a/client.ts:106-122 | Between a start and the next stop or start an interval ticks exactly if that start has returned and the config it began with is on and sets an interval |
| `A2AClient.ClashIsSharedName` | packages/core/src/a2a/client.ts:221 | Two peer ids clash exactly when some pair of skills gives both the same virtual-agent name |
| `A2AClient.PlainIdsDoNotClash` | packages/core/src/a2a/client.ts:221 | Virtual-agent names are injective on ids that neither contain two underscores in a row nor end in one |
| `A2AClient.RegistryAgreement` | packages/core/src/a2a/client.ts:198-243 | After every event of every run over ids that do not clash, in which no answer is stray, the registered agents are exactly the union of the peers' lists. Stray is an answer of the current run whose skill list breaks off behind a skill the peer does not list already |
| `A2AClient.RegistryExactIff` | packages/core/src/a2a/client.ts:198-243 | And only then: over ids that do not clash the registry is exact all through a run if and only if no answer of it is stray |
| `A2AClient.StrayAgentStays` | packages/core/src/a2a/client.ts:219-243 | A concrete run for every id and skill: the card breaks off behind the skill, the peer leaves the config, and after a restart the agent is still registered and listed by no peer |
| `A2AClient.ClashBreaksAgreement` | packages/core/src/a2a/client.ts:228-231 | For every clashing pair a run leaves a peer listing an agent that is no longer registered |
| `A2AClient.AgreementIffNoClash` | packages/core/src/a2a/client.ts:198-260 | Over two ids, the registry stays exact in every run without a stray answer if and only if they do not clash |
| `A2AClient.StaysRegisteredIff` | packages/core/src/a2a/client.ts:198-243 | In every run over ids that do not clash and without a stray answer, while the config wants a peer: an agent of it is registered later exactly if the last poll since then that failed or got a whole list got the card with its skill or, when there was none, if it was registered before; so a failed poll unregisters it, against lines 12 to 13 of the file's own header |
| `A2AClient.PollKeepsIff` | packages/core/src/a2a/client.ts:198-243 | Whatever a poll of the current run gets, a name is registered afterwards exactly if the answer offers it, or it was registered before and the peer did not list it or the answer broke off |
| `A2AClient.ContainedIff` | packages/core/src/a2a/client.ts:146-161 | From the last start or tick after the last reload on, in every run: all registered peers are wanted by the config exactly if no poll of the run then current has answered for an id that is not |
| `A2AClient.StepContained` | packages/core/src/a2a/client.ts:146-198 | A step ends containment exactly if it is such an answer, or a reload that drops a registered peer; a refresh restores it |
| `A2AClient.OverlappingTickReregisters` | packages/core/src/a2a/client.ts:146-161 | Without a restart a tick that overlaps a config reload registers a removed peer again |
| `A2AClient.Client.RefreshAllPeers` | packages/core/src/a2a/client.ts:146-161 | The loop that drops gone peers and launches the polls has the effect of the refresh event |
| `A2AClient.Client.CardReturns` | packages/core/src/a2a/client.ts:196-243 | The loops over skills and stale names have the effect of the card event, also when the skills break off, and none when the run is over |
| `A2AClient.Client.StartClient` | packages/core/src/a2a/client.ts:106-113 | A start is a stop and a refresh |
| `A2AClient.Client.StartContinues` | packages/core/src/a2a/client.ts:115-122 | After its polls a start sets a timer only as the current run of an enabled client |
| `IcsText.UnescapeEscape` | packages/mail-service/src/dav-client.ts:35-51 | For every text, unescaping what was escaped gives the text with each backslash-n turned into a line feed |
| `IcsText.SlipAt` | packages/mail-service/src/dav-client.ts:49-51 | Character by character, what that text is |
| `IcsText.EscapeRoundTripsIff` | packages/mail-service/src/dav-client.ts:35-51 | Escape and unescape round-trip exactly the texts without a backslash followed by `n` |
| `IcsText.FoldIcsLine` | packages/mail-service/src/dav-client.ts:39-47 | The loop computes the fold at 75 |
| `IcsText.PiecesAre` | packages/mail-service/src/dav-client.ts:39-47 | The pieces a line is cut into are the line again, all of 75 characters but the last, which has at most as many |
| `IcsText.FoldIsPieces` | packages/mail-service/src/dav-client.ts:39-47 | The fold holds the pieces one below the other, a space in front of each but the first |
| `IcsText.UnfoldJoins` | packages/mail-service/src/dav-client.ts:53-55 | Unfolding joins a line to the one above when it begins with a space or a tab, whichever way that one ends |
| `IcsText.UnfoldFold` | packages/mail-service/src/dav-client.ts:39-55 | Unfolding undoes folding on every line without a line feed |
| `IcsDate.DateRoundTripsIff` | packages/mail-service/src/dav-client.ts:70-97 | A printed date or date and time parses back to its ISO form exactly for years below 10000 |
| `IcsDate.FormatTimeIs` | packages/mail-service/src/dav-client.ts:70-80 | A printed date and time of a year of four digits is a `T`, a `Z` and digits that read as each of the fields |
| `IcsDate.ParseTimeIs` | packages/mail-service/src/dav-client.ts:83-97 | A time that others wrote, with or without seconds and `Z`, becomes the ISO form of the same digits, the seconds 00 when missing |
| `ICalendar.ExtractVBlocks` | packages/mail-service/src/dav-client.ts:100-133 | The line loop gives the records of the closed blocks |
| `ICalendar.ScanBlocks` | packages/mail-service/src/dav-client.ts:106-130 | Lines outside a block are skipped, a block begun and ended is the record of its lines, one begun again starts anew, one not ended is none |
| `ICalendar.PutLineIs` | packages/mail-service/src/dav-client.ts:114-128 | A line gives its value to its key, in any case, whatever parameters stand behind it; a line without a colon gives nothing |
| `ICalendar.FirstEventIsRead` | packages/mail-service/src/dav-client.ts:135-167 | Whatever properties a calendar's first event has and whatever comes behind it, that event is read: first values, texts unescaped, the start for a missing end, `CONFIRMED` for a missing status, the attendees' addresses in order |
| `ICalendar.BuildICalString` | packages/mail-service/src/dav-client.ts:169-196 | The pushes and the join print the document of the event's properties |
| `ICalendar.SplitDocument` | packages/mail-service/src/dav-client.ts:101-102 | The unfolded print splits into exactly its property lines |
| `ICalendar.FirstWins` | packages/mail-service/src/dav-client.ts:120-123 | Under a plain key stands the first value printed for it |
| `ICalendar.AttendeesAccumulate` | packages/mail-service/src/dav-client.ts:125-128 | Under the list key stand all attendees in order, joined by line feeds |
| `ICalendar.AddressReadsBackIff` | packages/mail-service/src/dav-client.ts:148-151 | The address pattern reads an attendee back exactly when it is a plain address |
| `ICalendar.MailtoIs` | packages/mail-service/src/dav-client.ts:148-151 | The first `mailto:`, in any case, gives the address, up to white space or a semicolon |
| `ICalendar.ParseUndoesPrint` | packages/mail-service/src/dav-client.ts:100-196 | For every event with valid dates: without a line feed in what is printed verbatim, parsing what the printer prints gives back every property, texts slipped and addresses cut only as stated; with one in the uid, the status or the rule it does not |
| `ICalendar.ReadIsOneLined` | packages/mail-service/src/dav-client.ts:100-167 | Whatever text is parsed, the uid, status, rule and addresses read hold no line feed |
| `ICalendar.UidOverridesLocation` | packages/mail-service/src/dav-client.ts:100-196 | For every event, a uid with a second line `LOCATION:v` comes back as its first line, and v as the location instead of the event's own |
| `ICalendar.AttendeeOfTwoLines` | packages/mail-service/src/dav-client.ts:100-196 | An attendee short enough not to be folded whose second line is a property comes back as the attendee of its first line and that property besides, first wins, for every event |
| `ICalendar.RoundTripIsIdentityIff` | packages/mail-service/src/dav-client.ts:100-196 | Of all events with valid dates, the round trip is the identity exactly on those without a line feed in uid, status, rule and attendees, with texts without backslash-n, plain addresses and years of four digits |
| `QueryParser.Parser.RunOr` | packages/mail-service/src/query-parser.ts:128-143 | The position-advancing parser of OR computes the grammar's result and stops where it does |
| `QueryParser.Parser.RunAnd` | packages/mail-service/src/query-parser.ts:145-159 | The same for AND |
| `QueryParser.Parser.RunAtom` | packages/mail-service/src/query-parser.ts:161-179 | The same for atoms, always using up a token |
| `QueryParser.BuildUndoesPrint` | packages/mail-service/src/query-parser.ts:122-182 | For every tree whose connectives join at least two, printing it with only the parentheses precedence needs and parsing gives the tree back |
| `QueryParser.OrIsNormal` | packages/mail-service/src/query-parser.ts:140-158 | Every token list, also malformed, parses to such a tree or to none |
| `QueryParser.ReparseIsStable` | packages/mail-service/src/query-parser.ts:122-182 | Printing and parsing again changes nothing |
| `QueryParser.StrayCloseEnds` | packages/mail-service/src/query-parser.ts:128-151 | What follows a closing parenthesis too many is ignored |
| `QueryParser.GroupReads` | packages/mail-service/src/query-parser.ts:164-171 | Parentheses around the whole change nothing, and the closing one may be missing |
| `QueryParser.OrInFront` | packages/mail-service/src/query-parser.ts:128-137 | An OR in front changes nothing |
| `QueryLowering.MergeAndCriteria` | packages/mail-service/src/query-parser.ts:264-283 | Counting the keys in a map decides between merging and De Morgan exactly by whether a key repeats |
| `QueryLowering.MergeMeansAnd` | packages/mail-service/src/query-parser.ts:264-283 | Merged criteria are satisfied exactly when all of them are, either way |
| `QueryLowering.TermMeans` | packages/mail-service/src/query-parser.ts:199-262 | For every message with its sender, recipients, subject, body, dates, size, flags and headers: the criterion of a term, read as section 6.4.4 of RFC 3501 reads search keys, holds exactly when what the operator says of the message does, or does not for a negated term; a term gives none exactly if it is a mailbox hint or an unknown value of `has:` or `is:` |
| `QueryLowering.LoweringPreservesMeaning` | packages/mail-service/src/query-parser.ts:184-262 | For every tree and every message, the criteria hold by the meaning of the search keys exactly when the tree does by the meaning of its operators |
| `QueryLowering.HintsAreHintTerms` | packages/mail-service/src/query-parser.ts:244-248 | The mailbox hints are the values of the hint terms, left to right |
| `QueryLowering.KeysAreDistinct` | packages/mail-service/src/query-parser.ts:264-283 | Every object the lowering builds has each key once |
| `QueryLowering.DroppedIff` | packages/mail-service/src/query-parser.ts:40-45 | A line is dropped exactly when `all` is among the keys its tree lowers to |
| `QueryLowering.RunParse` | packages/mail-service/src/query-parser.ts:38-52 | The loop over lines keeps what it should and hands the hints on |
| `QueryLowering.ParseMeansKeptLines` | packages/mail-service/src/query-parser.ts:38-52 | A message is asked for exactly when some kept line means it, or all lines were dropped |
| `QueryLowering.OneLineKeepsMeaningIff` | packages/mail-service/src/query-parser.ts:38-52 | One line keeps its meaning exactly when `all` is not among its keys, or it means everything anyway |
| `QueryLowering.HintDropsItsNeighbours` | packages/mail-service/src/query-parser.ts:43 | A mailbox hint joined with a sender asks for everything in the mailbox, though a message from nobody is not meant |
| `QueryLowering.AllHintsCount` | packages/mail-service/src/query-parser.ts:38-52 | The hints of all lines count, of dropped ones too |
| `QueryText.RunTokenize` | packages/mail-service/src/query-parser.ts:55-120 | The scanner's index loop computes the tokens of the text |
| `QueryText.WordScans` | packages/mail-service/src/query-parser.ts:79-116 | Every word, cut off by white space, a parenthesis, a quotation mark or the end, scans to OR if it is "or" in any case, to nothing if "and", and without an operator's colon to the body term it spells, negated behind a minus sign; then comes what the rest scans to |
| `QueryText.OperatorScans` | packages/mail-service/src/query-parser.ts:94-113 | An operator, its colon and a value scan to that operator in lower case with that value, negated behind a minus sign |
| `QueryText.OperatorTakesPhrase` | packages/mail-service/src/query-parser.ts:107-111 | With nothing behind the colon a phrase there is the value, up to its closing mark or the end |
| `QueryText.OperatorAlone` | packages/mail-service/src/query-parser.ts:94-113 | With nothing behind the colon and no phrase, the value is empty |
| `QueryText.MarksScan` | packages/mail-service/src/query-parser.ts:59-69 | White space scans to nothing, parentheses to themselves |
| `QueryText.PhraseScans` | packages/mail-service/src/query-parser.ts:71-77 | A phrase scans to a body term, up to its closing mark or the end |
| `QueryText.TokensAreLexable` | packages/mail-service/src/query-parser.ts:55-120 | Every token the scanner gives is a lexable one |
| `QueryText.ScanUndoesPrint` | packages/mail-service/src/query-parser.ts:55-120 | Scanning the print of any lexable tokens gives them back |
| `QueryText.LexableIffScanned` | packages/mail-service/src/query-parser.ts:55-120 | The lexable token lists are exactly those some text scans to |
| `QueryText.Parse` | packages/mail-service/src/query-parser.ts:29-53 | The whole of `parse`, from text to criteria and hints |
| `QueryText.KeptLineIs` | packages/mail-service/src/query-parser.ts:32-35 | A line counts without the white space around it, and not when blank or just "or", in any case |
| `QueryText.LinesMeanQueries` | packages/mail-service/src/query-parser.ts:29-53 | Any number of trees, written out line by line and parsed, ask for exactly the messages that one of them means, when none has the key `all` among its own |
| `QueryText.TextMeansQuery` | packages/mail-service/src/query-parser.ts:29-53 | One tree, on one line: exactly the messages the tree means |
| `DraftStore.OneLoadIff` | packages/mail-service/src/draft-store.ts:28-45 | In every run that has no state object yet: the memory stays the fold of the applied mutations on every continuation that begins no further load if and only if at most one load is in flight |
| `DraftStore.LosingContinuation` | packages/mail-service/src/draft-store.ts:28-45 | From every state with two first loads in flight a continuation creates and applies a draft, and leaves a memory without it |
| `DraftStore.Linearized` | packages/mail-service/src/draft-store.ts:28-45 | While at most one load has begun, in every interleaving the memory is the fold of the mutations applied so far in enqueue order, and the file holds the fold of a prefix |
| `DraftStore.ReadsSeeAPrefix` | packages/mail-service/src/draft-store.ts:47-50 | While at most one load has begun, every read that returns sees the fold of such a prefix, never older than the settled mutations |
| `DraftStore.PersistSavesMemory` | packages/mail-service/src/draft-store.ts:108-113 | While at most one load has begun, after a successful rename the file equals the memory |
| `DraftStore.SentStaysSent` | packages/mail-service/src/draft-store.ts:77-86 | While at most one load has begun, a draft once sent stays sent in memory, and also in the file if the first load gave the file, however the run goes on |
| `DraftStore.OverlappingLoads` | packages/mail-service/src/draft-store.ts:28-31 | Two first loads can overlap and leave two state objects |
| `DraftStore.OverlappingLoadsLoseADraft` | packages/mail-service/src/draft-store.ts:28-45 | Then a draft whose creation was confirmed is lost from the file |
| `DraftStore.WholeMutation` | packages/mail-service/src/draft-store.ts:34-45 | A mutation on an idle queue, all its steps succeeding, takes effect once, in the state object and in the file alike, and leaves the queue idle |
| `DraftStore.UpdateSetsThePatch` | packages/mail-service/src/draft-store.ts:67-75 | An update gives every field of the patch the patch's value, keeps every other field, the account, the creation time, the status and the sent time, and all other drafts and categories; an unknown id changes nothing |
| `DraftStore.CreateGivesTheFields` | packages/mail-service/src/draft-store.ts:52-65 | A new draft has exactly the fields given, unsent, its times the present; all else stands |
| `DraftStore.MarkSetsStatusAndTimes` | packages/mail-service/src/draft-store.ts:77-86 | Marking sent changes the status, the sent time and the time of the update of that draft only |
| `DraftStore.CategorizeFilesTheLast` | packages/mail-service/src/draft-store.ts:88-92 | Under each message's key stands the last item filed for it, under other keys what stood there; no draft changes |
| `DraftStore.MessageKeysMeetIff` | packages/mail-service/src/draft-store.ts:10-12 | Two messages share a key exactly if they have one uid and account and mailbox read alike, joined; without a colon in the accounts only if they are the same |
| `DraftStore.FieldIsLastWritten` | packages/mail-service/src/draft-store.ts:52-86 | After any list of mutations a draft's field is what the last mutation that writes it says |
| `DraftStore.FileOnlyByRename` | packages/mail-service/src/draft-store.ts:108-113 | No event but a successful rename changes the file, and that one puts in a temporary file written in full |
| `DraftStore.Store.CreateDraft` | packages/mail-service/src/draft-store.ts:52-65 | Creates in place what the mutation's effect says |
| `DraftStore.Store.UpdateDraft` | packages/mail-service/src/draft-store.ts:67-75 | Updates in place; null for an unknown id |
| `DraftStore.Store.MarkDraftSent` | packages/mail-service/src/draft-store.ts:77-86 | Marks sent in place; null for an unknown id |
| `DraftStore.Store.CategorizeAll` | packages/mail-service/src/draft-store.ts:88-92 | The loop files every category, later ones winning |
| `Temperature.FitLog` | docker/laya/app/train.py:329-346 | Grid and golden sections end within 0.00000000000000121209 of the range from a minimiser, for any loss strictly falling before and strictly rising after its minimisers |
| `Temperature.ConvexIsUnimodal` | docker/laya/app/train.py:329-331 | A loss convex in one over the temperature is such a loss |
| `Temperature.SixtyShrink` | docker/laya/app/train.py:339-345 | Sixty sections by the golden ratio shrink a bracket to less than 0.0000000000002909 of it |
| `Temperature.BestPoint` | docker/laya/app/train.py:337 | The first of the best grid points |
| `Temperature.GridBrackets` | docker/laya/app/train.py:338 | The grid points around the best one hold a minimiser |
| `Temperature.Section` | docker/laya/app/train.py:341-345 | One section keeps a minimiser in the bracket and shrinks it by the ratio |
| `Temperature.Narrow` | docker/laya/app/train.py:340-345 | Sixty of them shrink it by the ratio's 60th power |
| `Temperature.ClampIsConstrainedOptimum` | docker/laya/app/train.py:373-376 | Clamping a minimiser to a narrower range gives the best point of that range |
| `Temperature.EffectiveIsFittedIff` | docker/laya/app/train.py:357-362 | Served times fold is the fitted temperature exactly unless that is below the lower bound, where it is the bound; only softening is folded |
| `Temperature.FitTemperature` | docker/laya/app/train.py:349-376 | The fitted temperature is, in the logarithm, within the search's bound of the best from 0.05 to 100; it is what takes effect, past 5 by a fold, but 0.5 when it is below; the bound hit is reported; what is served is as near to the best from 0.5 to 5; 1.0 without cases |
| `Png.PaethIsNearest` | packages/core/src/agent/computer-vision.ts:87-93 | The predictor is the one of left, above and upper left nearest to their estimate, ties in that order |
| `Png.UnfilterUndoesFilter` | packages/core/src/agent/computer-vision.ts:95-123 | Reversing is a left inverse of the filters of sections 6.2 to 6.6 of RFC 2083, for every size, bytes per pixel, data and choice of filter per row |
| `Png.ReverseRow` | packages/core/src/agent/computer-vision.ts:103-120 | One row, reversed in place, leaves the rows above as they were |
| `Png.ReversePngFilters` | packages/core/src/agent/computer-vision.ts:99-123 | The nested loops over the buffer compute the decoded image, also for data cut short |
| `NearCopy.IsSubsequence` | packages/core/src/agent/artifact-path-repair.ts:101-107 | The greedy scan finds a placement exactly when one exists |
| `NearCopy.IsDuplicationOf` | packages/core/src/agent/artifact-path-repair.ts:110-117 | The search over single removals succeeds exactly when both names have the same runs of characters, each at least as long, and the lengths differ by the count |
| `NearCopy.RemovalShortensOneRun` | packages/core/src/agent/artifact-path-repair.ts:112-115 | Removing a character that repeats its neighbour shortens exactly one run, which keeps a character |
| `NearCopy.DuplicationEmbeds` | packages/core/src/agent/artifact-path-repair.ts:109-117 | A duplication keeps every character of the shorter name in place and order |
| `NearCopy.IsDropOrDuplicationCopy` | packages/core/src/agent/artifact-path-repair.ts:135-143 | The near-copy test, exactly |
| `NearCopy.CopyIff` | packages/core/src/agent/artifact-path-repair.ts:135-143 | The limits in figures: one character off takes names of twelve, two off of twenty-four, and numbers may differ only where both have six digits |
| `NearCopy.DigitRunsAt` | packages/core/src/agent/artifact-path-repair.ts:127-132 | A stretch of digits between other characters counts as one number, whole |
| `NearCopy.CopyReplacesNothing` | packages/core/src/agent/artifact-path-repair.ts:10-17 | A near copy has no character replaced, at least twelve characters, and every number under six digits unchanged |
| `PathRepair.SplitOfJoined` | packages/core/src/agent/artifact-path-repair.ts:87-90 | A folder and a name without slash, joined, split back |
| `PathRepair.RepairToken` | packages/core/src/agent/artifact-path-repair.ts:161-178 | One token is changed exactly when it must not stay, to the one matching name behind its own folder |
| `PathRepair.LeftAloneIff` | packages/core/src/agent/artifact-path-repair.ts:161-175 | A token is left alone exactly if its name is known, no known name or more than one is near in a compatible folder and with the same extension, or the file exists |
| `PathRepair.ExtensionIs` | packages/core/src/agent/artifact-path-repair.ts:92-94 | The extension is what stands behind the last dot, in lower case, or the whole name |
| `PathTokens.LongestIsLongest` | packages/core/src/agent/artifact-path-repair.ts:30-36 | What the token search finds at a position is the longest stretch that matches the pattern there, lookbehind and lookahead included |
| `PathTokens.ShapeIff` | packages/core/src/agent/artifact-path-repair.ts:37 | A text has a token's shape exactly if names joined by slashes stand before its last dot and one to five letters or digits behind |
| `PathTokens.TokensAreMet` | packages/core/src/agent/artifact-path-repair.ts:159 | The global replace meets exactly the tokens of the text |
| `PathTokens.TokensOfRewritten` | packages/core/src/agent/artifact-path-repair.ts:30-36 | Whatever the tokens of a text are replaced by, the tokens of the rewritten text are those of the replacements: none arises where one meets its surroundings, none gets lost |
| `PathRepair.RepairReferences` | packages/core/src/agent/artifact-path-repair.ts:150-181 | The pass over a text replaces each token it finds as stated, copies everything else, and records each different repair once |
| `PathRepair.IdleIff` | packages/core/src/agent/artifact-path-repair.ts:17 | A pass whose tokens all stay changes nothing, and only such a pass records nothing |
| `PathRepair.PlainNamesKeepThePromise` | packages/core/src/agent/artifact-path-repair.ts:17 | When all known names are made of the pattern's own characters, a second pass changes nothing, whatever the text |
| `PathRepair.EachPassAddsOne` | packages/core/src/agent/artifact-path-repair.ts:17 | For every token of twelve characters or more: when the only known name is it behind one character outside the pattern, each pass puts the character in front once more, also of a correct reference |
| `PathRepair.SecondPassChangesAgain` | packages/core/src/agent/artifact-path-repair.ts:17 | That for a concrete name |
| `SecondPass.PromiseIff` | packages/core/src/agent/artifact-path-repair.ts:17 | With no file there, a second pass changes nothing on any text if and only if nothing can be put in for an open known path and, for the other known paths, what tokens of bounded length have put in leaves only pieces that stay. A name m, itself a token, can be put in for a known path if that path's name has a character outside the pattern and is near m, m is no known name, and no other known name is near m behind no folder or a trailing part of the path's; the path is open if its folder is one a token can have and no token may end in it before that character |
| `SecondPass.OpenPathsIff` | packages/core/src/agent/artifact-path-repair.ts:17 | When all known paths with such a character are open: a second pass changes nothing on any text if and only if nothing can be put in, that is, if and only if no token is repaired to a name with such a character |
| `SecondPass.OpenPathBreaks` | packages/core/src/agent/artifact-path-repair.ts:30-36 | For each name that can be put in for an open path, the text that breaks the promise: the token twice with a long segment between, read as one token by the first pass and met alone by the second |
| `SecondPass.PutInIsDeletion` | packages/core/src/agent/artifact-path-repair.ts:135-143 | A name that can be put in is the known name without one or two of its characters, so the candidates are finitely many |
| `SecondPass.RepairedPutsIn` | packages/core/src/agent/artifact-path-repair.ts:161-178 | The name of every token that is repaired to a name with such a character can be put in |
| `SecondPass.ShortBreaks` | packages/core/src/agent/artifact-path-repair.ts:96-99 | A token of any length that breaks the promise for a path that is not open can be taken within the bound, four times ten more than the longest known path |
| `SecondPass.FixedPieces` | packages/core/src/agent/artifact-path-repair.ts:30-36 | What a token is repaired to is left alone by a second pass exactly if the token before the first outside character and those behind it are |
| `PathRepair.EveryRepairIsNarrow` | packages/core/src/agent/artifact-path-repair.ts:10-17 | Every repair on record keeps the folder, replaces no character, and names the only known name that is near |
| `PathRepair.KeysTellRepairsApart` | packages/core/src/agent/artifact-path-repair.ts:176 | The map's string key tells the repairs on record for a text apart |
| `NewestMail.SelectNewestUids` | packages/mail-service/src/imap-client.ts:295-318 | The pre-pass over dated uids picks what sorting the uids by date picks |
| `NewestMail.PickedAreNewest` | packages/mail-service/src/imap-client.ts:301-318 | From more than the limit exactly the limit is picked, none twice, in ascending uid order, and none left behind is newer |
| `NewestMail.LeftOutIff` | packages/mail-service/src/imap-client.ts:295-318 | For one search of at most 10,000 matches on every server: a match, dated or not, is left out exactly if there are more than the limit and at least the limit of them sort behind it, by date, then by the order of the answer |
| `NewestMail.PickedWithoutDates` | packages/mail-service/src/imap-client.ts:296-313 | With more than 10,000 matches, or no answer, the last of the search are picked whatever their dates |
| `NewestMail.SearchSummaries` | packages/mail-service/src/imap-client.ts:244-275 | The loops over queries and mailboxes return the newest of the merged list and count each mailbox; an inconsistent search fails the whole |
| `NewestMail.ReturnedAreInOrder` | packages/mail-service/src/imap-client.ts:270-274 | What is returned is newest first, and as much as the limit or as there is |
| `NewestMail.KeysMeetIff` | packages/mail-service/src/imap-client.ts:263 | Two messages count as one exactly if they share their id or, both without one, are the same message of the same mailbox, or if the id of the one reads as the other's mailbox and number |
| `NewestMail.FoundIsUnion` | packages/mail-service/src/imap-client.ts:256-261 | A mailbox's count is over the union of what its queries found |
| `NewestMail.MergedKeeps` | packages/mail-service/src/imap-client.ts:262-267 | The merged list holds listed messages only, each key once |
| `NewestMail.NewestOfAll` | packages/mail-service/src/imap-client.ts:262-275 | When every match is dated and no picked copy of a message is newer than the one met first: every match either is returned under its key, or the limit is reached and no returned message is older than it |
| `NewestMail.NewestOfAllIff` | packages/mail-service/src/imap-client.ts:244-275 | With undated messages too, under the same condition on copies: every match is returned or the full result is no older, exactly if every undated match is kept as a copy no older than the present or returned, or nothing returned is older than the present |
| `NewestMail.UndatedKeptIffPicked` | packages/mail-service/src/imap-client.ts:262-275 | With one date for each message, an undated match is kept so exactly if some search picks it under its key |
| `NewestMail.ReturnedOrOlderIff` | packages/mail-service/src/imap-client.ts:262-275 | For every server and whatever the dates of copies: a match is returned, or the full result is no older, exactly if its key is returned or at least the limit of the kept messages are no older than it |
| `NewestMail.NewerCopyIsLost` | packages/mail-service/src/imap-client.ts:262-267 | A server with an older and a newer copy of one message in two mailboxes: the newer, newest of all, is neither returned nor older than what is |
| `NewestMail.UndatedIsCutThoughNewest` | packages/mail-service/src/imap-client.ts:307-310 | A server on which that condition fails: the pre-pass takes an undated message for the oldest, its summary carries the present time |
| `ConfigMerge.MergeChangeValue` | packages/core/src/agent/config-assistant-proposals.ts:212-220 | The loop over entries computes the merge |
| `ConfigMerge.MergeIsMergePatchIff` | packages/core/src/agent/config-assistant-proposals.ts:203-220 | The merge equals MergePatch of section 2 of RFC 7396 exactly when every record that meets no record is free of nulls |
| `ConfigMerge.MergeIsIdempotentIff` | packages/core/src/agent/config-assistant-proposals.ts:203-220 | Applying a change twice is applying it once exactly on the same values |
| `ConfigMerge.NullFreeMerge` | packages/core/src/agent/config-assistant-proposals.ts:203-220 | On null-free values: the standard's patch, idempotent, and no key is lost |
| `ConfigApply.PathIsWritten` | packages/core/src/agent/config-assistant-proposals.ts:222-241 | A change leaves at its own place what it should: nothing for null, a merge of records, else the value |
| `ConfigApply.DisjointPathStays` | packages/core/src/agent/config-assistant-proposals.ts:222-241 | No place disjoint from the change's path changes |
| `ConfigApply.SegmentsOfJoined` | packages/core/src/agent/config-assistant-proposals.ts:196-198 | Parts joined by dots are the path's segments again, trimmed and without blank ones |
| `ConfigApply.PromptIsWritten` | packages/core/src/agent/config-assistant-proposals.ts:243-270 | A prompt change leaves at the named agent's prompt the new one trimmed, or, when it appends to one that is not blank, the old one, a blank line and the new one |
| `ConfigApply.PromptLeavesTheRest` | packages/core/src/agent/config-assistant-proposals.ts:243-270 | Every other place stays, unless the agent's entry was a text or a list |
| `ConfigApply.PromptInList` | packages/core/src/agent/config-assistant-proposals.ts:260-264 | When the agents are a list and the agent's name is an index written out, that element is given the prompt and the rest of the list stays |
| `ConfigApply.PromptFailsIff` | packages/core/src/agent/config-assistant-proposals.ts:260-264 | A prompt change throws exactly where the agents are a scalar, or a list and the agent is called `length` |
| `ConfigApply.Config.ApplyObjectPath` | packages/core/src/agent/config-assistant-proposals.ts:222-241 | Applies a change to the config in memory |
| `ConfigApply.Config.ApplyProposal` | packages/core/src/gateway/index.ts:3110-3120 | Applies all config changes, then all prompt changes, or fails |
| `ConfigApply.NamedIff` | packages/core/src/agent/config-assistant-proposals.ts:284-296 | A proposal names an agent exactly if a prompt change does, a config change's path leads into it, or a change to the whole map is a record that holds it |
| `ConfigApply.ChangeIsNamedIff` | packages/core/src/agent/config-assistant-proposals.ts:284-296 | A config change names every agent it changes exactly unless it replaces, by a non-record, a map that still holds one |
| `ConfigApply.EveryChangedAgentIsNamed` | packages/core/src/agent/config-assistant-proposals.ts:277-296 | When whole-map changes are records, every agent that differs after all config and prompt changes is named by the proposal |
| `ConfigApply.SegmentsOfLower` | packages/core/src/agent/config-assistant-proposals.ts:336-340 | Lower-casing a path before splitting it only lower-cases its segments |
| `ConfigApply.OpenPathIff` | packages/core/src/agent/config-assistant-proposals.ts:336-360 | A path is open exactly below the four open keys, in any case, without a credential's name on the way, and not at the misplaced sub-agents |
| `ConfigApply.EndsInCredential` | packages/core/src/agent/config-assistant-proposals.ts:329-334 | A name that ends in one of the eleven words, in any case, is a credential's |
| `ConfigApply.CarriesIff` | packages/core/src/agent/config-assistant-proposals.ts:375-379 | A value carries a credential exactly if some steps into records and lists lead to a record with such a key |
| `ConfigApply.OpenChangeWritesNoCredential` | packages/core/src/agent/config-assistant-proposals.ts:336-389 | A change that is let through, over own keys only in path and value, alters only the four open top-level keys and sets nothing under a credential's name |
| `ConfigApply.LeavesConfigIff` | packages/core/src/agent/config-assistant-proposals.ts:222-234 | From a loaded config the walk to a change's place reaches the object all others inherit from exactly if one of the segments walked is `__proto__` |
| `ConfigApply.InheritedIsLetThrough` | packages/core/src/agent/config-assistant-proposals.ts:336-346 | Such a path passes the guard: `agents.__proto__.` and any last segment it allows elsewhere |
| `DecimalSum.RoundHalfUpIsNearest` | packages/core/src/agent/arithmetic-check.ts:112-120 | Rounding gives the one nearest number, ties away from zero, treats both signs alike, and is exact with places to spare |
| `DecimalSum.TotalIsExact` | packages/core/src/agent/arithmetic-check.ts:143-148 | The sum in whole units is the exact real sum |
| `DecimalSum.VerdictIsExact` | packages/core/src/agent/arithmetic-check.ts:130-150 | A chain matches exactly when its exact sum, rounded to the stated total's places, half a unit away from zero, is the total |
| `DecimalSum.VerdictTold` | packages/core/src/agent/arithmetic-check.ts:130-150 | A verdict is Skip, or Checked, exactly as the figures' readings, sizes and places say, and a checked one matches exactly unless the sum misses |
| `DecimalSum.TooLargeIff` | packages/core/src/agent/arithmetic-check.ts:135 | A term is too large exactly if it is worth more than a 1 with fifteen noughts, of either sign |
| `DecimalSum.Evaluate` | packages/core/src/agent/arithmetic-check.ts:130-150 | The loop gives the verdict, the first unusable term deciding |
| `DecimalSum.FormatReadsBack` | packages/core/src/agent/arithmetic-check.ts:122-127 | The written sum denotes the units, split before the last places |
| `SumCheck.GapTests` | packages/core/src/agent/arithmetic-check.ts:52-54 | The tests on a gap hold exactly for a plus, a spaced minus, an equals sign with spaces around |
| `SumCheck.LineMarkerEnd` | packages/core/src/agent/arithmetic-check.ts:157-164 | The two scans find the end of a list or quote marker, or that there is none |
| `SumCheck.LeadIff` | packages/core/src/agent/arithmetic-check.ts:183-190 | The spaces before a chain do not count; before them stands nothing, a letter, a colon, a bar or the line's marker |
| `SumCheck.TailIff` | packages/core/src/agent/arithmetic-check.ts:192-197 | The spaces behind a total do not count; what follows is judged |
| `SumCheck.LineReader.LineMismatches` | packages/core/src/agent/arithmetic-check.ts:200-252 | The loop reports exactly what each item that closes a chain should report, and reads the stated number of characters |
| `SumCheck.ClosesIff` | packages/core/src/agent/arithmetic-check.ts:200-249 | The loop meets a total exactly where a stated sum ends that begins where no earlier figure joins |
| `SumCheck.ReportIsSound` | packages/core/src/agent/arithmetic-check.ts:200-252 | Every report is of such a sum of 2 to 199 figures, with an allowed lead and tail, skipped under no convention, read under one, and missed by the exact rounded sum under each that reads it; it shows its terms, operators and sum |
| `SumCheck.MissIsReported` | packages/core/src/agent/arithmetic-check.ts:200-252 | And every such sum is reported, so |
| `SumCheck.ReportShows` | packages/core/src/agent/arithmetic-check.ts:235-241 | A report shows its terms and its total as written, and where they stand in the original |
| `SumCheck.ExcerptIs` | packages/core/src/agent/arithmetic-check.ts:235-237 | An excerpt is the original's text, trimmed, or its first 159 characters and an ellipsis |
| `SumCheck.LeadReadsAreFew` | packages/core/src/agent/arithmetic-check.ts:166-190 | The lead checks of a line read at most its length and one character for each chain |
| `SumCheck.NoEqualsNoReport` | packages/core/src/agent/arithmetic-check.ts:265-268 | A line without an equals sign reports nothing and costs nothing |
| `SumCheck.FindArithmeticMismatches` | packages/core/src/agent/arithmetic-check.ts:258-270 | The reports of every line, at a cost bounded by the text and its chains |
| `AssistWaiters.PendingIffRequested` | packages/core/src/agent/browser-session.ts:118-202 | In every run a session has a pending entry with exactly one armed timer if and only if it asks for a human |
| `AssistWaiters.NoWaitIsToldTwice` | packages/core/src/agent/browser-session.ts:118-202 | In every run no wait is resolved twice |
| `AssistWaiters.StepTells` | packages/core/src/agent/browser-session.ts:118-202 | Each event tells exactly whom it should what: a request for an unknown session that it stopped, a timer its own wait, a resolve and a stop all that wait |
| `AssistWaiters.StateIsLastSaid` | packages/core/src/agent/browser-session.ts:106-198 | In every run a session is known exactly once registered, and its state is what the last event that speaks of it says |
| `AssistWaiters.ResolveAndStopTellAll` | packages/core/src/agent/browser-session.ts:163-202 | A resolve or a stop delivers its outcome to every wait joined to the request |
| `AssistWaiters.OrphanIffLeftBehind` | packages/core/src/agent/browser-session.ts:126-159 | The waits that nothing will ever resolve are exactly those that joined a request which timed out |
| `AssistWaiters.LeftBehindForever` | packages/core/src/agent/browser-session.ts:146-156 | Once left behind, never resolved, however the run goes on |
| `AssistWaiters.TimeoutLeavesTheSecondWaiting` | packages/core/src/agent/browser-session.ts:126-133 | A concrete run: the second request for the same help never ends |
| `AssistWaiters.ListenerThatResolvesAtOnce` | packages/core/src/agent/browser-session.ts:142 | A listener that resolves a request while told of it leaves a pending entry in a session that asks for nothing |
| `AssistWaiters.Manager.RequestHelp` | packages/core/src/agent/browser-session.ts:118-160 | A request joins the pending one, starts one, or ends at once for an unknown session |
| `AssistWaiters.Manager.TimeOut` | packages/core/src/agent/browser-session.ts:146-156 | The timer's callback |
| `AssistWaiters.Manager.Resolve` | packages/core/src/agent/browser-session.ts:163-185 | A resolve, telling whether the session is known |
| `AssistWaiters.Manager.StopSession` | packages/core/src/agent/browser-session.ts:188-202 | A stop |
| `WarmQueue.WarmDiscipline` | packages/core/src/agent/cache-warmer.ts:260-339 | In every run at most one warm call is out, an unaborted one only while no turn runs and its generation is current, and a live timer is the one on record in an idle, running keeper |
| `WarmQueue.NothingSentDuringTurns` | packages/core/src/agent/cache-warmer.ts:253-258 | While, of some suffix of what has happened, more turns have started than ended, no head is sent |
| `WarmQueue.QuietWhileBusy` | packages/core/src/agent/cache-warmer.ts:285-302 | Then no timer is live, every call out is aborted, and no event sends anything |
| `WarmQueue.TurnsAreCounted` | packages/core/src/agent/cache-warmer.ts:285-301 | In every run the counter is the greatest excess of turn starts over turn ends of any suffix |
| `WarmQueue.CountIsDifference` | packages/core/src/agent/cache-warmer.ts:285-301 | When no turn ends that did not start, it is the difference |
| `WarmQueue.ArmedIff` | packages/core/src/agent/cache-warmer.ts:298-309 | In every run a timer is live exactly if, since the last turn's start, stop or firing, a turn's end left the enabled, running keeper without turns |
| `WarmQueue.SendsIff` | packages/core/src/agent/cache-warmer.ts:260-277 | Which events send a head, told by the turns and starts so far |
| `WarmQueue.EveryHeadOnce` | packages/core/src/agent/cache-warmer.ts:272-281 | A queue makes at most as many calls as it collected heads, and exactly as many when it ends without a turn's start or a stop in between |
| `WarmQueue.AbortsAreCollisions` | packages/core/src/agent/cache-warmer.ts:253-258 | In every run as many calls are aborted as turn starts and stops met a call no one had aborted |
| `WarmQueue.OvertakenQueueEnds` | packages/core/src/agent/cache-warmer.ts:274-277 | Once a turn has started or the keeper has stopped, the queue then running never sends again, however the run goes on, also when all turns have ended |
| `WarmQueue.SendsAgainIff` | packages/core/src/agent/cache-warmer.ts:253-276 | Something can be sent before the next turn's end or start of the keeper exactly if a timer is armed, or the running queue has heads left and is neither overtaken nor aborted |
| `WarmQueue.RewarmIsLost` | packages/core/src/agent/cache-warmer.ts:59-60 | A timer that fires while an overtaken queue still unwinds is used up: nothing is sent in any continuation until a turn ends or the keeper is started |
| `WarmQueue.ShortTurn` | packages/core/src/agent/cache-warmer.ts:59-60 | A turn that begins and ends within one call leads there |
| `WarmQueue.CacheWarmer.MarkOrchestratorActivity` | packages/core/src/agent/cache-warmer.ts:285-296 | A turn's start |
| `WarmQueue.CacheWarmer.MarkOrchestratorIdle` | packages/core/src/agent/cache-warmer.ts:300-309 | A turn's end |
| `WarmQueue.CacheWarmer.WarmQueueStarts` | packages/core/src/agent/cache-warmer.ts:260-276 | The queue up to its first wait |
| `WarmQueue.CacheWarmer.StopCacheWarmer` | packages/core/src/agent/cache-warmer.ts:328-339 | The stop |

## Left out

Deliberately narrower contracts:

- Quorum.QuorumSafety: `onAbandon` does not throw, runners do not throw before returning their promise, and k is a whole number.
- A2AClient.RegistryAgreement: no clash with built-in tools; the tool definitions, the endpoint choice and the audit trail of a registration are not modelled.
- ICalendar.ParseUndoesPrint: dates are broken-down UTC fields, in range and with non-negative years; what is read of an attendee with a line feed is told for one whose second line is a property (AttendeeOfTwoLines), not for a folded one or one whose further lines are none (RoundTripIsIdentityIff tells that it is not the attendee).
- QueryText.LinesMeanQueries: no term holds a line feed; letters have two cases in ASCII only.
- QueryLowering.LoweringPreservesMeaning: what day and what size a value reads as are parameters, as `parseDate` and `parseSize` are not modelled; a message has an attachment when it is multipart and a file's name when its body holds it, which is what the source asks for.
- DraftStore.Store.UpdateDraft: an id that names what every object inherits, such as `constructor`, counts as known in the source; the model's drafts hold own ids only.
- DraftStore.Store.MarkDraftSent: likewise for such an id.
- DraftStore.SentStaysSent: at most one load has begun, and for the file the first load gave it; OneLoadIff shows that overlapping loads lose mutations.
- Temperature.FitLog: real arithmetic; the loss and the exponential are parameters with the stated properties, and the ratio is the one whose square and itself make 1.
- NewestMail.NewestOfAllIff: limit at least 1, the present not before 1970 or all matches dated, no picked copy newer than the one met first (ReturnedOrOlderIff does without), a search finds each message once, under its own key, at most 10,000, and a fetch answers what it is asked.
- ConfigApply.DisjointPathStays: the config is a value, so the walk rebuilds records where the source mutates them; like PathIsWritten it is about own keys (LeavesConfigIff tells when the walk leaves them).
- SecondPass.PromiseIff: no file exists, as when there is no workspace, so the pass goes by the known paths only.
- PathRepair.RepairReferences: whether a file exists does not change during a pass; extensions are compared by the case of ASCII letters only.
- NearCopy.IsDropOrDuplicationCopy, IcsText.FoldIcsLine: a character is one UTF-16 code unit, so texts beyond the basic plane are not covered.
- SumCheck.FindArithmeticMismatches: figures, their places and readings are given (`figure-provenance.ts` and `table-numbers.ts` are not part of this model), as is the blanking of markup.
- WarmQueue.EveryHeadOnce: heads are counted, not told apart; how they are collected and ranked is not modelled.
- AssistWaiters.PendingIffRequested: listeners do not call back into the manager; ListenerThatResolvesAtOnce shows what happens when one does.

Not modelled:

- Network, disk, mail server, containers and clocks, other than as events, parameters or given answers.
- The vCard pair of the calendar client, which repeats the calendar's structure with fewer properties.
- Bilinear resizing and PNG chunk parsing around the filter reversal.
- The case reordering and balancing of the training script, and the loss values it reports.
- Message previews and body decoding of the mail client, and its full-source search.
- The staleness, peer and refusal messages of config proposals, and their storage.
- Keyword heuristics, prompts, rendering, audit, logging, UI, routes and access decisions.

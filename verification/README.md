# A verified model of the research agent's core

This project models the parts of a literature research agent on which its
guarantees rest, and proves those guarantees with Dafny: the durable job queue
with its leases, the tokenizer and the token-budgeted evidence context, the
recovery of document structure and the chunker, the dense and the BM25 index,
the governance of evidence, index generations, the merging of bibliographic
records, and the retrieval metrics. `dafny verify dfyconfig.toml` checks all of it.

## How it is organised

* **Jobs** (`JobStore`, `JobInvariants`, `JobRuns`, `JobScheduling`,
  `JobRepository`, `JobWorker`). The job table and its journal are a value; every
  committed repository operation is a function on it; a run is any sequence of
  operations, late cancellations and writes without a lease included. The class `PersistentJobRepository` performs the
  same operations in place and is proved equal to the functions; the worker
  interleaves arbitrary operations of others inside each turn.
* **Text** (`Text`, `Tokenization`, `TokenCounting`). The tokenizer and the law by
  which counts of joined texts relate to counts of their parts.
* **Context** (`ContextBundles`, `Truncation`, `Fingerprints`, `ContextAssembly`,
  `AnswerDrafts`).
  The assembler, the bundle validator and the answer validator, proved to agree.
* **Documents** (`Structure`, `Splitting`, `Oversized`, `Chunker`, `Absorption`,
  `Overlap`, `ChunkBuilder`). The section stack against a declarative tree, and
  the chunker from one block's text to the finished chunks.
* **Indexes** (`DenseIndex`, `DenseCollection`, `Bm25`). Incremental update against
  rebuild, postings against counting.
* **Evidence** (`Sequences`, `Ordering`, `EvidenceVerification`, `EvidenceSelection`,
  `SelectedContext`, `EvidencePipeline`).
* **Generations** (`Generations`, `GenerationSafety`), **papers** (`PaperMerge`,
  `MergedPapers`) and **metrics** (`RankingMetrics`).

## Behaviour worth knowing

Some properties one might expect do not hold of the code. For each there is a
concrete case and, where one exists, the exact condition under which it holds.

* A cancellation can be overridden by a worker whose ownership check came first
  (`JobRuns.CancelGap`, `JobRuns.CancelCanBeLost`). `request_cancel` reads and later
  writes without a test, so it can reopen a finished job or turn its success into a
  cancellation (`JobRuns.CancelCanResurrect`, `JobRuns.CancelCanErase`); what may
  happen to a terminal row, and when a cancelled job is left without a worker, is
  settled exactly (`JobRuns.TerminalFrozen`, `JobRuns.CancelWriteGap`).
* A replayed dead letter can run again if and only if its attempts were reset
  (`JobRuns.ReplayClaimableIff`, `JobRuns.StrandedUntilReset`).
* A worker turn, and with it the loop over turns, raises when its final write comes
  too late (`JobWorker.PersistentJobWorker.TurnSucceedsIff`,
  `JobWorker.PersistentJobWorker.TurnCanRaise`).
* Absorbing small parent chunks can drop text: a context taken over earlier is
  overwritten (`Absorption.LosslessIff`, `Absorption.AbsorptionCanLose`).
* A chunk can exceed the configured maximum: by less than a factor of two through
  pairs of CJK tokens across joins, and beyond that only as a single unit of at most
  one word. Which texts lead to such a chunk is settled exactly
  (`Oversized.SplitSizesIff`, `ChunkBuilder.BuildChunks`,
  `Chunker.TangledBlockIsTooBig`).
* Two papers can share a dense point id, exactly when one paper id goes on behind
  the other with a colon and a chunk id of the other starts with the same text
  (`DenseIndex.SharedPointIff`). After an update stopped half way, the next one to
  complete must treat the same papers (`DenseCollection.UpdateUntilCompleted`,
  `DenseCollection.StoppedDeleteIff`, `DenseCollection.RevertAfterStopIsUnsafe`).
* A stale external candidate hides later good ones for the same source
  (`EvidenceVerification.SourceRepresentedIff`, `EvidenceVerification.StaleHidesGood`).
* The recorded token count of a context pack leaves out the rendered headers, so a
  pack can render over its budget (`SelectedContext.RenderedFitsIff`,
  `SelectedContext.PackCanOverflow`).
* An answer's claim can cite one source twice, exactly when two of its ids differ
  only in surrounding white space (`AnswerDrafts.CitesOnceIff`,
  `AnswerDrafts.PaddedSourceRepeats`).
* An activation interrupted between its three writes leaves a workspace that only
  the old generation can repair, or one where rolling back makes two generations
  active; a first activation interrupted before its pointer write is never repaired
  (`GenerationSafety.StoppedAfterRetire`, `GenerationSafety.StoppedBeforePointer`,
  `GenerationSafety.FirstActivationStopped`).
* nDCG exceeds 1 for some discount exactly when the first k results hold more hits
  than min(relevant, k), as with repeated ids (`RankingMetrics.NdcgBoundedIff`,
  `RankingMetrics.RepeatsExceedOne`).

## Modelling choices

* Clocks, random tokens, generated ids, embeddings, rerankers, the workspace filter
  and the corpus lookup are parameters. Timestamps and job ids are numbers.
* `worker_id` and `lease_token` are one column, since every statement sets or clears
  both. A token is fresh when no earlier operation of the run carried it; only the
  fencing theorems and the result on raising turns assume this.
* Each committed SQL transaction or file write is one step. `request_cancel` is a
  read and a later write with the operations of other clients in between, and so are
  the worker's check and write; the results above say which properties hold when the
  two are one step and what happens when they are not.
* A status write carries the lease it must match, or none: a client without a lease
  may write the terminal statuses, a worker writes those it writes in the code.
* `evidence_id` and `candidate_id` are one field, since the code fills both from the
  candidate's id: selection sorts by the first, verification by the second.
* Digests, fingerprints and name-based ids are taken as injective.
* Texts are taken after Unicode normalisation and case folding.
* Scores, discounts and averages are real numbers; a trim threshold of 0.7 is the
  exact fraction.

## Model

| member | source | states |
|---|---|---|
| `JobInvariants.StepInv` | app/jobs/repository.py:202-731 | Every committed operation, in any order, keeps the row invariant: `finished_at` is set exactly in terminal statuses, a RUNNING row has a lease, queued, interrupted and terminal rows have none, `attempt` matches the journal and stays within `max_attempts`. Operations include the late write of `request_cancel` with the status it read, and closing writes without a lease |
| `JobRuns.ReachableInv` | app/jobs/repository.py:202-731 | The invariant holds after every run of these operations from the empty table |
| `JobRuns.LeaseIsHolder` | app/jobs/repository.py:404-447 | The stored lease always equals the one the history of the run implies: the latest claim not yet ended by an interruption, a recovery or a terminal write |
| `JobRuns.LeaseByStatus` | app/jobs/repository.py:357-454 | The lease of a job is the one its history implies: RUNNING jobs hold that of their latest claim; QUEUED, INTERRUPTED and terminal jobs hold none, on every run |
| `JobRuns.Fencing` | app/jobs/repository.py:582-623 | With a fresh token per claim, a guarded status write carrying a token lands if and only if it names the claiming worker, that claim is the most recent one of the job, and the job has since been neither interrupted nor made terminal |
| `JobRuns.HeartbeatFencing` | app/jobs/repository.py:541-568 | The same equivalence for heartbeats, which additionally need the job to be RUNNING |
| `JobRuns.TerminalFrozen` | app/jobs/repository.py:317-642 | The exact effect of one operation on a row in a terminal status: a landing `requeue_failed`, a late cancel write and a write without a lease change it as specified, everything else leaves it as it is; and the status changes if and only if a replay lands or such a write names another status |
| `JobRuns.TerminalStays` | app/jobs/repository.py:317-642 | On any run a row keeps its terminal status for as long as none of those three lands on it with another status |
| `JobRuns.CancelGap` | app/jobs/worker.py:240-259 | The exact way a job leaves CANCEL_REQUESTED for anything but CANCELLED: a landing write of another status, without a lease or with the one still valid, whose check came before the request |
| `JobRuns.CancelIsFinal` | app/jobs/worker.py:173-271 | When each check and its write are one step, a job whose cancellation was requested is CANCEL_REQUESTED or CANCELLED on the rest of the run: worker writes with their ownership checks, and writes without a lease that ask whether a cancellation was requested |
| `JobRuns.CancelCanBeLost` | app/jobs/worker.py:263-271 | A concrete run with the check and the write apart in which a job under cancellation ends SUCCEEDED |
| `JobRuns.CancelWriteGap` | app/jobs/repository.py:625-639 | One operation puts a job under cancellation that no worker holds if and only if it is the late write of a `request_cancel` that read the status of a running job whose lease has gone since |
| `JobRuns.CancelRequestedHeld` | app/jobs/repository.py:625-642 | On runs whose cancellations read and write in one step, every job under cancellation is still held by its latest claim |
| `JobRuns.CancelCanResurrect` | app/jobs/repository.py:625-639 | A concrete run in which that late write takes a SUCCEEDED row back to CANCEL_REQUESTED, where no worker holds it |
| `JobRuns.CancelCanErase` | app/jobs/repository.py:625-642 | A concrete run in which a `request_cancel` that read QUEUED turns a SUCCEEDED row into a CANCELLED one |
| `JobRuns.RetryAccounting` | app/jobs/repository.py:404-451 | `attempt` equals the number of STARTED lines since the last resetting replay, lies in 0..`max_attempts`, and all STARTED lines number at most `max_attempts` for each granted budget |
| `JobRuns.JournalGrows` | app/jobs/repository.py:475-503 | The journal of a job is append-only and grows by at most one line a step |
| `JobRuns.ClaimsAreJournaled` | app/jobs/repository.py:415-451 | The STARTED lines of a job are exactly the claims of the run |
| `JobRuns.ReplayClaimableIff` | app/jobs/repository.py:317-355 | After any landing replay the job is RETRY_PENDING, and it can be claimed if and only if its attempts were reset; otherwise it is stranded |
| `JobRuns.StrandedUntilReset` | app/jobs/repository.py:317-414 | On any run a job replayed without a reset is not claimed again until a replay with a reset lands on it |
| `JobRuns.ReplayWithoutResetStrands` | app/jobs/repository.py:317-642 | When no client writes without a lease, a dead letter replayed without resetting its attempts is never claimed again on any continuation; it waits or is cancelled |
| `JobRuns.OneJobPerKey` | app/jobs/repository.py:221-226 | On every run no two jobs share an idempotency key |
| `JobScheduling.PickIsLeast` | app/jobs/repository.py:385-403 | `claim_next` finds nothing exactly when nothing is eligible; otherwise the row it finds is the only one preceding all other eligible rows by scope load, age and id |
| `JobScheduling.ClaimOrder` | app/jobs/repository.py:385-403 | A claim finds a row if and only if some row waits, has attempts left, is due, of an asked type and in a scope below the limit; of those it takes one in a scope with the fewest RUNNING jobs, there the oldest, and of several created at once the one with the smallest id |
| `JobScheduling.ScopeLimit` | app/jobs/repository.py:375-383 | When all claims go through `claim_next` with one limit, no scope ever has more RUNNING jobs than the limit |
| `JobScheduling.BudgetStep` | app/jobs/repository.py:404-414 | One step: remaining attempts fall by one for a claim and rise only by what a submit or a resetting replay grants |
| `JobScheduling.AttemptsConserved` | app/jobs/repository.py:340-451 | Over any sequence of operations: attempts left plus claims made equals attempts before plus attempts granted |
| `JobRepository.PersistentJobRepository.AppendAction` | app/jobs/repository.py:475-503 | Appends one line to the journal of the job and touches no other journal and no row |
| `JobRepository.PersistentJobRepository.Submit` | app/jobs/repository.py:202-262 | New state, the returned job and the created flag; ValueError exactly for a blank type, workspace or key or a version or attempt limit below 1; a created row is QUEUED with no attempt made, under its own type, scope and limit |
| `JobRepository.PersistentJobRepository.SelectNext` | app/jobs/repository.py:385-401 | The loop over the rows returns the specified first row in claim order |
| `JobRepository.PersistentJobRepository.ClaimNext` | app/jobs/repository.py:357-426 | New state and the claimed job, None when nothing is eligible, ValueError exactly for a non-positive limit; the row taken was waiting and due, starts its next attempt under the new lease, and loses its old end and error |
| `JobRepository.PersistentJobRepository.Claim` | app/jobs/repository.py:428-454 | Succeeds exactly for a claimable row, which starts its next attempt under the new lease |
| `JobRepository.PersistentJobRepository.Heartbeat` | app/jobs/repository.py:541-568 | Succeeds exactly for a RUNNING row whose lease matches, and changes only its heartbeat and checkpoint |
| `JobRepository.PersistentJobRepository.SetStatus` | app/jobs/repository.py:570-623 | A worker without a token is refused; otherwise the write lands exactly when the lease matches, and the row and journal are as specified |
| `JobRepository.PersistentJobRepository.CancelNow` | app/jobs/repository.py:625-642 | Cancelling in one step: a job no worker has ends as CancelledByUser, one that a worker has is marked and keeps its lease, an ended one stays as it is |
| `JobRepository.PersistentJobRepository.RequestCancel` | app/jobs/repository.py:625-639 | Reads the status and later writes without a test, whatever other clients commit in between: the new state is that late write, or no change for a terminal row; with nothing in between it is the cancellation in one step; KeyError exactly for an unknown job |
| `JobRepository.PersistentJobRepository.MarkInterrupted` | app/jobs/repository.py:644-696 | Exactly the running rows and those under cancellation whose heartbeat is older than the threshold change, the first to INTERRUPTED, the second to CANCELLED; no journal line is written |
| `JobRepository.PersistentJobRepository.RecoverInterrupted` | app/jobs/repository.py:698-731 | Exactly the INTERRUPTED rows change, by the retry budget; no journal line is written |
| `JobRepository.PersistentJobRepository.RequeueFailed` | app/jobs/repository.py:317-355 | Succeeds exactly for an exhausted FAILED row of the given owner, which becomes claimable at once with its attempts kept or reset; says which error is raised otherwise |
| `JobWorker.DelayLaw` | app/jobs/worker.py:80-89 | The delay before a retry: the base after the first attempt, twice as much after each further one, cut at a positive cap |
| `JobWorker.BackoffGrows` | app/jobs/worker.py:80-89 | A later attempt never waits less, and a positive cap bounds every wait |
| `JobWorker.PersistentJobWorker.RunOnce` | app/jobs/worker.py:183-271 | One turn commits exactly the specified operations, whatever other clients commit while the handler runs and between check and write; returns the job, None with nothing eligible, or raises KeyError exactly when the final write no longer matches |
| `JobWorker.PersistentJobWorker.TurnStores` | app/jobs/worker.py:183-271 | The row a turn leaves, whatever others commit while it runs: unchanged by the turn when it reports nothing or its lease has gone; otherwise a returned reference is stored without an error, a raised error is stored with its type, and a retry can be claimed exactly from the turn's end plus delay and jitter on |
| `JobWorker.LeaseSince` | app/jobs/repository.py:404-696 | From any state of the invariant, a lease nobody draws again stands exactly as long as no operation claims the job or leaves it interrupted or terminal; while it stands the attempt stays the same |
| `JobWorker.PersistentJobWorker.TurnSucceedsIff` | app/jobs/worker.py:183-271 | Whatever clients with other tokens commit between check and write, a turn raises nothing if and only if it decides not to write, or its lease stands at the check and no operation behind the check claims, interrupts or ends the job |
| `JobWorker.PersistentJobWorker.TurnCanRaise` | app/jobs/worker.py:263-271 | A concrete turn that raises: the job is marked interrupted between check and write |
| `JobWorker.PersistentJobWorker.RunUntilIdle` | app/jobs/worker.py:273-282 | Refuses a non-positive limit; a KeyError of a turn ends the loop after exactly the turns before it; otherwise the returned jobs are those of the turns in order, stopping early means nothing was eligible, and the turns run are bounded by attempts left plus attempts granted |
| `JobWorker.PersistentJobWorker.AtomicFinishLands` | app/jobs/worker.py:240-271 | With check and write as one step the final write lands if and only if the check compared the token or the token still matches, and it never takes a job out of cancellation |
| `Tokenization.MatchesAreCut` | app/indexing/tokenization.py:12-25 | The matches of a text are cut out of it by disjoint intervals from left to right; every word or CJK character lies in exactly one; each is a single CJK character, or word characters joined by single hyphens or apostrophes that cannot be extended on either side |
| `Tokenization.Tokenize` | app/indexing/tokenization.py:22-46 | The loop over the matches with its flush of the pending CJK run |
| `Tokenization.ScanContents` | app/indexing/tokenization.py:29-46 | For any list of matches, flushing runs yields each match once and each adjacent CJK pair once |
| `Tokenization.TokensAreMatchesAndPairs` | app/indexing/tokenization.py:22-46 | The token list is a permutation of the raw matches and the adjacent CJK pairs, so its length is their sum |
| `Tokenization.TokenizeBm25` | app/indexing/tokenization.py:49-62 | Every token, followed by its hyphen parts when it has any |
| `Tokenization.HyphenPartsAre` | app/indexing/tokenization.py:58-62 | The hyphen parts of a token have characters, contain no hyphen, and together are the token's other characters in order |
| `Tokenization.HyphensCut` | app/indexing/tokenization.py:58-62 | Every hyphen cuts and nothing else does: parts around a hyphen are computed independently, and a text without one is one part |
| `TokenCounting.CountIsTokenCount` | app/indexing/tokenization.py:65-66 | The character-by-character count used in the proofs equals the length of the token list |
| `TokenCounting.CountPrefix` | app/indexing/tokenization.py:65-66 | The count never falls as a prefix grows |
| `TokenCounting.CountConcat` | app/indexing/tokenization.py:22-46 | The exact count of a concatenation at a clean boundary: the sum, plus one when a CJK token meets a CJK token |
| `TokenCounting.CountSpaced` | app/indexing/tokenization.py:22-46 | Joining two texts by white space adds 0 or 1 token, and exactly when |
| `TokenCounting.JoinBound` | app/indexing/tokenization.py:22-46 | Parts whose weights add up to at most 2n join to at most 2n - 1 tokens |
| `TokenCounting.NoCjkJoin` | app/indexing/tokenization.py:22-46 | Without CJK characters the count of a join is the sum of the counts |
| `ContextBundles.HeaderFences` | app/context/assembly.py:112-133 | A rendered header begins and ends with word tokens whatever its fields contain, so blocks never form a pair across their boundary |
| `ContextBundles.HeaderShows` | app/context/assembly.py:112-133 | The header of an item names its source id, title, work, document, section, pages and blocks, or canonical id and locator, each behind its own label |
| `ContextBundles.IntReadsBack` | app/context/assembly.py:112-133 | A page number written in a header reads back as that number, its sign in front |
| `ContextBundles.RenderCount` | app/context/assembly.py:136-137 | The count of a rendered item is exactly the count of its header plus the count of its content |
| `ContextBundles.ContextTextSnoc` | app/context/assembly.py:432 | Appending a rendered block adds exactly its own count to the whole joined text |
| `ContextBundles.ContextTextGrows` | app/context/assembly.py:432 | A new item stands at the end of the joined text, behind a blank line; the text before it stays as it is |
| `ContextBundles.SourceInText` | app/generation/validation.py:89-96 | The bracketed source id of every item occurs in the joined text |
| `ContextBundles.ValidateContextBundle` | app/generation/validation.py:52-97 | The validator reports no issue if and only if the bundle meets the declarative validity condition; then every item can be attributed: text, work, document, title, pages and blocks, or canonical id and locator, and its bracketed id stands in the text |
| `ContextBundles.DistinctByCardinality` | app/generation/validation.py:77-79 | Comparing list length with set size detects duplicate ids exactly |
| `Truncation.LongestFitIsLongest` | app/context/assembly.py:146-153 | A prefix fits the budget if and only if it is no longer than the longest fitting one |
| `Truncation.BisectPrefix` | app/context/assembly.py:146-153 | The bisection, whose probe strips and appends an ellipsis, returns that longest length |
| `Truncation.TruncateToBudget` | app/context/assembly.py:140-160 | The whole truncation, ellipsis and word-boundary trim included, computes the specified text |
| `Truncation.TrimIsAtBreak` | app/context/assembly.py:157-160 | The trim cuts at the last blank or line break if it lies in the last three tenths of the prefix, and cuts nothing otherwise |
| `Truncation.TruncatedFits` | app/context/assembly.py:140-160 | The truncated text never exceeds the budget, and is blank only if the text was |
| `Truncation.FitIsVisible` | app/context/assembly.py:154-156 | The longest fitting prefix is never empty after stripping |
| `Fingerprints.SameFingerprintIff` | app/context/assembly.py:34-36 | Two texts have one fingerprint if and only if they have the same words |
| `ContextAssembly.CandidateContent` | app/context/assembly.py:56-109 | The evidence text consists of every usable new context once, in order, then the primary content; with the block ids, pages, fingerprints and omissions that go with it |
| `ContextAssembly.StringListIs` | app/context/assembly.py:26-31 | A list field holds exactly the stripped texts of its entries that have one |
| `ContextAssembly.AttachedAre` | app/context/assembly.py:69-84 | A candidate comes with its parent contexts in their order and then its overlap context, each of its kind |
| `ContextAssembly.KeptAreOurs` | app/context/assembly.py:56-95 | A context shown with a candidate has a text, and names no work and no document but its own |
| `ContextAssembly.EvidenceTextShows` | app/context/assembly.py:56-109 | The evidence text contains every kept context, stripped, under a label with its kind, section and pages, and the primary content last |
| `ContextAssembly.LocalItemIs` | app/context/assembly.py:163-273 | The item of a local candidate has its ids, title and section path, its block ids and those of the contexts shown, each once and its own first, and spans exactly its pages and theirs |
| `ContextAssembly.WebItemIs` | app/context/assembly.py:163-273 | The item of an external candidate has its canonical id, locator, locator type and title |
| `ContextAssembly.FittedFits` | app/context/assembly.py:403-420 | A block fitted into what remains respects the remaining budget and is still a valid item |
| `ContextAssembly.OnlyTheBudgetRejects` | app/context/assembly.py:412-415 | The test for an empty truncation never succeeds: a block is refused exactly when the minimum content budget is not left |
| `ContextAssembly.FitBlock` | app/context/assembly.py:403-420 | The inline fitting code computes the specified item |
| `ContextAssembly.StepWeb` | app/context/assembly.py:314-350 | One external candidate: skipped with exactly the specified reason, or exactly the specified item appended; the budget, uniqueness and per-work facts stay |
| `ContextAssembly.DuplicateSourceIff` | app/context/assembly.py:314-330 | An external candidate with a text is refused as a duplicate if and only if an item of the bundle has its canonical id, or its locator when it has no canonical id |
| `ContextAssembly.StepLocal` | app/context/assembly.py:351-430 | One local candidate, likewise, with chunk, content, document version and per-work rules |
| `ContextAssembly.SoundIsValid` | app/generation/validation.py:52-97 | Any sound, non-empty bundle passes every check of the validator |
| `ContextAssembly.SelectEvidence` | app/context/assembly.py:300-430 | The loop with its tables selects exactly the items and skips with exactly the reasons that candidate by candidate decisions about the evidence so far give |
| `ContextAssembly.DuplicateContentIff` | app/context/assembly.py:368-371 | A local candidate that passes the metadata and chunk tests is refused as duplicate content if and only if its words are those of the content, or of a context, shown with an item already admitted |
| `ContextAssembly.ContextKeptIff` | app/context/assembly.py:56-95 | A usable context of a candidate is shown if and only if its words were shown neither before nor by the content or an earlier context of this candidate |
| `ContextAssembly.TablesAnswer` | app/context/assembly.py:302-306 | The tables of chunks, document versions and counts answer exactly what the evidence selected so far says |
| `ContextAssembly.AssembleContextBundle` | app/context/assembly.py:276-451 | Refuses exactly the invalid arguments; otherwise the evidence is the specified selection, the bundle is within budget on the whole joined text, at most one item is truncated and it is the last, and source ids, per-work limits and document versions hold |
| `ContextAssembly.AssembleAndValidate` | app/context/assembly.py:276-451 | For any candidate list, a bundle with at least one item passes `validate_context_bundle` with no issue |
| `AnswerDrafts.ValidateSources` | app/generation/validation.py:168-211 | One claim's sources: no issue if and only if all are citable, and the citations produced |
| `AnswerDrafts.ValidateAnswerDraft` | app/generation/validation.py:100-215 | The report is valid if and only if the draft is a bare refusal with a reason that is not blank or every claim is supported by the bundle under distinct ids; an invalid report carries no citation |
| `AnswerDrafts.CitationsResolve` | app/generation/validation.py:190-211 | In an accepted answer every citation names an item of the bundle, and every claim is cited under its stripped id, which no other claim has |
| `AnswerDrafts.PaddedSourceRepeats` | app/generation/validation.py:160-170 | A concrete accepted draft that cites one source twice: repetition is tested before ids are stripped |
| `AnswerDrafts.CitesOnceIff` | app/generation/validation.py:160-211 | A supported claim cites no source twice if and only if its source ids still differ after stripping |
| `AnswerDrafts.TightIdsCiteOnce` | app/generation/validation.py:160-211 | So a supported claim whose ids carry no surrounding white space cites no source twice |
| `Splitting.SentencesKeep` | app/chunking/chunker.py:33-35 | Splitting into sentences keeps the words and the visible characters, in order |
| `Splitting.SentencesAreCut` | app/chunking/chunker.py:33-35 | Sentences are disjoint parts of the text from left to right; all but the last end with one of the six marks, and in none of them a mark stands before white space |
| `Splitting.SentenceShorter` | app/chunking/chunker.py:52-53 | Each sentence of a text with several is shorter than the text, so the recursion ends |
| `Splitting.WordsAreSolid` | app/chunking/chunker.py:61 | The words of a text contain no white space and together are its visible characters |
| `Oversized.GroupsAreGreedy` | app/chunking/chunker.py:46-58 | Grouping loses and reorders nothing, a group of several fits the maximum, and no group could have taken the first item of the next |
| `Oversized.PackWords` | app/chunking/chunker.py:68-81 | The loop packs words into exactly the greedy groups; every part has the allowed size or is one of the words |
| `Oversized.SplitKeeps` | app/chunking/chunker.py:38-81 | Splitting loses, adds and reorders no visible character |
| `Oversized.SplitSizes` | app/chunking/chunker.py:38-81 | Every part of any text has the allowed size or holds at most one word |
| `Oversized.SplitSizesIff` | app/chunking/chunker.py:38-81 | All parts of a text have the allowed size if and only if the text is manageable: it fits, or its sentences are manageable, or its words, or the windows of its only word, have the allowed size |
| `Oversized.SmallIsManageable` | app/chunking/chunker.py:38-81 | A text whose words have at most n tokens each is manageable |
| `Oversized.LongWordStays` | app/chunking/chunker.py:71-80 | A word above the maximum in a sentence of several words stays whole as a part of its own, so no absolute bound on parts holds |
| `Oversized.BigWordIsUnmanageable` | app/chunking/chunker.py:71-80 | A word of at least 2n tokens among several words of one sentence makes the text unmanageable and becomes a part above both bounds |
| `Oversized.TangleIsUnmanageable` | app/chunking/chunker.py:38-81 | For every n a concrete text of two words that is not manageable |
| `Oversized.SplitSentences` | app/chunking/chunker.py:42-59 | The sentence loop with its recursion computes the specified parts |
| `Oversized.SizeOkMeans` | app/chunking/chunker.py:38-81 | The allowed size is exactly at most 2n - 1 tokens, and at most n without CJK characters |
| `Oversized.SplitOversizedText` | app/chunking/chunker.py:38-81 | Computes the specified parts: a fitting text whole, else greedy groups of sentences, of words, or windows; keeps the visible text; an oversized part holds at most one word, and there is none if and only if the text is manageable |
| `Chunker.BlockUnits` | app/chunking/chunker.py:84-106 | The units of a block are exactly the non-empty parts of its content |
| `Chunker.Packer.Flush` | app/chunking/chunker.py:369-416 | Closes the current group as specified without changing the sequence of all units |
| `Chunker.Packer.AddBlock` | app/chunking/chunker.py:418-442 | One block: its units, and with them its visible text, are appended to those of all blocks before |
| `Chunker.UnitsOfFacts` | app/chunking/chunker.py:84-106 | The units of a block carry its whole visible text, its fields and true counts; each has the allowed size or holds at most one word, and all have the allowed size if and only if the text is manageable |
| `Chunker.BreaksAreForced` | app/chunking/chunker.py:418-443 | When every searchable block yields text, a chunk ends only where the section or zone changes or the next unit would not fit |
| `Chunker.PackBlocks` | app/chunking/chunker.py:361-443 | The visible text of all chunk units in order is that of the usable searchable blocks in order; each chunk comes from blocks of one section and zone, spans exactly their pages, and lists their ids, types and related ids once each in order of first appearance; a chunk exceeds its bounds only if it is one unit of at most one word, and none does if and only if every usable text is manageable |
| `Chunker.TangledBlockIsTooBig` | app/chunking/chunker.py:361-443 | For every maximum a concrete usable block whose text is not manageable, so that some chunk exceeds its bounds |
| `Chunker.ChunkBound` | app/chunking/chunker.py:361-443 | A chunk has at most 2n - 1 tokens, and at most n without CJK characters, if and only if its units are of allowed size; otherwise it is a single unit of at most one word |
| `Absorption.AbsorbSmallParentChunks` | app/chunking/chunker.py:182-216 | The loop that steps its index back terminates, ends with no adjacent pair absorbable, conserves absorbed plus remaining, and computes the specified survivors with their own units |
| `Absorption.BelowIs` | app/chunking/chunker.py:182-216 | When a chunk enters, what remains below it is what survives of the chunks up to the last one it cannot take |
| `Absorption.SurvivorsTakeOver` | app/chunking/chunker.py:132-216 | What a survivor took over is the unchanged record of an input chunk below the minimum, of paragraphs and lists only, of a section above in the same zone; and no survivor is such a chunk to the next one |
| `Absorption.LosslessIff` | app/chunking/chunker.py:201-210 | Flattening every survivor's parent contexts and itself gives back the original chunk sequence if and only if the input has no two chunks i < k, both small parents of the chunk behind k, where k cannot take i but can take everything between |
| `Absorption.NoReturnIsLossless` | app/chunking/chunker.py:155-216 | If no later small chunk's section path equals or is a prefix of an earlier small chunk's path, absorption loses nothing |
| `Absorption.AbsorptionCanLose` | app/chunking/chunker.py:207-210 | Two small chunks of one path before a subsection lose the text of one of them: the inherited context is overwritten |
| `Absorption.LossIsPossible` | app/chunking/chunker.py:207-210 | Such chunks exist |
| `Absorption.SurvivorPair` | app/chunking/chunker.py:182-216 | Survivors keep the order of the input |
| `Absorption.BigSurvives` | app/chunking/chunker.py:155-216 | A chunk that is not small survives unchanged |
| `Overlap.TailTextByTokens` | app/chunking/chunker.py:219-256 | The tail is the text if it fits, else its longest run of last sentences that fits, else of last words, else of last characters; it respects the bound and is a contiguous excerpt |
| `Overlap.OverlapContext` | app/chunking/chunker.py:259-302 | The context is assembled from exactly the last prose units that fit and the tail of the one before them |
| `Overlap.OverlapIsProse` | app/chunking/chunker.py:259-302 | An overlap context repeats paragraphs and lists only, and is missing only if the last of them does not fit whole |
| `Overlap.OverlapSize` | app/chunking/chunker.py:259-302 | An overlap context is within the overlap limit in the sense of the size bound and correctly counted |
| `Overlap.AttachOverlapContexts` | app/chunking/chunker.py:305-333 | A chunk that continues the section and zone of the one before gets exactly the context of its units, every other chunk none; nothing else changes, and the count is right |
| `ChunkBuilder.BuildChunks` | app/chunking/chunker.py:336-479 | End to end: refused exactly for invalid limits; packed, absorbed and attached as specified; every chunk spans exactly the pages of its blocks and lists their ids, types and related ids; what it took over comes from small prose chunks of sections above; overlap contexts come from the chunk before, of the same section and zone, and are bounded; all chunks are within their bounds if and only if every usable text is manageable, and one that is not holds at most one word; the chunks with the contexts they took over are the packed ones if and only if absorption loses nothing by the condition on the packed chunks, and then give back the visible text of the usable blocks |
| `Structure.PopTo` | app/chunking/structure.py:298-299 | After popping, the stack is the chain of the nearest earlier section of strictly lower level |
| `Structure.OpenSection` | app/chunking/structure.py:295-316 | A heading opens one section, with its own level, page and block, whose recorded path is its declarative title chain |
| `Structure.OwnBlock` | app/chunking/structure.py:339-384 | A block is recorded under the top section, whose `block_ids` it joins when it is not a heading |
| `Structure.CollectSections` | app/chunking/structure.py:280-384 | The whole loop refines the declarative tree: sections, paths, block ownership and order |
| `Structure.ScanBack` | app/chunking/structure.py:390-401 | The backward cursor returns the nearest searchable text neighbour inside the section, however far away |
| `Structure.ScanForward` | app/chunking/structure.py:390-401 | Likewise forward |
| `Structure.BeforeIsNearest` | app/chunking/structure.py:386-402 | The specification of the backward search is the nearest neighbour |
| `Structure.AfterIsNearest` | app/chunking/structure.py:386-402 | The specification of the forward search is the nearest neighbour |
| `Structure.BuildStructure` | app/chunking/structure.py:280-402 | The sections are those of the declarative tree, each with the title chain through nearest earlier sections of lower level; each block belongs to the latest section opened; all `block_ids` in order are the non-heading blocks with ids after the first heading; a searchable equation, figure, table or algorithm is related to the last and the first searchable text around it in its section, and nothing else to anything |
| `DenseIndex.PointIdInjective` | app/indexing/dense.py:94-101 | Point ids determine paper and chunk when paper ids contain no colon |
| `DenseIndex.SharedPointIff` | app/indexing/dense.py:94-101 | Two pairs share a point id if and only if they are equal, or one paper id goes on behind the other with a colon and the other pair's chunk id starts with that same text and a colon |
| `DenseIndex.ColonCollision` | app/indexing/dense.py:94-101 | A concrete pair of papers whose chunks share a point |
| `DenseIndex.RebuiltHolds` | app/indexing/dense.py:94-101 | A rebuild holds one point for every chunk, with its paper, its text and the vector of that text, and no other |
| `DenseIndex.UpdateRefinesRebuildIff` | app/indexing/dense.py:236-279 | An update gives the collection a full rebuild would give if and only if the points of the untouched papers are already the rebuilt ones |
| `DenseIndex.SameDigestSameChunks` | app/indexing/dense.py:163-187 | Papers with equal digests have the same embedded chunks |
| `DenseIndex.ChangedIff` | app/indexing/dense.py:163-241 | An incremental run treats exactly the forced papers and those some chunk of which was added, removed or changed; the order of the chunks does not matter |
| `DenseIndex.UnchangedPoints` | app/indexing/dense.py:232-241 | Papers outside the changed set have the same points in the old and the new rebuild |
| `DenseIndex.IncrementalRefinesRebuild` | app/indexing/dense.py:218-301 | If outside the changed papers the collection matches the chunks of the manifest, an incremental run equals a full rebuild of the new chunks, for any corpus change and any forced set |
| `DenseCollection.Collection.Scroll` | app/indexing/dense.py:193-205 | A page holds points of the paper, and is empty only when none is left |
| `DenseCollection.DeletePaperPoints` | app/indexing/dense.py:189-215 | The paged loop terminates; stopped anywhere it changed only points of the named papers, completed it removed exactly those |
| `DenseCollection.UpsertBatches` | app/indexing/dense.py:277-278 | Batches of 64 write what one upsert of all chunks would, and touch only changed papers when stopped in between |
| `DenseCollection.IncrementalUpdate` | app/indexing/dense.py:218-316 | The method with a possible stop after any number of store calls: completed it matches the specification and replaces the manifest, with one positive dimension for all vectors written; refused, two of them differ or one is empty; stopped it leaves the manifest and the untouched papers alone |
| `DenseCollection.UpdateUntilCompleted` | app/indexing/dense.py:218-316 | Runs with any chunks and forced papers that stop before the manifest write, followed by one that completes: if its changed papers cover those the earlier runs treated, in particular when all are the same request, the collection is that of a full rebuild |
| `DenseCollection.SameRequestCovers` | app/indexing/dense.py:232-241 | Repeating one request treats no more papers than its last run does |
| `DenseCollection.StoppedDeleteIff` | app/indexing/dense.py:236-279 | After a run stopped behind its deletions, a completed run gives the full rebuild if and only if it treats every deleted paper that still has chunks |
| `DenseCollection.RevertAfterStopIsUnsafe` | app/indexing/dense.py:236-241 | A stopped run followed by a run on the reverted corpus finds agreeing digests and leaves the damage in place |
| `Bm25.Frequencies` | app/indexing/bm25.py:98 | The counter has exactly the occurring terms with their true frequencies |
| `Bm25.NaiveIsExact` | app/indexing/bm25.py:110-111 | The naive list has one posting for exactly the documents containing the term, in increasing order, with the true frequency |
| `Bm25.AddDocument` | app/indexing/bm25.py:96-111 | Appending one document's counts keeps all postings equal to the naive ones, in any term order |
| `Bm25.FrequenciesAreConserved` | app/indexing/bm25.py:96-111 | All stored frequencies add up to the total length of the documents |
| `Bm25.BuildBm25Index` | app/indexing/bm25.py:92-121 | Postings are the naive ones, lengths are the token counts, and the average times the number of documents is the sum of all frequencies (0.0 for no documents) |
| `EvidenceVerification.LocateAll` | app/evidence/service.py:82-89 | Keeps exactly the candidates whose chunk is located in their own document, with the located chunk, and drops exactly the others |
| `EvidenceVerification.Deduplicate` | app/evidence/service.py:91-101 | One item for every key, the earliest of the best scored: no chunk is kept twice along one relation path, and every passage is kept in a form scored at least as high; kept plus dropped is the input with repetition |
| `EvidenceVerification.FirstPerDocumentCounts` | app/evidence/service.py:103-111 | Each document keeps as many items as it has, up to the limit |
| `EvidenceVerification.LimitPerDocument` | app/evidence/service.py:103-111 | Keeps exactly the first items of each document in rank order; kept plus dropped is the input |
| `EvidenceVerification.VerifyExternal` | app/evidence/service.py:119-166 | Admits exactly the resolved, unseen and confirmed sources, and accounts for every candidate |
| `EvidenceVerification.FreshSourceAdmitted` | app/evidence/service.py:119-146 | An external candidate of the request whose resolver answers for it, with its content and the digest of that content, is admitted if no earlier answer names its canonical id and locator |
| `EvidenceVerification.SourceRepresentedIff` | app/evidence/service.py:132-142 | A source is represented if and only if the first candidate that resolved to it is confirmed: a stale first candidate hides later good ones |
| `EvidenceVerification.StaleHidesGood` | app/evidence/service.py:132-142 | Two concrete candidates for one source: with the stale one first neither is admitted, with the good one first it is |
| `EvidenceVerification.AdmittedSourcesDiffer` | app/evidence/service.py:132-136 | Two admitted candidates never cite the same source |
| `EvidencePipeline.VerifyLocal` | app/evidence/service.py:76-117 | The local stages compose: the ranked result is determined by the best items per key, and every local candidate is ranked once or dropped once |
| `EvidencePipeline.RankedIsGoverned` | app/evidence/service.py:91-117 | The local result repeats no passage along one relation path, keeps within the limit for every document, and is ordered by rerank score, then id |
| `EvidencePipeline.LimitKeepsBest` | app/evidence/service.py:103-111 | A document over its limit keeps exactly that many passages, and none of those dropped scores higher than one kept |
| `EvidencePipeline.RankScores` | app/evidence/service.py:113-117 | The ranked items are the diverse ones, each with the score the reranker gave for it |
| `EvidencePipeline.BundleIsSourced` | app/evidence/service.py:119-222 | Local evidence carries the text, document, chunk and pages of the corpus for a candidate of its id in scope and in its own document; external evidence carries the text and canonical id its resolver answered with, confirmed by the digest |
| `EvidencePipeline.EvidenceIntelligencePipeline.Verify` | app/evidence/service.py:75-249 | Verified ids plus rejections counted with repetition are the candidate ids; the bundle lists each rejected id once; local evidence is canonical text of the corpus and external evidence its confirmed source; governed local evidence ranked by the scores of the reranker, distinct external sources; all diagnostics counts; and exactly when it raises, a blank work id included |
| `EvidenceSelection.Select` | app/evidence/service.py:251-278 | The ranking is a permutation of the evidence ordered by score, then id, stable for equal records; the selection is the greedy choice over it under budget, result and per-source limits, with falling scores, ranks 1..n and true token counts; raises exactly for a budget below 1 |
| `Ordering.StringLessIff` | app/evidence/service.py:259-265 | Ids are compared by code point: a proper prefix comes first, else the first difference decides |
| `Ordering.SortOrders` | app/evidence/service.py:259-265 | Sorting by a weak order yields an ordered list |
| `Ordering.SortIsStable` | app/evidence/service.py:259-265 | The sort is stable: the elements of any one rank keep their input order |
| `EvidenceSelection.GreedyIsMaximal` | app/evidence/service.py:266-276 | Nothing left out could still be added without breaking a limit |
| `EvidenceSelection.GreedyIsUnique` | app/evidence/service.py:266-276 | The position-by-position description determines the choice |
| `SelectedContext.SelectionBuilds` | app/evidence/context.py:12-30 | The builder never raises on a selection made under its own budget, and records the selection's token count |
| `SelectedContext.RenderedShows` | app/evidence/context.py:15-29 | The rendered context shows every record under its number, with its document, its pages and its whole content |
| `SelectedContext.RenderedIsHeadersAndContents` | app/evidence/context.py:15-29 | The rendered context counts exactly the tokens of its headers plus those of its contents |
| `SelectedContext.RenderedFitsIff` | app/evidence/context.py:12-30 | The rendered context of a selection fits the budget if and only if header and content tokens together do; the recorded count is lower by at least one token for each item, so a full pack never fits |
| `SelectedContext.PackCanOverflow` | app/evidence/context.py:12-30 | A concrete selection the builder accepts whose rendered context is over the budget |
| `EvidencePipeline.EvidenceIntelligencePipeline.SelectForContext` | app/evidence/service.py:251-278 | Selection through the pipeline object: greedy and within limits, diagnostics recorded, and accepted by the context builder |
| `Generations.IndexGenerationRepository.Create` | app/knowledge/generations.py:58-65 | New contents and outcome: refused exactly for a known id, otherwise stored as building |
| `Generations.IndexGenerationRepository.Transition` | app/knowledge/generations.py:67-77 | New contents and outcome by the transition table; succeeds exactly for the listed steps of a known generation |
| `Generations.IndexGenerationRepository.Activate` | app/knowledge/generations.py:79-92 | New contents and outcome of retire, activate and pointer write |
| `Generations.IndexGenerationRepository.Fail` | app/knowledge/generations.py:94-100 | New contents and outcome; an already failed generation is returned unchanged |
| `Generations.KnowledgeIndexService.BuildGeneration` | app/knowledge/index_service.py:52-79 | The build commits exactly the specified transitions for every way indexing, validation and activation can end |
| `Generations.KnowledgeIndexService.BuildIncremental` | app/knowledge/index_service.py:112-195 | Falls back to a full build without an active generation, refuses deletion then, and otherwise forks from the active one |
| `Generations.KnowledgeIndexService.RollbackTo` | app/knowledge/index_service.py:93-98 | Refuses a missing or foreign generation, otherwise activates |
| `GenerationSafety.OpIsSafe` | app/knowledge/index_service.py:52-195 | Every build, incremental build and rollback keeps the invariant, and no workspace loses its pointer |
| `GenerationSafety.RunsAreSafe` | app/knowledge/index_service.py:52-195 | On every uninterrupted run a generation is active exactly when its workspace points to it, ids are unique, and predecessors are earlier generations of the workspace that were active |
| `GenerationSafety.OneActive` | app/knowledge/generations.py:79-92 | At most one active generation per workspace |
| `GenerationSafety.ActiveForever` | app/knowledge/generations.py:79-92 | Once a workspace has an active generation it has one after every continuation |
| `GenerationSafety.ActivateMoves` | app/knowledge/generations.py:79-92 | From a safe repository activation either refuses and changes nothing or moves the pointer; it never stops half way by itself |
| `GenerationSafety.HistoryIsSound` | app/knowledge/index_service.py:63 | Following `previous_generation_id` goes strictly back in creation order inside one workspace and ends; everything on the way was once active |
| `GenerationSafety.RollbackToPreviousWorks` | app/knowledge/index_service.py:93-98 | On every run the predecessor of the active generation can be rolled back to |
| `GenerationSafety.StoppedAfterRetire` | app/knowledge/generations.py:86-88 | Interrupted after retiring: on every continuation, until the old generation is activated again, no generation of the workspace is active and activating any other one of it is refused without a change; activating the old one repairs the repository at any time |
| `GenerationSafety.StoppedBeforePointer` | app/knowledge/generations.py:88-91 | Interrupted before the pointer write of a workspace that had one: rolling back to the old generation leaves two active ones |
| `GenerationSafety.FirstActivationStopped` | app/knowledge/generations.py:79-92 | The first activation of a workspace, interrupted before the pointer write: on every continuation the generation stays active and unsafe, activating it is refused, activating another candidate works, and as soon as the workspace has a pointer it has two active generations |
| `PaperMerge.MergeAssociative` | app/academic_mcp/service.py:63-91 | The merge of records is associative in every field |
| `PaperMerge.MergeKeepsKey` | app/academic_mcp/service.py:49-91 | Merging two records of one key keeps the key |
| `PaperMerge.SortedSetsAgree` | app/academic_mcp/service.py:89 | `sorted(set(...))` depends only on which names occur |
| `PaperMerge.KeysInFirstAppearance` | app/academic_mcp/service.py:94-104 | The result has pairwise distinct keys in order of first appearance |
| `PaperMerge.ResultsAreBuckets` | app/academic_mcp/service.py:94-104 | Each result is the left-to-right merge of exactly the records with its key |
| `MergedPapers.ResultsAreMerged` | app/academic_mcp/service.py:49-104 | Each result, field by field: the longest title, authors and abstract, the earliest of equals; the first year, score, DOI, arXiv id, venue and URL that is given; the highest citation count; open access if any record says so; all external ids with their first values, and all sources |
| `MergedPapers.SameKeyIff` | app/academic_mcp/service.py:49-54 | Two records are the same paper by DOI if either has one, else by arXiv id if either has one, else by title |
| `PaperMerge.BatchingIsInvisible` | app/academic_mcp/service.py:94-104 | deduplicate(deduplicate(xs) + deduplicate(ys)) equals deduplicate(xs + ys) for all record lists |
| `PaperMerge.DeduplicatePapers` | app/academic_mcp/service.py:94-104 | The dictionary and order-list loop computes the specified result |
| `PaperMerge.RoundsHoldFirsts` | app/academic_mcp/service.py:225-230 | After n rounds the mix holds exactly the first n records of every provider |
| `PaperMerge.Interleave` | app/academic_mcp/service.py:225-230 | The round-robin mix holds every record of every provider exactly once |
| `RankingMetrics.RecallGrows` | app/evaluation/retrieval.py:181-184 | Recall lies in [0, 1], never falls as k grows, and is 1 exactly when every relevant id is among the first k |
| `RankingMetrics.FrontIsBest` | app/evaluation/retrieval.py:197-203 | Rearrangement: h hits gain at most what h hits at the front would, and as much only there |
| `RankingMetrics.NdcgIsNormalised` | app/evaluation/retrieval.py:194-204 | When the first k results hold at most min(relevant, k) hits, nDCG lies in [0, 1], is 1 exactly when the first min(relevant, k) results are all relevant and 0 exactly when none of the first k is |
| `RankingMetrics.NdcgBoundedIff` | app/evaluation/retrieval.py:194-204 | nDCG stays within 1 for every decreasing discount if and only if the first k results hold at most min(relevant, k) hits |
| `RankingMetrics.NoRepeatsFit` | app/evaluation/retrieval.py:194-204 | A ranking without repeated ids meets that condition |
| `RankingMetrics.PerfectNdcgRecallsAll` | app/evaluation/retrieval.py:181-204 | A perfect nDCG with room for every relevant id implies perfect recall |
| `RankingMetrics.RepeatsExceedOne` | app/evaluation/retrieval.py:194-204 | A concrete ranking with a repeated id whose nDCG exceeds 1 under any decreasing discount |
| `RankingMetrics.ReciprocalRank` | app/evaluation/retrieval.py:187-191 | The inverse of the rank of the first relevant result, 0 exactly when there is none |

## Left out

- Storage: SQLite, Qdrant, JSON files, locks and their failures, except for stops between store calls where stated.
- The heartbeat thread, payload and checkpoint redaction, the events table, listing operations and the web facade over jobs; of its status writes without a lease the runs contain those to terminal statuses.
- A worker without handlers: it would write FAILED without its lease, so the worker is built with at least one handler.
- The order in which interrupted jobs are returned: the model returns the set; a job type prefix is the set of types it matches.
- Unicode normalisation, regular expression engines, HTML cleaning, heading level and zone heuristics: their results are inputs.
- Candidate fields that do not reach the bundle's validity: rank, score, authors, year, DOI, retrieval source and diagnostics; converting a malformed rank can raise in the program.
- Context records that are not dictionaries: the lists hold the usable records only.
- Chunk identity, hashes, titles and bibliographic fields, and the page range of an overlap context: copied or derived field by field by the program.
- Dense payload fields beyond paper, vector and dense text, collection metadata, the check of the manifest against the model, and the directory swap of a full rebuild.
- Query coverage and conflict detection of the evidence pipeline, evidence grades and directness; they read the verified list and change nothing in it.
- Document and chunk counts of generations, and the default validator that compares them: the verdict is an input.
- Title similarity, result filters and limits of the search, full text discovery and downloads.
- Loading, grouping and averaging of evaluation questions.
- The orchestration flows, providers, command line, web server and parsing tools.
- IncrementalRefinesRebuild: assumes paper ids without a colon and unique pairs of paper and chunk ids, because otherwise points of different papers can collide.
- CancelIsFinal: covers runs in which checks and writes are one step, because with the two apart the property is false.
- CancelRequestedHeld: covers runs in which a cancellation reads and writes in one step, because with the two apart the property is false.
- ReplayWithoutResetStrands: covers runs in which no client writes without a lease, because such a write can make the job FAILED and replayable again.
- NdcgIsNormalised: covers rankings whose hits among the first k do not outnumber min(relevant, k), because with more the bound is false.
- RunsAreSafe: covers activations that are not interrupted between their writes, because an interruption breaks the invariant.

# HangugoApp core, modelled in Dafny

HangugoApp is an iOS app for learning Korean words. This project models its
spaced-repetition core and proves properties of it:

- the SM-2 scheduler (`SRSService`) over its list of schedule records, and
  the quality grades of the three review buttons;
- `SessionQueue`, the working list of a session, with its near-end deferral;
- both new-words learning sessions: the current state machine (selecting and
  practicing phases, fresh and learning entries, pool refill, goal downgrade)
  and the older plain queue;
- `FileStore`: atomic JSON writes through a temporary file, and the
  envelope-or-legacy read with write-back migration, over a file system held
  as a map; the selected-tags file store built on it;
- the cache-and-store services for known words and selected tags;
- the review screen loop, the learn screen (category filter, summary, counts)
  and the category picker;
- the tag display-name table, `normalizedNonEmpty`, the word de-duplication
  key, and the brace-depth JSON object extractor of the DeepSeek client.

In the model:

- Dates are day numbers. An `Instant` is a day plus a second of that day,
  so start-of-day is `.day` and adding n days is `+ n`.
- The ease factor is a `real`. `.rounded()` is rounding half away from zero.
- Each store protocol is an in-memory class holding what was saved last. A
  call that may throw takes a `fault: Option<string>`; `Some(m)` means the
  call throws with message `m`.
- `shuffle()` is a function parameter that only reorders, and
  `Int.random(in:)` is an index parameter required to lie in its range.
- File-manager failures are flags, one per step. The envelope-or-legacy
  read has one flag for each of its two reads of the file. JSON coding is
  a pair of partial functions, a `Codec`.

A session does not keep `masteredCount <= goal`. The downgrade sets
`goal` to the number of words still being learned, which leaves out words
already mastered, so the mastered count can exceed the goal. The goal
never rises (`GoalNeverIncreases`), and `MasteredCountCanExceedGoal` is a
concrete run that ends with one word mastered and a goal of 0, unfinished.

The two copies of the review view model (`Features/Review` and `UI/Review`)
differ only in how they obtain the word list, so `Reviews.ReviewViewModel`
models both. The same holds for the two `LearnViewModel`s, which
`Learn.LearnViewModel` models. The current session view model has
`markNotYet` and `markKnown` aliases, which forward to `showLater` and
`markMastered`.

## Model

| member | source | states |
|---|---|---|
| ReviewRatings.Quality | HangugoApp/Core/Domain/ReviewRating.swift:7-13 | every grade lies in 0..5, and only Hard falls below the pass threshold 3 |
| ReviewRatings.QualityIsStrictlyIncreasing | HangugoApp/Core/Domain/ReviewRating.swift:8-12 | Hard is 2, Normal 4 and Easy 5, strictly increasing |
| Srs.RoundHalfAwayFromZero | HangugoApp/Domain/SRSService.swift:80 | the result is within 1/2 of x, and a tie goes away from zero |
| Srs.NextEase | HangugoApp/Domain/SRSService.swift:84-87 | the new ease factor is the SM-2 formula's value, or the 1.3 floor when that is higher |
| Srs.Reviewed | HangugoApp/Domain/SRSService.swift:61-93 | a review keeps the word, stamps the review moment, and makes the interval at least 1 day with the due day at today plus the interval |
| Srs.FailedReviewIsALapse | HangugoApp/Domain/SRSService.swift:65-69 | a failing grade resets the repetitions, sets a one-day interval, adds a lapse and keeps the ease |
| Srs.PassedReviewGrowsInterval | HangugoApp/Domain/SRSService.swift:70-88 | a passing grade adds a repetition; the interval is 1, then 6, then max(1, round(interval × ease)); the ease factor becomes `NextEase` of the old one; the lapses stay the same |
| Srs.EaseNeverDecreasesInOneReview | HangugoApp/Core/Domain/ReviewRating.swift:9-11 | with the app's ratings one review never lowers the ease, and Easy raises it by at least 0.1 |
| Srs.EaseNeverDecreases | HangugoApp/Domain/SRSService.swift:65-88 | over any sequence of reviews the ease and the lapses never go down, and an ease of at least 1.3 stays so |
| Srs.ReviewStep | HangugoApp/Domain/SRSService.swift:61-91 | the step-by-step update of the local copy gives exactly `Reviewed` |
| Srs.IndexOfWord | HangugoApp/Domain/SRSService.swift:39 | the first record with that word, and none exactly when the word is not tracked |
| Srs.RegisteredTracksOnce | HangugoApp/Domain/SRSService.swift:96-117 | registration keeps every record, tracks the word afterwards, and appends a new record only for an untracked word |
| Srs.UpsertedKeepsIdsUnique | HangugoApp/Domain/SRSService.swift:38-44 | upsert grows the list by at most one, puts the item in, and keeps word identifiers unique |
| Srs.DueOn | HangugoApp/Domain/SRSService.swift:16-19 | exactly the records due on or before that day, each as often as it occurs, in list order |
| Srs.TwoEasyReviewsScenario | HangugoApp/Domain/SRSService.swift:58-117 | a word registered for tomorrow and rated Easy twice gets intervals 1 and 6 and an ease of 2.7 |
| Srs.SrsStore.Load | HangugoApp/Data/SRSStore.swift:4 | returns what was saved last, or the fault |
| Srs.SrsStore.Save | HangugoApp/Data/SRSStore.swift:5 | stores the records unless the fault is set, which is returned instead |
| Srs.SrsService.Load | HangugoApp/Domain/SRSService.swift:12-14 | the cache becomes the store's content; a load error keeps it |
| Srs.SrsService.DueItems | HangugoApp/Domain/SRSService.swift:16-19 | the cached records due on the start of that day, in cache order |
| Srs.SrsService.EnsureItemExists | HangugoApp/Domain/SRSService.swift:22-36 | a tracked word changes nothing; otherwise one fresh record due today is appended |
| Srs.SrsService.Upsert | HangugoApp/Domain/SRSService.swift:38-44 | the cache becomes `Upserted` of the old cache |
| Srs.SrsService.Persist | HangugoApp/Domain/SRSService.swift:46-48 | the store receives the unchanged cache unless saving fails |
| Srs.SrsService.SnoozeToTomorrow | HangugoApp/Domain/SRSService.swift:50-56 | an unknown word changes nothing; otherwise only its record changes, due tomorrow and stamped now |
| Srs.SrsService.ApplySm2 | HangugoApp/Domain/SRSService.swift:58-94 | an unknown word changes nothing; otherwise only the first matching record becomes `Reviewed`, with count and order kept |
| Srs.SrsService.AddNewWordToSrs | HangugoApp/Domain/SRSService.swift:96-117 | no change for a tracked word; otherwise one fresh record due today or tomorrow (by the flag) is appended |
| Srs.SrsService.AllWordIds | HangugoApp/Domain/SRSService.swift:120-122 | the word of every cached record, in cache order |
| SessionQueues.WindowBounds | HangugoApp/Core/Domain/SessionQueue.swift:34-40 | the window covers the last min(max(1, w), n) slots; a window of 0 or less acts as 1 |
| SessionQueues.MovedNearEndConserves | HangugoApp/Core/Domain/SessionQueue.swift:36-43 | deferral keeps the multiset and the count, puts the head at the chosen index, and keeps the others in order |
| SessionQueues.DeferredEntryLeavesFront | HangugoApp/Core/Domain/SessionQueue.swift:38-41 | with a window narrower than the rest the deferred entry never lands at the front; with a wide window it may |
| SessionQueues.RunConserves | HangugoApp/Core/Domain/SessionQueue.swift:25-43 | over any pops and deferrals, queue plus popped entries is the original multiset |
| SessionQueues.Queue.Count | HangugoApp/Core/Domain/SessionQueue.swift:16 | the number of items |
| SessionQueues.Queue.IsEmpty | HangugoApp/Core/Domain/SessionQueue.swift:17 | true exactly when there are no items |
| SessionQueues.Queue.Current | HangugoApp/Core/Domain/SessionQueue.swift:18 | the first item, or none when empty |
| SessionQueues.Queue.SetItems | HangugoApp/Core/Domain/SessionQueue.swift:20-22 | the contents are replaced wholesale |
| SessionQueues.Queue.PopCurrent | HangugoApp/Core/Domain/SessionQueue.swift:25-28 | on an empty queue returns none and changes nothing; otherwise returns the head and leaves the tail |
| SessionQueues.Queue.MoveCurrentNearEnd | HangugoApp/Core/Domain/SessionQueue.swift:32-44 | no change with at most one item; otherwise the head is reinserted at the chosen index of the window |
| SessionQueues.Queue.ContainsId | HangugoApp/Core/Domain/SessionQueue.swift:46-48 | true exactly when some item has that identifier |
| SessionQueues.Queue.CurrentId | HangugoApp/Core/Domain/SessionQueue.swift:50-53 | the identifier of the head, or none when empty |
| NewWordsSessions.StartedSeedsQueue | HangugoApp/Features/Learn/NewWordsSessionViewModel.swift:84-110 | start sets goal min(max(0, size), new words), mastered 0, selecting, no learners, and seeds min(goal, 5) fresh entries |
| NewWordsSessions.StartedSplitsNewWords | HangugoApp/Features/Learn/NewWordsSessionViewModel.swift:98-110 | the seeded queue and the pool together are a permutation of the new words |
| NewWordsSessions.EnteredPracticeKeepsLearners | HangugoApp/Features/Learn/NewWordsSessionViewModel.swift:243-250 | entering practice keeps every learning entry as often as it occurs and drops every fresh one |
| NewWordsSessions.RefilledPoolTakesPrefix | HangugoApp/Features/Learn/NewWordsSessionViewModel.swift:226-238 | the refill appends fresh entries for a prefix of the pool, in pool order, and keeps the rest as the pool |
| NewWordsSessions.TakeFresh | HangugoApp/Features/Learn/NewWordsSessionViewModel.swift:224-239 | the refill loop and the single take into an empty queue leave exactly the queue and pool `RefilledPool` describes |
| NewWordsSessions.RefillOfEmptyPool | HangugoApp/Features/Learn/NewWordsSessionViewModel.swift:226-238 | an exhausted pool adds nothing |
| NewWordsSessions.StepNeverRaisesGoal | HangugoApp/Features/Learn/NewWordsSessionViewModel.swift:137-141 | no action raises the goal or lowers the mastered count |
| NewWordsSessions.GoalNeverIncreases | HangugoApp/Features/Learn/NewWordsSessionViewModel.swift:193-204 | over any run of actions the goal only goes down after start |
| NewWordsSessions.DeferredKeepsAllLearning | HangugoApp/Features/Learn/NewWordsSessionViewModel.swift:167-169 | deferring keeps a queue of learners a queue of learners |
| NewWordsSessions.StartLearningKeepsPracticeLearnersOnly | HangugoApp/Features/Learn/NewWordsSessionViewModel.swift:148-164 | startLearning keeps "practicing means learning entries only" |
| NewWordsSessions.MasteredKeepsPracticeLearnersOnly | HangugoApp/Features/Learn/NewWordsSessionViewModel.swift:171-210 | markMastered keeps the same invariant |
| NewWordsSessions.AlreadyKnownKeepsPracticeLearnersOnly | HangugoApp/Features/Learn/NewWordsSessionViewModel.swift:125-146 | markAlreadyKnown keeps the same invariant |
| NewWordsSessions.StepKeepsPracticeLearnersOnly | HangugoApp/Features/Learn/NewWordsSessionViewModel.swift:125-250 | every action keeps the invariant |
| NewWordsSessions.StepsKeepPracticeLearnersOnly | HangugoApp/Features/Learn/NewWordsSessionViewModel.swift:125-250 | any run of actions keeps the invariant |
| NewWordsSessions.MasteringTheGoalFinishes | HangugoApp/Features/Learn/NewWordsSessionViewModel.swift:177-187 | mastering the last word of the goal finishes the session and empties queue and pool |
| NewWordsSessions.Finished | HangugoApp/Features/Learn/NewWordsSessionViewModel.swift:67 | finished exactly when a positive goal is met; a session without a goal, also one lowered to zero, never is; a finished one has mastered a word |
| NewWordsSessions.NewWordsSession.IsFinished | HangugoApp/Features/Learn/NewWordsSessionViewModel.swift:67 | finished exactly when the goal is positive and the mastered count has reached it |
| NewWordsSessions.MasteredCountCanExceedGoal | HangugoApp/Features/Learn/NewWordsSessionViewModel.swift:137-141 | a concrete run ends with goal 0 and one word mastered, not finished |
| NewWordsSessions.FreshEntriesAppend | HangugoApp/Features/Learn/NewWordsSessionViewModel.swift:226-231 | the pool drain, one append per word, builds the fresh entries of the drained prefix |
| NewWordsSessions.NewWordsSession.Start | HangugoApp/Features/Learn/NewWordsSessionViewModel.swift:77-122 | loads both services; a load error resets the session with that message; otherwise the session is `Started` on the shuffled new words |
| NewWordsSessions.NewWordsSession.Seed | HangugoApp/Features/Learn/NewWordsSessionViewModel.swift:94-110 | sets the goal and seeds queue and pool as `Started` does |
| NewWordsSessions.NewWordsSession.ResetWithError | HangugoApp/Features/Learn/NewWordsSessionViewModel.swift:112-121 | records the message and resets queue, pool, goal, counts and learners |
| NewWordsSessions.NewWordsSession.MarkAlreadyKnown | HangugoApp/Features/Learn/NewWordsSessionViewModel.swift:125-146 | no change on an empty queue; otherwise pops the head first, records it as known, and refills |
| NewWordsSessions.NewWordsSession.StartLearning | HangugoApp/Features/Learn/NewWordsSessionViewModel.swift:148-164 | marks the head learning, records its id, defers it in the window and enters practice once enough are learning |
| NewWordsSessions.NewWordsSession.ShowLater | HangugoApp/Features/Learn/NewWordsSessionViewModel.swift:167-169 | defers the head inside the near-end window |
| NewWordsSessions.NewWordsSession.MarkMastered | HangugoApp/Features/Learn/NewWordsSessionViewModel.swift:171-210 | pops the head, registers it with the scheduler, counts it, and clears the session once the goal is met |
| NewWordsSessions.NewWordsSession.CountMastered | HangugoApp/Features/Learn/NewWordsSessionViewModel.swift:180-205 | after a successful save the state is `AfterSavedMastery`: the word counts as mastered and leaves the learners, then the session clears at the goal, refills, enters practice, or lowers the goal |
| NewWordsSessions.NewWordsSession.DowngradeIfExhausted | HangugoApp/Features/Learn/NewWordsSessionViewModel.swift:193-197 | the state becomes `Downgraded` of the old state: with the pool empty and every queued word being learned, the goal drops to the number being learned |
| NewWordsSessions.NewWordsSession.RefillFreshIfNeeded | HangugoApp/Features/Learn/NewWordsSessionViewModel.swift:217-241 | the loop gives exactly `AfterRefill` of the old state |
| NewWordsSessions.NewWordsSession.EnterPracticePhase | HangugoApp/Features/Learn/NewWordsSessionViewModel.swift:243-250 | the state becomes `EnteredPractice` of the old state |
| LegacyNewWordsSessions.InlineWindowIsQueueWindow | HangugoApp/UI/Learn/NewWordsSessionViewModel.swift:83-87 | with the window clamped to 1 or more, the inline window start equals the queue's |
| LegacyNewWordsSessions.DeferredQueueConserves | HangugoApp/UI/Learn/NewWordsSessionViewModel.swift:83-87 | "not yet" keeps every word and the count, and keeps the others in order |
| LegacyNewWordsSessions.LegacyNewWordsSession.Start | HangugoApp/UI/Learn/NewWordsSessionViewModel.swift:44-68 | goal is min(max(0, size), unscheduled words) and the queue the first goal of them in input order; a load error empties everything |
| LegacyNewWordsSessions.LegacyNewWordsSession.MarkNotYet | HangugoApp/UI/Learn/NewWordsSessionViewModel.swift:72-88 | no change with at most one word; otherwise the head is reinserted in the window; goal, counts, message and the due-day flag are kept |
| LegacyNewWordsSessions.LegacyNewWordsSession.IsFinished | HangugoApp/UI/Learn/NewWordsSessionViewModel.swift:33 | finished exactly when there is a positive goal and it is met or the queue is empty; never without a goal |
| LegacyNewWordsSessions.LegacyNewWordsSession.MarkKnown | HangugoApp/UI/Learn/NewWordsSessionViewModel.swift:91-109 | pops the head, registers it, and counts it only when saving succeeds |
| FileStores.TempIsNotTarget | HangugoApp/Core/Persistence/FileStore.swift:106-107 | the temporary file is never the target |
| FileStores.AtomicWriteKeepsTargetOnFailure | HangugoApp/Core/Persistence/FileStore.swift:93-125 | a failed write leaves the target as it was; success stores the new bytes and leaves no temporary file |
| FileStores.EnvelopeOrLegacyPaths | HangugoApp/Core/Persistence/FileStore.swift:131-160 | an envelope is returned as stored, version unchecked, with no write; a legacy payload is wrapped and written back; otherwise, including a failed second read, failedToDecode, no write |
| FileStores.MigrationIsIdempotent | HangugoApp/Core/Persistence/FileStore.swift:148-159 | after a migrating read, a second read takes the envelope path, returns the same envelope and writes nothing |
| FileStores.FileSystem.ReadFile | HangugoApp/Core/Persistence/FileStore.swift:76 | the file's bytes, unless reading fails or there is no file |
| FileStores.FileSystem.WriteFile | HangugoApp/Core/Persistence/FileStore.swift:107 | the file holds the data unless writing fails |
| FileStores.FileSystem.MoveContent | HangugoApp/Core/Persistence/FileStore.swift:115-118 | the source's bytes move to the target unless the step fails |
| FileStores.FileSystem.RemoveItem | HangugoApp/Core/Persistence/FileStore.swift:121 | the file is gone unless removal fails |
| FileStores.FileSystem.CreateDirectory | HangugoApp/Core/Persistence/FileStore.swift:56 | the directory exists unless creation fails |
| FileStores.FileStore.Open | HangugoApp/Core/Persistence/FileStore.swift:40-61 | a missing base directory is created; failing that gives failedToCreateDirectory |
| FileStores.FileStore.ReadJson | HangugoApp/Core/Persistence/FileStore.swift:73-88 | failedToRead or failedToDecode, or the value; the files never change |
| FileStores.FileStore.WriteJsonAtomic | HangugoApp/Core/Persistence/FileStore.swift:93-125 | encode, temp write, replace or move, and cleanup give exactly the files and outcome of `AtomicWriteEffect` |
| FileStores.FileStore.ReadEnvelopeOrLegacy | HangugoApp/Core/Persistence/FileStore.swift:131-160 | the files and result are exactly those of `EnvelopeOrLegacyEffect` |
| Sorting.SortBySorted | HangugoApp/Core/Data/FileSelectedTagsStore.swift:29 | sorting by a strict weak order gives an ordered permutation of the input |
| Sorting.LexLtIsStrictWeakOrder | HangugoApp/Core/Data/FileSelectedTagsStore.swift:29 | the default string order, lexicographic on characters, is a strict weak order |
| Seqs.ListOf | HangugoApp/Core/UseCases/KnownWordsService.swift:29 | turning a set into an array lists every member exactly once |
| FileSelectedTags.SortedPayload | HangugoApp/Core/Data/FileSelectedTagsStore.swift:29 | the payload is strictly increasing, holds exactly the tags, and has one entry per tag |
| FileSelectedTags.SaveThenLoadRoundTrips | HangugoApp/Core/Data/FileSelectedTagsStore.swift:16-32 | given the JSON round trip, saving a set and loading it back gives the set |
| FileSelectedTags.StrictlySortedIsUnique | HangugoApp/Core/Data/FileSelectedTagsStore.swift:29 | the sorted payload of a set is unique |
| FileSelectedTags.FileSelectedTagsStore.Load | HangugoApp/Core/Data/FileSelectedTagsStore.swift:16-26 | no file gives the empty set without reading; otherwise the envelope-or-legacy read of schema 1, as a set |
| FileSelectedTags.FileSelectedTagsStore.Save | HangugoApp/Core/Data/FileSelectedTagsStore.swift:28-32 | writes an envelope of schema 1 whose payload is the sorted tags, through the atomic write |
| KnownWords.KnownWordsStore.Load | HangugoApp/Data/KnownWordsStore.swift:4 | returns what was saved last, or the fault |
| KnownWords.KnownWordsStore.Save | HangugoApp/Data/KnownWordsStore.swift:5 | stores the set unless the fault is set, which is returned instead |
| KnownWords.KnownWordsService.Load | HangugoApp/Core/UseCases/KnownWordsService.swift:12-14 | the cache becomes the store's set; a load error keeps it |
| KnownWords.KnownWordsService.Persist | HangugoApp/Core/UseCases/KnownWordsService.swift:16-18 | the store receives the unchanged cache unless saving fails |
| KnownWords.KnownWordsService.Contains | HangugoApp/Core/UseCases/KnownWordsService.swift:20-22 | true exactly when the word is cached; reads only |
| KnownWords.KnownWordsService.AddKnown | HangugoApp/Core/UseCases/KnownWordsService.swift:24-26 | the word joins the cache, and `Contains` holds afterwards |
| KnownWords.KnownWordsService.AllWordIds | HangugoApp/Core/UseCases/KnownWordsService.swift:28-30 | every cached word exactly once |
| KnownWords.AddKnownIsIdempotent | HangugoApp/Core/UseCases/KnownWordsService.swift:24-26 | adding a word twice is adding it once, and adding a known word changes nothing |
| SelectedTags.SelectedTagsStore.Load | HangugoApp/Data/SelectedTagsStore.swift:6 | returns what was saved last, or the fault |
| SelectedTags.SelectedTagsStore.Save | HangugoApp/Data/SelectedTagsStore.swift:7 | stores the set unless the fault is set, which is returned instead |
| SelectedTags.SelectedTagsService.Load | HangugoApp/Core/UseCases/SelectedTagsService.swift:13-15 | the tags become the store's set; a load error keeps them |
| SelectedTags.SelectedTagsService.Set | HangugoApp/Core/UseCases/SelectedTagsService.swift:17-20 | the tags are the new set even when saving throws; the store gets them unless it fails |
| SelectedTags.SelectedTagsService.Reset | HangugoApp/Core/UseCases/SelectedTagsService.swift:22-24 | the tags become empty and the empty set is saved unless saving fails |
| Reviews.WordsById | HangugoApp/Features/Review/ReviewViewModel.swift:23 | with unique identifiers, every word is found under its identifier and nothing else is present |
| Reviews.CurrentWordIsFirstDue | HangugoApp/Features/Review/ReviewViewModel.swift:27-29 | the word shown is the word of the first due record, or none if there is none or it is unknown |
| Reviews.FirstDueIsTheRatedRecord | HangugoApp/Features/Review/ReviewViewModel.swift:38-47 | with one record per word, the first due record is the one SM-2 updates |
| Reviews.FilterUpdateDropsOne | HangugoApp/Features/Review/ReviewViewModel.swift:45-47 | replacing one kept element by a dropped one shortens the filtered list by one |
| Reviews.RatingShrinksDueList | HangugoApp/Features/Review/ReviewViewModel.swift:38-47 | rating the current word moves its record out of today's due list, so the due count drops by one |
| Reviews.ReviewViewModel.Load | HangugoApp/Features/Review/ReviewViewModel.swift:20-36 | an error sets the message, due count 0 and no word; otherwise the due count and the first due word |
| Reviews.ReviewViewModel.ShowDue | HangugoApp/Features/Review/ReviewViewModel.swift:27-29 | the due count is the number of records due now and the word shown is that of the first due record, if known |
| Reviews.ReviewViewModel.RateCurrent | HangugoApp/Features/Review/ReviewViewModel.swift:38-52 | nothing without a word; SM-2 is applied before saving, and a save error keeps the update and the screen |
| Learn.FilterByTagsKeepsMatches | HangugoApp/Features/Learn/LearnViewModel.swift:70-88 | the filter is an ordered subsequence that keeps every matching word as often as it occurs and no other word |
| Learn.KeepsIffMatches | HangugoApp/Features/Learn/LearnViewModel.swift:75-86 | a word passes exactly when, for each namespace with a selection, it carries a selected tag of it |
| Learn.EmptySelectionKeepsAll | HangugoApp/Features/Learn/LearnViewModel.swift:70-88 | with nothing selected every word is kept |
| Learn.UnprefixedSelectionIsIgnored | HangugoApp/Features/Learn/LearnViewModel.swift:75-77 | selected tags outside the three namespaces change nothing |
| Learn.UntaggedWordPassesOnlyWithoutSelection | HangugoApp/Features/Learn/LearnViewModel.swift:80 | a word without tags passes only when no namespace has a selection |
| Learn.DecimalRoundTrip | HangugoApp/Features/Learn/LearnViewModel.swift:96 | the count is written in decimal digits that read back as the count |
| Learn.SummaryDeterminesCount | HangugoApp/Features/Learn/LearnViewModel.swift:90-97 | "Все" exactly for no selection, and two summaries are equal exactly when the sizes are |
| Learn.LearnViewModel.Load | HangugoApp/Features/Learn/LearnViewModel.swift:33-66 | loads in order; any error resets every field; otherwise the filtered words, summary, new-word count and due count |
| Learn.LearnViewModel.LoadServices | HangugoApp/Features/Learn/LearnViewModel.swift:38-40 | the schedule load and the rest of `load` |
| Learn.LearnViewModel.LoadKnownAndTags | HangugoApp/Features/Learn/LearnViewModel.swift:42-44 | the known-words load and the rest of `load` |
| Learn.LearnViewModel.LoadTags | HangugoApp/Features/Learn/LearnViewModel.swift:46-57 | the tags load, then the filter, summary and counts |
| Learn.LearnViewModel.ShowTags | HangugoApp/Features/Learn/LearnViewModel.swift:48-57 | the words the tags select, their summary, the count of new words among them and the given due count; the message is cleared |
| Learn.LearnViewModel.ResetWithError | HangugoApp/Features/Learn/LearnViewModel.swift:58-65 | the message is set and every field reset |
| CategoryPickers.AllTags | HangugoApp/UI/Learn/CategoryPickerViewModel.swift:20-21 | exactly the tags some word carries; a word without tags adds none |
| CategoryPickers.ByKeyIsStrictWeakOrder | HangugoApp/UI/Learn/CategoryPickerViewModel.swift:23-25 | comparing by display name is a strict weak order when the string comparison is |
| CategoryPickers.NamespaceTags | HangugoApp/UI/Learn/CategoryPickerViewModel.swift:23-29 | the tags of one namespace, each once, sorted by display name |
| CategoryPickers.NamespacesAreDisjoint | HangugoApp/UI/Learn/CategoryPickerViewModel.swift:27-29 | no tag has two of the namespace prefixes |
| CategoryPickers.ListsAreDisjoint | HangugoApp/UI/Learn/CategoryPickerViewModel.swift:27-29 | the topic, part-of-speech and list lists share no tag |
| CategoryPickers.ToggleFlipsOnlyThatTag | HangugoApp/UI/Learn/CategoryPickerViewModel.swift:41-46 | toggling flips that tag's membership and no other's |
| CategoryPickers.ToggleTwiceRestores | HangugoApp/UI/Learn/CategoryPickerViewModel.swift:41-46 | toggling twice restores the selection |
| CategoryPickers.CategoryPicker.Load | HangugoApp/UI/Learn/CategoryPickerViewModel.swift:32-39 | the saved selection, or empty when loading fails |
| CategoryPickers.CategoryPicker.Toggle | HangugoApp/UI/Learn/CategoryPickerViewModel.swift:41-48 | the selection is toggled and handed to the service; a save error is ignored |
| CategoryPickers.CategoryPicker.Reset | HangugoApp/UI/Learn/CategoryPickerViewModel.swift:50-53 | the selection becomes empty and is handed to the service |
| CategoryPickers.CategoryPicker.Save | HangugoApp/UI/Learn/CategoryPickerViewModel.swift:55-61 | the service holds the selection; the store does unless saving fails |
| L10n.SplitOnce | HangugoApp/UI/Shared/L10n.swift:91 | at most two pieces |
| L10n.NoColonIsUnchanged | HangugoApp/UI/Shared/L10n.swift:91-92 | a tag without ':' is its own display name |
| L10n.EmptyValueIsUnchanged | HangugoApp/UI/Shared/L10n.swift:91-92 | a namespace with an empty value ("topic:") is its own display name |
| L10n.SplitsAtFirstColon | HangugoApp/UI/Shared/L10n.swift:91-93 | "ns:val" splits into ns and val, even if val holds ':' |
| L10n.DisplayNameOfNamespacedTag | HangugoApp/UI/Shared/L10n.swift:95-135 | a known namespace maps through its table, falling back to the value; an unknown namespace gives the whole tag |
| L10n.TableEntries | HangugoApp/UI/Shared/L10n.swift:98-131 | entries of the tables, e.g. food is "Еда", and a value the topic table lacks |
| L10n.LeadingColonIsSkipped | HangugoApp/UI/Shared/L10n.swift:91 | leading separators are ignored: ":ns:val" splits like "ns:val" |
| Normalized.TrimIsCoreSlice | HangugoApp/Core/Utilities/String+Normalized.swift:5 | the trimmed string is a slice with only white space cut away, and neither end is white space |
| Normalized.TrimEmptyIffBlank | HangugoApp/Core/Utilities/String+Normalized.swift:5-6 | only white space trims to nothing |
| Normalized.NormalizedNoneIffBlank | HangugoApp/Core/Utilities/String+Normalized.swift:4-7 | no result exactly when the string is blank |
| Normalized.NormalizedIsIdempotent | HangugoApp/Core/Utilities/String+Normalized.swift:5-6 | a result is non-empty and trimmed, and normalizes to itself |
| Normalized.NormalizedKeepsTrimmed | HangugoApp/Core/Utilities/String+Normalized.swift:5-6 | a trimmed, non-empty string comes back unchanged |
| Normalized.TrimIgnoresPadding | HangugoApp/Core/Utilities/String+Normalized.swift:5 | white space around a string does not change its trimmed form |
| WordDedupe.MakeKeyCases | HangugoApp/Core/Words/WordDedupeKey.swift:5-14 | no key when either side is missing or blank; otherwise lower(trim(korean)) + "\|" + lower(trim(translation)) |
| WordDedupe.PaddingDoesNotChangeKey | HangugoApp/Core/Words/WordDedupeKey.swift:7-8 | white space around either side never changes the key |
| JsonExtract.CloseFrom | HangugoApp/AI/DeepSeekProviderDirect.swift:296-305 | the first end from which the span balances, or none if no later end does |
| JsonExtract.ExtractedIsFirstValidSpan | HangugoApp/AI/DeepSeekProviderDirect.swift:289-319 | the result is c exactly when c is the first balanced span from the first '{' and is valid JSON |
| JsonExtract.NoBraceNoObject | HangugoApp/AI/DeepSeekProviderDirect.swift:291 | no '{' gives no result |
| JsonExtract.PrefixDepthsPositive | HangugoApp/AI/DeepSeekProviderDirect.swift:298-305 | every proper prefix of the first balanced span has more '{' than '}' |
| JsonExtract.ExtractedIsBalancedObject | HangugoApp/AI/DeepSeekProviderDirect.swift:298-313 | a result starts with '{', balances, is valid, and has positive depth at every proper prefix |
| JsonExtract.FirstCloseEndsSpan | HangugoApp/AI/DeepSeekProviderDirect.swift:296-303 | braces are counted even inside quotes: the span ends at the first '}' after a brace-free stretch |
| JsonExtract.ExtractJsonObject | HangugoApp/AI/DeepSeekProviderDirect.swift:289-319 | the depth-and-start loop returns exactly `Extracted` |

## Left out

- Floating point: the ease factor and the interval product are exact reals, not Doubles. The Double `progress` fields of the view models are not modelled.
- Calendar and time zones: start-of-day and adding days are integer day arithmetic. The `?? today` fallback of `date(byAdding:)` cannot happen in this form.
- Randomness: `shuffle()` and `Int.random(in:)` are parameters. The model states what holds for every admissible choice.
- Unicode: trimming uses the fixed set of Unicode White_Space code points on characters, not grapheme clusters. Lower-casing is a parameter.
- Sorting.LexLt: Swift's `<` on strings compares their canonical (Unicode) normalizations; the model compares characters as they stand, so canonically equivalent strings with different code points are ordered apart here.
- The JSON extractor scans characters, not grapheme clusters. JSON validity (`JSONSerialization`) is a parameter.
- The category picker's sort uses `localizedCaseInsensitiveCompare`. The model takes a string comparison parameter that must be a strict weak order.
- JSON encoding and decoding (`JSONEncoder`/`JSONDecoder`) are the partial functions of a `Codec`. Round trips are assumed only where a lemma requires them.
- The display fields of `Word` (transcription, example, image, audio) are not modelled. Only the id, Korean, translation and tags matter to the core.
- Error messages: `localizedDescription` and the `errorDescription` texts of `StoreError` are not modelled. A thrown error is a string or a `StoreError` case carrying its URL.
- FileStores.FileStore.WriteJsonAtomic: the `.usingNewMetadataOnly` replace option and the backup item name are not modelled. Replace and move are one step that either succeeds or fails.
- FileStores.FileStore.Exists: it holds for directories as well as files, as `fileExists(atPath:)` does. The model does not separate the two.
- FileSelectedTags.FileSelectedTagsStore: the `try?` fallback to the Documents directory in `init` is not modelled. The store is given its `FileStore`.
- The raw-file stores (`FileSRSStore`, `FileKnownWordsStore`, and the old `Data/FileSelectedTagsStore`) are not part of this model. The store protocols are in-memory classes.
- Async loading, `@MainActor`, Combine and `@Published` are not modelled. A word loader's outcome is a `Result` parameter.
- The network clients, the Firestore loaders and the LLM providers are not part of this model, apart from the JSON extractor.
- `hashDocumentID` (SHA-256) is not part of this model.
- The views, settings, speech, onboarding and app composition are not part of this model.
- NewWordsSessions.NewWordsSession: the `markNotYet` and `markKnown` aliases are not modelled separately. They forward to `ShowLater` and `MarkMastered`.

# Nanoflux: verified models of the reader's core

Nanoflux is a self-hosted feed reader. This project models its algorithms and protocols in Dafny and
proves what the code and its comments promise about them:

- **Deduplicating a page** (`EditScripts`, `EditDistance`, `Dedup`, `TitleKeys`, `DedupLaws`, `DedupRule`,
  `DedupTwice`, `DedupFeeds`, `DedupViews`): the two-row edit distance against edit scripts, and the
  clustering loop with a ledger of where every item went and the rule by which it went there.
- **List filters** (`Text`, `Json`, `Calendar`, `Timestamps`, `Zones`, `Filters`, `FilterLaws`,
  `RowTexts`, `ViewLaws`, `ParamTexts`, `WindowLaws`, `DayRows`): validating rows, printing and parsing
  them, the cap on tags, and which days a time row lets through.
- **Author rules** (`VisibleItems`): the counting query of the `visible_items` view against the rules
  it stands for.
- **Durability** (`SwapDB`, `FileStore`, `FileStoreLaws`, `BlobLaws`, `ArchiveNames`, `Retention`,
  `Migrations`): restoring a database file, blobs on disk with sidecars, backup retention, and the
  migration runner, each as state that changes call by call and may be cut off anywhere.
- **Time-windowed tables** (`LoginLimiter`, `Sessions`): login throttling and sliding sessions, whose
  evicting tables answer like ones that never forget.
- **Aggregation** (`AdminPoll`, `AdminPollLaws`, `PollRows`, `HomeSections`): the polling card and the
  order of the home screen.

`Wrappers` and `Sets` hold shared value types and one fact about set sizes. Code that updates state in
place is a class or a method with loops, proved to compute a function of its input or of the old state;
the laws are lemmas about those functions. `dafny verify dfyconfig.toml` checks the whole project.

## Where the code does not do what one would expect

Each of these is proved, with an input, and with the exact condition under which the expectation holds
or what holds instead.

- The comment on `swapDB` says it replaces the database atomically. Every run that moves the live file
  aside has a moment without a database at the path, and only such a run has
  (`SwapDB.PathStaysIffNotMovedAside`).
- A failed restore is meant to leave the old database in place. When clearing `path.old`, looking at the
  path and publishing all fail, the rollback renames a stale `path.old` over the current database
  (`SwapDB.TheStaleBackup`); in every other case the old database is kept
  (`SwapDB.FailureKeepsTheOldDatabaseIff`).
- Every run first removes `path.new` and then `path.old`, so that three restores that are cut off at the
  wrong moments destroy both the old and the new database (`SwapDB.ThreeInterruptionsLoseTheDatabase`).
  Any sequence of restores that are only cut off is safe exactly when every one of them finds the path or
  `path.old`, or is cut off before it removes `path.new` (`SwapDB.CutOffRunsAreSafeIff`,
  `SwapDB.CrashSafeIffPathOrOld`).
- Deduplicating a page twice can merge more than doing it once (`DedupLaws.IdentitiesBreakIdempotence`),
  exactly when the first pass keeps an item although the first row whose own keys match it is of another
  feed (`DedupTwice.IdempotentIffNeverShielded`); what shields such an item is a row of its own feed whose
  group took over a key from a merged item (`DedupTwice.ShieldIsAFoldedKey`).
- The comment on `dedupItems` says that items of one feed are never merged. Two of them can both be
  merged into a post of another feed (`DedupFeeds.TwoPostsOfOneFeedShareARow`), exactly when, with the
  feeds listed by the store set aside, some merge finds its feed listed already
  (`DedupFeeds.FeedsStayApartIff`).
- Feeds that the store listed for a merged item only are no longer on the page, and no others are lost
  (`DedupFeeds.MergedMembershipIsGone`, `DedupFeeds.FeedsLeftOnThePage`).
- The comment on `dedupItems` says that merged items are listed as alternate sources. A merged item's own
  source, with its link, is skipped when the row lists its feed already
  (`DedupFeeds.ListedFeedIsNoSecondPost`), and only then (`DedupFeeds.OwnSourceListedIff`).
- The limiter's table is swept so that it does not grow without bound. Past its limit it holds only windows
  that had not expired at the last failure (`LoginLimiter.ExpiredWindowsDoNotCrowd`), but of those there can
  be any number (`LoginLimiter.AnySizeIsReached`).
- A Put that the disk fails midway leaves a torn blob that Get then returns; what Get answers after each
  way of failing is `FileStoreLaws.GetAfterFailedPut`.
- Feed ids are made canonical after repetitions are removed, so "7" and "07" stay as two equal values
  (`FilterLaws.SomeFeedRowsAreNotFixed` with `FilterLaws.SevenReads`,
  `FilterLaws.RowsAreFixedIffOneSpelling`).
- A date as a bound is meant to be the start of that day, or its final second. The final second is
  computed from the local date of the instant that midnight is resolved to, and is right exactly when the
  midnight after that date is the first second of the next day (`WindowLaws.EndIsLastSecondIff`,
  `WindowLaws.EndOfDayIff`, `WindowLaws.StartIsFirstSecondIff`). Where the clocks skip midnight west of UTC
  it is resolved to the day before: the window from that day to itself is empty
  (`WindowLaws.SkippedMidnight`, `WindowLaws.EmptyWindowIff`), and the day before it loses its last hour
  (`WindowLaws.LastHourIsCutOff`). East of UTC skipping midnight does no harm
  (`WindowLaws.SkippedMidnightEast`), but where the first hour of a day comes twice the start bound misses
  the first of them (`WindowLaws.FirstHourIsMissed`).
- A saved view whose lone tag reads as a combine mode and a JSON array comes back as another row
  (`ViewLaws.SavedViewRoundTrip`, `ViewLaws.AmbiguousTagsExist`).
- The disk store differs from the map on key sets in which one key is another's sidecar or directory
  (`FileStoreLaws.AgreeIffFriendly`).
- The polling card takes a reference at the zero instant for "none seen yet"
  (`AdminPollLaws.ZeroInstantIsPassedOver` with `Timestamps.ZeroIsStored`,
  `AdminPollLaws.OldestIsEarliestIff`).

## Model

| member | source | states |
|---|---|---|
| EditDistance.Levenshtein | internal/httpapi/dedup.go:141-166 | The two rows, overwritten and swapped, yield the edit distance; with `DistanceIsShortest` this is the length of a shortest script of byte insertions, deletions and substitutions |
| EditScripts.DistanceIsShortest | internal/httpapi/dedup.go:140-166 | Some edit script of exactly the distance turns one string into the other, and no shorter one does |
| EditScripts.ShortestScript | internal/httpapi/dedup.go:157-161 | The recurrence's choices can be replayed as a script of that length |
| EditScripts.NoShorterScript | internal/httpapi/dedup.go:140-166 | Every script is at least as long as the distance |
| EditScripts.OneEdit | internal/httpapi/dedup.go:140-166 | A single edit anywhere moves a string by at most one |
| EditScripts.DistanceZeroIffEqual | internal/httpapi/dedup.go:125-131 | Distance zero means equal, so the early return for equal titles agrees with the two-edit bound |
| EditScripts.DistanceSymmetric | internal/httpapi/dedup.go:141-166 | The distance is symmetric |
| EditScripts.DistanceTriangle | internal/httpapi/dedup.go:141-166 | The distance satisfies the triangle inequality |
| EditScripts.DistanceBounds | internal/httpapi/dedup.go:141-166 | The distance lies between the difference of the lengths and the longer length |
| EditScripts.Min3 | internal/httpapi/dedup.go:168-176 | The least of three numbers |
| EditDistance.FuzzyTitles | internal/httpapi/dedup.go:122-137 | Its branches together say: distance at most two, or at most a tenth of the shorter title when that is more |
| DedupRule.NearIffFewEdits | internal/httpapi/dedup.go:122-137 | Two titles match exactly when some edit script of at most two edits, or of at most a tenth of the length of either, turns one into the other |
| EditDistance.NearIsSymmetricAndReflexive | internal/httpapi/dedup.go:122-137 | Which title comes first does not matter, and a title is near itself |
| EditDistance.FarLengthsAreNotNear | internal/httpapi/dedup.go:122-137 | Titles whose lengths differ by more than the allowance never match |
| Dedup.NormalizeTitle | internal/httpapi/dedup.go:105-119 | The loop with its pending-space flag computes the key of a title |
| Dedup.TitleKeyIsItsWords | internal/httpapi/dedup.go:105-119 | The key is the maximal runs of letters and digits, joined by single spaces, with none at the ends |
| TitleKeys.TitleKeySplits | internal/httpapi/dedup.go:105-119 | At whatever is no letter and no digit the key starts over: it is the keys of the two parts with one space between them, or the one of them that is not empty |
| TitleKeys.TitleKeyOfWord | internal/httpapi/dedup.go:105-119 | Letters and digits in a row are kept as they are |
| Dedup.DedupItems | internal/httpapi/dedup.go:18-103 | The loop over items, with groups and survivors changed in place, computes the fold that the laws below are about |
| Dedup.TakeItem | internal/httpapi/dedup.go:26-101 | One round of the loop is one step of the fold |
| Dedup.FindGroup | internal/httpapi/dedup.go:36-52 | The group found is the first that shares a plugin identity or a fuzzy title with the item, or none |
| Dedup.MergeSources | internal/httpapi/dedup.go:65-92 | The survivor gains the item's feed once and every view source it lacks, and changes in nothing else |
| Dedup.TakeOverKeys | internal/httpapi/dedup.go:93-100 | The group takes over the item's identity and title key where it has none, and no other group changes |
| DedupRule.MergedIffFirstMatch | internal/httpapi/dedup.go:26-63 | On every page, an item is merged into a row exactly when it is the first ordinary row whose first identity equals the item's, or whose first title is near the item's and the item has no cross-feed key, and that row is of another feed |
| DedupRule.GroupsHoldFirstKeys | internal/httpapi/dedup.go:93-100 | The keys a group holds are the first non-empty identity and title among the items of its row |
| DedupViews.ViewsAreListedOnce | internal/httpapi/dedup.go:79-92 | On every page, a row lists a view as often as the item it was made from, or once when that item lacks it and a merged one has it, and otherwise not |
| DedupViews.ViewsStayDistinct | internal/httpapi/dedup.go:79-92 | If no item lists a view twice, no row does |
| DedupLaws.DedupConserves | internal/httpapi/dedup.go:18-103 | For every page: rows are a subsequence of the items in order, changed only by more sources and view sources at the end; every dropped item is carried by a row of another feed; nothing is invented; every merge has a witness |
| DedupLaws.EveryItemIsAccountedFor | internal/httpapi/dedup.go:26-103 | Every input item has one row that shows it or lists its feed and all its view sources; system items stay rows of their own, unchanged |
| DedupLaws.NoSourceIsInvented | internal/httpapi/dedup.go:64-92 | A listed source was on the surviving item or is the own source of an item merged into the row, never a merged item's sources |
| DedupLaws.SourceFeedsStayDistinct | internal/httpapi/dedup.go:64-77 | If no input row lists its own feed or a feed twice, no output row does |
| DedupLaws.EveryMergeIsWitnessed | internal/httpapi/dedup.go:36-52 | A merged item shares a non-empty identity or a fuzzy title with an earlier item of its row, also when the key was folded into the group later |
| DedupLaws.CrossPostsMergeByIdentity | internal/httpapi/dedup.go:45-51 | An item with a cross-feed key is merged only because of an equal plugin identity |
| DedupLaws.UnchangedIffSettled | internal/httpapi/dedup.go:26-63 | A page is returned unchanged exactly when every row's first match among earlier rows is of its own feed |
| DedupTwice.IdempotentIffNeverShielded | internal/httpapi/dedup.go:58-63 | A second pass changes nothing exactly when the first never kept an item, as of one feed with the matching row, although the first row whose own keys match it is of another feed; pages without identities, or with identities and titles throughout, never do |
| DedupTwice.ShieldIsAFoldedKey | internal/httpapi/dedup.go:93-100 | Such an item was matched to a row of its own feed only by a key that the row's group took over from a merged item |
| DedupTwice.GroupsCoverRows | internal/httpapi/dedup.go:36-57 | Every ordinary row has a group, in order, that keeps the row's own keys and only fills in missing ones |
| DedupLaws.IdentitiesBreakIdempotence | internal/httpapi/dedup.go:93-100 | A page of four posts on which a second pass merges more |
| DedupFeeds.FeedsStayApartIff | internal/httpapi/dedup.go:14-16 | On every page, no two items of one feed share a row exactly when, with the feeds listed by the store set aside, no merge finds the item's feed already among the survivor's sources |
| DedupFeeds.NeverRepeatsKeepsApart | internal/httpapi/dedup.go:64-77 | On every page, if no source is skipped as a duplicate then no row shows two items of one feed; and conversely when no item came with a listed feed that posts on the page |
| DedupFeeds.ListedFeedIsNoSecondPost | internal/httpapi/dedup.go:64-70 | A page on which a source is skipped because the store had listed its feed, and not for a second post, and its link is nowhere on the page |
| DedupFeeds.OwnSourceListedIff | internal/httpapi/dedup.go:64-77 | For every merged item of every page: its own source is in the end listed on its row exactly when the row did not list its feed when they were merged, or already listed that very source |
| DedupFeeds.AlikeFold | internal/httpapi/dedup.go:26-63 | The feeds listed for items change no decision: with and without them every item goes to the same row |
| DedupFeeds.ListedIffGivenOrShown | internal/httpapi/dedup.go:64-77 | Apart from its own feed, a row lists exactly the feeds its survivor came with and those of the items merged into it |
| DedupFeeds.FeedsLeftOnThePage | internal/httpapi/dedup.go:64-77 | A feed owns or is listed on some row exactly when it posted an item of the page or was listed for an item that was kept |
| DedupFeeds.MergedMembershipIsGone | internal/httpapi/dedup.go:71-77 | A page of two items on which a feed listed for the merged one is lost |
| DedupFeeds.TwoPostsOfOneFeedShareARow | internal/httpapi/dedup.go:14-16 | Two posts of one feed that are merged into a third feed's row |
| Filters.CleanValues | internal/httpapi/filters.go:378-391 | Trimmed values, without blanks, each at its first place |
| RowTexts.TrimSpaceCutsSpaces | internal/httpapi/filters.go:382-382 | Trimming takes away all white space at the ends and nothing else |
| FilterLaws.CleanIsClean | internal/httpapi/filters.go:378-391 | The result is trimmed, without blanks and without repetitions |
| FilterLaws.CleanKeepsClean | internal/httpapi/filters.go:378-391 | Clean values pass unchanged |
| FilterLaws.CleanKeepsEveryValue | internal/httpapi/filters.go:378-391 | A value survives exactly when it is the trimmed form of some input and not blank |
| RowTexts.CleanReadsOn | internal/httpapi/filters.go:378-391 | Values keep the order in which they first come |
| Filters.CanonicalIds | internal/httpapi/filters.go:302-310 | Positive 64-bit ids in canonical spelling, in order; everything else is skipped |
| Text.ParseFormatted | internal/httpapi/filters.go:304-308 | Reading back a formatted 64-bit id gives the id |
| RowTexts.RowsOnTexts | internal/httpapi/filters.go:275-318 | On any texts: rows of other kinds are refused, and of tags only those without a value; an accepted row hides exactly when its action reads "hide", takes any value exactly when its combine reads "any", and a row of tags holds exactly the trimmed inputs that are not blank, each once |
| RowTexts.CleanTagsAreFixed | internal/httpapi/filters.go:299-301 | Clean tags are kept, with any action and combine |
| RowTexts.FeedRowsOnTexts | internal/httpapi/filters.go:302-313 | A feed row holds an id exactly when some trimmed value is read as it |
| RowTexts.OneSidedRows | internal/httpapi/filters.go:323-353 | A row "before" or "after" is accepted exactly when its bound parses, and drops what comes third |
| RowTexts.TwoSidedRows | internal/httpapi/filters.go:323-353 | Any other mode is "between", refused without a bound or with one that does not parse; a lone end bound becomes "before" |
| RowTexts.SignsRead | internal/httpapi/filters.go:304-307 | Digits are read with or without a sign, and refused outside 64 bits |
| FilterLaws.RowsAreFixedIffOneSpelling | internal/httpapi/filters.go:282-318 | Rebuilding a built row changes it exactly when it is a feed row and two of the given values, different once trimmed, spell one id |
| FilterLaws.SomeFeedRowsAreNotFixed | internal/httpapi/filters.go:294-313 | Two different spellings of one id survive as two equal ids, and the row changes when rebuilt |
| FilterLaws.SevenReads | internal/httpapi/filters.go:302-310 | "7" and "07" are two such spellings |
| FilterLaws.TimeRowsAreFixed | internal/httpapi/filters.go:323-353 | An accepted time row is its own fixed point |
| FilterLaws.TimeRowsAreGood | internal/httpapi/filters.go:323-353 | An accepted time row has a known mode, a first bound that parses, and a second one only between two |
| Filters.NormalizeFilters | internal/httpapi/filters.go:394-426 | The loop with one counter across rows computes the capped rows |
| Filters.TakeTags | internal/httpapi/filters.go:406-414 | One row takes as many tags as there is room for and moves the shared counter by that many |
| FilterLaws.CapKeepsTheFirstTags | internal/httpapi/filters.go:393-426 | Exactly the first hundred tag values survive across all rows, and every feed and time row with values is kept as it is |
| RowTexts.CappedRowsAreCut | internal/httpapi/filters.go:394-426 | Capped rows are given rows in their order, with the same kind, action and combine, of which only tag values were cut from the end |
| RowTexts.AtMostAHundredTags | internal/httpapi/filters.go:393-426 | At most a hundred tag values are left, and as many are not cut |
| FilterLaws.NormalizeTwice | internal/httpapi/filters.go:394-426 | Normalising twice is normalising once |
| Json.UnmarshalMarshal | internal/httpapi/filters.go:71-81 | Every list of strings survives being written as a JSON array (sections 5 and 7 of RFC 8259, with the escapes of encoding/json) and read back |
| ParamTexts.WrittenIsSafe | internal/httpapi/filters.go:71-81 | No JSON written holds a control character, an angle bracket, an ampersand or a line separator |
| ParamTexts.PlainIsQuoted | internal/httpapi/filters.go:71-81 | Any other text without quote or backslash is written between quotes as it is |
| ParamTexts.PairReads | internal/httpapi/filters.go:253-266 | A character beyond the basic plane is read from its two escaped code units |
| ParamTexts.BlankIsSkipped | internal/httpapi/filters.go:261-264 | White space before an array is skipped |
| ParamTexts.ParamMeans | internal/httpapi/filters.go:68-81 | The text of a parameter, part by part |
| ParamTexts.LoneTagReads | internal/httpapi/filters.go:269-273 | A lone tag that spells no mode and array is read from the old form, with the action it names |
| Filters.ParamsOf | internal/httpapi/filters.go:428-436 | One parameter for each row, in order |
| Filters.FiltersFromParams | internal/httpapi/filters.go:438-448 | Parameters that parse, in order, then capped |
| ViewLaws.CanonRowReads | internal/httpapi/filters.go:246-274 | A fixed, unambiguous row is read back from its parameter: kind, action and values, and combine when there are several values |
| ViewLaws.LoneValueReads | internal/httpapi/filters.go:261-273 | What any lone tag or feed value is read back as |
| ViewLaws.AmbiguousRowReads | internal/httpapi/filters.go:261-267 | A lone tag that spells a mode and an array reads back, if at all, as a row of strictly shorter values |
| ViewLaws.AmbiguousTagsExist | internal/httpapi/filters.go:261-267 | Every mode followed by a JSON array is such a tag |
| ViewLaws.SavedViewRoundTrip | internal/httpapi/filters.go:428-448 | Fixed, normalised rows survive being stored in a saved view, up to the combine of single values, exactly when none is such a tag |
| Filters.TimeGroups | internal/httpapi/filters.go:473-509 | The windows of the time rows with at least one bound, in order |
| WindowLaws.WindowOfGoodRow | internal/httpapi/filters.go:473-509 | An accepted time row denotes at least one instant, in every time zone |
| WindowLaws.OneWindowPerTimeRow | internal/httpapi/filters.go:473-509 | Accepted time rows and windows correspond one to one, in order |
| WindowLaws.DateTextDenotes | internal/httpapi/filters.go:535-541 | A valid date, written out, is read as that day; which instants its bounds are is the subject of the next rows |
| DayRows.MomentTextDenotes | internal/httpapi/filters.go:529-534 | A bound with a time of day is the instant of that wall clock reading, on either side |
| WindowLaws.EndIsLastSecondIff | internal/httpapi/filters.go:519-541 | In every zone, a date as an end bound is the final second of that day exactly when the midnight after the date on which the day's own midnight falls is the first second of the next day |
| WindowLaws.EndOfDayIff | internal/httpapi/filters.go:519-541 | In a zone given by offsets that are less than a day off at the day's midnight: exactly when that midnight is not resolved to the day before and the next day's start bound is its first second |
| WindowLaws.StartIsFirstSecondIff | internal/httpapi/filters.go:519-541 | In such a zone, a date as a start bound is the first second of that day exactly when the clocks are not short of midnight there and showed the day before one second earlier |
| WindowLaws.DaysMeetIffStartsOnItsDay | internal/httpapi/filters.go:522-543 | "before D" ends exactly one second before "after D + 1" begins, across month and year ends, exactly when the zone resolves the midnight of D to an instant of D (midnights being distinct instants) |
| WindowLaws.EmptyWindowIff | internal/httpapi/filters.go:535-541 | The window from a day to itself is empty exactly when its midnight is resolved to the day before, or the next midnight does not come later |
| WindowLaws.SteadyDays | internal/httpapi/filters.go:522-543 | With offsets that do not change around a day's two midnights, its bounds are its first and its last second |
| WindowLaws.SkippedMidnight | internal/httpapi/filters.go:535-541 | For every day D, in a zone west of UTC whose clocks skip the first hour of D, the window from D to D is empty |
| WindowLaws.LastHourIsCutOff | internal/httpapi/filters.go:535-541 | In the same zone, the end bound of the day before D leaves out the last hour of that day, although the two days meet |
| WindowLaws.SkippedMidnightEast | internal/httpapi/filters.go:535-541 | In a zone east of UTC whose clocks never show the midnight of D, the start bound of D is its first second and D meets the next day |
| WindowLaws.FirstHourIsMissed | internal/httpapi/filters.go:535-541 | In a zone whose clocks show the first hour of D twice, the start bound of D leaves out the first of the two |
| DayRows.BetweenDays | internal/httpapi/filters.go:473-509 | In a zone whose dates never go back and in which the bounds are first and last seconds: a row between D and E lets an item through exactly when its local date is from D to E, or, for a hiding row, is not |
| DayRows.BeforeAndAfterDays | internal/httpapi/filters.go:473-509 | In such a zone "before D" means up to and with D, and "after D" means from D on |
| Calendar.DaysBeforeYearIs | internal/httpapi/filters.go:536-540 | The days before a year: every fourth year has one more, not every hundredth, yet every four hundredth |
| Calendar.DaysBeforeMonthIs | internal/httpapi/filters.go:536-540 | The days before a month, in closed form |
| Calendar.NextDateIsOneDayLater | internal/httpapi/filters.go:536-540 | The day after a date, across month and year ends, is the date whose day field was increased by one |
| VisibleItems.QueryMeansRule | internal/db/migrate.go:817-841 | Comparing the count of distinct joined rows with the count of values decides inclusion of the rule's values in the item's tags or the author's member feeds; any other combine decides whether they meet |
| VisibleItems.RuleOnTables | internal/db/migrate.go:817-841 | On the rows of the tables: what a tag rule and a feed rule ask for under "all" and otherwise, feeds being the author's own and compared in decimal |
| VisibleItems.VisibleIffAdmitted | internal/db/migrate.go:809-874 | An item is visible exactly when its feed exists and, of the rules of that feed's author, every show rule matches and no hide rule does |
| VisibleItems.AuthorlessIsVisible | internal/db/migrate.go:812-815 | Items of a feed without an author are always visible |
| VisibleItems.OtherAuthorsDoNotMatter | internal/db/migrate.go:812-815 | Changing the rules of other authors, and their values, changes nothing |
| VisibleItems.AddingARuleOnlyHides | internal/db/migrate.go:788-792 | One more rule removes exactly the items it does not admit and never reveals one |
| VisibleItems.EmptyRules | internal/db/migrate.go:817-841 | A rule without values matches everything under "all" and nothing otherwise |
| VisibleItems.OneValueRules | internal/db/migrate.go:817-841 | With one value, "all" and the other combine are the same rule |
| VisibleItems.JoinedFeedsAreShared | internal/db/migrate.go:828-839 | The joined feeds are the author's member feeds of the item whose decimal text is among the values |
| Text.FormatIntInjective | internal/db/migrate.go:832-832 | Different feed ids have different decimal texts, so comparing them as text is comparing ids |
| SwapDB.Swap | internal/cli/backup.go:148-173 | Success means the snapshot is at the path; after a failure with the path in place, the old database is there, or at path.old when the rollback rename failed too, exactly unless a stale path.old was rolled back over it |
| SwapDB.ReplaceDatabase | internal/cli/backup.go:148-173 | The calls made on the directory are, one by one, those of the step machine, to its end |
| SwapDB.CopyFile | internal/cli/backup.go:176-191 | Copying is byte by byte and may fail at every call |
| SwapDB.RetireLive | internal/cli/backup.go:157-164 | Clearing path.old, looking at the path and moving it aside follow the machine |
| SwapDB.PublishNew | internal/cli/backup.go:165-172 | Renaming into place, rolling back and cleaning up follow the machine |
| SwapDB.RunIsExec | internal/cli/backup.go:148-173 | A run of the method is the machine's run, so the laws of the machine are about the method |
| SwapDB.ExecDescribed | internal/cli/backup.go:148-173 | The files after any number of calls, as a function of the files at the start and of the calls that fail |
| SwapDB.NewDescribed | internal/cli/backup.go:148-191 | What is at path.new: gone after a success; after a failed copy the bytes written before it failed; after any other failure gone, unless its removal failed |
| SwapDB.SoundAtEveryStep | internal/cli/backup.go:148-173 | Whichever calls fail and wherever a run is cut off, the path and path.old never hold a partial database |
| SwapDB.RecoverableDuringARun | internal/cli/backup.go:148-173 | From a start with the path or path.old in place, a whole database remains after every call, except exactly at the end of a run that lost the only copy |
| SwapDB.CrashSafeIffPathOrOld | internal/cli/backup.go:142-173 | A run that is only cut off keeps a whole database throughout exactly when it starts with the path or path.old in place |
| SwapDB.SoundAfterAnyAttempts | internal/cli/backup.go:148-173 | Any sequence of failing or interrupted restores leaves whole databases at the path and path.old |
| SwapDB.RecoverableAfterGuardedAttempts | internal/cli/backup.go:148-173 | A sequence in which every attempt finds the path or path.old, and none loses the only copy, leaves a whole database |
| SwapDB.CutOffRunsAreSafeIff | internal/cli/backup.go:148-173 | For any sequence of restores in which no call fails but each may be cut off: a whole database is there after every call of every one exactly when each finds the path or path.old, or is cut off before path.new is removed |
| SwapDB.ThreeInterruptionsLoseTheDatabase | internal/cli/backup.go:152-164 | Three restores cut off without any failing call leave no database at all |
| SwapDB.SuccessPublishesTheSnapshot | internal/cli/backup.go:165-172 | A finished run that reports success has the snapshot at the path; path.old remains only when removing it failed |
| SwapDB.FailureKeepsTheOldDatabaseIff | internal/cli/backup.go:157-169 | A finished run that reports failure leaves the old database at the path, or at path.old when the rollback failed, exactly unless clearing path.old, looking at the path and publishing failed and the rollback worked with a different path.old in place |
| SwapDB.StaleBackupReplacesTheDatabase | internal/cli/backup.go:157-168 | Every run in which just those calls go that way ends with the stale path.old at the path and nothing at path.old |
| SwapDB.TheStaleBackup | internal/cli/backup.go:157-168 | Two databases and three failing calls with that outcome |
| SwapDB.PathStaysIffNotMovedAside | internal/cli/backup.go:142-164 | From a start with the path in place, there is a database at the path after every call exactly when the run fails to copy, to see or to move the live file |
| SwapDB.NoStaleSidecars | internal/cli/backup.go:149-150 | The old write-ahead files survive their removal calls only if those failed, and no later call brings them back |
| FileStore.Memory.DoPut | internal/filestore/filestore.go:241-246 | The key maps to the new blob; nothing else changes |
| FileStore.Memory.DoGet | internal/filestore/filestore.go:248-256 | The blob of the key, or not found |
| FileStore.Memory.DoExists | internal/filestore/filestore.go:258-263 | Whether the key is there |
| FileStore.Memory.DoDelete | internal/filestore/filestore.go:265-270 | The key is gone; deleting an absent key is no error |
| FileStore.Memory.DoStat | internal/filestore/filestore.go:272-281 | Number and total size, whatever the order of the map walk |
| FileStore.Memory.DoList | internal/filestore/filestore.go:283-292 | The objects with the prefix, each once |
| BlobLaws.LastWriteWins | internal/filestore/filestore.go:241-270 | After any operations a key holds what the last Put since its last Delete wrote, and no other key is there |
| BlobLaws.AnswersByTheLastWrite | internal/filestore/filestore.go:241-270 | Get and Exists answer by that write, and Put and Delete always work |
| BlobLaws.ListingsMean | internal/filestore/disk.go:120-145 | Both listings hold exactly the objects whose keys begin with the prefix, with their sizes, and no sidecar |
| BlobLaws.ClipMeans | internal/filestore/disk.go:61-61 | A read yields the first sixteen mebibytes |
| BlobLaws.PutWritesBoth | internal/filestore/disk.go:38-45 | A Put that works changes just the two files of its key, to the data and the content type |
| BlobLaws.ValidKeyIff | internal/filestore/disk.go:149-157 | A key is accepted exactly when nothing between two of its slashes or its ends is empty, "." or ".." |
| BlobLaws.ParentsMean | internal/filestore/disk.go:35-35 | The directories made for a key are what stands before each of its slashes |
| FileStore.DiskStore.DoPut | internal/filestore/disk.go:30-46 | Directories made, data written, then the sidecar; the state after each of the three calls failing, whether the tree is in the way or the disk fails it partway |
| FileStore.DiskStore.DoGet | internal/filestore/disk.go:48-67 | Content type from the sidecar and at most 16 MiB of data, or which error |
| FileStore.DiskStore.DoExists | internal/filestore/disk.go:70-82 | Present, absent, or an error below a file |
| FileStore.DiskStore.DoDelete | internal/filestore/disk.go:84-94 | Data and sidecar removed; an absent file is no error |
| FileStore.DiskStore.DoStat | internal/filestore/disk.go:98-118 | Number and size of the files that are no sidecars |
| FileStore.DiskStore.DoList | internal/filestore/disk.go:122-145 | The files that are no sidecars and have the prefix, each once |
| FileStoreLaws.AgreeIffFriendly | internal/filestore/disk.go:30-164 | Every run of operations over a set of keys answers on disk as in memory, up to the size cap, exactly when all keys are valid, none is a sidecar, and neither a key nor its sidecar is a directory of another |
| FileStoreLaws.StepMatches | internal/filestore/disk.go:30-164 | One operation: equal answers, and the tree still represents the map |
| FileStoreLaws.RunMatches | internal/filestore/disk.go:30-164 | The same over runs from any represented state |
| FileStoreLaws.SizesMatch | internal/filestore/disk.go:96-118 | Count and byte sum agree despite the sidecars |
| FileStoreLaws.SmallBlobsAreNotClipped | internal/filestore/disk.go:61-61 | With blobs of at most 16 MiB the cap never shows, so the answers are equal outright |
| FileStoreLaws.PutTouchesOnlyItsKey | internal/filestore/disk.go:35-45 | Whatever fails, a Put touches no file but the key's data and sidecar, removes none, and only adds the key's directories |
| FileStoreLaws.GetAfterFailedPut | internal/filestore/disk.go:35-67 | What Get answers after a Put that failed: the old blob if no file was opened, otherwise the part that was written with the content type the sidecar then holds |
| FileStoreLaws.SidecarKeysDiffer | internal/filestore/disk.go:110-112 | A key that ends like a sidecar is not counted on disk |
| FileStoreLaws.DirectoryKeysDiffer | internal/filestore/disk.go:35-40 | A key that is a directory of another cannot be stored beside it |
| LoginLimiter.Limiter.constructor | internal/httpapi/loginlimiter.go:26-32 | Five failures in fifteen minutes |
| LoginLimiter.Limiter.Blocked | internal/httpapi/loginlimiter.go:35-47 | Blocked exactly with enough failures in a running window; an expired entry is dropped |
| LoginLimiter.Limiter.Fail | internal/httpapi/loginlimiter.go:50-67 | The count goes up in a running window or starts at one, and a crowded table is swept, with a clock reading at each call |
| LoginLimiter.Limiter.Cleanup | internal/httpapi/loginlimiter.go:60-66 | Exactly the expired entries go |
| LoginLimiter.Limiter.Success | internal/httpapi/loginlimiter.go:70-74 | The address is forgotten |
| LoginLimiter.EvictionIsInvisible | internal/httpapi/loginlimiter.go:35-67 | Over every run with a clock that does not run backwards, each answer equals that of a table that never forgets |
| LoginLimiter.BlockedUntilTheWindowEnds | internal/httpapi/loginlimiter.go:10-13 | Whatever calls follow a failure that opens a window, within it and without a success of the address, it is blocked exactly once the failures are as many as allowed and until the window ends |
| LoginLimiter.ExpiredWindowsDoNotCrowd | internal/httpapi/loginlimiter.go:59-66 | After any calls the table has at most 4096 entries, or only entries that had not expired when the last failure looked at them |
| LoginLimiter.AnySizeIsReached | internal/httpapi/loginlimiter.go:59-66 | For every n, a run within one window leaves n entries |
| LoginLimiter.FailuresAreBounded | internal/httpapi/auth.go:27-43 | With at most n requests of an address in flight, its count never exceeds maxFailures - 1 + n |
| LoginLimiter.TheBoundIsReached | internal/httpapi/auth.go:27-43 | For every n some run reaches that count |
| Sessions.Authenticator.SetTouchInterval | internal/auth/auth.go:50-55 | A negative spacing becomes none |
| Sessions.Authenticator.CreateSession | internal/auth/auth.go:97-108 | The session ends the given time from now, in whole seconds |
| Sessions.Authenticator.Touch | internal/auth/auth.go:59-83 | A throttled touch changes nothing; any other records the time, may sweep the table, and writes the expiry |
| Sessions.Authenticator.EvictOld | internal/auth/auth.go:75-79 | Exactly the entries older than four intervals go |
| Sessions.Authenticator.User | internal/auth/auth.go:172-199 | Accepted exactly when live, so with a stored expiry after the second of the request, and not of a demo account that is over; slid like a touch, except that in demo mode a demo account's session is never slid and is deleted when the account is over |
| Sessions.Authenticator.SetDemoMode | internal/auth/auth.go:85-88 | The mode is switched and nothing else |
| Sessions.VisitsNeverExtend | internal/auth/auth.go:85-97 | Over every run, a session that is only used as a demo account's keeps the expiry it was created with |
| Sessions.EvictionIsInvisible | internal/auth/auth.go:68-80 | Sweeping never changes whether a touch is throttled |
| Sessions.RunStaysGood | internal/auth/auth.go:59-83 | Over every run: what the table remembers, the spacing of writes, and that each row follows its last touch |
| Sessions.WritesAreThrottled | internal/auth/auth.go:57-58 | Two expiry writes of one session are at least the interval apart |
| Sessions.ExpiryFollowsUse | internal/auth/auth.go:57-83 | The expiry of a session that was slid, or granted the full lifetime or more, exceeds its last use plus the lifetime less an interval and a second of rounding |
| Sessions.ExpiryNeverDecreases | internal/auth/auth.go:82-82 | No event lowers the stored expiry of a session, unless it was granted more than the lifetime and not slid yet |
| Sessions.LiveUntilExpiry | internal/store/session.go:31-37 | Over every run, a session is accepted exactly until its stored expiry |
| Sessions.UnusedSessionEnds | internal/auth/auth.go:20-22 | A session that was slid, or granted at most the lifetime, is rejected thirty days after its last use, and using it then changes nothing |
| Sessions.VisitedSessionEnds | internal/auth/auth.go:182-194 | A session only used as a demo account's is accepted exactly until the second in which it was granted to end |
| Sessions.RegularUseStaysSignedIn | internal/auth/auth.go:20-22 | Such a session, used again within the lifetime less an interval and a second, is still accepted |
| ArchiveNames.NamesFollowTime | internal/backup/backup.go:23-33 | Names of archives of different whole seconds in years 0 to 9999 sort by time, whatever the versions |
| ArchiveNames.NameParts | internal/backup/backup.go:27-33 | The prefix, the time, the version unless it is empty, and the suffix |
| ArchiveNames.NamesAreUnique | internal/backup/backup.go:23-33 | Archives of one name were taken in one second by one version, as sanitised |
| ArchiveNames.SanitizedCharacters | internal/backup/backup.go:35-43 | Separators and spaces become underscores, and every other character of the trimmed version stays |
| ArchiveNames.SanitizedVersionIsSafe | internal/backup/backup.go:35-43 | No separator and no space is left in a version |
| ArchiveNames.ArchiveNamesAreArchives | internal/backup/backup.go:32-32 | Every name has the suffix by which archives are listed |
| Calendar.CivilOrder | internal/backup/backup.go:28-28 | Comparing the fields of two civil times compares their instants |
| Retention.Destination.Put | internal/backup/destination.go:37-60 | Either the whole archive appears under its name or the listed archives stay as they were; a partial one is never listed |
| Retention.Destination.List | internal/backup/destination.go:62-82 | Exactly the archives, each once |
| Retention.Destination.Delete | internal/backup/destination.go:84-89 | The archive is gone unless the call failed |
| Retention.Destination.Prune | internal/backup/destination.go:91-113 | The newest keep archives are never deleted, whichever deletes fail; when all succeed exactly they remain; keep of zero or less deletes nothing |
| Retention.TemporaryIsNoArchive | internal/backup/destination.go:41-48 | The hidden file of an upload is never listed as an archive |
| Retention.NewestIsPrefix | internal/backup/destination.go:104-106 | Sorted newest first, the newest keep archives are the first keep |
| Retention.DeletedAreOld | internal/backup/destination.go:105-111 | A delete loop cut short anywhere has touched none of the newest |
| Retention.SortNewestFirst | internal/backup/destination.go:104-104 | The same names, in descending order |
| Retention.Runner.Snapshot | internal/backup/runner.go:89-116 | The archive is stored or nothing changes, the status says which, and a prune that fails does not fail the snapshot |
| Retention.NewestAgain | internal/backup/runner.go:100-107 | Archives pruned earlier never matter again: pruning after one more gives the newest of all |
| Retention.RetentionOverARun | internal/backup/runner.go:89-116 | Over every run from an empty destination the newest keep archives ever stored are there, whatever fails, and nothing else is when every prune ran to its end |
| Retention.LastAreNewest | internal/backup/backup.go:23-26 | Of names in ascending order the newest keep are the last keep |
| Retention.RunKeepsTheLast | internal/backup/runner.go:89-116 | n snapshots at strictly increasing whole seconds leave exactly the last min(n, keep) archives |
| Migrations.Database.ApplyOne | internal/db/migrate.go:1029-1044 | The script and its record take effect together or not at all; an acknowledgement may be lost |
| Migrations.Database.Migrate | internal/db/migrate.go:1006-1047 | The loop computes the run function and switches foreign keys back on however it ends |
| Migrations.RunKeepsAPrefix | internal/db/migrate.go:1001-1047 | A run moves a database at a prefix of the migrations to a prefix, forward only, and to the end when it succeeds |
| Migrations.RunsKeepAPrefix | internal/db/migrate.go:1001-1047 | After any sequence of runs of older and newer releases that fail or crash anywhere, the recorded versions are a prefix and the schema is built by exactly that prefix, each script once and in order |
| Migrations.NothingPending | internal/db/migrate.go:1020-1028 | A database with every version recorded is left as it is, and the run succeeds if it can read the records |
| Migrations.SuccessIsFinal | internal/db/migrate.go:1001-1047 | After a successful run the full schema is in place and running again changes nothing |
| AdminPoll.Weigh | internal/httpapi/admin.go:346-397 | One polled feed is booked on its host and in the totals under exactly one verdict |
| AdminPoll.Gather | internal/httpapi/admin.go:339-398 | The map holds, for each host with a polled feed, the counts, demand and spacing of that host's feeds; totals and oldest feed are those of the list |
| AdminPoll.Tabulate | internal/httpapi/admin.go:400-430 | Walking the map in any order counts the overloaded hosts and yields one row for each host to show |
| AdminPoll.SortRows | internal/httpapi/admin.go:432-444 | The same rows, in the card's order |
| AdminPoll.BuildAdminPoll | internal/httpapi/admin.go:331-449 | Totals over the feeds, number of overloaded hosts, oldest feed, and the first eight of all rows to show |
| PollRows.BehindMeans | internal/httpapi/admin.go:358-390 | A feed is behind exactly when it is polled, without error, and its reference is longer ago than its interval, its floor and a minute |
| PollRows.ErrorsMean | internal/httpapi/admin.go:371-379 | A polled feed with an error is cooling when that is a rate limit, and failing otherwise |
| PollRows.CountsAreNumbers | internal/httpapi/admin.go:346-397 | Every total, and every count of a host, is the number of feeds with such a verdict |
| PollRows.SpacingIsTheFirst | internal/httpapi/admin.go:347-352 | The hosts are those of polled feeds, and the spacing of each is the one its first such feed asks for |
| PollRows.TableMeans | internal/httpapi/admin.go:400-447 | Every row shows a host that is overloaded or has feeds behind or failing, with its counts; rows come in the order of need, then of names; and a host in need is missing only behind eight that are as much in need |
| AdminPoll.FirstRowsAreTop | internal/httpapi/admin.go:445-447 | Cutting the sorted rows keeps those that come before all others |
| AdminPollLaws.HostsSumToTotals | internal/httpapi/admin.go:346-397 | For any verdicts of enabled feeds, the counts per host add up to the total, however the hosts are listed |
| AdminPollLaws.CountsAreApart | internal/httpapi/admin.go:371-397 | Enabled feeds are those behind, failing and cooling, each in one count, plus those on time or without a readable time |
| AdminPollLaws.OverloadedIffFaster | internal/httpapi/admin.go:400-408 | Overloaded means a positive spacing and a sum of one over the intervals above one over the spacing |
| AdminPollLaws.NeverCatchesUpIffFaster | internal/httpapi/admin.go:328-330 | A queue fed at one rate and served at one pace passes every length exactly when the rate is the higher |
| AdminPollLaws.OverloadedIffNeverCatchesUp | internal/httpapi/admin.go:328-330 | A host is flagged exactly when the polls that fall due outrun those its spacing lets through by any number: permanently behind, not catching up |
| AdminPollLaws.OldestIsEarliestIff | internal/httpapi/admin.go:389-397 | Some feed is named exactly when one is behind, and no feed that is behind has an earlier reference, except exactly when the earliest is the zero instant and the last one is not |
| AdminPollLaws.ZeroInstantIsPassedOver | internal/httpapi/admin.go:392-396 | Of a feed last polled at the stored zero time and one polled at any later stored time, both behind, the later is named |
| Timestamps.ZeroIsStored | internal/db/db.go:14-24 | The zero time is stored as "0001-01-01 00:00:00" and is the first second of the count of instants |
| Timestamps.ParseFormatted | internal/db/db.go:14-24 | A stored time of years 0 to 9999 is read back as the instant it was written for |
| AdminPollLaws.TopIsUnique | internal/httpapi/admin.go:432-447 | The order is total, so the table does not depend on the order of the map walk |
| HomeSections.ReorderSections | internal/httpapi/home.go:429-450 | The loops over both lists compute the reordered sections |
| HomeSections.ChosenComeFirst | internal/httpapi/home.go:425-450 | The result place by place: first the chosen collections, each with the mode and sort of its first section, then every other section as it was in its old order |
| HomeSections.ChosenFacts | internal/httpapi/home.go:436-443 | Exactly the ids that are listed, pinned and owned are chosen, each once |
| HomeSections.ChosenInOrder | internal/httpapi/home.go:436-443 | They come in the order in which the client first names them |
| HomeSections.RestKeepsOrder | internal/httpapi/home.go:444-448 | The other sections follow unchanged and in their old order |
| HomeSections.ReorderKeepsEveryId | internal/httpapi/home.go:425-428 | No pin is lost: a chosen id has one section afterwards, any other as many as before |
| HomeSections.ReorderIsPermutation | internal/httpapi/home.go:425-450 | With distinct collections the result is a permutation; every section keeps its mode and sort |
| HomeSections.ReorderTwice | internal/httpapi/home.go:429-450 | The same order applied again changes nothing |
| HomeSections.RemoveSection | internal/httpapi/home.go:472-480 | Compaction in place leaves exactly the other sections, in order, and writes nothing behind them |

## Left out

- EditDistance.Levenshtein: lengths and distances are unbounded integers; Go's 64-bit `int` cannot overflow here for strings that fit in memory.
- Dedup.NormalizeTitle: a title is given as its lower-cased runes with their UTF-8 bytes and whether each is a letter or digit; Unicode's tables and `strings.ToLower` are not part of this model.
- Dedup.DedupItems: the survivor is a value that is replaced in the list, so that Go slices of input and output may share memory is not captured; author fields that no branch reads are left out.
- Filters.FiltersFromParams: strings are sequences of Unicode characters; invalid UTF-8 is not modelled. Of the lower-case mapping only what can yield ASCII letters is.
- Json.UnmarshalMarshal: only arrays of strings are decoded; other JSON values are an error, as they are for a Go slice of strings. Nesting depth limits do not arise.
- WindowLaws.EndIsLastSecondIff: a time zone is any pair of functions, from local day and second to an instant and from an instant to a date in year 0 or later; the zone database and the fallback to the server's zone are not part of this model. Formatted instants are kept as numbers.
- WindowLaws.EndOfDayIff: a zone given by offsets resolves a wall clock reading by `Zones.Resolve`, which states what Go's `time.Date` does; the days are those from 2 January of year 0 on whose midnight is resolved at most a day short and less than a day past.
- DayRows.BetweenDays: of the store's query only the predicate of one window is modelled, inclusive bounds that an excluding row negates (internal/store/item.go:1954-1977); the column it is applied to is an instant here.
- ViewLaws.SavedViewRoundTrip: labels of feed rows are looked up elsewhere and are empty here.
- VisibleItems.VisibleIffAdmitted: text columns compare by equality (SQLite's default collation); columns the view does not read are left out.
- SwapDB.ReplaceDatabase: a crash ends the process; loss of unsynchronised writes at a power failure, the content of a discarded write-ahead log, and a file system without atomic rename are not modelled. The path, its siblings and the snapshot are different files.
- FileStore.DiskStore.DoGet: input/output errors in reading, removing and walking are not modelled, nor symbolic links, name limits, foreign separators, and roots such as "/" or "."; a Put may fail at each of its calls.
- FileStore.Memory.DoPut: calls run one at a time, as the mutex makes them; that a caller may later change the bytes it stored is not captured.
- LoginLimiter.Limiter.Fail: calls run one at a time under the mutex, and overlap of requests is modelled between calls; client addresses are plain strings.
- Sessions.Authenticator.Touch: the SHA-256 of a token stands for the token; cookies and token generation are left out. Touching is modelled as one step although the write follows the unlock, and one reading of the clock serves a whole request.
- Retention.Destination.Put: the archive's bytes, tar and gzip, and the S3 destination are not part of this model.
- Retention.SortNewestFirst: stands for the library's sort, which is free to use another algorithm; names are distinct, so the result is the same.
- AdminPoll.SortRows: likewise; rows have distinct hosts.
- AdminPoll.Weigh: demand and capacity are exact reals, not floats, and intervals are not multiplied in 64 bits; host extraction, spacing, poll floor and classification of failures are parameters because their code is elsewhere, and so is the parser of stored times, which `Timestamps.ParseTime` gives; texts of numbers on the card are left out.
- Migrations.Database.Migrate: scripts are functions on an abstract schema; that SQLite runs a transaction atomically, and that the pragma statements work, is taken as given.
- HomeSections.ReorderSections: the configuration's JSON form and the other form actions are left out.
- HTTP handlers, templates, middleware, the browser extension, gRPC plugins, feed fetching and parsing, S3, and command-line handling: plumbing around libraries whose code is not part of this model.
- The stores, the poller and the plugin registry: apart from the `visible_items` view, the migration runner and the stored times, they are not modelled.

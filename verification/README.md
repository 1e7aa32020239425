# A Dafny model of the gateway's reconciliation, key, pricing and storage logic

The gateway serves model requests through configured *channels*. This project
models the parts of it that keep state over time and proves what that state
means, over every input and every run. Runs are serial except for the body
storages, whose creations and closes interleave at each counter update:

- **Model reconciliation** (`ModelNames`, `UpstreamSync`, `UpstreamConvergence`,
  `UpstreamConfluence`, `UpstreamChannel`). A detection compares a channel's
  model list with the upstream list and stages additions and removals; an
  administrator applies a selection of them. Proved: what is staged, what every
  run of detections and applications keeps, when a second detection stages
  nothing, and when two partial applications equal one.
- **The channel scan** (`SortedSets`, `CursorScan`, `ChannelScan`). The batch
  loops behind the scheduled detection and the bulk apply visit every enabled
  channel once, in id order, whatever the batch size.
- **Multi-key channels** (`KeyText`, `KeyAppend`, `KeyRecords`, `KeyManager`,
  `KeyLists`, `KeyManagerLaws`, `KeyNewlineLaws`, `KeyRuns`, `KeyPages`,
  `KeyPolling`). A key list with three index-keyed maps refines a list of key
  records; pages partition the status view; polling is a round robin. The
  actions take the key format as a parameter; `KeyNewlineLaws` and `KeyRuns`
  state the results for the format of the source.
- **The rate limiter** (`RateLimiter`) refines the sliding-window rule on the
  complete log of grants, and **the request metrics** (`RequestMetrics`) ring
  reads exactly the history of the last hour.
- **Price comparison and conversion** (`PriceDiff`, `PriceDiffLaws`,
  `PriceConversion`). The difference report is sound, complete and a correct
  patch; rounding to ratios moves a bill by a bounded amount.
- **Body storage** (`BodyStorage`, `CacheAccounting`, `CacheRuns`). Memory and
  disk storage are interchangeable up to two stated operations. In every
  interleaving of creations and closes the counters describe the storages that
  stand counted; how far disk usage can outgrow its limit is stated exactly.
- **Smaller pieces**: `OggScan` (Opus duration from a damaged stream),
  `Streaks` (check-in streaks), `Quota` (conversion to quota units).

`Lists` and `Text` hold the sequence and string vocabulary.

Objects that the source updates in place are classes, its loops are loops, and
each method is tied to a function on values about which the theorems are proved.

## What is false of the code, and exactly when it is true

- A second detection after a bulk apply stages nothing if and only if no
  adopted name holds a comma and adopting deletes no ignore rule that an
  unserved name needs (a rule such as `regex:b` can be spelled like a model).
- Staged additions stay disjoint from the served models over a run if and only if
  every application adds or ignores each staged comma piece of a name it adds.
- Two partial applications leave the same served names, rules and staged names
  as one combined application if and only if no name is ignored in the first and
  added only in the second, and every comma piece of a first addition that the
  second removes is added again by the second. Without commas in staged names
  the first condition alone makes the whole rows equal.
- The limiter is the sliding-window rule if and only if its cleaner was not
  started or the window is at most one second longer than the idle expiration.
  A limit of zero acts as one.
- Disk usage can outgrow its limit: the availability test and the counter update
  of a creation are not one step. At every point of a run it is sure to stay
  within the limit, however what is under way goes on, if and only if every
  admission leaves room for the bytes already on their way. A single run may also
  stay within it by luck, when a write fails.
- The metrics ring agrees with its history after an observation unless the
  observation is an hour or more late and overwrites a slot that holds events.
- Deleting keys acts on the list of records if and only if the keys left over
  survive being joined with newlines and read again: unless that text decodes to
  the same array, there must be some, none may span lines, and neither end may be
  blank. When every key is automatically disabled, deleting the disabled keys
  keeps them all and enables them, because an empty key text is not saved. The
  stored key count is wrong exactly for an empty JSON array.
- Appending keys keeps the ones that were there on every newline text that is not
  blank and does not look like an array. Text that starts with a bracket and does
  not decode is read as lines, but an append finds no keys in it and stores only
  the new ones: the old keys stay if and only if the input is blank, decodes to
  the whole list, or does not decode and starts with all of them. Without key text
  the input is stored as it is. Any other text keeps its keys if and only if
  nothing is written or the whole list reads back as above.
- A save drops the statuses beyond the recounted keys and leaves the times and
  reasons there, so a key appended later can inherit them. An appended key is new
  if and only if nothing is recorded under its index. Rows on which every action
  so far acted on the list of records have nothing there.
- Enabling a key through the status handler keeps its old time and reason.
- An entry of the price comparison without any value to adopt survives only
  when a channel has an explicit null or the text "same", or when channels share
  a name and one that is overridden has a different value there.
- The two storages differ exactly on an empty read at the end of the data and
  on readers used after their own `Close`, the error values of refused seeks
  apart and as long as nobody writes into the bytes they hand out.

## Model

| member | source | states |
|---|---|---|
| `ModelNames.NormalizeIsNormal` | controller/channel_upstream_update.go:100-105 | Normalising yields a list of distinct trimmed names holding exactly the non-blank trimmed inputs |
| `ModelNames.NormalizeMembers` | controller/channel_upstream_update.go:100-105 | The members are the inputs once trimmed, unless that leaves nothing |
| `Text.TrimIs` | controller/channel_upstream_update.go:100-105 | Trimming cuts white space off both ends and nothing else |
| `Text.SpaceIff` | controller/channel_upstream_update.go:100-105 | White space is exactly the twenty-five characters of Unicode |
| `ModelNames.NormalizeFixed` | controller/channel_upstream_update.go:100-105 | Normal lists are left alone, so normalising is idempotent |
| `ModelNames.MergeModelNames` | controller/channel_upstream_update.go:107-121 | The merge loop is normalisation of the concatenation: base order first, new names after |
| `ModelNames.AppendMissing` | controller/channel_upstream_update.go:107-121 | The loop with its seen set appends exactly the missing names in order |
| `ModelNames.NormalConcat` | controller/channel_upstream_update.go:107-121 | Disjoint normal lists concatenate to a normal list |
| `ModelNames.WithoutMembers` | controller/channel_upstream_update.go:123-132 | Subtraction keeps exactly the names outside the second list and stays an ordered set |
| `ModelNames.WithinMembers` | controller/channel_upstream_update.go:134-143 | Intersection keeps exactly the common names and stays an ordered set |
| `ModelNames.ParsedIsSplit` | model/channel.go:352-357 | Stray commas around the stored model text never matter to the list read from it |
| `ModelNames.ParsedJoin` | controller/channel_upstream_update.go:145-150 | Writing a list to the comma-separated column and reading it back yields the comma pieces of its names |
| `ModelNames.ParsedIsNormal` | model/channel.go:352-357 | A list read from the column is an ordered set of comma-free names |
| `UpstreamSync.CollectMembers` | controller/channel_upstream_update.go:179-238 | Both staged lists are ordered sets; a name is staged for addition iff it is upstream, not served, not a redirect target and not ignored, for removal iff served, not a redirect source and gone upstream |
| `UpstreamSync.StagedIff` | controller/channel_upstream_update.go:179-238 | With the rules written out: a name is staged for addition iff it is upstream, not served, not a redirect target, matched by no pattern after `regex:` and equal to no other rule |
| `UpstreamSync.ApplySelectedShape` | controller/channel_upstream_update.go:145-150 | The result is the old list in old order minus the removals that are not also added, then the new names, without duplicates |
| `UpstreamSync.ChosenMembers` | controller/channel_upstream_update.go:919-967 | Only staged names are applied, and a name selected both ways is added |
| `UpstreamSync.AppliedModels` | controller/channel_upstream_update.go:919-967 | The served models after an application are the kept ones in order and then the comma pieces of the additions |
| `UpstreamSync.AppliedModelsConsistent` | controller/channel_upstream_update.go:919-967 | On consistent rows every chosen addition counts: kept names in order, then all comma pieces of the additions |
| `UpstreamSync.ApplicationOutcome` | controller/channel_upstream_update.go:919-967 | The settings after an application by what was ticked: added names lose their ignore rule, ignored ones gain one, both leave the staged list, a removal leaves it unless the name was also added, and the time is noted |
| `UpstreamSync.RemainingAdds` | controller/channel_upstream_update.go:919-967 | What stays staged is exactly what was neither added nor ignored |
| `UpstreamSync.DetectKeeps` | controller/channel_upstream_update.go:474-521 | A detection, whatever its outcome, keeps staged removals among the served models and, on comma-free names, keeps the row consistent |
| `UpstreamSync.AutoSyncedModels` | controller/channel_upstream_update.go:474-521 | Adopting names keeps every model already served |
| `UpstreamSync.ApplyConsistentIff` | controller/channel_upstream_update.go:919-967 | An application keeps staged additions unserved iff every staged comma piece of a chosen name is itself ticked, to add or to ignore |
| `UpstreamSync.RunKeepsRemoves` | controller/channel_upstream_update.go:474-967 | Over every run of detections and applications, on any names, staged removals are served models |
| `UpstreamSync.RunKeepsConsistent` | controller/channel_upstream_update.go:474-967 | Over every run that fetches no name with a comma, staged additions are unserved, staged removals served, and no name is staged both ways |
| `UpstreamSync.RunConsistentIff` | controller/channel_upstream_update.go:474-967 | On any names, every state of a run is consistent iff every saved application ticks the staged comma pieces of what it adds |
| `UpstreamSync.RunKeepsApart` | controller/channel_upstream_update.go:474-967 | Over every run, on any names, the staged lists are ordered sets without a common name |
| `UpstreamSync.CommaBreaksConsistency` | controller/channel_upstream_update.go:919-967 | The family of inputs, names `x` and `x,y`, on which consistency breaks |
| `UpstreamConvergence.NothingStagedIff` | controller/channel_upstream_update.go:179-238 | A detection stages nothing iff no upstream name is wanted and no served one is gone |
| `UpstreamConvergence.DetectedIsConsistent` | controller/channel_upstream_update.go:474-521 | A successful detection yields a consistent row whatever was staged before |
| `UpstreamConvergence.AfterFirstRound` | controller/channel_upstream_update.go:919-967 | The served list, ignore rules and staged names after a detection and a bulk apply |
| `UpstreamConvergence.CommaNameReturns` | controller/channel_upstream_update.go:179-238 | A wanted name with a comma is wanted again whatever is served |
| `UpstreamConvergence.ConvergesIff` | controller/channel_upstream_update.go:474-967 | Detect, apply everything, detect again: nothing is staged iff no adopted name has a comma and every ignore rule that an unserved name needs survives |
| `UpstreamConvergence.ConvergesForPlainNames` | controller/channel_upstream_update.go:474-967 | In particular it converges for all names without a comma or a rule prefix |
| `UpstreamConvergence.AutoConvergesIff` | controller/channel_upstream_update.go:474-521 | Under auto-sync, which deletes no rule, a second detection adopts nothing iff no adopted name has a comma |
| `UpstreamConvergence.DeletedRuleReturns` | controller/channel_upstream_update.go:919-967 | Adopting a model spelled like the only rule hiding another name brings that name back |
| `UpstreamConvergence.DeletedRuleExample` | controller/channel_upstream_update.go:919-967 | A concrete row and upstream list on which that happens |
| `UpstreamConfluence.StagedInRounds` | controller/channel_upstream_update.go:919-967 | What is still staged never depends on how selections are grouped, whatever the names |
| `UpstreamConfluence.LateAddIsLost` | controller/channel_upstream_update.go:919-967 | A name ignored first and added later ends unserved, while one combined application serves it |
| `UpstreamConfluence.LateAddStaysIgnored` | controller/channel_upstream_update.go:919-967 | A name ignored first and added later stays an ignore rule in two rounds and is none in one |
| `UpstreamConfluence.ReviewConfluentIff` | controller/channel_upstream_update.go:919-967 | On every row whose staged lists are ordered sets without a common name, as every run keeps them, two applications and the combined one leave the same served names, ignore rules and staged names iff no name is ignored first and added only later, and every comma piece of a first addition that is removed later is added again |
| `UpstreamConfluence.SameServedIff` | controller/channel_upstream_update.go:919-967 | On every such row, unless a name is ignored first and added only later, two applications and the combined one serve the same names iff every comma piece of a first addition that is removed later is added again |
| `UpstreamConfluence.RemovedPieceIsLost` | controller/channel_upstream_update.go:919-967 | Adding a name first and removing one of its comma pieces later loses the piece, while one combined application serves it |
| `UpstreamConfluence.DetectedPieceIsLost` | controller/channel_upstream_update.go:474-967 | A channel serving `x` whose upstream offers only `x,y`: one detection leads to a review in which the two ways serve different names |
| `UpstreamConfluence.ConfluentIff` | controller/channel_upstream_update.go:919-967 | When no staged name has a comma, two applications equal the combined one as whole rows iff no name is ignored first and added only later |
| `UpstreamSync.MergeGrows` | controller/channel_upstream_update.go:474-521 | Adopted names are new, so the code's length test detects every adoption |
| `UpstreamSync.DetectFound` | controller/channel_upstream_update.go:474-521 | The row written by a detection that reached the upstream list, with that length test resolved |
| `UpstreamSync.DetectNothing` | controller/channel_upstream_update.go:480-497 | A detection that is not due leaves the row; one whose fetch fails only notes the time, and the staged lists stay |
| `UpstreamChannel.Channel.Save` | controller/channel_upstream_update.go:463-472 | The stored row changes only on success, and its models only when asked |
| `UpstreamChannel.Channel.StageOrAdopt` | controller/channel_upstream_update.go:474-521 | Pending names are adopted under auto-sync and staged otherwise |
| `UpstreamChannel.Channel.CheckAndPersist` | controller/channel_upstream_update.go:474-521 | The stored row follows the step function, with its flags, counts and errors, on every failure path |
| `UpstreamChannel.CheckFailureIff` | controller/channel_upstream_update.go:474-521 | When each error is returned: the save comes before the fetch error, the abilities last, and a detection not due never fails |
| `UpstreamChannel.Review` | controller/channel_upstream_update.go:919-967 | The computation of an application before it saves, against the row function |
| `UpstreamChannel.Channel.Apply` | controller/channel_upstream_update.go:919-967 | On a successful save the stored row, reported names and change flag are those of the application, otherwise nothing changes; the error of each failure |
| `SortedSets.AscendingTail` | controller/channel_upstream_update.go:973-984 | The elements above the n-th smallest are exactly the tail of the sorted listing |
| `CursorScan.QueryAtCursor` | controller/channel_upstream_update.go:973-984 | A query at the cursor returns exactly the next channels of the id order, up to a batch |
| `CursorScan.QueryFromScan` | controller/channel_upstream_update.go:973-984 | The same while earlier channels are already processed; a short batch is the last one |
| `CursorScan.ScanOrderIs` | controller/channel_upstream_update.go:973-984 | The scan order lists every enabled channel once, by ascending id |
| `CursorScan.Database.ProcessBatch` | controller/channel_upstream_update.go:673-761 | The inner loop processes the batch in order until it ends or the context is cancelled |
| `CursorScan.Database.Scan` | controller/channel_upstream_update.go:673-761 | For every batch size the scan visits a prefix of the enabled channels in id order, each once, all of them unless cancelled or failed, and its effect and totals are those of that list |
| `ChannelScan.CheckOne` | controller/channel_upstream_update.go:673-761 | One iteration of the detection loop: the channel's new row and its part of the summary |
| `ChannelScan.RunTaskOnce` | controller/channel_upstream_update.go:652-817 | The detection task as one scan, with its summary |
| `ChannelScan.SummaryAddsUp` | controller/channel_upstream_update.go:673-761 | In every run failures and changes are checked channels, adopted models are detected ones, and no change means nothing detected |
| `ChannelScan.ContributionIs` | controller/channel_upstream_update.go:673-761 | What a channel adds to the summary: nothing when not watched, one failure, the lists already staged when not due, otherwise every name found, staged or adopted |
| `ChannelScan.SummaryIsSum` | controller/channel_upstream_update.go:673-761 | Every total of the summary is the sum over the channels visited |
| `ChannelScan.ScanKeepsConsistent` | controller/channel_upstream_update.go:673-761 | A whole detection task on comma-free lists keeps every row consistent |
| `ChannelScan.ApplyOne` | controller/channel_upstream_update.go:993-1048 | One iteration of the bulk-apply loop: the new row and totals |
| `ChannelScan.ApplyStaged` | controller/channel_upstream_update.go:993-1048 | Applying everything staged on one channel, with its failures |
| `ChannelScan.ApplyAll` | controller/channel_upstream_update.go:986-1068 | The bulk apply as one scan, over all enabled channels or, after a failed query, the ones before it |
| `ChannelScan.TotalsAre` | controller/channel_upstream_update.go:993-1048 | The bulk apply reports the channels processed and failed, in order, and the numbers of all names staged for addition and for removal on the former |
| `ChannelScan.ApplyAllClears` | controller/channel_upstream_update.go:969-971 | Applying everything staged leaves nothing staged, whatever the names |
| `ChannelScan.BulkApplyClears` | controller/channel_upstream_update.go:986-1068 | After a bulk apply a watched enabled channel whose save succeeds has nothing staged, whatever the names |
| `KeyText.CountAgreesIff` | model/channel.go:606-640 | The count saved with a channel is the number of its keys except for an empty JSON array |
| `KeyText.GetKeysOfJoinIff` | model/channel.go:209-231 | Joined keys are read back unchanged iff the text decodes to them or, read as lines, no key spans lines and neither end is blank |
| `KeyText.PlainRoundTrip` | model/channel.go:209-231 | Plain keys always survive the round trip, in the reader and in the counter |
| `KeyText.NewlineIsPlain` | model/channel.go:209-231 | The newline and array format, as a whole, keeps plain keys and counts them as it reads them |
| `KeyText.SurvivesIff` | model/channel.go:209-231 | Exactly which key lists survive being written and read in this format |
| `KeyText.AppendKeys` | controller/channel.go:1061-1133 | The append branch computes the key text of the specification |
| `KeyText.MergeKeys` | controller/channel.go:1099-1131 | Existing keys first, then the added ones |
| `KeyText.TrimmedLines` | controller/channel.go:1100-1108 | The loop that trims entries and skips blank ones |
| `KeyText.Deduplicate` | controller/channel.go:1110-1129 | The loop with its seen set keeps first occurrences of keys not already present |
| `KeyText.AddedKeysMeaning` | controller/channel.go:1099-1132 | Added keys are trimmed, not blank, pairwise distinct and new, and with the old ones cover every line asked for |
| `KeyText.AppendTwice` | controller/channel.go:1099-1132 | Appending the same input again adds nothing |
| `KeyAppend.AppendKeepsIff` | controller/channel.go:1061-1133 | For every key text and input, exactly when the stored text reads as the old keys followed by the new ones: no text yet, text an append cannot decode, and any other text |
| `KeyAppend.NewlineAppendKeeps` | controller/channel.go:1077-1132 | Newline text that is not blank and does not look like an array keeps every key at its index under every append |
| `KeyAppend.FirstKeysIff` | controller/channel.go:1063-1133 | Without key text the input is stored as it is, and its keys are the added ones iff nothing in it would be trimmed, dropped or merged, or it decodes to them |
| `KeyAppend.UndecodableIff` | controller/channel.go:1068-1076 | On array-looking text that does not decode the old keys stay iff the input is blank, decodes to the whole list, or does not decode and starts with all of them |
| `KeyAppend.AppendDropsKeys` | controller/channel.go:1068-1076 | Appending plain keys to such text leaves exactly the keys of the input: every old key it does not repeat is gone |
| `KeyAppend.PlainLinesHead` | model/channel.go:209-231 | Text whose lines are all plain keys does not look like an array |
| `KeyRecords.RebuiltRecords` | controller/channel.go:1899-1925 | Maps rebuilt from records stand for exactly those records, with indexes in range |
| `KeyRecords.RemoveAt` | controller/channel.go:1899-1925 | The delete loop renumbers so that every other key keeps its own status, time and reason |
| `KeyRecords.RemoveAutoDisabled` | controller/channel.go:1963-1993 | The delete-disabled loop keeps exactly the other keys, renumbered, and counts the deleted ones |
| `KeyRecords.CleanSurvivors` | controller/channel.go:1963-1993 | With times and reasons only on disabled keys, survivors are the filtered list of records itself |
| `KeyRecords.SurvivorsMembers` | controller/channel.go:1963-1993 | Survivors come from the list; nothing is deleted iff no key is automatically disabled, everything iff all are |
| `KeyRecords.DisableEnabled` | controller/channel.go:1840-1852 | The loop disables exactly the enabled keys, and its count is zero iff there were none |
| `KeyManager.IndexOf` | model/channel.go:726-732 | The first position of a key, or minus one iff it is absent |
| `KeyManager.FindKey` | model/channel.go:726-732 | The search loop finds that position |
| `KeyManager.MultiKeyChannel.Update` | model/channel.go:606-653 | An empty key keeps the stored one, the size is recounted and statuses beyond it are dropped |
| `KeyManager.MultiKeyChannel.DisableKey` | controller/channel.go:1719-1760 | The stored row after disabling a key; refused iff the index is missing or out of range |
| `KeyManager.MultiKeyChannel.EnableKey` | controller/channel.go:1762-1802 | The stored row after enabling a key; refused iff the index is missing or out of range |
| `KeyManager.MultiKeyChannel.EnableAllKeys` | controller/channel.go:1804-1826 | The stored row after enabling all keys, and the reported count |
| `KeyManager.MultiKeyChannel.DisableAllKeys` | controller/channel.go:1828-1873 | The stored row after disabling all keys; refused iff none is enabled |
| `KeyManager.MultiKeyChannel.DeleteKey` | controller/channel.go:1875-1953 | The stored row after deleting a key; the last one is refused |
| `KeyManager.MultiKeyChannel.DeleteDisabledKeys` | controller/channel.go:1955-2022 | The stored row after deleting the automatically disabled keys; refused iff there are none |
| `KeyManager.MultiKeyChannel.AppendToKeys` | controller/channel.go:1061-1133 | The stored row after an append |
| `KeyManager.MultiKeyChannel.MarkKey` | model/channel.go:721-771 | The stored row after the status handler marks the key in use |
| `KeyLists.ActKeepsCleanIff` | model/channel.go:721-771 | Times and reasons stay confined to disabled keys iff the handler does not enable a key that has one |
| `KeyLists.SwitchesAre` | controller/channel.go:1719-1873 | Enabling and disabling on the list of records, with the status numbers: one key or all, and what stays of time and reason |
| `KeyLists.DeletionIs` | controller/channel.go:1875-1953 | Deleting one record, except the last |
| `KeyLists.CleanupIs` | controller/channel.go:1955-2022 | Deleting every automatically disabled record, if there is one; the enabled ones are left without time and reason |
| `KeyLists.MarkIs` | model/channel.go:721-771 | A mark changes the first record of the key in use: enabling clears its status alone, anything else also notes time and reason |
| `KeyLists.AppendIs` | controller/channel.go:1061-1133 | Appended keys come last, enabled, without time and reason |
| `KeyNewlineLaws.NewlineInPlace` | controller/channel.go:1719-1873 | From every row whose stored size is the recount and whose statuses stand below it (a counted row), the actions that do not rewrite keys act on the maps as on the list of records; a consistent row stays so, and enabling all keys makes any row consistent whose text is no empty array |
| `KeyNewlineLaws.ActionFollowsIff` | controller/channel.go:1719-2022 | From every counted row every action, append and status mark included, commutes with the abstraction iff an append keeps the keys that were there and finds nothing recorded under the indexes of the new ones, and the list a deletion leaves reads back: decoded to itself, or some keys, none spanning lines, neither end blank |
| `KeyNewlineLaws.NewlineAppendIff` | controller/channel.go:1061-1133 | The append part of that, on any row at all |
| `KeyNewlineLaws.RewriteFollowsIff` | controller/channel.go:1935-1942 | A shortened list is written back faithfully iff it reads back |
| `KeyNewlineLaws.PlainActionIff` | controller/channel.go:1719-2022 | On plain keys every action commutes with the abstraction iff it does not delete every key, and the keys stay plain and the row consistent |
| `KeyNewlineLaws.PlainRunFollows` | controller/channel.go:1719-2022 | On plain keys the row stays consistent and the keys plain over every run, and a run that never deletes every key is the run on the list of records |
| `KeyNewlineLaws.PlainIsGood` | controller/channel.go:1061-1080 | A row with plain keys is one whose keys an append reads as they are |
| `KeyNewlineLaws.AppendDropsExample` | controller/channel.go:1068-1076 | On every channel with undecodable key text, appending plain keys does not do what it does to the records |
| `KeyNewlineLaws.OpenArrayExample` | controller/channel.go:1068-1076 | Such a channel: text that opens with a bracket and does not decode, and one key appended to it |
| `KeyRuns.RunKeepsCounted` | model/channel.go:606-653 | Over every run, on any key text, the stored size is the recount and no status stands beyond it |
| `KeyRuns.RunFollowsIff` | controller/channel.go:1719-2022 | From every counted row, all along a run the row stands for the records iff every action meets the condition above where it is taken |
| `KeyRuns.FollowsToTheEnd` | controller/channel.go:1719-2022 | Such a run ends with the records of the run on the list |
| `KeyRuns.ActionConsistentIff` | model/channel.go:606-653 | From every counted row an action leaves a consistent row iff the text it stores is no empty array and no time or reason stands beyond the keys then read; an action that leaves text and times alone, iff the row was consistent |
| `KeyRuns.FaithfulStaysConsistent` | model/channel.go:606-653 | From a consistent row every action that acts on the records leads to a consistent row |
| `KeyRuns.FaithfulRunStaysConsistent` | model/channel.go:606-653 | So does every run of such actions |
| `KeyRuns.ConsistentAppend` | controller/channel.go:1061-1133 | On a consistent row nothing is recorded under the indexes of new keys, so keeping the keys is the whole condition of an append |
| `KeyRuns.AppendInherits` | model/channel.go:637-645 | A time recorded just beyond the keys becomes the time of the next key appended |
| `KeyRuns.InheritedTimeExample` | model/channel.go:637-645 | A run from a consistent row of plain keys around a blank one: after disabling the blank key and deleting the last the row is not consistent, and the next appended key has the time of the blank one |
| `KeyRuns.DroppedKeysLeaveTime` | controller/channel.go:1068-1076 | An append to undecodable text leaves an inconsistent row when a time stood beyond the new keys |
| `KeyRuns.EmptyArrayExample` | model/channel.go:606-653 | So does an empty array given as the first keys: none is read from it, and one is counted |
| `KeyRuns.PlainRunCleanIff` | model/channel.go:721-771 | On plain keys, all along a run times and reasons stand on disabled keys only, iff the status handler never enables a key that has one |
| `KeyNewlineLaws.NewlineDeleteAllEnables` | controller/channel.go:1995-2010 | On any row, deleting the disabled keys when all are automatically disabled keeps every key and enables it, and leaves the row consistent |
| `KeyNewlineLaws.PlainAppendIdempotent` | controller/channel.go:1099-1132 | On plain keys, appending the same lines to the stored row twice leaves the records of the first time |
| `KeyNewlineLaws.BlankKeyIsLost` | controller/channel.go:1935-1942 | A blank line after the first key counts as a key, and does not survive once that key is deleted |
| `KeyNewlineLaws.BlankKeyExample` | controller/channel.go:1935-1942 | For any two plain keys with a blank line between them, deleting the first does not do what it does to the records |
| `KeyNewlineLaws.LongKeyIsSplit` | controller/channel.go:1935-1942 | A key of a JSON array that spans lines does not survive once it stands alone |
| `KeyNewlineLaws.LongKeyExample` | controller/channel.go:1935-1942 | A concrete array of two objects on which deleting the first fails |
| `KeyPages.BuildView` | controller/channel.go:1618-1666 | The loop shows every record at its index and counts the three statuses as filtered views would |
| `KeyPages.ViewIs` | controller/channel.go:1618-1666 | What the view shows of a key: its position, its status, time and reason only when it is not enabled, and no more than its first ten characters |
| `KeyPages.SelectStatus` | controller/channel.go:1668-1678 | The filter loop keeps exactly the entries of the status, in order |
| `KeyPages.GetKeyStatus` | controller/channel.go:1605-1717 | The answer to a status request: clamped page, totals, and the page of the filtered view |
| `KeyPages.PagesConcatenate` | controller/channel.go:1680-1701 | Pages one to the last, one after the other, are exactly the filtered list |
| `KeyPages.PagesAreFull` | controller/channel.go:1680-1701 | No page of a non-empty list is empty and all but the last are full |
| `KeyPages.CountsAddUpIff` | controller/channel.go:1634-1642 | The three counts add up to the number of keys iff every status is one of the three |
| `KeyPolling.EnabledIndexes` | model/channel.go:237-252 | Exactly the indexes of enabled keys |
| `KeyPolling.EnabledIndexesAscend` | model/channel.go:237-252 | They are listed in ascending order |
| `KeyPolling.EligibleIff` | model/channel.go:237-297 | A key may be chosen iff it has no status or status 1 and is not excluded |
| `KeyPolling.Untried` | model/channel.go:292-297 | Exactly the enabled indexes not excluded, in ascending order |
| `KeyPolling.Poll` | model/channel.go:324-341 | The polling loop finds the nearest eligible key at or after the cursor; its fallback is never reached |
| `KeyPolling.Choose` | model/channel.go:265-346 | Each error is returned iff its cause holds; the choice is drawn from the ascending list, the nearest from the cursor, or the first one, by mode |
| `KeyPolling.KeySelector.NextEnabledKey` | model/channel.go:265-346 | The same choice from the saved cursor; polling hands out the next key the fairness results count, moves the cursor just past it, and nothing else moves it |
| `KeyPolling.NearestUnique` | model/channel.go:324-341 | There is one nearest key, so every polling call hands out the one the fairness results count |
| `KeyPolling.TurnIsFirst` | model/channel.go:324-341 | The turn of a key is the first call that returns it |
| `KeyPolling.TurnCounts` | model/channel.go:324-341 | A key waits for exactly the eligible keys between the cursor and itself |
| `KeyPolling.WaitIsBounded` | model/channel.go:324-341 | No key waits longer than one round |
| `KeyPolling.RoundRobin` | model/channel.go:324-341 | A key just handed out comes again after every other key has had its turn |
| `RateLimiter.InMemoryRateLimiter.Request` | common/rate-limit.go:45-70 | The decision and the new queues, with no queue ever empty |
| `RateLimiter.InMemoryRateLimiter.Sweep` | common/rate-limit.go:28-42 | One sweep removes exactly the queues whose newest entry has expired, in any order of keys |
| `RateLimiter.SweepAgrees` | common/rate-limit.go:28-42 | A sweep forgets only keys whose every grant is past the window |
| `RateLimiter.RunAgrees` | common/rate-limit.go:28-70 | From any agreeing state limiter and log make the same decisions |
| `RateLimiter.LimiterRefinesLog` | common/rate-limit.go:28-70 | Every decision of every run with a steady clock, with any sweeps in between when the cleaner runs, is the sliding-window decision on the full log |
| `RateLimiter.LimiterDecides` | common/rate-limit.go:28-70 | In every such run a request is granted iff fewer than its limit were granted to its key less than a window ago, counted in the log of the limiter's own grants; a limit of zero acts as one |
| `RateLimiter.GrantsStayBounded` | common/rate-limit.go:45-70 | The log never holds more than the limit in any stretch as long as the window |
| `RateLimiter.LimiterStaysBounded` | common/rate-limit.go:28-70 | Hence the limiter itself never grants more than the limit within a window |
| `RateLimiter.RefinementFails` | common/rate-limit.go:28-42 | For every limit, zero included, and a longer window, a run on which a sweep of a running cleaner changes a decision |
| `RateLimiter.RefinesIff` | common/rate-limit.go:14-70 | For every limit, zero included, the limiter is the sliding-window rule iff the cleaner was not started or the window is at most the expiration plus one |
| `RequestMetrics.RingReadsHistory` | common/request_metrics.go:72-95 | Every slot of the last hour reads exactly its history |
| `RequestMetrics.ObserveIff` | common/request_metrics.go:53-68 | An observation keeps the ring in step iff it is less than a ring late or overwrites an empty slot |
| `RequestMetrics.Metrics.ObserveRequestOutcome` | common/request_metrics.go:53-68 | The new ring, and when it still agrees with the history |
| `RequestMetrics.Metrics.Count` | common/request_metrics.go:53-68 | The bucket is reset when it belongs to an older slot, then counts the event |
| `RequestMetrics.Metrics.GetRequestSuccessRate` | common/request_metrics.go:70-95 | On the events themselves: nothing iff the last twelve five-minute stretches hold fewer than fifteen, otherwise the success percentage, to the nearest tenth, of as many recent stretches as are needed; a query behind the newest slot still gets it when they lie in the hour before that slot |
| `RequestMetrics.RateIsPercentage` | common/request_metrics.go:88-93 | The rate is the whole number of tenths of a percent nearest to the true one, halves up |
| `RequestMetrics.CountOverIs` | common/request_metrics.go:72-95 | The totals of a window of slots are the numbers of events and successes in its stretch of time |
| `OggScan.PayloadSize` | common/audio.go:196-254 | The loop over a segment table adds it up |
| `OggScan.TableSum` | common/audio.go:236-250 | The segment table adds up to the size of the payload, whatever the segments |
| `OggScan.TakeHeader` | common/audio.go:196-254 | One iteration after a full header: capture pattern, granule position, segment table, seeks; it always advances |
| `OggScan.GetOpusDuration` | common/audio.go:196-254 | The whole scan loop with every failure of the reader: which failures are errors, and the duration otherwise |
| `OggScan.FaultlessScan` | common/audio.go:196-254 | Without failures the loop is the scan of the bytes |
| `OggScan.FaultsOnlyLower` | common/audio.go:196-254 | Whatever fails, a reported position is never beyond the one of the whole stream |
| `OggScan.ErrorsAreReads` | common/audio.go:196-254 | A failed header read is reported, and nothing else is |
| `OggScan.GranuleRoundTrip` | common/audio.go:196-254 | An encoded granule position is read back, sign included |
| `OggScan.PageLayout` | common/audio.go:196-254 | The bytes of a page, field by field as section 6 of RFC 3533 lays them out: pattern, signed position lowest byte first, table and segments |
| `OggScan.ScanPage` | common/audio.go:196-254 | At a well-formed page, given by its segments, the scan takes its position and lands just after it |
| `OggScan.ScanTruncatedPage` | common/audio.go:196-254 | A page cut off after its header still counts and ends the scan |
| `OggScan.ScanStream` | common/audio.go:196-254 | On every stream of pages with junk that starts no page, the scan accepts exactly the page starts and reports the best position |
| `OggScan.BestGranuleIsMaximum` | common/audio.go:196-254 | That position is the largest granule position, or zero |
| `OggScan.ScanIsSomeGranule` | common/audio.go:196-254 | On any bytes a result beyond the start value is the granule position of a page at an offset the scan accepts |
| `PriceDiff.ConfidenceIsPlaceholder` | controller/ratio_sync.go:557-590 | A model is distrusted iff its ratios are 37.5 and 1 to within a billionth, whatever the style of the data |
| `PriceDiff.CompareCell` | controller/ratio_sync.go:604-628 | What one channel shows in an entry and the flags it raises |
| `PriceDiff.CompareField` | controller/ratio_sync.go:593-651 | The loop over channels: whether an entry is recorded, and its contents |
| `PriceDiff.CompareModel` | controller/ratio_sync.go:592-653 | The loop over fields for one model |
| `PriceDiff.CompareAll` | controller/ratio_sync.go:592-653 | The loop over models, in any order |
| `PriceDiff.PruneModel` | controller/ratio_sync.go:666-692 | The in-place pruning of one model's entries, in any order |
| `PriceDiff.Prune` | controller/ratio_sync.go:666-692 | The pruning loop over models, in any order |
| `PriceDiff.BuildDifferences` | controller/ratio_sync.go:535-695 | The whole comparison computes the specified result |
| `PriceDiffLaws.ListedIff` | controller/ratio_sync.go:655-664 | The names kept are exactly those whose last channel offers a value to adopt somewhere |
| `PriceDiffLaws.EntryIff` | controller/ratio_sync.go:535-695 | For all inputs, shared names included, an entry is reported iff the last channel of some name offers a change there, or some channel made it recorded and the last channel of a kept name shows a null |
| `PriceDiffLaws.EntryContents` | controller/ratio_sync.go:535-695 | An entry shows the local value and exactly the kept names with the cells and trust flags of their last channels |
| `PriceDiffLaws.EntryNames` | controller/ratio_sync.go:535-695 | An entry names no other channel |
| `PriceDiffLaws.PlainEntryIff` | controller/ratio_sync.go:535-695 | On plain values of channels with different names an entry is reported iff some channel has a value and the local one is missing or differs |
| `PriceDiffLaws.AgreeIff` | controller/ratio_sync.go:47-61 | Numbers agree iff they are less than a billionth apart, other values iff they are equal |
| `PriceDiffLaws.NumberEntryIff` | controller/ratio_sync.go:535-695 | On numbers, with the tolerance written out: an entry is reported iff some channel has a number there and the local table has none less than a billionth away |
| `PriceDiffLaws.NumberEntryShows` | controller/ratio_sync.go:604-628 | What an entry shows for a channel with numbers: its number, `same`, or nothing |
| `PriceDiffLaws.PlainSharedIff` | controller/ratio_sync.go:535-695 | On plain values with names that may repeat: the last channel of some name differs there, or any channel does while the last channel of a kept name has no value |
| `PriceDiffLaws.OverriddenKeepsEntry` | controller/ratio_sync.go:245-248 | Two channels of one name on which an entry with nothing to adopt survives |
| `PriceDiffLaws.NullKeepsEntry` | controller/ratio_sync.go:666-692 | Concrete tables on which an entry with nothing to adopt survives |
| `PriceDiffLaws.PatchedByChannel` | controller/ratio_sync.go:535-695 | Adopting a channel, the last of its name, from the report changes exactly the entries where it offers a change |
| `PriceDiffLaws.PatchAgrees` | controller/ratio_sync.go:47-61 | After adopting, the local prices equal the channel's within the tolerance on every value it has |
| `PriceDiffLaws.PatchNumbersAgree` | controller/ratio_sync.go:47-61 | After adopting a channel the local table has, for each of its numbers, one less than a billionth away |
| `PriceDiffLaws.AdoptedChannelDisappears` | controller/ratio_sync.go:535-695 | Comparing again, the adopted channel appears in no entry |
| `PriceDiffLaws.NothingOffered` | controller/ratio_sync.go:535-695 | The report is empty when no channel offers a change |
| `PriceDiffLaws.PatchFixpoint` | controller/ratio_sync.go:535-695 | Against the adopted channel alone the report is empty |
| `PriceConversion.ConvertOpenRouter` | controller/ratio_sync.go:723-806 | The conversion loop computes the specified tables |
| `PriceConversion.ConvertedEntry` | controller/ratio_sync.go:723-806 | Each table holds, for every listed model, the ratio of its last listing that has one |
| `PriceConversion.ConvertedIds` | controller/ratio_sync.go:723-806 | A table has an entry for a model iff some listing of it has such a ratio |
| `PriceConversion.ConvertedRatios` | controller/ratio_sync.go:723-806 | The ratios stored for a model: six decimals, within half a unit of the last, of 500000 times its prompt price and of its completion and cache prices over the prompt price |
| `PriceConversion.ConvertedFree` | controller/ratio_sync.go:723-806 | A model whose last listing costs nothing gets a ratio of zero |
| `PriceConversion.RatedIff` | controller/ratio_sync.go:723-806 | The listings that change nothing are those without a price that parses, with a negative price, or with a completion price alone |
| `PriceConversion.ConversionError` | controller/ratio_sync.go:697-699 | Rounding both ratios to six decimals moves the bill for any token counts by at most a stated bound |
| `PriceConversion.ConvertedBill` | controller/ratio_sync.go:723-806 | Billing through the tables that come out is within the stated bound of the listed dollars, for any token counts |
| `PriceConversion.SettlementError` | controller/channel-test.go:565-573 | Settling in whole units adds at most half a token and one unit |
| `PriceConversion.SettledConversionError` | controller/channel-test.go:565-573 | The charge settled for any token counts, in dollars, against the listed prices: both errors together |
| `PriceConversion.ConvertedCharge` | controller/channel-test.go:565-573 | The same for the charge settled through the tables that come out |
| `PriceConversion.ChargeIs` | controller/channel-test.go:565-573 | The charge for so many tokens: the nearest number of units, halves up, but at least one unless the model is free |
| `PriceConversion.SettledIs` | controller/channel-test.go:565-573 | The tokens charged: the prompt and the completion weighted by its ratio, to the nearest token |
| `CacheAccounting.FromReaderKeepsIff` | common/body_storage.go:307-348 | Exactly the bodies within the limit are kept, whole, unless streaming to disk fails; where each goes and when each error is returned |
| `CacheAccounting.KindIff` | common/body_storage.go:286-304 | A body goes to disk iff the cache is on, it reaches the threshold, there is room for it and the disk works |
| `CacheAccounting.CountedInIs` | common/disk_cache_config.go:96-150 | A creation counts one storage of its kind with its bytes, and a hit of its kind when streamed |
| `CacheAccounting.CloseUndoes` | common/disk_cache_config.go:96-150 | Closing undoes the creation, hits apart |
| `CacheAccounting.DiskNeverNegative` | common/disk_cache_config.go:108-134 | Whatever is given back, the disk counters never fall below zero |
| `CacheRuns.StepKeepsBalance` | common/disk_cache_config.go:108-134 | Every test, atomic counter update and failure of any storage keeps the books, and the clamp at zero never changes a value |
| `CacheRuns.RunKeepsBalance` | common/body_storage.go:286-348 | In every interleaving of creations and closes the counters are the shares of the storages that stand counted |
| `CacheRuns.QuietBalance` | common/body_storage.go:286-348 | Whenever no counter update is under way they are the number and size of the open storages, per kind |
| `CacheRuns.AloneCounts` | common/body_storage.go:127-194 | A creation with nothing in between counts as the single-call contracts say |
| `CacheRuns.OvershootBound` | common/disk_cache_config.go:170-177 | With truthful lengths usage outgrows the limit by no more than the bytes on their way at some admission |
| `CacheRuns.AlwaysSafeIff` | common/disk_cache_config.go:170-177 | At every point of a run usage is sure to keep to the limit, however the creations and closes under way go on, iff every admission leaves room for the bytes on their way |
| `CacheRuns.RoomKeepsUsage` | common/disk_cache_config.go:170-177 | Admissions that leave room keep usage within the limit in every state of the run |
| `CacheRuns.LuckyRun` | common/body_storage.go:286-304 | The converse fails for a single run: of two bodies that are too much together one write fails, and usage stays within the limit |
| `CacheRuns.ReservedIsReached` | common/body_storage.go:127-194 | Letting every creation finish brings all the bytes on their way into the counter |
| `CacheRuns.SafeIff` | common/disk_cache_config.go:170-177 | In one state usage is sure to keep to the limit without new admissions iff usage and bytes on their way do |
| `CacheRuns.TwoOutgrow` | common/body_storage.go:286-304 | Two requests that fit alone are both admitted before either is counted, and outgrow the limit |
| `BodyStorage.MemoryStorage.constructor` | common/body_storage.go:52-60 | A fresh memory storage over the bytes, counted |
| `BodyStorage.MemoryStorage.Read` | common/body_storage.go:62-69 | The read of the specification, refused after Close |
| `BodyStorage.MemoryStorage.Seek` | common/body_storage.go:71-78 | The seek of the specification, refused after Close |
| `BodyStorage.MemoryStorage.Close` | common/body_storage.go:80-87 | Only the first Close gives the buffer back |
| `BodyStorage.MemoryStorage.Bytes` | common/body_storage.go:89-96 | All bytes, whatever the offset |
| `BodyStorage.MemoryStorage.NewReader` | common/body_storage.go:98-108 | A reader at the start that leaves the storage's offset alone |
| `BodyStorage.DiskStorage.constructor` | common/body_storage.go:127-157 | A fresh disk storage over the bytes, counted |
| `BodyStorage.DiskStorage.Read` | common/body_storage.go:196-203 | The read of the specification, refused after Close |
| `BodyStorage.DiskStorage.Seek` | common/body_storage.go:205-212 | The seek of the specification, refused after Close |
| `BodyStorage.DiskStorage.Close` | common/body_storage.go:214-223 | Only the first Close closes the file and gives its space back |
| `BodyStorage.DiskStorage.Bytes` | common/body_storage.go:225-257 | All bytes, and the offset is put back where it was |
| `BodyStorage.DiskStorage.NewReader` | common/body_storage.go:259-275 | A second descriptor at the start that leaves the storage's offset alone |
| `BodyStorage.CreateBodyStorage` | common/body_storage.go:286-304 | The kind chosen, its contents and the counters |
| `BodyStorage.CreateBodyStorageFromReader` | common/body_storage.go:307-348 | The kind chosen or the error, its contents and the counters |
| `BodyStorage.StepAlikeIff` | common/body_storage.go:52-275 | Memory and disk answer one operation alike iff it is not an empty read at the end or the use of a closed reader, and stay in step |
| `BodyStorage.RunAlikeIff` | common/body_storage.go:52-275 | Over every run they give identical results iff no operation tells them apart |
| `BodyStorage.ReplayDeliversData` | common/body_storage.go:62-69 | However a replay cuts its reads it receives the stored bytes in order |
| `BodyStorage.ReadIs` | common/body_storage.go:62-69 | A read gives up to so many bytes from the offset and moves past them; at the end it gives none and says so |
| `BodyStorage.SeekIs` | common/body_storage.go:71-78 | A seek from the start goes there, or is refused before it and leaves the offset |
| `BodyStorage.SeekOrigins` | common/body_storage.go:71-78 | The other two origins are the current offset and the end of the data |
| `BodyStorage.ReaderStartsOver` | common/body_storage.go:98-108 | A new reader starts at the beginning, wherever the storage is |
| `BodyStorage.ClosedForGood` | common/body_storage.go:80-87 | After Close every later storage operation of every run fails |
| `Streaks.CurrentStreak` | controller/next_engagement.go:190-223 | The backward walk finds the full run ending today, or yesterday when today is missing |
| `Streaks.BestStreak` | controller/next_engagement.go:190-223 | The forward pass over sorted days finds the longest run |
| `Streaks.NextStreaks` | controller/next_engagement.go:190-223 | Both, on recorded days in any order with duplicates |
| `Quota.ConversionsMonotone` | common/quota_math.go:98-134 | A larger value never becomes a smaller quota |
| `Quota.ConversionsStayInRange` | common/quota_math.go:72-86 | Results fit the column and a charge never turns into a credit |
| `Quota.StrictAcceptsIff` | common/quota_math.go:88-93 | The strict forms accept exactly the values inside the limits and are then within rounding |
| `Quota.ClampedQuota` | common/quota_math.go:72-86 | What is billed for values outside the limits and for NaN, and how they are flagged |
| `Quota.AcceptedQuota` | common/quota_math.go:98-134 | What is billed for the others: the part before the point, or the nearest integer, halves away from zero |

## Left out

- Fetching upstream lists and prices, HTTP handlers, permissions, audit and notification text: network and interface plumbing; fetched lists, clocks, random draws and the success of saves are parameters.
- The regular-expression engine behind ignore rules: a parameter, so the results hold for every matcher.
- JSON decoding of listings, settings and key arrays: the key-array decoder is a parameter; raw array text and Vertex key parsing are not modelled.
- `float64` rounding: prices and ratios are real numbers, and decimal rounding is modelled where the code rounds.
- `NearlyEqual`-style tolerance is exact on reals; NaN and infinite prices are not modelled in the comparison.
- Numbers decoded as other types than floats in the price comparison, and the normalisation of billing-mode text before comparing.
- Integer overflow in the page arithmetic for page sizes near the largest integer.
- Key previews count characters where the source counts bytes.
- The channel-level status that the key status handler sets beside the per-key maps.
- KeyManager.MultiKeyChannel.Update: the two columns saved here are the key and the per-key state; other columns and the abilities table are not modelled. That an update skips empty fields is the object-relational mapper's documented behaviour.
- KeyPolling.KeySelector.NextEnabledKey: models multi-key channels; the single-key case and a failed read of the cached cursor are not modelled. The source reads the cursor from the cached channel and moves the caller's own copy; they are one here, so with the memory cache on a caller that loaded its own row, which leaves the saved cursor alone, is not covered.
- KeyPolling.TurnCounts: the set of eligible keys is fixed during the calls counted; a change of statuses starts the count anew.
- BodyStorage.RunAlikeIff: the reads of the standard library's buffer reader and file are modelled by their documented behaviour; seek origins other than the three documented ones and I/O errors of an open file are not.
- CacheRuns.AlwaysSafeIff: the cache configuration is fixed over a run; a limit changed in between by the settings is not modelled, here and in the other results on runs of the cache.
- The periodic removal of old cache files and the cleanup of polling locks: no state they share with the model outlives them.
- Rows that go stale: a management request loads its row before it takes the channel's lock, and detections and applications take none, so a save can overwrite a newer row; runs of these actions are serial here.
- Locking elsewhere: a method of the limiter, the metrics or a storage is one critical section, as in the source; clocks read before a lock are parameters.
- ChannelScan.RunTaskOnce: the summary holds the counts; failed ids, samples for the notification and progress reports are not part of it.
- BodyStorage.MemoryStorage.Bytes: returns a value; in the source it is the storage's own buffer, so a caller that writes into it changes the storage.
- BodyStorage.StepAlikeIff: a refused seek is one failure; the error values of the two standard-library seeks are not told apart, here and in BodyStorage.RunAlikeIff.
- RequestMetrics.Metrics.GetRequestSuccessRate: says nothing about a query behind the newest slot whose window reaches back beyond the hour before that slot, and requires a clock at least an hour after zero, because the source computes a negative index before that.
- Check-in days are day numbers; calendars and daylight-saving shifts are not modelled.

/** The scheduled detection and the bulk apply, run over the whole channel table. */
module ChannelScan {
  import opened Lists
  import opened ModelNames
  import opened UpstreamSync
  import opened UpstreamChannel
  import opened UpstreamConvergence
  import opened CursorScan
  import SortedSets

  /** How a detection run was started. */
  datatype Task = Task(force: bool, allowAuto: bool, minInterval: int)

  /** What the outside world answers while one channel is processed. */
  datatype Visit = Visit(at: int, fetched: Option<seq<string>>, saves: bool, abilities: bool)

  datatype Summary = Summary(checked: int, changed: int, detectedAdds: int, detectedRemoves: int, failed: int, autoAdded: int)

  const NoWork := Summary(0, 0, 0, 0, 0, 0)

  function Plus(a: Summary, b: Summary): (r: Summary) {
    Summary(a.checked + b.checked, a.changed + b.changed, a.detectedAdds + b.detectedAdds,
            a.detectedRemoves + b.detectedRemoves, a.failed + b.failed, a.autoAdded + b.autoAdded)
  }

  // ---- Detection ----

  function CheckedRow(row: Row, task: Task, visit: Visit, matches: Matcher): (r: Row) {
    if !row.settings.checkEnabled then row
    else StepRow(row, Check(visit.fetched, task.force, task.allowAuto, visit.at, task.minInterval, visit.saves), matches)
  }

  /** A checked channel's contribution, given its settings afterwards and the number of models it adopted. */
  function Contribution(failed: bool, after: Settings, adopted: int): (r: Summary) {
    if failed then NoWork.(checked := 1, failed := 1)
    else
      var adds, removes := |Normalize(after.stagedAdds)| + adopted, |Normalize(after.stagedRemoves)|;
      Summary(1, if adds > 0 || removes > 0 then 1 else 0, adds, removes, 0, adopted)
  }

  /** What one channel contributes to the summary. */
  function CheckedSummary(row: Row, task: Task, visit: Visit, matches: Matcher): (r: Summary) {
    if !row.settings.checkEnabled then NoWork
    else
      Contribution(
        CheckFailure(row, visit.fetched, task.force, task.allowAuto, visit.at, task.minInterval,
                     visit.saves, visit.abilities, matches).Some?,
        CheckedRow(row, task, visit, matches).settings,
        |Adopted(row, visit.fetched, task.force, task.allowAuto, visit.at, task.minInterval, matches)|)
  }

  /** The body of the detection loop on one channel. */
  method CheckOne(row: Row, task: Task, visit: Visit, matches: Matcher) returns (after: Row, part: Summary)
    ensures after == CheckedRow(row, task, visit, matches)
    ensures part == CheckedSummary(row, task, visit, matches)
  {
    if !row.settings.checkEnabled {
      return row, NoWork;
    }
    var channel := new Channel(row);
    var modelsChanged, autoAdded, failure := channel.CheckAndPersist(
      visit.fetched, task.force, task.allowAuto, visit.at, task.minInterval, visit.saves, visit.abilities, matches);
    after := channel.stored;
    part := Contribution(failure.Some?, channel.settings, autoAdded);
  }

  function CheckEffect(task: Task, visits: int -> Visit, matches: Matcher): (r: (int, Row) -> Row) {
    (id, row) => CheckedRow(row, task, visits(id), matches)
  }

  function CheckTally(task: Task, visits: int -> Visit, matches: Matcher): (r: (Summary, int, Row) -> Summary) {
    (sum, id, row) => Plus(sum, CheckedSummary(row, task, visits(id), matches))
  }

  /** The summary always adds up: failures and changes are checked channels, adopted models are detected ones. */
  lemma {:induction false} SummaryAddsUp(table: Table<Row>, ids: seq<int>, task: Task, visits: int -> Visit, matches: Matcher)
    requires Listed(table, ids)
    ensures var sum := Tallied(table, ids, NoWork, CheckTally(task, visits, matches));
            && 0 <= sum.changed && 0 <= sum.failed && sum.changed + sum.failed <= sum.checked <= |ids|
            && 0 <= sum.autoAdded <= sum.detectedAdds && 0 <= sum.detectedRemoves
            && (sum.changed == 0 ==> sum.detectedAdds == 0 && sum.detectedRemoves == 0)
  {
    if ids != [] {
      var front, last := ids[..|ids| - 1], ids[|ids| - 1];
      assert last in ids && forall id <- front :: id in ids;
      SummaryAddsUp(table, front, task, visits, matches);
      ContributionBounds(table[last].row, task, visits(last), matches);
    }
  }

  lemma ContributionBounds(row: Row, task: Task, visit: Visit, matches: Matcher)
    ensures var part := CheckedSummary(row, task, visit, matches);
            && 0 <= part.changed && 0 <= part.failed && part.changed + part.failed <= part.checked <= 1
            && 0 <= part.autoAdded <= part.detectedAdds && 0 <= part.detectedRemoves
            && (part.changed == 0 ==> part.detectedAdds == 0 && part.detectedRemoves == 0)
  {
  }

  /** The contribution of a channel, by what happened to it: nothing when it is not watched, one failure, the lists already
      staged when it was not due, and otherwise every name found, whether staged or adopted. */
  lemma ContributionIs(row: Row, task: Task, visit: Visit, matches: Matcher)
    ensures var part, s, local := CheckedSummary(row, task, visit, matches), row.settings, GetModels(row.models);
            var due := task.force || s.lastCheck <= 0 || visit.at >= s.lastCheck + task.minInterval;
            if !s.checkEnabled then part == Summary(0, 0, 0, 0, 0, 0)
            else if CheckFailure(row, visit.fetched, task.force, task.allowAuto, visit.at, task.minInterval, visit.saves, visit.abilities, matches).Some?
            then part == Summary(1, 0, 0, 0, 1, 0)
            else if !due
            then part == FoundNames(|Normalize(s.stagedAdds)|, |Normalize(s.stagedRemoves)|, 0)
            else
              visit.fetched.Some? &&
              var adds := |PendingAdds(local, visit.fetched.value, s.ignored, row.mapping, matches)|;
              part == FoundNames(adds, |PendingRemoves(local, visit.fetched.value, row.mapping)|, if task.allowAuto && s.autoSync then adds else 0)
  {
    var s, local := row.settings, GetModels(row.models);
    if s.checkEnabled && visit.fetched.Some? && (task.force || s.lastCheck <= 0 || visit.at >= s.lastCheck + task.minInterval) {
      var found := visit.fetched.value;
      DetectFound(row, found, task.force, task.allowAuto, visit.at, task.minInterval, matches);
      CollectMembers(local, found, s.ignored, row.mapping, matches);
      NormalizeFixed(PendingAdds(local, found, s.ignored, row.mapping, matches));
      NormalizeFixed(PendingRemoves(local, found, row.mapping));
    }
  }

  /** One checked channel with so many names found. */
  ghost function FoundNames(adds: int, removes: int, adopted: int): Summary {
    Summary(1, if adds + removes > 0 then 1 else 0, adds, removes, 0, adopted)
  }

  ghost function SumOver(ids: seq<int>, f: int -> int): int {
    if ids == [] then 0 else SumOver(ids[..|ids| - 1], f) + f(ids[|ids| - 1])
  }

  ghost function Summed(ids: seq<int>, parts: int -> Summary): Summary {
    Summary(SumOver(ids, id => parts(id).checked), SumOver(ids, id => parts(id).changed),
            SumOver(ids, id => parts(id).detectedAdds), SumOver(ids, id => parts(id).detectedRemoves),
            SumOver(ids, id => parts(id).failed), SumOver(ids, id => parts(id).autoAdded))
  }

  lemma SummedSnoc(ids: seq<int>, front: seq<int>, last: int, parts: int -> Summary)
    requires ids != [] && front == ids[..|ids| - 1] && last == ids[|ids| - 1]
    ensures Summed(ids, parts) == Plus(Summed(front, parts), parts(last))
  {
  }

  lemma TalliedStep(table: Table<Row>, ids: seq<int>, task: Task, visits: int -> Visit, matches: Matcher, front: seq<int>, last: int)
    requires Listed(table, ids) && ids != [] && front == ids[..|ids| - 1] && last == ids[|ids| - 1] && last in table && Listed(table, front)
    ensures var tally := CheckTally(task, visits, matches);
            Tallied(table, ids, NoWork, tally) == Plus(Tallied(table, front, NoWork, tally), CheckedSummary(table[last].row, task, visits(last), matches))
  {
  }

  /** Every total of the summary is the sum over the channels visited. */
  lemma {:induction false} SummaryIsSum(table: Table<Row>, ids: seq<int>, task: Task, visits: int -> Visit, matches: Matcher, parts: int -> Summary)
    requires Listed(table, ids) && forall id <- ids :: parts(id) == CheckedSummary(table[id].row, task, visits(id), matches)
    ensures Tallied(table, ids, NoWork, CheckTally(task, visits, matches)) == Summed(ids, parts)
  {
    if ids != [] {
      var front, last := ids[..|ids| - 1], ids[|ids| - 1];
      assert last in ids && forall id <- front :: id in ids;
      SummaryIsSum(table, front, task, visits, matches, parts);
      TalliedStep(table, ids, task, visits, matches, front, last);
      SummedSnoc(ids, front, last, parts);
    }
  }

  ghost predicate AllReviewable(table: Table<Row>) {
    forall id <- table :: Consistent(table[id].row) && CommaFree(table[id].row.settings.stagedAdds)
  }

  /** A whole detection run over comma-free upstream lists keeps every row consistent. */
  lemma ScanKeepsConsistent(table: Table<Row>, ids: seq<int>, task: Task, visits: int -> Visit, matches: Matcher)
    requires AllReviewable(table)
    requires forall id <- ids :: visits(id).fetched.Some? ==> CommaFree(visits(id).fetched.value)
    ensures AllReviewable(Processed(table, ids, CheckEffect(task, visits, matches)))
  {
    forall id <- table ensures var row := Processed(table, ids, CheckEffect(task, visits, matches))[id].row;
                               Consistent(row) && CommaFree(row.settings.stagedAdds)
    {
      if id in ids {
        var visit := visits(id);
        StepKeepsConsistent(table[id].row,
          Check(visit.fetched, task.force, task.allowAuto, visit.at, task.minInterval, visit.saves), matches);
      }
    }
  }

  // ---- Bulk apply ----

  /** The totals reported by the bulk apply. */
  datatype ApplyTotals = ApplyTotals(processed: seq<int>, failed: seq<int>, added: int, removed: int)

  predicate HasStaged(row: Row) {
    row.settings.checkEnabled && (Normalize(row.settings.stagedAdds) != [] || Normalize(row.settings.stagedRemoves) != [])
  }

  function AllStaged(row: Row): (r: Selection) {
    Selection(Normalize(row.settings.stagedAdds), [], Normalize(row.settings.stagedRemoves))
  }

  function AppliedRow(row: Row, visit: Visit): (r: Row) {
    if HasStaged(row) && visit.saves then ApplyAllStaged(row, visit.at) else row
  }

  /** An abilities failure happens only after a save that changed the models. */
  predicate ApplyFails(row: Row, visit: Visit) {
    !visit.saves || (!visit.abilities && ChangesModels(row, AllStaged(row)))
  }

  function Counted(sum: ApplyTotals, id: int, failed: bool, added: seq<string>, removed: seq<string>): (r: ApplyTotals) {
    if failed then sum.(failed := sum.failed + [id])
    else ApplyTotals(sum.processed + [id], sum.failed, sum.added + |added|, sum.removed + |removed|)
  }

  function AppliedTotals(sum: ApplyTotals, id: int, row: Row, visit: Visit): (r: ApplyTotals) {
    if !HasStaged(row) then sum
    else Counted(sum, id, ApplyFails(row, visit),
                 ChosenAdds(row.settings, AllStaged(row)), ChosenRemoves(row.settings, AllStaged(row)))
  }

  /** The body of the bulk-apply loop on one channel. */
  method ApplyOne(sum: ApplyTotals, id: int, row: Row, visit: Visit) returns (after: Row, total: ApplyTotals)
    ensures after == AppliedRow(row, visit)
    ensures total == AppliedTotals(sum, id, row, visit)
  {
    var adds, removes := Normalize(row.settings.stagedAdds), Normalize(row.settings.stagedRemoves);
    if !row.settings.checkEnabled || (|adds| == 0 && |removes| == 0) {
      return row, sum;
    }
    var failed, added, removed;
    after, failed, added, removed := ApplyStaged(row, visit);
    total := Counted(sum, id, failed, added, removed);
  }

  /** Loads the channel and applies everything staged. */
  method ApplyStaged(row: Row, visit: Visit) returns (after: Row, failed: bool, added: seq<string>, removed: seq<string>)
    ensures after == if visit.saves then ApplyAllStaged(row, visit.at) else row
    ensures failed == ApplyFails(row, visit)
    ensures !failed ==> added == ChosenAdds(row.settings, AllStaged(row)) && removed == ChosenRemoves(row.settings, AllStaged(row))
  {
    var channel := new Channel(row);
    var remaining, remainingRemoves, modelsChanged, failure;
    added, removed, remaining, remainingRemoves, modelsChanged, failure :=
      channel.Apply(AllStaged(row), visit.at, visit.saves, visit.abilities);
    after, failed := channel.stored, failure.Some?;
  }

  function ApplyEffect(visits: int -> Visit): (r: (int, Row) -> Row) {
    (id, row) => AppliedRow(row, visits(id))
  }

  function ApplyTally(visits: int -> Visit): (r: (ApplyTotals, int, Row) -> ApplyTotals) {
    (sum, id, row) => AppliedTotals(sum, id, row, visits(id))
  }

  /** Applying everything staged leaves nothing staged. */
  lemma ApplyAllClears(row: Row, now: int)
    requires Apart(row.settings)
    ensures NothingStaged(ApplyAllStaged(row, now))
  {
    var s := row.settings;
    NormalizeFixed(s.stagedAdds);
    NormalizeFixed(s.stagedRemoves);
    ApplyAllChooses(row);
    assert s.stagedAdds + [] == s.stagedAdds;
    FilterNone(s.stagedAdds, x => x !in s.stagedAdds);
    FilterNone(s.stagedRemoves, x => x !in s.stagedRemoves);
  }

  /** After a complete bulk apply whose saves succeed, no watched enabled channel has anything staged. */
  lemma BulkApplyClears(table: Table<Row>, visits: int -> Visit, id: int)
    requires id in table && table[id].enabled && table[id].row.settings.checkEnabled && Apart(table[id].row.settings)
    requires visits(id).saves
    ensures NothingStaged(Processed(table, ScanOrder(table), ApplyEffect(visits))[id].row)
  {
    var row := table[id].row;
    InScanOrder(table, id);
    if HasStaged(row) {
      ApplyAllClears(row, visits(id).at);
    } else {
      NormalizeFixed(row.settings.stagedAdds);
      NormalizeFixed(row.settings.stagedRemoves);
    }
  }

  lemma InScanOrder(table: Table<Row>, id: int)
    requires id in table && table[id].enabled
    ensures id in ScanOrder(table)
  {
    SortedSets.AscendingLists(EnabledIds(table));
    assert id in EnabledIds(table);
  }

  /** Watched, and something is staged. */
  ghost predicate Due(row: Row) {
    row.settings.checkEnabled && (row.settings.stagedAdds != [] || row.settings.stagedRemoves != [])
  }

  ghost predicate AllApart(table: Table<Row>) {
    forall id <- table :: Apart(table[id].row.settings)
  }

  lemma AllStagedChosen(row: Row)
    requires Apart(row.settings)
    ensures HasStaged(row) <==> Due(row)
    ensures ChosenAdds(row.settings, AllStaged(row)) == row.settings.stagedAdds
    ensures ChosenRemoves(row.settings, AllStaged(row)) == row.settings.stagedRemoves
  {
    NormalizeFixed(row.settings.stagedAdds);
    NormalizeFixed(row.settings.stagedRemoves);
    ApplyAllChooses(row);
  }

  lemma CountedIs(sum: ApplyTotals, id: int, failed: bool, added: seq<string>, removed: seq<string>)
    ensures Counted(sum, id, failed, added, removed) ==
            if failed then ApplyTotals(sum.processed, sum.failed + [id], sum.added, sum.removed)
            else ApplyTotals(sum.processed + [id], sum.failed, sum.added + |added|, sum.removed + |removed|)
  {
  }

  lemma AppliedTotalsAre(sum: ApplyTotals, id: int, row: Row, visit: Visit)
    requires Apart(row.settings)
    ensures AppliedTotals(sum, id, row, visit) ==
            if !Due(row) then sum
            else if ApplyFails(row, visit) then ApplyTotals(sum.processed, sum.failed + [id], sum.added, sum.removed)
            else ApplyTotals(sum.processed + [id], sum.failed, sum.added + |row.settings.stagedAdds|, sum.removed + |row.settings.stagedRemoves|)
  {
    AllStagedChosen(row);
    CountedIs(sum, id, ApplyFails(row, visit), row.settings.stagedAdds, row.settings.stagedRemoves);
  }

  /** What the bulk apply reports: the channels it processed and those that failed, in order, and all names staged on the former. */
  lemma {:induction false} TotalsAre(table: Table<Row>, ids: seq<int>, visits: int -> Visit, applied: int -> bool, refused: int -> bool,
                                     adds: int -> int, removes: int -> int)
    requires Listed(table, ids) && AllApart(table)
    requires forall id <- ids :: var row := table[id].row;
               && refused(id) == (Due(row) && ApplyFails(row, visits(id))) && applied(id) == (Due(row) && !ApplyFails(row, visits(id)))
               && adds(id) == |row.settings.stagedAdds| && removes(id) == |row.settings.stagedRemoves|
    ensures var total := Tallied(table, ids, ApplyTotals([], [], 0, 0), ApplyTally(visits));
            && total.processed == Filter(ids, applied) && total.failed == Filter(ids, refused)
            && total.added == SumOver(total.processed, adds) && total.removed == SumOver(total.processed, removes)
  {
    if ids != [] {
      var front, last := ids[..|ids| - 1], ids[|ids| - 1];
      assert ids == front + [last] && last in ids && forall id <- front :: id in ids;
      TotalsAre(table, front, visits, applied, refused, adds, removes);
      AppliedTotalsAre(Tallied(table, front, ApplyTotals([], [], 0, 0), ApplyTally(visits)), last, table[last].row, visits(last));
      FilterSnoc(front, last, applied);
      FilterSnoc(front, last, refused);
      SumOverSnoc(Filter(front, applied), last, adds);
      SumOverSnoc(Filter(front, applied), last, removes);
    }
  }

  lemma FilterSnoc(front: seq<int>, last: int, p: int -> bool)
    ensures Filter(front + [last], p) == if p(last) then Filter(front, p) + [last] else Filter(front, p)
  {
    FilterConcat(front, [last], p);
    assert [last][1..] == [];
    assert Filter([last], p) == if p(last) then [last] else [];
  }

  lemma SumOverSnoc(front: seq<int>, last: int, f: int -> int)
    ensures SumOver(front + [last], f) == SumOver(front, f) + f(last)
  {
    assert (front + [last])[..|front|] == front;
  }

  // ---- The two entry points ----

  const BatchSize := 100

  /** runChannelUpstreamModelUpdateTaskOnce */
  method RunTaskOnce(db: Database<Row>, task: Task, visits: int -> Visit, cancelAfter: Option<int>, queryFails: int -> bool, matches: Matcher)
    returns (visited: seq<int>, summary: Summary)
    requires PositiveIds(db.table)
    modifies db
    ensures visited <= ScanOrder(old(db.table)) && Listed(old(db.table), visited)
    ensures cancelAfter.None? && (forall q :: !queryFails(q)) ==> visited == ScanOrder(old(db.table))
    ensures db.table == Processed(old(db.table), visited, CheckEffect(task, visits, matches))
    ensures summary == Tallied(old(db.table), visited, NoWork, CheckTally(task, visits, matches))
    ensures summary.changed + summary.failed <= summary.checked <= |visited|
  {
    visited, summary := db.Scan(BatchSize, CheckEffect(task, visits, matches), NoWork, CheckTally(task, visits, matches), cancelAfter, queryFails);
    SummaryAddsUp(old(db.table), visited, task, visits, matches);
  }

  /**
   * ApplyAllChannelUpstreamModelUpdates: a failed query ends it with what was applied
   * so far (its totals are then not reported).
   */
  method ApplyAll(db: Database<Row>, visits: int -> Visit, queryFails: int -> bool) returns (visited: seq<int>, total: ApplyTotals)
    requires PositiveIds(db.table)
    modifies db
    ensures visited <= ScanOrder(old(db.table)) && Listed(old(db.table), visited)
    ensures (forall q :: !queryFails(q)) ==> visited == ScanOrder(old(db.table))
    ensures db.table == Processed(old(db.table), visited, ApplyEffect(visits))
    ensures total == Tallied(old(db.table), visited, ApplyTotals([], [], 0, 0), ApplyTally(visits))
  {
    visited, total := db.Scan(BatchSize, ApplyEffect(visits), ApplyTotals([], [], 0, 0), ApplyTally(visits), None, queryFails);
  }
}

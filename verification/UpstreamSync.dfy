/** Detection and application of upstream model changes for one channel. */
module UpstreamSync {
  import opened Lists
  import opened Text
  import opened ModelNames

  /** The upstream-update part of a channel's settings column. */
  datatype Settings = Settings(
    checkEnabled: bool,
    autoSync: bool,
    lastCheck: int,
    stagedAdds: seq<string>,
    stagedRemoves: seq<string>,
    ignored: seq<string>)

  /** The columns of a channel row that reconciliation reads or writes. */
  datatype Row = Row(models: string, mapping: map<string, string>, settings: Settings)

  /** What an administrator ticked in the review dialog. */
  datatype Selection = Selection(adds: seq<string>, ignores: seq<string>, removes: seq<string>)

  /** regexp.MatchString on (pattern, name); false stands for no match or a bad pattern. */
  type Matcher = (string, string) -> bool

  const RegexPrefix := "regex:"

  predicate RuleHits(rule: string, name: string, matches: Matcher) {
    if RegexPrefix <= rule then matches(Trim(rule[|RegexPrefix|..]), name) else rule == name
  }

  predicate IgnoredBy(rules: seq<string>, name: string, matches: Matcher) {
    exists rule <- rules :: RuleHits(rule, name, matches)
  }

  /** An upstream name worth offering: not served, not a redirect target, not ignored. */
  predicate Stageable(name: string, local: seq<string>, rules: seq<string>, mapping: map<string, string>, matches: Matcher) {
    name !in local && name !in mapping.Values && !IgnoredBy(rules, name, matches)
  }

  function PendingAdds(local: seq<string>, upstream: seq<string>, ignored: seq<string>,
                       mapping: map<string, string>, matches: Matcher): (r: seq<string>)
  {
    var served, rules := Normalize(local), Normalize(ignored);
    Normalize(Filter(Normalize(upstream), name => Stageable(name, served, rules, mapping, matches)))
  }

  /** Served models gone upstream; redirect sources are virtual aliases and stay. */
  function PendingRemoves(local: seq<string>, upstream: seq<string>, mapping: map<string, string>): (r: seq<string>) {
    var offered := Normalize(upstream);
    Normalize(Filter(Normalize(local), name => name !in mapping.Keys && name !in offered))
  }

  /** Both staged lists are ordered sets with exactly the intended members. */
  lemma CollectMembers(local: seq<string>, upstream: seq<string>, ignored: seq<string>,
                       mapping: map<string, string>, matches: Matcher)
    ensures var adds := PendingAdds(local, upstream, ignored, mapping, matches);
            && Normal(adds)
            && forall name :: name in adds <==>
                 name in Normalize(upstream) && Stageable(name, Normalize(local), Normalize(ignored), mapping, matches)
    ensures var removes := PendingRemoves(local, upstream, mapping);
            && Normal(removes)
            && forall name :: name in removes <==>
                 name in Normalize(local) && name !in mapping.Keys && name !in Normalize(upstream)
  {
    var served, rules, offered := Normalize(local), Normalize(ignored), Normalize(upstream);
    var wanted := name => Stageable(name, served, rules, mapping, matches);
    var gone := name => name !in mapping.Keys && name !in offered;
    NormalizeIsNormal(local);
    NormalizeIsNormal(upstream);
    FilterMembers(offered, wanted);
    FilterDistinct(offered, wanted);
    NormalizeFixed(Filter(offered, wanted));
    FilterMembers(served, gone);
    FilterDistinct(served, gone);
    NormalizeFixed(Filter(served, gone));
  }

  /** The names staged for addition, with the rules written out: a pattern after "regex:" hides what it matches, any other rule its own name. */
  lemma StagedIff(local: seq<string>, upstream: seq<string>, ignored: seq<string>, mapping: map<string, string>, matches: Matcher, name: string)
    ensures name in PendingAdds(local, upstream, ignored, mapping, matches) <==>
            && name in Normalize(upstream) && name !in Normalize(local) && name !in mapping.Values
            && forall rule <- Normalize(ignored) :: if "regex:" <= rule then !matches(Trim(rule[6..]), name) else rule != name
  {
    CollectMembers(local, upstream, ignored, mapping, matches);
  }

  // ---- One detection ----

  predicate TooSoon(s: Settings, force: bool, now: int, minInterval: int) {
    !force && s.lastCheck > 0 && now - s.lastCheck < minInterval
  }

  /** The stored row after a detection whose writes succeed; None is a failed fetch. */
  function DetectRow(row: Row, fetched: Option<seq<string>>, force: bool, allowAuto: bool,
                     now: int, minInterval: int, matches: Matcher): (r: Row)
  {
    var s := row.settings;
    if TooSoon(s, force, now, minInterval) then row
    else if fetched.None? then row.(settings := s.(lastCheck := now))
    else
      var local := GetModels(row.models);
      var adds := PendingAdds(local, fetched.value, s.ignored, row.mapping, matches);
      var removes := PendingRemoves(local, fetched.value, row.mapping);
      if allowAuto && s.autoSync && adds != [] then
        var origin := Normalize(local);
        var merged := Merge(origin, adds);
        Row(if |merged| > |origin| then Join(merged, ',') else row.models, row.mapping,
            s.(lastCheck := now, stagedAdds := [], stagedRemoves := removes))
      else
        row.(settings := s.(lastCheck := now, stagedAdds := adds, stagedRemoves := removes))
  }

  /** Adopted names are new, so merging lengthens the list by exactly their number. */
  lemma MergeGrows(models: string, fetched: seq<string>, ignored: seq<string>, mapping: map<string, string>, matches: Matcher)
    ensures var origin, adds := Parsed(models), PendingAdds(GetModels(models), fetched, ignored, mapping, matches);
            Merge(origin, adds) == origin + adds
  {
    var origin, adds := Parsed(models), PendingAdds(GetModels(models), fetched, ignored, mapping, matches);
    ParsedIsNormal(models);
    CollectMembers(GetModels(models), fetched, ignored, mapping, matches);
    NormalizeFixed(origin);
    NormalizeFixed(adds);
    NormalizeConcat(origin, adds);
    WithoutMembers(adds, origin);
  }

  /** A detection that reaches the upstream list, with the length test of the merge resolved. */
  lemma DetectFound(row: Row, found: seq<string>, force: bool, allowAuto: bool, now: int, minInterval: int, matches: Matcher)
    requires force || row.settings.lastCheck <= 0 || now >= row.settings.lastCheck + minInterval
    ensures var local := GetModels(row.models);
            var adds := PendingAdds(local, found, row.settings.ignored, row.mapping, matches);
            var removes := PendingRemoves(local, found, row.mapping);
            var adopt := allowAuto && row.settings.autoSync && adds != [];
            DetectRow(row, Some(found), force, allowAuto, now, minInterval, matches) ==
            Row(if adopt then Join(Merge(Parsed(row.models), adds), ',') else row.models, row.mapping,
                row.settings.(lastCheck := now, stagedAdds := if adopt then [] else adds, stagedRemoves := removes))
  {
    MergeGrows(row.models, found, row.settings.ignored, row.mapping, matches);
  }

  /** A detection that is not due leaves the row, and one whose fetch fails only notes the time: the staged lists stay. */
  lemma DetectNothing(row: Row, fetched: Option<seq<string>>, force: bool, allowAuto: bool, now: int, minInterval: int, matches: Matcher)
    ensures var next, s := DetectRow(row, fetched, force, allowAuto, now, minInterval, matches), row.settings;
            if !force && s.lastCheck > 0 && now < s.lastCheck + minInterval then next == row
            else fetched.None? ==> next == Row(row.models, row.mapping,
                                               Settings(s.checkEnabled, s.autoSync, now, s.stagedAdds, s.stagedRemoves, s.ignored))
  {
  }

  // ---- One application ----

  /** applySelectedModelChanges: add wins when a name is selected both ways. */
  function ApplySelected(origin: seq<string>, adds: seq<string>, removes: seq<string>): (r: seq<string>) {
    var add := Normalize(adds);
    var remove := Subtract(Normalize(removes), add);
    Subtract(Merge(origin, add), remove)
  }

  function ChosenAdds(s: Settings, sel: Selection): (r: seq<string>) {
    Intersect(sel.adds, Normalize(s.stagedAdds))
  }

  function ChosenIgnores(s: Settings, sel: Selection): (r: seq<string>) {
    Intersect(sel.ignores, Normalize(s.stagedAdds))
  }

  function ChosenRemoves(s: Settings, sel: Selection): (r: seq<string>) {
    Subtract(Intersect(sel.removes, Normalize(s.stagedRemoves)), ChosenAdds(s, sel))
  }

  /** The ignore rules after an application. */
  function NextIgnored(s: Settings, sel: Selection): (r: seq<string>) {
    var merged := Merge(s.ignored, ChosenIgnores(s, sel));
    if |ChosenAdds(s, sel)| > 0 then Subtract(merged, ChosenAdds(s, sel)) else merged
  }

  /** Whether an application rewrites the models column. */
  predicate ChangesModels(row: Row, sel: Selection) {
    Parsed(row.models) != ApplySelected(Parsed(row.models), ChosenAdds(row.settings, sel), ChosenRemoves(row.settings, sel))
  }

  /** The stored row after an application whose writes succeed. */
  function ApplyRow(row: Row, sel: Selection, now: int): (r: Row) {
    var s := row.settings;
    var adds, ignores, removes := ChosenAdds(s, sel), ChosenIgnores(s, sel), ChosenRemoves(s, sel);
    var origin := Normalize(GetModels(row.models));
    var next := ApplySelected(origin, adds, removes);
    Row(if origin != next then Join(next, ',') else row.models, row.mapping,
        s.(ignored := NextIgnored(s, sel),
           stagedAdds := Subtract(Normalize(s.stagedAdds), adds + ignores),
           stagedRemoves := Subtract(Normalize(s.stagedRemoves), removes),
           lastCheck := now))
  }

  /** The old list in its old order minus the removals that are not also added, then the new names. */
  lemma ApplySelectedShape(origin: seq<string>, adds: seq<string>, removes: seq<string>)
    requires Normal(origin) && Normal(adds) && Normal(removes)
    ensures ApplySelected(origin, adds, removes) == Without(origin, Without(removes, adds)) + Without(adds, origin)
    ensures Normal(ApplySelected(origin, adds, removes))
  {
    var gone := Without(removes, adds);
    NormalizeFixed(origin);
    NormalizeFixed(adds);
    NormalizeFixed(removes);
    WithoutMembers(removes, adds);
    NormalizeFixed(gone);
    WithoutMembers(adds, origin);
    NormalizeConcat(origin, adds);
    NormalizeIsNormal(origin + adds);
    NormalizeFixed(Merge(origin, adds));
    WithoutMembers(Merge(origin, adds), gone);
    FilterConcat(origin, Without(adds, origin), x => x !in gone);
    WithoutMembers(Without(adds, origin), gone);
  }

  /** The same when no name is selected both ways. */
  lemma ApplyDisjointShape(origin: seq<string>, adds: seq<string>, removes: seq<string>)
    requires Normal(origin) && Normal(adds) && Normal(removes) && Disjoint(removes, adds)
    ensures ApplySelected(origin, adds, removes) ==
            Without(origin, removes) + Without(adds, origin + removes)
    ensures Disjoint(adds, origin) ==> ApplySelected(origin, adds, removes) == Without(origin, removes) + adds
    ensures Normal(ApplySelected(origin, adds, removes))
  {
    ApplySelectedShape(origin, adds, removes);
    WithoutMembers(removes, adds);
    WithoutTwice(adds, origin, removes);
    WithoutMembers(Without(adds, origin), removes);
    WithoutMembers(adds, origin);
  }

  lemma WithoutTwice(xs: seq<string>, ys: seq<string>, zs: seq<string>)
    ensures Without(Without(xs, ys), zs) == Without(xs, ys + zs)
  {
    FilterTwice(xs, x => x !in ys, x => x !in zs, x => x !in ys + zs);
  }

  /** The chosen lists are ordered sets: the ticked names that were really staged. */
  lemma ChosenMembers(s: Settings, sel: Selection)
    ensures var adds := ChosenAdds(s, sel);
            Normal(adds) && forall x :: x in adds <==> x in Normalize(sel.adds) && x in Normalize(s.stagedAdds)
    ensures var ignores := ChosenIgnores(s, sel);
            Normal(ignores) && forall x :: x in ignores <==> x in Normalize(sel.ignores) && x in Normalize(s.stagedAdds)
    ensures var removes := ChosenRemoves(s, sel);
            Normal(removes) && Disjoint(removes, ChosenAdds(s, sel)) &&
            forall x :: x in removes <==>
              x in Normalize(sel.removes) && x in Normalize(s.stagedRemoves) && x !in ChosenAdds(s, sel)
  {
    NormalizeIsNormal(s.stagedAdds);
    NormalizeIsNormal(s.stagedRemoves);
    NormalizeFixed(Normalize(s.stagedAdds));
    NormalizeFixed(Normalize(s.stagedRemoves));
    NormalizeIsNormal(sel.adds);
    NormalizeIsNormal(sel.ignores);
    NormalizeIsNormal(sel.removes);
    WithinMembers(Normalize(sel.adds), Normalize(s.stagedAdds));
    WithinMembers(Normalize(sel.ignores), Normalize(s.stagedAdds));
    WithinMembers(Normalize(sel.removes), Normalize(s.stagedRemoves));
    var ticked := Intersect(sel.removes, Normalize(s.stagedRemoves));
    NormalizeFixed(ticked);
    NormalizeFixed(ChosenAdds(s, sel));
    WithoutMembers(ticked, ChosenAdds(s, sel));
  }

  /** The served models after an application: kept names in order, then the comma pieces of the new ones. */
  lemma AppliedModels(row: Row, sel: Selection, now: int)
    ensures var origin, removes := Parsed(row.models), ChosenRemoves(row.settings, sel);
            var kept := Without(origin, removes);
            var added := Without(ChosenAdds(row.settings, sel), origin + removes);
            Parsed(ApplyRow(row, sel, now).models) == kept + Without(Normalize(Pieces(added)), kept)
  {
    var origin, adds, removes := Parsed(row.models), ChosenAdds(row.settings, sel), ChosenRemoves(row.settings, sel);
    var kept, added := Without(origin, removes), Without(adds, origin + removes);
    ParsedIsNormal(row.models);
    ChosenMembers(row.settings, sel);
    ApplyDisjointShape(origin, adds, removes);
    WithoutMembers(origin, removes);
    WithoutMembers(adds, origin + removes);
    if kept + added == origin {
      assert forall x <- added :: x in kept + added;
      assert added == [];
      assert Normalize(Pieces(added)) == [];
    } else {
      ParsedJoin(kept + added);
      PiecesConcat(kept, added);
      PiecesAreCommaFree(kept);
      NormalizeConcat(kept, Pieces(added));
      NormalizeFixed(kept);
    }
  }

  /** x was ticked in the dialog and really staged. */
  ghost predicate Ticked(x: string, names: seq<string>, staged: seq<string>) {
    x in Normalize(names) && x in Normalize(staged)
  }

  lemma MergedMembers(base: seq<string>, more: seq<string>, merged: seq<string>, x: string)
    requires Normal(more) && merged == Merge(base, more)
    ensures Normal(merged) && (x in merged <==> x in Normalize(base) || x in more)
  {
    NormalizeConcat(base, more);
    NormalizeFixed(more);
    WithoutMembers(more, Normalize(base));
    NormalizeIsNormal(base + more);
  }

  lemma SubtractedMembers(base: seq<string>, removed: seq<string>, x: string)
    requires Normal(base) && Normal(removed)
    ensures x in Subtract(base, removed) <==> x in base && x !in removed
  {
    NormalizeFixed(base);
    NormalizeFixed(removed);
    WithoutMembers(base, removed);
  }

  lemma NextIgnoredMembers(s: Settings, sel: Selection, x: string)
    ensures x in NextIgnored(s, sel) <==>
            (x in Normalize(s.ignored) || Ticked(x, sel.ignores, s.stagedAdds)) && !Ticked(x, sel.adds, s.stagedAdds)
  {
    var adds, ignores := ChosenAdds(s, sel), ChosenIgnores(s, sel);
    var merged := Merge(s.ignored, ignores);
    ChosenMembers(s, sel);
    MergedMembers(s.ignored, ignores, merged, x);
    SubtractedMembers(merged, adds, x);
    assert NextIgnored(s, sel) == if adds != [] then Subtract(merged, adds) else merged;
  }

  lemma NextStagedMembers(s: Settings, sel: Selection, x: string)
    ensures x in Subtract(Normalize(s.stagedAdds), ChosenAdds(s, sel) + ChosenIgnores(s, sel)) <==>
            x in Normalize(s.stagedAdds) && x !in Normalize(sel.adds) && x !in Normalize(sel.ignores)
    ensures x in Subtract(Normalize(s.stagedRemoves), ChosenRemoves(s, sel)) <==>
            x in Normalize(s.stagedRemoves) && (x !in Normalize(sel.removes) || Ticked(x, sel.adds, s.stagedAdds))
  {
    var adds, ignores, removes := ChosenAdds(s, sel), ChosenIgnores(s, sel), ChosenRemoves(s, sel);
    ChosenMembers(s, sel);
    NormalizeIsNormal(s.stagedAdds);
    NormalizeIsNormal(s.stagedRemoves);
    NormalizeFixed(Normalize(s.stagedAdds));
    NormalizeFixed(Normalize(s.stagedRemoves));
    NormalizeConcat(adds, ignores);
    NormalizeFixed(adds);
    NormalizeFixed(ignores);
    NormalizeFixed(removes);
    WithoutMembers(ignores, adds);
    WithoutMembers(Normalize(s.stagedAdds), Normalize(adds + ignores));
    WithoutMembers(Normalize(s.stagedRemoves), removes);
  }

  /** The settings after an application, in terms of what was ticked: added names lose their rule, ignored ones gain one,
      and both leave the staged list; a removal leaves it unless the same name was added. */
  lemma ApplicationOutcome(row: Row, sel: Selection, now: int, x: string)
    ensures var s, next := row.settings, ApplyRow(row, sel, now);
            && next.mapping == row.mapping
            && next.settings == Settings(s.checkEnabled, s.autoSync, now, next.settings.stagedAdds, next.settings.stagedRemoves, next.settings.ignored)
            && (x in next.settings.ignored <==>
                (x in Normalize(s.ignored) || Ticked(x, sel.ignores, s.stagedAdds)) && !Ticked(x, sel.adds, s.stagedAdds))
            && (x in next.settings.stagedAdds <==> x in Normalize(s.stagedAdds) && x !in Normalize(sel.adds) && x !in Normalize(sel.ignores))
            && (x in next.settings.stagedRemoves <==>
                x in Normalize(s.stagedRemoves) && (x !in Normalize(sel.removes) || Ticked(x, sel.adds, s.stagedAdds)))
  {
    NextIgnoredMembers(row.settings, sel, x);
    NextStagedMembers(row.settings, sel, x);
  }

  // ---- What every step keeps ----

  ghost predicate RemovesStaged(row: Row) {
    Normal(row.settings.stagedRemoves) && Subset(row.settings.stagedRemoves, Parsed(row.models))
  }

  ghost predicate AddsStaged(row: Row) {
    Normal(row.settings.stagedAdds) && Disjoint(row.settings.stagedAdds, Parsed(row.models))
  }

  /** Staged adds are not served, staged removals are, and no name is staged both ways. */
  ghost predicate Consistent(row: Row) {
    AddsStaged(row) && RemovesStaged(row) && Disjoint(row.settings.stagedAdds, row.settings.stagedRemoves)
  }

  datatype Step =
    | Check(fetched: Option<seq<string>>, force: bool, allowAuto: bool, at: int, minInterval: int, saved: bool)
    | Apply(sel: Selection, at: int, saved: bool)

  function StepRow(row: Row, step: Step, matches: Matcher): (r: Row) {
    if !step.saved then row
    else match step
      case Check(fetched, force, allowAuto, at, minInterval, _) =>
        DetectRow(row, fetched, force, allowAuto, at, minInterval, matches)
      case Apply(sel, at, _) => ApplyRow(row, sel, at)
  }

  function RunRow(row: Row, steps: seq<Step>, matches: Matcher): (r: Row)
    decreases |steps|
  {
    if steps == [] then row else RunRow(StepRow(row, steps[0], matches), steps[1..], matches)
  }

  predicate CommaFreeFetch(step: Step) {
    step.Check? && step.fetched.Some? ==> CommaFree(step.fetched.value)
  }

  lemma DetectKeeps(row: Row, fetched: Option<seq<string>>, force: bool, allowAuto: bool,
                    now: int, minInterval: int, matches: Matcher)
    ensures var next := DetectRow(row, fetched, force, allowAuto, now, minInterval, matches);
            && (RemovesStaged(row) ==> RemovesStaged(next))
            && (AddsStaged(row) ==> AddsStaged(next))
            && (fetched.Some? && CommaFree(fetched.value) && CommaFree(row.settings.stagedAdds)
                ==> CommaFree(next.settings.stagedAdds))
            && (fetched.None? && CommaFree(row.settings.stagedAdds) ==> CommaFree(next.settings.stagedAdds))
  {
    if !TooSoon(row.settings, force, now, minInterval) && fetched.Some? {
      var local := GetModels(row.models);
      CollectMembers(local, fetched.value, row.settings.ignored, row.mapping, matches);
      var adds := PendingAdds(local, fetched.value, row.settings.ignored, row.mapping, matches);
      if CommaFree(fetched.value) {
        NormalizeCommaFree(fetched.value);
      }
      AutoSyncedModels(row.models, adds);
    }
  }

  /** Adopting names keeps every model already served. */
  lemma AutoSyncedModels(models: string, adds: seq<string>)
    ensures Subset(Parsed(models), Parsed(Join(Merge(Parsed(models), adds), ',')))
  {
    var origin := Parsed(models);
    ParsedIsNormal(models);
    NormalizeFixed(origin);
    NormalizeConcat(origin, adds);
    var extra := Without(Normalize(adds), origin);
    ParsedJoin(origin + extra);
    PiecesConcat(origin, extra);
    PiecesAreCommaFree(origin);
    NormalizeConcat(origin, Pieces(extra));
  }

  lemma ApplyKeepsRemoves(row: Row, sel: Selection, now: int)
    requires RemovesStaged(row)
    ensures RemovesStaged(ApplyRow(row, sel, now))
  {
    var s := row.settings;
    NormalizeFixed(s.stagedRemoves);
    ChosenMembers(s, sel);
    NormalizeFixed(ChosenRemoves(s, sel));
    WithoutMembers(s.stagedRemoves, ChosenRemoves(s, sel));
    WithoutMembers(Parsed(row.models), ChosenRemoves(s, sel));
    AppliedModels(row, sel, now);
  }

  /** The names still staged for addition after an application. */
  lemma RemainingAdds(row: Row, sel: Selection, now: int)
    requires Normal(row.settings.stagedAdds)
    ensures var rest := ApplyRow(row, sel, now).settings.stagedAdds;
            && Normal(rest)
            && forall x :: x in rest <==>
                 x in row.settings.stagedAdds && x !in ChosenAdds(row.settings, sel) && x !in ChosenIgnores(row.settings, sel)
  {
    var s := row.settings;
    var handled := ChosenAdds(s, sel) + ChosenIgnores(s, sel);
    NormalizeFixed(s.stagedAdds);
    ChosenMembers(s, sel);
    NormalizeConcat(ChosenAdds(s, sel), ChosenIgnores(s, sel));
    NormalizeFixed(ChosenAdds(s, sel));
    NormalizeFixed(ChosenIgnores(s, sel));
    WithoutMembers(ChosenIgnores(s, sel), ChosenAdds(s, sel));
    WithoutMembers(s.stagedAdds, Normalize(handled));
  }

  lemma DisjointFromServed(rest: seq<string>, kept: seq<string>, pieces: seq<string>)
    requires Disjoint(rest, kept)
    ensures Disjoint(rest, kept + Without(pieces, kept)) <==> Disjoint(pieces, rest)
  {
    WithoutMembers(pieces, kept);
  }

  lemma AppliedModelsConsistent(row: Row, sel: Selection, now: int)
    requires Consistent(row)
    ensures var kept := Without(Parsed(row.models), ChosenRemoves(row.settings, sel));
            Parsed(ApplyRow(row, sel, now).models) ==
            kept + Without(Normalize(Pieces(ChosenAdds(row.settings, sel))), kept)
  {
    var s := row.settings;
    var origin, adds, removes := Parsed(row.models), ChosenAdds(s, sel), ChosenRemoves(s, sel);
    NormalizeFixed(s.stagedAdds);
    NormalizeFixed(s.stagedRemoves);
    ChosenMembers(s, sel);
    AppliedModels(row, sel, now);
    WithoutMembers(adds, origin + removes);
    assert Disjoint(adds, origin + removes);
  }

  /** Every comma piece of a chosen name that is itself staged is ticked too, to add or to ignore. */
  ghost predicate TicksPieces(s: Settings, sel: Selection) {
    forall piece <- Normalize(Pieces(ChosenAdds(s, sel))) ::
      piece in s.stagedAdds ==> piece in Normalize(sel.adds) || piece in Normalize(sel.ignores)
  }

  lemma TicksPiecesIff(row: Row, sel: Selection, now: int)
    requires Normal(row.settings.stagedAdds)
    ensures TicksPieces(row.settings, sel) <==>
            Disjoint(Normalize(Pieces(ChosenAdds(row.settings, sel))), ApplyRow(row, sel, now).settings.stagedAdds)
  {
    NormalizeFixed(row.settings.stagedAdds);
    RemainingAdds(row, sel, now);
    ChosenMembers(row.settings, sel);
  }

  /** An application keeps the row consistent exactly when no staged piece of a chosen name is left unticked. */
  lemma ApplyConsistentIff(row: Row, sel: Selection, now: int)
    requires Consistent(row)
    ensures Consistent(ApplyRow(row, sel, now)) <==> TicksPieces(row.settings, sel)
  {
    var s, next := row.settings, ApplyRow(row, sel, now);
    var kept, pieces := Without(Parsed(row.models), ChosenRemoves(s, sel)), Normalize(Pieces(ChosenAdds(s, sel)));
    RemainingAdds(row, sel, now);
    TicksPiecesIff(row, sel, now);
    ApplyKeepsRemoves(row, sel, now);
    AppliedModelsConsistent(row, sel, now);
    WithoutMembers(Parsed(row.models), ChosenRemoves(s, sel));
    DisjointFromServed(next.settings.stagedAdds, kept, pieces);
    if AddsStaged(next) {
      StagedListsDisjoint(next);
    }
  }

  lemma ApplyKeepsConsistent(row: Row, sel: Selection, now: int)
    requires Consistent(row) && CommaFree(row.settings.stagedAdds)
    ensures var next := ApplyRow(row, sel, now); Consistent(next) && CommaFree(next.settings.stagedAdds)
  {
    NormalizeFixed(row.settings.stagedAdds);
    ChosenMembers(row.settings, sel);
    var adds := ChosenAdds(row.settings, sel);
    RemainingAdds(row, sel, now);
    PiecesAreCommaFree(adds);
    NormalizeFixed(adds);
    ApplyConsistentIff(row, sel, now);
  }

  lemma StepKeepsRemoves(row: Row, step: Step, matches: Matcher)
    requires RemovesStaged(row)
    ensures RemovesStaged(StepRow(row, step, matches))
  {
    match step {
      case Check(fetched, force, allowAuto, at, minInterval, _) =>
        DetectKeeps(row, fetched, force, allowAuto, at, minInterval, matches);
      case Apply(sel, at, _) =>
        ApplyKeepsRemoves(row, sel, at);
    }
  }

  lemma StepKeepsConsistent(row: Row, step: Step, matches: Matcher)
    requires Consistent(row) && CommaFree(row.settings.stagedAdds) && CommaFreeFetch(step)
    ensures var next := StepRow(row, step, matches); Consistent(next) && CommaFree(next.settings.stagedAdds)
  {
    match step {
      case Check(fetched, force, allowAuto, at, minInterval, _) =>
        DetectKeeps(row, fetched, force, allowAuto, at, minInterval, matches);
        StagedListsDisjoint(StepRow(row, step, matches));
      case Apply(sel, at, _) =>
        ApplyKeepsConsistent(row, sel, at);
    }
  }

  /** Over every run, with any upstream names at all, staged removals stay served models. */
  lemma {:induction false} RunKeepsRemoves(row: Row, steps: seq<Step>, matches: Matcher)
    requires RemovesStaged(row)
    ensures RemovesStaged(RunRow(row, steps, matches))
    decreases |steps|
  {
    if steps != [] {
      StepKeepsRemoves(row, steps[0], matches);
      RunKeepsRemoves(StepRow(row, steps[0], matches), steps[1..], matches);
    }
  }

  /** Over every run that fetches no name with a comma, the row stays consistent. */
  lemma {:induction false} RunKeepsConsistent(row: Row, steps: seq<Step>, matches: Matcher)
    requires Consistent(row) && CommaFree(row.settings.stagedAdds)
    requires forall step <- steps :: CommaFreeFetch(step)
    ensures Consistent(RunRow(row, steps, matches))
    decreases |steps|
  {
    if steps != [] {
      StepKeepsConsistent(row, steps[0], matches);
      RunKeepsConsistent(StepRow(row, steps[0], matches), steps[1..], matches);
    }
  }

  lemma StagedListsDisjoint(row: Row)
    requires AddsStaged(row) && RemovesStaged(row)
    ensures Consistent(row)
  {
  }

  /** Over a run: every application whose save succeeds ticks the staged pieces of what it adds. */
  ghost predicate TicksThroughout(row: Row, steps: seq<Step>, matches: Matcher)
    decreases |steps|
  {
    steps == [] ||
    (&& (steps[0].Apply? && steps[0].saved ==> TicksPieces(row.settings, steps[0].sel))
     && TicksThroughout(StepRow(row, steps[0], matches), steps[1..], matches))
  }

  ghost predicate AlwaysConsistent(row: Row, steps: seq<Step>, matches: Matcher)
    decreases |steps|
  {
    Consistent(row) && (steps != [] ==> AlwaysConsistent(StepRow(row, steps[0], matches), steps[1..], matches))
  }

  lemma StepConsistentIff(row: Row, step: Step, matches: Matcher)
    requires Consistent(row)
    ensures Consistent(StepRow(row, step, matches)) <==> (step.Apply? && step.saved ==> TicksPieces(row.settings, step.sel))
  {
    match step
    case Check(fetched, force, allowAuto, at, minInterval, _) =>
      DetectKeeps(row, fetched, force, allowAuto, at, minInterval, matches);
      StagedListsDisjoint(StepRow(row, step, matches));
    case Apply(sel, at, saved) =>
      ApplyConsistentIff(row, sel, at);
  }

  /** With any upstream names at all: every state of a run is consistent exactly when its applications tick those pieces. */
  lemma {:induction false} RunConsistentIff(row: Row, steps: seq<Step>, matches: Matcher)
    requires Consistent(row)
    ensures AlwaysConsistent(row, steps, matches) <==> TicksThroughout(row, steps, matches)
    decreases |steps|
  {
    if steps != [] {
      var next := StepRow(row, steps[0], matches);
      StepConsistentIff(row, steps[0], matches);
      if Consistent(next) {
        RunConsistentIff(next, steps[1..], matches);
      }
    }
  }

  // ---- What every step keeps on any names ----

  /** Both staged lists are ordered sets and share no name. */
  ghost predicate Apart(s: Settings) {
    Normal(s.stagedAdds) && Normal(s.stagedRemoves) && Disjoint(s.stagedAdds, s.stagedRemoves)
  }

  lemma RemainingRemoves(row: Row, sel: Selection, now: int)
    requires Apart(row.settings)
    ensures var s := row.settings;
            && ChosenRemoves(s, sel) == Within(Normalize(sel.removes), s.stagedRemoves)
            && ApplyRow(row, sel, now).settings.stagedRemoves == Without(s.stagedRemoves, ChosenRemoves(s, sel))
  {
    var s := row.settings;
    NormalizeFixed(s.stagedAdds);
    NormalizeFixed(s.stagedRemoves);
    ChosenMembers(s, sel);
    NormalizeFixed(ChosenAdds(s, sel));
    NormalizeFixed(ChosenRemoves(s, sel));
    var ticked := Within(Normalize(sel.removes), s.stagedRemoves);
    NormalizeIsNormal(sel.removes);
    WithinMembers(Normalize(sel.removes), s.stagedRemoves);
    NormalizeFixed(ticked);
    WithoutMembers(ticked, ChosenAdds(s, sel));
  }

  lemma ApplyKeepsApart(row: Row, sel: Selection, now: int)
    requires Apart(row.settings)
    ensures Apart(ApplyRow(row, sel, now).settings)
  {
    var s := row.settings;
    RemainingAdds(row, sel, now);
    RemainingRemoves(row, sel, now);
    WithoutMembers(s.stagedRemoves, ChosenRemoves(s, sel));
  }

  lemma DetectKeepsApart(row: Row, fetched: Option<seq<string>>, force: bool, allowAuto: bool,
                         now: int, minInterval: int, matches: Matcher)
    requires Apart(row.settings)
    ensures Apart(DetectRow(row, fetched, force, allowAuto, now, minInterval, matches).settings)
  {
    if fetched.Some? {
      CollectMembers(GetModels(row.models), fetched.value, row.settings.ignored, row.mapping, matches);
    }
  }

  /** Over every run, on any names, the staged lists are ordered sets without a common name. */
  lemma {:induction false} RunKeepsApart(row: Row, steps: seq<Step>, matches: Matcher)
    requires Apart(row.settings)
    ensures Apart(RunRow(row, steps, matches).settings)
    decreases |steps|
  {
    if steps != [] {
      match steps[0] {
        case Check(fetched, force, allowAuto, at, minInterval, _) =>
          DetectKeepsApart(row, fetched, force, allowAuto, at, minInterval, matches);
        case Apply(sel, at, _) =>
          ApplyKeepsApart(row, sel, at);
      }
      RunKeepsApart(StepRow(row, steps[0], matches), steps[1..], matches);
    }
  }

  /** A chosen name with a comma can leave a name both served and staged. */
  lemma CommaBreaksConsistency(x: string, y: string, row: Row, sel: Selection)
    requires Clean(x) && Clean(y) && ',' !in x && ',' !in y
    requires Consistent(row) && row.settings.stagedAdds == [x + [','] + y, x]
    requires sel.adds == [x + [','] + y] && sel.ignores == []
    ensures !Consistent(ApplyRow(row, sel, 0))
  {
    var both, s := x + [','] + y, row.settings;
    assert both in sel.adds && x in s.stagedAdds && both in s.stagedAdds;
    assert Clean(both);
    NormalizeFixed(s.stagedAdds);
    NormalizeFixed(sel.adds);
    ChosenMembers(s, sel);
    WithinMembers(sel.adds, s.stagedAdds);
    assert ChosenAdds(s, sel) == sel.adds;
    assert x != both && Normalize(sel.ignores) == [];
    PieceOfPair(x, y);
    ApplyConsistentIff(row, sel, 0);
  }

  lemma PieceOfPair(x: string, y: string)
    requires Clean(x) && ',' !in x && ',' !in y
    ensures x in Normalize(Pieces([x + [','] + y]))
  {
    var both := [x + [','] + y];
    SplitConcat(x, ',', y);
    SplitWithout(x, ',');
    SplitWithout(y, ',');
    assert both[1..] == [];
    assert Pieces(both) == [x, y];
    NormalizeIsNormal(Pieces(both));
    NonBlankConcat([x], [y]);
    NonBlankFixed([x]);
    assert [x] + [y] == [x, y];
  }
}

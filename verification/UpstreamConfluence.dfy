/** Two successive partial applications against one application of both selections. */
module UpstreamConfluence {
  import opened Lists
  import opened Text
  import opened ModelNames
  import opened UpstreamSync
  import opened UpstreamConvergence

  function Combined(first: Selection, second: Selection): (r: Selection) {
    Selection(first.adds + second.adds, first.ignores + second.ignores, first.removes + second.removes)
  }

  /** Rows on which every staged name survives the column format. */
  ghost predicate Reviewable(row: Row) {
    Apart(row.settings) && CommaFree(row.settings.stagedAdds)
  }

  /** A staged name ticked "ignore" first and "add" later was already ticked "add" first. */
  ghost predicate NoLateAdd(row: Row, first: Selection, second: Selection) {
    forall x <- row.settings.stagedAdds ::
      x in Normalize(first.ignores) && x in Normalize(second.adds) ==> x in Normalize(first.adds)
  }

  /** The list an application serves: the old list in old order minus removals, then the additions not served yet. */
  lemma AppliedServed(row: Row, sel: Selection, now: int)
    requires Reviewable(row)
    ensures var s, origin := row.settings, Parsed(row.models);
            var next := Without(origin, ChosenRemoves(s, sel)) + Without(ChosenAdds(s, sel), origin);
            && ApplySelected(origin, ChosenAdds(s, sel), ChosenRemoves(s, sel)) == next
            && Parsed(ApplyRow(row, sel, now).models) == next
  {
    var s, origin := row.settings, Parsed(row.models);
    var adds, removes := ChosenAdds(s, sel), ChosenRemoves(s, sel);
    NormalizeFixed(s.stagedAdds);
    ChosenMembers(s, sel);
    ParsedIsNormal(row.models);
    ApplyDisjointShape(origin, adds, removes);
    FilterCongruent(adds, x => x !in origin + removes, x => x !in origin);
    AppliedModels(row, sel, now);
    FreshNames(origin, adds, removes);
  }

  lemma FreshNames(origin: seq<string>, adds: seq<string>, removes: seq<string>)
    requires Normal(origin) && Normal(adds) && CommaFree(adds)
    ensures var kept, added := Without(origin, removes), Without(adds, origin); Without(Normalize(Pieces(added)), kept) == added
  {
    var kept, added := Without(origin, removes), Without(adds, origin);
    WithoutMembers(origin, removes);
    WithoutMembers(adds, origin);
    PiecesAreCommaFree(added);
    NormalizeFixed(added);
    WithoutMembers(added, kept);
  }

  /** Choosing from the staged names in two rounds, the second from what is left. */
  lemma ChosenInRounds(a: seq<string>, b: seq<string>, staged: seq<string>, left: seq<string>)
    requires Normal(staged)
    requires forall x <- Normalize(b) :: x in left <==> x in staged && x !in Normalize(a)
    ensures Within(Normalize(a + b), staged) == Within(Normalize(a), staged) + Within(Normalize(b), left)
  {
    var later := Without(Normalize(b), Normalize(a));
    NormalizeConcat(a, b);
    FilterConcat(Normalize(a), later, x => x in staged);
    FilterTwice(Normalize(b), x => x !in Normalize(a), x => x in staged, x => x in left);
  }

  lemma AddsInRounds(row: Row, first: Selection, second: Selection, t1: int)
    requires Apart(row.settings) && NoLateAdd(row, first, second)
    ensures ChosenAdds(row.settings, Combined(first, second)) ==
            ChosenAdds(row.settings, first) + ChosenAdds(ApplyRow(row, first, t1).settings, second)
  {
    var s, next := row.settings, ApplyRow(row, first, t1).settings;
    NormalizeFixed(s.stagedAdds);
    RemainingAdds(row, first, t1);
    NormalizeFixed(next.stagedAdds);
    ChosenMembers(s, first);
    ChosenInRounds(first.adds, second.adds, s.stagedAdds, next.stagedAdds);
  }

  lemma RemovesInRounds(row: Row, first: Selection, second: Selection, t1: int)
    requires Apart(row.settings)
    ensures ChosenRemoves(row.settings, Combined(first, second)) ==
            ChosenRemoves(row.settings, first) + ChosenRemoves(ApplyRow(row, first, t1).settings, second)
  {
    var s, mid := row.settings, ApplyRow(row, first, t1);
    ApplyKeepsApart(row, first, t1);
    RemainingRemoves(row, first, t1);
    RemainingRemoves(row, Combined(first, second), t1);
    RemainingRemoves(mid, second, t1);
    WithinMembers(Normalize(first.removes), s.stagedRemoves);
    WithoutMembers(s.stagedRemoves, ChosenRemoves(s, first));
    ChosenInRounds(first.removes, second.removes, s.stagedRemoves, mid.settings.stagedRemoves);
  }

  /** What is still staged does not depend on the grouping, whatever was ticked. */
  lemma StagedInRounds(row: Row, first: Selection, second: Selection, t1: int, t2: int)
    requires Apart(row.settings)
    ensures var two, one := ApplyRow(ApplyRow(row, first, t1), second, t2), ApplyRow(row, Combined(first, second), t2);
            && two.settings.stagedAdds == one.settings.stagedAdds
            && two.settings.stagedRemoves == one.settings.stagedRemoves
  {
    var s, mid, both := row.settings, ApplyRow(row, first, t1), Combined(first, second);
    ApplyKeepsApart(row, first, t1);
    StagedAddsInRounds(row, first, second, t1, t2);
    RemainingRemoves(row, first, t1);
    RemainingRemoves(mid, second, t2);
    RemainingRemoves(row, both, t2);
    RemovesInRounds(row, first, second, t1);
    WithoutTwice(s.stagedRemoves, ChosenRemoves(s, first), ChosenRemoves(mid.settings, second));
  }

  /** The names handled by an application, added or ignored. */
  function Handled(s: Settings, sel: Selection): (r: seq<string>) {
    Normalize(ChosenAdds(s, sel) + ChosenIgnores(s, sel))
  }

  lemma HandledMembers(s: Settings, sel: Selection)
    requires Normal(s.stagedAdds)
    ensures forall x :: x in Handled(s, sel) <==>
              x in s.stagedAdds && (x in Normalize(sel.adds) || x in Normalize(sel.ignores))
  {
    var adds, ignores := ChosenAdds(s, sel), ChosenIgnores(s, sel);
    NormalizeFixed(s.stagedAdds);
    ChosenMembers(s, sel);
    NormalizeConcat(adds, ignores);
    NormalizeFixed(adds);
    NormalizeFixed(ignores);
    WithoutMembers(ignores, adds);
  }

  lemma StagedAddsInRounds(row: Row, first: Selection, second: Selection, t1: int, t2: int)
    requires Apart(row.settings)
    ensures ApplyRow(ApplyRow(row, first, t1), second, t2).settings.stagedAdds ==
            ApplyRow(row, Combined(first, second), t2).settings.stagedAdds
  {
    var s, mid, both := row.settings, ApplyRow(row, first, t1).settings, Combined(first, second);
    NormalizeFixed(s.stagedAdds);
    RemainingAdds(row, first, t1);
    NormalizeFixed(mid.stagedAdds);
    HandledMembers(s, first);
    HandledMembers(mid, second);
    HandledMembers(s, both);
    CombinedMembers(first.adds, second.adds);
    CombinedMembers(first.ignores, second.ignores);
    ChosenMembers(s, first);
    SubtractOfNormal(s.stagedAdds, ChosenAdds(s, first) + ChosenIgnores(s, first));
    SubtractOfNormal(mid.stagedAdds, ChosenAdds(mid, second) + ChosenIgnores(mid, second));
    SubtractOfNormal(s.stagedAdds, ChosenAdds(s, both) + ChosenIgnores(s, both));
    var h1, h2, h := Handled(s, first), Handled(mid, second), Handled(s, both);
    WithoutTwice(s.stagedAdds, h1, h2);
    FilterCongruent(s.stagedAdds, x => x !in h1 + h2, x => x !in h);
  }

  lemma SubtractOfNormal(base: seq<string>, removed: seq<string>)
    requires Normal(base)
    ensures Subtract(base, removed) == Without(base, Normalize(removed))
  {
    NormalizeFixed(base);
  }

  lemma CombinedMembers(a: seq<string>, b: seq<string>)
    ensures forall x :: x in Normalize(a + b) <==> x in Normalize(a) || x in Normalize(b)
  {
    NormalizeConcat(a, b);
    WithoutMembers(Normalize(b), Normalize(a));
  }

  // ---- The ignore list ----

  /** The ignore list after an application, written as filters. */
  lemma NextIgnoredShape(s: Settings, sel: Selection)
    requires Normal(s.stagedAdds)
    ensures var rules := Normalize(s.ignored);
            && NextIgnored(s, sel) == Without(rules + Without(ChosenIgnores(s, sel), rules), ChosenAdds(s, sel))
            && Normal(NextIgnored(s, sel))
  {
    var rules, adds, ignores := Normalize(s.ignored), ChosenAdds(s, sel), ChosenIgnores(s, sel);
    ChosenMembers(s, sel);
    NormalizeFixed(ignores);
    NormalizeFixed(adds);
    NormalizeConcat(s.ignored, ignores);
    NormalizeIsNormal(s.ignored + ignores);
    NormalizeFixed(Merge(s.ignored, ignores));
    WithoutMembers(Merge(s.ignored, ignores), adds);
  }

  lemma IgnoredInRounds(row: Row, first: Selection, second: Selection, t1: int)
    requires Apart(row.settings) && NoLateAdd(row, first, second)
    ensures NextIgnored(ApplyRow(row, first, t1).settings, second) == NextIgnored(row.settings, Combined(first, second))
  {
    var s, mid, both := row.settings, ApplyRow(row, first, t1).settings, Combined(first, second);
    var a1, a2, g1, g2 := ChosenAdds(s, first), ChosenAdds(mid, second), ChosenIgnores(s, first), ChosenIgnores(mid, second);
    var rules := Normalize(s.ignored);
    var late := Within(Without(Normalize(second.ignores), Normalize(first.ignores)), s.stagedAdds);
    RemainingAdds(row, first, t1);
    AddsInRounds(row, first, second, t1);
    NextIgnoredShape(s, first);
    NextIgnoredShape(mid, second);
    NextIgnoredShape(s, both);
    NormalizeFixed(NextIgnored(s, first));
    ChosenIgnoresInOneRound(s, first, second);
    LateIgnores(row, first, second, t1);
    RulesInRounds(rules, g1, g2, late, a1, a2);
  }

  /** Two rounds of "append, then delete" on an ignore list, as one. */
  lemma RulesInRounds(rules: seq<string>, g1: seq<string>, g2: seq<string>, late: seq<string>, a1: seq<string>, a2: seq<string>)
    requires var rules1 := Without(rules + Without(g1, rules), a1);
             Without(g2, rules1 + a2) == Without(late, rules + (a1 + a2))
    ensures var rules1 := Without(rules + Without(g1, rules), a1);
            Without(rules1 + Without(g2, rules1), a2) == Without(rules + Without(g1 + late, rules), a1 + a2)
  {
    var early := rules + Without(g1, rules);
    var rules1 := Without(early, a1);
    FilterConcat(rules1, Without(g2, rules1), x => x !in a2);
    WithoutTwice(early, a1, a2);
    WithoutTwice(g2, rules1, a2);
    FilterConcat(g1, late, x => x !in rules);
    assert rules + Without(g1 + late, rules) == early + Without(late, rules);
    FilterConcat(early, Without(late, rules), x => x !in a1 + a2);
    WithoutTwice(late, rules, a1 + a2);
  }

  lemma ChosenIgnoresInOneRound(s: Settings, first: Selection, second: Selection)
    requires Normal(s.stagedAdds)
    ensures ChosenIgnores(s, Combined(first, second)) ==
            ChosenIgnores(s, first) + Within(Without(Normalize(second.ignores), Normalize(first.ignores)), s.stagedAdds)
  {
    NormalizeFixed(s.stagedAdds);
    NormalizeConcat(first.ignores, second.ignores);
    FilterConcat(Normalize(first.ignores), Without(Normalize(second.ignores), Normalize(first.ignores)), x => x in s.stagedAdds);
  }

  /** The rules the second round contributes, as one filter of the second "ignore" list. */
  lemma LateIgnores(row: Row, first: Selection, second: Selection, t1: int)
    requires Apart(row.settings) && NoLateAdd(row, first, second)
    ensures var s, mid := row.settings, ApplyRow(row, first, t1).settings;
            var a1, a2, rules := ChosenAdds(s, first), ChosenAdds(mid, second), Normalize(s.ignored);
            var late := Within(Without(Normalize(second.ignores), Normalize(first.ignores)), s.stagedAdds);
            Without(ChosenIgnores(mid, second), NextIgnored(s, first) + a2) == Without(late, rules + (a1 + a2))
  {
    var s, mid := row.settings, ApplyRow(row, first, t1).settings;
    var a1, a2, g1, rules := ChosenAdds(s, first), ChosenAdds(mid, second), ChosenIgnores(s, first), Normalize(s.ignored);
    var rules1, ticked := NextIgnored(s, first), Normalize(second.ignores);
    NormalizeFixed(s.stagedAdds);
    RemainingAdds(row, first, t1);
    NormalizeFixed(mid.stagedAdds);
    ChosenMembers(s, first);
    NextIgnoredShape(s, first);
    WithoutMembers(g1, rules);
    WithoutMembers(rules + Without(g1, rules), a1);
    assert forall x :: x in rules1 <==> (x in rules || x in g1) && x !in a1;
    var keep := x => x in s.stagedAdds && x !in Normalize(first.ignores) && x !in rules + (a1 + a2);
    FilterTwice(ticked, x => x !in Normalize(first.ignores), x => x in s.stagedAdds,
                x => x !in Normalize(first.ignores) && x in s.stagedAdds);
    FilterTwice(ticked, x => x !in Normalize(first.ignores) && x in s.stagedAdds, x => x !in rules + (a1 + a2), keep);
    FilterTwice(ticked, x => x in mid.stagedAdds, x => x !in rules1 + a2, keep);
  }

  // ---- The whole row ----

  /** The served list after both rounds, and that an overall no-op is a no-op in the first round too. */
  lemma ServedInRounds(row: Row, first: Selection, second: Selection, t1: int)
    requires Reviewable(row) && NoLateAdd(row, first, second)
    ensures var s, mid, both, origin := row.settings, ApplyRow(row, first, t1), Combined(first, second), Parsed(row.models);
            var next := Without(origin, ChosenRemoves(s, both)) + Without(ChosenAdds(s, both), origin);
            && Without(Parsed(mid.models), ChosenRemoves(mid.settings, second)) + Without(ChosenAdds(mid.settings, second), Parsed(mid.models)) == next
            && (next == origin ==> Parsed(mid.models) == origin)
  {
    var s, mid, origin := row.settings, ApplyRow(row, first, t1), Parsed(row.models);
    var a1, r1, a2, r2 := ChosenAdds(s, first), ChosenRemoves(s, first), ChosenAdds(mid.settings, second), ChosenRemoves(mid.settings, second);
    AppliedServed(row, first, t1);
    AddsInRounds(row, first, second, t1);
    RemovesInRounds(row, first, second, t1);
    RoundsDisjoint(row, first, second, t1);
    NewInRounds(origin, r1, a1, a2);
    WithoutMembers(a1, origin);
    ListsInRounds(origin, r1, r2, Without(a1, origin), Without(a2, origin));
    FilterConcat(a1, a2, x => x !in origin);
    if Without(origin, r1 + r2) + Without(a1 + a2, origin) == origin {
      WithoutMembers(a1 + a2, origin);
      UnchangedInRounds(origin, r1, r2, Without(a1, origin), Without(a2, origin));
    }
  }

  /** What the second round adds is new to the first round's list exactly when it is new to the old one. */
  lemma NewInRounds(origin: seq<string>, r1: seq<string>, a1: seq<string>, a2: seq<string>)
    requires Disjoint(a2, a1) && Disjoint(a2, r1)
    ensures Without(a2, Without(origin, r1) + Without(a1, origin)) == Without(a2, origin)
  {
    var mid := Without(origin, r1) + Without(a1, origin);
    WithoutMembers(origin, r1);
    WithoutMembers(a1, origin);
    FilterCongruent(a2, x => x !in mid, x => x !in origin);
  }

  lemma RoundsDisjoint(row: Row, first: Selection, second: Selection, t1: int)
    requires Reviewable(row) && NoLateAdd(row, first, second)
    ensures var s, mid := row.settings, ApplyRow(row, first, t1).settings;
            && Disjoint(ChosenAdds(s, first), ChosenRemoves(mid, second))
            && Disjoint(ChosenAdds(mid, second), ChosenAdds(s, first)) && Disjoint(ChosenAdds(mid, second), ChosenRemoves(s, first))
  {
    AddsInRounds(row, first, second, t1);
    RemovesInRounds(row, first, second, t1);
    ChosenMembers(row.settings, Combined(first, second));
    var s, mid := row.settings, ApplyRow(row, first, t1).settings;
    PartsDisjoint(ChosenAdds(s, first), ChosenAdds(mid, second), ChosenRemoves(s, first), ChosenRemoves(mid, second));
  }

  lemma PartsDisjoint(a1: seq<string>, a2: seq<string>, r1: seq<string>, r2: seq<string>)
    requires Disjoint(r1 + r2, a1 + a2) && Distinct(a1 + a2)
    ensures Disjoint(a1, r2) && Disjoint(a2, r1) && Disjoint(a2, a1)
  {
    assert forall x <- r2 :: x in r1 + r2;
    assert forall x <- r1 :: x in r1 + r2;
    forall x <- a2 ensures x !in a1 {
      var i :| 0 <= i < |a2| && a2[i] == x;
      assert (a1 + a2)[|a1| + i] == x;
      assert forall k :: 0 <= k < |a1| ==> (a1 + a2)[k] == a1[k];
    }
  }

  lemma ListsInRounds(origin: seq<string>, r1: seq<string>, r2: seq<string>, a1: seq<string>, a2: seq<string>)
    requires Disjoint(a1, r2)
    ensures Without(Without(origin, r1) + a1, r2) + a2 == Without(origin, r1 + r2) + (a1 + a2)
  {
    FilterConcat(Without(origin, r1), a1, x => x !in r2);
    WithoutTwice(origin, r1, r2);
    WithoutMembers(a1, r2);
  }

  lemma ModelsInRounds(row: Row, first: Selection, second: Selection, t1: int, t2: int)
    requires Reviewable(row) && NoLateAdd(row, first, second)
    ensures ApplyRow(ApplyRow(row, first, t1), second, t2).models == ApplyRow(row, Combined(first, second), t2).models
  {
    var mid := ApplyRow(row, first, t1);
    ApplyKeepsApart(row, first, t1);
    RemainingAdds(row, first, t1);
    AppliedServed(row, first, t1);
    AppliedServed(mid, second, t2);
    AppliedServed(row, Combined(first, second), t2);
    ServedInRounds(row, first, second, t1);
  }

  /** If both rounds together change nothing, neither does the first. */
  lemma UnchangedInRounds(origin: seq<string>, r1: seq<string>, r2: seq<string>, a1: seq<string>, a2: seq<string>)
    requires Disjoint(a1 + a2, origin)
    requires Without(origin, r1 + r2) + (a1 + a2) == origin
    ensures Without(origin, r1) + a1 == origin
  {
    assert forall x <- a1 + a2 :: x in Without(origin, r1 + r2) + (a1 + a2);
    EmptyIff(a1 + a2, origin);
    WithoutMembers(origin, r1 + r2);
    WithoutMembers(origin, r1);
    assert Disjoint(origin, r1);
  }

  // ---- Rows with commas in staged names ----

  /** The staged names the second selection is the first to add. */
  function LateAdds(s: Settings, first: Selection, second: Selection): (r: seq<string>) {
    Filter(Normalize(second.adds), x => x in s.stagedAdds && x !in Normalize(first.adds) && x !in Normalize(first.ignores))
  }

  /** A staged removal the second selection is the first to make. */
  predicate RemovedLate(s: Settings, first: Selection, second: Selection, x: string) {
    x in Normalize(second.removes) && x in s.stagedRemoves && x !in Normalize(first.removes)
  }

  /** A comma piece of a first-round addition that the second round removes without adding it again. */
  predicate LosesPiece(s: Settings, first: Selection, second: Selection, x: string) {
    && x in Normalize(Pieces(ChosenAdds(s, first))) && RemovedLate(s, first, second, x)
    && x !in Normalize(Pieces(LateAdds(s, first, second)))
  }

  /** The second selection removes no comma piece of what the first one adds, except one that it adds again itself. */
  ghost predicate KeepsPieces(s: Settings, first: Selection, second: Selection) {
    forall x :: !LosesPiece(s, first, second, x)
  }

  lemma SecondAdds(row: Row, first: Selection, second: Selection, t1: int)
    requires Normal(row.settings.stagedAdds)
    ensures ChosenAdds(ApplyRow(row, first, t1).settings, second) == LateAdds(row.settings, first, second)
  {
    var s, mid := row.settings, ApplyRow(row, first, t1).settings;
    NormalizeFixed(s.stagedAdds);
    RemainingAdds(row, first, t1);
    NormalizeFixed(mid.stagedAdds);
    ChosenMembers(s, first);
    FilterCongruent(Normalize(second.adds), x => x in mid.stagedAdds,
                    x => x in s.stagedAdds && x !in Normalize(first.adds) && x !in Normalize(first.ignores));
  }

  lemma SecondRemoves(row: Row, first: Selection, second: Selection, t1: int, x: string)
    requires Apart(row.settings)
    ensures x in ChosenRemoves(ApplyRow(row, first, t1).settings, second) <==> RemovedLate(row.settings, first, second, x)
  {
    var s, mid := row.settings, ApplyRow(row, first, t1);
    ApplyKeepsApart(row, first, t1);
    RemainingRemoves(row, first, t1);
    RemainingRemoves(mid, second, t1);
    WithinMembers(Normalize(first.removes), s.stagedRemoves);
    WithoutMembers(s.stagedRemoves, ChosenRemoves(s, first));
    WithinMembers(Normalize(second.removes), mid.settings.stagedRemoves);
  }

  lemma PiecesOfBoth(a: seq<string>, b: seq<string>, x: string)
    ensures x in Normalize(Pieces(a + b)) <==> x in Normalize(Pieces(a)) || x in Normalize(Pieces(b))
  {
    PiecesConcat(a, b);
    CombinedMembers(Pieces(a), Pieces(b));
  }

  lemma PieceOfOne(name: string, x: string)
    requires Clean(name) && ',' !in name
    ensures x in Normalize(Pieces([name])) <==> x == name
  {
    PiecesAreCommaFree([name]);
    NormalizeFixed([name]);
  }

  /** Names already served add no piece but themselves. */
  lemma {:induction false} PiecesOfUnserved(names: seq<string>, served: seq<string>, x: string)
    requires CommaFree(served) && forall name <- names :: Clean(name)
    ensures x in Normalize(Pieces(names)) <==> x in Normalize(Pieces(Without(names, served))) || (x in names && x in served)
  {
    if names != [] {
      var head, rest := names[0], names[1..];
      assert names == [head] + rest;
      PiecesOfUnserved(rest, served, x);
      PiecesOfBoth([head], rest, x);
      PiecesOfBoth([head], Without(rest, served), x);
      if head in served {
        PieceOfOne(head, x);
      }
    }
  }

  /** Membership in the list one application serves. */
  lemma ServedMember(row: Row, sel: Selection, now: int, x: string)
    requires Apart(row.settings)
    ensures x in Parsed(ApplyRow(row, sel, now).models) <==>
            (x in Parsed(row.models) && x !in ChosenRemoves(row.settings, sel))
            || x in Normalize(Pieces(ChosenAdds(row.settings, sel)))
  {
    var s, served := row.settings, Parsed(row.models);
    var adds, removes := ChosenAdds(s, sel), ChosenRemoves(s, sel);
    var kept, added := Without(served, removes), Without(adds, served + removes);
    NormalizeFixed(s.stagedAdds);
    NormalizeFixed(s.stagedRemoves);
    ChosenMembers(s, sel);
    AppliedModels(row, sel, now);
    ParsedIsNormal(row.models);
    WithoutMembers(served, removes);
    NormalizeIsNormal(Pieces(added));
    WithoutMembers(Normalize(Pieces(added)), kept);
    FilterCongruent(adds, y => y !in served + removes, y => y !in served);
    PiecesOfUnserved(adds, served, x);
  }

  /** What two rounds serve and what one serves, name by name. */
  lemma ServedByRounds(row: Row, first: Selection, second: Selection, t1: int, t2: int, x: string)
    requires Apart(row.settings) && NoLateAdd(row, first, second)
    ensures var two, one := ApplyRow(ApplyRow(row, first, t1), second, t2), ApplyRow(row, Combined(first, second), t2);
            && (x in Parsed(one.models) && x !in Parsed(two.models) <==> LosesPiece(row.settings, first, second, x))
            && (x in Parsed(two.models) ==> x in Parsed(one.models))
  {
    var s, mid := row.settings, ApplyRow(row, first, t1);
    ApplyKeepsApart(row, first, t1);
    ServedMember(row, first, t1, x);
    ServedMember(mid, second, t2, x);
    ServedMember(row, Combined(first, second), t2, x);
    AddsInRounds(row, first, second, t1);
    RemovesInRounds(row, first, second, t1);
    SecondAdds(row, first, second, t1);
    SecondRemoves(row, first, second, t1, x);
    PiecesOfBoth(ChosenAdds(s, first), LateAdds(s, first, second), x);
  }

  /** The two rows serve the same names. */
  ghost predicate SameServed(a: Row, b: Row) {
    forall x :: x in Parsed(a.models) <==> x in Parsed(b.models)
  }

  lemma SameServedUnlessLost(row: Row, first: Selection, second: Selection, t1: int, t2: int, two: Row, one: Row)
    requires Apart(row.settings) && NoLateAdd(row, first, second) && KeepsPieces(row.settings, first, second)
    requires two == ApplyRow(ApplyRow(row, first, t1), second, t2) && one == ApplyRow(row, Combined(first, second), t2)
    ensures SameServed(two, one)
  {
    forall x ensures x in Parsed(two.models) <==> x in Parsed(one.models) {
      ServedByRounds(row, first, second, t1, t2, x);
    }
  }

  /** On every row: unless a name is added too late, both ways serve the same names exactly when pieces are kept. */
  lemma SameServedIff(row: Row, first: Selection, second: Selection, t1: int, t2: int)
    requires Apart(row.settings) && NoLateAdd(row, first, second)
    ensures SameServed(ApplyRow(ApplyRow(row, first, t1), second, t2), ApplyRow(row, Combined(first, second), t2)) <==>
            KeepsPieces(row.settings, first, second)
  {
    if x :| LosesPiece(row.settings, first, second, x) {
      ServedByRounds(row, first, second, t1, t2, x);
    } else {
      SameServedUnlessLost(row, first, second, t1, t2, ApplyRow(ApplyRow(row, first, t1), second, t2), ApplyRow(row, Combined(first, second), t2));
    }
  }

  /** A name ignored first and added later stays an ignore rule in two rounds and is none in one. */
  lemma LateAddStaysIgnored(row: Row, first: Selection, second: Selection, t1: int, name: string)
    requires Apart(row.settings)
    requires name in row.settings.stagedAdds && name in Normalize(first.ignores)
    requires name in Normalize(second.adds) && name !in Normalize(first.adds)
    ensures name in NextIgnored(ApplyRow(row, first, t1).settings, second)
    ensures name !in NextIgnored(row.settings, Combined(first, second))
  {
    var s, mid, both := row.settings, ApplyRow(row, first, t1).settings, Combined(first, second);
    NormalizeFixed(s.stagedAdds);
    RemainingAdds(row, first, t1);
    NormalizeFixed(mid.stagedAdds);
    ChosenMembers(s, first);
    ChosenMembers(s, both);
    ChosenMembers(mid, second);
    CombinedMembers(first.adds, second.adds);
    NextIgnoredMember(s, first, name);
    NextIgnoredMember(mid, second, name);
    NextIgnoredMember(s, both, name);
    NextIgnoredShape(s, first);
    NormalizeFixed(NextIgnored(s, first));
  }

  lemma NextIgnoredMember(s: Settings, sel: Selection, x: string)
    requires Normal(s.stagedAdds)
    ensures x in NextIgnored(s, sel) <==>
            (x in Normalize(s.ignored) || x in ChosenIgnores(s, sel)) && x !in ChosenAdds(s, sel)
  {
    var rules := Normalize(s.ignored);
    NextIgnoredShape(s, sel);
    ChosenMembers(s, sel);
    WithoutMembers(ChosenIgnores(s, sel), rules);
    FilterMembers(rules + Without(ChosenIgnores(s, sel), rules), y => y !in ChosenAdds(s, sel));
  }

  /** The same served names, ignore rules and staged names. */
  ghost predicate SameReview(a: Row, b: Row) {
    && SameServed(a, b)
    && a.settings.ignored == b.settings.ignored
    && a.settings.stagedAdds == b.settings.stagedAdds && a.settings.stagedRemoves == b.settings.stagedRemoves
  }

  /**
   * Confluence of the review, exactly and for every row a run can reach: two rounds
   * leave the same served names, rules and staged names as one unless a name is
   * ignored first and added only later, or the second round removes a comma
   * piece of a first-round addition without adding it again.
   */
  lemma ReviewConfluentIff(row: Row, first: Selection, second: Selection, t1: int, t2: int)
    requires Apart(row.settings)
    ensures SameReview(ApplyRow(ApplyRow(row, first, t1), second, t2), ApplyRow(row, Combined(first, second), t2)) <==>
            NoLateAdd(row, first, second) && KeepsPieces(row.settings, first, second)
  {
    if NoLateAdd(row, first, second) {
      SameServedIff(row, first, second, t1, t2);
      StagedInRounds(row, first, second, t1, t2);
      IgnoredInRounds(row, first, second, t1);
    } else {
      var name :| name in row.settings.stagedAdds && name in Normalize(first.ignores)
                  && name in Normalize(second.adds) && name !in Normalize(first.adds);
      LateAddStaysIgnored(row, first, second, t1, name);
    }
  }

  lemma TickedOne(names: seq<string>, staged: seq<string>, name: string)
    requires names == [name] && name in staged && Normal(staged)
    ensures Normalize(names) == names && Within(Normalize(names), staged) == names
  {
    assert Clean(name);
    NormalizeFixed(names);
    FilterAll(names, x => x in staged);
  }

  lemma NothingTicked(names: seq<string>, first: Selection, second: Selection, s: Settings)
    requires names == [] && second.adds == names
    ensures Normalize(names) == [] && LateAdds(s, first, second) == []
  {
  }

  /** A served name that is also a piece of a staged addition, and staged for removal: adding first and removing later loses it. */
  lemma RemovedPieceIsLost(row: Row, both: string, x: string, first: Selection, second: Selection, t1: int, t2: int)
    requires Apart(row.settings) && both in row.settings.stagedAdds && x in row.settings.stagedRemoves
    requires x in Normalize(Pieces([both]))
    requires first.adds == [both] && first.ignores == [] && first.removes == [] && second.adds == [] && second.removes == [x]
    ensures NoLateAdd(row, first, second)
    ensures x !in Parsed(ApplyRow(ApplyRow(row, first, t1), second, t2).models)
    ensures x in Parsed(ApplyRow(row, Combined(first, second), t2).models)
  {
    var s := row.settings;
    NothingTicked([], first, second, s);
    TickedOne(first.adds, s.stagedAdds, both);
    TickedOne(second.removes, s.stagedRemoves, x);
    NormalizeFixed(s.stagedAdds);
    ServedByRounds(row, first, second, t1, t2, x);
  }

  lemma StagedByDetection(row: Row, upstream: seq<string>, now: int, matches: Matcher, name: string)
    ensures var s := Detected(row, upstream, now, matches).settings;
            && (name in s.stagedAdds <==>
                name in Normalize(upstream) && Stageable(name, Parsed(row.models), Normalize(row.settings.ignored), row.mapping, matches))
            && (name in s.stagedRemoves <==>
                name in Parsed(row.models) && name !in row.mapping.Keys && name !in Normalize(upstream))
  {
    CollectMembers(GetModels(row.models), upstream, row.settings.ignored, row.mapping, matches);
  }

  lemma StagedBothWays(row: Row, upstream: seq<string>, x: string, both: string, now: int, matches: Matcher)
    requires Parsed(row.models) == [x] && Normalize(upstream) == [both] && x != both
    requires row.mapping == map[] && Normalize(row.settings.ignored) == []
    ensures var s := Detected(row, upstream, now, matches).settings; both in s.stagedAdds && x in s.stagedRemoves
  {
    StagedByDetection(row, upstream, now, matches, both);
    StagedByDetection(row, upstream, now, matches, x);
  }

  lemma PairIsClean(x: string, y: string, both: string)
    requires Clean(x) && Clean(y) && both == x + [','] + y
    ensures Clean(both) && both != x && Normalize([both]) == [both]
  {
    NormalizeFixed([both]);
  }

  /** Such a row comes from one detection: "x" is served and upstream offers "x,y" alone. */
  lemma DetectedPiece(x: string, y: string, row: Row, upstream: seq<string>, both: string, now: int, matches: Matcher)
    requires Clean(x) && Clean(y) && ',' !in x && ',' !in y && both == x + [','] + y
    requires row.models == x && row.mapping == map[] && Normalize(row.settings.ignored) == [] && upstream == [both]
    ensures var next := Detected(row, upstream, now, matches);
            Consistent(next) && both in next.settings.stagedAdds && x in next.settings.stagedRemoves
    ensures x in Normalize(Pieces(upstream))
  {
    PieceOfPair(x, y);
    DetectedIsConsistent(row, upstream, now, matches);
    ParsedOfOne(x);
    PairIsClean(x, y, both);
    StagedBothWays(row, upstream, x, both, now, matches);
  }

  /** So from such a channel a detection leads to a review in which the two ways of applying serve different names. */
  lemma DetectedPieceIsLost(x: string, y: string, row: Row, both: string, first: Selection, second: Selection, matches: Matcher)
    requires Clean(x) && Clean(y) && ',' !in x && ',' !in y && both == x + [','] + y
    requires row.models == x && row.mapping == map[] && Normalize(row.settings.ignored) == []
    requires first.adds == [both] && first.ignores == [] && first.removes == [] && second.adds == [] && second.removes == [x]
    ensures var next := Detected(row, [both], 1, matches);
            && Consistent(next) && NoLateAdd(next, first, second)
            && x !in Parsed(ApplyRow(ApplyRow(next, first, 2), second, 3).models)
            && x in Parsed(ApplyRow(next, Combined(first, second), 3).models)
  {
    DetectedPiece(x, y, row, [both], both, 1, matches);
    RemovedPieceIsLost(Detected(row, [both], 1, matches), both, x, first, second, 2, 3);
  }

  lemma ParsedOfOne(x: string)
    requires Clean(x) && ',' !in x
    ensures Parsed(x) == [x]
  {
    var first, last, list := x[0], x[|x| - 1], [x];
    assert first in x && last in x;
    assert TrimChar(x, ',') == x;
    SplitWithout(x, ',');
    assert GetModels(x) == list;
    NormalizeFixed(list);
  }

  /** A name ignored in the first round cannot be added in the second; in one round it is. */
  lemma LateAddIsLost(row: Row, first: Selection, second: Selection, t1: int, t2: int, name: string)
    requires Consistent(row) && CommaFree(row.settings.stagedAdds)
    requires name in row.settings.stagedAdds && name in Normalize(first.ignores)
    requires name in Normalize(second.adds) && name !in Normalize(first.adds)
    ensures name !in Parsed(ApplyRow(ApplyRow(row, first, t1), second, t2).models)
    ensures name in Parsed(ApplyRow(row, Combined(first, second), t2).models)
  {
    LateAddNotServed(row, first, second, t1, t2, name);
    CombinedMembers(first.adds, second.adds);
    AddedIsServed(row, Combined(first, second), t2, name);
  }

  lemma LateAddNotServed(row: Row, first: Selection, second: Selection, t1: int, t2: int, name: string)
    requires Consistent(row) && CommaFree(row.settings.stagedAdds)
    requires name in row.settings.stagedAdds && name in Normalize(first.ignores) && name !in Normalize(first.adds)
    ensures name !in Parsed(ApplyRow(ApplyRow(row, first, t1), second, t2).models)
  {
    var s, mid := row.settings, ApplyRow(row, first, t1);
    ApplyKeepsApart(row, first, t1);
    NormalizeFixed(s.stagedAdds);
    RemainingAdds(row, first, t1);
    NormalizeFixed(mid.settings.stagedAdds);
    ChosenMembers(s, first);
    ChosenMembers(mid.settings, second);
    PlainPieces(ChosenAdds(s, first));
    PlainPieces(ChosenAdds(mid.settings, second));
    ServedMember(row, first, t1, name);
    ServedMember(mid, second, t2, name);
  }

  lemma PlainPieces(names: seq<string>)
    requires Normal(names) && CommaFree(names)
    ensures Normalize(Pieces(names)) == names
  {
    PiecesAreCommaFree(names);
    NormalizeFixed(names);
  }

  lemma AddedIsServed(row: Row, sel: Selection, now: int, name: string)
    requires Apart(row.settings) && ',' !in name && name in row.settings.stagedAdds && name in Normalize(sel.adds)
    ensures name in Parsed(ApplyRow(row, sel, now).models)
  {
    NormalizeFixed(row.settings.stagedAdds);
    ChosenMembers(row.settings, sel);
    ServedMember(row, sel, now, name);
    PieceOfMember(ChosenAdds(row.settings, sel), name);
  }

  lemma PieceOfMember(names: seq<string>, name: string)
    requires name in names && Clean(name) && ',' !in name
    ensures name in Normalize(Pieces(names))
  {
    var i :| 0 <= i < |names| && names[i] == name;
    var before, one, after := names[..i], [name], names[i + 1..];
    assert names == before + (one + after);
    PiecesOfBoth(before, one + after, name);
    PiecesOfBoth(one, after, name);
    PieceOfOne(name, name);
  }

  /**
   * Confluence, exactly: applying two selections one after the other leaves the
   * same row as applying them together unless some staged name was ignored in
   * the first and added only in the second.
   */
  lemma ConfluentIff(row: Row, first: Selection, second: Selection, t1: int, t2: int)
    requires Reviewable(row)
    ensures ApplyRow(ApplyRow(row, first, t1), second, t2) == ApplyRow(row, Combined(first, second), t2)
            <==> NoLateAdd(row, first, second)
  {
    if NoLateAdd(row, first, second) {
      ModelsInRounds(row, first, second, t1, t2);
      StagedInRounds(row, first, second, t1, t2);
      IgnoredInRounds(row, first, second, t1);
    } else {
      var name :| name in row.settings.stagedAdds && name in Normalize(first.ignores)
                  && name in Normalize(second.adds) && name !in Normalize(first.adds);
      LateAddStaysIgnored(row, first, second, t1, name);
    }
  }
}

/** Detect, apply everything staged, detect again: exactly when nothing is left to do. */
module UpstreamConvergence {
  import opened Lists
  import opened Text
  import opened ModelNames
  import opened UpstreamSync

  /** A forced detection that only stages, with a successful fetch. */
  function Detected(row: Row, upstream: seq<string>, now: int, matches: Matcher): (r: Row) {
    DetectRow(row, Some(upstream), true, false, now, 0, matches)
  }

  /** The bulk apply: every staged change is selected, nothing is ignored. */
  function ApplyAllStaged(row: Row, now: int): (r: Row) {
    var s := row.settings;
    ApplyRow(row, Selection(Normalize(s.stagedAdds), [], Normalize(s.stagedRemoves)), now)
  }

  predicate NothingStaged(row: Row) {
    row.settings.stagedAdds == [] && row.settings.stagedRemoves == []
  }

  /** No unserved upstream name is ignored only through a rule spelled like an adopted model. */
  ghost predicate RulesSurvive(row: Row, upstream: seq<string>, adopted: seq<string>, matches: Matcher) {
    var rules := Normalize(row.settings.ignored);
    forall name <- Normalize(upstream) ::
      name !in Parsed(row.models) && name !in row.mapping.Values && IgnoredBy(rules, name, matches)
      ==> IgnoredBy(Without(rules, adopted), name, matches)
  }

  lemma ApplyAllChooses(row: Row)
    requires Apart(row.settings)
    ensures var s := row.settings; var sel := Selection(Normalize(s.stagedAdds), [], Normalize(s.stagedRemoves));
            && ChosenAdds(s, sel) == s.stagedAdds
            && ChosenIgnores(s, sel) == []
            && ChosenRemoves(s, sel) == s.stagedRemoves
            && Normalize(NextIgnored(s, sel)) == Without(Normalize(s.ignored), s.stagedAdds)
  {
    var s := row.settings;
    var sel := Selection(Normalize(s.stagedAdds), [], Normalize(s.stagedRemoves));
    NormalizeFixed(s.stagedAdds);
    NormalizeFixed(s.stagedRemoves);
    WithinMembers(s.stagedAdds, s.stagedAdds);
    WithinMembers(s.stagedRemoves, s.stagedRemoves);
    WithoutMembers(s.stagedRemoves, s.stagedAdds);
    assert s.ignored + [] == s.ignored;
    NormalizeIsNormal(s.ignored);
    NormalizeFixed(Normalize(s.ignored));
    WithoutMembers(Normalize(s.ignored), s.stagedAdds);
    NormalizeFixed(Without(Normalize(s.ignored), s.stagedAdds));
  }

  /** A fresh detection yields a consistent row whatever was staged before. */
  lemma DetectedIsConsistent(row: Row, upstream: seq<string>, now: int, matches: Matcher)
    ensures Consistent(Detected(row, upstream, now, matches))
  {
    CollectMembers(GetModels(row.models), upstream, row.settings.ignored, row.mapping, matches);
  }

  /** The served list and rules after the bulk apply. */
  lemma AppliedAll(row: Row, now: int)
    requires Consistent(row)
    ensures var s, applied := row.settings, ApplyAllStaged(row, now);
            var kept := Without(Parsed(row.models), s.stagedRemoves);
            && applied.mapping == row.mapping
            && Parsed(applied.models) == kept + Without(Normalize(Pieces(s.stagedAdds)), kept)
            && Normalize(applied.settings.ignored) == Without(Normalize(s.ignored), s.stagedAdds)
  {
    var s := row.settings;
    ApplyAllChooses(row);
    AppliedModelsConsistent(row, Selection(Normalize(s.stagedAdds), [], Normalize(s.stagedRemoves)), now);
  }

  /** A subset of the rules ignores no more. */
  lemma FewerRules(rules: seq<string>, gone: seq<string>, name: string, matches: Matcher)
    requires IgnoredBy(Without(rules, gone), name, matches)
    ensures IgnoredBy(rules, name, matches)
  {
    WithoutMembers(rules, gone);
  }

  /** First detection and bulk apply, seen through the lists the second detection reads. */
  lemma AfterFirstRound(row: Row, upstream: seq<string>, t1: int, t2: int, matches: Matcher)
    ensures var first := Detected(row, upstream, t1, matches);
            var applied := ApplyAllStaged(first, t2);
            var adds, removes := first.settings.stagedAdds, first.settings.stagedRemoves;
            var kept := Without(Parsed(row.models), removes);
            && applied.mapping == row.mapping
            && Normalize(applied.settings.ignored) == Without(Normalize(row.settings.ignored), adds)
            && Parsed(applied.models) == kept + Without(Normalize(Pieces(adds)), kept)
            && Normal(adds)
            && (forall name :: name in adds <==>
                  name in Normalize(upstream)
                  && Stageable(name, Parsed(row.models), Normalize(row.settings.ignored), row.mapping, matches))
            && (forall name :: name in removes <==>
                  name in Parsed(row.models) && name !in row.mapping.Keys && name !in Normalize(upstream))
  {
    CollectMembers(GetModels(row.models), upstream, row.settings.ignored, row.mapping, matches);
    DetectedIsConsistent(row, upstream, t1, matches);
    AppliedAll(Detected(row, upstream, t1, matches), t2);
  }

  /** Nothing is staged exactly when no upstream name is wanted and no served name is gone. */
  lemma NothingStagedIff(row: Row, upstream: seq<string>, now: int, matches: Matcher)
    ensures NothingStaged(Detected(row, upstream, now, matches)) <==>
            && (forall name <- Normalize(upstream) ::
                  !Stageable(name, Parsed(row.models), Normalize(row.settings.ignored), row.mapping, matches))
            && (forall name <- Parsed(row.models) :: name in row.mapping.Keys || name in Normalize(upstream))
  {
    var next := Detected(row, upstream, now, matches).settings;
    CollectMembers(GetModels(row.models), upstream, row.settings.ignored, row.mapping, matches);
    EmptyIff(next.stagedAdds, Normalize(upstream));
    EmptyIff(next.stagedRemoves, Parsed(row.models));
  }

  /** A name with a comma is never served, so it is offered again. */
  lemma CommaNameReturns(origin: seq<string>, rules: seq<string>, mapping: map<string, string>, matches: Matcher,
                         served: seq<string>, gone: seq<string>, name: string)
    requires Stageable(name, origin, rules, mapping, matches) && ',' in name
    requires CommaFree(served)
    ensures Stageable(name, served, Without(rules, gone), mapping, matches)
  {
    if IgnoredBy(Without(rules, gone), name, matches) {
      FewerRules(rules, gone, name, matches);
    }
  }

  /** With comma-free additions, a name is wanted again exactly when its ignore rule was deleted. */
  lemma WantedAgain(origin: seq<string>, rules: seq<string>, mapping: map<string, string>, matches: Matcher,
                    served: seq<string>, adds: seq<string>, name: string)
    requires Stageable(name, origin, rules, mapping, matches) ==> name in adds
    requires name in adds || name in origin ==> name in served
    requires name in served ==> name in origin || name in adds
    requires name in adds ==> Stageable(name, origin, rules, mapping, matches)
    ensures Stageable(name, served, Without(rules, adds), mapping, matches) <==>
            name !in origin && name !in mapping.Values
            && IgnoredBy(rules, name, matches) && !IgnoredBy(Without(rules, adds), name, matches)
  {
  }

  /** Convergence, exactly: no adopted name holds a comma and no needed ignore rule is deleted. */
  lemma ConvergesIff(row: Row, upstream: seq<string>, t1: int, t2: int, t3: int, matches: Matcher)
    ensures var first := Detected(row, upstream, t1, matches);
            var second := Detected(ApplyAllStaged(first, t2), upstream, t3, matches);
            NothingStaged(second) <==>
            CommaFree(first.settings.stagedAdds) && RulesSurvive(row, upstream, first.settings.stagedAdds, matches)
  {
    var first := Detected(row, upstream, t1, matches);
    var applied := ApplyAllStaged(first, t2);
    var adds, removes, origin := first.settings.stagedAdds, first.settings.stagedRemoves, Parsed(row.models);
    var kept, rules, served := Without(origin, removes), Normalize(row.settings.ignored), Parsed(applied.models);
    AfterFirstRound(row, upstream, t1, t2, matches);
    NothingStagedIff(applied, upstream, t3, matches);
    ParsedIsNormal(applied.models);
    if !CommaFree(adds) {
      var name :| name in adds && ',' in name;
      CommaNameReturns(origin, rules, row.mapping, matches, served, adds, name);
    } else {
      PiecesAreCommaFree(adds);
      NormalizeFixed(adds);
      WithoutMembers(origin, removes);
      WithoutMembers(adds, kept);
      assert served == kept + Without(adds, kept);
      forall name <- Normalize(upstream)
        ensures Stageable(name, served, Without(rules, adds), row.mapping, matches) <==>
                name !in origin && name !in row.mapping.Values
                && IgnoredBy(rules, name, matches) && !IgnoredBy(Without(rules, adds), name, matches)
      {
        WantedAgain(origin, rules, row.mapping, matches, served, adds, name);
      }
    }
  }

  // ---- Under auto-sync ----

  /** The names a detection finds wanted, and under auto-sync adopts. */
  function Wanted(row: Row, upstream: seq<string>, matches: Matcher): (r: seq<string>) {
    PendingAdds(GetModels(row.models), upstream, row.settings.ignored, row.mapping, matches)
  }

  function AutoDetected(row: Row, upstream: seq<string>, now: int, matches: Matcher): (r: Row) {
    DetectRow(row, Some(upstream), true, true, now, 0, matches)
  }

  lemma AutoDetectedRow(row: Row, upstream: seq<string>, now: int, matches: Matcher, origin: seq<string>, adds: seq<string>)
    requires row.settings.autoSync && origin == Parsed(row.models) && adds == Wanted(row, upstream, matches)
    ensures var next := AutoDetected(row, upstream, now, matches);
            && next.mapping == row.mapping && next.settings.ignored == row.settings.ignored
            && next.models == if adds == [] then row.models else Join(Merge(origin, adds), ',')
  {
    DetectFound(row, upstream, true, true, now, 0, matches);
  }

  lemma ServedText(models: string, origin: seq<string>, adds: seq<string>, next: string)
    requires origin == Parsed(models) && next == if adds == [] then models else Join(origin + adds, ',')
    ensures Parsed(next) == Normalize(Pieces(origin + adds))
  {
    if adds == [] {
      assert origin + adds == origin;
      ParsedIsNormal(models);
      PiecesAreCommaFree(origin);
      NormalizeFixed(origin);
    } else {
      ParsedJoin(origin + adds);
    }
  }

  lemma AutoServed(row: Row, upstream: seq<string>, now: int, matches: Matcher)
    requires row.settings.autoSync
    ensures var next := AutoDetected(row, upstream, now, matches);
            && next.mapping == row.mapping && next.settings.ignored == row.settings.ignored
            && Parsed(next.models) == Normalize(Pieces(Parsed(row.models) + Wanted(row, upstream, matches)))
  {
    var origin, adds := Parsed(row.models), Wanted(row, upstream, matches);
    AutoDetectedRow(row, upstream, now, matches, origin, adds);
    MergeGrows(row.models, upstream, row.settings.ignored, row.mapping, matches);
    ServedText(row.models, origin, adds, AutoDetected(row, upstream, now, matches).models);
  }

  /** Auto-sync deletes no rule, so a second detection adopts nothing exactly when no adopted name holds a comma. */
  lemma AutoConvergesIff(row: Row, upstream: seq<string>, now: int, matches: Matcher)
    requires row.settings.autoSync
    ensures Wanted(AutoDetected(row, upstream, now, matches), upstream, matches) == [] <==>
            CommaFree(Wanted(row, upstream, matches))
  {
    var next, adds, origin := AutoDetected(row, upstream, now, matches), Wanted(row, upstream, matches), Parsed(row.models);
    AutoServed(row, upstream, now, matches);
    CollectMembers(GetModels(row.models), upstream, row.settings.ignored, row.mapping, matches);
    CollectMembers(GetModels(next.models), upstream, next.settings.ignored, next.mapping, matches);
    ParsedIsNormal(next.models);
    ParsedIsNormal(row.models);
    EmptyIff(Wanted(next, upstream, matches), Normalize(upstream));
    if CommaFree(adds) {
      assert CommaFree(origin + adds);
      PiecesAreCommaFree(origin + adds);
      NormalizeIsNormal(origin + adds);
      NormalConcat(origin, adds);
      NormalizeFixed(origin + adds);
    } else {
      var name :| name in adds && ',' in name;
      assert name in Wanted(next, upstream, matches);
    }
  }

  /** The usual case: plain upstream names, no comma and no rule syntax. */
  lemma ConvergesForPlainNames(row: Row, upstream: seq<string>, t1: int, t2: int, t3: int, matches: Matcher)
    requires CommaFree(upstream)
    requires forall name <- Normalize(upstream) :: !(RegexPrefix <= name)
    ensures var first := Detected(row, upstream, t1, matches);
            NothingStaged(Detected(ApplyAllStaged(first, t2), upstream, t3, matches))
  {
    var first := Detected(row, upstream, t1, matches);
    var adds, rules := first.settings.stagedAdds, Normalize(row.settings.ignored);
    CollectMembers(GetModels(row.models), upstream, row.settings.ignored, row.mapping, matches);
    NormalizeCommaFree(upstream);
    assert RulesSurvive(row, upstream, adds, matches) by {
      forall name <- Normalize(upstream) | IgnoredBy(rules, name, matches)
        ensures IgnoredBy(Without(rules, adds), name, matches)
      {
        PlainRuleSurvives(rules, adds, name, matches);
      }
    }
    ConvergesIff(row, upstream, t1, t2, t3, matches);
  }

  /** Adopting plain names that no rule hides deletes no rule hiding another name. */
  lemma PlainRuleSurvives(rules: seq<string>, adds: seq<string>, name: string, matches: Matcher)
    requires IgnoredBy(rules, name, matches)
    requires forall add <- adds :: !(RegexPrefix <= add) && !IgnoredBy(rules, add, matches)
    ensures IgnoredBy(Without(rules, adds), name, matches)
  {
    var rule :| rule in rules && RuleHits(rule, name, matches);
    assert RegexPrefix <= rule || RuleHits(rule, rule, matches);
    assert rule !in adds;
    WithoutMembers(rules, adds);
  }

  /** A rule spelled like an upstream model is deleted by adopting it, and a name only it hid comes back. */
  lemma DeletedRuleReturns(row: Row, upstream: seq<string>, rule: string, hidden: string, matches: Matcher)
    requires rule in Normalize(upstream) && hidden in Normalize(upstream)
    requires Stageable(rule, Parsed(row.models), Normalize(row.settings.ignored), row.mapping, matches)
    requires hidden !in Parsed(row.models) && hidden !in row.mapping.Values
    requires rule in Normalize(row.settings.ignored) && RuleHits(rule, hidden, matches)
    requires forall other <- Normalize(row.settings.ignored) :: RuleHits(other, hidden, matches) ==> other == rule
    ensures var first := Detected(row, upstream, 1, matches);
            !NothingStaged(Detected(ApplyAllStaged(first, 2), upstream, 3, matches))
  {
    var rules, adds := Normalize(row.settings.ignored), Detected(row, upstream, 1, matches).settings.stagedAdds;
    AfterFirstRound(row, upstream, 1, 2, matches);
    WithoutMembers(rules, adds);
    assert IgnoredBy(rules, hidden, matches) && !IgnoredBy(Without(rules, adds), hidden, matches);
    ConvergesIff(row, upstream, 1, 2, 3, matches);
  }

  /** Such inputs exist: the rule "regex:b" hides "b1" but not itself. */
  lemma DeletedRuleExample() returns (row: Row, upstream: seq<string>, matches: Matcher)
    ensures CommaFree(upstream)
    ensures !NothingStaged(Detected(ApplyAllStaged(Detected(row, upstream, 1, matches), 2), upstream, 3, matches))
  {
    var pattern, hidden := "b", "b1";
    matches := (p, name) => p == pattern && name == hidden;
    row, upstream := OneRegexRow(pattern, hidden, matches);
  }

  /** A row whose only rule is a pattern hiding one of the two upstream names. */
  lemma OneRegexRow(pattern: string, hidden: string, matches: Matcher) returns (row: Row, upstream: seq<string>)
    requires |pattern| == 1 && pattern[0] != ',' && !IsSpace(pattern[0])
    requires |hidden| == 2 && hidden[0] != ',' && hidden[1] != ',' && !IsSpace(hidden[0]) && !IsSpace(hidden[1])
    requires matches(pattern, hidden) && forall name :: |name| != 2 ==> !matches(pattern, name)
    ensures CommaFree(upstream)
    ensures !NothingStaged(Detected(ApplyAllStaged(Detected(row, upstream, 1, matches), 2), upstream, 3, matches))
  {
    var rule := RegexPrefix + pattern;
    assert Clean(rule) && ',' !in rule;
    assert Clean(hidden) && ',' !in hidden;
    RegexRule(pattern, matches);
    row, upstream := OneRuleRow(rule, hidden, matches);
  }

  lemma RegexRule(pattern: string, matches: Matcher)
    requires Clean(pattern)
    ensures forall name :: RuleHits(RegexPrefix + pattern, name, matches) == matches(pattern, name)
  {
    assert (RegexPrefix + pattern)[|RegexPrefix|..] == pattern;
  }

  lemma OneRuleRow(rule: string, hidden: string, matches: Matcher) returns (row: Row, upstream: seq<string>)
    requires Clean(rule) && Clean(hidden) && rule != hidden && ',' !in rule && ',' !in hidden
    requires RuleHits(rule, hidden, matches) && !RuleHits(rule, rule, matches)
    ensures CommaFree(upstream)
    ensures !NothingStaged(Detected(ApplyAllStaged(Detected(row, upstream, 1, matches), 2), upstream, 3, matches))
  {
    var blank := "";
    var rules := OneRule(rule);
    upstream := TwoNames(rule, hidden);
    row := Row(blank, map[], Settings(true, false, 0, [], [], rules));
    ParsedOfBlank(blank);
    DeletedRuleReturns(row, upstream, rule, hidden, matches);
  }

  lemma OneRule(rule: string) returns (rules: seq<string>)
    requires Clean(rule)
    ensures Normalize(rules) == rules && forall other :: other in rules <==> other == rule
  {
    rules := [rule];
    NormalizeFixed(rules);
  }

  lemma TwoNames(a: string, b: string) returns (names: seq<string>)
    requires Clean(a) && Clean(b) && a != b && ',' !in a && ',' !in b
    ensures Normalize(names) == names && a in names && b in names && CommaFree(names)
  {
    names := [a, b];
    assert names[0] == a && names[1] == b;
    NormalizeFixed(names);
  }

  lemma ParsedOfBlank(models: string)
    requires models == ""
    ensures Parsed(models) == []
  {
  }
}

/** A loaded channel and the two operations that update and save it. */
module UpstreamChannel {
  import opened Lists
  import opened Text
  import opened ModelNames
  import opened UpstreamSync

  datatype Failure = FetchFailed | SaveFailed | AbilitiesFailed

  /** The models a detection adopts on its own: all pending ones when auto-sync applies. */
  function Adopted(row: Row, fetched: Option<seq<string>>, force: bool, allowAuto: bool,
                   now: int, minInterval: int, matches: Matcher): (r: seq<string>)
  {
    if TooSoon(row.settings, force, now, minInterval) || fetched.None? || !allowAuto || !row.settings.autoSync then []
    else PendingAdds(GetModels(row.models), fetched.value, row.settings.ignored, row.mapping, matches)
  }

  /** What checkAndPersist reports as an error, in the order the code meets it. */
  function CheckFailure(row: Row, fetched: Option<seq<string>>, force: bool, allowAuto: bool, now: int,
                        minInterval: int, saves: bool, abilities: bool, matches: Matcher): (r: Option<Failure>)
  {
    if TooSoon(row.settings, force, now, minInterval) then None
    else if !saves then Some(SaveFailed)
    else if fetched.None? then Some(FetchFailed)
    else if Adopted(row, fetched, force, allowAuto, now, minInterval, matches) != [] && !abilities then Some(AbilitiesFailed)
    else None
  }

  /** How a detection fails: the save is tried before a failed fetch is reported, and the abilities last; one not due never fails. */
  lemma CheckFailureIff(row: Row, fetched: Option<seq<string>>, force: bool, allowAuto: bool, now: int,
                        minInterval: int, saves: bool, abilities: bool, matches: Matcher)
    ensures var failure, s := CheckFailure(row, fetched, force, allowAuto, now, minInterval, saves, abilities, matches), row.settings;
            var due := force || s.lastCheck <= 0 || now >= s.lastCheck + minInterval;
            && (failure == Some(SaveFailed) <==> due && !saves)
            && (failure == Some(FetchFailed) <==> due && saves && fetched.None?)
            && (failure == Some(AbilitiesFailed) <==>
                due && saves && fetched.Some? && !abilities && allowAuto && s.autoSync
                && PendingAdds(GetModels(row.models), fetched.value, s.ignored, row.mapping, matches) != [])
  {
  }

  /** The row an application writes, the names it reports and whether it rewrites the models column. */
  ghost predicate Reviewed(row: Row, sel: Selection, now: int, next: Row, added: seq<string>, removed: seq<string>, modelsChanged: bool) {
    && next == ApplyRow(row, sel, now) && modelsChanged == ChangesModels(row, sel)
    && added == ChosenAdds(row.settings, sel) && removed == ChosenRemoves(row.settings, sel)
  }

  /** What applyChannelUpstreamModelUpdates computes before it saves. */
  method Review(row: Row, sel: Selection, now: int) returns (next: Row, added: seq<string>, removed: seq<string>, modelsChanged: bool)
    ensures Reviewed(row, sel, now, next, added, removed, modelsChanged)
    ensures next.mapping == row.mapping && (!modelsChanged ==> next.models == row.models)
  {
    var settings := row.settings;
    var pendingAdds, pendingRemoves := Normalize(settings.stagedAdds), Normalize(settings.stagedRemoves);
    added := Intersect(sel.adds, pendingAdds);
    var ignores := Intersect(sel.ignores, pendingAdds);
    removed := Intersect(sel.removes, pendingRemoves);
    removed := Subtract(removed, added);

    var origin := Normalize(GetModels(row.models));
    var selected := ApplySelected(origin, added, removed);
    var models := row.models;
    modelsChanged := origin != selected;
    if modelsChanged {
      models := Join(selected, ',');
    }
    var rules := MergeModelNames(settings.ignored, ignores);
    if |added| > 0 {
      rules := Subtract(rules, added);
    }
    var remaining := Subtract(pendingAdds, added + ignores);
    var remainingRemoves := Subtract(pendingRemoves, removed);
    next := Row(models, row.mapping, settings.(ignored := rules, stagedAdds := remaining, stagedRemoves := remainingRemoves, lastCheck := now));
  }

  class Channel {
    const mapping: map<string, string>
    var models: string
    var settings: Settings
    /** The row as the database holds it. */
    var stored: Row

    ghost predicate Loaded()
      reads this
    {
      stored == Row(models, mapping, settings)
    }

    constructor (row: Row)
      ensures Loaded() && stored == row
    {
      mapping := row.mapping;
      models := row.models;
      settings := row.settings;
      stored := row;
    }

    /** updateChannelUpstreamModelSettings: writes the settings, and the models when asked. */
    method Save(updateModels: bool, saves: bool) returns (ok: bool)
      modifies this`stored
      ensures ok == saves
      ensures stored == if !saves then old(stored)
                        else Row(if updateModels then models else old(stored).models, old(stored).mapping, settings)
    {
      ok := saves;
      if saves {
        stored := Row(if updateModels then models else stored.models, stored.mapping, settings);
      }
    }

    /** Adopts the pending names under auto-sync, and otherwise stages them for review. */
    method StageOrAdopt(adds: seq<string>, removes: seq<string>, allowAuto: bool) returns (modelsChanged: bool, autoAdded: nat)
      requires Merge(Parsed(models), adds) == Parsed(models) + adds
      modifies this`models, this`settings
      ensures var adopt := allowAuto && old(settings).autoSync && adds != [];
              && modelsChanged == adopt
              && autoAdded == (if adopt then |adds| else 0)
              && models == (if adopt then Join(Merge(Parsed(old(models)), adds), ',') else old(models))
              && settings == old(settings).(stagedAdds := if adopt then [] else adds, stagedRemoves := removes)
    {
      modelsChanged, autoAdded := false, 0;
      if allowAuto && settings.autoSync && |adds| > 0 {
        var origin := Normalize(GetModels(models));
        var merged := MergeModelNames(origin, adds);
        if |merged| > |origin| {
          models := Join(merged, ',');
          autoAdded := |merged| - |origin|;
          modelsChanged := true;
        }
        settings := settings.(stagedAdds := []);
      } else {
        settings := settings.(stagedAdds := adds);
      }
      settings := settings.(stagedRemoves := removes);
    }

    /** checkAndPersistChannelUpstreamModelUpdates */
    method CheckAndPersist(fetched: Option<seq<string>>, force: bool, allowAuto: bool, now: int, minInterval: int,
                           saves: bool, abilities: bool, matches: Matcher)
      returns (modelsChanged: bool, autoAdded: nat, failure: Option<Failure>)
      requires Loaded()
      modifies this
      ensures stored == StepRow(old(stored), Check(fetched, force, allowAuto, now, minInterval, saves), matches)
      ensures failure == CheckFailure(old(stored), fetched, force, allowAuto, now, minInterval, saves, abilities, matches)
      ensures failure.None? ==> Loaded()
      ensures autoAdded == |Adopted(old(stored), fetched, force, allowAuto, now, minInterval, matches)|
      ensures failure != Some(SaveFailed) ==> (modelsChanged <==> autoAdded > 0)
      ensures failure == Some(SaveFailed) ==> !modelsChanged
    {
      modelsChanged, autoAdded, failure := false, 0, None;
      if !force && settings.lastCheck > 0 && now - settings.lastCheck < minInterval {
        return;
      }
      settings := settings.(lastCheck := now);
      if fetched.None? {
        var ok := Save(false, saves);
        return false, 0, if ok then Some(FetchFailed) else Some(SaveFailed);
      }
      var local := GetModels(models);
      var adds := PendingAdds(local, fetched.value, settings.ignored, mapping, matches);
      var removes := PendingRemoves(local, fetched.value, mapping);
      MergeGrows(models, fetched.value, settings.ignored, mapping, matches);
      DetectFound(stored, fetched.value, force, allowAuto, now, minInterval, matches);
      modelsChanged, autoAdded := StageOrAdopt(adds, removes, allowAuto);
      var ok := Save(modelsChanged, saves);
      if !ok {
        return false, autoAdded, Some(SaveFailed);
      }
      if modelsChanged && !abilities {
        return true, autoAdded, Some(AbilitiesFailed);
      }
    }

    /** applyChannelUpstreamModelUpdates */
    method Apply(sel: Selection, now: int, saves: bool, abilities: bool)
      returns (added: seq<string>, removed: seq<string>, remaining: seq<string>, remainingRemoves: seq<string>,
               modelsChanged: bool, failure: Option<Failure>)
      requires Loaded()
      modifies this
      ensures saves ==> Reviewed(old(stored), sel, now, stored, added, removed, modelsChanged)
      ensures saves ==> Loaded() && remaining == stored.settings.stagedAdds && remainingRemoves == stored.settings.stagedRemoves
      ensures !saves ==> stored == old(stored) && !modelsChanged && added == removed == remaining == remainingRemoves == []
      ensures failure == if !saves then Some(SaveFailed) else if modelsChanged && !abilities then Some(AbilitiesFailed) else None
    {
      var next;
      next, added, removed, modelsChanged := Review(Row(models, mapping, settings), sel, now);
      models, settings := next.models, next.settings;
      remaining, remainingRemoves := settings.stagedAdds, settings.stagedRemoves;
      var ok := Save(modelsChanged, saves);
      failure := None;
      if !ok {
        return [], [], [], [], false, Some(SaveFailed);
      }
      if modelsChanged && !abilities {
        failure := Some(AbilitiesFailed);
      }
    }
  }
}

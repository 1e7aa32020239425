/** What the price comparison means: soundness, completeness, and that its result is a correct patch. */
module PriceDiffLaws {
  import opened Lists
  import opened PriceDiff

  ghost predicate DistinctNames(channels: seq<Channel>) {
    forall i, j :: 0 <= i < j < |channels| ==> channels[i].name != channels[j].name
  }

  /** Of the channels of one name the last one decides what is shown. */
  ghost predicate Decides(channels: seq<Channel>, i: int) {
    0 <= i < |channels| && forall j :: i < j < |channels| ==> channels[j].name != channels[i].name
  }

  lemma {:induction false} SomeDecides(channels: seq<Channel>, name: string, i: nat) returns (last: nat)
    requires i < |channels| && channels[i].name == name
    ensures Decides(channels, last) && channels[last].name == name
    decreases |channels| - i
  {
    if Decides(channels, i) {
      last := i;
    } else {
      var j :| i < j < |channels| && channels[j].name == channels[i].name;
      last := SomeDecides(channels, name, j);
    }
  }

  lemma DistinctDecide(channels: seq<Channel>, i: nat)
    requires DistinctNames(channels) && i < |channels|
    ensures Decides(channels, i)
  {
  }

  function CellOf(local: PriceTable, channel: Channel, model: string, field: string): (r: Value) {
    Cell(Current(local, field, model), Lookup(channel.data, field, model))
  }

  /** The channel offers a value to adopt here: one missing locally or different from the local one. */
  predicate OffersChange(local: PriceTable, channel: Channel, model: string, field: string) {
    IsReal(CellOf(local, channel, model, field))
  }

  /** ... somewhere. */
  ghost predicate OffersAnyChange(local: PriceTable, channel: Channel, fields: seq<string>) {
    exists model, field :: field in fields && OffersChange(local, channel, model, field)
  }

  predicate InDiff(d: Differences, model: string, field: string) {
    model in d && field in d[model]
  }

  // ---- Reading the nested maps ----

  lemma {:induction false} CellsByChannel(current: Value, channels: seq<Channel>, model: string, field: string, i: nat)
    requires Decides(channels, i)
    ensures channels[i].name in Cells(current, channels, model, field)
    ensures Cells(current, channels, model, field)[channels[i].name] == Cell(current, Lookup(channels[i].data, field, model))
    ensures channels[i].name in Confidences(channels, model)
    ensures Confidences(channels, model)[channels[i].name] == Confidence(channels[i].data, model)
  {
    var front := channels[..|channels| - 1];
    if i < |front| {
      assert channels[|front|].name != channels[i].name;
      CellsByChannel(current, front, model, field, i);
    }
  }

  lemma {:induction false} CellsNames(current: Value, channels: seq<Channel>, model: string, field: string, name: string)
    ensures name in Cells(current, channels, model, field) <==> exists i :: 0 <= i < |channels| && channels[i].name == name
    ensures name in Confidences(channels, model) <==> exists i :: 0 <= i < |channels| && channels[i].name == name
  {
    if channels != [] {
      CellsNames(current, channels[..|channels| - 1], model, field, name);
      assert channels[|channels| - 1].name == name ==> exists i :: 0 <= i < |channels| && channels[i].name == name;
      assert forall i :: 0 <= i < |channels| - 1 ==> channels[..|channels| - 1][i] == channels[i];
    }
  }

  lemma {:induction false} AnyTriggersIff(current: Value, channels: seq<Channel>, model: string, field: string)
    ensures AnyTriggers(current, channels, model, field) <==>
            exists i :: 0 <= i < |channels| && Triggers(current, Lookup(channels[i].data, field, model))
  {
    if channels != [] {
      var front := channels[..|channels| - 1];
      AnyTriggersIff(current, front, model, field);
      assert forall i :: 0 <= i < |front| ==> front[i] == channels[i];
    }
  }

  /** A value to adopt is one the first pass records. */
  lemma ChangeTriggers(current: Value, upstream: Option<Value>)
    requires IsReal(Cell(current, upstream))
    ensures upstream.Some? && Triggers(current, upstream)
  {
  }

  lemma {:induction false} KnownModel(local: PriceTable, channels: seq<Channel>, fields: seq<string>, i: nat, model: string, field: string)
    requires i < |channels| && field in fields && Lookup(channels[i].data, field, model).Some?
    ensures model in AllModels(local, channels, fields)
  {
    var front, last := channels[..|channels| - 1], channels[|channels| - 1];
    if i < |front| {
      KnownModel(local, front, fields, i, model, field);
    } else {
      assert model in ModelsIn(last.data, fields);
    }
  }

  lemma RecordedModelIsKnown(local: PriceTable, channels: seq<Channel>, fields: seq<string>, model: string, field: string)
    requires field in fields && Included(local, channels, model, field)
    ensures model in AllModels(local, channels, fields)
  {
    var current := Current(local, field, model);
    AnyTriggersIff(current, channels, model, field);
    var i :| 0 <= i < |channels| && Triggers(current, Lookup(channels[i].data, field, model));
    KnownModel(local, channels, fields, i, model, field);
  }

  /** The first pass holds exactly the recorded entries. */
  lemma FirstPassEntry(local: PriceTable, channels: seq<Channel>, fields: seq<string>, model: string, field: string)
    ensures var all := FirstPass(local, channels, fields, AllModels(local, channels, fields));
            && (InDiff(all, model, field) <==> field in fields && Included(local, channels, model, field))
            && (InDiff(all, model, field) ==> all[model][field] == FullItem(local, channels, model, field))
  {
    if field in fields && Included(local, channels, model, field) {
      RecordedModelIsKnown(local, channels, fields, model, field);
      assert field in FirstPassFields(local, channels, fields, model);
    }
  }

  lemma PrunedEntry(all: Differences, listed: set<string>, model: string, field: string)
    ensures var d := Pruned(all, listed);
            && (InDiff(d, model, field) <==> InDiff(all, model, field) && Worthwhile(all[model][field], listed))
            && (InDiff(d, model, field) ==> d[model][field] == Kept(all[model][field], listed))
  {
    if InDiff(all, model, field) && Worthwhile(all[model][field], listed) {
      assert field in PrunedFields(all[model], listed);
    }
  }

  ghost function ListedNames(local: PriceTable, channels: seq<Channel>, fields: seq<string>): set<string> {
    ChannelsWithDiff(FirstPass(local, channels, fields, AllModels(local, channels, fields)))
  }

  /** The channels kept in every entry are exactly those that offer a change somewhere. */
  lemma ListedIff(local: PriceTable, channels: seq<Channel>, fields: seq<string>, i: nat)
    requires Decides(channels, i)
    ensures channels[i].name in ListedNames(local, channels, fields) <==> OffersAnyChange(local, channels[i], fields)
  {
    var all := FirstPass(local, channels, fields, AllModels(local, channels, fields));
    var name := channels[i].name;
    if name in ListedNames(local, channels, fields) {
      var model, field :| InDiff(all, model, field) && name in all[model][field].upstreams && IsReal(all[model][field].upstreams[name]);
      FirstPassEntry(local, channels, fields, model, field);
      CellsByChannel(Current(local, field, model), channels, model, field, i);
      assert OffersChange(local, channels[i], model, field);
    }
    if OffersAnyChange(local, channels[i], fields) {
      var model, field :| field in fields && OffersChange(local, channels[i], model, field);
      ChangeIsListed(local, channels, fields, i, model, field);
    }
  }

  lemma ChangeIsListed(local: PriceTable, channels: seq<Channel>, fields: seq<string>, i: nat, model: string, field: string)
    requires Decides(channels, i) && field in fields && OffersChange(local, channels[i], model, field)
    ensures Included(local, channels, model, field)
    ensures channels[i].name in ListedNames(local, channels, fields)
  {
    var all := FirstPass(local, channels, fields, AllModels(local, channels, fields));
    var current := Current(local, field, model);
    ChangeTriggers(current, Lookup(channels[i].data, field, model));
    AnyTriggersIff(current, channels, model, field);
    FirstPassEntry(local, channels, fields, model, field);
    CellsByChannel(current, channels, model, field, i);
    assert InDiff(all, model, field);
  }

  // ---- Soundness and completeness ----

  /** A channel that offers a change somewhere shows a null here: it is listed, and has no value to adopt. */
  ghost predicate ShowsNull(local: PriceTable, channel: Channel, fields: seq<string>, model: string, field: string) {
    OffersAnyChange(local, channel, fields) && CellOf(local, channel, model, field) == Nil
  }

  lemma WorthwhileIff(local: PriceTable, channels: seq<Channel>, fields: seq<string>, model: string, field: string)
    ensures Worthwhile(FullItem(local, channels, model, field), ListedNames(local, channels, fields)) <==>
            exists i :: Decides(channels, i) && OffersAnyChange(local, channels[i], fields) && CellOf(local, channels[i], model, field) != Same
  {
    var item, listed := FullItem(local, channels, model, field), ListedNames(local, channels, fields);
    if Worthwhile(item, listed) {
      var name :| name in item.upstreams && name in listed && item.upstreams[name] != Same;
      CellsNames(item.current, channels, model, field, name);
      var k :| 0 <= k < |channels| && channels[k].name == name;
      var i := SomeDecides(channels, name, k);
      CellsByChannel(item.current, channels, model, field, i);
      ListedIff(local, channels, fields, i);
    }
    if i :| Decides(channels, i) && OffersAnyChange(local, channels[i], fields) && CellOf(local, channels[i], model, field) != Same {
      CellsByChannel(item.current, channels, model, field, i);
      ListedIff(local, channels, fields, i);
      assert channels[i].name in item.upstreams;
    }
  }

  /** The entries of the result, for all inputs: some deciding channel offers a change there, or an entry recorded for any channel shows a null of one. */
  lemma EntryIff(local: PriceTable, channels: seq<Channel>, fields: seq<string>, model: string, field: string)
    ensures InDiff(Diff(local, channels, fields), model, field) <==>
            && field in fields
            && ((exists i :: Decides(channels, i) && OffersChange(local, channels[i], model, field))
                || (Included(local, channels, model, field)
                    && exists i :: Decides(channels, i) && ShowsNull(local, channels[i], fields, model, field)))
  {
    var all, listed := FirstPass(local, channels, fields, AllModels(local, channels, fields)), ListedNames(local, channels, fields);
    FirstPassEntry(local, channels, fields, model, field);
    PrunedEntry(all, listed, model, field);
    WorthwhileIff(local, channels, fields, model, field);
    if field in fields {
      forall i | Decides(channels, i) && OffersChange(local, channels[i], model, field)
        ensures Included(local, channels, model, field) && OffersAnyChange(local, channels[i], fields)
      {
        ChangeIsListed(local, channels, fields, i, model, field);
      }
    }
  }

  /** What an entry shows: the local value, and the cell and trust flag of exactly the channels that offer some change. */
  lemma EntryContents(local: PriceTable, channels: seq<Channel>, fields: seq<string>, model: string, field: string, i: nat)
    requires Decides(channels, i)
    requires InDiff(Diff(local, channels, fields), model, field)
    ensures var item := Diff(local, channels, fields)[model][field];
            && item.current == Current(local, field, model)
            && (channels[i].name in item.upstreams <==> OffersAnyChange(local, channels[i], fields))
            && (channels[i].name in item.upstreams ==> item.upstreams[channels[i].name] == CellOf(local, channels[i], model, field))
            && (channels[i].name in item.confidence <==> OffersAnyChange(local, channels[i], fields))
            && (channels[i].name in item.confidence ==> item.confidence[channels[i].name] == Confidence(channels[i].data, model))
  {
    var all, listed := FirstPass(local, channels, fields, AllModels(local, channels, fields)), ListedNames(local, channels, fields);
    FirstPassEntry(local, channels, fields, model, field);
    PrunedEntry(all, listed, model, field);
    CellsByChannel(Current(local, field, model), channels, model, field, i);
    ListedIff(local, channels, fields, i);
  }

  /** ... and no other name. */
  lemma EntryNames(local: PriceTable, channels: seq<Channel>, fields: seq<string>, model: string, field: string, name: string)
    requires InDiff(Diff(local, channels, fields), model, field)
    requires var item := Diff(local, channels, fields)[model][field]; name in item.upstreams || name in item.confidence
    ensures exists i :: 0 <= i < |channels| && channels[i].name == name
  {
    var all, listed := FirstPass(local, channels, fields, AllModels(local, channels, fields)), ListedNames(local, channels, fields);
    FirstPassEntry(local, channels, fields, model, field);
    PrunedEntry(all, listed, model, field);
    CellsNames(Current(local, field, model), channels, model, field, name);
  }

  /** No explicit null and no text "same" among the values compared. */
  ghost predicate Plain(channel: Channel, fields: seq<string>) {
    forall model, field :: field in fields && Lookup(channel.data, field, model).Some? ==> IsReal(Lookup(channel.data, field, model).value)
  }

  lemma PlainChange(local: PriceTable, channel: Channel, fields: seq<string>, model: string, field: string)
    requires Plain(channel, fields) && field in fields
    ensures OffersChange(local, channel, model, field) <==> Differs(Current(local, field, model), Lookup(channel.data, field, model))
    ensures Triggers(Current(local, field, model), Lookup(channel.data, field, model)) ==> OffersChange(local, channel, model, field)
  {
    var found := Lookup(channel.data, field, model);
    assert found.Some? ==> IsReal(found.value);
  }

  /** On plain values, with names that may repeat: some deciding channel differs there, or any channel does while a listed one has no value. */
  lemma PlainSharedIff(local: PriceTable, channels: seq<Channel>, fields: seq<string>, model: string, field: string)
    requires forall i :: 0 <= i < |channels| ==> Plain(channels[i], fields)
    ensures var current := Current(local, field, model);
            InDiff(Diff(local, channels, fields), model, field) <==>
            && field in fields
            && ((exists i :: Decides(channels, i) && Differs(current, Lookup(channels[i].data, field, model)))
                || ((exists i :: 0 <= i < |channels| && Differs(current, Lookup(channels[i].data, field, model)))
                    && exists i :: Decides(channels, i) && ShowsNull(local, channels[i], fields, model, field)))
  {
    var current := Current(local, field, model);
    EntryIff(local, channels, fields, model, field);
    AnyTriggersIff(current, channels, model, field);
    if field in fields {
      forall i | 0 <= i < |channels|
        ensures OffersChange(local, channels[i], model, field) <==> Differs(current, Lookup(channels[i].data, field, model))
        ensures Triggers(current, Lookup(channels[i].data, field, model)) <==> Differs(current, Lookup(channels[i].data, field, model))
      {
        PlainChange(local, channels[i], fields, model, field);
      }
    }
  }

  /** On plain values the result holds exactly the entries where some channel has a value and the local one is missing or different. */
  lemma PlainEntryIff(local: PriceTable, channels: seq<Channel>, fields: seq<string>, model: string, field: string)
    requires DistinctNames(channels)
    requires forall i :: 0 <= i < |channels| ==> Plain(channels[i], fields)
    ensures InDiff(Diff(local, channels, fields), model, field) <==>
            field in fields && exists i :: 0 <= i < |channels| && Differs(Current(local, field, model), Lookup(channels[i].data, field, model))
  {
    var current := Current(local, field, model);
    EntryIff(local, channels, fields, model, field);
    AnyTriggersIff(current, channels, model, field);
    if field in fields {
      forall i | 0 <= i < |channels|
        ensures OffersChange(local, channels[i], model, field) <==> Differs(current, Lookup(channels[i].data, field, model))
        ensures Triggers(current, Lookup(channels[i].data, field, model)) ==> OffersChange(local, channels[i], model, field)
      {
        PlainChange(local, channels[i], fields, model, field);
        DistinctDecide(channels, i);
      }
    }
  }

  /** Without that condition an entry may survive although no channel has anything to adopt there. */
  lemma NullKeepsEntry() returns (local: PriceTable, channels: seq<Channel>, fields: seq<string>, model: string, field: string)
    ensures DistinctNames(channels)
    ensures InDiff(Diff(local, channels, fields), model, field)
    ensures forall i :: 0 <= i < |channels| ==> !OffersChange(local, channels[i], model, field)
  {
    model, field := "m", "model_price";
    var other := "model_ratio";
    var prices, nulls, ratios := map[model := Num(1.0)], map[model := Nil], map[model := Num(2.0)];
    local := map[field := prices];
    var channel := Channel("a", map[field := nulls, other := ratios]);
    channels, fields := [channel], [field, other];
    assert field != other by { assert |field| == 11 && |other| == 11 && field[6] == 'p' && other[6] == 'r'; }
    assert Lookup(channel.data, other, model) == Some(Num(2.0)) && Lookup(local, other, model) == None;
    assert OffersChange(local, channel, model, other);
    assert Lookup(channel.data, field, model) == Some(Nil) && Current(local, field, model) == Num(1.0);
    AnyTriggersIff(Num(1.0), channels, model, field);
    assert Triggers(Num(1.0), Lookup(channels[0].data, field, model));
    assert Decides(channels, 0) && ShowsNull(local, channels[0], fields, model, field);
    EntryIff(local, channels, fields, model, field);
  }

  /** So it may when channels share a name: an overridden one has a value there, and the deciding one has none. */
  lemma OverriddenKeepsEntry() returns (local: PriceTable, channels: seq<Channel>, fields: seq<string>, model: string, field: string)
    ensures forall i :: 0 <= i < |channels| ==> Plain(channels[i], fields)
    ensures InDiff(Diff(local, channels, fields), model, field)
    ensures forall i :: Decides(channels, i) ==> !OffersChange(local, channels[i], model, field)
  {
    model, field := "m", "model_price";
    var other := "model_ratio";
    var prices, ratios := map[model := Num(1.0)], map[model := Num(2.0)];
    local := map[field := prices];
    var overridden, deciding := Channel("a", map[field := ratios]), Channel("a", map[other := ratios]);
    channels, fields := [overridden, deciding], [field, other];
    assert field != other by { assert |field| == 11 && |other| == 11 && field[6] == 'p' && other[6] == 'r'; }
    assert Lookup(deciding.data, other, model) == Some(Num(2.0)) && Lookup(local, other, model) == None;
    assert OffersChange(local, deciding, model, other);
    assert Lookup(deciding.data, field, model) == None && Current(local, field, model) == Num(1.0);
    assert Lookup(channels[0].data, field, model) == Some(Num(2.0)) && Differs(Num(1.0), Lookup(channels[0].data, field, model));
    assert Decides(channels, 1) && ShowsNull(local, channels[1], fields, model, field);
    assert !Decides(channels, 0) by { assert channels[1].name == channels[0].name; }
    PlainSharedIff(local, channels, fields, model, field);
  }

  // ---- Tables of numbers, with the tolerance written out ----

  /** Numbers agree when they are less than a billionth apart, other values when they are equal. */
  lemma AgreeIff(a: Value, b: Value)
    ensures ValuesEqual(a, b) <==> if a.Num? && b.Num? then -0.000000001 < a.number - b.number < 0.000000001 else a == b
  {
  }

  /** The channel has this number for the model. */
  ghost predicate Has(table: PriceTable, field: string, model: string, number: real) {
    field in table && model in table[field] && table[field][model] == Num(number)
  }

  ghost predicate HasValue(table: PriceTable, field: string, model: string) {
    field in table && model in table[field] && table[field][model] != Nil
  }

  ghost predicate Numeric(channel: Channel, fields: seq<string>) {
    forall field, model :: field in fields && field in channel.data && model in channel.data[field] ==> channel.data[field][model].Num?
  }

  lemma NumericIsPlain(channel: Channel, fields: seq<string>)
    requires Numeric(channel, fields)
    ensures Plain(channel, fields)
  {
  }

  lemma NumberDiffers(local: PriceTable, channel: Channel, fields: seq<string>, field: string, model: string)
    requires Numeric(channel, fields) && field in fields
    ensures Differs(Current(local, field, model), Lookup(channel.data, field, model)) <==>
            exists u :: Has(channel.data, field, model, u) && !HasNear(local, field, model, u)
  {
    var current, found := Current(local, field, model), Lookup(channel.data, field, model);
    if found.Some? {
      AgreeIff(current, found.value);
      assert Has(channel.data, field, model, found.value.number);
    }
  }

  /** The entries for numbers: some channel has one there, and the local table has none this close. */
  lemma NumberEntryIff(local: PriceTable, channels: seq<Channel>, fields: seq<string>, model: string, field: string)
    requires DistinctNames(channels) && forall i :: 0 <= i < |channels| ==> Numeric(channels[i], fields)
    ensures InDiff(Diff(local, channels, fields), model, field) <==>
            field in fields && exists i, u :: 0 <= i < |channels| && Has(channels[i].data, field, model, u) && !HasNear(local, field, model, u)
  {
    forall i | 0 <= i < |channels| ensures Plain(channels[i], fields) {
      NumericIsPlain(channels[i], fields);
    }
    PlainEntryIff(local, channels, fields, model, field);
    if field in fields {
      forall i | 0 <= i < |channels|
        ensures Differs(Current(local, field, model), Lookup(channels[i].data, field, model)) <==>
                exists u :: Has(channels[i].data, field, model, u) && !HasNear(local, field, model, u)
      {
        NumberDiffers(local, channels[i], fields, field, model);
      }
    }
  }

  /** What is shown for a channel with numbers: its number where the local one is not this close, "same" where it is
      or where neither has a value, and nothing where only the local table has one. */
  ghost predicate Shows(shown: Value, local: PriceTable, channel: Channel, field: string, model: string) {
    && (forall u :: Has(channel.data, field, model, u) ==> shown == if HasNear(local, field, model, u) then Text("same") else Num(u))
    && (!HasValue(channel.data, field, model) ==> shown == if HasValue(local, field, model) then Nil else Text("same"))
  }

  lemma NumberCell(local: PriceTable, channel: Channel, fields: seq<string>, field: string, model: string)
    requires Numeric(channel, fields) && field in fields
    ensures Shows(CellOf(local, channel, model, field), local, channel, field, model)
  {
    var current, found := Current(local, field, model), Lookup(channel.data, field, model);
    if found.Some? {
      AgreeIff(current, found.value);
    }
  }

  /** So every entry of the result shows it. */
  lemma NumberEntryShows(local: PriceTable, channels: seq<Channel>, fields: seq<string>, model: string, field: string, i: nat, item: Item)
    requires Decides(channels, i) && Numeric(channels[i], fields) && field in fields && InDiff(Diff(local, channels, fields), model, field)
    requires item == Diff(local, channels, fields)[model][field] && channels[i].name in item.upstreams
    ensures Shows(item.upstreams[channels[i].name], local, channels[i], field, model)
  {
    EntryContents(local, channels, fields, model, field, i);
    NumberCell(local, channels[i], fields, field, model);
  }

  // ---- The result as a patch ----

  /** The local table once the values the result shows for one channel are adopted. */
  function PatchedValue(local: PriceTable, d: Differences, name: string, field: string, model: string): (r: Option<Value>) {
    if InDiff(d, model, field) && name in d[model][field].upstreams && IsReal(d[model][field].upstreams[name])
    then Some(d[model][field].upstreams[name])
    else Lookup(local, field, model)
  }

  function FieldsOf(d: Differences): (r: set<string>) {
    set model, field | model in d && field in d[model] :: field
  }

  function Patched(local: PriceTable, d: Differences, name: string): (r: PriceTable) {
    map field | field in local.Keys + FieldsOf(d) ::
      map model | model in FieldOf(local, field).Keys + d.Keys && PatchedValue(local, d, name, field, model).Some? ::
        PatchedValue(local, d, name, field, model).value
  }

  lemma PatchedLookup(local: PriceTable, d: Differences, name: string, field: string, model: string)
    ensures Lookup(Patched(local, d, name), field, model) == PatchedValue(local, d, name, field, model)
  {
    if InDiff(d, model, field) {
      assert field in FieldsOf(d);
    }
  }

  /** Adopting a channel changes exactly the entries where it offers a change, to the value it has. */
  lemma PatchedByChannel(local: PriceTable, channels: seq<Channel>, fields: seq<string>, i: nat, model: string, field: string)
    requires Decides(channels, i)
    ensures Lookup(Patched(local, Diff(local, channels, fields), channels[i].name), field, model) ==
            if field in fields && OffersChange(local, channels[i], model, field) then Lookup(channels[i].data, field, model)
            else Lookup(local, field, model)
  {
    var d, name := Diff(local, channels, fields), channels[i].name;
    PatchedLookup(local, d, name, field, model);
    EntryIff(local, channels, fields, model, field);
    if InDiff(d, model, field) {
      EntryContents(local, channels, fields, model, field, i);
    }
  }

  /** Once adopted, the local prices agree with the channel, within the tolerance of the comparison, on every value it has. */
  lemma PatchAgrees(local: PriceTable, channels: seq<Channel>, fields: seq<string>, i: nat, model: string, field: string)
    requires Decides(channels, i) && field in fields && Plain(channels[i], fields)
    requires Lookup(channels[i].data, field, model).Some?
    ensures ValuesEqual(Current(Patched(local, Diff(local, channels, fields), channels[i].name), field, model),
                        Lookup(channels[i].data, field, model).value)
  {
    PatchedByChannel(local, channels, fields, i, model, field);
    PlainChange(local, channels[i], fields, model, field);
  }

  /** For numbers: after adopting a channel the local table has a number this close to each of its own. */
  lemma PatchNumbersAgree(local: PriceTable, channels: seq<Channel>, fields: seq<string>, i: nat, model: string, field: string, number: real)
    requires Decides(channels, i) && field in fields && Numeric(channels[i], fields) && Has(channels[i].data, field, model, number)
    ensures HasNear(Patched(local, Diff(local, channels, fields), channels[i].name), field, model, number)
  {
    var patched := Patched(local, Diff(local, channels, fields), channels[i].name);
    NumericIsPlain(channels[i], fields);
    PatchAgrees(local, channels, fields, i, model, field);
    AgreeIff(Current(patched, field, model), Num(number));
  }

  lemma AdoptedOffersNothing(local: PriceTable, channels: seq<Channel>, fields: seq<string>, i: nat)
    requires Decides(channels, i)
    ensures !OffersAnyChange(Patched(local, Diff(local, channels, fields), channels[i].name), channels[i], fields)
  {
    var patched := Patched(local, Diff(local, channels, fields), channels[i].name);
    forall model, field | field in fields ensures !OffersChange(patched, channels[i], model, field) {
      PatchedByChannel(local, channels, fields, i, model, field);
    }
  }

  /** Comparing again after adopting a channel, it appears in no entry of the new result. */
  lemma AdoptedChannelDisappears(local: PriceTable, channels: seq<Channel>, fields: seq<string>, i: nat, model: string, field: string)
    requires Decides(channels, i)
    ensures var again := Diff(Patched(local, Diff(local, channels, fields), channels[i].name), channels, fields);
            InDiff(again, model, field) ==> channels[i].name !in again[model][field].upstreams
  {
    var patched := Patched(local, Diff(local, channels, fields), channels[i].name);
    AdoptedOffersNothing(local, channels, fields, i);
    if InDiff(Diff(patched, channels, fields), model, field) {
      EntryContents(patched, channels, fields, model, field, i);
    }
  }

  lemma NoEntryWithoutOffer(local: PriceTable, channels: seq<Channel>, fields: seq<string>, model: string, field: string)
    requires forall i :: Decides(channels, i) ==> !OffersAnyChange(local, channels[i], fields)
    ensures !InDiff(Diff(local, channels, fields), model, field)
  {
    EntryIff(local, channels, fields, model, field);
    if i :| Decides(channels, i) && field in fields && OffersChange(local, channels[i], model, field) {
      assert OffersAnyChange(local, channels[i], fields);
    }
  }

  lemma PrunedModelHasField(all: Differences, listed: set<string>, model: string) returns (field: string)
    requires model in Pruned(all, listed)
    ensures InDiff(Pruned(all, listed), model, field)
  {
    field :| field in PrunedFields(all[model], listed);
  }

  /** The result is empty when no channel offers a change. */
  lemma NothingOffered(local: PriceTable, channels: seq<Channel>, fields: seq<string>)
    requires forall i :: Decides(channels, i) ==> !OffersAnyChange(local, channels[i], fields)
    ensures forall model :: model !in Diff(local, channels, fields)
  {
    var all := FirstPass(local, channels, fields, AllModels(local, channels, fields));
    forall model ensures model !in Diff(local, channels, fields) {
      if model in Pruned(all, ChannelsWithDiff(all)) {
        var field := PrunedModelHasField(all, ChannelsWithDiff(all), model);
        NoEntryWithoutOffer(local, channels, fields, model, field);
      }
    }
  }

  /** ... and against that channel alone nothing is left. */
  lemma PatchFixpoint(local: PriceTable, channels: seq<Channel>, fields: seq<string>, i: nat)
    requires Decides(channels, i)
    ensures Diff(Patched(local, Diff(local, channels, fields), channels[i].name), [channels[i]], fields) == map[]
  {
    AdoptedOffersNothing(local, channels, fields, i);
    NothingOffered(Patched(local, Diff(local, channels, fields), channels[i].name), [channels[i]], fields);
  }
}

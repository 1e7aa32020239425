/** The comparison of local prices with the prices of several upstream channels. */
module PriceDiff {
  import opened Lists

  /** A decoded price value. */
  datatype Value = Nil | Num(number: real) | Text(text: string) | Flag(flag: bool)

  /** Field name, then model name, to value. */
  type PriceTable = map<string, map<string, Value>>

  datatype Channel = Channel(name: string, data: PriceTable)

  datatype Item = Item(current: Value, upstreams: map<string, Value>, confidence: map<string, bool>)

  type Differences = map<string, map<string, Item>>

  const Epsilon := 0.000000001
  const Same := Text("same")

  predicate NearlyEqual(a: real, b: real) {
    if a > b then a - b < Epsilon else b - a < Epsilon
  }

  predicate ValuesEqual(a: Value, b: Value) {
    if a.Num? && b.Num? then NearlyEqual(a.number, b.number) else a == b
  }

  function Lookup(table: PriceTable, field: string, model: string): (r: Option<Value>) {
    if field in table && model in table[field] then Some(table[field][model]) else None
  }

  /** The local value, nil when there is none. */
  function Current(local: PriceTable, field: string, model: string): (r: Value) {
    var found := Lookup(local, field, model);
    if found.Some? then found.value else Nil
  }

  /** What a channel shows in an entry: its value, "same", or nil. */
  function Cell(current: Value, upstream: Option<Value>): (r: Value) {
    var shown := match upstream
      case None => Nil
      case Some(v) => if current != Nil && !ValuesEqual(current, v) then v else if ValuesEqual(current, v) then Same else v;
    if shown == Nil && current == Nil then Same else shown
  }

  /** A cell that carries a value to adopt. */
  predicate IsReal(cell: Value) {
    cell != Nil && cell != Same
  }

  predicate Differs(current: Value, upstream: Option<Value>) {
    upstream.Some? && !ValuesEqual(current, upstream.value)
  }

  /** Whether a channel makes the first pass record an entry: a different value, or any value where there is none locally. */
  predicate Triggers(current: Value, upstream: Option<Value>) {
    if current != Nil then Differs(current, upstream) else upstream.Some?
  }

  predicate AnyTriggers(current: Value, channels: seq<Channel>, model: string, field: string) {
    channels != [] &&
    (Triggers(current, Lookup(channels[|channels| - 1].data, field, model)) || AnyTriggers(current, channels[..|channels| - 1], model, field))
  }

  predicate Included(local: PriceTable, channels: seq<Channel>, model: string, field: string) {
    AnyTriggers(Current(local, field, model), channels, model, field)
  }

  /** Every channel's cell, later channels overriding earlier ones of the same name. */
  function Cells(current: Value, channels: seq<Channel>, model: string, field: string): (r: map<string, Value>) {
    if channels == [] then map[]
    else
      var last := channels[|channels| - 1];
      Cells(current, channels[..|channels| - 1], model, field)[last.name := Cell(current, Lookup(last.data, field, model))]
  }

  // ---- Confidence ----

  function AsNumber(v: Option<Value>): (r: Option<real>) {
    if v.Some? && v.value.Num? then Some(v.value.number) else None
  }

  predicate PlaceholderPrice(ratio: Option<Value>, completion: Option<Value>) {
    var r, c := AsNumber(ratio), AsNumber(completion);
    r.Some? && c.Some? && NearlyEqual(r.value, 37.5) && NearlyEqual(c.value, 1.0)
  }

  function FieldOf(table: PriceTable, field: string): (r: map<string, Value>) {
    if field in table then table[field] else map[]
  }

  /** Pricing-style data is distrusted on models that carry the placeholder price. */
  function Confidence(data: PriceTable, model: string): (r: bool) {
    var ratios, completions := FieldOf(data, "model_ratio"), FieldOf(data, "completion_ratio");
    if |ratios| > 0 && |completions| > 0 then
      !(model in ratios && model in completions && PlaceholderPrice(Some(ratios[model]), Some(completions[model])))
    else true
  }

  function Confidences(channels: seq<Channel>, model: string): (r: map<string, bool>) {
    if channels == [] then map[]
    else
      var last := channels[|channels| - 1];
      Confidences(channels[..|channels| - 1], model)[last.name := Confidence(last.data, model)]
  }

  /** The table has a number here, this close to the given one. */
  ghost predicate HasNear(data: PriceTable, field: string, model: string, number: real) {
    && field in data && model in data[field] && data[field][model].Num?
    && -0.000000001 < data[field][model].number - number < 0.000000001
  }

  /** The flag is about the placeholder price alone; the test for pricing-style data never matters. */
  lemma ConfidenceIsPlaceholder(data: PriceTable, model: string)
    ensures Confidence(data, model) <==> !(HasNear(data, "model_ratio", model, 37.5) && HasNear(data, "completion_ratio", model, 1.0))
  {
    var ratios, completions := FieldOf(data, "model_ratio"), FieldOf(data, "completion_ratio");
    assert model in ratios ==> |ratios| > 0;
    assert model in completions ==> |completions| > 0;
  }

  // ---- The two passes ----

  /** The entry of the first pass: all channels listed. */
  function FullItem(local: PriceTable, channels: seq<Channel>, model: string, field: string): (r: Item) {
    var current := Current(local, field, model);
    Item(current, Cells(current, channels, model, field), Confidences(channels, model))
  }

  ghost function FirstPassFields(local: PriceTable, channels: seq<Channel>, fields: seq<string>, model: string): map<string, Item> {
    map field | field in fields && Included(local, channels, model, field) :: FullItem(local, channels, model, field)
  }

  ghost function FirstPass(local: PriceTable, channels: seq<Channel>, fields: seq<string>, models: set<string>): Differences {
    map model | model in models && FirstPassFields(local, channels, fields, model) != map[] ::
      FirstPassFields(local, channels, fields, model)
  }

  /** Channels with something to adopt in some entry. */
  function ChannelsWithDiff(differences: Differences): (r: set<string>) {
    set model, field, name | model in differences && field in differences[model]
      && name in differences[model][field].upstreams && IsReal(differences[model][field].upstreams[name]) :: name
  }

  function Kept(item: Item, listed: set<string>): (r: Item) {
    Item(item.current,
         map name | name in item.upstreams && name in listed :: item.upstreams[name],
         map name | name in item.confidence && name in listed :: item.confidence[name])
  }

  predicate Worthwhile(item: Item, listed: set<string>) {
    exists name <- item.upstreams :: name in listed && item.upstreams[name] != Same
  }

  function PrunedFields(items: map<string, Item>, listed: set<string>): (r: map<string, Item>) {
    map field | field in items && Worthwhile(items[field], listed) :: Kept(items[field], listed)
  }

  function Pruned(differences: Differences, listed: set<string>): (r: Differences) {
    map model | model in differences && PrunedFields(differences[model], listed) != map[] :: PrunedFields(differences[model], listed)
  }

  function ModelsIn(table: PriceTable, fields: seq<string>): (r: set<string>) {
    set field, model | field in fields && field in table && model in table[field] :: model
  }

  function AllModels(local: PriceTable, channels: seq<Channel>, fields: seq<string>): (r: set<string>) {
    if channels == [] then ModelsIn(local, fields)
    else AllModels(local, channels[..|channels| - 1], fields) + ModelsIn(channels[|channels| - 1].data, fields)
  }

  /** The value buildDifferences returns. */
  ghost function Diff(local: PriceTable, channels: seq<Channel>, fields: seq<string>): Differences {
    var all := FirstPass(local, channels, fields, AllModels(local, channels, fields));
    Pruned(all, ChannelsWithDiff(all))
  }

  /** One channel in the loop over channels: what it shows, and the two flags it may raise. */
  method CompareCell(current: Value, found: Option<Value>) returns (shown: Value, present: bool, different: bool)
    ensures shown == Cell(current, found)
    ensures present == found.Some?
    ensures current != Nil ==> (different <==> Differs(current, found))
  {
    shown, present, different := Nil, false, false;
    if found.Some? {
      shown, present := found.value, true;
      if current != Nil && !ValuesEqual(current, shown) {
        different := true;
      } else if ValuesEqual(current, shown) {
        shown := Same;
      }
    }
    if shown == Nil && current == Nil {
      shown := Same;
    }
    if current == Nil && shown != Nil && shown != Same {
      different := true;
    }
  }

  /** The loop over channels for one model and field. */
  method CompareField(local: PriceTable, channels: seq<Channel>, model: string, field: string) returns (wanted: bool, item: Item)
    ensures wanted <==> Included(local, channels, model, field)
    ensures item == FullItem(local, channels, model, field)
  {
    var current := Current(local, field, model);
    var upstreams: map<string, Value> := map[];
    var confidence: map<string, bool> := map[];
    var hasUpstream, hasDifference := false, false;
    for i := 0 to |channels|
      invariant upstreams == Cells(current, channels[..i], model, field)
      invariant confidence == Confidences(channels[..i], model)
      invariant (if current != Nil then hasDifference else hasUpstream) <==> AnyTriggers(current, channels[..i], model, field)
    {
      var channel := channels[i];
      assert channels[..i + 1][..i] == channels[..i];
      var shown, present, different := CompareCell(current, Lookup(channel.data, field, model));
      hasUpstream, hasDifference := hasUpstream || present, hasDifference || different;
      upstreams := upstreams[channel.name := shown];
      confidence := confidence[channel.name := Confidence(channel.data, model)];
    }
    assert channels[..|channels|] == channels;
    wanted := if current != Nil then hasDifference else hasUpstream;
    item := Item(current, upstreams, confidence);
  }

  lemma FieldsStep(local: PriceTable, channels: seq<Channel>, done: seq<string>, field: string, model: string)
    ensures var before := FirstPassFields(local, channels, done, model);
            FirstPassFields(local, channels, done + [field], model) ==
            if Included(local, channels, model, field) then before[field := FullItem(local, channels, model, field)] else before
  {
  }

  /** The loop over fields for one model. */
  method CompareModel(local: PriceTable, channels: seq<Channel>, fields: seq<string>, model: string) returns (items: map<string, Item>)
    ensures items == FirstPassFields(local, channels, fields, model)
  {
    items := map[];
    for i := 0 to |fields|
      invariant items == FirstPassFields(local, channels, fields[..i], model)
    {
      var wanted, item := CompareField(local, channels, model, fields[i]);
      assert fields[..i + 1] == fields[..i] + [fields[i]];
      FieldsStep(local, channels, fields[..i], fields[i], model);
      if wanted {
        items := items[fields[i] := item];
      }
    }
    assert fields[..|fields|] == fields;
  }

  lemma ModelsStep(local: PriceTable, channels: seq<Channel>, fields: seq<string>, done: set<string>, model: string)
    ensures var before, items := FirstPass(local, channels, fields, done), FirstPassFields(local, channels, fields, model);
            model !in done ==>
            FirstPass(local, channels, fields, done + {model}) == if items != map[] then before[model := items] else before
  {
  }

  /** The loop over models, in any order. */
  method CompareAll(local: PriceTable, channels: seq<Channel>, fields: seq<string>, models: set<string>) returns (all: Differences)
    ensures all == FirstPass(local, channels, fields, models)
  {
    all := map[];
    var todo := models;
    ghost var done: set<string> := {};
    while todo != {}
      invariant done + todo == models && done !! todo
      invariant all == FirstPass(local, channels, fields, done)
      decreases todo
    {
      var model :| model in todo;
      var items := CompareModel(local, channels, fields, model);
      ModelsStep(local, channels, fields, done, model);
      if items != map[] {
        all := all[model := items];
      }
      todo := todo - {model};
      done := done + {model};
    }
    assert done == models;
  }

  /** One model's entries when the listed fields are still to be pruned. */
  function PrunedExcept(items: map<string, Item>, listed: set<string>, todo: set<string>): (r: map<string, Item>) {
    map field | field in items && (field in todo || Worthwhile(items[field], listed)) ::
      if field in todo then items[field] else Kept(items[field], listed)
  }

  lemma PrunedFieldStep(items: map<string, Item>, listed: set<string>, todo: set<string>, field: string)
    requires field in todo && todo <= items.Keys
    ensures var before := PrunedExcept(items, listed, todo);
            PrunedExcept(items, listed, todo - {field}) ==
            if Worthwhile(items[field], listed) then before[field := Kept(items[field], listed)] else before - {field}
  {
  }

  /** The pruning loop over one model's fields, in any order. */
  method PruneModel(items: map<string, Item>, listed: set<string>) returns (kept: map<string, Item>)
    ensures kept == PrunedFields(items, listed)
  {
    kept := items;
    var todo := items.Keys;
    while todo != {}
      invariant todo <= items.Keys
      invariant kept == PrunedExcept(items, listed, todo)
      decreases todo
    {
      var field :| field in todo;
      PrunedFieldStep(items, listed, todo, field);
      if Worthwhile(items[field], listed) {
        kept := kept[field := Kept(items[field], listed)];
      } else {
        kept := kept - {field};
      }
      todo := todo - {field};
    }
  }

  /** Every model's entries pruned. */
  function PrunedEach(all: Differences, listed: set<string>): (r: Differences)
    ensures r.Keys == all.Keys
  {
    map model | model in all :: PrunedFields(all[model], listed)
  }

  /** The entries when the listed models are still to be pruned; a model left without entries is gone. */
  function PrunedModelsExcept(all: Differences, pruned: Differences, todo: set<string>): (r: Differences)
    requires pruned.Keys == all.Keys
  {
    map model | model in all && (model in todo || pruned[model] != map[]) :: if model in todo then all[model] else pruned[model]
  }

  lemma PrunedModelStep(all: Differences, pruned: Differences, todo: set<string>, model: string)
    requires pruned.Keys == all.Keys && model in todo && todo <= all.Keys
    ensures var before, items := PrunedModelsExcept(all, pruned, todo), pruned[model];
            PrunedModelsExcept(all, pruned, todo - {model}) == if items == map[] then before - {model} else before[model := items]
  {
  }

  lemma AllPruned(all: Differences, listed: set<string>)
    ensures PrunedModelsExcept(all, PrunedEach(all, listed), {}) == Pruned(all, listed)
  {
  }

  /** The pruning loop over models, in any order. */
  method Prune(all: Differences, listed: set<string>) returns (kept: Differences)
    ensures kept == Pruned(all, listed)
  {
    ghost var pruned := PrunedEach(all, listed);
    kept := all;
    var todo := all.Keys;
    while todo != {}
      invariant todo <= all.Keys
      invariant kept == PrunedModelsExcept(all, pruned, todo)
      decreases todo
    {
      var model :| model in todo;
      PrunedModelStep(all, pruned, todo, model);
      var items := PruneModel(all[model], listed);
      if items == map[] {
        kept := kept - {model};
      } else {
        kept := kept[model := items];
      }
      todo := todo - {model};
    }
    AllPruned(all, listed);
  }

  method BuildDifferences(local: PriceTable, channels: seq<Channel>, fields: seq<string>) returns (differences: Differences)
    ensures differences == Diff(local, channels, fields)
  {
    var all := CompareAll(local, channels, fields, AllModels(local, channels, fields));
    differences := Prune(all, ChannelsWithDiff(all));
  }
}

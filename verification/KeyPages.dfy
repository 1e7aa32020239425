/** The paged status view of a multi-key channel. */
module KeyPages {
  import opened Lists
  import opened KeyRecords

  datatype KeyStatus = KeyStatus(index: int, status: int, disabledTime: int, reason: string, preview: string)

  datatype Page = Page(keys: seq<KeyStatus>, total: int, page: int, pageSize: int, totalPages: int,
                       enabled: int, manuallyDisabled: int, autoDisabled: int)

  const DefaultPageSize := 50
  const PreviewLength := 10

  function OrElse<T>(found: Option<T>, default: T): (r: T) {
    if found.Some? then found.value else default
  }

  function Preview(key: string): (r: string) {
    if |key| > PreviewLength then key[..PreviewLength] + "..." else key
  }

  /** What the view shows of one record: time and reason only for a key that is not enabled. */
  function Shown(record: Record, index: int): (r: KeyStatus) {
    if record.status != Enabled
    then KeyStatus(index, record.status, OrElse(record.time, 0), OrElse(record.reason, ""), Preview(record.key))
    else KeyStatus(index, record.status, 0, "", Preview(record.key))
  }

  function View(records: seq<Record>): (r: seq<KeyStatus>)
    ensures |r| == |records| && forall i :: 0 <= i < |r| ==> r[i] == Shown(records[i], i)
  {
    seq(|records|, i requires 0 <= i < |records| => Shown(records[i], i))
  }

  /** What the view shows of a key: its position, its status, a time and a reason only when it is not enabled,
      and no more of the key than its first ten characters. */
  lemma ViewIs(records: seq<Record>, i: nat)
    requires i < |records|
    ensures var shown, record := View(records)[i], records[i];
            && shown.index == i && shown.status == record.status
            && shown.disabledTime == (if record.status != 1 && record.time.Some? then record.time.value else 0)
            && shown.reason == (if record.status != 1 && record.reason.Some? then record.reason.value else "")
            && shown.preview == if |record.key| <= 10 then record.key else record.key[..10] + "..."
  {
  }

  function WithStatus(view: seq<KeyStatus>, status: int): (r: seq<KeyStatus>) {
    Filter(view, (k: KeyStatus) => k.status == status)
  }

  function Filtered(view: seq<KeyStatus>, filter: Option<int>): (r: seq<KeyStatus>) {
    if filter.Some? then WithStatus(view, filter.value) else view
  }

  function TotalPages(total: nat, pageSize: int): (r: int)
    requires pageSize > 0
    ensures r >= 1
  {
    var pages := (total + pageSize - 1) / pageSize;
    if pages <= 0 then 1 else pages
  }

  /** One page of a list, pages counted from one. */
  function Slice<T>(list: seq<T>, page: int, pageSize: int): (r: seq<T>)
    requires page >= 1 && pageSize > 0
  {
    var start := (page - 1) * pageSize;
    if start < |list| then (StartNonNegative(page, pageSize); list[start..Min(start + pageSize, |list|)]) else []
  }

  function Min(a: int, b: int): (r: int) {
    if a > b then b else a
  }

  lemma StartNonNegative(page: int, pageSize: int)
    requires page >= 1 && pageSize > 0
    ensures (page - 1) * pageSize >= 0
  {
  }

  lemma WithStatusSnoc(view: seq<KeyStatus>, i: nat, status: int)
    requires i < |view|
    ensures WithStatus(view[..i + 1], status) == WithStatus(view[..i], status) + if view[i].status == status then [view[i]] else []
  {
    assert view[..i + 1] == view[..i] + [view[i]];
    FilterConcat(view[..i], [view[i]], (k: KeyStatus) => k.status == status);
    assert [view[i]][1..] == [];
  }

  /** The loop that builds the whole view and the three counts. */
  method BuildView(keys: seq<string>, info: Info) returns (view: seq<KeyStatus>, enabled: int, manual: int, automatic: int)
    ensures view == View(Records(keys, info))
    ensures enabled == |WithStatus(view, Enabled)|
    ensures manual == |WithStatus(view, ManuallyDisabled)|
    ensures automatic == |WithStatus(view, AutoDisabled)|
  {
    ghost var whole := View(Records(keys, info));
    view, enabled, manual, automatic := [], 0, 0, 0;
    for i := 0 to |keys|
      invariant view == whole[..i]
      invariant enabled == |WithStatus(view, Enabled)|
      invariant manual == |WithStatus(view, ManuallyDisabled)|
      invariant automatic == |WithStatus(view, AutoDisabled)|
    {
      WithStatusSnoc(whole, i, Enabled);
      WithStatusSnoc(whole, i, ManuallyDisabled);
      WithStatusSnoc(whole, i, AutoDisabled);
      var record := RecordAt(keys[i], info, i);
      if record.status == Enabled {
        enabled := enabled + 1;
      } else if record.status == ManuallyDisabled {
        manual := manual + 1;
      } else if record.status == AutoDisabled {
        automatic := automatic + 1;
      }
      view := view + [Shown(record, i)];
    }
  }

  method SelectStatus(view: seq<KeyStatus>, filter: Option<int>) returns (selected: seq<KeyStatus>)
    ensures selected == Filtered(view, filter)
  {
    if filter.None? {
      return view;
    }
    selected := [];
    for i := 0 to |view|
      invariant selected == WithStatus(view[..i], filter.value)
    {
      WithStatusSnoc(view, i, filter.value);
      if view[i].status == filter.value {
        selected := selected + [view[i]];
      }
    }
    assert view[..|view|] == view;
  }

  /** get_key_status */
  method GetKeyStatus(keys: seq<string>, info: Info, page: int, pageSize: int, filter: Option<int>) returns (r: Page)
    ensures var view := View(Records(keys, info));
            && r.enabled == |WithStatus(view, 1)|
            && r.manuallyDisabled == |WithStatus(view, 2)|
            && r.autoDisabled == |WithStatus(view, 3)|
            && r.total == |Filtered(view, filter)|
            && r.pageSize == (if pageSize > 0 then pageSize else 50)
            && r.totalPages == TotalPages(|Filtered(view, filter)|, r.pageSize)
            && r.page == (if page <= 0 then 1 else Min(page, r.totalPages))
            && r.keys == Slice(Filtered(view, filter), r.page, r.pageSize)
  {
    var size := if pageSize <= 0 then DefaultPageSize else pageSize;
    var view, enabled, manual, automatic := BuildView(keys, info);
    var selected := SelectStatus(view, filter);
    var pages := TotalPages(|selected|, size);
    var current := if page <= 0 then 1 else page;
    if current > pages {
      current := pages;
    }
    r := Page(Slice(selected, current, size), |selected|, current, size, pages, enabled, manual, automatic);
  }

  // ---- Pages partition the list ----

  /** Pages one to count, one after the other. */
  function FirstPages<T>(list: seq<T>, count: nat, pageSize: int): (r: seq<T>)
    requires pageSize > 0
  {
    if count == 0 then [] else FirstPages(list, count - 1, pageSize) + Slice(list, count, pageSize)
  }

  lemma PrefixExtends<T>(list: seq<T>, start: nat, size: nat)
    ensures list[..Min(start, |list|)] + (if start < |list| then list[start..Min(start + size, |list|)] else []) ==
            list[..Min(start + size, |list|)]
  {
  }

  /** One more page, with the offsets as numbers. */
  lemma NextPage<T>(list: seq<T>, count: nat, pageSize: int, start: nat, stop: nat)
    requires pageSize > 0 && count > 0 && start == (count - 1) * pageSize && stop == start + pageSize
    requires FirstPages(list, count - 1, pageSize) == list[..Min(start, |list|)]
    ensures FirstPages(list, count, pageSize) == list[..Min(stop, |list|)]
  {
    PrefixExtends(list, start, pageSize);
  }

  lemma {:induction false} FirstPagesArePrefix<T>(list: seq<T>, count: nat, pageSize: int)
    requires pageSize > 0
    ensures 0 <= Min(count * pageSize, |list|)
    ensures FirstPages(list, count, pageSize) == list[..Min(count * pageSize, |list|)]
  {
    if count > 0 {
      FirstPagesArePrefix(list, count - 1, pageSize);
      StartNonNegative(count, pageSize);
      var start := (count - 1) * pageSize;
      var stop := start + pageSize;
      assert count * pageSize == stop;
      NextPage(list, count, pageSize, start, stop);
    }
  }

  lemma PagesCover(total: nat, pageSize: int)
    requires pageSize > 0
    ensures TotalPages(total, pageSize) * pageSize >= total
    ensures total > 0 ==> (TotalPages(total, pageSize) - 1) * pageSize < total
  {
    var sum := total + pageSize - 1;
    var pages := sum / pageSize;
    assert pages * pageSize + sum % pageSize == sum;
    assert (pages - 1) * pageSize == pages * pageSize - pageSize;
    if pages <= 0 {
      NoPages(pages, pageSize);
    }
  }

  lemma NoPages(pages: int, pageSize: int)
    requires pageSize > 0 && pages <= 0
    ensures pages * pageSize <= 0
  {
  }

  /** Pages one to the last, one after the other, are exactly the filtered list. */
  lemma PagesConcatenate<T>(list: seq<T>, pageSize: int)
    requires pageSize > 0
    ensures FirstPages(list, TotalPages(|list|, pageSize), pageSize) == list
  {
    FirstPagesArePrefix(list, TotalPages(|list|, pageSize), pageSize);
    PagesCover(|list|, pageSize);
  }

  /** Every page of a non-empty list shows something, and all but the last are full. */
  lemma PagesAreFull<T>(list: seq<T>, page: int, pageSize: int)
    requires pageSize > 0 && 1 <= page <= TotalPages(|list|, pageSize) && list != []
    ensures Slice(list, page, pageSize) != []
    ensures page < TotalPages(|list|, pageSize) ==> |Slice(list, page, pageSize)| == pageSize
  {
    var pages := TotalPages(|list|, pageSize);
    PagesCover(|list|, pageSize);
    Scaled(page - 1, pages - 1, pageSize);
    if page < pages {
      Scaled(page, pages - 1, pageSize);
    }
    StartNonNegative(page, pageSize);
    assert page * pageSize == (page - 1) * pageSize + pageSize;
  }

  lemma Scaled(a: int, b: int, size: int)
    requires a <= b && size > 0
    ensures a * size <= b * size
  {
    assert (b - a) * size >= 0;
  }

  /** The three counts add up to the number of keys exactly when every status is one of the three. */
  lemma {:induction false} CountsAddUpIff(view: seq<KeyStatus>)
    ensures var sum := |WithStatus(view, Enabled)| + |WithStatus(view, ManuallyDisabled)| + |WithStatus(view, AutoDisabled)|;
            sum <= |view| && (sum == |view| <==> forall k <- view :: k.status in {Enabled, ManuallyDisabled, AutoDisabled})
  {
    if view != [] {
      CountsAddUpIff(view[1..]);
      assert view == [view[0]] + view[1..];
    }
  }
}

/** The management actions on a multi-key channel, and their refinement of a plain list of key records. */
module KeyManager {
  import opened Lists
  import opened Text
  import opened KeyText
  import opened KeyRecords

  /** The stored row: the key text and the per-key state. */
  datatype State = State(key: string, info: Info)

  datatype Action =
    | DisableKey(index: Option<int>)
    | EnableKey(index: Option<int>)
    | EnableAllKeys
    | DisableAllKeys
    | DeleteKey(index: Option<int>)
    | DeleteDisabledKeys
    | AppendToKeys(lines: seq<string>)
    | MarkKey(usingKey: string, status: int, reason: string, now: int)

  function RecordsOf(s: State, io: Format): (r: seq<Record>)
    ensures |r| == |io.read(s.key)|
  {
    Records(io.read(s.key), s.info)
  }

  /** Channel.Update: an empty key keeps the stored text; the size is recounted and statuses beyond it are dropped. */
  function Updated(s: State, stored: string, io: Format): (r: State) {
    var text := if s.key != "" then s.key else stored;
    var size := |io.count(text)|;
    State(text, s.info.(size := size, status := map i | i in s.info.status && i < size :: s.info.status[i]))
  }

  predicate IndexIn(index: Option<int>, size: int) {
    index.Some? && 0 <= index.value < size
  }

  /** The first key equal to the one in use, as the status handler looks it up. */
  function IndexOf(keys: seq<string>, key: string): (r: int)
    ensures r == -1 <==> key !in keys
    ensures r != -1 ==> 0 <= r < |keys| && keys[r] == key && key !in keys[..r]
  {
    if keys == [] then -1
    else if keys[0] == key then 0
    else
      var rest := IndexOf(keys[1..], key);
      assert keys == [keys[0]] + keys[1..];
      if rest == -1 then -1 else (assert keys[..rest + 1] == [keys[0]] + keys[1..][..rest]; rest + 1)
  }

  /** handlerMultiKeyUpdate on the per-key maps; enabling leaves the time and the reason. */
  function Marked(info: Info, i: int, status: int, reason: string, now: int): (r: Info) {
    if status == Enabled then info.(status := info.status - {i})
    else info.(status := info.status[i := status], reasons := info.reasons[i := reason], times := info.times[i := now])
  }

  function Enabling(info: Info, i: int): (r: Info) {
    info.(status := info.status - {i}, times := info.times - {i}, reasons := info.reasons - {i})
  }

  /** Writing a shortened list back: the keys joined by newlines, the maps renumbered. */
  function WrittenBack(s: State, records: seq<Record>, io: Format): (r: State) {
    Updated(State(io.join(KeysOf(records)), Rebuilt(records)), s.key, io)
  }

  predicate SomeEnabled(status: map<int, int>, size: int) {
    exists i :: 0 <= i < size && StatusAt(status, i) == Enabled
  }

  predicate SomeAutoDisabled(records: seq<Record>) {
    exists r <- records :: r.status == AutoDisabled
  }

  function AfterDisable(s: State, index: Option<int>, io: Format): (r: State) {
    if IndexIn(index, s.info.size)
    then Updated(s.(info := s.info.(status := s.info.status[index.value := ManuallyDisabled])), s.key, io)
    else s
  }

  function AfterEnable(s: State, index: Option<int>, io: Format): (r: State) {
    if IndexIn(index, s.info.size) then Updated(s.(info := Enabling(s.info, index.value)), s.key, io) else s
  }

  function AfterEnableAll(s: State, io: Format): (r: State) {
    Updated(s.(info := Info(s.info.size, map[], map[], map[])), s.key, io)
  }

  function AfterDisableAll(s: State, io: Format): (r: State) {
    if SomeEnabled(s.info.status, s.info.size)
    then Updated(s.(info := s.info.(status := AllDisabled(s.info.status, s.info.size))), s.key, io)
    else s
  }

  function AfterDelete(s: State, index: Option<int>, io: Format): (r: State) {
    if IndexIn(index, s.info.size) && Dropped(RecordsOf(s, io), index.value) != []
    then WrittenBack(s, Dropped(RecordsOf(s, io), index.value), io)
    else s
  }

  function AfterDeleteDisabled(s: State, io: Format): (r: State) {
    if SomeAutoDisabled(RecordsOf(s, io)) then WrittenBack(s, Survivors(RecordsOf(s, io)), io) else s
  }

  function AfterAppend(s: State, lines: seq<string>, io: Format): (r: State) {
    Updated(s.(key := Appended(s.key, lines, io)), s.key, io)
  }

  function AfterMark(s: State, usingKey: string, status: int, reason: string, now: int, io: Format): (r: State) {
    var i := IndexOf(io.read(s.key), usingKey);
    if i == -1 then s else s.(info := Marked(s.info, i, status, reason, now))
  }

  /** The stored row after one action. */
  function Step(s: State, a: Action, io: Format): (r: State) {
    match a
    case DisableKey(index) => AfterDisable(s, index, io)
    case EnableKey(index) => AfterEnable(s, index, io)
    case EnableAllKeys => AfterEnableAll(s, io)
    case DisableAllKeys => AfterDisableAll(s, io)
    case DeleteKey(index) => AfterDelete(s, index, io)
    case DeleteDisabledKeys => AfterDeleteDisabled(s, io)
    case AppendToKeys(lines) => AfterAppend(s, lines, io)
    case MarkKey(usingKey, status, reason, now) => AfterMark(s, usingKey, status, reason, now, io)
  }

  /** The row of a multi-key channel, changed in place by each action. */
  class MultiKeyChannel {
    var key: string
    var size: int
    var status: map<int, int>
    var times: map<int, int>
    var reasons: map<int, string>
    const decode: Decoder
    const io: Format := Newline(decode)

    function Stored(): (s: State)
      reads this
    {
      State(key, Info(size, status, times, reasons))
    }

    constructor (row: State, decoder: Decoder)
      ensures Stored() == row && decode == decoder
    {
      key, size, status, times, reasons := row.key, row.info.size, row.info.status, row.info.times, row.info.reasons;
      decode := decoder;
    }

    /** Update, with the stored text passed for the case of an empty key. */
    method Update(stored: string)
      modifies this
      ensures Stored() == Updated(old(Stored()), stored, io)
    {
      if key == "" {
        key := stored;
      }
      var keys := io.count(key);
      size := |keys|;
      status := map i | i in status && i < size :: status[i];
    }

    method DisableKey(index: Option<int>) returns (ok: bool)
      modifies this
      ensures Stored() == AfterDisable(old(Stored()), index, io)
      ensures ok == IndexIn(index, old(size))
    {
      if index.None? || index.value < 0 || index.value >= size {
        return false;
      }
      status := status[index.value := ManuallyDisabled];
      Update(key);
      ok := true;
    }

    method EnableKey(index: Option<int>) returns (ok: bool)
      modifies this
      ensures Stored() == AfterEnable(old(Stored()), index, io)
      ensures ok == IndexIn(index, old(size))
    {
      if index.None? || index.value < 0 || index.value >= size {
        return false;
      }
      status, times, reasons := status - {index.value}, times - {index.value}, reasons - {index.value};
      Update(key);
      ok := true;
    }

    method EnableAllKeys() returns (count: nat)
      modifies this
      ensures Stored() == AfterEnableAll(old(Stored()), io)
      ensures count == |old(status)|
    {
      count := |status|;
      status, times, reasons := map[], map[], map[];
      Update(key);
    }

    method DisableAllKeys() returns (ok: bool)
      modifies this
      ensures Stored() == AfterDisableAll(old(Stored()), io)
      ensures ok == SomeEnabled(old(status), old(size))
    {
      var next, count := DisableEnabled(status, size);
      if count == 0 {
        return false;
      }
      status := next;
      Update(key);
      ok := true;
    }

    method DeleteKey(index: Option<int>) returns (ok: bool)
      modifies this
      ensures Stored() == AfterDelete(old(Stored()), index, io)
      ensures ok == (IndexIn(index, old(size)) && Dropped(RecordsOf(old(Stored()), io), index.value) != [])
    {
      if index.None? || index.value < 0 || index.value >= size {
        return false;
      }
      var remaining, kept := RemoveAt(io.read(key), Stored().info, index.value);
      if |remaining| == 0 {
        return false;
      }
      Rewrite(remaining, kept);
      ok := true;
    }

    method DeleteDisabledKeys() returns (deleted: nat)
      modifies this
      ensures Stored() == AfterDeleteDisabled(old(Stored()), io)
      ensures deleted == 0 <==> !SomeAutoDisabled(RecordsOf(old(Stored()), io))
    {
      ghost var records := RecordsOf(Stored(), io);
      var remaining, kept, count := RemoveAutoDisabled(io.read(key), Stored().info);
      SurvivorsMembers(records);
      deleted := count;
      if deleted == 0 {
        return;
      }
      Rewrite(remaining, kept);
    }

    /** Assigns the shortened list and saves. */
    method Rewrite(remaining: seq<string>, kept: Info)
      modifies this
      ensures Stored() == Updated(State(io.join(remaining), kept), old(key), io)
    {
      var stored := key;
      key := io.join(remaining);
      size, status, times, reasons := |remaining|, kept.status, kept.times, kept.reasons;
      Update(stored);
    }

    method AppendToKeys(input: string)
      modifies this
      ensures Stored() == AfterAppend(old(Stored()), Split(input, '\n'), io)
    {
      var stored := key;
      key := AppendKeys(key, input, decode);
      Update(stored);
    }

    /** The status handler; returns whether the key was found. */
    method MarkKey(usingKey: string, next: int, reason: string, now: int) returns (found: bool)
      modifies this
      ensures Stored() == AfterMark(old(Stored()), usingKey, next, reason, now, io)
      ensures found == (usingKey in io.read(old(key)))
    {
      var i := FindKey(io.read(key), usingKey);
      if i < 0 {
        return false;
      }
      if next == Enabled {
        status := status - {i};
      } else {
        status, reasons, times := status[i := next], reasons[i := reason], times[i := now];
      }
      found := true;
    }
  }

  method FindKey(keys: seq<string>, key: string) returns (index: int)
    ensures index == IndexOf(keys, key)
  {
    for i := 0 to |keys|
      invariant key !in keys[..i]
    {
      if keys[i] == key {
        return i;
      }
    }
    index := -1;
  }
}

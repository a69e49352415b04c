/**
  The saved record of script.js: the best time and the volume, kept under
  one key of the browser's storage. The storage itself is a parameter: an
  `Option` holding the parsed record, `None` when it is missing or cannot be
  parsed (both fall back to the defaults).
*/
module SaveData {
  import opened Options
  import opened Settings

  /** A parsed record: field name to value. */
  type Record = map<string, int>

  const TIME_KEY: string := "timeTick"
  const VOLUME_KEY: string := "volume"

  /** Reads a field; `None` plays the part of JavaScript's `undefined`. */
  function Get(data: Record, key: string): (v: Option<int>)
    ensures v.Some? <==> key in data
    ensures v.Some? ==> v.value == data[key]
  {
    if key in data then Some(data[key]) else None
  }

  /** A field value that JavaScript treats as true: present and not 0. */
  predicate Truthy(v: Option<int>) {
    v.Some? && v.value != 0
  }

  /** `loadData`: the stored record, or the defaults "no record yet" and "muted". */
  function LoadData(store: Option<Record>): (d: Record)
    ensures store.Some? ==> d == store.value
    ensures store.None? ==> d.Keys == {TIME_KEY, VOLUME_KEY} && d[TIME_KEY] == MAX_TICK && d[VOLUME_KEY] == 0
  {
    match store
    case Some(r) => r
    case None => map[TIME_KEY := MAX_TICK, VOLUME_KEY := 0]
  }

  /** `updateSaveData`: the loaded record with the given fields written over it, stored back. */
  function UpdateSaveData(store: Option<Record>, changes: Record): (s: Option<Record>)
    ensures s.Some?
    ensures s.value.Keys == LoadData(store).Keys + changes.Keys
    ensures forall k :: k in changes ==> s.value[k] == changes[k]
    ensures forall k :: k in LoadData(store) && k !in changes ==> s.value[k] == LoadData(store)[k]
  {
    Some(LoadData(store) + changes)
  }

  /**
    The test of `Fase.END.init`: save when the stored best time is missing
    or 0, or when the new time is nonzero and strictly better.
  */
  predicate ShouldSave(data: Record, time: int) {
    !Truthy(Get(data, TIME_KEY)) || (time != 0 && time < data[TIME_KEY])
  }

  /** The save step of `Fase.END.init`: record `time` as the best time if it qualifies. */
  function SaveBest(store: Option<Record>, time: int): (s: Option<Record>)
    ensures ShouldSave(LoadData(store), time) ==>
      && s.Some?
      && Get(s.value, TIME_KEY) == Some(time)
      && forall k :: k in LoadData(store) && k != TIME_KEY ==> Get(s.value, k) == Get(LoadData(store), k)
    ensures !ShouldSave(LoadData(store), time) ==> s == store
  {
    if ShouldSave(LoadData(store), time) then UpdateSaveData(store, map[TIME_KEY := time]) else store
  }

  /** Saving the best time never touches the volume. */
  lemma SaveBestKeepsVolume(store: Option<Record>, time: int)
    ensures Get(LoadData(SaveBest(store, time)), VOLUME_KEY) == Get(LoadData(store), VOLUME_KEY)
  {
    if ShouldSave(LoadData(store), time) {
      assert VOLUME_KEY != TIME_KEY;
    }
  }

  /** Once a nonzero best time is stored, a later run can only lower it. */
  lemma BestNeverWorsens(store: Option<Record>, time: int)
    requires Truthy(Get(LoadData(store), TIME_KEY))
    ensures var after := Get(LoadData(SaveBest(store, time)), TIME_KEY);
      && Truthy(after)
      && after.value <= LoadData(store)[TIME_KEY]
  {
  }

  /**
    A first run of 45.23 s on an empty store sets the record; a second run
    of 50 s leaves it.
  */
  lemma BestTimeExample()
    ensures var first := SaveBest(None, 45230);
      && Get(LoadData(first), TIME_KEY) == Some(45230)
      && SaveBest(first, 50000) == first
  {
    assert MAX_TICK == 5999999;
  }
}

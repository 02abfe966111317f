/** `mergeKeys` (ui.go): the reconciliation of the configured keys with the
    keys the agent holds into the list the options page shows, and
    `lookupKey`, the search by name over that list. */
module Reconcile {
  import opened Wrappers
  import opened KeyTypes
  import opened Display
  import opened Counting
  import Base64

  // ---------------------------------------------------------------------
  // What mergeKeys builds, piece by piece

  /** `configuredMap`: each configured key under its id; of several
      entries with one id, the later one wins, as with Go map assignment. */
  function ConfiguredIndex(configured: seq<ConfiguredKey>): map<ID, ConfiguredKey>
    decreases |configured|
  {
    if configured == [] then map[]
    else
      var n := |configured| - 1;
      ConfiguredIndex(configured[..n])[configured[n].id := configured[n]]
  }

  /** A loaded key is recognised when its id is valid and configured. */
  predicate Recognised(l: LoadedKey, index: map<ID, ConfiguredKey>)
  {
    l.derivedId != InvalidID && l.derivedId in index
  }

  /** The entry mergeKeys emits for one loaded key. */
  function LoadedEntry(l: LoadedKey, index: map<ID, ConfiguredKey>): DisplayedKey
  {
    var blob := Base64.EncodeToString(l.blob);
    if Recognised(l, index) then
      DisplayedKey(l.derivedId, true, false, index[l.derivedId].name, l.keyType, blob)
    else
      DisplayedKey(InvalidID, true, false, "", l.keyType, blob)
  }

  /** The entries of the loaded keys, in the order of `loaded`. */
  function LoadedEntries(loaded: seq<LoadedKey>, index: map<ID, ConfiguredKey>): seq<DisplayedKey>
    decreases |loaded|
  {
    if loaded == [] then []
    else
      var n := |loaded| - 1;
      LoadedEntries(loaded[..n], index) + [LoadedEntry(loaded[n], index)]
  }

  /** `loadedIds`: the configured ids that some loaded key was recognised as. */
  function MatchedIds(loaded: seq<LoadedKey>, index: map<ID, ConfiguredKey>): set<ID>
  {
    set l | l in loaded && Recognised(l, index) :: l.derivedId
  }

  /** The entry mergeKeys emits for a configured key that is not loaded. */
  function UnloadedEntry(c: ConfiguredKey): DisplayedKey
  {
    DisplayedKey(c.id, false, c.encrypted, c.name, "", "")
  }

  /** The entries of the configured keys whose id is not in `matched`,
      in the order of `configured`. */
  function UnloadedEntries(configured: seq<ConfiguredKey>, matched: set<ID>): seq<DisplayedKey>
    decreases |configured|
  {
    if configured == [] then []
    else
      var n := |configured| - 1;
      var c := configured[n];
      UnloadedEntries(configured[..n], matched) + (if c.id in matched then [] else [UnloadedEntry(c)])
  }

  /** Everything mergeKeys emits, before sorting. */
  function Candidates(configured: seq<ConfiguredKey>, loaded: seq<LoadedKey>): seq<DisplayedKey>
  {
    var index := ConfiguredIndex(configured);
    LoadedEntries(loaded, index) + UnloadedEntries(configured, MatchedIds(loaded, index))
  }

  /** `r` is a result mergeKeys can return: exactly the candidate entries,
      none dropped, none merged, in the comparator's order. */
  predicate IsMergeOf(r: seq<DisplayedKey>, configured: seq<ConfiguredKey>, loaded: seq<LoadedKey>)
  {
    Sorted(r) && multiset(r) == multiset(Candidates(configured, loaded))
  }

  /** The configured keys that mergeKeys' third loop does not skip. */
  function Unmatched(matched: set<ID>): ConfiguredKey -> bool
  {
    (c: ConfiguredKey) => c.id !in matched
  }

  /** The third loop emits one entry per configured key it does not skip. */
  lemma {:induction false} UnloadedEntriesCount(configured: seq<ConfiguredKey>, matched: set<ID>)
    ensures |UnloadedEntries(configured, matched)| == CountWhere(configured, Unmatched(matched))
    decreases |configured|
  {
    if configured != [] {
      var n := |configured| - 1;
      var c := configured[n];
      UnloadedEntriesCount(configured[..n], matched);
      assert configured == configured[..n] + [c];
      CountAppend(configured[..n], [c], Unmatched(matched));
      assert [c][1..] == [];
    }
  }

  lemma MatchedIdsAppend(loaded: seq<LoadedKey>, l: LoadedKey, index: map<ID, ConfiguredKey>)
    ensures MatchedIds(loaded + [l], index) ==
      MatchedIds(loaded, index) + (if Recognised(l, index) then {l.derivedId} else {})
  {
    assert forall x :: x in loaded + [l] <==> x in loaded || x == l;
  }

  lemma {:induction false} LoadedEntriesLength(loaded: seq<LoadedKey>, index: map<ID, ConfiguredKey>)
    ensures |LoadedEntries(loaded, index)| == |loaded|
    decreases |loaded|
  {
    if loaded != [] {
      LoadedEntriesLength(loaded[..|loaded| - 1], index);
    }
  }

  /** One entry per loaded key, at the key's own position. */
  lemma {:induction false} LoadedEntriesAt(loaded: seq<LoadedKey>, index: map<ID, ConfiguredKey>)
    ensures |LoadedEntries(loaded, index)| == |loaded|
    ensures forall i :: 0 <= i < |loaded| ==> LoadedEntries(loaded, index)[i] == LoadedEntry(loaded[i], index)
    decreases |loaded|
  {
    if loaded != [] {
      var n := |loaded| - 1;
      var front := LoadedEntries(loaded[..n], index);
      LoadedEntriesAt(loaded[..n], index);
      assert LoadedEntries(loaded, index) == front + [LoadedEntry(loaded[n], index)];
      forall i | 0 <= i < n
        ensures LoadedEntries(loaded, index)[i] == LoadedEntry(loaded[i], index)
      {
        assert loaded[..n][i] == loaded[i];
      }
    }
  }

  // ---------------------------------------------------------------------
  // mergeKeys

  /** mergeKeys' first loop: the map of configured keys by id. */
  method BuildConfiguredMap(configured: seq<ConfiguredKey>) returns (configuredMap: map<ID, ConfiguredKey>)
    ensures configuredMap == ConfiguredIndex(configured)
  {
    configuredMap := map[];
    var i := 0;
    while i < |configured|
      invariant 0 <= i <= |configured|
      invariant configuredMap == ConfiguredIndex(configured[..i])
    {
      ConfiguredIndexStep(configured, i);
      configuredMap := configuredMap[configured[i].id := configured[i]];
      i := i + 1;
    }
    assert configured[..i] == configured;
  }

  /** mergeKeys' second loop: one entry per loaded key, and the set of
      configured ids recognised among them. */
  method AddLoadedKeys(loaded: seq<LoadedKey>, configuredMap: map<ID, ConfiguredKey>)
    returns (result: seq<DisplayedKey>, loadedIds: set<ID>)
    ensures result == LoadedEntries(loaded, configuredMap)
    ensures loadedIds == MatchedIds(loaded, configuredMap)
  {
    result := [];
    loadedIds := {};
    var j := 0;
    while j < |loaded|
      invariant 0 <= j <= |loaded|
      invariant result == LoadedEntries(loaded[..j], configuredMap)
      invariant loadedIds == MatchedIds(loaded[..j], configuredMap)
    {
      var l := loaded[j];
      var dk := DisplayedKey(InvalidID, true, false, "", l.keyType, Base64.EncodeToString(l.blob));
      var id := l.derivedId;
      if id != InvalidID {
        if id in configuredMap {
          loadedIds := loadedIds + {id};
          dk := dk.(id := id, name := configuredMap[id].name);
        }
      }
      LoadedStep(loaded, j, configuredMap);
      result := result + [dk];
      j := j + 1;
    }
    assert loaded[..j] == loaded;
  }

  /** mergeKeys' third loop: append an entry for each configured key whose
      id was not recognised. */
  method AddUnloadedKeys(configured: seq<ConfiguredKey>, loadedIds: set<ID>, entries: seq<DisplayedKey>)
    returns (result: seq<DisplayedKey>)
    ensures result == entries + UnloadedEntries(configured, loadedIds)
  {
    result := entries;
    var k := 0;
    while k < |configured|
      invariant 0 <= k <= |configured|
      invariant result == entries + UnloadedEntries(configured[..k], loadedIds)
    {
      UnloadedStep(configured, k, loadedIds);
      var a := configured[k];
      if a.id in loadedIds {
        k := k + 1;
        continue;
      }
      result := result + [UnloadedEntry(a)];
      k := k + 1;
    }
    assert configured[..k] == configured;
  }

  /** mergeKeys: the entries of all loaded keys and of the configured keys
      not loaded, sorted by (Name, Blob, ID). */
  method MergeKeys(configured: seq<ConfiguredKey>, loaded: seq<LoadedKey>)
    returns (result: seq<DisplayedKey>)
    ensures IsMergeOf(result, configured, loaded)
    ensures |result| == |loaded| +
      CountWhere(configured, Unmatched(MatchedIds(loaded, ConfiguredIndex(configured))))
  {
    var configuredMap := BuildConfiguredMap(configured);
    var loadedEntries, loadedIds := AddLoadedKeys(loaded, configuredMap);
    result := AddUnloadedKeys(configured, loadedIds, loadedEntries);
    LoadedEntriesLength(loaded, configuredMap);
    UnloadedEntriesCount(configured, loadedIds);
    // Sort to ensure consistent ordering.
    ghost var unsorted := result;
    result := SortKeys(result);
    assert |result| == |multiset(result)| == |multiset(unsorted)| == |unsorted|;
  }

  lemma ConfiguredIndexStep(configured: seq<ConfiguredKey>, i: nat)
    requires i < |configured|
    ensures ConfiguredIndex(configured[..i + 1]) ==
      ConfiguredIndex(configured[..i])[configured[i].id := configured[i]]
  {
    assert configured[..i + 1][..i] == configured[..i];
  }

  lemma LoadedStep(loaded: seq<LoadedKey>, j: nat, index: map<ID, ConfiguredKey>)
    requires j < |loaded|
    ensures LoadedEntries(loaded[..j + 1], index) ==
      LoadedEntries(loaded[..j], index) + [LoadedEntry(loaded[j], index)]
    ensures MatchedIds(loaded[..j + 1], index) == MatchedIds(loaded[..j], index) +
      (if Recognised(loaded[j], index) then {loaded[j].derivedId} else {})
  {
    assert loaded[..j + 1][..j] == loaded[..j];
    assert loaded[..j + 1] == loaded[..j] + [loaded[j]];
    MatchedIdsAppend(loaded[..j], loaded[j], index);
  }

  lemma UnloadedStep(configured: seq<ConfiguredKey>, k: nat, matched: set<ID>)
    requires k < |configured|
    ensures UnloadedEntries(configured[..k + 1], matched) == UnloadedEntries(configured[..k], matched) +
      (if configured[k].id in matched then [] else [UnloadedEntry(configured[k])])
  {
    assert configured[..k + 1][..k] == configured[..k];
  }

  // ---------------------------------------------------------------------
  // lookupKey

  /** `lookupKey`: the first displayed entry with the given name, if any. */
  method LookupKey(disp: seq<DisplayedKey>, name: string) returns (r: Option<DisplayedKey>)
    ensures r.None? <==> forall i :: 0 <= i < |disp| ==> disp[i].name != name
    ensures r.Some? ==> exists i :: 0 <= i < |disp| && disp[i] == r.value && disp[i].name == name &&
                          forall j :: 0 <= j < i ==> disp[j].name != name
  {
    var i := 0;
    while i < |disp|
      invariant 0 <= i <= |disp|
      invariant forall j :: 0 <= j < i ==> disp[j].name != name
    {
      if disp[i].name == name {
        return Some(disp[i]);
      }
      i := i + 1;
    }
    return None;
  }
}

/** What mergeKeys promises about its result, proved of every result that
    `Reconcile.MergeKeys` can return (`IsMergeOf`). */
module MergeProperties {
  import opened KeyTypes
  import opened Display
  import opened Reconcile
  import opened Counting
  import Base64

  // ---------------------------------------------------------------------
  // The pieces of the merge

  /** `configuredMap` holds exactly the configured ids, each under a
      configured key with that id. */
  lemma {:induction false} ConfiguredIndexContents(configured: seq<ConfiguredKey>)
    ensures forall id :: id in ConfiguredIndex(configured) <==> exists x :: x in configured && x.id == id
    ensures forall id :: id in ConfiguredIndex(configured) ==>
      ConfiguredIndex(configured)[id] in configured && ConfiguredIndex(configured)[id].id == id
    decreases |configured|
  {
    if configured != [] {
      var n := |configured| - 1;
      ConfiguredIndexContents(configured[..n]);
      assert configured == configured[..n] + [configured[n]];
      assert forall y :: y in configured <==> y in configured[..n] || y == configured[n];
    }
  }

  /** Configured ids are unique: a key is known by its id. */
  ghost predicate UniqueIds(configured: seq<ConfiguredKey>)
  {
    forall x, y :: x in configured && y in configured && x.id == y.id ==> x == y
  }

  lemma IndexOfUnique(configured: seq<ConfiguredKey>, x: ConfiguredKey)
    requires UniqueIds(configured) && x in configured
    ensures x.id in ConfiguredIndex(configured) && ConfiguredIndex(configured)[x.id] == x
  {
    ConfiguredIndexContents(configured);
  }

  /** A loaded key is recognised exactly when its valid id is configured. */
  lemma RecognisedIff(configured: seq<ConfiguredKey>, l: LoadedKey)
    ensures Recognised(l, ConfiguredIndex(configured)) <==>
      l.derivedId != InvalidID && exists x :: x in configured && x.id == l.derivedId
  {
    ConfiguredIndexContents(configured);
  }

  lemma {:induction false} LoadedEntriesMembers(loaded: seq<LoadedKey>, index: map<ID, ConfiguredKey>)
    ensures forall e :: e in LoadedEntries(loaded, index) <==> exists m :: m in loaded && e == LoadedEntry(m, index)
  {
    LoadedEntriesAt(loaded, index);
    var es := LoadedEntries(loaded, index);
    forall e | e in es ensures exists m :: m in loaded && e == LoadedEntry(m, index) {
      var i :| 0 <= i < |es| && es[i] == e;
      assert loaded[i] in loaded;
    }
    forall m | m in loaded ensures LoadedEntry(m, index) in es {
      var i :| 0 <= i < |loaded| && loaded[i] == m;
      assert es[i] == LoadedEntry(m, index);
    }
  }

  lemma {:induction false} UnloadedEntriesMembers(configured: seq<ConfiguredKey>, matched: set<ID>)
    ensures forall e :: e in UnloadedEntries(configured, matched) <==>
      exists x :: x in configured && x.id !in matched && e == UnloadedEntry(x)
    decreases |configured|
  {
    if configured != [] {
      var n := |configured| - 1;
      UnloadedEntriesMembers(configured[..n], matched);
      assert configured == configured[..n] + [configured[n]];
      assert forall y :: y in configured <==> y in configured[..n] || y == configured[n];
    }
  }

  /** Every candidate entry is a loaded key's entry or an unmatched
      configured key's entry, and each of those is a candidate. */
  lemma CandidatesMembers(configured: seq<ConfiguredKey>, loaded: seq<LoadedKey>)
    ensures var index := ConfiguredIndex(configured);
      forall e :: e in Candidates(configured, loaded) <==>
        (exists m :: m in loaded && e == LoadedEntry(m, index)) ||
        (exists x :: x in configured && x.id !in MatchedIds(loaded, index) && e == UnloadedEntry(x))
  {
    var index := ConfiguredIndex(configured);
    LoadedEntriesMembers(loaded, index);
    UnloadedEntriesMembers(configured, MatchedIds(loaded, index));
  }

  // ---------------------------------------------------------------------
  // Loaded keys: every one shown, none dropped or merged

  /** Every loaded key has its entry in the merge: loaded, with the key's
      type and the base64 text of its blob. */
  lemma MergeShowsLoadedKey(configured: seq<ConfiguredKey>, loaded: seq<LoadedKey>,
                            r: seq<DisplayedKey>, i: nat)
    requires IsMergeOf(r, configured, loaded) && i < |loaded|
    ensures LoadedEntry(loaded[i], ConfiguredIndex(configured)) in r
    ensures var e := LoadedEntry(loaded[i], ConfiguredIndex(configured));
      e.loaded && e.keyType == loaded[i].keyType && e.blob == Base64.EncodeToString(loaded[i].blob)
  {
    var index := ConfiguredIndex(configured);
    LoadedEntriesMembers(loaded, index);
    assert LoadedEntry(loaded[i], index) in Candidates(configured, loaded);
    assert LoadedEntry(loaded[i], index) in multiset(r);
  }

  predicate IsLoaded(d: DisplayedKey)
  {
    d.loaded
  }

  /** The merge shows exactly as many loaded entries as there are loaded keys. */
  lemma MergeLoadedCount(configured: seq<ConfiguredKey>, loaded: seq<LoadedKey>, r: seq<DisplayedKey>)
    requires IsMergeOf(r, configured, loaded)
    ensures CountWhere(r, IsLoaded) == |loaded|
  {
    var index := ConfiguredIndex(configured);
    var les := LoadedEntries(loaded, index);
    var ues := UnloadedEntries(configured, MatchedIds(loaded, index));
    CountPermutation(r, les + ues, IsLoaded);
    CountAppend(les, ues, IsLoaded);
    LoadedEntriesAt(loaded, index);
    CountAll(les, IsLoaded);
    UnloadedEntriesMembers(configured, MatchedIds(loaded, index));
    assert forall k :: 0 <= k < |ues| ==> ues[k] in ues;
    CountNone(ues, IsLoaded);
  }

  /** A loaded key that carries no id, or an id nobody configured (a key
      loaded by other means, or removed while loaded), is shown without id
      or name. */
  lemma MergeUnrecognisedKey(configured: seq<ConfiguredKey>, loaded: seq<LoadedKey>,
                             r: seq<DisplayedKey>, i: nat)
    requires IsMergeOf(r, configured, loaded) && i < |loaded|
    requires loaded[i].derivedId == InvalidID ||
             forall x :: x in configured ==> x.id != loaded[i].derivedId
    ensures DisplayedKey(InvalidID, true, false, "", loaded[i].keyType,
                         Base64.EncodeToString(loaded[i].blob)) in r
  {
    RecognisedIff(configured, loaded[i]);
    MergeShowsLoadedKey(configured, loaded, r, i);
  }

  /** A loaded key whose id is configured is shown with that id and the
      configured name. */
  lemma MergeRecognisedKey(configured: seq<ConfiguredKey>, loaded: seq<LoadedKey>,
                           r: seq<DisplayedKey>, i: nat, x: ConfiguredKey)
    requires IsMergeOf(r, configured, loaded) && i < |loaded| && UniqueIds(configured)
    requires x in configured && x.id != InvalidID && loaded[i].derivedId == x.id
    ensures DisplayedKey(x.id, true, false, x.name, loaded[i].keyType,
                         Base64.EncodeToString(loaded[i].blob)) in r
  {
    IndexOfUnique(configured, x);
    MergeShowsLoadedKey(configured, loaded, r, i);
  }

  // ---------------------------------------------------------------------
  // Configured keys that are not loaded

  /** The configured ids some loaded key was recognised as. */
  lemma MatchedIdsIff(configured: seq<ConfiguredKey>, loaded: seq<LoadedKey>, id: ID)
    ensures id in MatchedIds(loaded, ConfiguredIndex(configured)) <==>
      id != InvalidID && (exists x :: x in configured && x.id == id) &&
      (exists m :: m in loaded && m.derivedId == id)
  {
    ConfiguredIndexContents(configured);
  }

  /** A configured key no loaded key was recognised as is shown not
      loaded, with its own name, id and encryption flag, no type, no blob. */
  lemma MergeShowsUnloadedKey(configured: seq<ConfiguredKey>, loaded: seq<LoadedKey>,
                              r: seq<DisplayedKey>, x: ConfiguredKey)
    requires IsMergeOf(r, configured, loaded) && x in configured
    requires x.id == InvalidID || forall m :: m in loaded ==> m.derivedId != x.id
    ensures DisplayedKey(x.id, false, x.encrypted, x.name, "", "") in r
  {
    var index := ConfiguredIndex(configured);
    MatchedIdsIff(configured, loaded, x.id);
    UnloadedEntriesMembers(configured, MatchedIds(loaded, index));
    assert UnloadedEntry(x) in Candidates(configured, loaded);
    assert UnloadedEntry(x) in multiset(r);
  }

  /** Entries shown as not loaded come from configured keys, and never
      carry the id of a key that is loaded: a matched configured key does
      not reappear. */
  lemma MergeUnloadedEntries(configured: seq<ConfiguredKey>, loaded: seq<LoadedKey>, r: seq<DisplayedKey>)
    requires IsMergeOf(r, configured, loaded)
    ensures forall e :: e in r && !e.loaded ==> exists x :: x in configured && e == UnloadedEntry(x)
    ensures forall e, m :: e in r && !e.loaded && m in loaded && e.id != InvalidID ==> m.derivedId != e.id
  {
    var index := ConfiguredIndex(configured);
    CandidatesMembers(configured, loaded);
    forall e | e in r
      ensures e in Candidates(configured, loaded)
    {
      assert e in multiset(r);
    }
    forall e, m | e in r && !e.loaded && m in loaded && e.id != InvalidID
      ensures m.derivedId != e.id
    {
      MatchedIdsIff(configured, loaded, e.id);
    }
  }

  /** With no two configured keys sharing an id, an unmatched configured
      key is the only entry with its id. */
  lemma MergeUnloadedKeyOnce(configured: seq<ConfiguredKey>, loaded: seq<LoadedKey>,
                             r: seq<DisplayedKey>, x: ConfiguredKey, hasId: DisplayedKey -> bool)
    requires IsMergeOf(r, configured, loaded)
    requires forall i, j :: 0 <= i < j < |configured| ==> configured[i].id != configured[j].id
    requires x in configured && x.id != InvalidID
    requires forall m :: m in loaded ==> m.derivedId != x.id
    requires forall e :: hasId(e) <==> e.id == x.id
    ensures CountWhere(r, hasId) == 1
  {
    var index := ConfiguredIndex(configured);
    var matched := MatchedIds(loaded, index);
    var les := LoadedEntries(loaded, index);
    var ues := UnloadedEntries(configured, matched);
    CountPermutation(r, les + ues, hasId);
    CountAppend(les, ues, hasId);
    LoadedCountOfId(loaded, index, x.id, hasId);
    MatchedIdsIff(configured, loaded, x.id);
    var i :| 0 <= i < |configured| && configured[i] == x;
    UnloadedCountOfId(configured, matched, x.id, hasId, i);
  }

  /** No loaded entry carries a valid id that no loaded key derives. */
  lemma LoadedCountOfId(loaded: seq<LoadedKey>, index: map<ID, ConfiguredKey>,
                        id: ID, hasId: DisplayedKey -> bool)
    requires id != InvalidID
    requires forall m :: m in loaded ==> m.derivedId != id
    requires forall e :: hasId(e) <==> e.id == id
    ensures CountWhere(LoadedEntries(loaded, index), hasId) == 0
  {
    var les := LoadedEntries(loaded, index);
    LoadedEntriesAt(loaded, index);
    forall k | 0 <= k < |les| ensures !hasId(les[k]) {
      assert loaded[k] in loaded;
    }
    CountNone(les, hasId);
  }

  lemma {:induction false} UnloadedCountOfId(configured: seq<ConfiguredKey>, matched: set<ID>,
                                             id: ID, hasId: DisplayedKey -> bool, i: nat)
    requires forall a, b :: 0 <= a < b < |configured| ==> configured[a].id != configured[b].id
    requires i < |configured| && configured[i].id == id && id !in matched
    requires forall e :: hasId(e) <==> e.id == id
    ensures CountWhere(UnloadedEntries(configured, matched), hasId) == 1
    decreases |configured|
  {
    var n := |configured| - 1;
    var front := UnloadedEntries(configured[..n], matched);
    var c := configured[n];
    var last := if c.id in matched then [] else [UnloadedEntry(c)];
    CountAppend(front, last, hasId);
    if i < n {
      UnloadedCountOfId(configured[..n], matched, id, hasId, i);
      assert c.id != id;
    } else {
      UnloadedEntriesMembers(configured[..n], matched);
      forall k | 0 <= k < |front| ensures !hasId(front[k]) {
        assert front[k] in front;
        var y :| y in configured[..n] && y.id !in matched && front[k] == UnloadedEntry(y);
        var j :| 0 <= j < n && configured[..n][j] == y;
      }
      CountNone(front, hasId);
    }
  }

  // ---------------------------------------------------------------------
  // Size and the empty case

  /** The merge has one entry per loaded key and one per unmatched
      configured key. */
  lemma MergeLength(configured: seq<ConfiguredKey>, loaded: seq<LoadedKey>, r: seq<DisplayedKey>)
    requires IsMergeOf(r, configured, loaded)
    ensures |r| == |loaded| + CountWhere(configured, Unmatched(MatchedIds(loaded, ConfiguredIndex(configured))))
  {
    LoadedEntriesLength(loaded, ConfiguredIndex(configured));
    UnloadedEntriesCount(configured, MatchedIds(loaded, ConfiguredIndex(configured)));
    assert |r| == |multiset(r)| == |multiset(Candidates(configured, loaded))|;
  }

  lemma MergeEmpty(r: seq<DisplayedKey>)
    requires IsMergeOf(r, [], [])
    ensures r == []
  {
    MergeLength([], [], r);
  }
}

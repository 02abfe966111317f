/** The order of the key table is a function of its contents: whatever
    order the manager returns the configured and loaded keys in, and
    whichever way `sort.Slice` breaks ties, mergeKeys shows the same list,
    provided the inputs are what the manager produces (unique, valid
    configured ids; a key's type is fixed by its blob). */
module MergeDeterminism {
  import opened KeyTypes
  import opened Display
  import opened Reconcile
  import opened MergeProperties
  import Base64

  /** Configured ids are unique and none is `InvalidID`. */
  ghost predicate WellFormedConfigured(configured: seq<ConfiguredKey>)
  {
    UniqueIds(configured) && forall x :: x in configured ==> x.id != InvalidID
  }

  /** Loaded keys with the same blob have the same type. */
  ghost predicate TypeFollowsBlob(loaded: seq<LoadedKey>)
  {
    forall m1, m2 :: m1 in loaded && m2 in loaded && m1.blob == m2.blob ==> m1.keyType == m2.keyType
  }

  /** Entries that agree on every compared field are the same entry. */
  ghost predicate KeyDetermines(m: multiset<DisplayedKey>)
  {
    forall a, b :: a in m && b in m && SortKey(a) == SortKey(b) ==> a == b
  }

  /** No entry of a sorted list sorts before its first. */
  lemma SortedHead(s: seq<DisplayedKey>, m: nat)
    requires Sorted(s) && m < |s|
    ensures !KeyLess(s[m], s[0])
  {
    if m == 0 {
      KeyLessIrreflexive(s[0]);
    }
  }

  lemma SortedTail(s: seq<DisplayedKey>)
    requires Sorted(s) && s != []
    ensures Sorted(s[1..])
  {
    var s' := s[1..];
    forall i, j | 0 <= i < j < |s'| ensures !KeyLess(s'[j], s'[i]) {
      assert s'[j] == s[j + 1] && s'[i] == s[i + 1];
    }
  }

  lemma KeyDeterminesSub(m1: multiset<DisplayedKey>, m2: multiset<DisplayedKey>)
    requires m1 <= m2 && KeyDetermines(m2)
    ensures KeyDetermines(m1)
  {
  }

  /** Two sorted non-empty arrangements of the same entries start with the
      same entry when the compared fields determine the entry. */
  lemma SortedHeadsEqual(s: seq<DisplayedKey>, t: seq<DisplayedKey>)
    requires Sorted(s) && Sorted(t) && multiset(s) == multiset(t) && s != []
    requires KeyDetermines(multiset(s))
    ensures t != [] && s[0] == t[0]
  {
    assert s[0] in multiset(t);
    assert t[0] in multiset(s);
    var m :| 0 <= m < |s| && s[m] == t[0];
    var k :| 0 <= k < |t| && t[k] == s[0];
    SortedHead(s, m);
    SortedHead(t, k);
    KeyLessTotal(s[0], t[0]);
  }

  /** Two sorted arrangements of the same entries are equal when the
      compared fields determine the entry. */
  lemma {:induction false} SortedUnique(s: seq<DisplayedKey>, t: seq<DisplayedKey>)
    requires Sorted(s) && Sorted(t) && multiset(s) == multiset(t)
    requires KeyDetermines(multiset(s))
    ensures s == t
    decreases |s|
  {
    if s == [] {
      assert |t| == |multiset(t)| == 0;
    } else {
      SortedHeadsEqual(s, t);
      TailMultiset(s);
      TailMultiset(t);
      SortedTail(s);
      SortedTail(t);
      KeyDeterminesSub(multiset(s[1..]), multiset(s));
      SortedUnique(s[1..], t[1..]);
      HeadTailEqual(s, t);
    }
  }

  lemma HeadTailEqual(s: seq<DisplayedKey>, t: seq<DisplayedKey>)
    requires s != [] && t != [] && s[0] == t[0] && s[1..] == t[1..]
    ensures s == t
  {
    assert s == [s[0]] + s[1..] && t == [t[0]] + t[1..];
  }

  lemma TailMultiset(s: seq<DisplayedKey>)
    requires s != []
    ensures multiset(s[1..]) == multiset(s) - multiset{s[0]}
  {
    assert s == [s[0]] + s[1..];
  }

  /** Two loaded keys' entries that agree on name, blob and id are equal. */
  lemma LoadedPairDetermine(loaded: seq<LoadedKey>, m1: LoadedKey, m2: LoadedKey, index: map<ID, ConfiguredKey>)
    requires TypeFollowsBlob(loaded) && m1 in loaded && m2 in loaded
    requires SortKey(LoadedEntry(m1, index)) == SortKey(LoadedEntry(m2, index))
    ensures LoadedEntry(m1, index) == LoadedEntry(m2, index)
  {
    Base64.EncodeInjective(m1.blob, m2.blob);
  }

  /** A loaded key's entry and an unmatched configured key's entry never
      agree on name, blob and id. */
  lemma MixedPairDiffer(configured: seq<ConfiguredKey>, loaded: seq<LoadedKey>, e: DisplayedKey, f: DisplayedKey)
    requires WellFormedConfigured(configured)
    requires e in Candidates(configured, loaded) && f in Candidates(configured, loaded)
    requires e.loaded && !f.loaded
    ensures SortKey(e) != SortKey(f)
  {
    var index := ConfiguredIndex(configured);
    var matched := MatchedIds(loaded, index);
    CandidatesMembers(configured, loaded);
    var m :| m in loaded && e == LoadedEntry(m, index);
    var x :| x in configured && x.id !in matched && f == UnloadedEntry(x);
    if Recognised(m, index) {
      assert m.derivedId in matched;
    }
  }

  /** Two candidate entries that agree on name, blob and id are equal. */
  lemma CandidatePairDetermine(configured: seq<ConfiguredKey>, loaded: seq<LoadedKey>, a: DisplayedKey, b: DisplayedKey)
    requires WellFormedConfigured(configured) && TypeFollowsBlob(loaded)
    requires a in Candidates(configured, loaded) && b in Candidates(configured, loaded)
    requires SortKey(a) == SortKey(b)
    ensures a == b
  {
    var index := ConfiguredIndex(configured);
    var matched := MatchedIds(loaded, index);
    CandidatesMembers(configured, loaded);
    if a.loaded && b.loaded {
      var ma :| ma in loaded && a == LoadedEntry(ma, index);
      var mb :| mb in loaded && b == LoadedEntry(mb, index);
      LoadedPairDetermine(loaded, ma, mb, index);
    } else if !a.loaded && !b.loaded {
      var xa :| xa in configured && xa.id !in matched && a == UnloadedEntry(xa);
      var xb :| xb in configured && xb.id !in matched && b == UnloadedEntry(xb);
      assert xa == xb;
    } else if a.loaded {
      MixedPairDiffer(configured, loaded, a, b);
    } else {
      MixedPairDiffer(configured, loaded, b, a);
    }
  }

  /** The candidates of well-formed inputs are determined by their
      compared fields. */
  lemma CandidatesKeyDetermine(configured: seq<ConfiguredKey>, loaded: seq<LoadedKey>)
    requires WellFormedConfigured(configured) && TypeFollowsBlob(loaded)
    ensures KeyDetermines(multiset(Candidates(configured, loaded)))
  {
    var cands := Candidates(configured, loaded);
    forall a, b | a in multiset(cands) && b in multiset(cands) && SortKey(a) == SortKey(b)
      ensures a == b
    {
      CandidatePairDetermine(configured, loaded, a, b);
    }
  }

  lemma {:induction false} LoadedEntriesAppend(a: seq<LoadedKey>, b: seq<LoadedKey>, index: map<ID, ConfiguredKey>)
    ensures LoadedEntries(a + b, index) == LoadedEntries(a, index) + LoadedEntries(b, index)
    decreases |b|
  {
    if b == [] {
      assert a + b == a;
    } else {
      var n := |b| - 1;
      assert (a + b)[..|a + b| - 1] == a + b[..n];
      LoadedEntriesAppend(a, b[..n], index);
    }
  }

  lemma {:induction false} UnloadedEntriesAppend(a: seq<ConfiguredKey>, b: seq<ConfiguredKey>, matched: set<ID>)
    ensures UnloadedEntries(a + b, matched) == UnloadedEntries(a, matched) + UnloadedEntries(b, matched)
    decreases |b|
  {
    if b == [] {
      assert a + b == a;
    } else {
      var n := |b| - 1;
      assert (a + b)[..|a + b| - 1] == a + b[..n];
      UnloadedEntriesAppend(a, b[..n], matched);
    }
  }

  lemma LoadedEntriesSnoc(p: seq<LoadedKey>, x: LoadedKey, index: map<ID, ConfiguredKey>)
    ensures LoadedEntries(p + [x], index) == LoadedEntries(p, index) + [LoadedEntry(x, index)]
  {
    assert (p + [x])[..|p|] == p;
  }

  /** Removing one loaded key at position k removes its entry. */
  lemma LoadedEntriesRemove(b: seq<LoadedKey>, k: nat, index: map<ID, ConfiguredKey>)
    requires k < |b|
    ensures multiset(LoadedEntries(b, index)) ==
      multiset(LoadedEntries(b[..k] + b[k + 1..], index)) + multiset{LoadedEntry(b[k], index)}
  {
    var p, q := b[..k], b[k + 1..];
    var ep, eq, ex := LoadedEntries(p, index), LoadedEntries(q, index), LoadedEntry(b[k], index);
    assert b == (p + [b[k]]) + q;
    LoadedEntriesAppend(p + [b[k]], q, index);
    LoadedEntriesSnoc(p, b[k], index);
    LoadedEntriesAppend(p, q, index);
    assert LoadedEntries(b, index) == ep + [ex] + eq;
    assert multiset(ep + [ex] + eq) == multiset(ep + eq) + multiset{ex};
  }

  /** Reordering the loaded keys only reorders their entries. */
  lemma {:induction false} LoadedEntriesPermutation(a: seq<LoadedKey>, b: seq<LoadedKey>, index: map<ID, ConfiguredKey>)
    requires multiset(a) == multiset(b)
    ensures multiset(LoadedEntries(a, index)) == multiset(LoadedEntries(b, index))
    decreases |a|
  {
    if a == [] {
      assert |b| == |multiset(b)| == 0;
    } else {
      var n := |a| - 1;
      var x := a[n];
      assert a == a[..n] + [x];
      assert x in multiset(b);
      var k :| 0 <= k < |b| && b[k] == x;
      var rest := b[..k] + b[k + 1..];
      assert b == b[..k] + [x] + b[k + 1..];
      assert multiset(rest) == multiset(b) - multiset{x};
      assert multiset(a[..n]) == multiset(a) - multiset{x};
      LoadedEntriesPermutation(a[..n], rest, index);
      LoadedEntriesRemove(b, k, index);
    }
  }

  lemma UnloadedEntriesSnoc(p: seq<ConfiguredKey>, x: ConfiguredKey, matched: set<ID>)
    ensures UnloadedEntries(p + [x], matched) ==
      UnloadedEntries(p, matched) + (if x.id in matched then [] else [UnloadedEntry(x)])
  {
    assert (p + [x])[..|p|] == p;
  }

  /** Removing one configured key at position k removes its entry, if it
      had one. */
  lemma UnloadedEntriesRemove(b: seq<ConfiguredKey>, k: nat, matched: set<ID>)
    requires k < |b|
    ensures multiset(UnloadedEntries(b, matched)) ==
      multiset(UnloadedEntries(b[..k] + b[k + 1..], matched)) +
      multiset(if b[k].id in matched then [] else [UnloadedEntry(b[k])])
  {
    var p, q := b[..k], b[k + 1..];
    var ep, eq := UnloadedEntries(p, matched), UnloadedEntries(q, matched);
    var ex := if b[k].id in matched then [] else [UnloadedEntry(b[k])];
    assert b == (p + [b[k]]) + q;
    UnloadedEntriesAppend(p + [b[k]], q, matched);
    UnloadedEntriesSnoc(p, b[k], matched);
    UnloadedEntriesAppend(p, q, matched);
    assert UnloadedEntries(b, matched) == ep + ex + eq;
    assert multiset(ep + ex + eq) == multiset(ep + eq) + multiset(ex);
  }

  /** Reordering the configured keys only reorders their entries. */
  lemma {:induction false} UnloadedEntriesPermutation(a: seq<ConfiguredKey>, b: seq<ConfiguredKey>, matched: set<ID>)
    requires multiset(a) == multiset(b)
    ensures multiset(UnloadedEntries(a, matched)) == multiset(UnloadedEntries(b, matched))
    decreases |a|
  {
    if a == [] {
      assert |b| == |multiset(b)| == 0;
    } else {
      var n := |a| - 1;
      var x := a[n];
      assert a == a[..n] + [x];
      assert x in multiset(b);
      var k :| 0 <= k < |b| && b[k] == x;
      var rest := b[..k] + b[k + 1..];
      assert b == b[..k] + [x] + b[k + 1..];
      assert multiset(rest) == multiset(b) - multiset{x};
      assert multiset(a[..n]) == multiset(a) - multiset{x};
      UnloadedEntriesPermutation(a[..n], rest, matched);
      UnloadedEntriesRemove(b, k, matched);
    }
  }

  /** With unique ids, configuredMap does not depend on the order of the
      configured keys. */
  lemma ConfiguredIndexPermutation(a: seq<ConfiguredKey>, b: seq<ConfiguredKey>)
    requires UniqueIds(a) && multiset(a) == multiset(b)
    ensures ConfiguredIndex(a) == ConfiguredIndex(b)
  {
    assert forall x :: x in a <==> x in b by {
      forall x ensures x in a <==> x in b {
        assert x in a <==> x in multiset(a);
        assert x in b <==> x in multiset(b);
      }
    }
    ConfiguredIndexContents(a);
    ConfiguredIndexContents(b);
    var ia, ib := ConfiguredIndex(a), ConfiguredIndex(b);
    assert ia.Keys == ib.Keys;
    forall id | id in ia ensures ia[id] == ib[id] {
      IndexOfUnique(b, ia[id]);
    }
  }

  lemma CandidatesPermutation(c1: seq<ConfiguredKey>, l1: seq<LoadedKey>,
                              c2: seq<ConfiguredKey>, l2: seq<LoadedKey>)
    requires UniqueIds(c1) && multiset(c1) == multiset(c2) && multiset(l1) == multiset(l2)
    ensures multiset(Candidates(c1, l1)) == multiset(Candidates(c2, l2))
  {
    ConfiguredIndexPermutation(c1, c2);
    var index := ConfiguredIndex(c1);
    assert forall m :: m in l1 <==> m in l2 by {
      forall m ensures m in l1 <==> m in l2 {
        assert m in l1 <==> m in multiset(l1);
        assert m in l2 <==> m in multiset(l2);
      }
    }
    assert MatchedIds(l1, index) == MatchedIds(l2, index);
    LoadedEntriesPermutation(l1, l2, index);
    UnloadedEntriesPermutation(c1, c2, MatchedIds(l1, index));
  }

  /** mergeKeys does not depend on the order of its inputs, nor on how the
      sort breaks ties: any two results for the same keys are equal. */
  lemma MergeOrderInvariant(c1: seq<ConfiguredKey>, l1: seq<LoadedKey>, r1: seq<DisplayedKey>,
                            c2: seq<ConfiguredKey>, l2: seq<LoadedKey>, r2: seq<DisplayedKey>)
    requires WellFormedConfigured(c1) && TypeFollowsBlob(l1)
    requires multiset(c1) == multiset(c2) && multiset(l1) == multiset(l2)
    requires IsMergeOf(r1, c1, l1) && IsMergeOf(r2, c2, l2)
    ensures r1 == r2
  {
    CandidatesPermutation(c1, l1, c2, l2);
    CandidatesKeyDetermine(c1, l1);
    SortedUnique(r1, r2);
  }

  /** Calling mergeKeys twice on the same keys gives the same list. */
  lemma MergeDeterministic(configured: seq<ConfiguredKey>, loaded: seq<LoadedKey>,
                           r1: seq<DisplayedKey>, r2: seq<DisplayedKey>)
    requires WellFormedConfigured(configured) && TypeFollowsBlob(loaded)
    requires IsMergeOf(r1, configured, loaded) && IsMergeOf(r2, configured, loaded)
    ensures r1 == r2
  {
    MergeOrderInvariant(configured, loaded, r1, configured, loaded, r2);
  }
}

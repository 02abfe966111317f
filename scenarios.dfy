/** The user-action scenarios of the options page's own tests, restated as
    verified methods over the model. The manager's replies are the ones its test backend gives;
    key id "1" stands for the id the backend assigns. */
module Scenarios {
  import opened Wrappers
  import opened KeyTypes
  import opened Display
  import opened Reconcile
  import opened OptionsUI
  import MergeProperties

  const NewKeyName := "new-key"
  const PrivateKey := "private-key"
  const NewKey := ConfiguredKey("1", NewKeyName, false)

  /** A single configured key that is not loaded is shown unloaded, with
      no type and no blob. */
  lemma MergeOneConfigured(x: ConfiguredKey, r: seq<DisplayedKey>)
    requires IsMergeOf(r, [x], [])
    ensures r == [DisplayedKey(x.id, false, x.encrypted, x.name, "", "")]
  {
    var index := ConfiguredIndex([x]);
    assert [x][..0] == [];
    assert MatchedIds([], index) == {};
    assert UnloadedEntries([x], {}) == UnloadedEntries([], {}) + [UnloadedEntry(x)];
    assert Candidates([x], []) == [UnloadedEntry(x)];
    assert |r| == |multiset(r)| == 1;
    assert r[0] in multiset(r);
  }

  /** A loaded key whose configured entry was removed is shown loaded,
      without id or name. */
  lemma MergeRemovedWhileLoaded(l: LoadedKey, r: seq<DisplayedKey>)
    requires IsMergeOf(r, [], [l])
    ensures r == [DisplayedKey(InvalidID, true, false, "", l.keyType, Base64.EncodeToString(l.blob))]
  {
    assert [l][..0] == [];
    assert ConfiguredIndex([]) == map[];
    assert LoadedEntries([l], map[]) == LoadedEntries([], map[]) + [LoadedEntry(l, map[])];
    assert UnloadedEntries([], MatchedIds([l], map[])) == [];
    assert Candidates([], [l]) == [LoadedEntry(l, map[])];
    assert |r| == |multiset(r)| == 1;
    assert r[0] in multiset(r);
  }

  lemma CandidatesForeignAndOwn(x: ConfiguredKey, foreign: LoadedKey, own: LoadedKey)
    requires x.id != InvalidID
    requires foreign.derivedId == InvalidID && own.derivedId == x.id
    ensures var index := map[x.id := x];
      Candidates([x], [foreign, own]) == [LoadedEntry(foreign, index), LoadedEntry(own, index)]
  {
    var index := ConfiguredIndex([x]);
    assert [x][..0] == [];
    assert index == ConfiguredIndex([])[x.id := x];
    var e1, e2 := LoadedEntry(foreign, index), LoadedEntry(own, index);
    assert [foreign, own][..1] == [foreign] && [foreign][..0] == [];
    assert LoadedEntries([foreign], index) == LoadedEntries([], index) + [e1];
    assert LoadedEntries([foreign, own], index) == LoadedEntries([foreign], index) + [e2];
    assert own in [foreign, own];
    assert MatchedIds([foreign, own], index) == {x.id};
    assert UnloadedEntries([x], {x.id}) == UnloadedEntries([], {x.id}) + [];
  }

  /** The only sorted arrangement of two entries, one before the other. */
  lemma SortedPair(r: seq<DisplayedKey>, e1: DisplayedKey, e2: DisplayedKey)
    requires KeyLess(e1, e2)
    requires Sorted(r) && multiset(r) == multiset{e1, e2}
    ensures r == [e1, e2]
  {
    KeyLessIrreflexive(e1);
    assert |r| == |multiset(r)| == 2;
    assert r == [r[0], r[1]];
    assert multiset{r[0], r[1]} == multiset{e1, e2};
    assert r[0] == e1;
    assert multiset{e1, r[1]} - multiset{e1} == multiset{e1, e2} - multiset{e1};
  }

  /** A key loaded straight into the agent sorts before the page's own
      loaded key, because its name is empty. */
  lemma MergeForeignAndOwn(x: ConfiguredKey, foreign: LoadedKey, own: LoadedKey, r: seq<DisplayedKey>)
    requires x.id != InvalidID && x.name != ""
    requires foreign.derivedId == InvalidID && own.derivedId == x.id
    requires IsMergeOf(r, [x], [foreign, own])
    ensures r == [DisplayedKey(InvalidID, true, false, "", foreign.keyType, Base64.EncodeToString(foreign.blob)),
                  DisplayedKey(x.id, true, false, x.name, own.keyType, Base64.EncodeToString(own.blob))]
  {
    var index := map[x.id := x];
    var e1, e2 := LoadedEntry(foreign, index), LoadedEntry(own, index);
    CandidatesForeignAndOwn(x, foreign, own);
    assert e1.name == "" && e2.name == x.name;
    assert KeyLess(e1, e2);
    SortedPair(r, e1, e2);
  }

  /** The manager calls of the refresh that runs when the page has loaded. */
  const PageLoadCalls := [Call(ConfiguredRequest), Call(LoadedRequest)]

  /** The page as the test harness brings it up: constructed, then refreshed
      once on DOMContentLoaded against a manager with no keys. */
  method LoadPage() returns (u: UI)
    ensures fresh(u) && u.Valid()
    ensures !u.addOpen && !u.passphraseOpen && !u.removeOpen
    ensures u.keys == [] && u.errorText == "" && u.log == PageLoadCalls
  {
    u := new UI();
    u.UpdateKeys(Replies(None, Ok([]), Ok([])));
    MergeProperties.MergeEmpty(u.keys);
  }

  /** The loaded page after the user opened the add dialog and typed a name
      and a private key. */
  method OpenAddDialog(name: string, key: string) returns (u: UI)
    ensures fresh(u) && u.Valid()
    ensures u.addOkBound && u.addCancelBound
    ensures u.addName == name && u.addKey == key
    ensures u.keys == [] && u.errorText == ""
    ensures u.log == PageLoadCalls + [OnClick(AddOk), OnClick(AddCancel), ShowModal(AddDialog)]
  {
    u := LoadPage();
    u.Add();
    u.Enter(AddNameField, name);
    u.Enter(AddKeyField, key);
  }

  /** "add key": the page shows the new key, unloaded, and no error; the
      dialog is closed before the manager is asked to add the key. */
  method AddKey() returns (u: UI)
    ensures u.keys == [DisplayedKey("1", false, false, NewKeyName, "", "")]
    ensures u.errorText == ""
    ensures u.log == [Call(ConfiguredRequest), Call(LoadedRequest),
                      OnClick(AddOk), OnClick(AddCancel), ShowModal(AddDialog),
                      RemoveEventListeners(AddOk), RemoveEventListeners(AddCancel), Close(AddDialog),
                      Call(AddRequest(NewKeyName, PrivateKey)), Call(ConfiguredRequest), Call(LoadedRequest)]
  {
    u := OpenAddDialog(NewKeyName, PrivateKey);
    var replies := Replies(None, Ok([NewKey]), Ok([]));
    u.ClickAddOk(replies);
    AddKeyLog(replies);
    MergeOneConfigured(NewKey, u.keys);
  }

  /** The effects of a successful add on the loaded page, in order. */
  lemma AddKeyLog(r: Replies)
    requires r.outcome.None? && r.configured.Ok?
    ensures PageLoadCalls + [OnClick(AddOk), OnClick(AddCancel), ShowModal(AddDialog)] +
            [RemoveEventListeners(AddOk), RemoveEventListeners(AddCancel), Close(AddDialog)] +
            CallsOf(AddRequest(NewKeyName, PrivateKey), r) ==
            [Call(ConfiguredRequest), Call(LoadedRequest),
             OnClick(AddOk), OnClick(AddCancel), ShowModal(AddDialog),
             RemoveEventListeners(AddOk), RemoveEventListeners(AddCancel), Close(AddDialog),
             Call(AddRequest(NewKeyName, PrivateKey)), Call(ConfiguredRequest), Call(LoadedRequest)]
  {
    assert CallsOf(AddRequest(NewKeyName, PrivateKey), r) ==
      [Call(AddRequest(NewKeyName, PrivateKey)), Call(ConfiguredRequest), Call(LoadedRequest)];
  }

  /** "add key cancelled by user": nothing is added, no call is made, the
      inputs are cleared. */
  method AddKeyCancelled() returns (u: UI)
    ensures u.keys == [] && u.errorText == ""
    ensures u.addName == "" && u.addKey == ""
    ensures |u.log| >= |PageLoadCalls| && u.log[..|PageLoadCalls|] == PageLoadCalls
    ensures forall i :: |PageLoadCalls| <= i < |u.log| ==> !u.log[i].Call?
  {
    u := OpenAddDialog(NewKeyName, PrivateKey);
    u.ClickAddCancel();
  }

  lemma AddFailureText(err: string)
    ensures "failed to " + "add" + " key: " + err == "failed to add key: " + err
  {
    assert "failed to " + "add" + " key: " == "failed to add key: ";
  }

  /** "add key fails": the manager's error is shown with the add prefix and
      the table stays empty. */
  method AddKeyFails() returns (u: UI)
    ensures u.keys == []
    ensures u.errorText == "failed to add key: " + "invalid name: name must not be empty"
  {
    u := OpenAddDialog("", PrivateKey);
    u.ClickAddOk(Replies(Some("invalid name: name must not be empty"), Ok([]), Ok([])));
    AddFailureText("invalid name: name must not be empty");
  }

  /** "load key", unencrypted: no passphrase dialog; the manager is asked
      to load with an empty passphrase. */
  method LoadUnencrypted(u: UI, l: LoadedKey)
    requires u.Valid()
    requires l.derivedId == NewKey.id
    modifies u
    ensures u.keys == [DisplayedKey("1", true, false, NewKeyName, l.keyType, Base64.EncodeToString(l.blob))]
    ensures u.errorText == "" && u.passphraseOpen == old(u.passphraseOpen)
  {
    u.Load(NewKey.id, false, Replies(None, Ok([NewKey]), Ok([l])));
    MergeOneLoaded(NewKey, l, u.keys);
  }

  /** A configured key that is loaded is shown once, loaded, with its name. */
  lemma MergeOneLoaded(x: ConfiguredKey, l: LoadedKey, r: seq<DisplayedKey>)
    requires x.id != InvalidID && l.derivedId == x.id
    requires IsMergeOf(r, [x], [l])
    ensures r == [DisplayedKey(x.id, true, false, x.name, l.keyType, Base64.EncodeToString(l.blob))]
  {
    var index := ConfiguredIndex([x]);
    assert [x][..0] == [] && [l][..0] == [];
    assert index == ConfiguredIndex([])[x.id := x];
    assert l in [l];
    assert LoadedEntries([l], index) == LoadedEntries([], index) + [LoadedEntry(l, index)];
    assert UnloadedEntries([x], {x.id}) == UnloadedEntries([], {x.id}) + [];
    assert MatchedIds([l], index) == {x.id};
    assert Candidates([x], [l]) == [LoadedEntry(l, index)];
    assert |r| == |multiset(r)| == 1;
    assert r[0] in multiset(r);
  }
}

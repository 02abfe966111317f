/** `displayedKey` from ui.go and everything that is decided per displayed
    entry: the order `mergeKeys` sorts by, the ids of a row's buttons, and
    the conversion back to a loaded key that the Unload button performs. */
module Display {
  import opened Wrappers
  import opened KeyTypes
  import StringOrder
  import Base64

  /** One row of the key table. `blob` is the base64 text of the key's
      public blob, empty for a key that is not loaded. */
  datatype DisplayedKey = DisplayedKey(
    id: ID,
    loaded: bool,
    encrypted: bool,
    name: string,
    keyType: string,
    blob: string)

  // ---------------------------------------------------------------------
  // The order of the key table (the `sort.Slice` comparator in mergeKeys)

  /** The comparator handed to `sort.Slice`, branch for branch. */
  predicate KeyLess(a: DisplayedKey, b: DisplayedKey)
    ensures KeyLess(a, b) ==> SortKey(a) != SortKey(b)
    ensures a.name == b.name && a.blob == b.blob ==> (KeyLess(a, b) <==> StringOrder.Less(a.id, b.id))
  {
    StringOrder.Irreflexive(a.name);
    StringOrder.Irreflexive(a.blob);
    StringOrder.Irreflexive(a.id);
    if StringOrder.Less(a.name, b.name) then true
    else if StringOrder.Less(b.name, a.name) then false
    else if StringOrder.Less(a.blob, b.blob) then true
    else if StringOrder.Less(b.blob, a.blob) then false
    else StringOrder.Less(a.id, b.id)
  }

  /** The fields the comparator looks at, in the order it looks at them. */
  function SortKey(d: DisplayedKey): (string, string, string)
  {
    (d.name, d.blob, d.id)
  }

  /** No entry is placed after an entry that the comparator puts before it. */
  predicate Sorted(s: seq<DisplayedKey>)
  {
    forall i, j :: 0 <= i < j < |s| ==> !KeyLess(s[j], s[i])
  }

  /** The comparator is the strict lexicographic order on (name, blob, id). */
  lemma KeyLessIsLexicographic(a: DisplayedKey, b: DisplayedKey)
    ensures KeyLess(a, b) <==>
      StringOrder.Less(a.name, b.name) ||
      (a.name == b.name && StringOrder.Less(a.blob, b.blob)) ||
      (a.name == b.name && a.blob == b.blob && StringOrder.Less(a.id, b.id))
  {
    StringOrder.Total(a.name, b.name);
    StringOrder.Total(a.blob, b.blob);
    StringOrder.Asymmetric(a.name, b.name);
    StringOrder.Asymmetric(a.blob, b.blob);
    StringOrder.Irreflexive(a.name);
    StringOrder.Irreflexive(a.blob);
  }

  lemma KeyLessAsymmetric(a: DisplayedKey, b: DisplayedKey)
    ensures KeyLess(a, b) ==> !KeyLess(b, a)
  {
    KeyLessIsLexicographic(a, b);
    KeyLessIsLexicographic(b, a);
    StringOrder.Asymmetric(a.name, b.name);
    StringOrder.Asymmetric(a.blob, b.blob);
    StringOrder.Asymmetric(a.id, b.id);
  }

  /** Two entries that neither precedes agree on every compared field. */
  lemma KeyLessTotal(a: DisplayedKey, b: DisplayedKey)
    ensures KeyLess(a, b) || KeyLess(b, a) || SortKey(a) == SortKey(b)
  {
    KeyLessIsLexicographic(a, b);
    KeyLessIsLexicographic(b, a);
    StringOrder.Total(a.name, b.name);
    StringOrder.Total(a.blob, b.blob);
    StringOrder.Total(a.id, b.id);
  }

  lemma KeyLessTransitive(a: DisplayedKey, b: DisplayedKey, c: DisplayedKey)
    requires KeyLess(a, b) && KeyLess(b, c)
    ensures KeyLess(a, c)
  {
    KeyLessIsLexicographic(a, b);
    KeyLessIsLexicographic(b, c);
    KeyLessIsLexicographic(a, c);
    StringOrder.Irreflexive(a.name);
    StringOrder.Irreflexive(a.blob);
    if StringOrder.Less(a.name, b.name) && StringOrder.Less(b.name, c.name) {
      StringOrder.Transitive(a.name, b.name, c.name);
    }
    if a.name == b.name == c.name {
      if StringOrder.Less(a.blob, b.blob) && StringOrder.Less(b.blob, c.blob) {
        StringOrder.Transitive(a.blob, b.blob, c.blob);
      }
      if a.blob == b.blob == c.blob {
        StringOrder.Irreflexive(b.name);
        StringOrder.Irreflexive(b.blob);
        StringOrder.Transitive(a.id, b.id, c.id);
      }
    }
  }

  lemma KeyLessIrreflexive(a: DisplayedKey)
    ensures !KeyLess(a, a)
  {
    StringOrder.Irreflexive(a.name);
    StringOrder.Irreflexive(a.blob);
    StringOrder.Irreflexive(a.id);
  }

  /** "Not after" is transitive: the order `sort.Slice` needs. */
  lemma NotLessTransitive(a: DisplayedKey, b: DisplayedKey, c: DisplayedKey)
    requires !KeyLess(b, a) && !KeyLess(c, b)
    ensures !KeyLess(c, a)
  {
    KeyLessTotal(a, b);
    KeyLessTotal(b, c);
    if KeyLess(a, b) && KeyLess(b, c) {
      KeyLessTransitive(a, b, c);
      KeyLessAsymmetric(a, c);
    } else if KeyLess(a, b) {
      assert KeyLess(a, c);
      KeyLessAsymmetric(a, c);
    } else if KeyLess(b, c) {
      assert KeyLess(a, c);
      KeyLessAsymmetric(a, c);
    } else {
      KeyLessIrreflexive(a);
      assert SortKey(c) == SortKey(a);
    }
  }

  /** Putting an entry that nothing sorts before in front keeps a list
      sorted. */
  lemma ConsSorted(y: DisplayedKey, t: seq<DisplayedKey>)
    requires Sorted(t)
    requires forall k :: 0 <= k < |t| ==> !KeyLess(t[k], y)
    ensures Sorted([y] + t)
  {
    var r := [y] + t;
    forall i, j | 0 <= i < j < |r| ensures !KeyLess(r[j], r[i]) {
      assert r[j] == t[j - 1];
      if i > 0 { assert r[i] == t[i - 1]; }
    }
  }

  /** In a sorted list nothing sorts before an entry its head does not
      sort before. */
  lemma BelowHead(s: seq<DisplayedKey>, x: DisplayedKey)
    requires Sorted(s) && s != [] && !KeyLess(s[0], x)
    ensures forall k :: 0 <= k < |s| ==> !KeyLess(s[k], x)
  {
    forall k | 0 <= k < |s| ensures !KeyLess(s[k], x) {
      if k > 0 { NotLessTransitive(x, s[0], s[k]); }
    }
  }

  /** After inserting `x`, which sorts after the head, into the tail, no
      entry of the new tail sorts before the head. */
  lemma AboveHead(s: seq<DisplayedKey>, x: DisplayedKey, tail: seq<DisplayedKey>)
    requires Sorted(s) && s != [] && KeyLess(s[0], x)
    requires multiset(tail) == multiset(s[1..]) + multiset{x}
    ensures forall k :: 0 <= k < |tail| ==> !KeyLess(tail[k], s[0])
  {
    forall k | 0 <= k < |tail| ensures !KeyLess(tail[k], s[0]) {
      assert tail[k] in multiset(tail);
      if tail[k] == x {
        KeyLessAsymmetric(s[0], x);
      } else {
        assert tail[k] in multiset(s[1..]);
        var m :| 0 <= m < |s[1..]| && s[1..][m] == tail[k];
        assert s[m + 1] == tail[k];
      }
    }
  }

  /** Places `x` in front of the first entry that is not before it. */
  function Insert(x: DisplayedKey, s: seq<DisplayedKey>): (r: seq<DisplayedKey>)
    requires Sorted(s)
    ensures Sorted(r) && multiset(r) == multiset(s) + multiset{x}
    decreases |s|
  {
    if s == [] then [x]
    else if KeyLess(s[0], x) then
      var tail := Insert(x, s[1..]);
      assert s == [s[0]] + s[1..];
      AboveHead(s, x, tail);
      ConsSorted(s[0], tail);
      [s[0]] + tail
    else
      BelowHead(s, x);
      ConsSorted(x, s);
      [x] + s
  }

  /** What `sort.Slice` promises with this comparator: the same entries,
      in an order the comparator accepts. */
  function SortKeys(s: seq<DisplayedKey>): (r: seq<DisplayedKey>)
    ensures Sorted(r) && multiset(r) == multiset(s)
    decreases |s|
  {
    if s == [] then []
    else
      assert s == [s[0]] + s[1..];
      Insert(s[0], SortKeys(s[1..]))
  }

  // ---------------------------------------------------------------------
  // Button ids (buttonID) and the controls of one row

  /** `buttonKind`: an int with three named values. */
  type ButtonKind = int
  const LoadButton: ButtonKind := 0
  const UnloadButton: ButtonKind := 1
  const RemoveButton: ButtonKind := 2

  /** The word buttonID starts with; any other kind gives "unknown". */
  function KindWord(kind: ButtonKind): string
  {
    if kind == LoadButton then "load"
    else if kind == UnloadButton then "unload"
    else if kind == RemoveButton then "remove"
    else "unknown"
  }

  /** `buttonID`: `fmt.Sprintf("%s-%s", word, id)`. */
  function ButtonID(kind: ButtonKind, id: ID): (r: string)
    ensures kind == LoadButton ==> r == "load-" + id
    ensures kind == UnloadButton ==> r == "unload-" + id
    ensures kind == RemoveButton ==> r == "remove-" + id
    ensures !(LoadButton <= kind <= RemoveButton) ==> r == "unknown-" + id
  {
    KindWord(kind) + "-" + id
  }

  /** Different (kind, id) pairs give different button ids, as long as the
      kinds are named ones: the page never has two buttons with one id. */
  lemma ButtonIDInjective(k1: ButtonKind, id1: ID, k2: ButtonKind, id2: ID)
    requires ButtonID(k1, id1) == ButtonID(k2, id2)
    ensures KindWord(k1) == KindWord(k2) && id1 == id2
    ensures LoadButton <= k1 <= RemoveButton && LoadButton <= k2 <= RemoveButton ==> k1 == k2
  {
    var w1, w2 := KindWord(k1), KindWord(k2);
    var s := ButtonID(k1, id1);
    // Each word is fixed by its first two characters, and then its length
    // fixes where the id begins.
    assert s[0] == w1[0] && s[0] == w2[0];
    assert s[1] == w1[1] && s[1] == w2[1];
    assert s[2] == w1[2] && s[2] == w2[2];
    assert w1 == w2;
    assert id1 == s[|w1| + 1..] == id2;
  }

  /** The ids of the buttons a row gets (updateDisplayedKeys): none for an
      entry without a valid id; otherwise Unload or Load, then Remove. */
  function Controls(k: DisplayedKey): (r: seq<string>)
    ensures r == [] <==> k.id == InvalidID
    ensures r != [] ==>
      && |r| == 2
      && r[0] == ButtonID(if k.loaded then UnloadButton else LoadButton, k.id)
      && r[1] == ButtonID(RemoveButton, k.id)
  {
    if k.id == InvalidID then []
    else if k.loaded then [ButtonID(UnloadButton, k.id), ButtonID(RemoveButton, k.id)]
    else [ButtonID(LoadButton, k.id), ButtonID(RemoveButton, k.id)]
  }

  /** Rows with different ids never share a button id. */
  lemma ControlsDistinct(a: DisplayedKey, b: DisplayedKey, i: nat, j: nat)
    requires i < |Controls(a)| && j < |Controls(b)|
    requires Controls(a)[i] == Controls(b)[j]
    ensures a.id == b.id && i == j
  {
    var ka := if i == 1 then RemoveButton else if a.loaded then UnloadButton else LoadButton;
    var kb := if j == 1 then RemoveButton else if b.loaded then UnloadButton else LoadButton;
    ButtonIDInjective(ka, a.id, kb, b.id);
  }

  // ---------------------------------------------------------------------
  // displayedKey.LoadedKey

  /** `displayedKey.LoadedKey`: decodes the blob back into a key of the
      entry's type. A key rebuilt this way carries no id. */
  function ToLoadedKey(d: DisplayedKey): (r: Result<LoadedKey>)
    ensures r.Ok? <==> Base64.DecodeString(d.blob).Some?
    ensures r.Ok? ==> r.value.keyType == d.keyType && r.value.derivedId == InvalidID
  {
    match Base64.DecodeString(d.blob)
    case None => Err("failed to decode blob: illegal base64 data")
    case Some(b) => Ok(LoadedKey(d.keyType, b, InvalidID))
  }

  /** An entry whose blob is the encoding of some bytes converts back to a
      key with exactly those bytes. */
  lemma ToLoadedKeyRoundTrip(d: DisplayedKey, b: seq<byte>)
    requires d.blob == Base64.EncodeToString(b)
    ensures ToLoadedKey(d) == Ok(LoadedKey(d.keyType, b, InvalidID))
  {
    Base64.DecodeEncode(b);
  }
}

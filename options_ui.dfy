/** The options page's action coordinator: the add, load, unload and
    remove flows, their confirmation dialogs, the error banner and the
    key table.

    The key manager is not part of this model. Each event that reaches it
    takes a `Replies` value: the outcome of the mutating call, then what
    `Configured()` and `Loaded()` report when the table is refreshed.
    Callbacks run synchronously and in order. Four kinds of action are
    recorded in `log`, in order: registering click handlers, dropping them,
    showing or closing a dialog, and calling the manager. The inputs, the
    banner, the remove dialog's name and the table are fields, so the log
    does not order their updates against those actions. */
module OptionsUI {
  import opened Wrappers
  import opened KeyTypes
  import opened Display
  import opened Reconcile

  /** The three modal dialogs. */
  datatype DialogName = AddDialog | PassphraseDialog | RemoveDialog

  /** The dialog buttons whose click handlers a flow registers. */
  datatype Control = AddOk | AddCancel | PassphraseOk | PassphraseCancel | RemoveYes | RemoveNo

  /** The text fields the user types into. */
  datatype Field = AddNameField | AddKeyField | PassphraseField

  /** Calls into the key manager. */
  datatype Request =
    | AddRequest(name: string, privateKey: string)
    | LoadRequest(id: ID, passphrase: string)
    | UnloadRequest(key: LoadedKey)
    | RemoveRequest(id: ID)
    | ConfiguredRequest
    | LoadedRequest

  /** One observable action of the page, in the order it happens. */
  datatype Effect =
    | OnClick(control: Control)
    | RemoveEventListeners(control: Control)
    | ShowModal(dialog: DialogName)
    | Close(dialog: DialogName)
    | Call(request: Request)

  /** What the manager answers during one flow: the error of the mutating
      call (None on success), then the replies of `Configured()` and
      `Loaded()`. */
  datatype Replies = Replies(outcome: Option<string>,
                             configured: Result<seq<ConfiguredKey>>,
                             loaded: Result<seq<LoadedKey>>)

  /** The manager calls updateKeys makes: `Configured()`, and `Loaded()`
      only when the first succeeded. */
  function RefreshCalls(r: Replies): (calls: seq<Effect>)
    ensures 1 <= |calls| <= 2 && calls[0] == Call(ConfiguredRequest)
    ensures |calls| == 2 <==> r.configured.Ok?
  {
    [Call(ConfiguredRequest)] + (if r.configured.Ok? then [Call(LoadedRequest)] else [])
  }

  /** The banner after updateKeys: the first listing failure, or nothing. */
  function RefreshError(r: Replies): (text: string)
    ensures text == "" <==> r.configured.Ok? && r.loaded.Ok?
  {
    if r.configured.Err? then "failed to get configured keys: " + r.configured.error
    else if r.loaded.Err? then "failed to get loaded keys: " + r.loaded.error
    else ""
  }

  /** The key table after updateKeys: a fresh merge when both listings
      succeed, the old table otherwise. */
  ghost predicate Refreshed(before: seq<DisplayedKey>, after: seq<DisplayedKey>, r: Replies)
  {
    if r.configured.Ok? && r.loaded.Ok? then IsMergeOf(after, r.configured.value, r.loaded.value)
    else after == before
  }

  /** The manager calls of a mutating flow: the call itself, then a refresh
      when it succeeds. */
  function CallsOf(request: Request, r: Replies): (calls: seq<Effect>)
    ensures 1 <= |calls| && calls[0] == Call(request)
    ensures r.outcome.Some? <==> |calls| == 1
  {
    [Call(request)] + (if r.outcome.None? then RefreshCalls(r) else [])
  }

  /** The banner after a mutating flow. */
  function ErrorAfter(verb: string, r: Replies): (text: string)
    ensures text == "" <==> r.outcome.None? && r.configured.Ok? && r.loaded.Ok?
    ensures r.outcome.Some? ==> text == "failed to " + verb + " key: " + r.outcome.value
  {
    if r.outcome.Some? then "failed to " + verb + " key: " + r.outcome.value else RefreshError(r)
  }

  /** The key table after a mutating flow: untouched on failure, refreshed
      on success. */
  ghost predicate KeysAfter(before: seq<DisplayedKey>, after: seq<DisplayedKey>, r: Replies)
  {
    if r.outcome.Some? then after == before else Refreshed(before, after, r)
  }

  class UI {
    /** The text of the error banner; "" when no error is shown. */
    var errorText: string
    /** The displayed keys. */
    var keys: seq<DisplayedKey>
    /** Values of the text inputs. */
    var addName: string
    var addKey: string
    var passphrase: string
    /** The key name shown in the remove dialog. */
    var removeName: string
    /** Whether each dialog button has the current flow's click handler. */
    var addOkBound: bool
    var addCancelBound: bool
    var passphraseOkBound: bool
    var passphraseCancelBound: bool
    var removeYesBound: bool
    var removeNoBound: bool
    /** Whether each dialog is shown. */
    var addOpen: bool
    var passphraseOpen: bool
    var removeOpen: bool
    /** The key id the open passphrase or remove dialog's handlers act on. */
    var loadTarget: ID
    var removeTarget: ID
    /** Everything the page has done to the document and the manager. */
    var log: seq<Effect>

    /** A dialog is shown exactly while both its buttons carry a handler. */
    ghost predicate Valid()
      reads this
    {
      && addOkBound == addCancelBound == addOpen
      && passphraseOkBound == passphraseCancelBound == passphraseOpen
      && removeYesBound == removeNoBound == removeOpen
    }

    /** The state after a manager call made when the log was `logBefore`
        and the table `keysBefore`: the call and its refresh are logged,
        the banner shows its outcome, the table is kept or refreshed. */
    ghost predicate Completed(verb: string, request: Request, r: Replies,
                              logBefore: seq<Effect>, keysBefore: seq<DisplayedKey>)
      reads this
    {
      && log == logBefore + CallsOf(request, r)
      && errorText == ErrorAfter(verb, r)
      && KeysAfter(keysBefore, keys, r)
    }

    /** The page as loaded: no error, no keys, no dialog, nothing done. */
    constructor ()
      ensures Valid()
      ensures errorText == "" && keys == [] && log == []
      ensures addName == addKey == passphrase == removeName == ""
      ensures !addOpen && !passphraseOpen && !removeOpen
    {
      errorText, keys := "", [];
      addName, addKey, passphrase, removeName := "", "", "", "";
      addOkBound, addCancelBound, addOpen := false, false, false;
      passphraseOkBound, passphraseCancelBound, passphraseOpen := false, false, false;
      removeYesBound, removeNoBound, removeOpen := false, false, false;
      loadTarget, removeTarget := InvalidID, InvalidID;
      log := [];
    }

    /** The user types into a text field. */
    method Enter(field: Field, text: string)
      modifies this`addName, this`addKey, this`passphrase
      ensures addName == (if field == AddNameField then text else old(addName))
      ensures addKey == (if field == AddKeyField then text else old(addKey))
      ensures passphrase == (if field == PassphraseField then text else old(passphrase))
    {
      match field {
        case AddNameField => addName := text;
        case AddKeyField => addKey := text;
        case PassphraseField => passphrase := text;
      }
    }

    /** setError: the banner shows exactly the given error, replacing any
        earlier one, or nothing. */
    method SetError(err: Option<string>)
      modifies this`errorText
      ensures errorText == (if err.Some? then err.value else "")
    {
      errorText := if err.Some? then err.value else "";
    }

    /** updateKeys: list the configured keys, then the loaded keys; show the
        first failure, or clear the banner and show a fresh merge. */
    method UpdateKeys(r: Replies)
      modifies this`errorText, this`keys, this`log
      ensures log == old(log) + RefreshCalls(r)
      ensures r.configured.Err? ==> errorText == "failed to get configured keys: " + r.configured.error
      ensures r.configured.Ok? && r.loaded.Err? ==> errorText == "failed to get loaded keys: " + r.loaded.error
      ensures r.configured.Ok? && r.loaded.Ok? ==> errorText == ""
      ensures errorText == RefreshError(r)
      ensures Refreshed(old(keys), keys, r)
    {
      log := log + [Call(ConfiguredRequest)];
      if r.configured.Err? {
        SetError(Some("failed to get configured keys: " + r.configured.error));
        return;
      }
      log := log + [Call(LoadedRequest)];
      if r.loaded.Err? {
        SetError(Some("failed to get loaded keys: " + r.loaded.error));
        return;
      }
      SetError(None);
      keys := MergeKeys(r.configured.value, r.loaded.value);
    }

    /** The manager callback shared by add, load, unload and remove: on
        failure show "failed to <verb> key: <error>" and keep the table; on
        success clear the banner and refresh. */
    method Complete(verb: string, request: Request, r: Replies)
      requires Valid()
      modifies this`errorText, this`keys, this`log
      ensures Valid()
      ensures r.outcome.Some? ==> errorText == "failed to " + verb + " key: " + r.outcome.value
      ensures Completed(verb, request, r, old(log), old(keys))
    {
      log := log + [Call(request)];
      if r.outcome.Some? {
        SetError(Some("failed to " + verb + " key: " + r.outcome.value));
        return;
      }
      SetError(None);
      UpdateKeys(r);
    }

    /** add / promptAdd: register both handlers of the add dialog, then show
        it. The add button sits behind the modal add dialog, so the dialog
        is closed when it is clicked. */
    method Add()
      requires Valid() && !addOpen
      modifies this`addOkBound, this`addCancelBound, this`addOpen, this`log
      ensures Valid() && addOkBound && addCancelBound && addOpen
      ensures log == old(log) + [OnClick(AddOk), OnClick(AddCancel), ShowModal(AddDialog)]
    {
      addOkBound := true;
      addCancelBound := true;
      log := log + [OnClick(AddOk), OnClick(AddCancel)];
      addOpen := true;
      log := log + [ShowModal(AddDialog)];
    }

    /** OK in the add dialog: read name and key, clear both inputs, drop both
        handlers, close the dialog, and only then ask the manager to add the
        values read. Without a handler the click does nothing. */
    method ClickAddOk(r: Replies)
      requires Valid()
      modifies this`addName, this`addKey, this`addOkBound, this`addCancelBound, this`addOpen,
        this`errorText, this`keys, this`log
      ensures Valid()
      ensures !old(addOkBound) ==>
        && addName == old(addName)
        && addKey == old(addKey)
        && addOkBound == old(addOkBound)
        && addCancelBound == old(addCancelBound)
        && addOpen == old(addOpen)
        && errorText == old(errorText)
        && keys == old(keys)
        && log == old(log)
      ensures old(addOkBound) ==>
        && addName == "" && addKey == ""
        && !addOkBound && !addCancelBound && !addOpen
        && Completed("add", AddRequest(old(addName), old(addKey)), r,
                     old(log) + [RemoveEventListeners(AddOk), RemoveEventListeners(AddCancel), Close(AddDialog)],
                     old(keys))
    {
      if !addOkBound {
        return;
      }
      var n, k := addName, addKey;
      addName, addKey := "", "";
      addOkBound, addCancelBound := false, false;
      addOpen := false;
      log := log + [RemoveEventListeners(AddOk), RemoveEventListeners(AddCancel), Close(AddDialog)];
      Complete("add", AddRequest(n, k), r);
    }

    /** Cancel in the add dialog: clear both inputs, drop both handlers and
        close the dialog; no manager call, banner and table untouched. */
    method ClickAddCancel()
      requires Valid()
      modifies this`addName, this`addKey, this`addOkBound, this`addCancelBound, this`addOpen, this`log
      ensures Valid()
      ensures !old(addCancelBound) ==>
        && addName == old(addName)
        && addKey == old(addKey)
        && addOkBound == old(addOkBound)
        && addCancelBound == old(addCancelBound)
        && addOpen == old(addOpen)
        && log == old(log)
      ensures old(addCancelBound) ==>
        && addName == "" && addKey == ""
        && !addOkBound && !addCancelBound && !addOpen
        && log == old(log) + [RemoveEventListeners(AddOk), RemoveEventListeners(AddCancel), Close(AddDialog)]
    {
      if !addCancelBound {
        return;
      }
      addName, addKey := "", "";
      addOkBound, addCancelBound := false, false;
      addOpen := false;
      log := log + [RemoveEventListeners(AddOk), RemoveEventListeners(AddCancel), Close(AddDialog)];
    }

    /** load: an unencrypted key is loaded at once with an empty passphrase;
        for an encrypted one the passphrase dialog is registered and shown,
        remembering the key id. The key table sits behind the modal
        passphrase dialog, so that dialog is closed when a Load button is
        clicked. */
    method Load(id: ID, encrypted: bool, r: Replies)
      requires Valid() && (encrypted ==> !passphraseOpen)
      modifies this`passphraseOkBound, this`passphraseCancelBound, this`passphraseOpen, this`loadTarget,
        this`errorText, this`keys, this`log
      ensures Valid()
      ensures !encrypted ==>
        && Completed("load", LoadRequest(id, ""), r, old(log), old(keys))
        && passphraseOpen == old(passphraseOpen) && loadTarget == old(loadTarget)
      ensures encrypted ==>
        && passphraseOkBound && passphraseCancelBound && passphraseOpen && loadTarget == id
        && log == old(log) + [OnClick(PassphraseOk), OnClick(PassphraseCancel), ShowModal(PassphraseDialog)]
        && errorText == old(errorText) && keys == old(keys)
    {
      if !encrypted {
        Complete("load", LoadRequest(id, ""), r);
        return;
      }
      loadTarget := id;
      passphraseOkBound, passphraseCancelBound := true, true;
      log := log + [OnClick(PassphraseOk), OnClick(PassphraseCancel)];
      passphraseOpen := true;
      log := log + [ShowModal(PassphraseDialog)];
    }

    /** OK in the passphrase dialog: read the passphrase, clear the input,
        drop both handlers, close the dialog, then load the remembered key
        with the passphrase read. */
    method ClickPassphraseOk(r: Replies)
      requires Valid()
      modifies this`passphrase, this`passphraseOkBound, this`passphraseCancelBound, this`passphraseOpen,
        this`errorText, this`keys, this`log
      ensures Valid()
      ensures !old(passphraseOkBound) ==>
        && passphrase == old(passphrase)
        && passphraseOkBound == old(passphraseOkBound)
        && passphraseCancelBound == old(passphraseCancelBound)
        && passphraseOpen == old(passphraseOpen)
        && errorText == old(errorText)
        && keys == old(keys)
        && log == old(log)
      ensures old(passphraseOkBound) ==>
        && passphrase == ""
        && !passphraseOkBound && !passphraseCancelBound && !passphraseOpen
        && Completed("load", LoadRequest(loadTarget, old(passphrase)), r,
                     old(log) + [RemoveEventListeners(PassphraseOk), RemoveEventListeners(PassphraseCancel),
                                 Close(PassphraseDialog)],
                     old(keys))
    {
      if !passphraseOkBound {
        return;
      }
      var p := passphrase;
      passphrase := "";
      passphraseOkBound, passphraseCancelBound := false, false;
      passphraseOpen := false;
      log := log + [RemoveEventListeners(PassphraseOk), RemoveEventListeners(PassphraseCancel), Close(PassphraseDialog)];
      Complete("load", LoadRequest(loadTarget, p), r);
    }

    /** Cancel in the passphrase dialog: clear the input, drop both handlers,
        close the dialog; nothing is loaded. */
    method ClickPassphraseCancel()
      requires Valid()
      modifies this`passphrase, this`passphraseOkBound, this`passphraseCancelBound, this`passphraseOpen, this`log
      ensures Valid()
      ensures !old(passphraseCancelBound) ==>
        && passphrase == old(passphrase)
        && passphraseOkBound == old(passphraseOkBound)
        && passphraseCancelBound == old(passphraseCancelBound)
        && passphraseOpen == old(passphraseOpen)
        && log == old(log)
      ensures old(passphraseCancelBound) ==>
        && passphrase == ""
        && !passphraseOkBound && !passphraseCancelBound && !passphraseOpen
        && log == old(log) + [RemoveEventListeners(PassphraseOk), RemoveEventListeners(PassphraseCancel),
                              Close(PassphraseDialog)]
    {
      if !passphraseCancelBound {
        return;
      }
      passphrase := "";
      passphraseOkBound, passphraseCancelBound := false, false;
      passphraseOpen := false;
      log := log + [RemoveEventListeners(PassphraseOk), RemoveEventListeners(PassphraseCancel), Close(PassphraseDialog)];
    }

    /** unload: ask the manager to unload the key, no dialog. */
    method Unload(key: LoadedKey, r: Replies)
      requires Valid()
      modifies this`errorText, this`keys, this`log
      ensures Valid()
      ensures Completed("unload", UnloadRequest(key), r, old(log), old(keys))
    {
      Complete("unload", UnloadRequest(key), r);
    }

    /** The Unload button of a displayed key: rebuild the loaded key from
        the entry's type and blob; if the blob does not decode, show the
        error without calling the manager. */
    method ClickUnload(d: DisplayedKey, r: Replies)
      requires Valid()
      modifies this`errorText, this`keys, this`log
      ensures Valid()
      ensures ToLoadedKey(d).Err? ==>
        && errorText == "Failed to get loaded key: " + ToLoadedKey(d).error
        && log == old(log) && keys == old(keys)
      ensures ToLoadedKey(d).Ok? ==>
        && Completed("unload", UnloadRequest(ToLoadedKey(d).value), r, old(log), old(keys))
    {
      var l := ToLoadedKey(d);
      if l.Err? {
        SetError(Some("Failed to get loaded key: " + l.error));
        return;
      }
      Unload(l.value, r);
    }

    /** remove / promptRemove: show the key's name in the remove dialog,
        register both handlers, show the dialog, remembering the key id. */
    method Remove(id: ID, name: string)
      requires Valid() && !removeOpen
      modifies this`removeName, this`removeYesBound, this`removeNoBound, this`removeOpen, this`removeTarget, this`log
      ensures Valid()
      ensures removeName == name && removeTarget == id
      ensures removeYesBound && removeNoBound && removeOpen
      ensures log == old(log) + [OnClick(RemoveYes), OnClick(RemoveNo), ShowModal(RemoveDialog)]
    {
      removeTarget := id;
      removeName := name;
      removeYesBound, removeNoBound := true, true;
      log := log + [OnClick(RemoveYes), OnClick(RemoveNo)];
      removeOpen := true;
      log := log + [ShowModal(RemoveDialog)];
    }

    /** Yes in the remove dialog: clear the shown name, drop both handlers,
        close the dialog, then remove the remembered key. */
    method ClickRemoveYes(r: Replies)
      requires Valid()
      modifies this`removeName, this`removeYesBound, this`removeNoBound, this`removeOpen,
        this`errorText, this`keys, this`log
      ensures Valid()
      ensures !old(removeYesBound) ==>
        && removeName == old(removeName)
        && removeYesBound == old(removeYesBound)
        && removeNoBound == old(removeNoBound)
        && removeOpen == old(removeOpen)
        && errorText == old(errorText)
        && keys == old(keys)
        && log == old(log)
      ensures old(removeYesBound) ==>
        && removeName == ""
        && !removeYesBound && !removeNoBound && !removeOpen
        && Completed("remove", RemoveRequest(removeTarget), r,
                     old(log) + [RemoveEventListeners(RemoveYes), RemoveEventListeners(RemoveNo), Close(RemoveDialog)],
                     old(keys))
    {
      if !removeYesBound {
        return;
      }
      removeName := "";
      removeYesBound, removeNoBound := false, false;
      removeOpen := false;
      log := log + [RemoveEventListeners(RemoveYes), RemoveEventListeners(RemoveNo), Close(RemoveDialog)];
      Complete("remove", RemoveRequest(removeTarget), r);
    }

    /** No in the remove dialog: clear the shown name, drop both handlers,
        close the dialog; nothing is removed. */
    method ClickRemoveNo()
      requires Valid()
      modifies this`removeName, this`removeYesBound, this`removeNoBound, this`removeOpen, this`log
      ensures Valid()
      ensures !old(removeNoBound) ==>
        && removeName == old(removeName)
        && removeYesBound == old(removeYesBound)
        && removeNoBound == old(removeNoBound)
        && removeOpen == old(removeOpen)
        && log == old(log)
      ensures old(removeNoBound) ==>
        && removeName == ""
        && !removeYesBound && !removeNoBound && !removeOpen
        && log == old(log) + [RemoveEventListeners(RemoveYes), RemoveEventListeners(RemoveNo), Close(RemoveDialog)]
    {
      if !removeNoBound {
        return;
      }
      removeName := "";
      removeYesBound, removeNoBound := false, false;
      removeOpen := false;
      log := log + [RemoveEventListeners(RemoveYes), RemoveEventListeners(RemoveNo), Close(RemoveDialog)];
    }
  }
}

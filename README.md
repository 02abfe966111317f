# chrome-ssh-agent options page: key reconciliation and dialog flows

This project models the core of the extension's options page, written in Go
and compiled to WebAssembly. The model has three parts.

- **Key reconciliation** (`mergeKeys`). The key manager reports two lists:
  - the *configured* keys, each with an id, a name and an encrypted flag;
  - the *loaded* keys, each with a type, a public-key blob and an id. The id
    is the configured id the manager recorded for the key, or `InvalidID`
    when it cannot tell (how `keys.LoadedKey.ID` derives it is not part of
    this model).

  The page shows one table. It has one row per loaded key, named after its
  configured key when the id matches one. It also has one row per configured
  key that is not loaded. The rows are sorted by name, then by base64 blob,
  then by id. `buttonID` builds the HTML ids of each row's buttons.
- **The action coordinator** (class `UI`). It runs the add, load, unload and
  remove flows, their three modal dialogs (add, passphrase, remove
  confirmation), the error banner and the key table.
- **Two DOM helpers** (`dom.go`):
  - `ExpandArgs`/`SingleArg` unpack JavaScript callback arguments.
  - The `Dialog` wrapper has a fallback for hosts whose dialog element has no
    `showModal`/`close`. This is the test DOM. In that mode, `Close` fires a
    single stored close handler.

Modules and files:

| file | module | what |
|---|---|---|
| wrappers.dfy | `Wrappers` | `Option`, `Result` |
| keys.dfy | `KeyTypes` | `ConfiguredKey`, `LoadedKey`, `InvalidID`, `byte` |
| string_order.dfy | `StringOrder` | Go's `<` on strings, proved a strict total order |
| base64.dfy | `Base64` | standard base64 with padding, and its inverse |
| display.dfy | `Display` | `displayedKey`, the sort comparator, a sort, `buttonID`, the row controls, `displayedKey.LoadedKey` |
| counting.dfy | `Counting` | counting entries that satisfy a predicate |
| reconcile.dfy | `Reconcile` | `mergeKeys` as an imperative method, its specification, `lookupKey` |
| merge_properties.dfy | `MergeProperties` | what the merge shows for each loaded and each configured key |
| merge_determinism.dfy | `MergeDeterminism` | the table does not depend on input order or on sort tie-breaking |
| options_ui.dfy | `OptionsUI` | the `UI` class and its flows |
| scenarios.dfy | `Scenarios` | the user-action test cases of `ui_test.go`, restated as verified methods over the model |
| dom.dfy | `Dom` | `ExpandArgs`, `SingleArg`, the `Dialog` fallback |

How the model is built:

- `mergeKeys` is a method with the source's three loops:
  - the loop that builds `configuredMap`;
  - the loop over loaded keys, which records `loadedIds`;
  - the loop over configured keys, which skips matched ids.

  Each loop is proved against a recursive specification:
  - `ConfiguredIndex` for the map;
  - `LoadedEntries` and `MatchedIds` for the loaded keys;
  - `UnloadedEntries` for the configured keys.

  `sort.Slice` is not stable. The method therefore promises any ordering of
  the candidate entries that the comparator accepts (`IsMergeOf`: sorted,
  and a permutation of the candidates). `MergeDeterminism.MergeOrderInvariant`
  then proves that only one such ordering exists for the inputs the manager
  produces.
- The key manager is not part of this model. An event that reaches the
  manager takes a `Replies` parameter, which holds:
  - the error of the mutating call (`Add`, `Load`, `Unload` or `Remove`);
  - the replies of `Configured()` and `Loaded()` for the refresh that
    follows.

  Callbacks run synchronously, in order. Four kinds of action are appended
  to `log`, in order: registering a click handler, dropping handlers,
  showing or closing a dialog, and calling the manager. The contracts can
  therefore say that handlers are dropped and the dialog is closed *before*
  the manager is called. The rest of the page is state, not log entries:
  the input fields (`addName`, `addKey`, `passphrase`), the banner
  (`errorText`), the name shown in the remove dialog (`removeName`) and
  the table (`keys`). The log therefore does not order the clearing of an
  input or the setting of the banner against a `Close` or a manager call.
- `ShowModal`, `Close` and `RemoveEventListeners` on the page's DOM object
  are not shown in `dom.go`. They appear only as entries in `log` and as each
  dialog's open flag and handler flags.
- The error banner is a string, and `""` means no error is shown.
- `InvalidID` is `""`, Go's zero value for an id. `mergeKeys` leaves an
  unmatched loaded key's id at the zero value, and the tests expect
  `keys.InvalidID` there.

The error banner is cleared only when a manager call succeeds
(`setError(nil)` before `updateKeys`, go/optionsui/ui.go:118, 170, 205, 247).
Opening or cancelling a dialog leaves it as it was.

## Model

| member | source | states |
|---|---|---|
| StringOrder.Irreflexive | go/optionsui/ui.go:450 | no string is below itself under Go's string `<` |
| StringOrder.Asymmetric | go/optionsui/ui.go:450-453 | `a < b` excludes `b < a`, so the comparator's `>` tests are `<` with the arguments swapped |
| StringOrder.Transitive | go/optionsui/ui.go:450-463 | Go's string `<` is transitive |
| StringOrder.Total | go/optionsui/ui.go:450-463 | two strings are equal or one is below the other |
| Base64.EncodeToString | go/optionsui/ui.go:417 | the standard base64 text of a blob has 4 characters per started 3-byte group |
| Base64.DecodeString | go/optionsui/ui.go:272 | `StdEncoding.DecodeString` rejects text whose length is not a multiple of 4; text of 4n characters that it accepts decodes to between 3n-2 and 3n bytes |
| Base64.DecodeEncode | go/optionsui/ui.go:272 | decoding the base64 text of any blob gives back exactly that blob |
| Base64.EncodeInjective | go/optionsui/ui.go:417 | different blobs have different base64 texts, so the displayed `Blob` identifies the key material |
| Display.KeyLess | go/optionsui/ui.go:448-464 | the `sort.Slice` comparator, branch for branch: it never puts an entry before one with the same (Name, Blob, ID), and entries that agree on Name and Blob are ordered by ID |
| Display.KeyLessIsLexicographic | go/optionsui/ui.go:448-464 | the sort comparator is lexicographic order on (Name, Blob, ID) |
| Display.KeyLessIrreflexive | go/optionsui/ui.go:448-464 | no entry sorts before itself |
| Display.KeyLessAsymmetric | go/optionsui/ui.go:448-464 | if a sorts before b, b does not sort before a |
| Display.KeyLessTransitive | go/optionsui/ui.go:448-464 | the comparator is transitive |
| Display.KeyLessTotal | go/optionsui/ui.go:448-464 | two entries are ordered one way or the other unless Name, Blob and ID all agree |
| Display.NotLessTransitive | go/optionsui/ui.go:448-464 | "does not sort before" is transitive, which makes the comparator a strict weak order as `sort.Slice` requires |
| Display.Insert | go/optionsui/ui.go:448-464 | inserting into a sorted list keeps it sorted and adds exactly the one entry |
| Display.SortKeys | go/optionsui/ui.go:448-464 | the result of `sort.Slice` is sorted by the comparator and holds exactly the input entries |
| Display.ButtonID | go/optionsui/ui.go:302-313 | the button id is `"load-"+id`, `"unload-"+id` or `"remove-"+id` for the three named kinds, and `"unknown-"+id` for any other kind |
| Display.ButtonIDInjective | go/optionsui/ui.go:302-313 | equal button ids mean equal key ids and equal kind words, and equal kinds for the three named kinds |
| Display.Controls | go/optionsui/ui.go:335-384 | a row has no buttons exactly when its id is `InvalidID`; otherwise it has Unload (loaded) or Load (not loaded), then Remove, for its own id |
| Display.ControlsDistinct | go/optionsui/ui.go:335-384 | no two buttons in the table share an HTML id unless they are the same button of rows with the same key id |
| Display.ToLoadedKey | go/optionsui/ui.go:271-280 | `displayedKey.LoadedKey` succeeds exactly when the blob is valid base64; the rebuilt key has the entry's type |
| Display.ToLoadedKeyRoundTrip | go/optionsui/ui.go:271-280 | rebuilding the loaded key from a displayed blob gives back the key's type and exact blob |
| Reconcile.MergeKeys | go/optionsui/ui.go:400-467 | the result is sorted by (Name, Blob, ID) and is a permutation of one entry per loaded key plus one per configured key that no loaded key matched; its length is `len(loaded)` plus the number of configured keys whose id was not matched |
| Reconcile.BuildConfiguredMap | go/optionsui/ui.go:402-405 | the first loop builds exactly `ConfiguredIndex`: every configured key under its id, a later key replacing an earlier one with the same id |
| Reconcile.AddLoadedKeys | go/optionsui/ui.go:409-431 | the second loop emits exactly `LoadedEntries`, one entry per loaded key in order, and collects exactly the recognised ids `MatchedIds` |
| Reconcile.AddUnloadedKeys | go/optionsui/ui.go:433-446 | the third loop appends exactly `UnloadedEntries`: an entry for each configured key whose id was not recognised, in configured order |
| Reconcile.UnloadedEntriesCount | go/optionsui/ui.go:433-446 | the configured-key loop emits exactly as many entries as there are configured keys whose id is unmatched |
| Reconcile.LoadedEntriesAt | go/optionsui/ui.go:412-431 | the loaded-key loop emits, in order, exactly one entry per loaded key |
| Reconcile.LookupKey | go/optionsui/ui.go:491-498 | nil exactly when no entry has the name; otherwise the first entry with that name |
| MergeProperties.ConfiguredIndexContents | go/optionsui/ui.go:402-405 | `configuredMap` holds exactly the configured ids, each under a configured key with that id |
| MergeProperties.IndexOfUnique | go/optionsui/ui.go:402-405 | with unique ids, each configured key is found under its own id |
| MergeProperties.RecognisedIff | go/optionsui/ui.go:419-421 | a loaded key is recognised exactly when its id is valid and some configured key has it |
| MergeProperties.CandidatesMembers | go/optionsui/ui.go:407-446 | before sorting, the entries are exactly the loaded keys' entries and the unmatched configured keys' entries |
| MergeProperties.MergeShowsLoadedKey | go/optionsui/ui.go:412-431 | every loaded key has an entry with Loaded=true, its Type and its base64 Blob |
| MergeProperties.MergeLoadedCount | go/optionsui/ui.go:412-431 | the number of loaded entries is exactly `len(loaded)`, so loaded keys are never dropped or merged |
| MergeProperties.MergeUnrecognisedKey | go/optionsui/ui.go:419-430 | a loaded key with `InvalidID`, or with an id no configured key has, is shown with ID=InvalidID and Name="" |
| MergeProperties.MergeRecognisedKey | go/optionsui/ui.go:419-428 | a loaded key whose id is configured is shown with that id and the configured name |
| MergeProperties.MatchedIdsIff | go/optionsui/ui.go:419-425 | `loadedIds` holds exactly the valid ids that are both configured and loaded |
| MergeProperties.MergeShowsUnloadedKey | go/optionsui/ui.go:433-446 | a configured key that no loaded key matches is shown with Loaded=false, its own ID, Name and Encrypted, and empty Type and Blob |
| MergeProperties.MergeUnloadedEntries | go/optionsui/ui.go:433-446 | every unloaded entry comes from a configured key, and a matched configured key never reappears unloaded |
| MergeProperties.MergeUnloadedKeyOnce | go/optionsui/ui.go:433-446 | with unique configured ids, an unmatched configured key's id appears exactly once in the table |
| MergeProperties.UnloadedCountOfId | go/optionsui/ui.go:433-446 | the configured-key loop emits an unmatched unique id exactly once |
| MergeProperties.LoadedCountOfId | go/optionsui/ui.go:412-431 | no loaded-key entry carries a valid id that no loaded key derives |
| MergeProperties.MergeLength | go/optionsui/ui.go:407-446 | the table length is `len(loaded)` plus the number of configured keys whose id no loaded key matched, counted over the configured list |
| MergeProperties.MergeEmpty | go/optionsui/ui.go:400-467 | no configured and no loaded keys give an empty table |
| MergeDeterminism.SortedHeadsEqual | go/optionsui/ui.go:448-464 | two sorted orderings of the same entries start alike when (Name, Blob, ID) determines the entry |
| MergeDeterminism.SortedUnique | go/optionsui/ui.go:448-464 | two sorted orderings of the same entries are equal when (Name, Blob, ID) determines the entry, so the unstable sort's tie-breaking cannot show |
| MergeDeterminism.LoadedPairDetermine | go/optionsui/ui.go:414-430 | two loaded keys' entries with equal Name, Blob and ID are equal |
| MergeDeterminism.MixedPairDiffer | go/optionsui/ui.go:419-446 | a loaded entry and an unloaded entry never agree on Name, Blob and ID |
| MergeDeterminism.CandidatePairDetermine | go/optionsui/ui.go:407-446 | for well-formed inputs, (Name, Blob, ID) determines a candidate entry |
| MergeDeterminism.CandidatesKeyDetermine | go/optionsui/ui.go:407-446 | for well-formed inputs, no two different entries tie under the comparator |
| MergeDeterminism.LoadedEntriesAppend | go/optionsui/ui.go:412-431 | the loaded-key loop over two lists emits the first list's entries, then the second's |
| MergeDeterminism.UnloadedEntriesAppend | go/optionsui/ui.go:433-446 | the configured-key loop over two lists emits the first list's entries, then the second's |
| MergeDeterminism.LoadedEntriesRemove | go/optionsui/ui.go:412-431 | dropping one loaded key drops exactly its entry |
| MergeDeterminism.UnloadedEntriesRemove | go/optionsui/ui.go:433-446 | dropping one configured key drops exactly its unloaded entry, if it had one |
| MergeDeterminism.LoadedEntriesPermutation | go/optionsui/ui.go:412-431 | reordering the loaded keys only reorders their entries |
| MergeDeterminism.UnloadedEntriesPermutation | go/optionsui/ui.go:433-446 | reordering the configured keys only reorders their unloaded entries |
| MergeDeterminism.ConfiguredIndexPermutation | go/optionsui/ui.go:402-405 | with unique ids, `configuredMap` does not depend on the order of the configured keys |
| MergeDeterminism.CandidatesPermutation | go/optionsui/ui.go:402-446 | reordering either input list only reorders the unsorted entries |
| MergeDeterminism.MergeOrderInvariant | go/optionsui/ui.go:400-467 | for well-formed inputs, the table depends only on which keys are configured and loaded, not on the order the manager lists them in |
| MergeDeterminism.MergeDeterministic | go/optionsui/ui.go:448-464 | for well-formed inputs, every result the unstable sort can give is the same table |
| OptionsUI.RefreshCalls | go/optionsui/ui.go:471-489 | updateKeys asks the manager for the configured keys, and for the loaded keys only when that succeeded |
| OptionsUI.RefreshError | go/optionsui/ui.go:471-489 | after updateKeys the banner is empty exactly when both listings succeeded |
| OptionsUI.CallsOf | go/optionsui/ui.go:112-120 | a flow's manager calls start with the mutating call, and a refresh follows exactly when it succeeded |
| OptionsUI.ErrorAfter | go/optionsui/ui.go:112-120 | a failed call shows exactly "failed to <verb> key: <error>"; the banner ends empty exactly when the call and both listings succeed |
| OptionsUI.UI.constructor | go/optionsui/ui.go:64-91 | the page starts with no error, no keys, empty inputs and no dialog open |
| OptionsUI.UI.Enter | go/optionsui/ui_test.go:117-118 | the user typing sets one input and leaves the others alone |
| OptionsUI.UI.SetError | go/optionsui/ui.go:95-102 | the banner shows exactly the given error, replacing any earlier one, or nothing for nil |
| OptionsUI.UI.UpdateKeys | go/optionsui/ui.go:471-489 | on a listing failure the banner shows "failed to get configured keys: …" or "failed to get loaded keys: …" and the table is kept; otherwise the banner is cleared and the table becomes a fresh merge |
| OptionsUI.UI.Complete | go/optionsui/ui.go:112-120 | the manager callback shared by the four flows: on failure the prefixed error is shown and the table is kept; on success the banner is cleared and the table refreshed |
| OptionsUI.UI.Add | go/optionsui/ui.go:107-147 | both add-dialog handlers are registered, then the dialog is shown |
| OptionsUI.UI.ClickAddOk | go/optionsui/ui.go:128-137 | reads name and key, clears both inputs, drops both handlers, closes the dialog, and only then adds the values read; does nothing without a handler |
| OptionsUI.UI.ClickAddCancel | go/optionsui/ui.go:138-145 | clears both inputs, drops both handlers and closes the dialog; no manager call, banner and table untouched |
| OptionsUI.UI.Load | go/optionsui/ui.go:151-173 | an unencrypted key is loaded at once with passphrase ""; an encrypted one opens the passphrase dialog for that id, banner and table untouched |
| OptionsUI.UI.ClickPassphraseOk | go/optionsui/ui.go:180-187 | reads and clears the passphrase, drops both handlers, closes the dialog, then loads the remembered id with the passphrase read |
| OptionsUI.UI.ClickPassphraseCancel | go/optionsui/ui.go:188-194 | clears the passphrase, drops both handlers, closes the dialog; nothing is loaded |
| OptionsUI.UI.Unload | go/optionsui/ui.go:199-208 | the key is unloaded without a dialog; failure shows "failed to unload key: …", success refreshes |
| OptionsUI.UI.ClickUnload | go/optionsui/ui.go:345-353 | the Unload button rebuilds the loaded key from the row; a bad blob shows "Failed to get loaded key: …" with no manager call |
| OptionsUI.UI.Remove | go/optionsui/ui.go:213-231 | the key's name is shown in the remove dialog, both handlers are registered, the dialog is shown for that id |
| OptionsUI.UI.ClickRemoveYes | go/optionsui/ui.go:216-222 | clears the shown name, drops both handlers, closes the dialog, then removes the remembered id |
| OptionsUI.UI.ClickRemoveNo | go/optionsui/ui.go:223-229 | clears the shown name, drops both handlers, closes the dialog; nothing is removed |
| Scenarios.MergeOneConfigured | go/optionsui/ui_test.go:115-128 | one configured, unloaded key is shown as the only row, unloaded, with no type or blob |
| Scenarios.MergeOneLoaded | go/optionsui/ui_test.go:320-340 | one configured key that is loaded is the only row, loaded, with its name, type and blob |
| Scenarios.MergeRemovedWhileLoaded | go/optionsui/ui_test.go:427-450 | a loaded key whose configuration was removed is shown loaded, without id or name |
| Scenarios.CandidatesForeignAndOwn | go/optionsui/ui_test.go:393-426 | a foreign loaded key and the page's own loaded key give exactly their two loaded entries |
| Scenarios.MergeForeignAndOwn | go/optionsui/ui_test.go:393-426 | the foreign key (empty name) is listed before the page's own named key |
| Scenarios.LoadPage | go/optionsui/ui_test.go:57-61 | the page as the harness brings it up: one refresh against a manager with no keys, so no error, an empty table, no dialog open, and exactly the Configured and Loaded calls |
| Scenarios.OpenAddDialog | go/optionsui/ui_test.go:117-119 | on the loaded page, after clicking Add and typing, both add handlers are bound, the inputs hold the typed text and the dialog is shown |
| Scenarios.AddKey | go/optionsui/ui_test.go:115-128 | after the page-load refresh, adding a key shows it unloaded with no error; the handlers are dropped and the dialog closed before the add call, and the refresh follows it |
| Scenarios.AddKeyCancelled | go/optionsui/ui_test.go:154-161 | cancelling the add dialog makes no manager call after the page-load refresh, clears the inputs, and leaves the table empty and the banner clear |
| Scenarios.AddKeyFails | go/optionsui/ui_test.go:163-171 | a rejected add shows "failed to add key: invalid name: name must not be empty" and keeps the table empty |
| Scenarios.LoadUnencrypted | go/optionsui/ui_test.go:320-340 | loading an unencrypted key leaves the passphrase dialog as it was and shows the key loaded under its name |
| Dom.ExpandArgs | go/dom/dom.go:257-266 | `target[i] = args[i]` for every i below both lengths; the targets from `len(args)` on become undefined; surplus arguments are ignored |
| Dom.SingleArg | go/dom/dom.go:269-273 | the first argument, or undefined when there is none |
| Dom.Dialog.constructor | go/dom/dom.go:183-187 | a new dialog has no stored close handler |
| Dom.Dialog.ShowModal | go/dom/dom.go:190-197 | without `showModal` only a log line is written and no dialog state changes; otherwise `showModal` is called |
| Dom.Dialog.Close | go/dom/dom.go:200-214 | without `close` the stored handler, if any, fires with an undefined event and stays stored; with no stored handler nothing fires; otherwise `close` is called |
| Dom.Dialog.OnClose | go/dom/dom.go:219-239 | without `close` the handler is stored when none is, and registration fails with "Multiple simulated OnClose handlers not supported" when one is; otherwise a host close listener is added |
| Dom.SimulatedCloseFiresEachTime | go/dom/dom.go:200-231 | a stored simulated close handler fires on each of two closes, and a second registration fails |

## Left out

- `updateDisplayedKeys` (go/optionsui/ui.go:317-396) builds DOM rows, cells and buttons. Only its button ids are modelled (`Display.Controls`, lines 335-384), along with what the Unload button does (`ClickUnload`). The Load and Remove buttons call `Load` and `Remove` directly.
- The key manager (`keys.Manager`: key parsing, the agent protocol, storage) is not part of this model. Its answers are the `Replies` parameters, and its id assignment is not modelled.
- go/chrome/storage.go is not part of this model. It is a wrapper over the Chrome storage API.
- `EndToEndTest` and `poll` (go/optionsui/ui.go:500-609) are left out. They use the wall clock, sleeping and random numbers.
- Real asynchrony is left out: callbacks run synchronously, in the order the tests drive them.
- The rest of dom.go (element creation, listeners, timers, logging, JSON, `ObjectKeys`) is left out. It is JavaScript interop.
- `Dom.Dialog.OnClose`: the cleanup function it returns (`simOnClose.Release`) is not modelled. Releasing the function does not clear the stored handler.
- `Dom.Dialog.OnClose`: the panic is modelled as an `Err` result.
- `Dom.ExpandArgs`: the Go targets are pointers. They are modelled as the cells of one array, so two targets that point at the same variable are not modelled.
- `Base64.DecodeString` does not skip line breaks as Go's decoder does, and it gives no error detail: every failure is `None`, where Go reports the offending byte offset. For text that `EncodeToString` produced, it agrees with Go.
- `OptionsUI.UI.Add` requires that the add dialog is closed: the add button sits behind the modal dialog. In the same way, `Load` for an encrypted key requires the passphrase dialog to be closed (an unencrypted load opens no dialog and is allowed at any time), and `Remove` requires the remove dialog to be closed. Registering a second pair of handlers on an open dialog is not modelled.
- `OptionsUI.UI.ClickUnload` reports the decode error as "failed to decode blob: illegal base64 data" and not with Go's byte offset.
- `MergeDeterminism.MergeOrderInvariant` holds only for well-formed inputs: unique, valid configured ids, and one key type per blob. With duplicate configured ids, the last entry wins in `configuredMap` and the order of the configured list matters.
- `OptionsUI.UI.constructor` does not model the two registrations `New` makes (go/optionsui/ui.go:86-89): `updateKeys` on DOMContentLoaded and `add` on the add button. The page-load refresh is the caller invoking `UpdateKeys`, as `Scenarios.LoadPage` does in the test harness's place (go/optionsui/ui_test.go:60-61). The add button's handler is the caller invoking `Add`.
- Go's `fmt.Errorf("%v", err)` is modelled as concatenating the error's text.

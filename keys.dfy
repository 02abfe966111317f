/** The shapes of the `keys` package that the options page consumes.
    The package itself (key parsing, the agent protocol, storage) is not
    part of this model; only its data crosses into the UI. */
module KeyTypes {

  /** A Go `byte`. */
  type byte = x: int | 0 <= x < 256

  /** `keys.ID`: an opaque string assigned by the key manager. */
  type ID = string

  /** `keys.InvalidID`, the zero value of `keys.ID`. */
  const InvalidID: ID := ""

  /** `keys.ConfiguredKey`: persisted key metadata. */
  datatype ConfiguredKey = ConfiguredKey(id: ID, name: string, encrypted: bool)

  /** `keys.LoadedKey`: a key held by the agent. `derivedId` is what the
      key's `ID()` method returns: the configured id the manager recorded
      for it, or `InvalidID` when it cannot tell. */
  datatype LoadedKey = LoadedKey(keyType: string, blob: seq<byte>, derivedId: ID)
}

/** Types shared by the whole model. */
module Common {

  datatype Option<+T> = None | Some(value: T)

  /** The values of PEP_STATUS this library itself tells apart; the engine's others are `Other`. */
  datatype Status =
    | Ok
    | Unencrypted
    | IllegalValue
    | PassphraseRequired
    | WrongPassphrase
    | SyncNoChannel
    | OutOfMemory
    | Other(code: int)
}

/** Vocabulary shared by the models: result codes, locations, source states. */
module Common {
  /** DWORD and ULONG wrap here. */
  const TWO_32: nat := 0x1_0000_0000

  datatype Option<+T> = None | Some(value: T)

  /** The HRESULT values the modelled methods return. */
  datatype HResult =
    | DsOk
    | InvalidParam
    | InvalidCall
    | Allocated
    | BufferLost
    | BufferTooSmall
    | AlreadyInitialized
    | ControlUnavail
    | PrioLevelNeeded
    | General

  /** Buffer::LocStatus, src/buffer.h:235-240; None doubles as Any in requests. */
  datatype LocStatus = Nowhere | Hardware | Software

  /** The value of AL_SOURCE_STATE. */
  datatype AlState = Initial | Playing | Paused | Stopped
}

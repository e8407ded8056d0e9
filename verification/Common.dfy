/** Result types, the error kinds the queue and block layers return, and the constants of VirtIO 1.1 that they use. */
module Common {

  datatype Option<+T> = None | Some(value: T)

  datatype VirtioError =
    | InvalidQueue
    | QueueNotReady
    | InvalidDescriptor
    | BackendError
    | MemoryError
    | InvalidConfig
    | InvalidBufferSize
    | InvalidSector
    | InvalidRegister
    | InvalidAddress
    | InvalidAccessWidth

  datatype Result<+T> = Ok(value: T) | Err(error: VirtioError)

  datatype DeviceType = Invalid | Network | Block | Console

  const DEFAULT_QUEUE_SIZE: nat := 256
  const MIN_DESCRIPTOR_CHAIN_LENGTH: nat := 2
  const DESC_SIZE: nat := 16
  const BLOCK_HEADER_SIZE: nat := 16
  const RING_HEADER_SIZE: nat := 4
  const AVAIL_ENTRY_SIZE: nat := 2
  const USED_ELEM_SIZE: nat := 8
  const SECTOR_SIZE: nat := 512

  const VIRTIO_BLK_T_IN: nat := 0
  const VIRTIO_BLK_T_OUT: nat := 1
  const VIRTIO_BLK_T_FLUSH: nat := 4

  const VIRTIO_BLK_S_OK: nat := 0
  const VIRTIO_BLK_S_IOERR: nat := 1
  const VIRTIO_BLK_S_UNSUPP: nat := 2
}

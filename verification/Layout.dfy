/** Sizes, limits and the shared-memory layout of src/common.h and src/ipc_hooks.h. */
module Layout {

  type byte = b: int | 0 <= b < 256

  const GRANULE: nat := 2 * 1024 * 1024
  const MAX_FILE_NUM: nat := 4096
  const MAX_EXPORTS: nat := 64
  const NUM_COPY_THREADS: nat := 4

  // sizeof(shared_mem_file) and sizeof(shared_mem_fs) on a 64-bit target.
  const FILE_ENTRY_SIZE: nat := 24
  const HEADER_SIZE: nat := 16 + FILE_ENTRY_SIZE * MAX_FILE_NUM

  // sizeof(IpcExportShmEntry) (28 bytes padded to 32) and sizeof(IpcRebuildShmBlock).
  const SHM_ENTRY_SIZE: nat := 32
  const SHM_BLOCK_SIZE: nat := 8 + SHM_ENTRY_SIZE * MAX_EXPORTS

  /** ROUND_UP_2MB: the least multiple of the granule that is not below x. */
  function RoundUp(x: nat): (r: nat)
    ensures r % GRANULE == 0
    ensures x <= r < x + GRANULE
  {
    (x + (GRANULE - 1)) / GRANULE * GRANULE
  }

  lemma {:induction false} RoundUpIdempotent(x: nat)
    ensures RoundUp(RoundUp(x)) == RoundUp(x)
  {
  }

  /** Where the dumped bytes start: the header rounded up to a granule. */
  const PAYLOAD_START: nat := 2097152

  lemma {:induction false} PayloadStartIsRounded()
    ensures PAYLOAD_START == RoundUp(HEADER_SIZE)
  {
  }

  const MY_BLOCK_START: nat := PAYLOAD_START - SHM_BLOCK_SIZE
  const PEER_BLOCK_START: nat := PAYLOAD_START - 2 * SHM_BLOCK_SIZE

  function Min(a: nat, b: nat): nat {
    if a <= b then a else b
  }

  function Max(a: nat, b: nat): nat {
    if a <= b then b else a
  }
}

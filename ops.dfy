/**
 * Values shared by the Swift and the C driver: the operations a linked
 * request chain is made of, and how many submission-queue entries a batch
 * of chains occupies.
 */
module Ops {

  /** Access mode of an open: O_RDWR (`.readWrite`) or O_RDONLY (`.readOnly`). */
  datatype AccessMode = ReadWrite | ReadOnly

  /** Permission bits 0600: owner may read and write (`.ownerReadWrite`). */
  const OwnerReadWrite: nat := 0x180

  /**
   * One operation of a linked request chain. `file` is the index k of the
   * file name "testdatafile<k>.txt", resolved against the current working
   * directory; `slot` is a registered file slot and `buffer` the index of a
   * registered buffer. `permissions` is 0 where the caller passes none.
   * In the C driver a read's or a write's `slot` names a registered slot
   * only when its SQE carries IOSQE_FIXED_FILE; otherwise it is a file
   * descriptor of the process (see `Uring.UsesSlot`).
   */
  datatype Op =
    | Open(file: nat, slot: nat, mode: AccessMode, create: bool, permissions: nat)
    | Write(slot: nat, buffer: nat)
    | Read(slot: nat, buffer: nat)
    | Close(slot: nat)
    | Unlink(file: nat)

  /** True when `op` works on file slot `slot` (an unlink works on a path, not a slot). */
  predicate OnSlot(op: Op, slot: nat)
  {
    !op.Unlink? && op.slot == slot
  }

  /** The registered buffers the operations of `chain` transfer data through. */
  function BuffersOf(chain: seq<Op>): set<nat>
  {
    set k | 0 <= k < |chain| && (chain[k].Write? || chain[k].Read?) :: chain[k].buffer
  }

  /** Number of submission-queue entries that a batch of chains occupies. */
  function TotalEntries<T>(chains: seq<seq<T>>): nat
  {
    if chains == [] then 0
    else TotalEntries(chains[..|chains| - 1]) + |chains[|chains| - 1]|
  }

  /** A batch of chains that all have `width` operations occupies width * |chains| entries. */
  lemma {:induction false} TotalEntriesUniform<T>(chains: seq<seq<T>>, width: nat)
    requires forall k | 0 <= k < |chains| :: |chains[k]| == width
    ensures TotalEntries(chains) == width * |chains|
  {
    if chains != [] {
      TotalEntriesUniform(chains[..|chains| - 1], width);
    }
  }
}

/**
 * The C driver (cdemo/uring.c): FILE_COUNT files, each written from and
 * read back into its own 16 MiB region of one slab filled with byte 2,
 * through linked chains of submission-queue entries (SQEs) with explicit
 * link flags. The ring is replaced by the sequence of completion-queue
 * entries (CQEs) that io_uring_wait_cqe would hand out, in order.
 */
module Uring {
  import opened Ops

  /** FILE_COUNT of the C driver. */
  const FileCount: nat := 4

  /** Size of each registered buffer and of each file: 16 MiB. */
  const BufferBytes: nat := 16 * 1024 * 1024

  /** A uint8_t of the slab. */
  newtype Byte = x: int | 0 <= x < 256

  /** Arithmetic modulus of uint64_t. */
  const U64Modulus: int := 0x1_0000_0000_0000_0000

  /** Entries the ring is set up with: seven per file. */
  function QueueEntries(n: nat): nat
  {
    n * 7
  }

  /** The expected checksum: every byte of every buffer is 2 (a uint64_t product). */
  function VerificationSum(n: nat): (sum: nat)
    ensures sum < U64Modulus
    ensures BufferBytes * n * 2 < U64Modulus ==> sum == 2 * (n * BufferBytes)
  {
    (BufferBytes * n * 2) % U64Modulus
  }

  /** For FILE_COUNT = 4 the product does not wrap: 16 MiB * 4 * 2 = 134217728. */
  lemma VerificationSumOfFileCount()
    ensures VerificationSum(FileCount) == BufferBytes * FileCount * 2 == 134217728
  {
  }

  /** setup_context: -1 when io_uring_queue_init reports an error, 0 otherwise. */
  function SetupContext(queueInitResult: int): (r: int)
    ensures r == 0 || r == -1
    ensures r == -1 <==> queueInitResult < 0
  {
    if queueInitResult < 0 then -1 else 0
  }

  /** main's verdict: 0 iff the observed sum equals the expected one, 1 otherwise. */
  function ExitCode(sum: nat, verificationSum: nat): (code: int)
    ensures code == 0 || code == 1
    ensures code == 0 <==> sum == verificationSum
  {
    if sum == verificationSum then 0 else 1
  }

  // ---------------------------------------------------------------------------
  // The slab and its buffers

  /** A struct iovec: base address and length of one registered buffer. */
  datatype IoVec = IoVec(base: nat, len: nat)

  /** buffers[i] as the layout loop sets it: the i-th 16 MiB region of the slab. */
  function BufferAt(slabBase: nat, i: nat): IoVec
  {
    IoVec(slabBase + i * BufferBytes, BufferBytes)
  }

  /** calloc of FILE_COUNT 16 MiB regions, then memset of the whole slab to 2. */
  method AllocateSlab(n: nat) returns (slab: array<Byte>)
    ensures slab.Length == n * BufferBytes
    ensures forall k | 0 <= k < slab.Length :: slab[k] == 2
  {
    slab := new Byte[n * BufferBytes](_ => 2);
  }

  /** The loop that fills buffers[] with one iovec per file. */
  method LayoutBuffers(n: nat, slabBase: nat) returns (buffers: array<IoVec>)
    ensures buffers.Length == n
    ensures forall i | 0 <= i < n :: buffers[i] == BufferAt(slabBase, i)
  {
    buffers := new IoVec[n](_ => IoVec(0, 0));
    for i := 0 to n
      invariant forall j | 0 <= j < i :: buffers[j] == BufferAt(slabBase, j)
    {
      buffers[i] := IoVec(slabBase + i * 16 * 1024 * 1024, 16 * 1024 * 1024);
    }
  }

  /**
   * The buffers tile the slab: every address of the slab lies in exactly one
   * buffer, and that buffer's index is below n.
   */
  lemma BuffersTileSlab(n: nat, slabBase: nat, a: nat)
    requires slabBase <= a < slabBase + n * BufferBytes
    ensures (a - slabBase) / BufferBytes < n
    ensures var b := BufferAt(slabBase, (a - slabBase) / BufferBytes); b.base <= a < b.base + b.len
    ensures forall j: nat :: BufferAt(slabBase, j).base <= a < BufferAt(slabBase, j).base + BufferBytes ==>
      j == (a - slabBase) / BufferBytes
  {
    var i := (a - slabBase) / BufferBytes;
    assert i * BufferBytes <= a - slabBase < (i + 1) * BufferBytes;
  }

  // ---------------------------------------------------------------------------
  // Byte sums

  /** The bytes of `bytes` added up as unbounded integers. */
  function BytesSum(bytes: seq<Byte>): nat
  {
    if bytes == [] then 0 else BytesSum(bytes[..|bytes| - 1]) + bytes[|bytes| - 1] as int
  }

  /** A run of bytes that all equal v sums to v times its length. */
  lemma {:induction false} BytesSumUniform(bytes: seq<Byte>, v: Byte)
    requires forall k | 0 <= k < |bytes| :: bytes[k] == v
    ensures BytesSum(bytes) == v as int * |bytes|
  {
    if bytes != [] {
      var init := bytes[..|bytes| - 1];
      BytesSumUniform(init, v);
      assert BytesSum(bytes) == BytesSum(init) + v as int;
      assert v as int * |init| + v as int == v as int * |bytes|;
    }
  }

  /**
   * The seeded slab holds exactly the expected checksum, as long as the
   * product 2 * 16 MiB * n does not wrap.
   */
  lemma SeededSlabSumsToExpected(n: nat, bytes: seq<Byte>)
    requires |bytes| == n * BufferBytes
    requires forall k | 0 <= k < |bytes| :: bytes[k] == 2
    requires BufferBytes * n * 2 < U64Modulus
    ensures BytesSum(bytes) == VerificationSum(n)
  {
    BytesSumUniform(bytes, 2);
  }

  // ---------------------------------------------------------------------------
  // Submission-queue entries and the linked chains

  /** The SQE flags the driver sets. */
  datatype SqeFlag = IoLink | CqeSkipSuccess | FixedFile

  /** A prepared SQE: its operation, its flags and its user data (0 when none is set). */
  datatype Sqe = Sqe(op: Op, flags: set<SqeFlag>, userData: nat)

  /**
   * The chain is linked from its first entry through its last: every entry
   * but the last carries IOSQE_IO_LINK, and the last does not, so the chain
   * ends there.
   */
  predicate LinkedThroughLast(chain: seq<Sqe>)
  {
    |chain| >= 1 &&
    (forall k | 0 <= k < |chain| - 1 :: IoLink in chain[k].flags) &&
    IoLink !in chain[|chain| - 1].flags
  }

  /**
   * The entry works on registered slot `slot`: openat_direct and
   * close_direct always name a slot, while a read or write names one only
   * when it carries IOSQE_FIXED_FILE (otherwise its descriptor is a
   * descriptor of the process).
   */
  predicate UsesSlot(sqe: Sqe, slot: nat)
  {
    match sqe.op
    case Open(_, s, _, _, _) => s == slot
    case Close(s) => s == slot
    case Write(s, _) => FixedFile in sqe.flags && s == slot
    case Read(s, _) => FixedFile in sqe.flags && s == slot
    case Unlink(_) => false
  }

  /**
   * Write chain i: openat_direct(slot i, O_CREAT | O_RDWR, 0600) and
   * write_fixed(slot i, buffer i) are linked and skip their completion on
   * success; close_direct(slot i) ends the chain and carries user data i + 1.
   */
  function WriteChain(i: nat): (chain: seq<Sqe>)
    ensures |chain| == 3 && LinkedThroughLast(chain)
    ensures forall k | 0 <= k < 2 :: CqeSkipSuccess in chain[k].flags
    ensures CqeSkipSuccess !in chain[2].flags
  {
    [ Sqe(Open(i, i, ReadWrite, true, OwnerReadWrite), {IoLink, CqeSkipSuccess}, 0),
      Sqe(Write(i, i), {FixedFile, IoLink, CqeSkipSuccess}, 0),
      Sqe(Close(i), {}, i + 1) ]
  }

  /**
   * Read chain i as the source writes it: open read-only, read_fixed into
   * buffer i with the buffer's address as user data, close, unlink; the
   * first three are linked. The read carries no IOSQE_FIXED_FILE.
   */
  function ReadChainAsWritten(i: nat, buffer: IoVec): (chain: seq<Sqe>)
    ensures |chain| == 4 && LinkedThroughLast(chain)
    ensures forall k | 0 <= k < 4 :: CqeSkipSuccess !in chain[k].flags && FixedFile !in chain[k].flags
  {
    [ Sqe(Open(i, i, ReadOnly, false, 0), {IoLink}, 0),
      Sqe(Read(i, i), {IoLink}, buffer.base),
      Sqe(Close(i), {IoLink}, 0),
      Sqe(Unlink(i), {}, 0) ]
  }

  /**
   * Read chain i with its read addressed to slot i through IOSQE_FIXED_FILE;
   * it differs from the chain as written in that one flag only.
   */
  function ReadChain(i: nat, buffer: IoVec): (chain: seq<Sqe>)
    ensures |chain| == 4 && chain[1].flags == {FixedFile, IoLink}
    ensures chain[1].op == ReadChainAsWritten(i, buffer)[1].op
    ensures chain[1].userData == ReadChainAsWritten(i, buffer)[1].userData
    ensures forall k | 0 <= k < 4 && k != 1 :: chain[k] == ReadChainAsWritten(i, buffer)[k]
  {
    [ Sqe(Open(i, i, ReadOnly, false, 0), {IoLink}, 0),
      Sqe(Read(i, i), {FixedFile, IoLink}, buffer.base),
      Sqe(Close(i), {IoLink}, 0),
      Sqe(Unlink(i), {}, 0) ]
  }

  /**
   * Shape of write chain i: linked through its close, every entry on slot i,
   * the create-or-open read-write with mode 0600, the write from buffer i
   * and the close in that order, and the close the only entry with user
   * data, which is i + 1 >= 1.
   */
  lemma WriteChainShape(i: nat)
    ensures |WriteChain(i)| == 3 && LinkedThroughLast(WriteChain(i))
    ensures forall k | 0 <= k < 3 :: UsesSlot(WriteChain(i)[k], i)
    ensures WriteChain(i)[0].op == Open(i, i, ReadWrite, true, OwnerReadWrite)
    ensures WriteChain(i)[1].op == Write(i, i) && WriteChain(i)[2].op == Close(i)
    ensures forall k | 0 <= k < 3 :: WriteChain(i)[k].userData > 0 <==> WriteChain(i)[k].op.Close?
    ensures WriteChain(i)[2].userData == i + 1
  {
  }

  /**
   * Shape of the corrected read chain i: linked through its close and ended
   * by the unlink, the read-only open, the read into buffer i and the close
   * all on slot i, and the read the only entry with user data, which is the
   * buffer's address.
   */
  lemma ReadChainShape(i: nat, buffer: IoVec)
    requires buffer.base > 0
    ensures |ReadChain(i, buffer)| == 4 && LinkedThroughLast(ReadChain(i, buffer))
    ensures forall k | 0 <= k < 3 :: UsesSlot(ReadChain(i, buffer)[k], i)
    ensures ReadChain(i, buffer)[0].op == Open(i, i, ReadOnly, false, 0)
    ensures ReadChain(i, buffer)[1].op == Read(i, i) && ReadChain(i, buffer)[2].op == Close(i)
    ensures ReadChain(i, buffer)[3].op == Unlink(i)
    ensures forall k | 0 <= k < 4 :: ReadChain(i, buffer)[k].userData > 0 <==> ReadChain(i, buffer)[k].op.Read?
    ensures ReadChain(i, buffer)[1].userData == buffer.base
  {
  }

  /**
   * As written, the read of chain i does not use slot i, the slot its own
   * openat_direct filled: without IOSQE_FIXED_FILE its descriptor i is the
   * process's descriptor i (0 is standard input).
   */
  lemma ReadAsWrittenMissesSlot(i: nat, buffer: IoVec)
    ensures UsesSlot(ReadChainAsWritten(i, buffer)[0], i)
    ensures ReadChainAsWritten(i, buffer)[1].op == Read(i, i)
    ensures ReadChainAsWritten(i, buffer)[1].flags == {IoLink}
    ensures !UsesSlot(ReadChainAsWritten(i, buffer)[1], i)
    ensures LinkedThroughLast(ReadChainAsWritten(i, buffer))
  {
  }

  /** All SQEs the write-phase loop prepares, chain after chain. */
  function WriteSqes(n: nat): (sq: seq<Sqe>)
    ensures |sq| == 3 * n
  {
    if n == 0 then [] else WriteSqes(n - 1) + WriteChain(n - 1)
  }

  /**
   * All SQEs the read-phase loop prepares, chain i reading into buffer i of
   * the slab, each chain as the source writes it.
   */
  function ReadSqes(n: nat, slabBase: nat): (sq: seq<Sqe>)
    ensures |sq| == 4 * n
  {
    if n == 0 then [] else ReadSqes(n - 1, slabBase) + ReadChainAsWritten(n - 1, BufferAt(slabBase, n - 1))
  }

  /** Write chain i occupies entries 3i, 3i + 1 and 3i + 2 of the write phase, in order. */
  lemma {:induction false} WriteSqesAt(n: nat, i: nat, j: nat)
    requires i < n && j < 3
    ensures WriteSqes(n)[3 * i + j] == WriteChain(i)[j]
  {
    if i < n - 1 {
      WriteSqesAt(n - 1, i, j);
    }
  }

  /** Read chain i occupies entries 4i to 4i + 3 of the read phase, in order. */
  lemma {:induction false} ReadSqesAt(n: nat, slabBase: nat, i: nat, j: nat)
    requires i < n && j < 4
    ensures ReadSqes(n, slabBase)[4 * i + j] == ReadChainAsWritten(i, BufferAt(slabBase, i))[j]
  {
    if i < n - 1 {
      ReadSqesAt(n - 1, slabBase, i, j);
    }
  }

  /** The write-phase loop: get three SQEs per file and prepare them. */
  method PrepareWritePhase(n: nat) returns (sq: seq<Sqe>)
    ensures sq == WriteSqes(n)
  {
    sq := [];
    for i := 0 to n
      invariant sq == WriteSqes(i)
    {
      var openSqe := Sqe(Open(i, i, ReadWrite, true, OwnerReadWrite), {IoLink, CqeSkipSuccess}, 0);
      var writeSqe := Sqe(Write(i, i), {FixedFile, IoLink, CqeSkipSuccess}, 0);
      var closeSqe := Sqe(Close(i), {}, i + 1);
      sq := sq + [openSqe, writeSqe, closeSqe];
    }
  }

  /** The read-phase loop: get four SQEs per file; the read's user data is buffers[i].iov_base. */
  method PrepareReadPhase(n: nat, buffers: array<IoVec>, ghost slabBase: nat) returns (sq: seq<Sqe>)
    requires buffers.Length >= n
    requires forall i | 0 <= i < n :: buffers[i] == BufferAt(slabBase, i)
    ensures sq == ReadSqes(n, slabBase)
  {
    sq := [];
    for i := 0 to n
      invariant sq == ReadSqes(i, slabBase)
    {
      var openSqe := Sqe(Open(i, i, ReadOnly, false, 0), {IoLink}, 0);
      var readSqe := Sqe(Read(i, i), {IoLink}, buffers[i].base);
      var closeSqe := Sqe(Close(i), {IoLink}, 0);
      var unlinkSqe := Sqe(Unlink(i), {}, 0);
      sq := sq + [openSqe, readSqe, closeSqe, unlinkSqe];
    }
  }

  /** Number of SQEs that carry user data. */
  function TaggedSqes(sq: seq<Sqe>): nat
  {
    if sq == [] then 0
    else TaggedSqes(sq[..|sq| - 1]) + (if sq[|sq| - 1].userData > 0 then 1 else 0)
  }

  lemma {:induction false} TaggedSqesAppend(a: seq<Sqe>, b: seq<Sqe>)
    ensures TaggedSqes(a + b) == TaggedSqes(a) + TaggedSqes(b)
    decreases |b|
  {
    if b == [] {
      assert a + b == a;
    } else {
      TaggedSqesAppend(a, b[..|b| - 1]);
      assert (a + b)[..|a + b| - 1] == a + b[..|b| - 1];
      assert (a + b)[|a + b| - 1] == b[|b| - 1];
    }
  }

  /** A chain of three or four SQEs, counted entry by entry. */
  lemma TaggedSqesOfChain(sq: seq<Sqe>)
    requires 3 <= |sq| <= 4
    ensures TaggedSqes(sq) ==
      (if sq[0].userData > 0 then 1 else 0) + (if sq[1].userData > 0 then 1 else 0) +
      (if sq[2].userData > 0 then 1 else 0) + (if |sq| == 4 && sq[3].userData > 0 then 1 else 0)
  {
    assert sq[..1][..0] == [];
    assert TaggedSqes(sq[..1]) == (if sq[0].userData > 0 then 1 else 0);
    assert sq[..2][..1] == sq[..1];
    assert TaggedSqes(sq[..2]) == TaggedSqes(sq[..1]) + (if sq[1].userData > 0 then 1 else 0);
    assert sq[..3][..2] == sq[..2];
    assert TaggedSqes(sq[..3]) == TaggedSqes(sq[..2]) + (if sq[2].userData > 0 then 1 else 0);
    if |sq| == 4 {
      assert sq[..3] == sq[..|sq| - 1];
    } else {
      assert sq[..3] == sq;
    }
  }

  /** Write chain i tags one SQE, its close. */
  lemma WriteChainTagsOne(i: nat)
    ensures TaggedSqes(WriteChain(i)) == 1
  {
    TaggedSqesOfChain(WriteChain(i));
  }

  /** The corrected read chain i tags one SQE, its read, when the slab's address is not null. */
  lemma ReadChainTagsOne(i: nat, buffer: IoVec)
    requires buffer.base > 0
    ensures TaggedSqes(ReadChain(i, buffer)) == 1
  {
    TaggedSqesOfChain(ReadChain(i, buffer));
  }

  /**
   * Read chain i as the source writes it tags one SQE, its read, with the
   * buffer's address as user data (the read loop dereferences it), when the
   * slab's address is not null.
   */
  lemma ReadChainAsWrittenTagsOne(i: nat, buffer: IoVec)
    requires buffer.base > 0
    ensures TaggedSqes(ReadChainAsWritten(i, buffer)) == 1
    ensures forall k | 0 <= k < 4 :: ReadChainAsWritten(i, buffer)[k].userData > 0 <==> k == 1
    ensures ReadChainAsWritten(i, buffer)[1].userData == buffer.base
  {
    TaggedSqesOfChain(ReadChainAsWritten(i, buffer));
  }

  /** The write phase tags exactly n SQEs, the n closes. */
  lemma {:induction false} WriteSqesTagged(n: nat)
    ensures TaggedSqes(WriteSqes(n)) == n
  {
    if n > 0 {
      WriteSqesTagged(n - 1);
      TaggedSqesAppend(WriteSqes(n - 1), WriteChain(n - 1));
      WriteChainTagsOne(n - 1);
    }
  }

  /** The read phase, as the source stages it, tags exactly n SQEs, the n reads. */
  lemma {:induction false} ReadSqesTagged(n: nat, slabBase: nat)
    requires slabBase > 0
    ensures TaggedSqes(ReadSqes(n, slabBase)) == n
  {
    if n > 0 {
      ReadSqesTagged(n - 1, slabBase);
      TaggedSqesAppend(ReadSqes(n - 1, slabBase), ReadChainAsWritten(n - 1, BufferAt(slabBase, n - 1)));
      ReadChainAsWrittenTagsOne(n - 1, BufferAt(slabBase, n - 1));
    }
  }

  /**
   * Each phase has exactly n SQEs with user data (the n closes, the n reads),
   * so the write loop's wait for n tagged completions matches what was
   * submitted; the 3n + 4n entries fill the queue of 7n.
   */
  lemma PhasesTagOnePerFile(n: nat, slabBase: nat)
    requires slabBase > 0
    ensures TaggedSqes(WriteSqes(n)) == n
    ensures TaggedSqes(ReadSqes(n, slabBase)) == n
    ensures |WriteSqes(n)| + |ReadSqes(n, slabBase)| == QueueEntries(n)
  {
    WriteSqesTagged(n);
    ReadSqesTagged(n, slabBase);
  }

  // ---------------------------------------------------------------------------
  // Completions and the two wait loops

  /** One io_uring_wait_cqe: its return value, and the CQE's res and user data. */
  datatype Cqe = Cqe(ret: int, res: int, userData: nat)

  /** Number of CQEs that carry user data. */
  function Tagged(cqes: seq<Cqe>): nat
  {
    if cqes == [] then 0
    else Tagged(cqes[..|cqes| - 1]) + (if cqes[|cqes| - 1].userData > 0 then 1 else 0)
  }

  /** Taking one more CQE adds one to the tagged count exactly when it carries user data. */
  lemma TaggedExtend(cqes: seq<Cqe>, i: nat)
    requires i < |cqes|
    ensures Tagged(cqes[..i + 1]) == Tagged(cqes[..i]) + (if cqes[i].userData > 0 then 1 else 0)
  {
    assert cqes[..i + 1][..i] == cqes[..i];
  }

  /** The tagged count grows with the prefix, strictly across a tagged CQE. */
  lemma {:induction false} TaggedMonotone(cqes: seq<Cqe>, i: nat, j: nat)
    requires i <= j <= |cqes|
    ensures Tagged(cqes[..i]) <= Tagged(cqes[..j])
    ensures i < j && cqes[j - 1].userData > 0 ==> Tagged(cqes[..i]) < Tagged(cqes[..j])
    decreases j - i
  {
    if i < j {
      TaggedExtend(cqes, j - 1);
      TaggedMonotone(cqes, i, j - 1);
    }
  }

  /** The write loop breaks after its k-th wait: that CQE is the n-th one carrying user data. */
  predicate WriteLoopExitsAt(n: nat, cqes: seq<Cqe>, k: nat)
  {
    1 <= k <= |cqes| && cqes[k - 1].userData > 0 && Tagged(cqes[..k]) == n
  }

  /** There is at most one place where the write loop can break. */
  lemma WriteLoopExitUnique(n: nat, cqes: seq<Cqe>, k1: nat, k2: nat)
    requires WriteLoopExitsAt(n, cqes, k1) && WriteLoopExitsAt(n, cqes, k2)
    ensures k1 == k2
  {
    if k1 < k2 {
      TaggedMonotone(cqes, k1, k2);
    } else if k2 < k1 {
      TaggedMonotone(cqes, k2, k1);
    }
  }

  /** With n = 0, or fewer than n tagged CQEs in all, the write loop never breaks. */
  lemma NoWriteLoopExit(n: nat, cqes: seq<Cqe>)
    requires n == 0 || Tagged(cqes) < n
    ensures forall k: nat :: !WriteLoopExitsAt(n, cqes, k)
  {
    assert cqes[..|cqes|] == cqes;
    forall k: nat | 1 <= k <= |cqes| && cqes[k - 1].userData > 0
      ensures Tagged(cqes[..k]) != n
    {
      TaggedMonotone(cqes, k - 1, k);
      TaggedMonotone(cqes, k, |cqes|);
    }
  }

  /**
   * The write-phase loop: wait for CQEs and count those with user data,
   * whatever their result, until the n-th; `done` is false when the stream
   * runs out first (the real loop would block in io_uring_wait_cqe).
   */
  method AwaitWriteChains(n: nat, cqes: seq<Cqe>) returns (waits: nat, done: bool)
    ensures waits <= |cqes|
    ensures done ==> WriteLoopExitsAt(n, cqes, waits)
    ensures !done ==> waits == |cqes| && forall k: nat :: !WriteLoopExitsAt(n, cqes, k)
    ensures done <==> n >= 1 && Tagged(cqes) >= n
  {
    var completedWriteChains := 0;
    waits, done := 0, false;
    while waits < |cqes|
      invariant waits <= |cqes|
      invariant completedWriteChains == Tagged(cqes[..waits])
      invariant n == 0 || completedWriteChains < n
    {
      var cqe := cqes[waits];
      TaggedExtend(cqes, waits);
      waits := waits + 1;
      if cqe.userData > 0 {
        completedWriteChains := completedWriteChains + 1;
        if completedWriteChains == n {
          done := true;
          TaggedMonotone(cqes, waits, |cqes|);
          assert cqes[..|cqes|] == cqes;
          return;
        }
      }
    }
    assert cqes[..waits] == cqes;
    NoWriteLoopExit(n, cqes);
  }

  /** The read loop adds up the bytes of a CQE only when both results are non-negative and it carries user data. */
  predicate Contributes(c: Cqe)
  {
    c.ret >= 0 && c.res >= 0 && c.userData > 0
  }

  /**
   * The user data of every contributing CQE is an address inside the slab
   * (which starts at address `slabBase`), and its first `res` bytes are too:
   * the read loop dereferences it.
   */
  predicate ReadsInSlab(cqes: seq<Cqe>, slabBase: nat, slabLength: nat)
  {
    forall k | 0 <= k < |cqes| :: Contributes(cqes[k]) ==>
      slabBase <= cqes[k].userData && cqes[k].userData - slabBase + cqes[k].res <= slabLength
  }

  /** What one CQE adds to the read loop's sum. */
  function Contribution(c: Cqe, bytes: seq<Byte>, slabBase: nat): nat
    requires Contributes(c) ==> slabBase <= c.userData && c.userData - slabBase + c.res <= |bytes|
  {
    if Contributes(c) then BytesSum(bytes[c.userData - slabBase .. c.userData - slabBase + c.res]) else 0
  }

  /** The read loop's sum over `cqes`, as an unbounded integer. */
  function ReadSum(cqes: seq<Cqe>, bytes: seq<Byte>, slabBase: nat): nat
    requires ReadsInSlab(cqes, slabBase, |bytes|)
  {
    if cqes == [] then 0
    else ReadSum(cqes[..|cqes| - 1], bytes, slabBase) + Contribution(cqes[|cqes| - 1], bytes, slabBase)
  }

  /** Number of waits the read loop makes on a stream of `available` CQEs: 4n, unless the stream runs out. */
  function ReadWaits(n: nat, available: nat): nat
  {
    if available < 4 * n then available else 4 * n
  }

  /** Adding one more byte of a slice to its sum. */
  lemma BytesSumExtend(bytes: seq<Byte>, lo: nat, hi: nat)
    requires lo <= hi < |bytes|
    ensures BytesSum(bytes[lo..hi + 1]) == BytesSum(bytes[lo..hi]) + bytes[hi] as int
  {
    assert bytes[lo..hi + 1][..hi - lo] == bytes[lo..hi];
  }

  /** Handling one more CQE adds its contribution to the read sum. */
  lemma ReadSumExtend(cqes: seq<Cqe>, bytes: seq<Byte>, slabBase: nat, i: nat)
    requires i < |cqes| && ReadsInSlab(cqes[..i + 1], slabBase, |bytes|)
    ensures ReadsInSlab(cqes[..i], slabBase, |bytes|)
    ensures ReadSum(cqes[..i + 1], bytes, slabBase) ==
      ReadSum(cqes[..i], bytes, slabBase) + Contribution(cqes[i], bytes, slabBase)
  {
    assert cqes[..i + 1][..i] == cqes[..i];
    assert cqes[..i + 1][i] == cqes[i];
  }

  /** Reducing modulo 2^64 before or after an addition gives the same uint64_t. */
  lemma ModAdd(x: nat, y: nat)
    ensures (x % U64Modulus + y) % U64Modulus == (x + y) % U64Modulus
  {
  }

  /** The read sum modulo 2^64 after one more CQE: its contribution added to the sum so far. */
  lemma ReadStep(cqes: seq<Cqe>, bytes: seq<Byte>, slabBase: nat, i: nat, sum: nat)
    requires i < |cqes| && ReadsInSlab(cqes[..i + 1], slabBase, |bytes|)
    requires ReadsInSlab(cqes[..i], slabBase, |bytes|)
    requires sum == ReadSum(cqes[..i], bytes, slabBase) % U64Modulus
    ensures (sum + Contribution(cqes[i], bytes, slabBase)) % U64Modulus ==
      ReadSum(cqes[..i + 1], bytes, slabBase) % U64Modulus
    ensures !Contributes(cqes[i]) ==> sum == ReadSum(cqes[..i + 1], bytes, slabBase) % U64Modulus
  {
    ReadSumExtend(cqes, bytes, slabBase, i);
    ModAdd(ReadSum(cqes[..i], bytes, slabBase), Contribution(cqes[i], bytes, slabBase));
  }

  /**
   * The inner loop of the read phase: add the `count` bytes at `offset` of
   * the slab, one by one, to the uint64_t sum.
   */
  method AddBytes(sum: nat, slab: array<Byte>, offset: nat, count: nat) returns (total: nat)
    requires offset + count <= slab.Length
    ensures total == (sum + BytesSum(slab[offset..offset + count])) % U64Modulus
  {
    total := sum % U64Modulus;
    var dataIdx := 0;
    while dataIdx < count
      invariant 0 <= dataIdx <= count
      invariant total == (sum + BytesSum(slab[offset..offset + dataIdx])) % U64Modulus
    {
      BytesSumExtend(slab[..], offset, offset + dataIdx);
      assert slab[..][offset..offset + dataIdx + 1] == slab[offset..offset + dataIdx + 1];
      assert slab[..][offset..offset + dataIdx] == slab[offset..offset + dataIdx];
      ModAdd(sum + BytesSum(slab[offset..offset + dataIdx]), slab[offset + dataIdx] as int);
      total := (total + slab[offset + dataIdx] as int) % U64Modulus;
      dataIdx := dataIdx + 1;
    }
  }

  /**
   * The read-phase loop: 4n waits, independent of the results; each
   * contributing CQE adds the first `res` bytes at its user-data address to
   * the uint64_t sum.
   */
  method ReadPhase(n: nat, cqes: seq<Cqe>, slab: array<Byte>, slabBase: nat) returns (sum: nat, waits: nat)
    requires ReadsInSlab(cqes[..ReadWaits(n, |cqes|)], slabBase, slab.Length)
    ensures waits == ReadWaits(n, |cqes|)
    ensures sum == ReadSum(cqes[..waits], slab[..], slabBase) % U64Modulus
  {
    sum, waits := 0, 0;
    while waits < 4 * n && waits < |cqes|
      invariant waits <= ReadWaits(n, |cqes|)
      invariant ReadsInSlab(cqes[..waits], slabBase, slab.Length)
      invariant sum == ReadSum(cqes[..waits], slab[..], slabBase) % U64Modulus
    {
      var cqe := cqes[waits];
      assert cqes[..waits + 1] == cqes[..ReadWaits(n, |cqes|)][..waits + 1];
      ReadsInSlabPrefix(cqes[..ReadWaits(n, |cqes|)], slabBase, slab.Length, waits + 1);
      ReadStep(cqes, slab[..], slabBase, waits, sum);
      ghost var next := ReadSum(cqes[..waits + 1], slab[..], slabBase) % U64Modulus;
      if cqe.ret < 0 || cqe.res < 0 {
        // Failed: reported, adds nothing.
        assert sum == next;
      } else if cqe.userData > 0 {
        var offset := cqe.userData - slabBase;
        assert slab[..][offset..offset + cqe.res] == slab[offset..offset + cqe.res];
        assert Contribution(cqe, slab[..], slabBase) == BytesSum(slab[offset..offset + cqe.res]);
        sum := AddBytes(sum, slab, offset, cqe.res);
        assert sum == next;
      } else {
        assert sum == next;
      }
      waits := waits + 1;
    }
  }

  /** Bytes reported by the contributing CQEs: the sum of their `res`. */
  function TotalRead(cqes: seq<Cqe>): nat
  {
    if cqes == [] then 0
    else TotalRead(cqes[..|cqes| - 1]) + (if Contributes(cqes[|cqes| - 1]) then cqes[|cqes| - 1].res else 0)
  }

  /** Over a slab whose bytes all equal v, one CQE contributes v times the bytes it reports. */
  lemma ContributionUniform(c: Cqe, bytes: seq<Byte>, slabBase: nat, v: Byte)
    requires Contributes(c) ==> slabBase <= c.userData && c.userData - slabBase + c.res <= |bytes|
    requires forall k | 0 <= k < |bytes| :: bytes[k] == v
    ensures Contribution(c, bytes, slabBase) == v as int * (if Contributes(c) then c.res else 0)
  {
    if Contributes(c) {
      var offset := c.userData - slabBase;
      BytesSumUniform(bytes[offset..offset + c.res], v);
    }
  }

  /** The CQEs of a prefix of `cqes` read inside the slab when those of `cqes` do. */
  lemma ReadsInSlabPrefix(cqes: seq<Cqe>, slabBase: nat, slabLength: nat, i: nat)
    requires i <= |cqes| && ReadsInSlab(cqes, slabBase, slabLength)
    ensures ReadsInSlab(cqes[..i], slabBase, slabLength)
  {
    forall k | 0 <= k < i ensures cqes[..i][k] == cqes[k] { }
  }

  /** When every byte of the slab is v, the read sum is v times the bytes reported read. */
  lemma {:induction false} ReadSumUniform(cqes: seq<Cqe>, bytes: seq<Byte>, slabBase: nat, v: Byte)
    requires ReadsInSlab(cqes, slabBase, |bytes|)
    requires forall k | 0 <= k < |bytes| :: bytes[k] == v
    ensures ReadSum(cqes, bytes, slabBase) == v as int * TotalRead(cqes)
  {
    if cqes != [] {
      var init := cqes[..|cqes| - 1];
      var c := cqes[|cqes| - 1];
      ReadsInSlabPrefix(cqes, slabBase, |bytes|, |cqes| - 1);
      ReadSumUniform(init, bytes, slabBase, v);
      ContributionUniform(c, bytes, slabBase, v);
      var extra := if Contributes(c) then c.res else 0;
      assert v as int * TotalRead(init) + v as int * extra == v as int * (TotalRead(init) + extra);
    }
  }

  /**
   * Verdict of the read phase when the slab reads back as all 2s (every byte
   * the write phase wrote): the sum matches the expected checksum exactly
   * when the contributing reads reported 16 MiB per file in total.
   */
  lemma ReadBackVerdict(n: nat, cqes: seq<Cqe>, bytes: seq<Byte>, slabBase: nat)
    requires ReadsInSlab(cqes, slabBase, |bytes|)
    requires forall k | 0 <= k < |bytes| :: bytes[k] == 2
    requires 2 * TotalRead(cqes) < U64Modulus && BufferBytes * n * 2 < U64Modulus
    ensures ReadSum(cqes, bytes, slabBase) % U64Modulus == VerificationSum(n) <==> TotalRead(cqes) == n * BufferBytes
  {
    ReadSumUniform(cqes, bytes, slabBase, 2);
    var total := TotalRead(cqes);
    assert ReadSum(cqes, bytes, slabBase) % U64Modulus == 2 * total;
    assert VerificationSum(n) == 2 * (n * BufferBytes);
  }

  /** How main ends: it returns an exit status, or it waits forever for a CQE that never comes. */
  datatype Exit = Returned(code: int) | Blocked

  /** The three set-up steps main checks all succeed. */
  predicate SetupSucceeds(queueInit: int, registerFiles: int, registerBuffers: int)
  {
    SetupContext(queueInit) == 0 && registerFiles >= 0 && registerBuffers >= 0
  }

  /** The CQEs of the read phase: at most 4n, right after the write loop's k waits. */
  function ReadWindow(n: nat, cqes: seq<Cqe>, k: nat): seq<Cqe>
    requires k <= |cqes|
  {
    cqes[k..][..ReadWaits(n, |cqes| - k)]
  }

  /**
   * main, from ring set-up to its return. The ring's answers are inputs:
   * the results of io_uring_queue_init, io_uring_register_files and
   * io_uring_register_buffers, the address of the slab, and the CQEs in the
   * order io_uring_wait_cqe delivers them. `slab` is the slab as the read
   * loop finds it, filled by the fixed reads. `submitted` is every SQE handed
   * to io_uring_submit.
   */
  method RunMain(n: nat, queueInit: int, registerFiles: int, registerBuffers: int,
                 slabBase: nat, cqes: seq<Cqe>, slab: array<Byte>)
    returns (r: Exit, submitted: seq<Sqe>)
    requires slab.Length == n * BufferBytes
    requires forall k: nat | WriteLoopExitsAt(n, cqes, k) ::
      ReadsInSlab(ReadWindow(n, cqes, k), slabBase, slab.Length)
    ensures !SetupSucceeds(queueInit, registerFiles, registerBuffers) ==> r == Returned(1) && submitted == []
    ensures SetupSucceeds(queueInit, registerFiles, registerBuffers) ==>
      forall k: nat | WriteLoopExitsAt(n, cqes, k) ::
        submitted == WriteSqes(n) + ReadSqes(n, slabBase) &&
        r == (if k + 4 * n <= |cqes|
              then Returned(ExitCode(ReadSum(ReadWindow(n, cqes, k), slab[..], slabBase) % U64Modulus,
                                     VerificationSum(n)))
              else Blocked)
    ensures (SetupSucceeds(queueInit, registerFiles, registerBuffers) &&
             forall k: nat :: !WriteLoopExitsAt(n, cqes, k)) ==>
      r == Blocked && submitted == WriteSqes(n)
  {
    submitted := [];
    if SetupContext(queueInit) != 0 {
      return Returned(1), submitted;
    }
    if registerFiles < 0 {
      return Returned(1), submitted;
    }
    var buffers := LayoutBuffers(n, slabBase);
    if registerBuffers < 0 {
      return Returned(1), submitted;
    }
    var writeSqes := PrepareWritePhase(n);
    submitted := writeSqes;
    var writeWaits, done := AwaitWriteChains(n, cqes);
    if !done {
      return Blocked, submitted;
    }
    forall k: nat | WriteLoopExitsAt(n, cqes, k)
      ensures k == writeWaits
    {
      WriteLoopExitUnique(n, cqes, k, writeWaits);
    }
    var readSqes := PrepareReadPhase(n, buffers, slabBase);
    submitted := submitted + readSqes;
    var rest := cqes[writeWaits..];
    assert rest[..ReadWaits(n, |rest|)] == ReadWindow(n, cqes, writeWaits);
    var sum, readWaits := ReadPhase(n, rest, slab, slabBase);
    if readWaits < 4 * n {
      return Blocked, submitted;
    }
    r := Returned(ExitCode(sum, VerificationSum(n)));
  }
}

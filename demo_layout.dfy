/**
 * Set-up of the Swift driver (Sources/demo/demo.swift): the queue depth,
 * the slab of 2 * FILE_COUNT sixteen-byte chunks registered as buffers,
 * the seeding loop that stores each file's index in its chunk and
 * accumulates the expected checksum, and the linked chains of the write
 * phase and the read phase.
 */
module DemoLayout {
  import opened Ops

  /** FILE_COUNT() of the Swift driver. */
  const FileCount: nat := 512

  /** Size of one chunk of the slab, and so of one registered buffer. */
  const ChunkBytes: nat := 16

  /**
   * The slab is initialised and seeded as native Ints: a 16-byte chunk holds
   * two 8-byte words, and chunk k begins at word WordsPerChunk * k.
   */
  const WordsPerChunk: nat := 2

  /** Size of a Swift Int, in bytes. */
  const WordBytes: nat := 8

  /** Depth the ring is created with: seven entries per file. */
  function QueueDepth(n: nat): nat
  {
    n * 7
  }

  /** The slab is split evenly into two chunks per file. */
  function ChunkCount(n: nat): nat
  {
    n * 2
  }

  function SlabBytes(n: nat): nat
  {
    ChunkBytes * ChunkCount(n)
  }

  /** Byte offset of chunk k within the slab. */
  function ChunkStart(k: nat): nat
  {
    ChunkBytes * k
  }

  /** Every byte of the slab lies in exactly one chunk, and that chunk exists. */
  lemma ChunkContaining(n: nat, b: nat)
    requires b < SlabBytes(n)
    ensures b / ChunkBytes < ChunkCount(n)
    ensures ChunkStart(b / ChunkBytes) <= b < ChunkStart(b / ChunkBytes) + ChunkBytes
    ensures forall k: nat :: ChunkStart(k) <= b < ChunkStart(k) + ChunkBytes ==> k == b / ChunkBytes
  {
  }

  /**
   * The Int seeded for file i, word WordsPerChunk * i of the slab, starts at
   * the first byte of chunk i and lies wholly inside that chunk.
   */
  lemma SeededWordInChunk(n: nat, i: nat)
    requires i < n
    ensures WordBytes * (WordsPerChunk * i) == ChunkStart(i)
    ensures (WordBytes * (WordsPerChunk * i)) / ChunkBytes == i
    ensures WordBytes <= ChunkBytes && ChunkStart(i) + WordBytes <= SlabBytes(n)
  {
  }

  /** With FILE_COUNT = 512: a ring of 3584 entries and a slab of 1024 chunks, 16384 bytes. */
  lemma FileCountLayout()
    ensures QueueDepth(FileCount) == 3584
    ensures ChunkCount(FileCount) == 1024 && SlabBytes(FileCount) == 16384
    ensures FileCount * (FileCount - 1) == 261632
  {
  }

  /**
   * The seeding loop: the slab starts as all-zero Ints; chunk i (i < n) gets
   * the value i in its first word, and the expected checksum is twice the sum
   * of those values.
   */
  method SeedSlab(n: nat) returns (slab: array<int>, verificationSum: int)
    ensures slab.Length == WordsPerChunk * ChunkCount(n)
    ensures forall i | 0 <= i < n :: slab[WordsPerChunk * i] == i
    ensures forall w | 0 <= w < slab.Length ::
      (w % WordsPerChunk != 0 || w / WordsPerChunk >= n) ==> slab[w] == 0
    ensures verificationSum == n * (n - 1)
  {
    slab := new int[WordsPerChunk * ChunkCount(n)](_ => 0);
    verificationSum := 0;
    var i := 0;
    while i < n
      invariant 0 <= i <= n
      invariant 2 * verificationSum == i * (i - 1)
      invariant forall k | 0 <= k < i :: slab[WordsPerChunk * k] == k
      invariant forall w | 0 <= w < slab.Length ::
        (w % WordsPerChunk != 0 || w / WordsPerChunk >= i) ==> slab[w] == 0
    {
      verificationSum := verificationSum + i;
      slab[WordsPerChunk * i] := i;
      i := i + 1;
    }
    verificationSum := verificationSum * 2;
  }

  /** Write chain i writes from registered buffer i. */
  function WriteBuffer(i: nat): nat
  {
    i
  }

  /** Read chain i reads into registered buffer i + n, the second half of the slab. */
  function ReadBuffer(i: nat, n: nat): nat
  {
    i + n
  }

  /** Write chain i: create-or-open file i read-write into slot i, write buffer i, close. */
  function WriteChain(i: nat): (chain: seq<Op>)
    ensures |chain| == 3 && chain[0].Open? && chain[0].file == i
    ensures forall k | 0 <= k < 3 :: OnSlot(chain[k], i)
    ensures BuffersOf(chain) == {WriteBuffer(i)}
  {
    var chain := [Open(i, i, ReadWrite, true, OwnerReadWrite), Write(i, WriteBuffer(i)), Close(i)];
    assert chain[1].buffer in BuffersOf(chain);
    chain
  }

  /** Read chain i: open file i read-only into slot i, read into buffer i + n, close, unlink. */
  function ReadChain(i: nat, n: nat): (chain: seq<Op>)
    ensures |chain| == 4 && chain[0].Open? && chain[0].file == i && chain[3] == Unlink(i)
    ensures forall k | 0 <= k < 3 :: OnSlot(chain[k], i)
    ensures BuffersOf(chain) == {ReadBuffer(i, n)}
  {
    var chain := [Open(i, i, ReadOnly, false, 0), Read(i, ReadBuffer(i, n)), Close(i), Unlink(i)];
    assert chain[1].buffer in BuffersOf(chain);
    chain
  }

  /** The chains staged for the write phase, chain i at position i. */
  function WritePhase(n: nat): (chains: seq<seq<Op>>)
    ensures |chains| == n
    ensures forall i | 0 <= i < n :: chains[i] == WriteChain(i)
  {
    if n == 0 then [] else WritePhase(n - 1) + [WriteChain(n - 1)]
  }

  /** The chains staged for the read phase, chain i at position i. */
  function ReadPhase(n: nat): (chains: seq<seq<Op>>)
    ensures |chains| == n
    ensures forall i | 0 <= i < n :: chains[i] == ReadChain(i, n)
  {
    ReadPhaseFrom(n, n)
  }

  /** The first `count` read chains for `n` files. */
  function ReadPhaseFrom(count: nat, n: nat): (chains: seq<seq<Op>>)
    ensures |chains| == count
    ensures forall i | 0 <= i < count :: chains[i] == ReadChain(i, n)
  {
    if count == 0 then [] else ReadPhaseFrom(count - 1, n) + [ReadChain(count - 1, n)]
  }

  /** The staging loop of the write phase: one prepare(linkedRequests:) per file. */
  method PrepareWritePhase(n: nat) returns (staged: seq<seq<Op>>)
    ensures staged == WritePhase(n)
  {
    staged := [];
    for i := 0 to n
      invariant staged == WritePhase(i)
    {
      staged := staged + [[Open(i, i, ReadWrite, true, OwnerReadWrite), Write(i, i), Close(i)]];
    }
  }

  /** The staging loop of the read phase (the body of postWriteWork before its submit). */
  method PrepareReadPhase(n: nat) returns (staged: seq<seq<Op>>)
    ensures staged == ReadPhase(n)
  {
    staged := [];
    for i := 0 to n
      invariant staged == ReadPhaseFrom(i, n)
    {
      staged := staged + [[Open(i, i, ReadOnly, false, 0), Read(i, i + n), Close(i), Unlink(i)]];
    }
  }

  /**
   * Shape of the chains: every operation of chain i except the unlink works on
   * slot i, the write chain transfers through buffer i only and the read chain
   * through buffer i + n only.
   */
  lemma ChainShapes(i: nat, n: nat)
    ensures |WriteChain(i)| == 3 && |ReadChain(i, n)| == 4
    ensures WriteChain(i)[0].Open? && WriteChain(i)[1].Write? && WriteChain(i)[2].Close?
    ensures ReadChain(i, n)[0].Open? && ReadChain(i, n)[1].Read? && ReadChain(i, n)[2].Close?
    ensures ReadChain(i, n)[3].Unlink?
    ensures WriteChain(i)[0] == Open(i, i, ReadWrite, true, OwnerReadWrite)
    ensures ReadChain(i, n)[0] == Open(i, i, ReadOnly, false, 0) && ReadChain(i, n)[3] == Unlink(i)
    ensures forall k | 0 <= k < 3 :: OnSlot(WriteChain(i)[k], i)
    ensures forall k | 0 <= k < 3 :: OnSlot(ReadChain(i, n)[k], i)
    ensures BuffersOf(WriteChain(i)) == {i}
    ensures BuffersOf(ReadChain(i, n)) == {i + n}
  {
  }

  /**
   * Buffer layout: for i, j < n the write buffer of chain i and the read buffer
   * of chain j are different registered chunks, both inside the slab, and no
   * two chains of one phase share a buffer.
   */
  lemma BuffersDisjoint(n: nat, i: nat, j: nat)
    requires i < n && j < n
    ensures BuffersOf(WritePhase(n)[i]) !! BuffersOf(ReadPhase(n)[j])
    ensures forall b | b in BuffersOf(WritePhase(n)[i]) + BuffersOf(ReadPhase(n)[j]) :: b < ChunkCount(n)
    ensures i != j ==> BuffersOf(WritePhase(n)[i]) !! BuffersOf(WritePhase(n)[j])
    ensures i != j ==> BuffersOf(ReadPhase(n)[i]) !! BuffersOf(ReadPhase(n)[j])
  {
    ChainShapes(i, n);
    ChainShapes(j, n);
  }

  /** The queue depth 7N is exactly the 3N write entries plus the 4N read entries. */
  lemma QueueDepthCoversBothPhases(n: nat)
    ensures TotalEntries(WritePhase(n)) == 3 * n
    ensures TotalEntries(ReadPhase(n)) == 4 * n
    ensures TotalEntries(WritePhase(n)) + TotalEntries(ReadPhase(n)) == QueueDepth(n)
  {
    TotalEntriesUniform(WritePhase(n), 3);
    TotalEntriesUniform(ReadPhase(n), 4);
  }
}

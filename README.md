# io_uring demo drivers: caller-side protocol

This project models the caller-side protocol of two small driver programs for
a Linux io_uring ring. Each program writes FILE_COUNT files through linked
request chains against registered file slots and registered buffers. It then
reads the files back through a second set of chains, adds up what it reads,
and exits 0 when the sum matches a checksum computed at seed time.

The ring itself (swift-system's `IORing`, liburing) is outside the model. It is
replaced by its inputs: the results of the set-up calls, and the sequence of
completions it delivers.

- `ops.dfy` (module `Ops`): the operations a chain is made of (open, write,
  read, close, unlink) and how many queue entries a batch of chains occupies.
- `demo_layout.dfy` (module `DemoLayout`): the Swift driver's set-up. This
  covers the queue depth 7N and the slab of 2N sixteen-byte chunks. It also
  covers the seeding loop, which stores i in chunk i and computes the checksum
  N(N-1), and the write and read chains with the loops that stage them.
- `demo_dispatch.dfy` (module `DemoDispatch`): the Swift completion handler.
  `Step` and `Run` specify it. The class `Dispatcher` holds
  `completedOperationCount`, `doneWriting` and the sum, and `OnCompletion` and
  `Drain` update them in place. The lemmas prove the phase accounting: the
  read phase is submitted on the 3N-th completion and the handler finishes on
  the 7N-th.
- `uring.dfy` (module `Uring`): the C driver. This covers `setup_context`, the
  slab filled with byte 2, the iovec layout, and the chains of SQEs with their
  link flags and user data. It also covers the write-phase wait loop, the 4N
  read-phase waits with byte summation, and `main`'s verdict (`RunMain`).

## Model

| member | source | states |
|---|---|---|
| `Ops.TotalEntriesUniform` | Sources/demo/demo.swift:21 | a batch of chains that all have k operations occupies k times as many queue entries as it has chains |
| `DemoLayout.ChunkContaining` | Sources/demo/demo.swift:25-29 | the slab of 16·2N bytes is split into 2N 16-byte chunks; every byte lies in exactly one chunk, and that chunk's index is below 2N |
| `DemoLayout.SeededWordInChunk` | Sources/demo/demo.swift:28-33 | the Int seeded for file i, word 2i of the slab, starts at byte 16i, the first byte of chunk i, and lies wholly inside chunk i and the slab |
| `DemoLayout.FileCountLayout` | Sources/demo/demo.swift:12-26 | with FILE_COUNT = 512 the ring has 3584 entries and the slab 1024 chunks of 16 bytes, and the checksum N(N−1) is 261632 |
| `DemoLayout.SeedSlab` | Sources/demo/demo.swift:25-35 | after seeding, the first word of chunk i holds i for every i < N, all other words are 0, and verificationSum = 2·(0+…+(N−1)) = N(N−1) |
| `DemoLayout.WriteChain` | Sources/demo/demo.swift:44-61 | write chain i has three operations: an open of file i, then operations all on slot i, and its only buffer is write buffer i |
| `DemoLayout.ReadChain` | Sources/demo/demo.swift:72-91 | read chain i has four operations: an open of file i, the first three on slot i, an unlink of file i last, and its only buffer is read buffer i+N |
| `DemoLayout.WritePhase` | Sources/demo/demo.swift:42-63 | the write phase stages N chains, and chain i is the write chain of file i |
| `DemoLayout.ReadPhase` | Sources/demo/demo.swift:70-93 | the read phase stages N chains, and chain i is the read chain of file i |
| `DemoLayout.PrepareWritePhase` | Sources/demo/demo.swift:42-63 | the staging loop prepares exactly the write-phase chains, in file order |
| `DemoLayout.PrepareReadPhase` | Sources/demo/demo.swift:70-93 | the staging loop in postWriteWork prepares exactly the read-phase chains, in file order |
| `DemoLayout.ChainShapes` | Sources/demo/demo.swift:44-91 | write chain i is Open(file i, slot i, read-write, create, 0600)→Write→Close and read chain i is Open(file i, slot i, read-only, no create, no permissions)→Read→Close→Unlink(file i); every op except the unlink is on slot i; the write uses only buffer i and the read only buffer i+N |
| `DemoLayout.BuffersDisjoint` | Sources/demo/demo.swift:25-83 | write buffers and read buffers are disjoint and all below 2N, and no two chains of one phase share a buffer |
| `DemoLayout.QueueDepthCoversBothPhases` | Sources/demo/demo.swift:21-93 | the write phase has 3N entries and the read phase 4N, which together fill the queue depth 7N |
| `DemoDispatch.WrappingAdd` | Sources/demo/demo.swift:111 | wrappingAdd gives a 64-bit value congruent to a+b modulo 2^64, and gives exactly a+b when that fits |
| `DemoDispatch.Step` | Sources/demo/demo.swift:101-124 | one completion: once doneWriting is set it stays set; the read phase is submitted only when leaving the write phase, with the count reset to 0; Finish happens only with doneWriting set, and its exit code is 0 iff the new sum equals verificationSum |
| `DemoDispatch.Run` | Sources/demo/demo.swift:100-126 | the handler over a stream yields at most one action per completion, and it stops before the stream ends only at a Finish |
| `DemoDispatch.RunStopsAtFinish` | Sources/demo/demo.swift:118-124 | only the last action of a run can be Finish: after `_exit` no completion is handled |
| `DemoDispatch.StepCounts` | Sources/demo/demo.swift:101-117 | every completion raises the count by exactly one; the only exception is the transition, which resets it to 0 |
| `DemoDispatch.StepIgnoresResult` | Sources/demo/demo.swift:103-107 | a completion's result never changes what the handler does: a negative result is only logged and never aborts |
| `DemoDispatch.StepSum` | Sources/demo/demo.swift:108-112 | the sum changes only for completions with userData > 0, by a wrapping add of the loaded value; other completions leave it unchanged |
| `DemoDispatch.StepTransition` | Sources/demo/demo.swift:113-117 | the transition fires iff doneWriting is false and the count reaches 3N; it sets doneWriting, resets the count and submits the N read chains; doneWriting is never cleared; for N ≥ 1 it never coincides with Finish |
| `DemoDispatch.StepFinish` | Sources/demo/demo.swift:118-124 | Finish happens iff doneWriting holds and the count reaches 4N, and it exits with 0 iff sum == verificationSum, otherwise 1 |
| `DemoDispatch.StepPreservesInv` | Sources/demo/demo.swift:98-124 | between completions !doneWriting ⇒ count < 3N and doneWriting ⇒ count < 4N; each completion that does not finish advances the protocol by exactly one |
| `DemoDispatch.RunAccounting` | Sources/demo/demo.swift:100-125 | over any run, the read phase is submitted exactly at the 3N-th completion and the handler finishes exactly at the 7N-th, never earlier or later |
| `DemoDispatch.RunSum` | Sources/demo/demo.swift:100-125 | the sum a run ends with is the wrapping sum of the payloads of the tagged completions it handled |
| `DemoDispatch.FullRun` | Sources/demo/demo.swift:98-125 | from a fresh handler and 7N completions: only the 3N-th submits the read chains, only the 7N-th finishes, and the exit code is 0 iff the tagged payloads add up to N(N−1) |
| `DemoDispatch.Dispatcher.constructor` | Sources/demo/demo.swift:19-98 | the handler starts with count 0, doneWriting false and sum 0 |
| `DemoDispatch.Dispatcher.OnCompletion` | Sources/demo/demo.swift:101-124 | one pass of the drain loop updates the fields and returns the action exactly as Step says, and keeps the invariant unless it finishes |
| `DemoDispatch.Dispatcher.Drain` | Sources/demo/demo.swift:100-126 | draining the ready completions updates the fields and yields the actions exactly as Run says, and stops at Finish |
| `Uring.VerificationSum` | cdemo/uring.c:39 | the expected checksum is a uint64_t below 2^64, and it equals 2 × (N × 16 MiB) when that product does not wrap |
| `Uring.VerificationSumOfFileCount` | cdemo/uring.c:20-39 | for FILE_COUNT = 4, verificationSum = 16 MiB × 4 × 2 = 134217728, with no 64-bit wrap |
| `Uring.SetupContext` | cdemo/uring.c:22-33 | setup_context returns −1 iff queue init is negative, and 0 otherwise |
| `Uring.ExitCode` | cdemo/uring.c:149-150 | main returns 0 iff sum == verificationSum, otherwise 1 |
| `Uring.AllocateSlab` | cdemo/uring.c:51-52 | the slab has FILE_COUNT × 16 MiB bytes, all equal to 2 |
| `Uring.LayoutBuffers` | cdemo/uring.c:54-58 | buffer i is the 16 MiB region at offset i·16 MiB of the slab |
| `Uring.BuffersTileSlab` | cdemo/uring.c:51-58 | the buffers tile the slab: every slab address lies in exactly one buffer, and that buffer's index is below N |
| `Uring.BytesSumUniform` | cdemo/uring.c:52 | a run of bytes that all equal v adds up to v times its length |
| `Uring.SeededSlabSumsToExpected` | cdemo/uring.c:39-52 | the bytes of the seeded slab add up to exactly verificationSum |
| `Uring.WriteChain` | cdemo/uring.c:73-85 | write chain i has three SQEs linked through the last: the open and the write carry IOSQE_IO_LINK and IOSQE_CQE_SKIP_SUCCESS, and the close carries neither |
| `Uring.ReadChainAsWritten` | cdemo/uring.c:108-124 | read chain i as written has four SQEs linked through the last, and none of them carries IOSQE_CQE_SKIP_SUCCESS or IOSQE_FIXED_FILE |
| `Uring.ReadChain` | cdemo/uring.c:113-115 | the corrected read chain differs from the chain as written only in the read's flags, which are IOSQE_FIXED_FILE and IOSQE_IO_LINK |
| `Uring.WriteChainShape` | cdemo/uring.c:73-85 | write chain i is openat_direct(file i, slot i, O_CREAT and O_RDWR, 0600)→write_fixed(slot i, buffer i)→close_direct(slot i), all on slot i; the first two carry IOSQE_IO_LINK and the close does not; only the close carries user data, which is i+1 ≥ 1 |
| `Uring.ReadChainShape` | cdemo/uring.c:108-124 | the corrected read chain i is openat_direct(file i, slot i, O_RDONLY)→read_fixed(slot i, buffer i)→close_direct(slot i)→unlink(file i); the first three are on slot i and carry IOSQE_IO_LINK, the unlink carries none, and only the read carries user data, which is the buffer address |
| `Uring.ReadAsWrittenMissesSlot` | cdemo/uring.c:113-115 | as written, the read SQE of chain i is read_fixed(i, buffer i) with IOSQE_IO_LINK as its only flag, and the chain is linked through its last entry; so it does not use slot i, the slot filled by the chain's own open |
| `Uring.WriteSqes` | cdemo/uring.c:73-85 | the write phase prepares 3N SQEs |
| `Uring.ReadSqes` | cdemo/uring.c:108-124 | the read phase prepares 4N SQEs, the read chains as the source writes them |
| `Uring.WriteSqesAt` | cdemo/uring.c:73-85 | write chain i occupies SQEs 3i to 3i+2, in chain order |
| `Uring.ReadSqesAt` | cdemo/uring.c:108-124 | read chain i, as the source writes it (no IOSQE_FIXED_FILE on the read), occupies SQEs 4i to 4i+3, in chain order |
| `Uring.PrepareWritePhase` | cdemo/uring.c:73-86 | the write staging loop produces exactly the write-phase SQEs |
| `Uring.PrepareReadPhase` | cdemo/uring.c:108-126 | the read staging loop produces exactly the read-phase SQEs the source prepares: the read carries only IOSQE_IO_LINK, and its user data is buffers[i].iov_base |
| `Uring.WriteChainTagsOne` | cdemo/uring.c:82-84 | each write chain has exactly one SQE with user data |
| `Uring.ReadChainTagsOne` | cdemo/uring.c:113-116 | each corrected read chain has exactly one SQE with user data |
| `Uring.ReadChainAsWrittenTagsOne` | cdemo/uring.c:108-124 | each read chain as the source writes it has exactly one SQE with user data: entry 1, the read, whose user data is the buffer address buffers[i].iov_base |
| `Uring.WriteSqesTagged` | cdemo/uring.c:73-85 | the write phase has exactly N SQEs with user data, as many as the write loop waits for |
| `Uring.ReadSqesTagged` | cdemo/uring.c:108-124 | the read phase as the source stages it has exactly N SQEs with user data |
| `Uring.PhasesTagOnePerFile` | cdemo/uring.c:41-124 | each phase submits exactly N SQEs with user data (the read phase counted over the chains as written), and the 3N + 4N SQEs fill the 7N queue entries |
| `Uring.TaggedMonotone` | cdemo/uring.c:97-103 | the count of tagged completions never decreases over the stream, and strictly grows at each tagged completion |
| `Uring.WriteLoopExitUnique` | cdemo/uring.c:88-104 | the write loop has at most one possible exit point |
| `Uring.NoWriteLoopExit` | cdemo/uring.c:88-104 | with N = 0, or with fewer than N tagged completions, the write loop never exits |
| `Uring.AwaitWriteChains` | cdemo/uring.c:88-104 | the write loop counts only completions with user data > 0, whatever their result; it exits exactly at the N-th such completion, and it exits at all iff N ≥ 1 and N such completions arrive |
| `Uring.AddBytes` | cdemo/uring.c:142-144 | the inner loop adds the first res bytes at the referenced address to the uint64_t sum, modulo 2^64 |
| `Uring.ReadPhase` | cdemo/uring.c:128-148 | the read phase makes exactly 4N waits whatever the results (fewer only if the stream ends); the sum grows only for completions with ret ≥ 0, res ≥ 0 and user data > 0, by their first res bytes |
| `Uring.ReadSumUniform` | cdemo/uring.c:136-146 | when every slab byte is v, the read sum is v times the number of bytes the contributing completions report |
| `Uring.ReadBackVerdict` | cdemo/uring.c:39-150 | when the slab reads back as all 2s, the sum matches verificationSum iff the reads reported 16 MiB per file in total |
| `Uring.RunMain` | cdemo/uring.c:37-150 | main returns 1 when any set-up step fails; otherwise it submits the write SQEs and then the read SQEs as the source builds them (the read without IOSQE_FIXED_FILE), and returns 0 iff the read sum equals verificationSum, else 1; it blocks when the completions run out |

## Left out

- The ring itself is not modelled: queue init, file and buffer registration, get_sqe, submit, wait_cqe and cqe_seen in the C driver, and `IORing` in the Swift driver. Their results and the completions they deliver are inputs. The kernel's link short-circuiting is not modelled.
- Event and concurrency plumbing is not modelled: the eventfd, `DispatchSource`, `DispatchWorkItem`, the atomic orderings, `sleep(1000)` and `_exit`. The handler is a sequential method. After Finish the process exits, so `Drain` stops there and no further completion is handled.
- Raw pointer loads are replaced. In the Swift driver, the Int behind `userData` is the completion's `payload`. In the C driver, the user data of a contributing completion is an address inside the slab, and the slab is an array of bytes. `ReadPhase` and `RunMain` require that address, plus `res` bytes, to lie inside the slab. The source dereferences it without a check.
- `RunMain` takes the slab as the read loop finds it, because the kernel's fixed reads fill it. So the one-byte `memset` at cdemo/uring.c:106 and the allocation order are not part of `RunMain`. The slab's seeding is `AllocateSlab`.
- `RunMain` and the two wait loops end when the completion stream runs out. The real program would block in `io_uring_wait_cqe` instead; the model reports this as `Blocked`, or as `done == false`.
- DemoDispatch.Dispatcher.constructor: requires N ≥ 1 (FILE_COUNT is 512). With N = 0 the count would never meet either threshold.
- File names, `withCString`/`strdup`, prints, `strerror`, the error message at cdemo/uring.c:62, and `files[]` (only its first entry is −1) are not modelled. Package.swift is build metadata and is not modelled.
- The second, unused increment of `completedOperationCount` in the C read loop is not modelled.
- Swift's `evenlyChunked` is modelled as equal 16-byte chunks. This holds because 16·2N splits evenly into 2N parts. The slab is modelled as 8-byte Int words, two per chunk, because it is initialised and seeded as Int.
- DemoLayout.SeedSlab: Swift's trap on Int overflow in `verificationSum += i` is not modelled, because integers are unbounded. For FILE_COUNT = 512 no intermediate value comes near 2^63.
- Uring.LayoutBuffers: the C `int` arithmetic `i * 16 * 1024 * 1024` is modelled on unbounded integers. It would overflow only for i ≥ 128, and FILE_COUNT is 4.
- Within a chain, each SQE's user data is taken to be 0 unless the driver sets it.
- Op lengths and offsets are not carried: each write and read transfers its whole buffer at file offset 0.
- The Swift read chain attaches no user data. Whether the Swift `sum` ever grows therefore depends on the unseen library; the model leaves `userData` and `payload` as inputs.

## Findings

| source | as written | input that shows it | evidently intended | confidence | as-written member | corrected member |
|---|---|---|---|---|---|---|
| cdemo/uring.c:113-115 | `io_uring_prep_read_fixed(readSQE, i, …)` and then only `IOSQE_IO_LINK` is set, so the read's descriptor i is the process's descriptor i, not the slot i filled by the chain's `openat_direct` | read chain 0: the read goes to descriptor 0 (standard input) instead of file 0 | set `IOSQE_FIXED_FILE` on the read, as the write does at line 80; the staged SQEs (`ReadSqes`, `PrepareReadPhase`, `RunMain`) keep the read as written | likely; not executed | `Uring.ReadAsWrittenMissesSlot` | `Uring.ReadChainShape` |

# char_dev: a single-instance character device, modelled in Dafny

The kernel module `character-device/char-dev-1.c` exposes one character device
backed by a 1024-byte buffer that every open file shares. It has two parts,
one Dafny module each:

- `CharDevIo` (`char_dev_io.dfy`): the buffer and the file operations.
  `CharDev` is a class whose `buffer` field is a fixed-length `array<byte>`,
  zero on load. `Open` and `Release` always return 0. `Read` and `Write` clamp
  the requested count to `min(count, 1024)`, always start at offset 0 and
  ignore the file position. They return the byte count, or `-EFAULT` when the
  boundary copy fails. A write overwrites only the prefix `[0, n)`. The kernel
  copy primitives `copy_to_user` and `copy_from_user` are methods whose
  contracts state only what the handlers rely on. The caller's memory is the
  sequence of bytes accessible at the address the caller passed. A copy of
  `n` bytes faults exactly when fewer than `n` bytes are accessible, and after
  a fault the destination's first `n` bytes are unspecified. The
  specification functions `ReadBytes` and `Written` give what a successful
  read returns and what a successful write leaves in the buffer. The lemmas
  about them cover the round trip, clamping, reading past the written part,
  last-writer-wins and idempotence.
- `CharDevRegistration` (`char_dev_registration.dfy`): module load and unload.
  The kernel's answers for one load are a parameter, `Kernel(failing, major)`:
  the set of steps whose call fails, and the major number that
  `alloc_chrdev_region` hands out (the base minor is 0). Each kernel call is
  one event in a ghost log: `Acquired(resource)`, `Failed(step)` or
  `Released(resource)`. The resources the module holds are the stack
  obtained by replaying the log (`Held`). `Lifo` says that every release
  gives back the most recently acquired resource still held.
  `Registration.Init` follows the source's control flow: three nested labelled
  blocks whose `break`s stand for the fall-through `goto` labels, and an
  outer block `done` whose `break`s stand for the `return`s. Its log is
  the specification function `InitLog`: the steps before the first failing
  one are acquired; on a failure that step is logged, the acquired prefix is
  unwound last-first, and the result is -1. `Registration.Exit` releases the
  four resources in reverse order, rebuilding the device number as
  `MKDEV(major, 0)`.

Two behaviours of the code worth noting:

- Every failed load returns the same `-1` (character-device/char-dev-1.c:62,
  97). No step-specific error is returned.
- `major` and the device number keep their values after a failure that comes
  later than the allocation (character-device/char-dev-1.c:57, 65).

## Model

| member | source | states |
|---|---|---|
| `CharDevIo.TransferLength` | character-device/char-dev-1.c:27-38 | the number of bytes a transfer moves is min(count, 1024): at most count, at most BUFFER_SIZE, and equal to one of them |
| `CharDevIo.CopyToUser` | character-device/char-dev-1.c:29 | the copy to caller memory reports 0 bytes uncopied exactly when the caller region holds n bytes; then the region starts with the n source bytes and is otherwise unchanged; the region's size never changes |
| `CharDevIo.CopyFromUser` | character-device/char-dev-1.c:40 | the copy from caller memory succeeds exactly when the region holds n bytes; then dst[0..n) equals them; dst[n..) is never touched |
| `CharDevIo.CharDev.constructor` | character-device/char-dev-1.c:9-12 | the device buffer has exactly BUFFER_SIZE bytes, all zero |
| `CharDevIo.CharDev.Open` | character-device/char-dev-1.c:16-19 | open always returns 0 and modifies nothing |
| `CharDevIo.CharDev.Release` | character-device/char-dev-1.c:21-24 | release always returns 0 and modifies nothing |
| `CharDevIo.CharDev.Read` | character-device/char-dev-1.c:26-35 | read returns -EFAULT exactly when the caller region cannot take min(count, 1024) bytes; otherwise it returns that count (at most 1024) and the region starts with the buffer's prefix from offset 0; the buffer and the file position are untouched |
| `CharDevIo.CharDev.Write` | character-device/char-dev-1.c:37-46 | write returns -EFAULT exactly when the caller region lacks min(count, 1024) bytes; otherwise it returns that count and the buffer becomes the caller's first n bytes followed by the old buffer[n..]; buffer[n..) is unchanged even after a fault |
| `CharDevIo.WrittenOverwritesPrefixOnly` | character-device/char-dev-1.c:38-40 | a successful write keeps the buffer size, puts the caller's i-th byte at each position i < n and leaves every position from n on as it was |
| `CharDevIo.OversizedWriteReplacesAll` | character-device/char-dev-1.c:38-45 | a write of count 2000 moves 1024 bytes and replaces the whole buffer with the caller's first 1024 bytes |
| `CharDevIo.ReadAfterWrite` | character-device/char-dev-1.c:27-46 | after writing n bytes, reading m <= n bytes returns the first m written bytes |
| `CharDevIo.WriteThenReadRoundTrip` | character-device/char-dev-1.c:27-46 | writing data of at most 1024 bytes and reading back as many bytes returns the data |
| `CharDevIo.ReadPastWrite` | character-device/char-dev-1.c:27-46 | reading more bytes than were written returns the written bytes followed by the older buffer contents, with no zero-fill |
| `CharDevIo.LaterWriteCoversEarlier` | character-device/char-dev-1.c:38-40 | a write whose clamped length is at least that of an earlier write leaves the buffer as if the earlier write had never happened (last writer wins) |
| `CharDevIo.WriteIdempotent` | character-device/char-dev-1.c:38-40 | repeating a write leaves the buffer as a single write does |
| `CharDevIo.HelloOnFreshBuffer` | character-device/char-dev-1.c:12-46 | on a zeroed buffer, after writing "hello", a 5-byte read returns "hello" and a 1024-byte read returns "hello" and 1019 zero bytes |
| `CharDevIo.HelloSession` | character-device/char-dev-1.c:12-46 | the same scenario through the methods: a fresh device, Write("hello", 5), Read(5) and Read(1024) return "hello" and "hello" plus 1019 zeros |
| `CharDevRegistration.FirstFailure` | character-device/char-dev-1.c:60-87 | the index of the step at which load stops: every earlier step succeeds, and the step at that index fails unless all four succeed |
| `CharDevRegistration.AcquireAllPushes` | character-device/char-dev-1.c:60-84 | the successful steps push their resources onto the held stack in acquisition order |
| `CharDevRegistration.UnwindPops` | character-device/char-dev-1.c:91-96 | the fall-through unwind of an acquired prefix releases exactly that prefix, in reverse order, each release popping the top of the stack, and restores the stack below it |
| `CharDevRegistration.InitLogEffect` | character-device/char-dev-1.c:56-98 | from any held stack, a load that succeeds adds the four resources and a load that fails leaves the stack as it was; every release is last-in-first-out |
| `CharDevRegistration.InitExtendsLog` | character-device/char-dev-1.c:56-98 | a load appended to any earlier log adds the four resources to the held stack on success, leaves it unchanged on failure, and keeps a last-in-first-out log so |
| `CharDevRegistration.InitLogCases` | character-device/char-dev-1.c:60-97 | the five outcomes of load, call by call: allocation failure makes no further call; a failure at cdev_add, class_create or device_create is followed by the releases of the earlier steps, newest first; full success acquires region, cdev, class and node |
| `CharDevRegistration.InitHolds` | character-device/char-dev-1.c:56-98 | a successful load holds region, cdev, class and device node; a failed load holds nothing |
| `CharDevRegistration.InitAttemptsAndRollback` | character-device/char-dev-1.c:56-98 | load attempts alloc, cdev_add, class_create, device_create in that order and none after the first failure; failing at step k it acquires steps 1..k-1 and releases exactly those in reverse order; when step 1 fails nothing is acquired or released |
| `CharDevRegistration.RollbackLists` | character-device/char-dev-1.c:71-97 | a failure after acquiring a prefix attempts that prefix then the failing step, and releases the prefix in reverse order |
| `CharDevRegistration.ExitUnwindsAll` | character-device/char-dev-1.c:100-108 | unload releases device node, class, cdev and region in that order, the exact reverse of acquisition, leaving nothing held |
| `CharDevRegistration.LoadThenUnload` | character-device/char-dev-1.c:60-106 | a successful load followed by the unload of the allocated device number leaves nothing held, every release being last-in-first-out |
| `CharDevRegistration.ClassCreateFailure` | character-device/char-dev-1.c:77-97 | when class creation fails, load acquires region and cdev, then releases cdev and region in that order, never creates the node, and holds nothing |
| `CharDevRegistration.Registration.constructor` | character-device/char-dev-1.c:11 | before load, `major` is 0 and no kernel call has been made |
| `CharDevRegistration.Registration.Init` | character-device/char-dev-1.c:56-98 | load appends exactly InitLog to the log and returns 0 when every step succeeds, -1 otherwise; the held stack gains the four resources named by MKDEV(major, 0) on success and is unchanged on failure; major and the device number are set once allocation succeeds, and after a successful load MKDEV(major, 0) is the stored device number that unload will release; last-in-first-out is preserved |
| `CharDevRegistration.Registration.Exit` | character-device/char-dev-1.c:100-108 | given a prior successful load, unload appends the four releases for MKDEV(major, 0) in reverse order, leaves nothing held and keeps last-in-first-out |
| `CharDevRegistration.LoadAndUnload` | character-device/char-dev-1.c:56-108 | loading, then unloading when the load succeeded, returns 0 exactly when every step succeeds; the trace of kernel calls is exactly the load's log followed, on success, by the unload's four releases, and it always ends with nothing held |

## Left out

- `list-processes/ps_list.c` is not part of this model. It prints a walk over the live task list and maps state codes whose values come from kernel headers that are not part of this model.
- Logging (`pr_info`, `pr_err`) is left out: it never affects a result.
- The bodies of `CopyToUser` and `CopyFromUser` copy the accessible part of the requested range. That is one behaviour the contracts admit; the real primitives' internals are not modelled.
- CopyFromUser: on a fault it states nothing about dst[0..n). Linux's `copy_from_user` fills the uncopied part with zeros, but the driver relies on nothing about it.
- The registration calls (`alloc_chrdev_region`, `cdev_init`/`cdev_add`, `class_create`, `device_create` and their inverses) are opaque steps that succeed or fail. Only their effect on what the module holds is modelled.
- `char_dev_cdev` is a null pointer when `cdev_init` is called (declared at line 13, used at line 69). The model treats the cdev step abstractly and does not model pointer validity.
- The class handle `char_dev_class`, including the error pointer it keeps after a failed `class_create`, is modelled only as the `Class` resource.
- The bit layout of `dev_t` is defined by kernel headers that are not part of this model. `MkDev` and `Major` treat a device number as a major/minor pair.
- `EFAULT` has its Linux value, 14, from a kernel header that is not part of this model.
- `count` is an unbounded `nat` rather than a `size_t`. Transfers are clamped to 1024, so no width matters for the results.
- The file position reaches the handlers as a value (`filePos`) that the handlers neither read nor change. The `struct file` and the `loff_t` pointer are not modelled.
- Concurrency is left out: concurrent callers race on the unsynchronised buffer, and the model is sequential.
- The `file_operations` table, the `__init`/`__exit` wiring and the module metadata are left out. The rule that the kernel unloads the module only after a successful load is `Exit`'s precondition.

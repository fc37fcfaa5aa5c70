/** The shared buffer of the character device and its file operations:
 *  open, release, read and write.
 *
 *  A caller's memory is modelled as the sequence of bytes that are accessible
 *  at the address the caller passed; a boundary copy that would touch a byte
 *  past that sequence faults. */
module CharDevIo {

  /** One byte of device or caller memory. */
  newtype byte = b: int | 0 <= b < 256

  /** Capacity of the device buffer, fixed at build time. */
  const BUFFER_SIZE: nat := 1024

  /** Linux's "bad address" error number; the handlers return its negation. */
  const EFAULT: int := 14

  /** Number of bytes a transfer of `count` requested bytes moves. */
  function TransferLength(count: nat): (n: nat)
    ensures n <= count && n <= BUFFER_SIZE
    ensures n == count || n == BUFFER_SIZE
  {
    if count > BUFFER_SIZE then BUFFER_SIZE else count
  }

  function Zeros(len: nat): seq<byte>
  {
    seq(len, _ => 0)
  }

  /** The text "hello" as bytes. */
  function Hello(): seq<byte>
  {
    [104, 101, 108, 108, 111]
  }

  /** What a successful read of `count` bytes hands the caller: the prefix of
   *  the buffer, always starting at offset 0. */
  function ReadBytes(buf: seq<byte>, count: nat): seq<byte>
    requires |buf| == BUFFER_SIZE
  {
    buf[..TransferLength(count)]
  }

  /** The buffer after a successful write of `count` bytes taken from `data`. */
  function Written(buf: seq<byte>, data: seq<byte>, count: nat): seq<byte>
    requires |buf| == BUFFER_SIZE && TransferLength(count) <= |data|
  {
    data[..TransferLength(count)] + buf[TransferLength(count)..]
  }

  /** A write keeps the buffer's size, overwrites exactly the prefix
   *  [0, n) with the caller's first n bytes and leaves [n, BUFFER_SIZE) alone. */
  lemma WrittenOverwritesPrefixOnly(buf: seq<byte>, data: seq<byte>, count: nat)
    requires |buf| == BUFFER_SIZE && TransferLength(count) <= |data|
    ensures |Written(buf, data, count)| == BUFFER_SIZE
    ensures forall i :: 0 <= i < TransferLength(count) ==> Written(buf, data, count)[i] == data[i]
    ensures forall i :: TransferLength(count) <= i < BUFFER_SIZE ==> Written(buf, data, count)[i] == buf[i]
  {
  }

  /** A request larger than the buffer moves exactly BUFFER_SIZE bytes, so it
   *  replaces the whole buffer. */
  lemma OversizedWriteReplacesAll(buf: seq<byte>, data: seq<byte>)
    requires |buf| == BUFFER_SIZE && |data| >= BUFFER_SIZE
    ensures TransferLength(2000) == BUFFER_SIZE
    ensures Written(buf, data, 2000) == data[..BUFFER_SIZE]
  {
  }

  /** Reading `m` bytes after writing `n >= m` bytes of `data` returns the
   *  first `m` bytes of `data`. */
  lemma ReadAfterWrite(buf: seq<byte>, data: seq<byte>, n: nat, m: nat)
    requires |buf| == BUFFER_SIZE && n <= |data| && n <= BUFFER_SIZE && m <= n
    ensures ReadBytes(Written(buf, data, n), m) == data[..m]
  {
  }

  /** Round trip: writing data of at most BUFFER_SIZE bytes and then reading
   *  that many bytes yields the data. */
  lemma WriteThenReadRoundTrip(buf: seq<byte>, data: seq<byte>)
    requires |buf| == BUFFER_SIZE && |data| <= BUFFER_SIZE
    ensures ReadBytes(Written(buf, data, |data|), |data|) == data
  {
  }

  /** Reading more than was written returns the written bytes followed by the
   *  buffer's older contents: nothing is zero-filled. */
  lemma ReadPastWrite(buf: seq<byte>, data: seq<byte>, count: nat)
    requires |buf| == BUFFER_SIZE && |data| <= TransferLength(count)
    ensures ReadBytes(Written(buf, data, |data|), count)
         == data + buf[|data|..TransferLength(count)]
  {
  }

  /** The last writer wins: a write that covers at least the prefix of an
   *  earlier write erases every trace of it. */
  lemma LaterWriteCoversEarlier(buf: seq<byte>, d1: seq<byte>, c1: nat, d2: seq<byte>, c2: nat)
    requires |buf| == BUFFER_SIZE
    requires TransferLength(c1) <= |d1| && TransferLength(c2) <= |d2|
    requires TransferLength(c1) <= TransferLength(c2)
    ensures Written(Written(buf, d1, c1), d2, c2) == Written(buf, d2, c2)
  {
  }

  /** Writing the same request twice leaves the buffer as writing it once. */
  lemma WriteIdempotent(buf: seq<byte>, data: seq<byte>, count: nat)
    requires |buf| == BUFFER_SIZE && TransferLength(count) <= |data|
    ensures Written(Written(buf, data, count), data, count) == Written(buf, data, count)
  {
  }

  /** A fresh (all-zero) buffer, "hello" written: a 5-byte read returns
   *  "hello", a 1024-byte read returns "hello" and 1019 zero bytes. */
  lemma HelloOnFreshBuffer()
    ensures ReadBytes(Written(Zeros(BUFFER_SIZE), Hello(), 5), 5) == Hello()
    ensures ReadBytes(Written(Zeros(BUFFER_SIZE), Hello(), 5), BUFFER_SIZE)
         == Hello() + Zeros(BUFFER_SIZE - 5)
  {
  }

  /** copy_to_user: copy the first `n` bytes of `src` into the caller region
   *  `dst`. Returns how many bytes were not copied (0 on success) and the
   *  region afterwards; on a fault the first `n` bytes of the region are
   *  unspecified. */
  method CopyToUser(dst: seq<byte>, src: seq<byte>, n: nat) returns (notCopied: nat, dstAfter: seq<byte>)
    requires n <= |src|
    ensures |dstAfter| == |dst| && notCopied <= n
    ensures notCopied == 0 <==> n <= |dst|
    ensures notCopied == 0 ==> dstAfter == src[..n] + dst[n..]
  {
    var m := if n <= |dst| then n else |dst|;
    dstAfter := src[..m] + dst[m..];
    notCopied := n - m;
  }

  /** copy_from_user: copy the first `n` bytes of the caller region `src` into
   *  `dst`. Returns how many bytes were not copied (0 on success); on a fault
   *  dst[0..n) is unspecified. Bytes of `dst` from `n` on are never touched. */
  method CopyFromUser(dst: array<byte>, src: seq<byte>, n: nat) returns (notCopied: nat)
    requires n <= dst.Length
    modifies dst
    ensures notCopied <= n
    ensures notCopied == 0 <==> n <= |src|
    ensures notCopied == 0 ==> dst[..n] == src[..n]
    ensures dst[n..] == old(dst[n..])
  {
    var m := if n <= |src| then n else |src|;
    forall i | 0 <= i < m {
      dst[i] := src[i];
    }
    notCopied := n - m;
  }

  /** The device: one buffer shared by every open file, with no read or write
   *  position of its own. */
  class CharDev {
    /** The shared byte buffer, initially all zero. */
    const buffer: array<byte>

    ghost predicate Valid()
    {
      buffer.Length == BUFFER_SIZE
    }

    constructor ()
      ensures Valid() && fresh(buffer)
      ensures buffer[..] == Zeros(BUFFER_SIZE)
    {
      buffer := new byte[BUFFER_SIZE](_ => 0);
    }

    /** Opening a file on the device always succeeds and keeps no count. */
    method Open() returns (r: int)
      ensures r == 0
    {
      r := 0;
    }

    /** Closing a file on the device always succeeds. */
    method Release() returns (r: int)
      ensures r == 0
    {
      r := 0;
    }

    /** Read `count` bytes into the caller region `user`. The file position
     *  `filePos` is neither consulted nor advanced, and the buffer is not
     *  changed. Returns the number of bytes read, or -EFAULT when the region
     *  cannot take them; `userAfter` is the region afterwards. */
    method Read(user: seq<byte>, count: nat, filePos: int) returns (r: int, userAfter: seq<byte>)
      requires Valid()
      ensures |userAfter| == |user|
      ensures r == -EFAULT <==> |user| < TransferLength(count)
      ensures r != -EFAULT ==> r == TransferLength(count) && 0 <= r <= BUFFER_SIZE
      ensures r != -EFAULT ==> userAfter == ReadBytes(buffer[..], count) + user[r..]
    {
      var bytesRead := TransferLength(count);
      var notCopied;
      notCopied, userAfter := CopyToUser(user, buffer[..], bytesRead);
      if notCopied != 0 {
        return -EFAULT, userAfter;
      }
      r := bytesRead;
    }

    /** Write `count` bytes from the caller region `user` into the buffer,
     *  starting at offset 0 whatever `filePos` says. Returns the number of
     *  bytes written, or -EFAULT when the region does not hold them; after a
     *  fault the written prefix of the buffer is unspecified. */
    method Write(user: seq<byte>, count: nat, filePos: int) returns (r: int)
      requires Valid()
      modifies buffer
      ensures r == -EFAULT <==> |user| < TransferLength(count)
      ensures r != -EFAULT ==> r == TransferLength(count) && 0 <= r <= BUFFER_SIZE
      ensures r != -EFAULT ==> buffer[..] == Written(old(buffer[..]), user, count)
      ensures buffer[TransferLength(count)..] == old(buffer[TransferLength(count)..])
    {
      var bytesWritten := TransferLength(count);
      var notCopied := CopyFromUser(buffer, user, bytesWritten);
      if notCopied != 0 {
        return -EFAULT;
      }
      assert buffer[..] == buffer[..bytesWritten] + buffer[bytesWritten..];
      r := bytesWritten;
    }
  }

  /** A fresh device: write "hello", then read 5 and 1024 bytes into
   *  sufficiently large caller regions. */
  method HelloSession() returns (five: seq<byte>, all: seq<byte>)
    ensures five == Hello()
    ensures all == Hello() + Zeros(BUFFER_SIZE - 5)
  {
    var dev := new CharDev();
    var w := dev.Write(Hello(), 5, 0);
    var r5, region5 := dev.Read(Zeros(5), 5, 0);
    var r1024, region1024 := dev.Read(Zeros(BUFFER_SIZE), BUFFER_SIZE, 0);
    HelloOnFreshBuffer();
    five, all := region5, region1024;
  }
}

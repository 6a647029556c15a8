/**
 A block device behind a byte cursor. The buffered form (whole blocks straight
 to the device, partial blocks through a write buffer that may be ahead of it)
 is proved to behave as a flat byte array with one cursor.
 */
module SeekableDisk {
  import opened Options
  import opened Quotients

  type Byte = x: nat | x < 256

  /** The simple form. */
  datatype Flat = Flat(bytes: seq<Byte>, cursor: nat)

  /** c with b written over it at p. */
  function Splice(c: seq<Byte>, p: nat, b: seq<Byte>): seq<Byte>
    requires p + |b| <= |c|
  {
    c[..p] + b + c[p + |b|..]
  }

  lemma SpliceTwice(c: seq<Byte>, p: nat, a: seq<Byte>, b: seq<Byte>)
    requires p + |a| + |b| <= |c|
    ensures Splice(Splice(c, p, a), p + |a|, b) == Splice(c, p, a + b)
  {
  }

  /** The bytes fit under the cursor. */
  predicate Fits(f: Flat, b: seq<Byte>) { b == [] || f.cursor + |b| <= |f.bytes| }

  /** The flat disk after a write. */
  function Wrote(f: Flat, b: seq<Byte>): Flat
    requires Fits(f, b)
  {
    if b == [] then f else Flat(Splice(f.bytes, f.cursor, b), f.cursor + |b|)
  }

  lemma WroteIs(f: Flat, b: seq<Byte>, g: Flat)
    requires f.cursor + |b| <= |f.bytes| && g == Flat(Splice(f.bytes, f.cursor, b), f.cursor + |b|)
    ensures Fits(f, b) && g == Wrote(f, b)
  {
    if b == [] { assert g.bytes == f.bytes; }
  }

  lemma WroteTwice(f: Flat, a: seq<Byte>, b: seq<Byte>)
    requires Fits(f, a) && Fits(Wrote(f, a), b)
    ensures Fits(f, a + b) && Wrote(Wrote(f, a), b) == Wrote(f, a + b)
  {
    if a == [] {
      assert a + b == b;
    } else if b == [] {
      assert a + b == a;
    } else {
      SpliceTwice(f.bytes, f.cursor, a, b);
    }
  }

  lemma WroteOn(f: Flat, b: seq<Byte>, i: nat, j: nat)
    requires i + j <= |b| && Fits(f, b[..i]) && Fits(Wrote(f, b[..i]), b[i..][..j])
    ensures Fits(f, b[..i + j]) && Wrote(Wrote(f, b[..i]), b[i..][..j]) == Wrote(f, b[..i + j])
  {
    WroteTwice(f, b[..i], b[i..][..j]);
    assert b[..i] + b[i..][..j] == b[..i + j];
  }

  /** One write after another. */
  lemma WriteChain(f: Flat, mid: Flat, end: Flat, b: seq<Byte>, i: nat, j: nat, k: nat)
    requires i + j == k <= |b| && Fits(f, b[..i]) && mid == Wrote(f, b[..i]) && Fits(mid, b[i..][..j])
             && end == Wrote(mid, b[i..][..j])
    ensures Fits(f, b[..k]) && end == Wrote(f, b[..k])
  {
    WroteOn(f, b, i, j);
  }

  lemma WroteSize(f: Flat, b: seq<Byte>)
    requires Fits(f, b)
    ensures |Wrote(f, b).bytes| == |f.bytes| && Wrote(f, b).cursor == f.cursor + |b|
  {
  }

  lemma SpliceSame(c: seq<Byte>, p: nat, n: nat)
    requires p + n <= |c|
    ensures Splice(c, p, c[p..p + n]) == c
  {
  }

  /** Writing inside a block and the block into the disk is writing into the disk. */
  lemma SpliceInner(c: seq<Byte>, p: nat, block: seq<Byte>, off: nat, b: seq<Byte>)
    requires p + |block| <= |c| && off + |b| <= |block|
    ensures Splice(c, p, Splice(block, off, b)) == Splice(Splice(c, p, block), p + off, b)
  {
  }

  function Least(a: int, b: int): int { if a < b then a else b }

  // ---- Blocks and bytes ----

  /** The bytes of n blocks. */
  function Span(n: nat, size: nat): nat {
    if n == 0 then 0 else Span(n - 1, size) + size
  }

  /** A whole number of blocks. */
  predicate Whole(n: nat, size: nat)
    requires size > 0
  {
    if n < size then n == 0 else Whole(n - size, size)
  }

  lemma {:induction false} SpanIsProduct(n: nat, size: nat)
    ensures Span(n, size) == n * size
  {
    if n > 0 { SpanIsProduct(n - 1, size); }
  }

  lemma {:induction false} SpanAdds(a: nat, b: nat, size: nat)
    ensures Span(a + b, size) == Span(a, size) + Span(b, size)
  {
    if b > 0 { SpanAdds(a, b - 1, size); }
  }

  lemma {:induction false} SpanWhole(n: nat, size: nat)
    requires size > 0
    ensures Whole(Span(n, size), size)
  {
    if n > 0 { SpanWhole(n - 1, size); }
  }

  lemma {:induction false} WholeMod(n: nat, size: nat)
    requires size > 0
    ensures Whole(n, size) <==> n % size == 0
  {
    if n >= size {
      WholeMod(n - size, size);
      ModShift(n - size, size);
    }
  }

  /** Quotient and remainder, in blocks. */
  lemma Split(n: nat, size: nat)
    requires size > 0
    ensures Span(n / size, size) + n % size == n && n % size < size
    ensures Whole(Span(n / size, size), size)
  {
    SpanIsProduct(n / size, size);
    SpanWhole(n / size, size);
  }

  /** How many whole blocks n bytes hold. */
  method WholeBlocks(n: nat, size: nat) returns (blocks: nat)
    requires size > 0
    ensures Span(blocks, size) <= n < Span(blocks, size) + size && Whole(Span(blocks, size), size)
  {
    Split(n, size);
    return n / size;
  }

  /** A byte of a block is on the disk exactly when the whole block is. */
  lemma {:induction false} BlockInRange(block: nat, off: nat, blocks: nat, size: nat)
    requires off < size
    ensures Span(block, size) + off < Span(blocks, size) <==> Span(block, size) + size <= Span(blocks, size)
  {
    if block < blocks {
      SpanAdds(block + 1, blocks - block - 1, size);
    } else {
      SpanAdds(blocks, block - blocks, size);
    }
  }

  lemma LastBlock(block: nat, n: nat, blocks: nat, size: nat)
    requires 0 < n < size
    ensures Span(block, size) < Span(blocks, size) <==> Span(block, size) + n <= Span(blocks, size)
  {
    BlockInRange(block, 0, blocks, size);
    BlockInRange(block, n - 1, blocks, size);
  }

  class BlockDevice {
    const blockSize: nat
    const numBlocks: nat
    var data: seq<Byte>

    ghost predicate Valid()
      reads this
    {
      blockSize > 0 && |data| == Span(numBlocks, blockSize)
    }

    constructor (blockSize: nat, numBlocks: nat, data: seq<Byte>)
      requires blockSize > 0 && |data| == Span(numBlocks, blockSize)
      ensures Valid() && this.data == data && this.blockSize == blockSize && this.numBlocks == numBlocks
    {
      this.blockSize := blockSize;
      this.numBlocks := numBlocks;
      this.data := data;
    }

    /** Fills buf[lo..hi] from consecutive blocks. */
    method ReadBlock(block: nat, buf: array<Byte>, lo: nat, hi: nat) returns (ok: bool)
      requires Valid() && lo <= hi <= buf.Length
      modifies buf
      ensures ok <==> Whole(hi - lo, blockSize) && Span(block, blockSize) + (hi - lo) <= |data|
      ensures !ok ==> buf[..] == old(buf[..])
      ensures ok ==> forall i | 0 <= i < buf.Length ::
                buf[i] == if lo <= i < hi then data[Span(block, blockSize) + (i - lo)] else old(buf[i])
    {
      if !Whole(hi - lo, blockSize) || Span(block, blockSize) + (hi - lo) > |data| { return false; }
      var at := Span(block, blockSize);
      forall i | lo <= i < hi {
        buf[i] := data[at + (i - lo)];
      }
      return true;
    }

    method WriteBlock(block: nat, bytes: seq<Byte>) returns (ok: bool)
      requires Valid()
      modifies this
      ensures Valid()
      ensures ok <==> Whole(|bytes|, blockSize) && Span(block, blockSize) + |bytes| <= |old(data)|
      ensures data == if ok then Splice(old(data), Span(block, blockSize), bytes) else old(data)
    {
      if !Whole(|bytes|, blockSize) || Span(block, blockSize) + |bytes| > |data| { return false; }
      data := Splice(data, Span(block, blockSize), bytes);
      return true;
    }
  }

  /** copy_from_slice into part of a buffer. */
  method CopyInto(buf: array<Byte>, at: nat, b: seq<Byte>)
    requires at + |b| <= buf.Length
    modifies buf
    ensures buf[..] == Splice(old(buf[..]), at, b)
  {
    forall i | at <= i < at + |b| {
      buf[i] := b[i - at];
    }
  }

  class Disk {
    const dev: BlockDevice
    const readBuffer: array<Byte>
    const writeBuffer: array<Byte>
    var blockId: nat
    var offset: nat
    var dirty: bool

    /** A dirty write buffer holds a block of the device. */
    ghost predicate Sound()
      reads this, dev, readBuffer, writeBuffer
    {
      && dev.Valid() && readBuffer != writeBuffer
      && readBuffer.Length == dev.blockSize && writeBuffer.Length == dev.blockSize
      && (dirty ==> Span(blockId, dev.blockSize) + dev.blockSize <= |dev.data|)
    }

    /** Between operations the cursor is inside its block, and nothing is dirty at a block boundary. */
    ghost predicate Valid()
      reads this, dev, readBuffer, writeBuffer
    {
      Sound() && offset < dev.blockSize && (offset == 0 ==> !dirty)
    }

    /** The device overlaid by the dirty buffer. */
    ghost function Content(): (c: seq<Byte>)
      requires Sound()
      reads this, dev, readBuffer, writeBuffer
      ensures |c| == |dev.data|
    {
      if dirty then Splice(dev.data, Span(blockId, dev.blockSize), writeBuffer[..]) else dev.data
    }

    ghost function Abs(): Flat
      requires Sound()
      reads this, dev, readBuffer, writeBuffer
    {
      Flat(Content(), Span(blockId, dev.blockSize) + offset)
    }

    constructor (dev: BlockDevice)
      requires dev.Valid()
      ensures Valid() && this.dev == dev && Abs() == Flat(dev.data, 0) && fresh(readBuffer) && fresh(writeBuffer)
    {
      this.dev := dev;
      readBuffer := new Byte[dev.blockSize];
      writeBuffer := new Byte[dev.blockSize];
      blockId, offset, dirty := 0, 0, false;
    }

    method Position() returns (pos: nat)
      requires Valid()
      ensures pos == Abs().cursor
    {
      return Span(blockId, dev.blockSize) + offset;
    }

    /** `flush` cannot fail: the buffered block was read from the device. */
    method Flush()
      requires Sound()
      modifies this`dirty, dev
      ensures Sound() && !dirty && Abs() == old(Abs())
    {
      if dirty {
        var ok := dev.WriteBlock(blockId, writeBuffer[..]);
        assert ok;
        dirty := false;
      }
    }

    method SetPosition(pos: nat)
      requires Valid()
      modifies this, dev
      ensures Valid() && Abs() == old(Abs()).(cursor := pos)
    {
      Flush();
      Split(pos, dev.blockSize);
      blockId := pos / dev.blockSize;
      offset := pos % dev.blockSize;
    }

    /** Moves the cursor within a block, or to the start of the next. */
    method Advance(length: nat)
      requires Valid() && offset + length <= dev.blockSize && (offset + length == dev.blockSize ==> !dirty)
      requires dirty ==> length > 0 || offset > 0
      modifies this`offset, this`blockId
      ensures Valid() && Abs() == old(Abs()).(cursor := old(Abs()).cursor + length)
      ensures old(offset) + length == dev.blockSize ==> offset == 0
    {
      offset := offset + length;
      if offset == dev.blockSize {
        blockId := blockId + 1;
        offset := 0;
      }
    }

    /** Reads up to the end of the current block into buf[start..]. */
    method ReadPartial(buf: array<Byte>, start: nat) returns (r: Option<nat>)
      requires Valid() && start <= buf.Length && buf != readBuffer && buf != writeBuffer
      modifies this, dev, readBuffer, buf
      ensures Valid() && !dirty && Abs().bytes == old(Abs()).bytes
      ensures r.Some? <==> old(Abs()).cursor < |old(Abs()).bytes|
      ensures r == None ==> Abs() == old(Abs()) && buf[..] == old(buf[..])
      ensures r.Some? ==>
                var f := old(Abs());
                && r.value == Least(buf.Length - start, dev.blockSize - old(offset)) && f.cursor + r.value <= |f.bytes|
                && (forall i | 0 <= i < start :: buf[i] == old(buf[i]))
                && (forall i | start <= i < start + r.value :: buf[i] == f.bytes[f.cursor + (i - start)])
                && Abs() == Flat(f.bytes, f.cursor + r.value)
                && (start + r.value == buf.Length || offset == 0)
    {
      Flush();
      BlockInRange(blockId, offset, dev.numBlocks, dev.blockSize);
      var ok := dev.ReadBlock(blockId, readBuffer, 0, readBuffer.Length);
      if !ok { return None; }
      var length := Least(buf.Length - start, dev.blockSize - offset);
      var from := offset;
      forall i | start <= i < start + length {
        buf[i] := readBuffer[from + (i - start)];
      }
      Advance(length);
      return Some(length);
    }

    /** Reads whole blocks straight into buf[start..], at a block boundary. */
    method ReadBlocks(buf: array<Byte>, start: nat) returns (r: Option<nat>)
      requires Valid() && start <= buf.Length && buf != readBuffer && buf != writeBuffer && offset == 0
      modifies this`blockId, buf
      ensures Valid() && offset == 0 && !dirty && Abs().bytes == old(Abs()).bytes
      ensures r == None ==> old(Abs()).cursor + (buf.Length - start) > |old(Abs()).bytes|
      ensures r == None ==> Abs() == old(Abs()) && buf[..] == old(buf[..])
      ensures r.Some? ==>
                var f := old(Abs());
                && buf.Length - start - dev.blockSize < r.value <= buf.Length - start && f.cursor + r.value <= |f.bytes|
                && (forall i | 0 <= i < start :: buf[i] == old(buf[i]))
                && (forall i | start <= i < start + r.value :: buf[i] == f.bytes[f.cursor + (i - start)])
                && Abs() == Flat(f.bytes, f.cursor + r.value)
    {
      var blocks := WholeBlocks(buf.Length - start, dev.blockSize);
      var length := Span(blocks, dev.blockSize);
      var ok := dev.ReadBlock(blockId, buf, start, start + length);
      if !ok { return None; }
      SpanAdds(blockId, blocks, dev.blockSize);
      blockId := blockId + blocks;
      return Some(length);
    }

    /** `read`: the bytes under the cursor, exactly when they are all on the disk. On an error the
        cursor has moved over the `done` bytes already read. */
    method Read(buf: array<Byte>) returns (r: Option<nat>, ghost done: nat)
      requires Valid() && buf != readBuffer && buf != writeBuffer
      modifies this, dev, readBuffer, buf
      ensures Valid() && Abs() == Flat(old(Abs()).bytes, old(Abs()).cursor + done)
      ensures done <= buf.Length && (done > 0 ==> old(Abs()).cursor + done <= |old(Abs()).bytes|)
      ensures forall i | 0 <= i < done :: buf[i] == old(Abs()).bytes[old(Abs()).cursor + i]
      ensures r.Some? ==> r.value == done == buf.Length
      ensures r.Some? <==> (if buf.Length == 0 then old(offset) == 0 || old(Abs()).cursor < |old(Abs()).bytes|
                            else old(Abs()).cursor + buf.Length <= |old(Abs()).bytes|)
    {
      var read := 0;
      if offset != 0 {
        var n := ReadPartial(buf, 0);
        if n == None { return None, 0; }
        read := n.value;
      }
      r, done := ReadRest(buf, read);
    }

    /** The whole blocks and the last partial one. */
    method ReadRest(buf: array<Byte>, start: nat) returns (r: Option<nat>, ghost done: nat)
      requires Valid() && start <= buf.Length && buf != readBuffer && buf != writeBuffer
      requires offset == 0 || start == buf.Length
      modifies this, dev, readBuffer, buf
      ensures Valid() && start <= done <= buf.Length
              && Abs() == Flat(old(Abs()).bytes, old(Abs()).cursor + (done - start))
      ensures done > start ==> old(Abs()).cursor + (done - start) <= |old(Abs()).bytes|
      ensures forall i | 0 <= i < start :: buf[i] == old(buf[i])
      ensures forall i | start <= i < done :: buf[i] == old(Abs()).bytes[old(Abs()).cursor + (i - start)]
      ensures r.Some? ==> r.value == done == buf.Length
      ensures r.Some? <==> start == buf.Length || old(Abs()).cursor + (buf.Length - start) <= |old(Abs()).bytes|
    {
      var read := start;
      done := start;
      if buf.Length - read >= dev.blockSize {
        var n := ReadBlocks(buf, read);
        if n == None { return None, done; }
        read := read + n.value;
        done := read;
      }
      if read < buf.Length {
        LastBlock(blockId, buf.Length - read, dev.numBlocks, dev.blockSize);
        var n := ReadPartial(buf, read);
        if n == None { return None, done; }
        read := read + n.value;
        done := read;
      }
      return Some(read), done;
    }

    /** Writes up to the end of the current block through the buffer. */
    method WritePartial(b: seq<Byte>) returns (r: Option<nat>)
      requires Valid() && (offset != 0 || b != [])
      modifies this, dev, writeBuffer
      ensures Valid()
      ensures r.Some? <==> old(Abs()).cursor < |old(Abs()).bytes|
      ensures r == None ==> Abs() == old(Abs())
      ensures r.Some? ==>
                && r.value == Least(|b|, dev.blockSize - old(offset)) && Fits(old(Abs()), b[..r.value])
                && Abs() == Wrote(old(Abs()), b[..r.value]) && (r.value == |b| || offset == 0)
    {
      BlockInRange(blockId, offset, dev.numBlocks, dev.blockSize);
      var ok := Load();
      if !ok { return None; }
      var length := Least(|b|, dev.blockSize - offset);
      Store(b[..length]);
      if offset == dev.blockSize {
        Flush();
        blockId := blockId + 1;
        offset := 0;
      }
      return Some(length);
    }

    /** Makes the buffer hold the current block. */
    method Load() returns (ok: bool)
      requires Valid()
      modifies this`dirty, writeBuffer
      ensures Sound() && Abs() == old(Abs())
      ensures ok <==> Span(blockId, dev.blockSize) + dev.blockSize <= |dev.data|
      ensures ok ==> dirty
      ensures !ok ==> Valid()
    {
      if !dirty {
        ok := dev.ReadBlock(blockId, writeBuffer, 0, writeBuffer.Length);
        if ok {
          dirty := true;
          ghost var at := Span(blockId, dev.blockSize);
          assert writeBuffer[..] == dev.data[at..at + dev.blockSize];
          SpliceSame(dev.data, at, dev.blockSize);
        }
        return;
      }
      return true;
    }

    /** Copies bytes into the loaded buffer and moves the offset past them. */
    method Store(b: seq<Byte>)
      requires Sound() && dirty && offset + |b| <= dev.blockSize
      modifies this`offset, writeBuffer
      ensures Sound() && dirty && offset == old(offset) + |b| && Fits(old(Abs()), b) && Abs() == Wrote(old(Abs()), b)
    {
      ghost var block := writeBuffer[..];
      var from := offset;
      CopyInto(writeBuffer, from, b);
      SpliceInner(dev.data, Span(blockId, dev.blockSize), block, from, b);
      offset := offset + |b|;
    }

    /** Writes whole blocks straight to the device, at a block boundary. */
    method WriteBlocks(b: seq<Byte>) returns (r: Option<nat>)
      requires Valid() && offset == 0
      modifies this`blockId, dev
      ensures Valid() && offset == 0
      ensures r == None ==> old(Abs()).cursor + |b| > |old(Abs()).bytes| && Abs() == old(Abs())
      ensures r.Some? ==>
                && |b| - dev.blockSize < r.value <= |b| && Fits(old(Abs()), b[..r.value])
                && Abs() == Wrote(old(Abs()), b[..r.value])
    {
      var blocks := WholeBlocks(|b|, dev.blockSize);
      var length := Span(blocks, dev.blockSize);
      var ok := dev.WriteBlock(blockId, b[..length]);
      if !ok { return None; }
      SpanAdds(blockId, blocks, dev.blockSize);
      blockId := blockId + blocks;
      WroteIs(old(Abs()), b[..length], Abs());
      return Some(length);
    }

    /** `write`: exactly when the bytes fit on the disk, they replace those under the cursor and the
        cursor moves past them. On an error a prefix of `done` bytes has been written. */
    method Write(b: seq<Byte>) returns (r: Option<nat>, ghost done: nat)
      requires Valid()
      modifies this, dev, writeBuffer
      ensures Valid() && done <= |b| && Fits(old(Abs()), b[..done]) && Abs() == Wrote(old(Abs()), b[..done])
      ensures r.Some? ==> r.value == done == |b|
      ensures r.Some? <==> (if b == [] then old(offset) == 0 || old(Abs()).cursor < |old(Abs()).bytes|
                            else old(Abs()).cursor + |b| <= |old(Abs()).bytes|)
    {
      var written := 0;
      if offset != 0 {
        var n := WritePartial(b);
        if n == None { return None, 0; }
        written := n.value;
      }
      ghost var f, mid := old(Abs()), Abs();
      assert Fits(f, b[..written]) && mid == Wrote(f, b[..written]);
      WroteSize(f, b[..written]);
      ghost var rest: nat;
      r, rest := WriteRest(b[written..]);
      done := written + rest;
      WriteChain(f, mid, Abs(), b, written, rest, done);
      if r.Some? { r := Some(written + r.value); }
    }

    method WriteRest(b: seq<Byte>) returns (r: Option<nat>, ghost done: nat)
      requires Valid() && (offset == 0 || b == [])
      modifies this, dev, writeBuffer
      ensures Valid() && done <= |b| && Fits(old(Abs()), b[..done]) && Abs() == Wrote(old(Abs()), b[..done])
      ensures r.Some? ==> r.value == done == |b|
      ensures r.Some? <==> b == [] || old(Abs()).cursor + |b| <= |old(Abs()).bytes|
    {
      var written := 0;
      done := 0;
      if |b| >= dev.blockSize {
        var n := WriteBlocks(b);
        if n == None { return None, done; }
        written := n.value;
        done := written;
      }
      if written < |b| {
        ghost var f, mid := old(Abs()), Abs();
        assert Fits(f, b[..written]) && mid == Wrote(f, b[..written]);
        WroteSize(f, b[..written]);
        var ok := WriteLast(b[written..]);
        if !ok { return None, done; }
        done := |b|;
        assert b[written..][..|b| - written] == b[written..];
        WriteChain(f, mid, Abs(), b, written, |b| - written, done);
      }
      return Some(|b|), done;
    }

    /** The last, partial block. */
    method WriteLast(b: seq<Byte>) returns (ok: bool)
      requires Valid() && offset == 0 && 0 < |b| < dev.blockSize
      modifies this, dev, writeBuffer
      ensures Valid() && (ok <==> Fits(old(Abs()), b)) && Abs() == if ok then Wrote(old(Abs()), b) else old(Abs())
    {
      LastBlock(blockId, |b|, dev.numBlocks, dev.blockSize);
      var n := WritePartial(b);
      ok := n.Some?;
      assert b[..|b|] == b;
    }
  }
}

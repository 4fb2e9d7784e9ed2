/** `PoolByteBuf`: a growable byte queue over a region of a chunk's memory. */
module PoolByteBufs {
  import opened Basics
  import opened Capacities

  /** What the arena hands out for a capacity: `length` bytes usable now of `maxLength`, from
      `offset` of `memory`. */
  datatype Grant = Grant(memory: array<Byte>, offset: nat, length: nat, maxLength: nat) {
    predicate Fits() {
      length <= maxLength && offset + maxLength <= memory.Length
    }
  }

  class PoolByteBuf {
    var memory: array<Byte>
    var offset: nat
    var length: nat
    var maxLength: nat
    const maxCapacity: nat
    var readerIndex: nat
    var writerIndex: nat

    ghost predicate Valid()
      reads this
    {
      readerIndex <= writerIndex <= length <= maxLength && offset + maxLength <= memory.Length
    }

    /** The readable bytes. */
    ghost function Contents(): seq<Byte>
      requires Valid()
      reads this, memory
    {
      memory[..][offset + readerIndex..offset + writerIndex]
    }

    /** Position `i` of array `m` belongs to this buffer's region. */
    ghost predicate Owns(m: array<Byte>, i: int)
      reads this
    {
      m == memory && offset <= i < offset + maxLength
    }

    /** The granted region shares no byte with the buffer's own: what the arena guarantees for any
        two regions that are held at once. */
    ghost predicate Apart(g: Grant)
      reads this
    {
      g.memory != memory || g.offset + g.maxLength <= offset || offset + maxLength <= g.offset
    }

    /** `init0` on a recycled buffer. */
    constructor (g: Grant, maxCapacity: nat)
      requires g.Fits()
      ensures Valid() && this.maxCapacity == maxCapacity && Contents() == []
      ensures memory == g.memory && offset == g.offset && length == g.length && maxLength == g.maxLength
    {
      memory, offset, length, maxLength := g.memory, g.offset, g.length, g.maxLength;
      this.maxCapacity := maxCapacity;
      readerIndex, writerIndex := 0, 0;
    }

    // ---------------------------------------------------------------- reading

    method RetrieveAll()
      requires Valid()
      modifies this`readerIndex, this`writerIndex
      ensures Valid() && Contents() == [] && readerIndex == writerIndex == 0
    {
      readerIndex, writerIndex := 0, 0;
    }

    /** Dropping a prefix; an emptied buffer starts over at its front. */
    method Retrieve(len: nat)
      requires Valid() && len <= writerIndex - readerIndex
      modifies this`readerIndex, this`writerIndex
      ensures Valid() && Contents() == old(Contents())[len..]
      ensures if Contents() == [] then readerIndex == writerIndex == 0 else writerIndex == old(writerIndex)
    {
      if len < writerIndex - readerIndex {
        readerIndex := readerIndex + len;
      } else {
        RetrieveAll();
      }
    }

    method RetrieveAsString(len: nat) returns (result: seq<Byte>)
      requires Valid() && len <= writerIndex - readerIndex
      modifies this`readerIndex, this`writerIndex
      ensures Valid() && result + Contents() == old(Contents()) && |result| == len
    {
      result := memory[offset + readerIndex..offset + readerIndex + len];
      Retrieve(len);
    }

    // ---------------------------------------------------------------- growing

    method TrimIndicesToCapacity(newCapacity: nat)
      modifies this`readerIndex, this`writerIndex
      ensures writerIndex == (if old(writerIndex) > newCapacity then newCapacity else old(writerIndex))
      ensures readerIndex == (if old(writerIndex) > newCapacity && old(readerIndex) > newCapacity then newCapacity
                              else old(readerIndex))
    {
      if writerIndex > newCapacity {
        readerIndex := if readerIndex < newCapacity then readerIndex else newCapacity;
        writerIndex := newCapacity;
      }
    }

    /** `memoryCopy` into the front of a new region. */
    static method MemoryCopy(src: array<Byte>, srcOffset: nat, g: Grant, n: nat)
      requires g.Fits() && srcOffset + n <= src.Length && n <= g.length
      requires g.memory != src || g.offset + n <= srcOffset || srcOffset + n <= g.offset
      modifies g.memory
      ensures g.memory[..][g.offset..g.offset + n] == old(src[..][srcOffset..srcOffset + n])
      ensures forall i | 0 <= i < g.memory.Length && !(g.offset <= i < g.offset + n) :: g.memory[i] == old(g.memory[i])
    {
      for i := 0 to n
        invariant g.memory[..][g.offset..g.offset + i] == old(src[..][srcOffset..srcOffset + i])
        invariant forall j | 0 <= j < g.memory.Length && !(g.offset <= j < g.offset + i) ::
                    g.memory[j] == old(g.memory[j])
      {
        assert src[srcOffset + i] == old(src[srcOffset + i]);
        g.memory[g.offset + i] := src[srcOffset + i];
      }
    }

    /** What is left of the contents when the capacity is cut. */
    static function Cut(contents: seq<Byte>, readerIndex: nat, newCapacity: nat): (r: seq<Byte>)
      ensures r <= contents && readerIndex + |r| <= (if readerIndex < newCapacity then newCapacity else readerIndex)
      ensures |r| < |contents| ==> newCapacity <= readerIndex + |r|
    {
      if readerIndex + |contents| <= newCapacity then contents
      else if readerIndex <= newCapacity then contents[..newCapacity - readerIndex]
      else []
    }

    /** The grant suits a capacity. */
    ghost predicate Suits(g: Grant, newCapacity: nat)
      reads this
    {
      g.Fits() && Apart(g) && newCapacity <= g.length
    }

    /** `PoolArena::reallocate`. */
    method Reallocate(newCapacity: nat, g: Grant) returns (moved: bool)
      requires Valid() && newCapacity <= maxCapacity && (newCapacity != length ==> Suits(g, newCapacity))
      modifies this, g.memory
      ensures Valid() && newCapacity <= length && moved == (newCapacity != old(length))
      ensures !moved ==> unchanged(this) && g.memory[..] == old(g.memory[..])
      ensures moved ==>
        memory == g.memory && offset == g.offset && maxLength == g.maxLength && length == g.length
      ensures Contents() == Cut(old(Contents()), old(readerIndex), newCapacity)
      ensures newCapacity > old(length) ==> writerIndex == old(writerIndex) && readerIndex == old(readerIndex)
      ensures forall i | 0 <= i < g.memory.Length && !Owns(g.memory, i) :: g.memory[i] == old(g.memory[i])
    {
      moved := false;
      if newCapacity == length {
        return;
      }
      MoveTo(newCapacity, g);
      moved := true;
    }

    /** Point at the new region and copy what fits; the old region is the arena's again. */
    method MoveTo(newCapacity: nat, g: Grant)
      requires Valid() && newCapacity <= maxCapacity && newCapacity != length && Suits(g, newCapacity)
      modifies this, g.memory
      ensures Valid() && newCapacity <= length == g.length
      ensures memory == g.memory && offset == g.offset && maxLength == g.maxLength
      ensures Contents() == Cut(old(Contents()), old(readerIndex), newCapacity)
      ensures newCapacity > old(length) ==> writerIndex == old(writerIndex) && readerIndex == old(readerIndex)
      ensures forall i | 0 <= i < g.memory.Length && !Owns(g.memory, i) :: g.memory[i] == old(g.memory[i])
    {
      hide Cut, PoolByteBuf.Apart, PoolByteBuf.Contents, PoolByteBuf.Owns;
      var oldCapacity, oldMemory, oldOffset := length, memory, offset;
      ghost var m0, reader0, writer0 := memory[..], readerIndex, writerIndex;
      FrontApart(g, if newCapacity <= length then newCapacity else length);
      ContentsAre();
      var bytesToCopy := PointAt(newCapacity, g);
      Receive(oldMemory, oldOffset, g, bytesToCopy);
      ghost var m1 := g.memory[..];
      Moved(m0, oldOffset, oldCapacity, m1, g.offset, bytesToCopy, readerIndex, writerIndex, reader0, writer0,
            newCapacity);
      ContentsAre();
    }

    lemma ContentsAre()
      requires Valid()
      ensures Contents() == memory[..][offset + readerIndex..offset + writerIndex]
    {
    }

    lemma FrontApart(g: Grant, n: nat)
      requires Valid() && Apart(g) && g.Fits() && n <= length && n <= g.length
      ensures g.memory != memory || g.offset + n <= offset || offset + n <= g.offset
    {
    }

    /** The copy stays within the new region. */
    method Receive(src: array<Byte>, srcOffset: nat, g: Grant, n: nat)
      requires g.Fits() && srcOffset + n <= src.Length && n <= g.length
      requires g.memory != src || g.offset + n <= srcOffset || srcOffset + n <= g.offset
      requires memory == g.memory && offset == g.offset && maxLength == g.maxLength
      modifies g.memory
      ensures g.memory[..][g.offset..g.offset + n] == old(src[..][srcOffset..srcOffset + n])
      ensures forall i | 0 <= i < g.memory.Length && !Owns(g.memory, i) :: g.memory[i] == old(g.memory[i])
    {
      MemoryCopy(src, srcOffset, g, n);
    }

    /** The new region takes the old one's place; so much of the old is to be copied. */
    method PointAt(newCapacity: nat, g: Grant) returns (bytesToCopy: nat)
      requires Valid() && newCapacity != length && g.Fits() && newCapacity <= g.length
      modifies this
      ensures memory == g.memory && offset == g.offset && length == g.length && maxLength == g.maxLength
      ensures bytesToCopy == if newCapacity <= old(length) then newCapacity else old(length)
      ensures if newCapacity <= old(length) && old(writerIndex) > newCapacity
              then writerIndex == newCapacity
                   && readerIndex == (if old(readerIndex) > newCapacity then newCapacity else old(readerIndex))
              else writerIndex == old(writerIndex) && readerIndex == old(readerIndex)
    {
      bytesToCopy := length;
      memory, offset, maxLength := g.memory, g.offset, g.maxLength;
      if newCapacity <= length {
        TrimIndicesToCapacity(newCapacity);
        bytesToCopy := newCapacity;
      }
      length := g.length;
    }

    static lemma SliceOfSlice(m: seq<Byte>, from: nat, n: nat, r: nat, w: nat)
      requires from + n <= |m| && r <= w <= n
      ensures m[from..from + n][r..w] == m[from + r..from + w]
    {
      var a, b := m[from..from + n][r..w], m[from + r..from + w];
      assert forall k | 0 <= k < |a| :: a[k] == b[k];
    }

    /** The copied front of the region carries the contents, cut to the capacity. */
    static lemma Moved(m0: seq<Byte>, offset0: nat, length0: nat, m1: seq<Byte>, offset1: nat, n: nat,
                       reader: nat, writer: nat, reader0: nat, writer0: nat, newCapacity: nat)
      requires reader0 <= writer0 <= length0 && offset0 + length0 <= |m0| && offset1 + n <= |m1|
      requires n == if newCapacity <= length0 then newCapacity else length0
      requires m1[offset1..offset1 + n] == m0[offset0..offset0 + n]
      requires if newCapacity <= length0 && writer0 > newCapacity
               then writer == newCapacity && reader == (if reader0 > newCapacity then newCapacity else reader0)
               else writer == writer0 && reader == reader0
      ensures reader <= writer <= n
      ensures m1[offset1 + reader..offset1 + writer]
              == Cut(m0[offset0 + reader0..offset0 + writer0], reader0, newCapacity)
    {
      SliceOfSlice(m1, offset1, n, reader, writer);
      SliceOfSlice(m0, offset0, n, reader, writer);
      if writer0 > newCapacity && reader0 <= newCapacity {
        assert m0[offset0 + reader0..offset0 + writer0][..newCapacity - reader0]
            == m0[offset0 + reader..offset0 + writer];
      }
    }

    /** A region too large for so little: half of it would do, or of a small one all but sixteen bytes. */
    static predicate TooLarge(maxLength: nat, newCapacity: nat) {
      newCapacity <= maxLength / 2 || (maxLength <= 512 && newCapacity <= maxLength - 16)
    }

    /** The region cannot take this capacity: too small for it, or too large for so little. */
    predicate MustMove(newCapacity: nat)
      reads this
    {
      && newCapacity != length
      && if newCapacity > length then newCapacity > maxLength else TooLarge(maxLength, newCapacity)
    }

    /** Cutting the capacity inside the region. */
    method Shorten(newCapacity: nat)
      requires Valid() && newCapacity < length
      modifies this`length, this`readerIndex, this`writerIndex
      ensures Valid() && length == newCapacity && Contents() == Cut(old(Contents()), old(readerIndex), newCapacity)
    {
      length := newCapacity;
      TrimIndicesToCapacity(newCapacity);
    }

    /** A capacity that everything fits cuts nothing. */
    lemma NothingCut(newCapacity: nat)
      requires Valid() && writerIndex <= newCapacity
      ensures Cut(Contents(), readerIndex, newCapacity) == Contents()
    {
    }

    /** `capacity(int)`: in place when the region allows, otherwise in a new one. */
    method Capacity(newCapacity: nat, g: Grant) returns (moved: bool)
      requires Valid() && newCapacity <= maxCapacity && (MustMove(newCapacity) ==> Suits(g, newCapacity))
      modifies this, g.memory
      ensures Valid() && newCapacity <= length && moved == old(MustMove(newCapacity))
      ensures newCapacity < old(length) && !moved ==>
        maxLength < 2 * newCapacity && (maxLength <= 512 ==> maxLength < newCapacity + 16)
      ensures newCapacity < old(length) && moved ==>
        2 * newCapacity <= old(maxLength) || newCapacity + 16 <= old(maxLength) <= 512
      ensures moved && newCapacity >= old(length) ==> newCapacity > old(maxLength)
      ensures !moved ==> newCapacity <= maxLength
      ensures Contents() == Cut(old(Contents()), old(readerIndex), newCapacity)
      ensures if moved then memory == g.memory && offset == g.offset && maxLength == g.maxLength && length == g.length
              else memory == old(memory) && offset == old(offset) && maxLength == old(maxLength)
                   && length == newCapacity
      ensures !moved ==> forall i | 0 <= i < g.memory.Length :: g.memory[i] == old(g.memory[i])
      ensures forall i | 0 <= i < g.memory.Length && !Owns(g.memory, i) :: g.memory[i] == old(g.memory[i])
      ensures newCapacity > old(length) ==> writerIndex == old(writerIndex) && readerIndex == old(readerIndex)
    {
      hide Cut;
      moved := false;
      if newCapacity >= length {
        NothingCut(newCapacity);
      }
      if newCapacity == length {
        return;
      }
      if newCapacity > length {
        if newCapacity <= maxLength {
          length := newCapacity;
          return;
        }
      } else if newCapacity > maxLength / 2 && (maxLength > 512 || newCapacity > maxLength - 16) {
        Shorten(newCapacity);
        return;
      }
      moved := Reallocate(newCapacity, g);
    }

    // ---------------------------------------------------------------- writing

    /** The capacity a write of `n` bytes grows to, if it has to grow. */
    function Target(n: nat): nat
      reads this
    {
      NewCapacity(writerIndex + n, maxCapacity)
    }

    /** So many more bytes do not fit the region even when all of it is used. */
    predicate Outgrown(n: nat)
      reads this
    {
      length < writerIndex + n && MustMove(Target(n))
    }

    method EnsureWritable(minWritableBytes: nat, g: Grant) returns (moved: bool)
      requires Valid() && writerIndex + minWritableBytes <= maxCapacity
      requires Outgrown(minWritableBytes) ==> Suits(g, Target(minWritableBytes))
      modifies this, g.memory
      ensures moved == old(Outgrown(minWritableBytes))
      ensures Valid() && writerIndex + minWritableBytes <= length
      ensures old(length) < old(writerIndex) + minWritableBytes ==>
        && IsNewCapacity(old(writerIndex) + minWritableBytes, maxCapacity, old(Target(minWritableBytes)))
        && length == if moved then g.length else old(Target(minWritableBytes))
      ensures old(writerIndex) + minWritableBytes <= old(length) ==> length == old(length)
      ensures writerIndex == old(writerIndex) && readerIndex == old(readerIndex) && Contents() == old(Contents())
      ensures if moved then memory == g.memory && offset == g.offset && maxLength == g.maxLength
              else memory == old(memory) && offset == old(offset) && maxLength == old(maxLength)
      ensures !moved ==> forall i | 0 <= i < g.memory.Length :: g.memory[i] == old(g.memory[i])
      ensures forall i | 0 <= i < g.memory.Length && !Owns(g.memory, i) :: g.memory[i] == old(g.memory[i])
    {
      moved := false;
      var targetCapacity := writerIndex + minWritableBytes;
      if targetCapacity > length {
        // the writable bytes never suffice here, so the allocator is always asked
        assert length - writerIndex < minWritableBytes;
        NewCapacityIs(targetCapacity, maxCapacity);
        var newCapacity := CalculateNewCapacity(targetCapacity, maxCapacity);
        moved := Capacity(newCapacity.value, g);
      }
    }

    method SetBytes(index: nat, src: seq<Byte>)
      requires Valid() && index + |src| <= maxLength
      modifies memory
      ensures memory[..] == old(memory[..offset + index]) + src + old(memory[offset + index + |src|..])
    {
      for i := 0 to |src|
        invariant memory[..offset + index] == old(memory[..offset + index])
        invariant memory[offset + index..offset + index + i] == src[..i]
        invariant memory[offset + index + i..] == old(memory[offset + index + i..])
      {
        memory[offset + index + i] := src[i];
      }
    }

    /** `writeBytes` appends, growing in place or into a granted region; no byte outside the
        buffer's own region changes, in its own memory or in the granted one. */
    method WriteBytes(data: seq<Byte>, g: Grant) returns (moved: bool)
      requires Valid() && writerIndex + |data| <= maxCapacity
      requires Outgrown(|data|) ==> Suits(g, Target(|data|))
      modifies this, memory, g.memory
      ensures moved == old(Outgrown(|data|))
      ensures Valid() && Contents() == old(Contents()) + data
      ensures old(length) < old(writerIndex) + |data| ==>
        && IsNewCapacity(old(writerIndex) + |data|, maxCapacity, old(Target(|data|)))
        && length == if moved then g.length else old(Target(|data|))
      ensures old(writerIndex) + |data| <= old(length) ==> length == old(length)
      ensures if moved then memory == g.memory && offset == g.offset && maxLength == g.maxLength
              else memory == old(memory) && offset == old(offset) && maxLength == old(maxLength)
      ensures forall i | 0 <= i < g.memory.Length && !Owns(g.memory, i) :: g.memory[i] == old(g.memory[i])
      ensures forall i | 0 <= i < old(memory).Length && !Owns(old(memory), i) :: old(memory)[i] == old(memory[i])
    {
      moved := EnsureWritable(|data|, g);
      Append(data);
    }

    method Append(data: seq<Byte>)
      requires Valid() && writerIndex + |data| <= length
      modifies this`writerIndex, memory
      ensures Valid() && Contents() == old(Contents()) + data
      ensures forall i | 0 <= i < memory.Length && !Owns(memory, i) :: memory[i] == old(memory[i])
    {
      ghost var before := memory[..];
      SetBytes(writerIndex, data);
      assert forall i | 0 <= i < memory.Length && !Owns(memory, i) :: memory[..][i] == before[i];
      writerIndex := writerIndex + |data|;
    }

    /** A buffer whose bytes are as they were reads what it read. */
    twostate lemma BytesKept()
      requires old(Valid()) && unchanged(this)
      requires forall i | Owns(memory, i) :: memory[i] == old(memory[i])
      ensures Valid() && Contents() == old(Contents())
    {
    }

    /** Any other buffer whose region is apart from this one's and from the grant reads the same bytes
        after the write. */
    method WriteBeside(other: PoolByteBuf, data: seq<Byte>, g: Grant) returns (moved: bool)
      requires Valid() && writerIndex + |data| <= maxCapacity
      requires Outgrown(|data|) ==> Suits(g, Target(|data|)) && other.Apart(g)
      requires other != this && other.Valid() && other.Apart(Grant(memory, offset, length, maxLength))
      modifies this, memory, g.memory
      ensures Valid() && Contents() == old(Contents()) + data
      ensures other.Valid() && other.Contents() == old(other.Contents())
    {
      hide PoolByteBuf.Contents, PoolByteBuf.Outgrown, PoolByteBuf.Target;
      moved := WriteBytes(data, g);
      other.BytesKept();
    }
  }
}

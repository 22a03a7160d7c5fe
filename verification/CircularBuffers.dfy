/** arc::CircularBuffer: a bounded queue of bytes in a ring. */
module CircularBuffers {
  import opened Basics

  /** The place in the ring of the `i`-th byte from `start`. */
  function Place(capacity: nat, start: nat, i: nat): (p: int)
    ensures i < capacity && (start < capacity || start == 0) ==> 0 <= p < capacity
  {
    if start + i < capacity then start + i else start + i - capacity
  }

  /** `size` bytes of the ring from `start` on. */
  ghost function Ring(ring: seq<Byte>, start: nat, size: nat): (s: seq<Byte>)
    requires size <= |ring| && (start < |ring| || start == 0)
    ensures |s| == size
  {
    if start + size <= |ring| then ring[start..start + size] else ring[start..] + ring[..start + size - |ring|]
  }

  lemma RingIs(ring: seq<Byte>, start: nat, size: nat)
    requires size <= |ring| && (start < |ring| || start == 0)
    ensures Ring(ring, start, size) ==
      if size <= |ring| - start then ring[start..start + size] else ring[start..] + ring[..size - (|ring| - start)]
  {
  }

  lemma RingAt(ring: seq<Byte>, start: nat, size: nat, i: nat)
    requires i < size <= |ring| && (start < |ring| || start == 0)
    ensures Ring(ring, start, size)[i] == ring[Place(|ring|, start, i)]
  {
  }

  /** Writing behind the last byte, around the ring, appends. */
  lemma RingAppends(ring: seq<Byte>, ring': seq<Byte>, start: nat, size: nat, data: seq<Byte>)
    requires |ring'| == |ring| && size + |data| <= |ring| && (start < |ring| || start == 0)
    requires forall i :: 0 <= i < size ==> ring'[Place(|ring|, start, i)] == ring[Place(|ring|, start, i)]
    requires forall i {:trigger data[i]} :: 0 <= i < |data| ==> ring'[Place(|ring|, start, size + i)] == data[i]
    ensures Ring(ring', start, size + |data|) == Ring(ring, start, size) + data
  {
    hide Ring, Place;
    var was, now := Ring(ring, start, size), Ring(ring', start, size + |data|);
    forall i | 0 <= i < size + |data| ensures now[i] == (was + data)[i] {
      RingAt(ring', start, size + |data|, i);
      if i >= size {
        assert ring'[Place(|ring|, start, size + (i - size))] == data[i - size];
      } else {
        RingAt(ring, start, size, i);
      }
    }
  }

  /** Where the ring starts once `n` bytes are taken out. */
  function Advance(capacity: nat, start: nat, n: nat): nat
    requires n <= capacity && (start < capacity || start == 0)
  {
    if start + n < capacity || start + n == 0 then start + n else start + n - capacity
  }

  /** Moving the start takes the oldest bytes out. */
  lemma RingTakes(ring: seq<Byte>, start: nat, size: nat, n: nat)
    requires n <= size <= |ring| && (start < |ring| || start == 0)
    ensures Ring(ring, start, n) == Ring(ring, start, size)[..n]
    ensures Ring(ring, Advance(|ring|, start, n), size - n) == Ring(ring, start, size)[n..]
  {
    hide Ring;
    var was, front := Ring(ring, start, size), Ring(ring, start, n);
    var now := Ring(ring, Advance(|ring|, start, n), size - n);
    forall i | 0 <= i < n ensures front[i] == was[..n][i] {
      RingAt(ring, start, n, i);
      RingAt(ring, start, size, i);
    }
    forall i | 0 <= i < size - n ensures now[i] == was[n..][i] {
      RingAt(ring, Advance(|ring|, start, n), size - n, i);
      RingAt(ring, start, size, n + i);
    }
  }

  /** memcpy of `data` into the ring, to the places from `at` on. */
  function Spliced(ring: seq<Byte>, at: nat, data: seq<Byte>): (r: seq<Byte>)
    requires at + |data| <= |ring|
    ensures |r| == |ring|
  {
    ring[..at] + data + ring[at + |data|..]
  }

  lemma SplicedAt(ring: seq<Byte>, at: nat, data: seq<Byte>, j: nat)
    requires at + |data| <= |ring| && j < |ring|
    ensures Spliced(ring, at, data)[j] == if at <= j < at + |data| then data[j - at] else ring[j]
  {
  }

  /** `end` lies `size` bytes behind `start`, around the ring. It may rest at the capacity, and stays there when an
      emptied buffer's `start` goes back to zero. */
  predicate Ends(capacity: nat, start: nat, size: nat, end: nat) {
    && size <= capacity && end <= capacity && (start < capacity || start == 0)
    && (end == start + size || end + capacity == start + size || (size == 0 && start == 0 && end == capacity))
  }

  lemma AppendsStraight(ring: seq<Byte>, start: nat, size: nat, end: nat, data: seq<Byte>)
    requires Ends(|ring|, start, size, end) && size + |data| <= |ring| && end + |data| <= |ring|
    ensures Ends(|ring|, start, size + |data|, end + |data|)
    ensures Ring(Spliced(ring, end, data), start, size + |data|) == Ring(ring, start, size) + data
  {
    hide Ring, Spliced;
    var ring' := Spliced(ring, end, data);
    forall i | 0 <= i < size ensures ring'[Place(|ring|, start, i)] == ring[Place(|ring|, start, i)] {
      SplicedAt(ring, end, data, Place(|ring|, start, i));
    }
    forall i {:trigger data[i]} | 0 <= i < |data| ensures ring'[Place(|ring|, start, size + i)] == data[i] {
      SplicedAt(ring, end, data, Place(|ring|, start, size + i));
    }
    RingAppends(ring, ring', start, size, data);
  }

  lemma AppendsAround(ring: seq<Byte>, start: nat, size: nat, end: nat, data: seq<Byte>)
    requires Ends(|ring|, start, size, end) && size + |data| <= |ring| < end + |data|
    ensures var k := |ring| - end;
      && Ends(|ring|, start, size + |data|, |data| - k)
      && Ring(Spliced(Spliced(ring, end, data[..k]), 0, data[k..]), start, size + |data|)
         == Ring(ring, start, size) + data
  {
    hide Ring, Spliced;
    var k := |ring| - end;
    var ring1 := Spliced(ring, end, data[..k]);
    var ring2 := Spliced(ring1, 0, data[k..]);
    forall i | 0 <= i < size ensures ring2[Place(|ring|, start, i)] == ring[Place(|ring|, start, i)] {
      SplicedAt(ring, end, data[..k], Place(|ring|, start, i));
      SplicedAt(ring1, 0, data[k..], Place(|ring|, start, i));
    }
    forall i {:trigger data[i]} | 0 <= i < |data| ensures ring2[Place(|ring|, start, size + i)] == data[i] {
      SplicedAt(ring, end, data[..k], Place(|ring|, start, size + i));
      SplicedAt(ring1, 0, data[k..], Place(|ring|, start, size + i));
    }
    RingAppends(ring, ring2, start, size, data);
  }

  class CircularBuffer {
    var buffer: array<Byte>
    var start: nat
    var end: nat
    var capacity: nat
    var size: nat

    ghost predicate Valid()
      reads this
    {
      buffer.Length == capacity && Ends(capacity, start, size, end)
    }

    /** The bytes in the order they were written. */
    ghost function Contents(): (s: seq<Byte>)
      requires Valid()
      reads this, buffer
      ensures |s| == size
    {
      Ring(buffer[..], start, size)
    }

    constructor ()
      ensures Valid() && capacity == 0 && Contents() == [] && fresh(buffer)
    {
      buffer := new Byte[0];
      start, end, capacity, size := 0, 0, 0, 0;
    }

    method Clear()
      requires Valid()
      modifies this`start, this`end, this`size
      ensures Valid() && Contents() == []
    {
      start, end, size := 0, 0, 0;
    }

    /** memcpy into the ring. */
    method CopyIn(at: nat, src: seq<Byte>)
      requires at + |src| <= buffer.Length
      modifies buffer
      ensures buffer[..] == Spliced(old(buffer[..]), at, src)
    {
      ghost var ring := buffer[..];
      forall i | 0 <= i < |src| {
        buffer[at + i] := src[i];
      }
      forall j | 0 <= j < buffer.Length ensures buffer[j] == Spliced(ring, at, src)[j] {
        SplicedAt(ring, at, src, j);
      }
    }

    /** Appends as much of `src` as fits. */
    method Write(src: seq<Byte>) returns (len: nat)
      requires Valid()
      modifies this`end, this`size, buffer
      ensures Valid()
      ensures len == Min(|src|, capacity - old(size))
      ensures Contents() == old(Contents()) + src[..len]
    {
      hide Ring, Spliced;
      len := Min(|src|, capacity - size);
      ghost var ring, data := buffer[..], src[..len];
      if len <= capacity - end {
        AppendsStraight(ring, start, size, end, data);
        CopyIn(end, src[..len]);
        end := end + len;
      } else {
        var endSize := capacity - end;
        var frontSize := len - endSize;
        AppendsAround(ring, start, size, end, data);
        CopyIn(end, src[..endSize]);
        assert data[..endSize] == src[..endSize] && data[endSize..] == src[endSize..len];
        CopyIn(0, src[endSize..len]);
        end := frontSize;
      }
      size := size + len;
    }

    /** Takes out the oldest bytes, at most `count`; they are what the code copies to the caller's memory. */
    method Read(count: nat) returns (data: seq<Byte>)
      requires Valid()
      modifies this`start, this`size
      ensures Valid()
      ensures data == old(Contents())[..Min(count, old(size))]
      ensures Contents() == old(Contents())[Min(count, old(size))..]
    {
      hide Ring;
      var endSize := capacity - start;
      var len := Min(count, size);
      if len == 0 {
        return [];
      }
      RingTakes(buffer[..], start, size, len);
      RingIs(buffer[..], start, len);
      if len <= endSize {
        data := buffer[start..start + len];
        start := start + len;
        if start == capacity {
          start := 0;
        }
      } else {
        var startSize := len - endSize;
        data := buffer[start..] + buffer[..startSize];
        start := startSize;
      }
      size := size - len;
    }

    /** Changes the capacity and keeps the oldest bytes that fit. */
    method SetCapacity(newCapacity: nat)
      requires Valid()
      modifies this
      ensures Valid() && capacity == newCapacity && fresh(buffer)
      ensures Contents() == old(Contents())[..Min(old(size), newCapacity)]
    {
      var newSize := Min(size, newCapacity);
      var newBuffer := new Byte[newCapacity];
      if newSize > 0 {
        var data := Read(newSize);
        forall i | 0 <= i < newSize {
          newBuffer[i] := data[i];
        }
        assert newBuffer[..newSize] == data;
      }
      start, end, size := 0, newSize, newSize;
      buffer, capacity := newBuffer, newCapacity;
    }
  }
}

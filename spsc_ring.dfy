/** The single-producer/single-consumer byte ring that hands captured audio
    from the capture loop to the writer loop (SpscByteRingBuffer).

    The source shares it between two threads through atomic cursors; this
    model runs the calls one after another. The public view is three ghost
    sequences: Contents (written, not yet read, oldest first), Accepted
    (every byte Write ever took) and Delivered (every byte Read ever gave
    out). The object invariant says the cursors count Accepted and Delivered
    and that Delivered ++ Contents == Accepted, so whatever the order of
    calls, the bytes read are a prefix of the bytes written. */
module SpscRing {
  import opened Common

  /** Where logical byte `base + j` lands in a ring of `cap` slots, given
      where `base` lands: the copy splits at `cap - base % cap`. */
  lemma WrapIndex(base: nat, j: nat, cap: nat)
    requires cap > 0 && j < cap
    ensures (base + j) % cap ==
      if base % cap + j < cap then base % cap + j else base % cap + j - cap
  {
    var q := base / cap;
    var o := base % cap;
    assert base == q * cap + o;
    if o + j < cap {
      ModUnique(base + j, q, o + j, cap);
    } else {
      assert base + j == (q + 1) * cap + (o + j - cap);
      ModUnique(base + j, q + 1, o + j - cap, cap);
    }
  }

  /** The two-piece copy of a Write puts logical byte `readPos + k` of the
      new contents at slot `(readPos + k) % cap` and leaves the unread bytes
      alone. `before` and `after` are the ring's slots around the copy. */
  lemma WriteLandsInPlace(before: seq<byte>, after: seq<byte>, readPos: nat,
                          contents: seq<byte>, data: seq<byte>, offset: nat, firstPart: nat)
    requires |before| == |after| >= 1
    requires |contents| + |data| <= |before|
    requires forall k :: 0 <= k < |contents| ==> before[(readPos + k) % |before|] == contents[k]
    requires offset == if readPos % |before| + |contents| < |before|
                       then readPos % |before| + |contents|
                       else readPos % |before| + |contents| - |before|
    requires firstPart == Min(|data|, |before| - offset)
    requires forall i :: 0 <= i < firstPart ==> after[offset + i] == data[i]
    requires forall i :: 0 <= i < |data| - firstPart ==> after[i] == data[firstPart + i]
    requires forall i :: 0 <= i < |before| && !(offset <= i < offset + firstPart) && !(i < |data| - firstPart)
               ==> after[i] == before[i]
    ensures forall k :: 0 <= k < |contents| + |data| ==>
              after[(readPos + k) % |before|] == (contents + data)[k]
  {
    var cap := |before|;
    var len := |contents|;
    forall k | 0 <= k < len + |data|
      ensures after[(readPos + k) % cap] == (contents + data)[k]
    {
      WrapIndex(readPos, k, cap);
      if k < len {
        assert before[(readPos + k) % cap] == contents[k];
      } else {
        var j := k - len;
        if j < firstPart {
          assert (readPos + k) % cap == offset + j;
        } else {
          assert (readPos + k) % cap == j - firstPart;
        }
      }
    }
  }

  /** The two memcpy calls of a Write: the first `firstPart` bytes go to
      slots offset.., the rest to slots 0.. . */
  method CopyInTwoPieces(buffer: array<byte>, offset: nat, data: seq<byte>, firstPart: nat)
    requires firstPart <= |data| && offset + firstPart <= buffer.Length
    requires |data| - firstPart <= offset
    modifies buffer
    ensures forall i :: 0 <= i < firstPart ==> buffer[offset + i] == data[i]
    ensures forall i :: 0 <= i < |data| - firstPart ==> buffer[i] == data[firstPart + i]
    ensures forall i :: 0 <= i < buffer.Length && !(offset <= i < offset + firstPart) && !(i < |data| - firstPart)
              ==> buffer[i] == old(buffer[i])
  {
    forall i | 0 <= i < firstPart {
      buffer[offset + i] := data[i];
    }
    var secondPart := |data| - firstPart;
    if secondPart > 0 {
      forall i | 0 <= i < secondPart {
        buffer[i] := data[firstPart + i];
      }
    }
  }

  class SpscByteRingBuffer {
    ghost var Contents: seq<byte>
    ghost var Accepted: seq<byte>
    ghost var Delivered: seq<byte>

    const buffer: array<byte>
    const capacity: nat
    var writePos: nat
    var readPos: nat

    ghost predicate Valid()
      reads this, buffer
    {
      && capacity == buffer.Length
      && capacity >= 1
      && readPos <= writePos <= readPos + capacity
      && |Accepted| == writePos
      && |Delivered| == readPos
      && Accepted == Delivered + Contents
      && (forall k :: 0 <= k < |Contents| ==> buffer[(readPos + k) % capacity] == Contents[k])
    }

    /** A requested capacity of 0 becomes 1. */
    constructor (capacityBytes: nat)
      ensures Valid() && fresh(buffer)
      ensures capacity == (if capacityBytes == 0 then 1 else capacityBytes)
      ensures Contents == [] && Accepted == [] && Delivered == []
    {
      var n := if capacityBytes == 0 then 1 else capacityBytes;
      buffer := new byte[n];
      capacity := n;
      writePos, readPos := 0, 0;
      Contents, Accepted, Delivered := [], [], [];
    }

    function Capacity(): (c: nat)
      reads this, buffer
      requires Valid()
      ensures c >= 1 && c == buffer.Length
    {
      capacity
    }

    function AvailableToWrite(): (n: nat)
      reads this, buffer
      requires Valid()
      ensures n == capacity - |Contents|
    {
      capacity - (writePos - readPos)
    }

    function AvailableToRead(): (n: nat)
      reads this, buffer
      requires Valid()
      ensures n == |Contents|
    {
      writePos - readPos
    }

    /** In every state the free and the used space add up to the capacity,
        and the bytes read so far are a prefix of the bytes accepted. */
    lemma SpaceAccounting()
      requires Valid()
      ensures AvailableToRead() + AvailableToWrite() == Capacity()
      ensures Delivered <= Accepted
      ensures Accepted[|Delivered|..] == Contents
    {
    }

    /** Copies as many of `data` as fit, in at most two pieces. */
    method Write(data: seq<byte>) returns (written: nat)
      requires Valid()
      modifies this, buffer
      ensures Valid()
      ensures written == Min(|data|, old(AvailableToWrite()))
      ensures Contents == old(Contents) + data[..written]
      ensures Accepted == old(Accepted) + data[..written]
      ensures Delivered == old(Delivered)
      ensures readPos == old(readPos) && writePos == old(writePos) + written
    {
      if |data| == 0 {
        return 0;
      }
      var writable := AvailableToWrite();
      if writable == 0 {
        return 0;
      }
      var bytes := Min(|data|, writable);
      var offset := writePos % capacity;
      var firstPart := Min(bytes, capacity - offset);
      ghost var before := buffer[..];
      WrapIndex(readPos, writePos - readPos, capacity);
      CopyInTwoPieces(buffer, offset, data[..bytes], firstPart);
      WriteLandsInPlace(before, buffer[..], readPos, Contents, data[..bytes], offset, firstPart);
      writePos := writePos + bytes;
      Contents := Contents + data[..bytes];
      Accepted := Accepted + data[..bytes];
      written := bytes;
    }

    /** The copy out of the buffer in at most two parts, the second from
        the start of the buffer once the read wraps around. */
    method CopyOut(bytes: nat) returns (dest: seq<byte>)
      requires Valid() && bytes <= |Contents|
      ensures dest == Contents[..bytes]
    {
      var offset := readPos % capacity;
      var firstPart := Min(bytes, capacity - offset);
      dest := buffer[offset..offset + firstPart];
      var secondPart := bytes - firstPart;
      if secondPart > 0 {
        dest := dest + buffer[..secondPart];
      }
      forall j | 0 <= j < bytes
        ensures dest[j] == Contents[j]
      {
        WrapIndex(readPos, j, capacity);
      }
    }

    /** Hands out up to `maxBytes` of the oldest unread bytes, in order. */
    method Read(maxBytes: nat) returns (count: nat, dest: seq<byte>)
      requires Valid()
      modifies this
      ensures Valid()
      ensures count == Min(maxBytes, old(AvailableToRead()))
      ensures |dest| == count && dest == old(Contents)[..count]
      ensures Contents == old(Contents)[count..]
      ensures Delivered == old(Delivered) + dest
      ensures Accepted == old(Accepted)
      ensures writePos == old(writePos) && readPos == old(readPos) + count
    {
      if maxBytes == 0 {
        return 0, [];
      }
      var readable := AvailableToRead();
      if readable == 0 {
        return 0, [];
      }
      var bytes := Min(maxBytes, readable);
      dest := CopyOut(bytes);
      readPos := readPos + bytes;
      Contents := Contents[bytes..];
      Delivered := Delivered + dest;
      forall k | 0 <= k < |Contents|
        ensures buffer[(readPos + k) % capacity] == Contents[k]
      {
        assert readPos + k == old(readPos) + (bytes + k);
      }
      count := bytes;
    }
  }
}

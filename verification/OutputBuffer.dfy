/** The byte buffer: a vector with a read and a write position, moved and grown in place. */
module OutputBuffer {

  type byte = x: int | 0 <= x < 256

  const kCheapPrepend: nat := 8

  lemma Glue(s: seq<byte>, r: nat, w: nat, e: nat)
    requires r <= w <= e <= |s|
    ensures s[r..e] == s[r..w] + s[w..e]
  {
  }

  class Buffer {
    var bytes: array<byte>
    var readerIndex: nat
    var writerIndex: nat

    ghost predicate Valid()
      reads this
    {
      kCheapPrepend <= readerIndex <= writerIndex <= bytes.Length
    }

    /** The readable bytes. */
    ghost function Contents(): (s: seq<byte>)
      requires Valid()
      reads this, bytes
    {
      bytes[readerIndex..writerIndex]
    }

    constructor (initialSize: nat)
      ensures Valid() && fresh(bytes) && Contents() == []
    {
      bytes := new byte[kCheapPrepend + initialSize](_ => 0);
      readerIndex, writerIndex := kCheapPrepend, kCheapPrepend;
    }

    function ReadableBytes(): (n: nat)
      requires Valid()
      reads this, bytes
      ensures n == |Contents()|
    {
      writerIndex - readerIndex
    }

    /** Drops the first bytes, or everything when asked for more than there is. */
    method Retrieve(len: nat)
      requires Valid()
      modifies this`readerIndex, this`writerIndex
      ensures Valid()
      ensures Contents() == if len < |old(Contents())| then old(Contents())[len..] else []
    {
      if len < writerIndex - readerIndex {
        readerIndex := readerIndex + len;
      } else {
        readerIndex, writerIndex := kCheapPrepend, kCheapPrepend;
      }
    }

    /** Makes room without changing the readable bytes: grows the vector, or moves the bytes to its front. */
    method EnsureWritableBytes(len: nat)
      requires Valid()
      modifies this, bytes
      ensures Valid() && (bytes == old(bytes) || fresh(bytes))
      ensures Contents() == old(Contents()) && bytes.Length - writerIndex >= len
    {
      if bytes.Length - writerIndex < len {
        if (bytes.Length - writerIndex) + readerIndex < len + kCheapPrepend {
          Resize(writerIndex + len);
        } else {
          MoveToFront();
        }
      }
    }

    method Resize(size: nat)
      requires Valid() && writerIndex <= size
      modifies this`bytes
      ensures Valid() && fresh(bytes) && bytes.Length == size && Contents() == old(Contents())
    {
      var b := new byte[size](_ => 0);
      var a, w := bytes, writerIndex;
      for i := 0 to w
        invariant Valid() && bytes == a && writerIndex == w && readerIndex == old(readerIndex) && a[..] == old(bytes[..])
        invariant b[..i] == a[..i]
      {
        b[i] := a[i];
      }
      assert b[readerIndex..w] == b[..w][readerIndex..] == a[..w][readerIndex..];
      bytes := b;
    }

    method MoveToFront()
      requires Valid()
      modifies this`readerIndex, this`writerIndex, bytes
      ensures Valid() && Contents() == old(Contents())
      ensures writerIndex == kCheapPrepend + (old(writerIndex) - old(readerIndex))
    {
      var a, r, readable := bytes, readerIndex, writerIndex - readerIndex;
      ghost var s := a[..];
      for i := 0 to readable
        invariant Valid() && bytes == a && readerIndex == r && writerIndex == r + readable
        invariant a[kCheapPrepend..kCheapPrepend + i] == s[r..r + i]
        invariant a[r + i..r + readable] == s[r + i..r + readable]
      {
        assert a[r + i] == a[r + i..r + readable][0];
        a[kCheapPrepend + i] := a[r + i];
      }
      readerIndex := kCheapPrepend;
      writerIndex := readerIndex + readable;
    }

    /** Puts the bytes behind those already there. */
    method Append(data: seq<byte>)
      requires Valid()
      modifies this, bytes
      ensures Valid() && (bytes == old(bytes) || fresh(bytes)) && Contents() == old(Contents()) + data
    {
      EnsureWritableBytes(|data|);
      CopyIn(data);
      Glue(bytes[..], readerIndex, writerIndex, writerIndex + |data|);
      writerIndex := writerIndex + |data|;
    }

    /** Copies the bytes into the room behind the readable ones. */
    method CopyIn(data: seq<byte>)
      requires Valid() && writerIndex + |data| <= bytes.Length
      modifies bytes
      ensures bytes[readerIndex..writerIndex] == old(bytes[readerIndex..writerIndex])
      ensures bytes[writerIndex..writerIndex + |data|] == data
    {
      ghost var before := Contents();
      for i := 0 to |data|
        invariant bytes[readerIndex..writerIndex] == before
        invariant bytes[writerIndex..writerIndex + i] == data[..i]
      {
        bytes[writerIndex + i] := data[i];
      }
      assert data[..|data|] == data;
    }
  }
}

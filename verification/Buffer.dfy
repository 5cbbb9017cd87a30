/**
 The byte buffer of a connection: one array with a reader and a writer index,
 | prependable | readable | writable |.
 */
module Buffer {
  import opened Prelude

  const CHEAP_PREPEND: nat := 8
  const INITIAL_SIZE: nat := 1024
  const EXTRA: nat := 65536

  class Buffer {
    var data: array<byte>
    var reader: nat
    var writer: nat

    ghost predicate Valid()
      reads this
    {
      CHEAP_PREPEND <= reader <= writer <= data.Length
    }

    /** The readable bytes: what was appended and not yet retrieved. */
    function Contents(): seq<byte>
      requires Valid()
      reads this, data
    {
      data[reader..writer]
    }

    constructor ()
      ensures Valid() && Contents() == [] && fresh(data)
    {
      data := new byte[CHEAP_PREPEND + INITIAL_SIZE](_ => 0);
      reader, writer := CHEAP_PREPEND, CHEAP_PREPEND;
    }

    function Readable(): nat
      requires Valid()
      reads this
    {
      writer - reader
    }

    function Writable(): nat
      requires Valid()
      reads this
    {
      data.Length - writer
    }

    /** The first readable bytes. */
    function Peek(n: nat): (r: seq<byte>)
      requires Valid() && n <= Readable()
      reads this, data
      ensures r == Contents()[..n]
    {
      data[reader..reader + n]
    }

    method RetrieveAll()
      requires Valid()
      modifies this`reader, this`writer
      ensures Valid() && Contents() == []
    {
      reader, writer := CHEAP_PREPEND, CHEAP_PREPEND;
    }

    method Retrieve(len: nat)
      requires Valid() && len <= Readable()
      modifies this`reader, this`writer
      ensures Valid() && Contents() == old(Contents())[len..]
    {
      if len < Readable() {
        reader := reader + len;
      } else {
        RetrieveAll();
      }
    }

    method RetrieveAllAsString() returns (s: seq<byte>)
      requires Valid()
      modifies this`reader, this`writer
      ensures Valid() && Contents() == [] && s == old(Contents())
    {
      s := Peek(Readable());
      RetrieveAll();
    }

    /** Makes room by sliding the readable bytes to the front, or by growing. */
    method EnsureWritable(len: nat)
      requires Valid()
      modifies this, data
      ensures Valid() && (data == old(data) || fresh(data))
      ensures Contents() == old(Contents()) && Writable() >= len
    {
      if Writable() >= len {
        return;
      }
      if Writable() + reader - CHEAP_PREPEND < len {
        Resize(writer + len);
      } else {
        var readable := Readable();
        Slide();
        reader := CHEAP_PREPEND;
        writer := reader + readable;
      }
    }

    /** A vector's resize: a longer array with the same beginning. */
    method Resize(size: nat)
      requires Valid() && size >= writer
      modifies this`data
      ensures fresh(data) && data.Length == size && data[..writer] == old(data[..writer])
    {
      var bigger := new byte[size](_ => 0);
      var i := 0;
      while i < writer
        invariant 0 <= i <= writer
        invariant bigger[..i] == data[..i]
        modifies bigger
      {
        bigger[i] := data[i];
        i := i + 1;
      }
      data := bigger;
    }

    /** Copies the readable bytes to the front, first byte first, so that overlap is harmless. */
    method Slide()
      requires Valid()
      modifies data
      ensures data[CHEAP_PREPEND..CHEAP_PREPEND + Readable()] == old(data[reader..writer])
    {
      var n, i := Readable(), 0;
      while i < n
        invariant 0 <= i <= n
        invariant data[CHEAP_PREPEND..CHEAP_PREPEND + i] == old(data[reader..reader + i])
        invariant forall k | reader + i <= k < writer :: data[k] == old(data[k])
      {
        data[CHEAP_PREPEND + i] := data[reader + i];
        i := i + 1;
      }
    }

    method Append(bytes: seq<byte>)
      requires Valid()
      modifies this, data
      ensures Valid() && (data == old(data) || fresh(data))
      ensures Contents() == old(Contents()) + bytes
    {
      EnsureWritable(|bytes|);
      Write(bytes);
    }

    /** Copies bytes in behind the readable ones, where there is room. */
    method Write(bytes: seq<byte>)
      requires Valid() && |bytes| <= Writable()
      modifies this`writer, data
      ensures Valid() && Contents() == old(Contents()) + bytes && writer == old(writer) + |bytes|
    {
      ghost var before := Contents();
      var i := 0;
      while i < |bytes|
        invariant 0 <= i <= |bytes|
        invariant data[reader..writer + i] == before + bytes[..i]
        modifies data
      {
        data[writer + i] := bytes[i];
        i := i + 1;
      }
      writer := writer + |bytes|;
    }

    /** One scattered read: as much as fits goes behind the readable bytes, the rest through
        a spare area.  `arrived` is what the system delivers, nothing on an error. */
    method ReadFd(arrived: Option<seq<byte>>) returns (n: int)
      requires Valid() && (arrived.Some? ==> |arrived.value| <= Writable() + EXTRA)
      modifies this, data
      ensures Valid() && (data == old(data) || fresh(data))
      ensures arrived.None? ==> n < 0 && Contents() == old(Contents())
      ensures arrived.Some? ==> n == |arrived.value| && Contents() == old(Contents()) + arrived.value
    {
      if arrived.None? {
        return -1;
      }
      var writable := Writable();
      n := |arrived.value|;
      if n <= writable {
        Write(arrived.value);
      } else {
        Write(arrived.value[..writable]);
        ghost var first := Contents();
        Append(arrived.value[writable..]);
        assert arrived.value == arrived.value[..writable] + arrived.value[writable..];
      }
    }
  }
}

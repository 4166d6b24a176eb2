/** The read-through layer over the ring buffer: readers that do not fail. */
module IoBuffer {
  import opened Wrappers
  import opened BigEndian
  import opened RingBuffer

  /** What a connection delivers: `given` is its stream so far. */
  class Reader {
    var given: seq<byte>
    var ahead: seq<byte>
    // how much each call is willing to give; 0 when there is no more
    var portions: seq<nat>
    // how much each call asked for
    var asked: seq<nat>

    constructor (ahead: seq<byte>, portions: seq<nat>)
      ensures given == [] && this.ahead == ahead && this.portions == portions && asked == []
    {
      given, this.ahead, this.portions, asked := [], ahead, portions, [];
    }

    /** At most `size` bytes, the next of the stream. */
    method Read(size: nat) returns (data: seq<byte>)
      modifies this
      ensures |data| <= size && given == old(given) + data && old(ahead) == data + ahead
      ensures asked == old(asked) + [size]
    {
      asked := asked + [size];
      var n := if portions == [] then 0 else portions[0];
      portions := if portions == [] then [] else portions[1..];
      n := if n < size then n else size;
      n := if n < |ahead| then n else |ahead|;
      data := ahead[..n];
      assert data + ahead[n..] == ahead;
      given, ahead := given + data, ahead[n..];
    }
  }

  lemma {:induction false} Grouped(a: seq<byte>, b: seq<byte>, c: seq<byte>)
    ensures a + (b + c) == a + b + c
  {
  }

  lemma {:induction false} OneIsEmpty(a: seq<byte>, b: seq<byte>, c: seq<byte>)
    requires b == [] || c == []
    ensures a + b + c == a + c + b
  {
  }

  class IOBuffer {
    const reader: Reader
    const buffer: Buffer
    var noCache: bool
    // everything handed out so far
    ghost var delivered: seq<byte>

    constructor (reader: Reader, buffer: Buffer)
      requires buffer.Valid() && buffer.Contents() == [] && reader.given == []
      ensures this.reader == reader && this.buffer == buffer && !noCache && Transparent()
    {
      this.reader, this.buffer, noCache, delivered := reader, buffer, false, [];
    }

    /** What has been handed out and what is buffered is the reader's stream so far. */
    ghost predicate Transparent()
      reads this, buffer, buffer.buf, reader
    {
      buffer.Valid() && delivered + buffer.Contents() == reader.given
    }

    method SetNoCache()
      requires Transparent()
      modifies this`noCache
      ensures Transparent() && noCache
    {
      noCache := true;
    }

    /** Takes up to `len` bytes from the buffer. */
    method ReadFromCache(len: nat) returns (dst: seq<byte>)
      requires Transparent()
      modifies buffer, this`delivered
      ensures Transparent() && delivered == old(delivered) + dst
      ensures |dst| == (if len < |old(buffer.Contents())| then len else |old(buffer.Contents())|)
      ensures old(buffer.Contents()) == dst + buffer.Contents()
    {
      var cacheSize := buffer.ReadLeft();
      dst := [];
      if cacheSize > 0 {
        var ok;
        if cacheSize >= len {
          ok, dst := buffer.ReadBytes(len);
        } else {
          ok, dst := buffer.ReadBytes(cacheSize);
        }
      }
      Grouped(delivered, dst, buffer.Contents());
      delivered := delivered + dst;
    }

    /** One read of the connection into the buffer. */
    method FillCache()
      requires Transparent()
      modifies buffer, buffer.buf, reader
      ensures Transparent() && old(reader.given) <= reader.given
      ensures |buffer.Contents()| == |old(buffer.Contents())| + |reader.given| - |old(reader.given)|
      ensures reader.asked == old(reader.asked) + [old(buffer.ContinuousWriteLeft())]
    {
      var room := buffer.ContinuousWriteLeft();
      var data := reader.Read(room);
      ghost var was := buffer.Contents();
      Deposit(data);
      Grouped(delivered, was, data);
    }

    /** The connection has put bytes behind the data, and the buffer takes them in. */
    method Deposit(data: seq<byte>)
      requires buffer.Valid() && |data| <= buffer.ContinuousWriteLeft()
      modifies buffer, buffer.buf
      ensures buffer.Valid() && buffer.Contents() == old(buffer.Contents()) + data
    {
      ghost var b, r, w := buffer.buf[..], buffer.rpos, buffer.wpos;
      buffer.Fill(buffer.wpos, data);
      assert Between(buffer.buf[..], r, w) == Between(b, r, w);
      assert buffer.buf[..][w..w + |data|] == data;
      var _ := buffer.SeekWrite(|data|);
      assert Between(b, r, w) + [] == Between(b, r, w);
    }

    /** read_bytes: what is cached and what one read of the connection gives, up to `len` bytes,
        and nothing lost, repeated or out of order, whether the cache has been turned off or
        not. The connection is read unless the cache has been on and holds enough, and then
        asked for just what is missing, or for as much as the cache takes in. */
    method ReadBytes(len: nat) returns (dst: seq<byte>)
      requires Transparent()
      modifies this`delivered, buffer, buffer.buf, reader
      ensures Transparent() && delivered == old(delivered) + dst && old(reader.given) <= reader.given
      ensures var there := |old(buffer.Contents())| + |reader.given| - |old(reader.given)|;
              |dst| == if len < there then len else there
      ensures var cached := |old(buffer.Contents())|;
              if noCache then reader.asked == old(reader.asked) + [if cached < len then len - cached else 0]
              else if len <= cached then reader.asked == old(reader.asked)
              else exists n :: reader.asked == old(reader.asked) + [n] && (buffer.buf.Length > 1 ==> n > 0)
    {
      dst := ReadFromCache(len);
      if noCache {
        // nothing is read past what is still in the cache
        var more := reader.Read(len - |dst|);
        ghost var cached := buffer.Contents();
        assert more == [] || cached == [];
        OneIsEmpty(delivered, more, cached);
        delivered := delivered + more;
        dst := dst + more;
      } else {
        if |dst| == len {
          return;
        }
        FillCache();
        var more := ReadFromCache(len - |dst|);
        dst := dst + more;
      }
    }
  }
}

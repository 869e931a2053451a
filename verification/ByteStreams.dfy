/** Buffered readers, as the bytes not read yet. */
module ByteStreams {
  import opened Words
  import opened Wrappers

  datatype ReadError = UnexpectedEof | VarIntTooBig | NegativeLength | InvalidLength

  /** What a reader of the front of a byte string returns, with the bytes it leaves behind. */
  datatype Parsed<T> = Parsed(value: T, rest: seq<byte>) | Failed(error: ReadError, rest: seq<byte>)

  lemma Reassociate(a: seq<byte>, b: seq<byte>, c: seq<byte>)
    ensures (a + b) + c == a + (b + c)
  {
  }

  lemma SplitAt(s: seq<byte>, k: nat)
    requires k <= |s|
    ensures s == s[..k] + s[k..]
  {
  }

  class Reader {
    var unread: seq<byte>

    constructor (bytes: seq<byte>)
      ensures unread == bytes
    {
      unread := bytes;
    }

    method ReadByte() returns (b: Option<byte>)
      modifies this
      ensures old(unread) == [] ==> b == None && unread == []
      ensures old(unread) != [] ==> b == Some(old(unread)[0]) && unread == old(unread)[1..]
    {
      if unread == [] {
        return None;
      }
      b := Some(unread[0]);
      unread := unread[1..];
    }

    /** io.ReadFull: a short stream is drained before the error is reported. */
    method ReadFull(n: nat) returns (bytes: Option<seq<byte>>)
      modifies this
      ensures n <= |old(unread)| ==> bytes == Some(old(unread)[..n]) && unread == old(unread)[n..]
      ensures n > |old(unread)| ==> bytes == None && unread == []
    {
      if n > |unread| {
        unread := [];
        return None;
      }
      bytes := Some(unread[..n]);
      unread := unread[n..];
    }

    method ReadAll() returns (bytes: seq<byte>)
      modifies this
      ensures bytes == old(unread) && unread == []
    {
      bytes := unread;
      unread := [];
    }
  }

  /** One connection. The peer takes `capacity` bytes in all; the write that exceeds it fails part-way. */
  class Conn {
    const input: Reader
    const capacity: nat
    var sent: seq<byte>
    var closed: bool

    constructor (incoming: seq<byte>, capacity: nat)
      ensures input.unread == incoming && fresh(input) && this.capacity == capacity && sent == [] && !closed
    {
      input := new Reader(incoming);
      this.capacity := capacity;
      sent := [];
      closed := false;
    }

    function After(before: seq<byte>, bytes: seq<byte>): seq<byte> {
      if |before| + |bytes| <= capacity then before + bytes
      else if |before| <= capacity then before + bytes[..capacity - |before|]
      else before
    }

    /** Two writes in a row leave what one write of both would; after a failed write nothing more goes out. */
    lemma AfterBoth(a: seq<byte>, b: seq<byte>)
      ensures |a| <= capacity ==> After(After([], a), b) == After([], a + b)
      ensures |a| > capacity ==> After([], a) == After([], a + b)
    {
      assert [] + a == a && [] + (a + b) == a + b;
      if |a| > capacity {
        assert a[..capacity] == (a + b)[..capacity];
      } else if |a| + |b| > capacity {
        assert a + b[..capacity - |a|] == (a + b)[..capacity] == [] + (a + b)[..capacity];
      }
    }

    method Write(bytes: seq<byte>) returns (ok: bool)
      modifies this`sent
      ensures sent == After(old(sent), bytes)
      ensures ok <==> |old(sent)| + |bytes| <= capacity
    {
      ok := |sent| + |bytes| <= capacity;
      sent := After(sent, bytes);
    }

    method Close()
      modifies this`closed
      ensures closed
    {
      closed := true;
    }
  }
}

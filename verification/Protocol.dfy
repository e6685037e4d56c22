/** The wire format between the web app and the privileged helper: a 4-byte big-endian length, then
    the body. A stream socket delivers the bytes in chunks of its own choosing. */
module Protocol {
  import opened Prelude

  const MAX_MESSAGE := 64 * 1024 * 1024
  const RECV_LIMIT := 1024 * 1024
  const FIRST_LIMIT := 65536

  datatype Error = Closed | TooLarge | Unpackable

  // --- the format ---

  /** `struct.pack(">I", n)`. */
  function Pack(n: nat): (r: seq<byte>)
    requires n < 0x1_0000_0000
    ensures |r| == 4
  {
    [(n / 0x100_0000) as byte, (n / 0x1_0000 % 0x100) as byte, (n / 0x100 % 0x100) as byte, (n % 0x100) as byte]
  }

  function Unpack(b: seq<byte>): (n: nat)
    requires |b| == 4
    ensures n < 0x1_0000_0000
  {
    ((b[0] as int * 0x100 + b[1] as int) * 0x100 + b[2] as int) * 0x100 + b[3] as int
  }

  /** What a sender puts on the stream for one message; a length beyond 32 bits cannot be packed. */
  function Frame(body: seq<byte>): Result<seq<byte>, Error> {
    if |body| >= 0x1_0000_0000 then Err(Unpackable) else Ok(Pack(|body|) + body)
  }

  /** The message at the start of everything that will ever arrive. */
  function Parse(stream: seq<byte>): Result<seq<byte>, Error> {
    if |stream| < 4 then Err(Closed)
    else
      var length := Unpack(stream[..4]);
      if length > MAX_MESSAGE then Err(TooLarge)
      else if |stream| - 4 < length then Err(Closed)
      else Ok(stream[4..4 + length])
  }

  lemma UnpackPack(n: nat)
    requires n < 0x1_0000_0000
    ensures Unpack(Pack(n)) == n
  {
    assert n / 0x1_0000 == (n / 0x100_0000) * 0x100 + n / 0x1_0000 % 0x100;
    assert n / 0x100 == (n / 0x1_0000) * 0x100 + n / 0x100 % 0x100;
  }

  /** The receiver gets back the body, up to the size limit and whatever follows it; a longer body
      is refused; a stream cut anywhere inside the message is an error, never a shorter body. */
  lemma FramingRoundTrip(body: seq<byte>, rest: seq<byte>, cut: nat)
    requires |body| < 0x1_0000_0000 && cut < |body| + 4
    ensures Frame(body).Ok?
    ensures Parse(Frame(body).value + rest) == if |body| <= 0x400_0000 then Ok(body) else Err(TooLarge)
    ensures Parse(Frame(body).value[..cut]) == if |body| > 0x400_0000 && cut >= 4 then Err(TooLarge) else Err(Closed)
  {
    UnpackPack(|body|);
    var sent := Pack(|body|) + body;
    var stream := sent + rest;
    assert stream[..4] == Pack(|body|);
    if |body| <= MAX_MESSAGE {
      assert stream[4..4 + |body|] == body;
    }
    if cut >= 4 {
      assert sent[..cut][..4] == Pack(|body|);
    }
  }

  // --- the sockets ---

  /** One direction of a stream connection: the bytes that have yet to be read. Reading takes a
      non-empty prefix whose length the kernel picks; nothing left means the peer closed. */
  class Stream {
    var incoming: seq<byte>

    constructor (bytes: seq<byte>)
      ensures incoming == bytes
    {
      incoming := bytes;
    }

    method Recv(limit: nat) returns (chunk: seq<byte>)
      modifies this
      ensures |chunk| <= limit && old(incoming) == chunk + incoming
      ensures chunk == [] <==> limit == 0 || old(incoming) == []
    {
      if limit == 0 || incoming == [] {
        return [];
      }
      var n :| 1 <= n <= limit && n <= |incoming|;
      chunk, incoming := incoming[..n], incoming[n..];
    }

    method SendAll(bytes: seq<byte>)
      modifies this
      ensures incoming == old(incoming) + bytes
    {
      incoming := incoming + bytes;
    }

    /** Everything asked for, or an error if the peer closed first. Reads no byte beyond. */
    method RecvExact(n: nat, start: seq<byte>) returns (r: Result<seq<byte>, Error>)
      modifies this
      ensures |start| + |old(incoming)| < n ==> r == Err(Closed) && incoming == []
      ensures |start| + |old(incoming)| >= n ==> r.Ok? && r.value + incoming == start + old(incoming)
      ensures r.Ok? ==> |r.value| == Max(n, |start|)
    {
      var buf := start;
      while |buf| < n
        invariant buf + incoming == start + old(incoming)
        invariant |start| <= |buf| <= Max(n, |start|)
        decreases n - |buf|
      {
        var chunk := Recv(Min(n - |buf|, RECV_LIMIT));
        if chunk == [] {
          assert |buf + incoming| == |start + old(incoming)|;
          return Err(Closed);
        }
        ghost var before := buf;
        buf := buf + chunk;
        assert buf + incoming == before + (chunk + incoming);
      }
      assert |buf + incoming| == |start + old(incoming)|;
      return Ok(buf);
    }

    /** Reads one message, however the stream is cut into chunks. With `wantFds` the first read is a
        larger one that can stop inside the length, inside the body or beyond the message; without
        it, exactly the message is taken off the stream. */
    method RecvMessage(wantFds: bool) returns (r: Result<seq<byte>, Error>)
      modifies this
      ensures r == Parse(old(incoming))
      ensures r.Ok? && !wantFds ==> incoming == old(incoming)[4 + |r.value|..]
    {
      ghost var all := incoming;
      var first: seq<byte> := [];
      if wantFds {
        first := Recv(FIRST_LIMIT);
        if first == [] {
          return Err(Closed);
        }
      }
      assert all == first + incoming;
      var header := first;
      if |first| < 4 {
        assert first[..|first|] == first;
        var h := RecvExact(4, first);
        if h.Err? {
          return Err(Closed);
        }
        header := h.value;
        first := [];
      } else {
        header := first[..4];
        first := first[4..];
      }
      assert all == header + (first + incoming);
      assert all[..4] == header;
      var length := Unpack(header);
      if length > MAX_MESSAGE {
        return Err(TooLarge);
      }
      assert all[4..] == first + incoming;
      var body := RecvExact(length, first);
      if body.Err? {
        return Err(Closed);
      }
      assert body.value + incoming == all[4..];
      assert body.value[..length] == all[4..4 + length];
      return Ok(body.value[..length]);
    }

    /** Puts the frame on the stream. With descriptors it is handed to the kernel once, which may take only a
        part of it. */
    method SendMessage(body: seq<byte>, withFds: bool) returns (r: Result<(), Error>, sent: nat)
      modifies this
      ensures r.Ok? <==> Frame(body).Ok?
      ensures r.Ok? ==> 0 < sent <= |Frame(body).value| && incoming == old(incoming) + Frame(body).value[..sent]
      ensures r.Ok? && !withFds ==> sent == |Frame(body).value|
      ensures r.Err? ==> incoming == old(incoming)
    {
      if |body| >= 0x1_0000_0000 {
        return Err(Unpackable), 0;
      }
      var data := Pack(|body|) + body;
      sent := |data|;
      if withFds {
        var n :| 0 < n <= |data|;
        sent := n;
      }
      SendAll(data[..sent]);
      return Ok(()), sent;
    }
  }

  /** A frame sent together with descriptors arrives as the body, or, if the kernel took a part of it only, as
      an error once the connection is closed: never as another body. */
  method ExchangeWithFds(body: seq<byte>) returns (got: Result<seq<byte>, Error>, sent: nat)
    requires |body| <= MAX_MESSAGE
    ensures got == if sent == |Frame(body).value| then Ok(body) else Err(Closed)
  {
    var stream := new Stream([]);
    var r;
    r, sent := stream.SendMessage(body, true);
    var frame := Frame(body).value;
    assert stream.incoming == frame[..sent];
    if sent == |frame| {
      assert frame[..sent] == frame + [];
      FramingRoundTrip(body, [], 0);
    } else {
      FramingRoundTrip(body, [], sent);
    }
    got := stream.RecvMessage(true);
  }

  /** A message sent on a fresh connection is the message received. A second one sent behind it is still
      there and is received next, unless the first was read together with descriptors: that first read
      may take bytes of the second with it. */
  method Exchange(body: seq<byte>, later: seq<byte>, wantFds: bool)
    returns (got: Result<seq<byte>, Error>, next: Result<seq<byte>, Error>)
    requires |body| <= MAX_MESSAGE && |later| <= MAX_MESSAGE
    ensures got == Ok(body)
    ensures !wantFds ==> next == Ok(later)
  {
    var stream := new Stream([]);
    var _, sent := stream.SendMessage(body, false);
    var _, sentLater := stream.SendMessage(later, false);
    FramingRoundTrip(body, Frame(later).value, 0);
    assert Frame(body).value[..sent] == Frame(body).value && Frame(later).value[..sentLater] == Frame(later).value;
    assert stream.incoming == Frame(body).value + Frame(later).value;
    got := stream.RecvMessage(wantFds);
    if !wantFds {
      assert stream.incoming == Frame(later).value;
      FramingRoundTrip(later, [], 0);
      assert Frame(later).value + [] == Frame(later).value;
    }
    next := stream.RecvMessage(false);
  }
}

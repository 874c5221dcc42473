/** The socket wrapper of modules/network.py.  A client keeps two byte
    streams: `stream_out`, where `queue` appends every packet behind a 4-byte
    big-endian length header, and `stream_in`, from which `receive` cuts
    every complete frame and hands it to the callbacks registered for its
    flavor.  The socket itself is a pair of parameters: how many bytes
    `send` accepts, and which bytes `recv` produced.  The client is the
    `RawClient`, whose flavor is the text before the first space. */
module Network {
  import opened Wrappers

  type Byte = b: int | 0 <= b < 256
  type Bytes = seq<Byte>

  /** The flavor of a message, and the messages themselves, are raw
      strings. */
  type Flavor = Bytes

  /** `Header.length`: the header is a `!I`, a network-order unsigned int. */
  const HeaderLength: nat := 4

  /** The largest length plus one that `struct.pack("!I", ...)` accepts. */
  const MaxDataLength: nat := 0x1_0000_0000

  const Space: Byte := 32

  function Pow256(w: nat): (p: nat)
    ensures p > 0
  {
    if w == 0 then 1 else 256 * Pow256(w - 1)
  }

  /** The unsigned integer a big-endian byte string stands for, below
      256 to the power of its length. */
  function FromBigEndian(bs: Bytes): (n: nat)
    ensures n < Pow256(|bs|)
  {
    if bs == [] then 0 else FromBigEndian(bs[..|bs| - 1]) * 256 + bs[|bs| - 1]
  }

  /** `struct.pack` of an unsigned integer on `w` bytes, most significant
      first; reading it back gives the integer. */
  function BigEndian(n: nat, w: nat): (bs: Bytes)
    requires n < Pow256(w)
    ensures |bs| == w && FromBigEndian(bs) == n
  {
    if w == 0 then []
    else
      assert n / 256 < Pow256(w - 1) by { DivBound(n, Pow256(w - 1)); }
      var front := BigEndian(n / 256, w - 1);
      assert (front + [n % 256])[..w - 1] == front;
      front + [n % 256]
  }

  lemma DivBound(n: nat, p: nat)
    requires n < 256 * p
    ensures n / 256 < p
  {
  }

  lemma HeaderRange()
    ensures Pow256(HeaderLength) == MaxDataLength
  {
  }

  /** One frame as `queue` writes it: the header, then the data. */
  function Frame(data: Bytes): (f: Bytes)
    requires |data| < MaxDataLength
    ensures |f| == HeaderLength + |data| && f[HeaderLength..] == data
    ensures FromBigEndian(f[..HeaderLength]) == |data|
  {
    HeaderRange();
    var header := BigEndian(|data|, HeaderLength);
    assert (header + data)[..HeaderLength] == header;
    header + data
  }

  predicate Sendable(ps: seq<Bytes>)
  {
    forall i :: 0 <= i < |ps| ==> |ps[i]| < MaxDataLength
  }

  /** The frames of several packets, one after the other. */
  function Frames(ps: seq<Bytes>): Bytes
    requires Sendable(ps)
  {
    if ps == [] then [] else Frames(ps[..|ps| - 1]) + Frame(ps[|ps| - 1])
  }

  /** One turn of the parsing loop of `receive`: when the stream holds a
      whole header and the whole packet it announces, the packet and what
      follows it; otherwise nothing. */
  function NextFrame(s: Bytes): (r: Option<(Bytes, Bytes)>)
    ensures r.Some? ==> |s| >= HeaderLength + |r.value.0| && |r.value.0| < MaxDataLength &&
                        FromBigEndian(s[..HeaderLength]) == |r.value.0| &&
                        r.value.0 == s[HeaderLength..HeaderLength + |r.value.0|] && r.value.1 == s[HeaderLength + |r.value.0|..]
    ensures r.None? <==> |s| < HeaderLength || |s| < HeaderLength + FromBigEndian(s[..HeaderLength])
  {
    if |s| < HeaderLength then None
    else
      var n := FromBigEndian(s[..HeaderLength]);
      if |s| < HeaderLength + n then None
      else
        assert n < MaxDataLength by { BigEndianBound(s[..HeaderLength]); HeaderRange(); }
        Some((s[HeaderLength..HeaderLength + n], s[HeaderLength + n..]))
  }

  /** A stream with a complete frame is that frame followed by the rest. */
  lemma NextFrameSplits(s: Bytes)
    requires NextFrame(s).Some?
    ensures s == Frame(NextFrame(s).value.0) + NextFrame(s).value.1
  {
    var (packet, rest) := NextFrame(s).value;
    FrameOfHeader(s[..HeaderLength], packet);
    assert s == s[..HeaderLength] + packet + rest;
  }

  lemma BigEndianBound(bs: Bytes)
    ensures FromBigEndian(bs) < Pow256(|bs|)
  {
    if bs != [] {
      BigEndianBound(bs[..|bs| - 1]);
    }
  }

  /** A header is the one `Frame` writes for a packet of the length it
      announces. */
  lemma FrameOfHeader(header: Bytes, data: Bytes)
    requires |header| == HeaderLength && FromBigEndian(header) == |data| < MaxDataLength
    ensures Frame(data) == header + data
  {
    HeaderRange();
    BigEndianUnique(header, BigEndian(|data|, HeaderLength));
  }

  /** Two byte strings of the same width that stand for the same integer
      are equal. */
  lemma {:induction false} BigEndianUnique(a: Bytes, b: Bytes)
    requires |a| == |b| && FromBigEndian(a) == FromBigEndian(b)
    ensures a == b
  {
    if a != [] {
      var k := |a| - 1;
      var x, y := FromBigEndian(a[..k]), FromBigEndian(b[..k]);
      DivModUnique(FromBigEndian(a), x, a[k]);
      DivModUnique(FromBigEndian(a), y, b[k]);
      BigEndianUnique(a[..k], b[..k]);
      assert a == a[..k] + [a[k]] && b == b[..k] + [b[k]];
    }
  }

  lemma DivModUnique(v: int, q: int, r: int)
    requires 0 <= r < 256 && v == q * 256 + r
    ensures v / 256 == q && v % 256 == r
  {
  }

  /** What `receive` makes of a stream when every flavor is handled: the
      packets of the complete frames, in order, and the incomplete rest,
      which is a suffix of the stream and holds no complete frame. */
  datatype Parsed = Parsed(packets: seq<Bytes>, rest: Bytes)

  function Parse(s: Bytes): (r: Parsed)
    ensures NextFrame(r.rest).None?
    decreases |s|
  {
    match NextFrame(s)
    case None => Parsed([], s)
    case Some((packet, rest)) =>
      var more := Parse(rest);
      Parsed([packet] + more.packets, more.rest)
  }

  /** What `receive` keeps is a suffix of the stream. */
  lemma {:induction false} ParseRestIsSuffix(s: Bytes)
    ensures |Parse(s).rest| <= |s| && Parse(s).rest == s[|s| - |Parse(s).rest|..]
    decreases |s|
  {
    match NextFrame(s)
    case None =>
    case Some((packet, rest)) =>
      ParseRestIsSuffix(rest);
      assert s[|s| - |rest|..] == rest;
  }

  /** Framing packets and parsing the stream gives the packets back, in
      order, whatever follows them. */
  lemma {:induction false} ParseFrames(ps: seq<Bytes>, tail: Bytes)
    requires Sendable(ps)
    ensures Parse(Frames(ps) + tail) == Parsed(ps + Parse(tail).packets, Parse(tail).rest)
  {
    if ps == [] {
      assert Frames(ps) + tail == tail;
    } else {
      var front, last := ps[..|ps| - 1], ps[|ps| - 1];
      FramesSplit(ps, tail);
      ParseFrames(front, Frame(last) + tail);
      ParseOneFrame(last, tail);
      SplitLast(ps, Parse(tail).packets);
    }
  }

  lemma FramesSplit(ps: seq<Bytes>, tail: Bytes)
    requires Sendable(ps) && ps != []
    ensures Sendable(ps[..|ps| - 1])
    ensures Frames(ps) + tail == Frames(ps[..|ps| - 1]) + (Frame(ps[|ps| - 1]) + tail)
  {
    var front, last := ps[..|ps| - 1], ps[|ps| - 1];
    assert Sendable(front) by {
      forall i | 0 <= i < |front|
        ensures |front[i]| < MaxDataLength
      {
        assert front[i] == ps[i];
      }
    }
    assert Frames(ps) == Frames(front) + Frame(last);
    AppendAssoc(Frames(front), Frame(last), tail);
  }

  lemma SplitLast<T>(a: seq<T>, b: seq<T>)
    requires a != []
    ensures a + b == a[..|a| - 1] + ([a[|a| - 1]] + b)
  {
    assert a == a[..|a| - 1] + [a[|a| - 1]];
  }

  lemma AppendAssoc<T>(a: seq<T>, b: seq<T>, c: seq<T>)
    ensures a + (b + c) == (a + b) + c
  {
  }

  lemma ParseOneFrame(data: Bytes, tail: Bytes)
    requires |data| < MaxDataLength
    ensures Parse(Frame(data) + tail) == Parsed([data] + Parse(tail).packets, Parse(tail).rest)
  {
    NextFrameOfFrame(data, tail);
  }

  lemma NextFrameOfFrame(data: Bytes, tail: Bytes)
    requires |data| < MaxDataLength
    ensures NextFrame(Frame(data) + tail) == Some((data, tail))
  {
    var s := Frame(data) + tail;
    assert s[..HeaderLength] == Frame(data)[..HeaderLength];
    assert s[HeaderLength..HeaderLength + |data|] == data;
    assert s[HeaderLength + |data|..] == tail;
  }

  /** Frames that arrive split anywhere: parsing what has arrived so far,
      then the kept rest together with the next bytes, gives the same
      packets as parsing everything at once. */
  lemma {:induction false} ParseIncremental(s: Bytes, more: Bytes)
    ensures Parse(s + more) ==
            Parsed(Parse(s).packets + Parse(Parse(s).rest + more).packets, Parse(Parse(s).rest + more).rest)
    decreases |s|
  {
    match NextFrame(s)
    case None =>
      assert Parse(s) == Parsed([], s);
    case Some((packet, rest)) =>
      NextFrameSplits(s);
      assert s + more == Frame(packet) + (rest + more);
      ParseOneFrame(packet, rest + more);
      ParseIncremental(rest, more);
      AppendAssoc([packet], Parse(rest).packets, Parse(Parse(rest).rest + more).packets);
  }

  function Concat(chunks: seq<Bytes>): Bytes
    decreases |chunks|
  {
    if chunks == [] then [] else chunks[0] + Concat(chunks[1..])
  }

  /** Successive calls of `receive`, the i-th reading `chunks[i]`, starting
      from the kept bytes `kept`: every packet handled, and what is kept at
      the end. */
  function ReceiveChunks(kept: Bytes, chunks: seq<Bytes>): Parsed
    decreases |chunks|
  {
    if chunks == [] then Parsed([], kept)
    else
      var now := Parse(kept + chunks[0]);
      var later := ReceiveChunks(now.rest, chunks[1..]);
      Parsed(now.packets + later.packets, later.rest)
  }

  /** Receiving in chunks is parsing their concatenation. */
  lemma {:induction false} ReceiveChunksIsParse(kept: Bytes, chunks: seq<Bytes>)
    requires NextFrame(kept).None?
    ensures ReceiveChunks(kept, chunks) == Parse(kept + Concat(chunks))
    decreases |chunks|
  {
    if chunks == [] {
      calc {
        Parse(kept + Concat(chunks));
        { assert kept + Concat(chunks) == kept; }
        Parse(kept);
        Parsed([], kept);
      }
    } else {
      var now := Parse(kept + chunks[0]);
      calc {
        ReceiveChunks(kept, chunks);
        Parsed(now.packets + ReceiveChunks(now.rest, chunks[1..]).packets, ReceiveChunks(now.rest, chunks[1..]).rest);
        { ReceiveChunksIsParse(now.rest, chunks[1..]); }
        Parsed(now.packets + Parse(now.rest + Concat(chunks[1..])).packets, Parse(now.rest + Concat(chunks[1..])).rest);
        { ParseIncremental(kept + chunks[0], Concat(chunks[1..])); }
        Parse(kept + chunks[0] + Concat(chunks[1..]));
        { AppendAssoc(kept, chunks[0], Concat(chunks[1..])); }
        Parse(kept + Concat(chunks));
      }
    }
  }

  /** The round trip: the frames of queued packets, cut into chunks of any
      sizes, are received as the same packets in the same order, and
      nothing is left over. */
  lemma ChunkedRoundTrip(ps: seq<Bytes>, chunks: seq<Bytes>)
    requires Sendable(ps) && Concat(chunks) == Frames(ps)
    ensures ReceiveChunks([], chunks) == Parsed(ps, [])
  {
    ReceiveChunksIsParse([], chunks);
    ParseFrames(ps, []);
    assert Frames(ps) + [] == Frames(ps);
    assert [] + Frames(ps) == Frames(ps);
    assert Parse([]) == Parsed([], []);
    assert ps + [] == ps;
  }

  // RawClient packing

  /** The position of the first space, if there is one. */
  function FirstSpace(m: Bytes): (r: Option<nat>)
    ensures r.Some? ==> r.value < |m| && m[r.value] == Space && Space !in m[..r.value]
    ensures r.None? ==> Space !in m
  {
    if m == [] then None
    else if m[0] == Space then Some(0)
    else
      match FirstSpace(m[1..])
      case None => None
      case Some(i) =>
        assert m[..i + 1] == [m[0]] + m[1..][..i];
        Some(i + 1)
  }

  /** `RawClient.pack`: the flavor is the text before the first space, or
      the whole message; the packet is the message itself. */
  function Pack(message: Bytes): (r: (Flavor, Bytes))
    ensures r.1 == message && Space !in r.0
    ensures r.0 == message || (r.0 + [Space] <= message)
  {
    match FirstSpace(message)
    case None => (message, message)
    case Some(i) =>
      assert message[..i] + [Space] == message[..i + 1];
      (message[..i], message)
  }

  /** `RawClient.unpack`: `packet.split(' ', 1)`, or the whole packet and
      an empty message when the packet holds no space. */
  function Unpack(packet: Bytes): (r: (Flavor, Bytes))
    ensures Space !in r.0
    ensures (Space in packet && packet == r.0 + [Space] + r.1) || (Space !in packet && r == (packet, []))
  {
    match FirstSpace(packet)
    case None => (packet, [])
    case Some(i) =>
      assert packet == packet[..i] + [Space] + packet[i + 1..];
      (packet[..i], packet[i + 1..])
  }

  /** The receiver files a raw message under the flavor the sender gave it,
      and the message is its flavor, a space, and what `unpack` hands the
      callbacks. */
  lemma PackUnpack(message: Bytes)
    ensures Unpack(Pack(message).1).0 == Pack(message).0
    ensures Space in message ==> message == Pack(message).0 + [Space] + Unpack(message).1
    ensures Space !in message ==> Unpack(message).1 == []
  {
  }

  // Callbacks

  /** A callback function: the no-op `outgoing` installs by default, or
      one of the caller's. */
  datatype Callback = DoNothing | Function(name: string)

  /** The default handler of unregistered flavors: `unexpected_message`,
      which raises, or one set by `default_incoming`/`default_outgoing`. */
  datatype Fallback = Unexpected | Use(callback: Callback)

  /** One callback run: a registered callback gets the pipe and the
      message, the default one also the flavor. */
  datatype Call = Invoked(callback: Callback, message: Bytes)
                | InvokedDefault(callback: Callback, flavor: Flavor, message: Bytes)

  datatype NetError =
    | UnexpectedMessage(flavor: Flavor)   // AssertionError from `unexpected_message`
    | PacketTooLong                       // struct.error: the length does not fit in "!I"
    | AlreadyReady                        // `assert not self.socket_ready` in `setup`

  /** The callbacks `table` registers, run in order on a message. */
  function Invocations(callbacks: seq<Callback>, message: Bytes): (r: seq<Call>)
    ensures |r| == |callbacks|
    ensures forall i :: 0 <= i < |r| ==> r[i] == Invoked(callbacks[i], message)
  {
    seq(|callbacks|, i requires 0 <= i < |callbacks| => Invoked(callbacks[i], message))
  }

  /** Handling one message of a flavor: every callback registered for the
      flavor in registration order, or else the default handler, which by
      default raises. */
  function Handle(table: map<Flavor, seq<Callback>>, fallback: Fallback, flavor: Flavor, message: Bytes): (r: Result<seq<Call>, NetError>)
    ensures r.Err? <==> flavor !in table && fallback.Unexpected?
    ensures r.Err? ==> r.error == UnexpectedMessage(flavor)
    ensures r.Ok? && flavor in table ==> r.value == Invocations(table[flavor], message)
    ensures r.Ok? && flavor !in table ==> r.value == [InvokedDefault(fallback.callback, flavor, message)]
  {
    if flavor in table then Ok(Invocations(table[flavor], message))
    else match fallback
      case Unexpected => Err(UnexpectedMessage(flavor))
      case Use(callback) => Ok([InvokedDefault(callback, flavor, message)])
  }

  /** The parsing loop of `receive` with its callbacks: the calls made,
      the stream kept, and the error that ended the loop, if one did.  The
      frame of the message that raised has already been cut off. */
  datatype Progress = Progress(calls: seq<Call>, rest: Bytes, error: Option<NetError>)

  function Run(s: Bytes, table: map<Flavor, seq<Callback>>, fallback: Fallback): Progress
    decreases |s|
  {
    match NextFrame(s)
    case None => Progress([], s, None)
    case Some((packet, rest)) =>
      var (flavor, message) := Unpack(packet);
      match Handle(table, fallback, flavor, message)
      case Err(e) => Progress([], rest, Some(e))
      case Ok(calls) =>
        var more := Run(rest, table, fallback);
        Progress(calls + more.calls, more.rest, more.error)
  }

  /** The loop resumed after the calls `done` have been made. */
  function Resume(done: seq<Call>, p: Progress): Progress
  {
    Progress(done + p.calls, p.rest, p.error)
  }

  /** The state of the parsing loop of `receive`: the whole run `whole`
      is the calls `done` followed by the rest of the loop on the stream
      `s` when the loop goes on, or ends there with the outcome `r`. */
  predicate Resumes(whole: Progress, done: seq<Call>, s: Bytes, more: bool, r: Outcome<NetError>,
                    table: map<Flavor, seq<Callback>>, fallback: Fallback)
  {
    (more ==> r.Pass? && whole == Resume(done, Run(s, table, fallback))) &&
    (!more ==> whole == Progress(done, s, if r.Fail? then Some(r.error) else None))
  }

  /** One turn of the loop after several: the runs compose. */
  lemma ResumesThen(whole: Progress, done: seq<Call>, s: Bytes, here: seq<Call>, s': Bytes, more: bool, r: Outcome<NetError>,
                    table: map<Flavor, seq<Callback>>, fallback: Fallback)
    requires Resumes(whole, done, s, true, Pass, table, fallback)
    requires Resumes(Run(s, table, fallback), here, s', more, r, table, fallback)
    ensures Resumes(whole, done + here, s', more, r, table, fallback)
  {
    AppendAssoc(done, here, Run(s', table, fallback).calls);
  }

  /** The calls the packets of a stream make, one packet after the other. */
  function CallsOf(packets: seq<Bytes>, table: map<Flavor, seq<Callback>>, fallback: Fallback): seq<Call>
  {
    if packets == [] then []
    else
      var (flavor, message) := Unpack(packets[0]);
      var here := Handle(table, fallback, flavor, message);
      (if here.Ok? then here.value else []) + CallsOf(packets[1..], table, fallback)
  }

  predicate Handled(packets: seq<Bytes>, table: map<Flavor, seq<Callback>>, fallback: Fallback)
  {
    fallback.Use? || forall i :: 0 <= i < |packets| ==> Unpack(packets[i]).0 in table
  }

  /** When every flavor that arrives has a handler, `receive` handles the
      packets of every complete frame in order and keeps exactly the
      incomplete rest; it stops with an error exactly when some packet's
      flavor has none. */
  lemma {:induction false} RunFollowsParse(s: Bytes, table: map<Flavor, seq<Callback>>, fallback: Fallback)
    ensures Run(s, table, fallback).error.None? <==> Handled(Parse(s).packets, table, fallback)
    ensures Run(s, table, fallback).error.None? ==>
              Run(s, table, fallback).calls == CallsOf(Parse(s).packets, table, fallback) &&
              Run(s, table, fallback).rest == Parse(s).rest
    decreases |s|
  {
    match NextFrame(s)
    case None =>
    case Some((packet, rest)) =>
      RunFollowsParse(rest, table, fallback);
      var ps := Parse(s).packets;
      assert ps == [packet] + Parse(rest).packets;
      assert ps[1..] == Parse(rest).packets;
      if fallback.Unexpected? {
        if Handled(Parse(rest).packets, table, fallback) && Unpack(packet).0 in table {
          forall i | 0 <= i < |ps|
            ensures Unpack(ps[i]).0 in table
          {
            if i > 0 {
              assert ps[i] == Parse(rest).packets[i - 1];
            }
          }
        }
        if Handled(ps, table, fallback) {
          assert Unpack(ps[0]).0 in table;
          forall i | 0 <= i < |Parse(rest).packets|
            ensures Unpack(Parse(rest).packets[i]).0 in table
          {
            assert Parse(rest).packets[i] == ps[i + 1];
          }
        }
      }
  }

  /** A connection to a peer, as a `RawClient`.  `queued` and `delivered`
      are the model's record of what was queued and what `send` has taken:
      the bytes sent so far and the bytes still waiting are always the
      frames of the queued packets. */
  class Client {
    var identity: int
    var ready: bool
    var streamIn: Bytes
    var streamOut: Bytes
    var callbacksIn: map<Flavor, seq<Callback>>
    var callbacksOut: map<Flavor, seq<Callback>>
    var defaultIn: Fallback
    var defaultOut: Fallback
    /** Every callback run, in order. */
    var calls: seq<Call>
    ghost var queued: seq<Bytes>
    ghost var delivered: Bytes

    ghost predicate Valid()
      reads this
    {
      Sendable(queued) && delivered + streamOut == Frames(queued)
    }

    /** `__init__`: not connected, identity 0, empty streams, callbacks
        cleared. */
    constructor ()
      ensures Valid() && identity == 0 && !ready
      ensures streamIn == [] && streamOut == [] && calls == []
      ensures callbacksIn == map[] && callbacksOut == map[]
      ensures defaultIn == Unexpected && defaultOut == Unexpected
      ensures queued == [] && delivered == []
    {
      identity := 0;
      ready := false;
      streamIn := [];
      streamOut := [];
      callbacksIn := map[];
      callbacksOut := map[];
      defaultIn := Unexpected;
      defaultOut := Unexpected;
      calls := [];
      queued := [];
      delivered := [];
    }

    function GetIdentity(): (r: int)
      reads this
      ensures r == identity
    {
      identity
    }

    /** `incoming`: the callback joins the end of its flavor's list; other
        flavors keep theirs. */
    method Incoming(flavor: Flavor, f: Callback)
      modifies this
      ensures callbacksIn == old(callbacksIn)[flavor := (if flavor in old(callbacksIn) then old(callbacksIn)[flavor] else []) + [f]]
      ensures callbacksOut == old(callbacksOut) && defaultIn == old(defaultIn) && defaultOut == old(defaultOut)
      ensures streamIn == old(streamIn) && streamOut == old(streamOut) && calls == old(calls)
      ensures identity == old(identity) && ready == old(ready)
      ensures queued == old(queued) && delivered == old(delivered)
    {
      if flavor in callbacksIn {
        callbacksIn := callbacksIn[flavor := callbacksIn[flavor] + [f]];
      } else {
        assert [] + [f] == [f];
        callbacksIn := callbacksIn[flavor := [f]];
      }
    }

    /** `outgoing`: allows the flavor to be queued, with a callback that
        does nothing unless one is given. */
    method Outgoing(flavor: Flavor, f: Callback := DoNothing)
      modifies this
      ensures callbacksOut == old(callbacksOut)[flavor := (if flavor in old(callbacksOut) then old(callbacksOut)[flavor] else []) + [f]]
      ensures callbacksIn == old(callbacksIn) && defaultIn == old(defaultIn) && defaultOut == old(defaultOut)
      ensures streamIn == old(streamIn) && streamOut == old(streamOut) && calls == old(calls)
      ensures identity == old(identity) && ready == old(ready)
      ensures queued == old(queued) && delivered == old(delivered)
    {
      if flavor in callbacksOut {
        callbacksOut := callbacksOut[flavor := callbacksOut[flavor] + [f]];
      } else {
        assert [] + [f] == [f];
        callbacksOut := callbacksOut[flavor := [f]];
      }
    }

    method DefaultIncoming(f: Callback)
      modifies this
      ensures defaultIn == Use(f)
      ensures callbacksIn == old(callbacksIn) && callbacksOut == old(callbacksOut) && defaultOut == old(defaultOut)
      ensures streamIn == old(streamIn) && streamOut == old(streamOut) && calls == old(calls)
      ensures identity == old(identity) && ready == old(ready)
      ensures queued == old(queued) && delivered == old(delivered)
    {
      defaultIn := Use(f);
    }

    method DefaultOutgoing(f: Callback)
      modifies this
      ensures defaultOut == Use(f)
      ensures callbacksIn == old(callbacksIn) && callbacksOut == old(callbacksOut) && defaultIn == old(defaultIn)
      ensures streamIn == old(streamIn) && streamOut == old(streamOut) && calls == old(calls)
      ensures identity == old(identity) && ready == old(ready)
      ensures queued == old(queued) && delivered == old(delivered)
    {
      defaultOut := Use(f);
    }

    /** `clear_callbacks`: no flavor is registered and both defaults
        raise. */
    method ClearCallbacks()
      modifies this
      ensures callbacksIn == map[] && callbacksOut == map[]
      ensures defaultIn == Unexpected && defaultOut == Unexpected
      ensures streamIn == old(streamIn) && streamOut == old(streamOut) && calls == old(calls)
      ensures identity == old(identity) && ready == old(ready)
      ensures queued == old(queued) && delivered == old(delivered)
    {
      callbacksIn := map[];
      callbacksOut := map[];
      defaultIn := Unexpected;
      defaultOut := Unexpected;
    }

    /** `setup`: may only be called before the connection is made;
        `connected` is whether `connect_ex` returned 0. */
    method Setup(connected: bool) returns (r: Outcome<NetError>)
      modifies this
      ensures r.Fail? <==> old(ready)
      ensures r.Fail? ==> r.error == AlreadyReady
      ensures ready == (old(ready) || connected)
      ensures identity == old(identity) && streamIn == old(streamIn) && streamOut == old(streamOut)
      ensures calls == old(calls) && queued == old(queued) && delivered == old(delivered)
      ensures callbacksIn == old(callbacksIn) && callbacksOut == old(callbacksOut)
      ensures defaultIn == old(defaultIn) && defaultOut == old(defaultOut)
    {
      if ready {
        return Fail(AlreadyReady);
      }
      if connected {
        ready := true;
      }
      r := Pass;
    }

    predicate Ready()
      reads this
    {
      ready
    }

    /** `attach`: a socket accepted by a host, with its identity. */
    method Attach(identity: int)
      modifies this
      ensures this.identity == identity && ready
      ensures streamIn == old(streamIn) && streamOut == old(streamOut) && calls == old(calls)
      ensures queued == old(queued) && delivered == old(delivered)
      ensures callbacksIn == old(callbacksIn) && callbacksOut == old(callbacksOut)
      ensures defaultIn == old(defaultIn) && defaultOut == old(defaultOut)
    {
      this.identity := identity;
      ready := true;
    }

    /** Runs the callbacks of one message, one after the other. */
    method RunCallbacks(callbacks: seq<Callback>, message: Bytes)
      modifies this
      ensures calls == old(calls) + Invocations(callbacks, message)
      ensures identity == old(identity) && ready == old(ready)
      ensures streamIn == old(streamIn) && streamOut == old(streamOut)
      ensures queued == old(queued) && delivered == old(delivered)
      ensures callbacksIn == old(callbacksIn) && callbacksOut == old(callbacksOut)
      ensures defaultIn == old(defaultIn) && defaultOut == old(defaultOut)
    {
      for i := 0 to |callbacks|
        invariant calls == old(calls) + Invocations(callbacks[..i], message)
        invariant identity == old(identity) && ready == old(ready)
        invariant streamIn == old(streamIn) && streamOut == old(streamOut)
        invariant queued == old(queued) && delivered == old(delivered)
        invariant callbacksIn == old(callbacksIn) && callbacksOut == old(callbacksOut)
        invariant defaultIn == old(defaultIn) && defaultOut == old(defaultOut)
      {
        assert Invocations(callbacks[..i + 1], message) == Invocations(callbacks[..i], message) + [Invoked(callbacks[i], message)];
        calls := calls + [Invoked(callbacks[i], message)];
      }
      assert callbacks[..|callbacks|] == callbacks;
    }

    /** Handles one message by the table and default handler given. */
    method Dispatch(table: map<Flavor, seq<Callback>>, fallback: Fallback, flavor: Flavor, message: Bytes)
      returns (r: Outcome<NetError>)
      modifies this
      ensures var h := Handle(table, fallback, flavor, message);
              (r.Fail? <==> h.Err?) && (r.Fail? ==> r.error == h.error && calls == old(calls)) &&
              (r.Pass? ==> calls == old(calls) + h.value)
      ensures identity == old(identity) && ready == old(ready)
      ensures streamIn == old(streamIn) && streamOut == old(streamOut)
      ensures queued == old(queued) && delivered == old(delivered)
      ensures callbacksIn == old(callbacksIn) && callbacksOut == old(callbacksOut)
      ensures defaultIn == old(defaultIn) && defaultOut == old(defaultOut)
    {
      if flavor in table {
        RunCallbacks(table[flavor], message);
        r := Pass;
      } else if fallback.Unexpected? {
        r := Fail(UnexpectedMessage(flavor));
      } else {
        calls := calls + [InvokedDefault(fallback.callback, flavor, message)];
        r := Pass;
      }
    }

    /** `queue`: the outgoing callbacks of the message's flavor run (an
        unregistered flavor hits the default, which by default raises),
        then the header and the packet are appended to `stream_out`.  A
        packet too long for the header is refused before any callback. */
    method Queue(message: Bytes) returns (r: Outcome<NetError>)
      requires Valid()
      modifies this
      ensures Valid()
      ensures var (flavor, data) := Pack(message);
              var h := Handle(old(callbacksOut), old(defaultOut), flavor, message);
              (r.Fail? <==> |data| >= MaxDataLength || h.Err?) &&
              (r.Fail? ==> r.error == (if |data| >= MaxDataLength then PacketTooLong else h.error)) &&
              (r.Fail? ==> streamOut == old(streamOut) && calls == old(calls) && queued == old(queued)) &&
              (r.Pass? ==> streamOut == old(streamOut) + Frame(data) && calls == old(calls) + h.value &&
                           queued == old(queued) + [data])
      ensures delivered == old(delivered) && streamIn == old(streamIn)
      ensures identity == old(identity) && ready == old(ready)
      ensures callbacksIn == old(callbacksIn) && callbacksOut == old(callbacksOut)
      ensures defaultIn == old(defaultIn) && defaultOut == old(defaultOut)
    {
      var (flavor, data) := Pack(message);
      if |data| >= MaxDataLength {
        return Fail(PacketTooLong);
      }
      HeaderRange();
      var header := BigEndian(|data|, HeaderLength);
      assert header + data == Frame(data);
      r := Dispatch(callbacksOut, defaultOut, flavor, message);
      if r.Fail? {
        return;
      }
      streamOut := streamOut + (header + data);
      FramesSnoc(queued, data);
      queued := queued + [data];
    }

    /** `deliver`: `send` takes the first `accepted` bytes of the stream,
        or all of it if it is shorter; a send that would block takes none.
        Exactly the bytes sent leave the stream. */
    method Deliver(accepted: nat) returns (sent: Bytes)
      requires Valid()
      modifies this
      ensures Valid()
      ensures old(streamOut) == sent + streamOut
      ensures |sent| == if accepted < |old(streamOut)| then accepted else |old(streamOut)|
      ensures delivered == old(delivered) + sent && queued == old(queued)
      ensures streamIn == old(streamIn) && calls == old(calls)
      ensures identity == old(identity) && ready == old(ready)
      ensures callbacksIn == old(callbacksIn) && callbacksOut == old(callbacksOut)
      ensures defaultIn == old(defaultIn) && defaultOut == old(defaultOut)
    {
      var n := if accepted < |streamOut| then accepted else |streamOut|;
      sent := streamOut[..n];
      assert streamOut == sent + streamOut[n..];
      streamOut := streamOut[n..];
      delivered := delivered + sent;
    }

    /** `receive`: the bytes `recv` produced join `stream_in`, then every
        complete frame is cut off and its message handed to the callbacks
        of its flavor.  An unregistered flavor with the default handler
        stops the loop with an error once its frame is cut off. */
    method Receive(incoming: Bytes) returns (r: Outcome<NetError>)
      modifies this
      ensures var p := Run(old(streamIn) + incoming, old(callbacksIn), old(defaultIn));
              calls == old(calls) + p.calls && streamIn == p.rest &&
              (r.Fail? <==> p.error.Some?) && (r.Fail? ==> r.error == p.error.value)
      ensures streamOut == old(streamOut) && queued == old(queued) && delivered == old(delivered)
      ensures identity == old(identity) && ready == old(ready)
      ensures callbacksIn == old(callbacksIn) && callbacksOut == old(callbacksOut)
      ensures defaultIn == old(defaultIn) && defaultOut == old(defaultOut)
    {
      streamIn := streamIn + incoming;
      ghost var start := streamIn;
      ghost var done: seq<Call> := [];
      var more := true;
      r := Pass;
      while more
        invariant calls == old(calls) + done
        invariant Resumes(Run(start, callbacksIn, defaultIn), done, streamIn, more, r, callbacksIn, defaultIn)
        invariant streamOut == old(streamOut) && queued == old(queued) && delivered == old(delivered)
        invariant identity == old(identity) && ready == old(ready)
        invariant callbacksIn == old(callbacksIn) && callbacksOut == old(callbacksOut)
        invariant defaultIn == old(defaultIn) && defaultOut == old(defaultOut)
        decreases more, |streamIn|
      {
        ghost var here;
        ghost var before := streamIn;
        more, r, here := ReceiveFrame();
        ResumesThen(Run(start, callbacksIn, defaultIn), done, before, here, streamIn, more, r, callbacksIn, defaultIn);
        AppendAssoc(old(calls), done, here);
        done := done + here;
      }
    }

    /** One turn of the parsing loop of `receive`: cuts off the next
        complete frame, if there is one, and handles its message. */
    method ReceiveFrame() returns (more: bool, r: Outcome<NetError>, ghost here: seq<Call>)
      modifies this
      ensures calls == old(calls) + here
      ensures more ==> |streamIn| < |old(streamIn)|
      ensures Resumes(Run(old(streamIn), callbacksIn, defaultIn), here, streamIn, more, r, callbacksIn, defaultIn)
      ensures streamOut == old(streamOut) && queued == old(queued) && delivered == old(delivered)
      ensures identity == old(identity) && ready == old(ready)
      ensures callbacksIn == old(callbacksIn) && callbacksOut == old(callbacksOut)
      ensures defaultIn == old(defaultIn) && defaultOut == old(defaultOut)
    {
      var streamLength := |streamIn|;
      if streamLength < HeaderLength {
        return false, Pass, [];
      }
      var dataLength := FromBigEndian(streamIn[..HeaderLength]);
      var packetLength := HeaderLength + dataLength;
      if streamLength < packetLength {
        return false, Pass, [];
      }
      var packet := streamIn[HeaderLength..packetLength];
      ghost var before := streamIn;
      streamIn := streamIn[packetLength..];
      assert NextFrame(before) == Some((packet, streamIn));
      var (flavor, message) := Unpack(packet);
      r := Dispatch(callbacksIn, defaultIn, flavor, message);
      if r.Fail? {
        return false, r, [];
      }
      here := Handle(callbacksIn, defaultIn, flavor, message).value;
      more := true;
    }

    /** `update`: `deliver`, then `receive`. */
    method Update(accepted: nat, incoming: Bytes) returns (sent: Bytes, r: Outcome<NetError>)
      requires Valid()
      modifies this
      ensures Valid()
      ensures old(streamOut) == sent + streamOut && delivered == old(delivered) + sent
      ensures var p := Run(old(streamIn) + incoming, old(callbacksIn), old(defaultIn));
              calls == old(calls) + p.calls && streamIn == p.rest && (r.Fail? <==> p.error.Some?)
    {
      sent := Deliver(accepted);
      r := Receive(incoming);
    }
  }

  /** Appending a packet appends its frame. */
  lemma FramesSnoc(ps: seq<Bytes>, data: Bytes)
    requires Sendable(ps) && |data| < MaxDataLength
    ensures Sendable(ps + [data]) && Frames(ps + [data]) == Frames(ps) + Frame(data)
  {
    assert (ps + [data])[..|ps|] == ps;
  }

  /** A `RawHost`: it hands out connection identities from a counter that
      starts at 1. */
  class Host {
    var nextId: int

    constructor ()
      ensures nextId == 1
    {
      nextId := 1;
    }

    /** `accept`: one new, attached client per pending connection, with
        the identities `next_id, next_id + 1, ...` in order. */
    method Accept(pending: nat) returns (clients: seq<Client>)
      modifies this
      ensures nextId == old(nextId) + pending && |clients| == pending
      ensures forall i :: 0 <= i < pending ==>
                fresh(clients[i]) && clients[i].Valid() && clients[i].identity == old(nextId) + i &&
                clients[i].ready && clients[i].streamIn == [] && clients[i].streamOut == []
    {
      clients := [];
      while |clients| < pending
        invariant |clients| <= pending && nextId == old(nextId) + |clients|
        invariant forall i :: 0 <= i < |clients| ==>
                    fresh(clients[i]) && clients[i].Valid() && clients[i].identity == old(nextId) + i &&
                    clients[i].ready && clients[i].streamIn == [] && clients[i].streamOut == []
      {
        var identity := nextId;
        nextId := nextId + 1;
        var client := new Client();
        client.Attach(identity);
        clients := clients + [client];
      }
    }
  }

  /** A fresh host numbers its connections 1, 2, 3, ... across calls of
      `accept`. */
  method AcceptInTurn(first: nat, second: nat) returns (a: seq<Client>, b: seq<Client>)
    ensures |a| == first && |b| == second
    ensures forall i :: 0 <= i < first ==> a[i].identity == i + 1
    ensures forall i :: 0 <= i < second ==> b[i].identity == first + i + 1
  {
    var host := new Host();
    a := host.Accept(first);
    b := host.Accept(second);
  }
}

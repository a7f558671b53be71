/** A connection's read buffer: a window over a growing block that shares its bytes with
    the buffers already handed out. */
module ReadStream {
  import opened Wrappers

  type Byte = x: int | 0 <= x < 256

  /** A place inside a block, or nil. */
  datatype Ptr = Ptr(block: array?<Byte>, off: nat)

  ghost predicate InBlock(p: Ptr, len: nat) {
    if p.block == null then len == 0 else p.off + len <= p.block.Length
  }

  ghost function Bytes(p: Ptr, len: nat): (s: seq<Byte>)
    requires InBlock(p, len)
    reads p.block
    ensures |s| == len
  {
    if p.block == null then [] else p.block[p.off..p.off + len]
  }

  /** Bytes written from `at` on do not run over the bytes at `src`. */
  ghost predicate Clear(src: Ptr, dst: array?<Byte>, at: nat, len: nat) {
    src.block == null || src.block != dst || src.off + len <= at || at + len <= src.off
  }

  method Memcpy(dst: array<Byte>, at: nat, src: Ptr, len: nat)
    requires InBlock(src, len) && Clear(src, dst, at, len) && at + len <= dst.Length
    modifies dst
    ensures dst[..] == old(dst[..at]) + old(Bytes(src, len)) + old(dst[at + len..])
  {
    ghost var before, s := dst[..], Bytes(src, len);
    hide Bytes;
    assert forall k :: 0 <= k < len ==> s[k] == src.block[src.off + k] by { if len > 0 { BytesSlice(src, len); } }
    var i := 0;
    while i < len
      invariant i <= len
      invariant forall k :: 0 <= k < i ==> dst[at + k] == s[k]
      invariant forall k :: 0 <= k < len ==> src.block[src.off + k] == s[k]
      invariant forall k :: 0 <= k < dst.Length && !(at <= k < at + i) ==> dst[k] == before[k]
    {
      dst[at + i] := src.block[src.off + i];
      i := i + 1;
    }
    Spliced(dst[..], before, at, s);
  }

  lemma Spliced(now: seq<Byte>, before: seq<Byte>, at: nat, s: seq<Byte>)
    requires |now| == |before| && at + |s| <= |now| && (forall k :: 0 <= k < |s| ==> now[at + k] == s[k])
    requires forall k :: 0 <= k < |now| && !(at <= k < at + |s|) ==> now[k] == before[k]
    ensures now == before[..at] + s + before[at + |s|..]
  {
    forall k | 0 <= k < |now| ensures now[k] == (before[..at] + s + before[at + |s|..])[k] {
      if at <= k < at + |s| { assert now[at + (k - at)] == s[k - at]; }
    }
  }

  class Buffer {
    var max: nat
    var buf: Ptr
    var len: nat
    var explen: nat
    var task: Option<nat>

    /** The window fits in its room, which is the rest of the block. */
    ghost predicate Valid()
      reads this
    {
      len <= max && if buf.block == null then max == 0 && buf.off == 0 else buf.off + max == buf.block.Length
    }

    ghost function Window(): (w: seq<Byte>)
      requires Valid()
      reads this, buf.block
      ensures |w| == len
    {
      Bytes(buf, len)
    }

    constructor (task: nat, explen: nat)
      ensures Valid() && len == 0 && buf == Ptr(null, 0) && this.task == Some(task) && this.explen == explen
    {
      max, buf, len, this.explen, this.task := 0, Ptr(null, 0), 0, explen, Some(task);
    }

    /** Makes room for more bytes, in a new block when there is too little; the old block stays as it is. */
    method PreWrite(len: nat) returns (p: Ptr)
      requires Valid()
      modifies this`max, this`buf
      ensures Valid() && Window() == old(Window()) && p == Ptr(buf.block, buf.off + this.len) && this.len + len <= max
      ensures buf == old(buf) || (buf.block != null && fresh(buf.block) && buf.off == 0)
    {
      if len + this.len > max {
        var newbuf := new Byte[len + this.len];
        if this.len > 0 { Memcpy(newbuf, 0, buf, this.len); }
        max := len + this.len;
        buf := Ptr(newbuf, 0);
      }
      return Ptr(buf.block, buf.off + this.len);
    }

    /** Appends bytes to the window, in a new block when there is too little room. */
    method Write(data: Ptr, len: nat)
      requires Valid() && InBlock(data, len)
        && (len + this.len <= max ==> Clear(data, buf.block, buf.off + this.len, len))
      modifies this`max, this`buf, this`len, if len + this.len > max then {} else {buf.block}
      ensures Valid() && Window() == old(Window()) + old(Bytes(data, len))
      ensures buf.block != null && buf.block != old(buf.block) ==> fresh(buf.block)
      ensures old(buf.block) != null && buf.block == old(buf.block) ==>
        buf.block[..buf.off] == old(buf.block[..buf.off])
    {
      hide Bytes;
      ghost var w, d := Window(), Bytes(data, len);
      if len + this.len > max {
        var newbuf := new Byte[len + this.len];
        ghost var tail := newbuf[this.len..];
        Memcpy(newbuf, 0, buf, this.len);
        Memcpy(newbuf, this.len, data, len);
        Appended(newbuf[..], w, tail, d);
        max := len + this.len;
        this.len := len + this.len;
        buf := Ptr(newbuf, 0);
        BytesSlice(buf, this.len);
        return;
      }
      if buf.block != null { Append(data, len); }
      this.len := len + this.len;
    }

    /** Copies bytes to the place after the window. */
    method Append(data: Ptr, len: nat)
      requires Valid() && buf.block != null && InBlock(data, len) && len + this.len <= max
      requires Clear(data, buf.block, buf.off + this.len, len)
      modifies buf.block
      ensures buf.block[..buf.off] == old(buf.block[..buf.off])
      ensures Bytes(buf, this.len + len) == old(Window()) + old(Bytes(data, len))
    {
      hide Bytes;
      ghost var was, d := buf.block[..], Bytes(data, len);
      BytesSlice(buf, this.len);
      Memcpy(buf.block, buf.off + this.len, data, len);
      FilledSlices(was, buf.block[..], buf.off, buf.off + this.len, d);
      BytesSlice(buf, this.len + len);
    }
  }

  // ----- the connection as a whole -----

  datatype Request = Request(task: nat, len: nat)

  datatype Reply = Reply(task: nat, bytes: seq<Byte>)

  /** What a reader can tell of a connection: the requests made, the replies given with the
      bytes their buffers hold now, the bytes waiting, and the bytes accepted so far. */
  datatype Stream = Stream(started: bool, asked: seq<Request>, given: seq<Reply>, window: seq<Byte>,
    waiting: Option<Request>, accepted: seq<Byte>)

  const FRESH := Stream(false, [], [], [], None, [])

  datatype Event = Read(task: nat, len: nat) | Alloc(size: nat) | Data(bytes: seq<Byte>)

  /** One read is outstanding at most, and data callbacks bring at least one byte. */
  ghost predicate Allowed(s: Stream, e: Event) {
    match e
    case Read(_, _) => s.waiting.None?
    case Alloc(_) => true
    case Data(bytes) => bytes != [] && s.started
  }

  ghost function Serve(s: Stream, r: Request): Stream
    requires r.len <= |s.window|
  {
    s.(given := s.given + [Reply(r.task, s.window[..r.len])], window := s.window[r.len..], waiting := None)
  }

  /** A read is served at once when enough bytes wait, except that the first read always
      waits. Bytes that find no reader waiting are dropped. */
  ghost function Next(s: Stream, e: Event): Stream {
    match e
    case Read(task, len) =>
      var r := Request(task, len);
      var s' := s.(asked := s.asked + [r], started := true);
      if s.started && |s.window| >= len then Serve(s', r) else s'.(waiting := Some(r))
    case Alloc(_) => s
    case Data(bytes) =>
      if s.waiting.None? then s
      else
        var s' := s.(window := s.window + bytes, accepted := s.accepted + bytes);
        if |s'.window| >= s.waiting.value.len then Serve(s', s.waiting.value) else s'
  }

  ghost function Joined(given: seq<Reply>): seq<Byte> {
    if given == [] then [] else Joined(given[..|given| - 1]) + given[|given| - 1].bytes
  }

  /** The accepted bytes are the delivered ones followed by the window; each request is
      answered in turn with exactly its length; a reader waits only for more than there is,
      except in a first read of nothing. */
  ghost predicate Conserved(s: Stream) {
    && Joined(s.given) + s.window == s.accepted
    && |s.asked| == |s.given| + (if s.waiting.Some? then 1 else 0)
    && (forall i :: 0 <= i < |s.given| ==> s.given[i].task == s.asked[i].task && |s.given[i].bytes| == s.asked[i].len)
    && (s.waiting.Some? ==> s.started && s.waiting.value == s.asked[|s.given|])
    && (s.waiting.Some? ==>
      |s.window| < s.waiting.value.len || (s.waiting.value.len == 0 && s.window == [] && s.given == []))
    && (!s.started ==> s.window == [] && s.asked == [])
  }

  ghost predicate IsRun(states: seq<Stream>, events: seq<Event>) {
    && |states| == |events| + 1 && states[0] == FRESH
    && forall i {:trigger events[i]} :: 0 <= i < |events| ==>
      Allowed(states[i], events[i]) && states[i + 1] == Next(states[i], events[i])
  }

  lemma Served(s: Stream, r: Request)
    requires r.len <= |s.window|
    ensures Joined(Serve(s, r).given) + Serve(s, r).window == Joined(s.given) + s.window
  {
    var g := Serve(s, r).given;
    assert g[..|g| - 1] == s.given;
    assert s.window == s.window[..r.len] + s.window[r.len..];
  }

  lemma NextConserves(s: Stream, e: Event)
    requires Conserved(s) && Allowed(s, e)
    ensures Conserved(Next(s, e))
  {
    match e
    case Read(task, len) =>
      if s.started && |s.window| >= len {
        Served(s.(asked := s.asked + [Request(task, len)], started := true), Request(task, len));
      }
    case Alloc(_) =>
    case Data(bytes) =>
      if s.waiting.Some? {
        var s' := s.(window := s.window + bytes, accepted := s.accepted + bytes);
        assert Joined(s'.given) + s'.window == s'.accepted;
        if |s'.window| >= s.waiting.value.len { Served(s', s.waiting.value); }
      }
  }

  /** The requests of a run. */
  ghost function Requests(events: seq<Event>): seq<Request> {
    if events == [] then []
    else
      var n := |events| - 1;
      Requests(events[..n]) + match events[n] case Read(task, len) => [Request(task, len)] case _ => []
  }

  /** The bytes of the data callbacks that found a reader waiting. */
  ghost function AwaitedBytes(states: seq<Stream>, events: seq<Event>): seq<Byte>
    requires |states| == |events| + 1
  {
    if events == [] then []
    else
      var n := |events| - 1;
      AwaitedBytes(states[..n + 1], events[..n])
      + match events[n] case Data(bytes) => if states[n].waiting.Some? then bytes else [] case _ => []
  }

  /** The delivered bytes and the window are the bytes of the callbacks that found a reader
      waiting, and the requests of the run are answered in turn. */
  lemma {:induction false} RunConserves(states: seq<Stream>, events: seq<Event>)
    requires IsRun(states, events)
    ensures Conserved(states[|events|])
    ensures states[|events|].asked == Requests(events)
    ensures Joined(states[|events|].given) + states[|events|].window == AwaitedBytes(states, events)
  {
    var n := |events|;
    if n > 0 {
      RunConserves(states[..n], events[..n - 1]);
      assert Allowed(states[n - 1], events[n - 1]);
      NextConserves(states[n - 1], events[n - 1]);
      AcceptedGrows(states[n - 1], events[n - 1]);
    }
  }

  lemma AcceptedGrows(s: Stream, e: Event)
    ensures Next(s, e).asked == s.asked + match e case Read(task, len) => [Request(task, len)] case _ => []
    ensures Next(s, e).accepted
      == s.accepted + match e case Data(bytes) => if s.waiting.Some? then bytes else [] case _ => []
  {
  }

  /** The bytes the data callbacks of a run brought. */
  ghost function Received(events: seq<Event>): seq<Byte> {
    if events == [] then []
    else
      var e := events[|events| - 1];
      Received(events[..|events| - 1]) + if e.Data? then e.bytes else []
  }

  /** Every data callback of the run found a reader waiting. */
  ghost predicate AlwaysAwaited(states: seq<Stream>, events: seq<Event>)
    requires |states| == |events| + 1
  {
    forall i :: 0 <= i < |events| && events[i].Data? ==> states[i].waiting.Some?
  }

  /** The bytes received have all been accepted if and only if every data callback found a
      reader waiting; otherwise there are fewer. */
  lemma {:induction false} AllAcceptedExactlyWhen(states: seq<Stream>, events: seq<Event>)
    requires IsRun(states, events)
    ensures states[|events|].accepted == Received(events) <==> AlwaysAwaited(states, events)
    ensures |states[|events|].accepted| <= |Received(events)|
  {
    var n := |events|;
    if n > 0 {
      var s, e, before := states[n - 1], events[n - 1], Received(events[..n - 1]);
      AllAcceptedExactlyWhen(states[..n], events[..n - 1]);
      assert Allowed(s, e);
      assert AlwaysAwaited(states, events) <==>
        AlwaysAwaited(states[..n], events[..n - 1]) && (e.Data? ==> s.waiting.Some?);
      if e.Data? && s.waiting.Some? {
        assert states[n].accepted == s.accepted + e.bytes;
        assert s.accepted + e.bytes == before + e.bytes ==> s.accepted == before by {
          SameStart(s.accepted, before, e.bytes);
        }
      }
    }
  }

  lemma SameStart(a: seq<Byte>, b: seq<Byte>, c: seq<Byte>)
    ensures a + c == b + c ==> a == b
  {
    if a + c == b + c { assert a == (a + c)[..|a|] && b == (b + c)[..|b|]; }
  }

  /** A buffer handed to a reader. */
  datatype Delivery = Delivery(task: nat, data: Ptr, len: nat)

  /** What the blocks hold. */
  type Memory = map<array<Byte>, seq<Byte>>

  ghost function Contents(blocks: set<array<Byte>>): (m: Memory)
    reads blocks
    ensures m.Keys == blocks && forall b :: b in blocks ==> m[b] == b[..]
  {
    map b | b in blocks :: b[..]
  }

  ghost predicate InMemory(d: Delivery, m: Memory) {
    if d.data.block == null then d.len == 0 else d.data.block in m && d.data.off + d.len <= |m[d.data.block]|
  }

  ghost function Shown(d: Delivery, m: Memory): seq<Byte>
    requires InMemory(d, m)
  {
    if d.data.block == null then [] else m[d.data.block][d.data.off..d.data.off + d.len]
  }

  ghost predicate Held(ds: seq<Delivery>, m: Memory) { forall d :: d in ds ==> InMemory(d, m) }

  /** The replies as the readers see them. */
  ghost function Replies(ds: seq<Delivery>, m: Memory): (r: seq<Reply>)
    requires Held(ds, m)
    ensures |r| == |ds|
  {
    if ds == [] then []
    else
      var d := ds[|ds| - 1];
      Replies(ds[..|ds| - 1], m) + [Reply(d.task, Shown(d, m))]
  }

  /** The buffers handed out of the window's block lie before the window. */
  ghost predicate Before(ds: seq<Delivery>, p: Ptr) {
    forall d :: d in ds && d.data.block != null && d.data.block == p.block ==> d.data.off + d.len <= p.off
  }

  lemma NothingHeld(p: Ptr, m: Memory)
    ensures Before([], p) && Held([], m) && Replies([], m) == []
  {
  }

  lemma OneMore(ds: seq<Delivery>, d: Delivery, m: Memory)
    requires Held(ds, m) && Before(ds, d.data)
    requires InMemory(d, m) && (d.data.block != null ==> m[d.data.block] == d.data.block[..])
    ensures Held(ds + [d], m) && Before(ds + [d], Ptr(d.data.block, d.data.off + d.len)) && InBlock(d.data, d.len)
    ensures Replies(ds + [d], m) == Replies(ds, m) + [Reply(d.task, Bytes(d.data, d.len))]
  {
    assert (ds + [d])[..|ds|] == ds;
    if d.data.block != null {
      assert d.data.block[..][d.data.off..d.data.off + d.len] == d.data.block[d.data.off..d.data.off + d.len];
    }
  }

  /** Between the memories only what lies behind the place may differ, and blocks may be added. */
  ghost predicate KeptBefore(m: Memory, m': Memory, p: Ptr) {
    && (forall b :: b in m ==> b in m' && |m'[b]| == |m[b]| && (b != p.block ==> m'[b] == m[b]))
    && (p.block != null && p.block in m ==> p.off <= |m[p.block]| && m'[p.block][..p.off] == m[p.block][..p.off])
  }

  lemma MoreBlocks(blocks: set<array<Byte>>, more: set<array<Byte>>, p: Ptr)
    requires blocks <= more && (p.block != null && p.block in blocks ==> p.off <= p.block.Length)
    ensures KeptBefore(Contents(blocks), Contents(more), p)
  {
  }

  lemma ShownSame(d: Delivery, m: Memory, m': Memory, p: Ptr)
    requires InMemory(d, m) && Before([d], p) && KeptBefore(m, m', p)
    ensures InMemory(d, m') && Shown(d, m') == Shown(d, m)
  {
    assert d in [d];
    var b, i, j := d.data.block, d.data.off, d.data.off + d.len;
    if b != null && b == p.block {
      assert m'[b][i..j] == m'[b][..p.off][i..j] && m[b][i..j] == m[b][..p.off][i..j];
    }
  }

  /** A further block, or bytes written after the window, change none of the buffers handed out. */
  lemma {:induction false} StillHeld(ds: seq<Delivery>, m: Memory, m': Memory, p: Ptr)
    requires Held(ds, m) && Before(ds, p) && KeptBefore(m, m', p)
    ensures Held(ds, m') && Replies(ds, m') == Replies(ds, m)
  {
    if ds != [] {
      var d, init := ds[|ds| - 1], ds[..|ds| - 1];
      assert d in ds && forall e :: e in init ==> e in ds;
      ShownSame(d, m, m', p);
      StillHeld(init, m, m', p);
      hide KeptBefore, InMemory, Shown, Before;
      assert ds == init + [d];
    }
  }

  lemma BytesSplit(p: Ptr, len: nat, total: nat)
    requires InBlock(p, total) && len <= total
    ensures InBlock(p, len) && Bytes(p, len) == Bytes(p, total)[..len]
    ensures p.block != null ==>
      InBlock(Ptr(p.block, p.off + len), total - len)
        && Bytes(Ptr(p.block, p.off + len), total - len) == Bytes(p, total)[len..]
  {
  }

  class Tcp {
    var data: Buffer?
    /** The space offered to the loop by the last allocation callback. */
    var base: Ptr
    var room: nat
    var delivered: seq<Delivery>
    ghost var asked: seq<Request>
    ghost var accepted: seq<Byte>
    ghost var blocks: set<array<Byte>>

    /** Every buffer handed out lies before the window, or in an older block; the space
        offered lies after the window. */
    ghost predicate Valid()
      reads this, data, blocks
    {
      && (data == null ==> delivered == [] && room == 0 && asked == [] && accepted == [])
      && (data != null ==> data.Valid() && (data.buf.block != null ==> data.buf.block in blocks))
      && (data != null && data.task.Some? ==>
        asked != [] && asked[|asked| - 1] == Request(data.task.value, data.explen))
      && Held(delivered, Contents(blocks))
      && (data != null ==> Before(delivered, data.buf))
      && (room > 0 ==>
        base == Ptr(data.buf.block, data.buf.off + data.len) && base.block != null
        && data.len + room <= data.max)
    }

    ghost function State(): Stream
      requires Valid()
      reads this, data, blocks
    {
      if data == null then FRESH
      else
        var waiting := if data.task.Some? then Some(Request(data.task.value, data.explen)) else None;
        Stream(true, asked, Replies(delivered, Contents(blocks)), data.Window(), waiting, accepted)
    }

    constructor ()
      ensures Valid() && State() == FRESH
    {
      data, base, room, delivered, asked, accepted, blocks := null, Ptr(null, 0), 0, [], [], [], {};
    }

    /** Gives the first bytes of the window to a reader. */
    method HandOver(task: nat, len: nat)
      requires Valid() && data != null && len <= data.len
      modifies this`delivered, data
      ensures Valid() && data == old(data)
      ensures Replies(delivered, Contents(blocks)) == old(Replies(delivered, Contents(blocks)))
        + [Reply(task, old(data.Window())[..len])]
      ensures data.Window() == old(data.Window())[len..] && data.task == old(data.task)
        && data.explen == old(data.explen)
    {
      hide Replies, Held, Before, Bytes;
      BytesSplit(data.buf, len, data.len);
      OneMore(delivered, Delivery(task, data.buf, len), Contents(blocks));
      data.len := data.len - len;
      data.max := data.max - len;
      delivered := delivered + [Delivery(task, data.buf, len)];
      data.buf := Ptr(data.buf.block, data.buf.off + len);
    }

    /** The job of ReadBufAsync. */
    method ReadBuf(task: nat, len: nat)
      requires Valid() && Allowed(State(), Read(task, len))
      modifies this, data
      ensures Valid() && State() == Next(old(State()), Read(task, len))
    {
      hide Replies, Held, Before, Bytes;
      asked := asked + [Request(task, len)];
      if data != null {
        if data.len >= len {
          HandOver(task, len);
          return;
        }
        data.task, data.explen := Some(task), len;
        return;
      }
      data := new Buffer(task, len);
      NothingHeld(data.buf, Contents(blocks));
    }

    /** tcpAllocCB: offers the loop room after the window. */
    method AllocCB(size: nat)
      requires Valid()
      modifies this`base, this`room, this`blocks, data
      ensures Valid() && State() == Next(old(State()), Alloc(size))
      ensures data == null ==> room == 0
      ensures data != null ==>
        room == size && base == Ptr(data.buf.block, data.buf.off + data.len)
        && data.len + size <= data.max && (data.buf == old(data.buf) || fresh(data.buf.block))
    {
      hide Replies, Held, Before, Bytes, Contents;
      room := 0;
      if data == null { return; }
      var p := Offer(size);
      base, room := p, size;
    }

    /** The room found after the window, and the block it is in taken into account. */
    method Offer(size: nat) returns (p: Ptr)
      requires Valid() && data != null && room == 0
      modifies this`blocks, data`max, data`buf
      ensures Valid() && State() == old(State()) && p == Ptr(data.buf.block, data.buf.off + data.len)
        && data.len + size <= data.max
      ensures data.buf == old(data.buf) || fresh(data.buf.block)
    {
      hide Replies, Held, Before, Bytes, Contents;
      ghost var was, m := data.buf, Contents(blocks);
      p := data.PreWrite(size);
      assert Contents(blocks) == m;
      if data.buf.block != null { blocks := blocks + {data.buf.block}; }
      WithMoreBlocks(delivered, old(blocks), blocks, was, data.buf);
    }

    /** The loop puts received bytes into the space it was offered. */
    method Fill(bytes: seq<Byte>)
      requires Valid() && bytes != [] && |bytes| <= room
      modifies base.block
      ensures Valid() && State() == old(State()) && base == old(base) && data == old(data) && room == old(room)
        && blocks == old(blocks)
      ensures Bytes(base, |bytes|) == bytes
    {
      hide Held, Before, Replies, Bytes;
      ghost var m, was := Contents(blocks), base.block[..];
      BytesSlice(data.buf, data.len);
      Put(base.block, base.off, bytes);
      FilledSlices(was, base.block[..], data.buf.off, base.off, bytes);
      StillHeld(delivered, m, Contents(blocks), data.buf);
      BytesSlice(data.buf, data.len);
      BytesSlice(base, |bytes|);
    }

    static method Put(block: array<Byte>, at: nat, bytes: seq<Byte>)
      requires at + |bytes| <= block.Length
      modifies block
      ensures block[..] == old(block[..at]) + bytes + old(block[at + |bytes|..])
    {
      ghost var before := block[..];
      var i := 0;
      while i < |bytes|
        invariant i <= |bytes| && block[..] == before[..at] + bytes[..i] + before[at + i..]
      {
        block[at + i] := bytes[i];
        i := i + 1;
      }
    }

    /** The bytes received join the window. */
    method Extend(nread: nat)
      requires Valid() && 0 < nread <= room && data != null
      modifies this`accepted, this`room, data`len
      ensures Valid() && data.task == old(data.task) && data.explen == old(data.explen) && room == 0
      ensures var s, bytes := old(State()), old(Bytes(base, nread));
        State() == s.(window := s.window + bytes, accepted := s.accepted + bytes)
    {
      hide Replies, Held, Before, Bytes;
      Extends(data.buf, data.len, nread);
      room := 0;
      data.len := data.len + nread;
      accepted := accepted + Bytes(base, nread);
    }

    /** The read callback, for a positive length; the space offered is used up. */
    method ReadCB(nread: nat)
      requires Valid() && 0 < nread <= room && data != null
      modifies this, data
      ensures Valid() && State() == Next(old(State()), Data(old(Bytes(base, nread)))) && room == 0
    {
      hide Replies, Held, Before, Bytes;
      if data == null || data.task.None? {
        room := 0;
        return;
      }
      Extend(nread);
      var ag1 := data.task;
      if ag1.Some? && data.len >= data.explen {
        HandOver(ag1.value, data.explen);
        data.task := None;
      }
    }

    /** A data callback: the bytes join the window, or are dropped when no reader waits. */
    method DataArrives(bytes: seq<Byte>)
      requires Valid() && Allowed(State(), Data(bytes)) && |bytes| <= room
      modifies this, data, base.block
      ensures Valid() && State() == Next(old(State()), Data(bytes)) && room == 0
    {
      hide Next, State;
      Fill(bytes);
      ReadCB(|bytes|);
    }

    /** What the loop does with received bytes: it asks for space and reports as many as fit. */
    method LoopReads(size: nat, bytes: seq<Byte>)
      requires Valid() && Allowed(State(), Data(bytes)) && |bytes| <= size
      modifies this, data, if data == null then {} else {data.buf.block}
      ensures Valid() && State() == Next(old(State()), Data(bytes)) && room == 0
    {
      hide Held, Before, Replies, Bytes, Contents, Serve;
      AllocCB(size);
      DataArrives(bytes);
    }
  }

  lemma Extends(p: Ptr, len: nat, more: nat)
    requires InBlock(p, len + more) && p.block != null
    ensures Bytes(p, len + more) == Bytes(p, len) + Bytes(Ptr(p.block, p.off + len), more)
  {
  }

  lemma Appended(whole: seq<Byte>, w: seq<Byte>, tail: seq<Byte>, d: seq<Byte>)
    requires |d| <= |tail| && whole == (w + tail)[..|w|] + d + (w + tail)[|w| + |d|..]
    ensures whole[..|w| + |d|] == w + d
  {
  }

  lemma FilledSlices(was: seq<Byte>, now: seq<Byte>, off: nat, at: nat, bytes: seq<Byte>)
    requires off <= at && at + |bytes| <= |was| && now == was[..at] + bytes + was[at + |bytes|..]
    ensures |now| == |was| && now[..off] == was[..off] && now[off..at] == was[off..at] && now[at..at + |bytes|] == bytes
    ensures now[off..at + |bytes|] == was[off..at] + bytes
  {
  }

  lemma BytesSlice(p: Ptr, len: nat)
    requires InBlock(p, len) && p.block != null
    ensures Bytes(p, len) == p.block[..][p.off..p.off + len]
  {
  }

  lemma WithMoreBlocks(ds: seq<Delivery>, blocks: set<array<Byte>>, more: set<array<Byte>>, p: Ptr, p': Ptr)
    requires Held(ds, Contents(blocks)) && Before(ds, p) && blocks <= more
    requires p.block != null && p.block in blocks ==> p.off <= p.block.Length
    requires p' == p || (p'.block != null && p'.block !in blocks)
    ensures Held(ds, Contents(more)) && Before(ds, p') && Replies(ds, Contents(more)) == Replies(ds, Contents(blocks))
  {
    hide Held, Before, Replies;
    MoreBlocks(blocks, more, p);
    StillHeld(ds, Contents(blocks), Contents(more), p);
    BeforeNew(ds, Contents(blocks), p, p');
  }

  lemma BeforeNew(ds: seq<Delivery>, m: Memory, p: Ptr, p': Ptr)
    requires Held(ds, m) && Before(ds, p) && (p' == p || (p'.block != null && p'.block !in m))
    ensures Before(ds, p')
  {
  }
}

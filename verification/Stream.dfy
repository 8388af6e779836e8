// Length-delimited messages on a byte stream: a base-128 varint of the payload's length,
// then the payload (plugin/consensus/pos33/io.go:29-95; the varint is that of the Protocol
// Buffers encoding, written and read by Go's encoding/binary).
module Stream {
  type Byte = b: int | 0 <= b < 256

  const MAX_VARINT_LEN := 10
  const TWO_TO_63 := 0x8000_0000_0000_0000
  const TWO_TO_64 := 0x1_0000_0000_0000_0000

  // Ended stands for io.EOF and io.ErrUnexpectedEOF.
  datatype Error = Ended | Overflow | ShortBuffer

  datatype Result<T> = Ok(value: T) | Err(error: Error)

  // ---- Varints ----

  function Varint(x: nat): (r: seq<Byte>)
    ensures |r| >= 1
  {
    if x < 0x80 then [x] else [x % 0x80 + 0x80] + Varint(x / 0x80)
  }

  lemma VarintIs(x: nat)
    ensures Varint(x) == if x < 0x80 then [x] else [x % 0x80 + 0x80] + Varint(x / 0x80)
  {
  }

  function Weighed(bs: seq<Byte>): nat {
    if bs == [] then 0 else bs[0] % 0x80 + 0x80 * Weighed(bs[1..])
  }

  // The low seven bits of the bytes are the digits of the number in base 128, smallest
  // first; every byte but the last has the high bit, and none is spent on a leading zero.
  lemma {:induction false} VarintMeans(x: nat)
    ensures var bs := Varint(x);
      && Weighed(bs) == x
      && (forall i | 0 <= i < |bs| :: bs[i] >= 0x80 <==> i < |bs| - 1)
      && (|bs| > 1 ==> bs[|bs| - 1] != 0)
  {
    if x >= 0x80 {
      VarintMeans(x / 0x80);
      assert Varint(x)[1..] == Varint(x / 0x80);
    }
  }

  // What reading a varint from bs finds, i bytes into it, and how many bytes it takes.
  datatype Got = Got(result: Result<nat>, used: nat)

  function GetVarint(bs: seq<Byte>, i: nat): (g: Got)
    requires i <= MAX_VARINT_LEN
    ensures g.used <= |bs|
    decreases MAX_VARINT_LEN - i
  {
    if i == MAX_VARINT_LEN then Got(Err(Overflow), 0)
    else if bs == [] then Got(Err(Ended), 0)
    else if bs[0] < 0x80 then Got(if i == MAX_VARINT_LEN - 1 && bs[0] > 1 then Err(Overflow) else Ok(bs[0]), 1)
    else
      var g := GetVarint(bs[1..], i + 1);
      Got(if g.result.Ok? then Ok(bs[0] - 0x80 + 0x80 * g.result.value) else g.result, g.used + 1)
  }

  // The values that still fit in 64 bits, i varint bytes in.
  function Room(i: nat): nat
    requires i < MAX_VARINT_LEN
    decreases MAX_VARINT_LEN - i
  {
    if i == MAX_VARINT_LEN - 1 then 2 else 0x80 * Room(i + 1)
  }

  lemma RoomAtStart()
    ensures Room(0) == TWO_TO_64
  {
    assert Room(5) == 0x80 * (0x80 * (0x80 * (0x80 * Room(9))));
    assert Room(0) == 0x80 * (0x80 * (0x80 * (0x80 * (0x80 * Room(5)))));
  }

  lemma {:induction false} GetWritten(x: nat, i: nat, tail: seq<Byte>)
    requires i < MAX_VARINT_LEN && x < Room(i)
    ensures |Varint(x)| <= MAX_VARINT_LEN - i
    ensures GetVarint(Varint(x) + tail, i) == Got(Ok(x), |Varint(x)|)
    decreases MAX_VARINT_LEN - i
  {
    VarintIs(x);
    if x >= 0x80 {
      assert x / 0x80 < Room(i + 1);
      GetWritten(x / 0x80, i + 1, tail);
      hide Varint, Room;
      assert (Varint(x) + tail)[1..] == Varint(x / 0x80) + tail;
      assert (Varint(x) + tail)[0] == x % 0x80 + 0x80;
    } else {
      hide Varint;
      assert (Varint(x) + tail)[0] == x;
    }
  }

  // Every 64-bit length reads back as itself, whatever follows it.
  lemma VarintRoundTrip(x: nat, tail: seq<Byte>)
    requires x < TWO_TO_64
    ensures |Varint(x)| <= MAX_VARINT_LEN
    ensures GetVarint(Varint(x) + tail, 0) == Got(Ok(x), |Varint(x)|)
  {
    RoomAtStart();
    GetWritten(x, 0, tail);
  }

  // ---- Frames ----

  function Frame(data: seq<Byte>): seq<Byte> {
    Varint(|data|) + data
  }

  function Frames(ms: seq<seq<Byte>>): seq<Byte> {
    if ms == [] then [] else Frame(ms[0]) + Frames(ms[1..])
  }

  // What one ReadMsg finds, and what it leaves of the stream.
  datatype Read = Read(result: Result<seq<Byte>>, rest: seq<Byte>)

  function ReadOne(bs: seq<Byte>, maxSize: int): Read {
    var g := GetVarint(bs, 0);
    var rest := bs[g.used..];
    if g.result.Err? then Read(Err(g.result.error), rest)
    else
      var n := g.result.value;
      if n >= TWO_TO_63 || n > maxSize then Read(Err(ShortBuffer), rest)
      else if |rest| < n then Read(Err(Ended), [])
      else Read(Ok(rest[..n]), rest[n..])
  }

  function ReadMany(bs: seq<Byte>, k: nat, maxSize: int): (seq<Result<seq<Byte>>>, seq<Byte>)
    decreases k
  {
    if k == 0 then ([], bs) else
      var one := ReadOne(bs, maxSize);
      var more := ReadMany(one.rest, k - 1, maxSize);
      ([one.result] + more.0, more.1)
  }

  function Oks(ms: seq<seq<Byte>>): seq<Result<seq<Byte>>> {
    seq(|ms|, i requires 0 <= i < |ms| => Ok(ms[i]))
  }

  // One frame is read back exactly when it is within the reader's limit; otherwise the
  // reader stops after the length, with the payload still ahead.
  lemma FrameReadIff(m: seq<Byte>, tail: seq<Byte>, maxSize: int)
    requires |m| < TWO_TO_63
    ensures ReadOne(Frame(m) + tail, maxSize) == if |m| <= maxSize then Read(Ok(m), tail) else Read(Err(ShortBuffer), m + tail)
  {
    VarintRoundTrip(|m|, m + tail);
    var bs := Frame(m) + tail;
    assert bs == Varint(|m|) + (m + tail);
    assert bs[|Varint(|m|)|..] == m + tail;
    hide GetVarint, Varint;
    assert (m + tail)[..|m|] == m && (m + tail)[|m|..] == tail;
  }

  // A prefix of a frame, cut anywhere, is never read as a message.
  lemma CutFrame(m: seq<Byte>, k: nat, maxSize: int)
    requires |m| < TWO_TO_63 && k < |Frame(m)|
    ensures ReadOne(Frame(m)[..k], maxSize).result.Err?
  {
    VarintRoundTrip(|m|, []);
    var v := Varint(|m|);
    assert v + [] == v;
    if k < |v| {
      assert Frame(m)[..k] == v[..k];
      RoomAtStart();
      CutVarint(|m|, 0, k);
    } else {
      VarintRoundTrip(|m|, m[..k - |v|]);
      assert Frame(m)[..k] == v + m[..k - |v|];
    }
  }

  lemma {:induction false} CutVarint(x: nat, i: nat, k: nat)
    requires i < MAX_VARINT_LEN && x < Room(i) && k < |Varint(x)|
    ensures GetVarint(Varint(x)[..k], i).result == Err(Ended)
    decreases MAX_VARINT_LEN - i
  {
    if x >= 0x80 && k > 0 {
      assert x / 0x80 < Room(i + 1);
      assert Varint(x)[..k][1..] == Varint(x / 0x80)[..k - 1];
      assert i + 1 < MAX_VARINT_LEN;
      CutVarint(x / 0x80, i + 1, k - 1);
    }
  }

  lemma OksNext(ms: seq<seq<Byte>>)
    ensures Oks(ms) == if ms == [] then [] else [Ok(ms[0])] + Oks(ms[1..])
  {
  }

  // Any sequence of messages within the limit is read back as it was written, with
  // nothing left over.
  lemma {:induction false} StreamRoundTrip(ms: seq<seq<Byte>>, tail: seq<Byte>, maxSize: int)
    requires forall m | m in ms :: |m| <= maxSize && |m| < TWO_TO_63
    ensures ReadMany(Frames(ms) + tail, |ms|, maxSize) == (Oks(ms), tail)
  {
    hide ReadOne, Frame, Oks;
    OksNext(ms);
    if ms == [] {
      assert Frames(ms) + tail == tail;
    } else {
      var bs := Frames(ms[1..]) + tail;
      assert Frames(ms) + tail == Frame(ms[0]) + bs;
      FrameReadIff(ms[0], bs, maxSize);
      StreamRoundTrip(ms[1..], tail, maxSize);
    }
  }

  // So the stream determines its messages, and how many there are.
  lemma {:induction false} FramesInjective(ms: seq<seq<Byte>>, ns: seq<seq<Byte>>)
    requires Frames(ms) == Frames(ns)
    requires forall m | m in ms + ns :: |m| < TWO_TO_63
    ensures ms == ns
  {
    hide ReadOne;
    if ms != [] && ns != [] {
      FrameReadIff(ms[0], Frames(ms[1..]), TWO_TO_63);
      FrameReadIff(ns[0], Frames(ns[1..]), TWO_TO_63);
      FramesInjective(ms[1..], ns[1..]);
      assert ms == [ms[0]] + ms[1..] && ns == [ns[0]] + ns[1..];
    }
  }

  // ---- The writer ----

  // The underlying writer takes bytes until it is full; nothing else can make it fail.
  class Sink {
    const capacity: nat
    var written: seq<Byte>

    constructor (capacity: nat)
      ensures written == [] && this.capacity == capacity
    {
      this.capacity := capacity;
      written := [];
    }

    predicate Fits(n: nat)
      reads this
    {
      |written| + n <= capacity
    }

    method Write(bs: seq<Byte>) returns (ok: bool)
      modifies this`written
      ensures ok == old(Fits(|bs|))
      ensures old(written) <= written <= old(written) + bs
      ensures ok ==> written == old(written) + bs
    {
      ok := Fits(|bs|);
      if ok { written := written + bs; }
    }
  }

  // binary.PutUvarint, in place
  method PutUvarint(buf: array<Byte>, value: nat) returns (n: nat)
    requires value < TWO_TO_64 && buf.Length >= MAX_VARINT_LEN
    modifies buf
    ensures n <= buf.Length && buf[..n] == Varint(value)
  {
    hide Varint, GetVarint;
    VarintRoundTrip(value, []);
    var x, i := value, 0;
    while x >= 0x80
      invariant i + |Varint(x)| <= MAX_VARINT_LEN
      invariant buf[..i] + Varint(x) == Varint(value)
      decreases x
    {
      ghost var done := buf[..i];
      VarintIs(x);
      buf[i] := x % 0x80 + 0x80;
      assert buf[..i + 1] == done + [x % 0x80 + 0x80];
      x := x / 0x80;
      i := i + 1;
    }
    ghost var done := buf[..i];
    VarintIs(x);
    buf[i] := x;
    n := i + 1;
    assert buf[..n] == done + [x];
  }

  class VarintWriter {
    const w: Sink
    const lenBuf: array<Byte>

    constructor (w: Sink)
      ensures this.w == w && fresh(lenBuf) && lenBuf.Length == MAX_VARINT_LEN
    {
      this.w := w;
      lenBuf := new Byte[MAX_VARINT_LEN];
    }

    // WriteMsg, from the marshalled message on
    method WriteMsg(data: seq<Byte>) returns (ok: bool)
      requires lenBuf.Length == MAX_VARINT_LEN && |data| < TWO_TO_63
      modifies w`written, lenBuf
      ensures ok == old(w.Fits(|Frame(data)|))
      ensures old(w.written) <= w.written <= old(w.written) + Frame(data)
      ensures ok ==> w.written == old(w.written) + Frame(data)
    {
      var n := PutUvarint(lenBuf, |data|);
      ok := w.Write(lenBuf[..n]);
      if !ok { return; }
      assert w.written + data == old(w.written) + Frame(data);
      ok := w.Write(data);
    }
  }

  // ---- The reader ----

  class Source {
    var rest: seq<Byte>

    constructor (bs: seq<Byte>)
      ensures rest == bs
    {
      rest := bs;
    }

    method ReadByte() returns (b: Result<Byte>)
      modifies this
      ensures if old(rest) == [] then b == Err(Ended) && rest == [] else b == Ok(old(rest)[0]) && rest == old(rest)[1..]
    {
      if rest == [] { return Err(Ended); }
      b := Ok(rest[0]);
      rest := rest[1..];
    }

    // io.ReadFull into the first n bytes of a buffer
    method ReadFull(buf: array<Byte>, n: nat) returns (ok: bool)
      requires n <= buf.Length
      modifies this, buf
      ensures ok == (n <= |old(rest)|)
      ensures ok ==> buf[..n] == old(rest)[..n] && rest == old(rest)[n..]
      ensures !ok ==> rest == []
    {
      var i := 0;
      while i < n && rest != []
        invariant i <= n && i <= |old(rest)| && rest == old(rest)[i..]
        invariant buf[..i] == old(rest)[..i]
      {
        ghost var done := buf[..i];
        buf[i] := rest[0];
        assert buf[..i + 1] == done + [rest[0]];
        rest := rest[1..];
        i := i + 1;
      }
      ok := i == n;
    }
  }

  // What is found after i bytes worth value, the next worth scale each.
  function Scaled(value: nat, scale: nat, i: nat, h: Got): Got {
    Got(match h.result case Ok(v) => Ok(Worth(value, scale, v)) case Err(e) => Err(e), i + h.used)
  }

  function Worth(value: nat, scale: nat, v: nat): nat {
    value + scale * v
  }

  lemma ScaledNext(value: nat, scale: nat, i: nat, bs: seq<Byte>)
    requires i < MAX_VARINT_LEN && bs != [] && bs[0] >= 0x80
    ensures Scaled(value, scale, i, GetVarint(bs, i))
         == Scaled(Worth(value, scale, bs[0] - 0x80), scale * 0x80, i + 1, GetVarint(bs[1..], i + 1))
  {
    var h := GetVarint(bs[1..], i + 1).result;
    if h.Ok? {
      Distributes(scale, bs[0] - 0x80, h.value);
    }
  }

  // Where reading stops, and what it has found by then.
  lemma ScaledStop(value: nat, scale: nat, i: nat, bs: seq<Byte>)
    requires i <= MAX_VARINT_LEN && (bs != [] && i < MAX_VARINT_LEN ==> bs[0] < 0x80)
    ensures Scaled(value, scale, i, GetVarint(bs, i)) ==
      if i == MAX_VARINT_LEN then Got(Err(Overflow), i)
      else if bs == [] then Got(Err(Ended), i)
      else Got(if i == MAX_VARINT_LEN - 1 && bs[0] > 1 then Err(Overflow) else Ok(Worth(value, scale, bs[0])), i + 1)
  {
  }

  lemma ScaledStart(bs: seq<Byte>)
    ensures Scaled(0, 1, 0, GetVarint(bs, 0)) == GetVarint(bs, 0)
  {
  }

  lemma Distributes(scale: nat, low: nat, high: nat)
    ensures scale * (low + 0x80 * high) == scale * low + scale * 0x80 * high
  {
  }

  // binary.ReadUvarint
  method ReadUvarint(r: Source) returns (x: Result<nat>)
    modifies r
    ensures x == GetVarint(old(r.rest), 0).result
    ensures r.rest == old(r.rest)[GetVarint(old(r.rest), 0).used..]
  {
    hide GetVarint, Scaled, Worth;
    ghost var all, g := r.rest, GetVarint(r.rest, 0);
    ScaledStart(all);
    var value: nat, i: nat, scale: nat := 0, 0, 1;
    while i < MAX_VARINT_LEN
      invariant i <= MAX_VARINT_LEN && i <= |all|
      invariant r.rest == all[i..]
      invariant g == Scaled(value, scale, i, GetVarint(r.rest, i))
    {
      ghost var before := r.rest;
      var b := r.ReadByte();
      if b.Err? {
        ScaledStop(value, scale, i, before);
        return Err(b.error);
      }
      var byte := b.value;
      if byte < 0x80 {
        ScaledStop(value, scale, i, before);
        if i == MAX_VARINT_LEN - 1 && byte > 1 { return Err(Overflow); }
        return Ok(Worth(value, scale, byte));
      }
      ScaledNext(value, scale, i, before);
      value, scale, i := Worth(value, scale, byte - 0x80), scale * 0x80, i + 1;
    }
    ScaledStop(value, scale, i, r.rest);
    x := Err(Overflow);
  }

  class VarintReader {
    const r: Source
    const maxSize: int
    var buf: array<Byte>

    constructor (r: Source, maxSize: int)
      ensures this.r == r && this.maxSize == maxSize && fresh(buf)
    {
      this.r, this.maxSize := r, maxSize;
      buf := new Byte[0];
    }

    // ReadMsg, up to the payload handed to unmarshalling: whatever the buffer held before
    // and however large it is, the result depends on the stream alone.
    method ReadMsg() returns (m: Result<seq<Byte>>)
      modifies this`buf, r, buf
      ensures Read(m, r.rest) == ReadOne(old(r.rest), maxSize)
      ensures buf == old(buf) || fresh(buf)
    {
      hide GetVarint;
      var length := ReadUvarint(r);
      if length.Err? { return Err(length.error); }
      var n := length.value;
      if n >= TWO_TO_63 || n > maxSize { return Err(ShortBuffer); }
      if buf.Length < n { buf := new Byte[n]; }
      var ok := r.ReadFull(buf, n);
      if !ok { return Err(Ended); }
      m := Ok(buf[..n]);
    }
  }
}

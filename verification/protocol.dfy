/** `Protocol.Reader` and `Protocol.Writer` of src/network/protocol.ts. The
    browser copy in public/lib/protocol.js is the same code line for line, so
    this one model describes both ends of the wire. */
module Protocol {
  import opened Bytes
  import opened Utf8
  import opened BufferPools
  import opened Arith

  // ---------------------------------------------------------------------
  // Reader

  /** A reader: the bytes its `DataView` covers and the read position. */
  datatype Reader = Reader(data: seq<Byte>, offset: nat)

  /** The outcome of a read: the value and the advanced reader, or a thrown
      error together with the reader as the error left it. */
  datatype Step<T> = Done(value: T, next: Reader) | Threw(at: Reader) {
    predicate IsFailure() {
      Threw?
    }

    function PropagateFailure<U>(): Step<U>
      requires Threw?
    {
      Threw(at)
    }

    function Extract(): (T, Reader)
      requires Done?
    {
      (value, next)
    }
  }

  function Skip(r: Reader, n: nat): Reader {
    r.(offset := r.offset + n)
  }

  /** The `n` bytes at the read position. */
  function Ahead(r: Reader, n: nat): seq<Byte>
    requires r.offset + n <= |r.data|
  {
    r.data[r.offset..r.offset + n]
  }

  /** `readUint`: a little-endian u16. */
  function ReadUint(r: Reader): (s: Step<nat>)
    ensures s.Done? <==> r.offset + 2 <= |r.data|
    ensures s.Threw? ==> s.at == r
    ensures s.Done? ==> s.next == Skip(r, 2) && s.value < TwoTo16
  {
    if r.offset + 2 > |r.data| then Threw(r)
    else
      LeValueBound(Ahead(r, 2));
      Done(LeValue(Ahead(r, 2)), Skip(r, 2))
  }

  /** `readBigUint`: a little-endian u32. */
  function ReadBigUint(r: Reader): (s: Step<nat>)
    ensures s.Done? <==> r.offset + 4 <= |r.data|
    ensures s.Threw? ==> s.at == r
    ensures s.Done? ==> s.next == Skip(r, 4) && s.value < TwoTo32
  {
    if r.offset + 4 > |r.data| then Threw(r)
    else
      LeValueBound(Ahead(r, 4));
      Done(LeValue(Ahead(r, 4)), Skip(r, 4))
  }

  /** `readInt`: a little-endian two's-complement i32. */
  function ReadInt(r: Reader): (s: Step<int>)
    ensures s.Done? <==> r.offset + 4 <= |r.data|
    ensures s.Threw? ==> s.at == r
    ensures s.Done? ==> s.next == Skip(r, 4) && -TwoTo31 <= s.value < TwoTo31
  {
    if r.offset + 4 > |r.data| then Threw(r)
    else
      LeValueBound(Ahead(r, 4));
      Done(SignedOf(LeValue(Ahead(r, 4))), Skip(r, 4))
  }

  /** `readFloat`: four bytes, uninterpreted. */
  function ReadFloat(r: Reader): (s: Step<F32>)
    ensures s.Done? <==> r.offset + 4 <= |r.data|
    ensures s.Threw? ==> s.at == r
    ensures s.Done? ==> s.next == Skip(r, 4) && F32Bytes(s.value) == Ahead(r, 4)
  {
    if r.offset + 4 > |r.data| then Threw(r)
    else
      var o := r.offset;
      Done(F32(r.data[o], r.data[o + 1], r.data[o + 2], r.data[o + 3]), Skip(r, 4))
  }

  /** `readBoolean`: one byte, true when non-zero. */
  function ReadBoolean(r: Reader): (s: Step<bool>)
    ensures s.Done? <==> r.offset + 1 <= |r.data|
    ensures s.Threw? ==> s.at == r
    ensures s.Done? ==> s.next == Skip(r, 1) && (s.value <==> r.data[r.offset] != 0)
  {
    if r.offset + 1 > |r.data| then Threw(r)
    else Done(r.data[r.offset] != 0, Skip(r, 1))
  }

  /** `readString`: a u16 byte count, then that many bytes of UTF-8. A count
      running past the end throws after the count has been consumed. */
  function ReadString(r: Reader): (s: Step<string>)
    ensures s.Threw? ==> s.at == r || s.at == Skip(r, 2)
    ensures s.Done? ==>
      r.offset + 2 <= |r.data|
      && var n := LeValue(Ahead(r, 2));
         r.offset + 2 + n <= |r.data| && s.next == Skip(r, 2 + n)
         && s.value == Decode(r.data[r.offset + 2..r.offset + 2 + n])
  {
    var a :- ReadUint(r);
    var (n, r1) := a;
    if r1.offset + n > |r1.data| then Threw(r1)
    else Done(Decode(Ahead(r1, n)), Skip(r1, n))
  }

  // ---------------------------------------------------------------------
  // Reading what was written

  /** The reader's next bytes are `bs`: the byte at the read position is
      `bs[0]`, and the rest of `bs` follows it. */
  predicate At(r: Reader, bs: seq<Byte>)
    decreases |bs|
  {
    if |bs| == 0 then r.offset <= |r.data|
    else r.offset < |r.data| && r.data[r.offset] == bs[0] && At(Skip(r, 1), bs[1..])
  }

  /** `At` says that `bs` is the slice of the data at the read position. */
  lemma {:induction false} AtSlice(r: Reader, bs: seq<Byte>)
    ensures At(r, bs) <==> r.offset + |bs| <= |r.data| && Ahead(r, |bs|) == bs
    decreases |bs|
  {
    if |bs| > 0 {
      AtSlice(Skip(r, 1), bs[1..]);
      if r.offset + |bs| <= |r.data| {
        assert Ahead(r, |bs|) == [r.data[r.offset]] + Ahead(Skip(r, 1), |bs| - 1);
      }
    }
  }

  /** The bytes from position `k` to the end are `bs`. */
  lemma AtSuffix(data: seq<Byte>, k: nat, bs: seq<Byte>)
    requires k <= |data| && data[k..] == bs
    ensures At(Reader(data, k), bs)
  {
    AtSlice(Reader(data, k), bs);
  }

  lemma AtSplit(r: Reader, a: seq<Byte>, b: seq<Byte>)
    requires At(r, a + b)
    ensures At(r, a) && At(Skip(r, |a|), b)
  {
    AtSlice(r, a + b);
    AtSlice(r, a);
    AtSlice(Skip(r, |a|), b);
    var o := r.offset;
    assert Ahead(r, |a|) == (a + b)[..|a|];
    assert Ahead(Skip(r, |a|), |b|) == (a + b)[|a|..];
  }

  lemma ReadUintAt(r: Reader, v: int, tail: seq<Byte>)
    requires At(r, U16(v) + tail)
    ensures ReadUint(r) == Done(v % TwoTo16, Skip(r, 2)) && At(Skip(r, 2), tail)
    ensures 0 <= v < TwoTo16 ==> v % TwoTo16 == v
  {
    AtSplit(r, U16(v), tail);
    AtSlice(r, U16(v));
    U16RoundTrip(v);
    if 0 <= v < TwoTo16 {
      ModUnique(v, TwoTo16, 0, v);
    }
  }

  lemma ReadBigUintAt(r: Reader, v: int, tail: seq<Byte>)
    requires At(r, U32(v) + tail)
    ensures ReadBigUint(r) == Done(v % TwoTo32, Skip(r, 4)) && At(Skip(r, 4), tail)
    ensures 0 <= v < TwoTo32 ==> v % TwoTo32 == v
  {
    AtSplit(r, U32(v), tail);
    AtSlice(r, U32(v));
    U32RoundTrip(v);
    if 0 <= v < TwoTo32 {
      ModUnique(v, TwoTo32, 0, v);
    }
  }

  lemma ReadIntAt(r: Reader, v: int, tail: seq<Byte>)
    requires -TwoTo31 <= v < TwoTo31 && At(r, U32(v) + tail)
    ensures ReadInt(r) == Done(v, Skip(r, 4)) && At(Skip(r, 4), tail)
  {
    AtSplit(r, U32(v), tail);
    AtSlice(r, U32(v));
    I32RoundTrip(v);
  }

  lemma ReadFloatAt(r: Reader, f: F32, tail: seq<Byte>)
    requires At(r, F32Bytes(f) + tail)
    ensures ReadFloat(r) == Done(f, Skip(r, 4)) && At(Skip(r, 4), tail)
  {
    AtSplit(r, F32Bytes(f), tail);
    AtSlice(r, F32Bytes(f));
  }

  lemma ReadBooleanAt(r: Reader, b: bool, tail: seq<Byte>)
    requires At(r, BoolBytes(b) + tail)
    ensures ReadBoolean(r) == Done(b, Skip(r, 1)) && At(Skip(r, 1), tail)
  {
    AtSplit(r, BoolBytes(b), tail);
    AtSlice(r, BoolBytes(b));
  }

  /** The bytes `writeString` emits: the UTF-8 length as a u16, then the UTF-8. */
  function StringBytes(s: string): seq<Byte> {
    U16(|Encode(s)|) + Encode(s)
  }

  /** A string that survives the wire unchanged: its UTF-8 fits the u16
      length and it does not start with a byte order mark. */
  predicate WireString(s: string) {
    |Encode(s)| < TwoTo16 && (|s| == 0 || s[0] != Bom)
  }

  /** A length prefix followed by that many bytes reads as their decoding. */
  lemma ReadStringBytes(r: Reader, bs: seq<Byte>, tail: seq<Byte>)
    requires |bs| < TwoTo16 && At(r, U16(|bs|) + (bs + tail))
    ensures ReadString(r) == Done(Decode(bs), Skip(r, 2 + |bs|))
    ensures At(Skip(r, 2 + |bs|), tail)
  {
    ReadUintAt(r, |bs|, bs + tail);
    var r1 := Skip(r, 2);
    AtSplit(r1, bs, tail);
    AtSlice(r1, bs);
    ReadStringStep(r, |bs|, r1);
  }

  lemma ReadStringStep(r: Reader, n: nat, r1: Reader)
    requires ReadUint(r) == Done(n, r1) && r1.offset + n <= |r1.data|
    ensures ReadString(r) == Done(Decode(Ahead(r1, n)), Skip(r1, n))
  {
  }

  lemma ReadStringAt(r: Reader, s: string, tail: seq<Byte>)
    requires WireString(s) && At(r, StringBytes(s) + tail)
    ensures ReadString(r) == Done(s, Skip(r, |StringBytes(s)|)) && At(Skip(r, |StringBytes(s)|), tail)
  {
    var enc := Encode(s);
    StringBytesOnto(s, tail);
    ReadStringBytes(r, enc, tail);
    DecodeEncode(s);
  }

  lemma StringBytesOnto(s: string, tail: seq<Byte>)
    ensures StringBytes(s) + tail == U16(|Encode(s)|) + (Encode(s) + tail)
  {
  }

  /** A string whose UTF-8 has 65536 bytes or more has its length prefix
      wrapped, so the reader takes only the first `length mod 65536` bytes. */
  lemma ReadLongString(r: Reader, s: string, tail: seq<Byte>)
    requires |Encode(s)| >= TwoTo16 && At(r, StringBytes(s) + tail)
    ensures var n := |Encode(s)| % TwoTo16;
      ReadString(r) == Done(Decode(Encode(s)[..n]), Skip(r, 2 + n))
  {
    ReadWrappedBytes(r, Encode(s), tail);
  }

  lemma ReadWrappedBytes(r: Reader, enc: seq<Byte>, tail: seq<Byte>)
    requires At(r, U16(|enc|) + enc + tail)
    ensures var n := |enc| % TwoTo16;
      ReadString(r) == Done(Decode(enc[..n]), Skip(r, 2 + n))
  {
    var n := |enc| % TwoTo16;
    var head := enc[..n];
    assert U16(|enc|) + enc + tail == U16(|head|) + (head + (enc[n..] + tail)) by {
      assert |head| == n;
      assert U16(|enc|) == U16(|head|);
      assert enc == head + enc[n..];
    }
    ReadStringBytes(r, head, enc[n..] + tail);
  }

  // ---------------------------------------------------------------------
  // Writer

  const InitialSize: nat := 1024

  /** A writer: its current buffer and the write position. */
  datatype Writer = Writer(buffer: seq<Byte>, offset: nat)

  predicate WriterValid(w: Writer) {
    w.offset <= |w.buffer|
  }

  /** The bytes written so far. */
  function Written(w: Writer): seq<Byte>
    requires WriterValid(w)
  {
    w.buffer[..w.offset]
  }

  /** `new Writer(initialSize)`: a buffer from the pool, position 0. */
  function NewWriter(p: Pool, initialSize: nat): (r: (Pool, Writer))
    requires PoolValid(p)
    ensures PoolValid(r.0) && WriterValid(r.1) && Written(r.1) == []
    ensures |r.1.buffer| >= initialSize
  {
    var (p1, buf) := Acquire(p, initialSize);
    (p1, Writer(buf, 0))
  }

  /** `ensureCapacity`: when `additional` more bytes do not fit, a pooled
      buffer of at least twice the size (or the required size) takes over
      the written bytes and the old buffer goes back to the pool. */
  function EnsureCapacity(p: Pool, w: Writer, additional: nat): (r: (Pool, Writer))
    requires PoolValid(p) && WriterValid(w)
    ensures PoolValid(r.0) && WriterValid(r.1)
    ensures r.1.offset == w.offset && Written(r.1) == Written(w)
    ensures |r.1.buffer| >= w.offset + additional
    ensures w.offset + additional <= |w.buffer| ==> r == (p, w)
  {
    var required := w.offset + additional;
    if required <= |w.buffer| then (p, w)
    else
      var newSize := if 2 * |w.buffer| >= required then 2 * |w.buffer| else required;
      var (p1, grown) := Acquire(p, newSize);
      var p2 := Release(p1, w.buffer);
      (p2, Writer(w.buffer[..w.offset] + grown[w.offset..], w.offset))
  }

  /** Stores `bs` at the write position and moves past them. */
  function Put(w: Writer, bs: seq<Byte>): (r: Writer)
    requires WriterValid(w) && w.offset + |bs| <= |w.buffer|
    ensures WriterValid(r) && Written(r) == Written(w) + bs && |r.buffer| == |w.buffer| && r.offset == w.offset + |bs|
  {
    var r := Writer(w.buffer[..w.offset] + bs + w.buffer[w.offset + |bs|..], w.offset + |bs|);
    assert Written(r) == Written(w) + bs;
    r
  }

  /** A fixed-width write: make room, then store the bytes. */
  function WriteBytes(p: Pool, w: Writer, bs: seq<Byte>): (r: (Pool, Writer))
    requires PoolValid(p) && WriterValid(w)
    ensures PoolValid(r.0) && WriterValid(r.1) && Written(r.1) == Written(w) + bs
  {
    var (p1, w1) := EnsureCapacity(p, w, |bs|);
    (p1, Put(w1, bs))
  }

  function BoolBytes(b: bool): seq<Byte> {
    [if b then 1 else 0]
  }

  function WriteUint(p: Pool, w: Writer, v: int): (r: (Pool, Writer))
    requires PoolValid(p) && WriterValid(w)
    ensures PoolValid(r.0) && WriterValid(r.1) && Written(r.1) == Written(w) + U16(v)
  {
    WriteBytes(p, w, U16(v))
  }

  function WriteBigUint(p: Pool, w: Writer, v: int): (r: (Pool, Writer))
    requires PoolValid(p) && WriterValid(w)
    ensures PoolValid(r.0) && WriterValid(r.1) && Written(r.1) == Written(w) + U32(v)
  {
    WriteBytes(p, w, U32(v))
  }

  function WriteInt(p: Pool, w: Writer, v: int): (r: (Pool, Writer))
    requires PoolValid(p) && WriterValid(w)
    ensures PoolValid(r.0) && WriterValid(r.1) && Written(r.1) == Written(w) + U32(v)
  {
    WriteBytes(p, w, U32(v))
  }

  function WriteFloat(p: Pool, w: Writer, f: F32): (r: (Pool, Writer))
    requires PoolValid(p) && WriterValid(w)
    ensures PoolValid(r.0) && WriterValid(r.1) && Written(r.1) == Written(w) + F32Bytes(f)
  {
    WriteBytes(p, w, F32Bytes(f))
  }

  function WriteBoolean(p: Pool, w: Writer, b: bool): (r: (Pool, Writer))
    requires PoolValid(p) && WriterValid(w)
    ensures PoolValid(r.0) && WriterValid(r.1) && Written(r.1) == Written(w) + BoolBytes(b)
  {
    WriteBytes(p, w, BoolBytes(b))
  }

  /** `writeString`: room for both parts, then the u16 length and the UTF-8,
      stored back to back, so one store of both. */
  function WriteString(p: Pool, w: Writer, s: string): (r: (Pool, Writer))
    requires PoolValid(p) && WriterValid(w)
    ensures PoolValid(r.0) && WriterValid(r.1) && Written(r.1) == Written(w) + StringBytes(s)
  {
    WriteBytes(p, w, StringBytes(s))
  }

  /** `make`: the written bytes; the buffer goes back to the pool although
      the writer keeps using it. */
  function Make(p: Pool, w: Writer): (r: (Pool, seq<Byte>))
    requires PoolValid(p) && WriterValid(w)
    ensures PoolValid(r.0) && r.1 == Written(w)
    ensures r.0 == Release(p, w.buffer)
  {
    (Release(p, w.buffer), Written(w))
  }

  /** `reset`: back to position 0 on the same buffer. */
  function Reset(w: Writer): (r: Writer)
    ensures WriterValid(r) && Written(r) == [] && r.buffer == w.buffer
  {
    w.(offset := 0)
  }

  /** A string written and then read back is the same string. */
  lemma StringRoundTrip(p: Pool, w: Writer, s: string)
    requires PoolValid(p) && WriterValid(w) && WireString(s)
    ensures var out := Written(WriteString(p, w, s).1);
      ReadString(Reader(out, |Written(w)|)) == Done(s, Reader(out, |out|))
  {
    var out := Written(WriteString(p, w, s).1);
    var r := Reader(out, |Written(w)|);
    assert out[|Written(w)|..] == StringBytes(s) + [];
    AtSuffix(out, |Written(w)|, StringBytes(s) + []);
    ReadStringAt(r, s, []);
  }

  /** A u16 written and then read back is the value modulo 2^16. */
  lemma UintRoundTrip(p: Pool, w: Writer, v: int)
    requires PoolValid(p) && WriterValid(w)
    ensures var out := Written(WriteUint(p, w, v).1);
      ReadUint(Reader(out, |Written(w)|)) == Done(v % TwoTo16, Reader(out, |out|))
  {
    var out := Written(WriteUint(p, w, v).1);
    assert out[|Written(w)|..] == U16(v) + [];
    AtSuffix(out, |Written(w)|, U16(v) + []);
    ReadUintAt(Reader(out, |Written(w)|), v, []);
  }

  /** A u32 written and then read back is the value modulo 2^32. */
  lemma BigUintRoundTrip(p: Pool, w: Writer, v: int)
    requires PoolValid(p) && WriterValid(w)
    ensures var out := Written(WriteBigUint(p, w, v).1);
      ReadBigUint(Reader(out, |Written(w)|)) == Done(v % TwoTo32, Reader(out, |out|))
  {
    var out := Written(WriteBigUint(p, w, v).1);
    assert out[|Written(w)|..] == U32(v) + [];
    AtSuffix(out, |Written(w)|, U32(v) + []);
    ReadBigUintAt(Reader(out, |Written(w)|), v, []);
  }

  /** An i32 written and then read back is the value. */
  lemma IntRoundTrip(p: Pool, w: Writer, v: int)
    requires PoolValid(p) && WriterValid(w) && -TwoTo31 <= v < TwoTo31
    ensures var out := Written(WriteInt(p, w, v).1);
      ReadInt(Reader(out, |Written(w)|)) == Done(v, Reader(out, |out|))
  {
    var out := Written(WriteInt(p, w, v).1);
    assert out[|Written(w)|..] == U32(v) + [];
    AtSuffix(out, |Written(w)|, U32(v) + []);
    ReadIntAt(Reader(out, |Written(w)|), v, []);
  }

  /** A boolean written and then read back is the same boolean. */
  lemma BooleanRoundTrip(p: Pool, w: Writer, b: bool)
    requires PoolValid(p) && WriterValid(w)
    ensures var out := Written(WriteBoolean(p, w, b).1);
      ReadBoolean(Reader(out, |Written(w)|)) == Done(b, Reader(out, |out|))
  {
    var out := Written(WriteBoolean(p, w, b).1);
    assert out[|Written(w)|..] == BoolBytes(b) + [];
    AtSuffix(out, |Written(w)|, BoolBytes(b) + []);
    ReadBooleanAt(Reader(out, |Written(w)|), b, []);
  }

  // ---------------------------------------------------------------------
  // Readers over views

  /** A `Uint8Array` view: `length` bytes from `byteOffset` of `backing`. */
  datatype View = View(backing: seq<Byte>, byteOffset: nat, length: nat)

  predicate ViewValid(v: View) {
    v.byteOffset + v.length <= |v.backing|
  }

  function ViewBytes(v: View): seq<Byte>
    requires ViewValid(v)
  {
    v.backing[v.byteOffset..v.byteOffset + v.length]
  }

  /** `new Reader(view)` as written: a `DataView` over `view.buffer`, the
      whole backing store, from its first byte. */
  function ReaderOf(v: View): Reader {
    Reader(v.backing, 0)
  }

  /** A view two bytes into its buffer: the reader returns the buffer's
      first u16, not the view's, and reads past the view's end. */
  lemma ReaderOfIgnoresOffset()
    ensures var v := View([7, 0, 5, 0], 2, 2);
      ViewValid(v) && LeValue(ViewBytes(v)) == 5
      && ReadUint(ReaderOf(v)) == Done(7, Reader(v.backing, 2))
      && ReadUint(Reader(v.backing, 2)).Done?
  {
    var v := View([7, 0, 5, 0], 2, 2);
    assert ViewBytes(v) == [5, 0];
    assert Ahead(ReaderOf(v), 2) == [7, 0];
  }

  /** The reader the server evidently intends: `new DataView(buffer.buffer,
      buffer.byteOffset, buffer.byteLength)`, covering exactly the view. */
  function ReaderOfView(v: View): (r: Reader)
    requires ViewValid(v)
    ensures r.offset == 0 && At(r, ViewBytes(v)) && |r.data| == v.length
  {
    AtSuffix(ViewBytes(v), 0, ViewBytes(v));
    Reader(ViewBytes(v), 0)
  }
}

/** UTF-8 as `TextEncoder.encode` writes it (RFC 3629) and as a default
    `TextDecoder.decode` reads it: malformed input becomes U+FFFD following
    the decoder of the WHATWG Encoding Standard, and a leading byte order
    mark is dropped. Strings are sequences of Unicode scalar values. */
module Utf8 {
  import opened Arith
  import opened Bytes

  const Bom: char := '\U{FEFF}'
  const Replacement: char := '\U{FFFD}'

  /** The one to four bytes of a scalar value (section 3 of RFC 3629). */
  function EncodeChar(c: char): (bs: seq<Byte>)
    ensures 1 <= |bs| <= 4
  {
    var v := c as int;
    if v < 0x80 then [v]
    else if v < 0x800 then [0xC0 + v / 64, 0x80 + v % 64]
    else if v < 0x10000 then [0xE0 + v / 4096, 0x80 + (v / 64) % 64, 0x80 + v % 64]
    else [0xF0 + v / 0x40000, 0x80 + (v / 4096) % 64, 0x80 + (v / 64) % 64, 0x80 + v % 64]
  }

  /** `TextEncoder.encode`. */
  function Encode(s: string): seq<Byte> {
    if |s| == 0 then [] else EncodeChar(s[0]) + Encode(s[1..])
  }

  lemma {:induction false} EncodeAppend(s: string, t: string)
    ensures Encode(s + t) == Encode(s) + Encode(t)
  {
    if |s| > 0 {
      assert (s + t)[0] == s[0];
      assert (s + t)[1..] == s[1..] + t;
      EncodeAppend(s[1..], t);
      assert Encode(s + t) == EncodeChar(s[0]) + Encode(s[1..] + t);
    } else {
      assert s + t == t;
    }
  }

  /** The decoder's state: the code point so far, the continuation bytes
      seen and needed, and the bounds on the next continuation byte. */
  datatype DecoderState = DecoderState(cp: int, seen: nat, needed: nat, lower: int, upper: int)

  const Initial := DecoderState(0, 0, 0, 0x80, 0xBF)

  /** The scalar value `cp` as a character. Every value the decoder builds
      is one, because of the bounds placed on the second byte. */
  function ScalarOf(cp: int): char {
    if 0 <= cp < 0xD800 || 0xE000 <= cp < 0x11_0000 then cp as char else Replacement
  }

  /** What one byte does to the decoder: the characters it emits, the next
      state, and whether the byte is used up. A byte that breaks a sequence
      emits U+FFFD and is left to be read again from the initial state. */
  datatype Outcome = Outcome(out: seq<char>, next: DecoderState, consumed: bool)

  /** The UTF-8 decoder's handler for one byte (section 9.1.1 of the WHATWG
      Encoding Standard). */
  function Step(b: Byte, st: DecoderState): (o: Outcome)
    ensures !o.consumed ==> st.needed > 0 && o.next == Initial && o.out == [Replacement]
  {
    if st.needed == 0 then
      if b <= 0x7F then Outcome([b as char], Initial, true)
      else if 0xC2 <= b <= 0xF4 then Outcome([], AfterLead(b), true)
      else Outcome([Replacement], Initial, true)
    else if !(st.lower <= b <= st.upper) then
      Outcome([Replacement], Initial, false)
    else
      var cp := st.cp * 64 + b % 64;
      if st.seen + 1 == st.needed then Outcome([ScalarOf(cp)], Initial, true)
      else Outcome([], DecoderState(cp, st.seen + 1, st.needed, 0x80, 0xBF), true)
  }

  /** The decoder run over `bs` from state `st`; a sequence cut short by the
      end yields one U+FFFD. */
  function Run(bs: seq<Byte>, st: DecoderState): seq<char>
    decreases |bs|, st.needed
  {
    if |bs| == 0 then
      (if st.needed != 0 then [Replacement] else [])
    else
      var o := Step(bs[0], st);
      o.out + Run(if o.consumed then bs[1..] else bs, o.next)
  }

  /** `new TextDecoder().decode(bs)`: the decoder's output without a
      leading byte order mark. */
  function Decode(bs: seq<Byte>): (s: string)
    ensures |Run(bs, Initial)| > 0 && Run(bs, Initial)[0] == Bom ==> s == Run(bs, Initial)[1..]
  {
    var cs := Run(bs, Initial);
    if |cs| > 0 && cs[0] == Bom then cs[1..] else cs
  }

  /** Dividing by 64 twice divides by 4096; by 4096 then 64 divides by 2^18. */
  lemma DivDiv(v: nat)
    ensures v / 64 / 64 == v / 4096 && v / 4096 / 64 == v / 0x40000
  {
    var q := v / 0x40000;
    var r := v % 0x40000;
    ModUnique(v / 4096, 64, q, r / 4096);
    var q2 := v / 4096;
    ModUnique(v / 64, 64, q2, (v % 4096) / 64);
  }

  /** Decoding the bytes of one character from the initial state yields it
      and returns to the initial state. */
  lemma RunChar(c: char, rest: seq<Byte>)
    ensures Run(EncodeChar(c) + rest, Initial) == [c] + Run(rest, Initial)
  {
    var v := c as int;
    if v < 0x80 {
      RunOne(c, rest);
    } else if v < 0x800 {
      RunTwo(c, rest);
    } else if v < 0x10000 {
      RunThree(c, rest);
    } else {
      RunFour(c, rest);
    }
  }

  lemma RunOne(c: char, rest: seq<Byte>)
    requires c as int < 0x80
    ensures Run(EncodeChar(c) + rest, Initial) == [c] + Run(rest, Initial)
  {
    var bs := EncodeChar(c) + rest;
    assert bs[0] == c as int && bs[1..] == rest;
  }

  lemma RunTwo(c: char, rest: seq<Byte>)
    requires 0x80 <= c as int < 0x800
    ensures Run(EncodeChar(c) + rest, Initial) == [c] + Run(rest, Initial)
  {
    var v := c as int;
    var b0 := 0xC0 + v / 64;
    var b1 := 0x80 + v % 64;
    assert EncodeChar(c) + rest == [b0] + ([b1] + rest);
    LeadStep(b0, [b1] + rest);
    assert (v / 64) * 64 + v % 64 == v;
    LastStep(DecoderState(v / 64, 0, 1, 0x80, 0xBF), b1, rest, v);
  }

  /** The state a lead byte moves the decoder to. */
  function AfterLead(b: Byte): DecoderState
    requires 0xC2 <= b <= 0xF4
  {
    if b <= 0xDF then DecoderState(b % 32, 0, 1, 0x80, 0xBF)
    else if b <= 0xEF then DecoderState(b % 16, 0, 2, if b == 0xE0 then 0xA0 else 0x80, if b == 0xED then 0x9F else 0xBF)
    else DecoderState(b % 8, 0, 3, if b == 0xF0 then 0x90 else 0x80, if b == 0xF4 then 0x8F else 0xBF)
  }

  lemma LeadStep(b: Byte, tail: seq<Byte>)
    requires 0xC2 <= b <= 0xF4
    ensures Run([b] + tail, Initial) == Run(tail, AfterLead(b))
  {
    assert ([b] + tail)[1..] == tail;
  }

  lemma MiddleStep(st: DecoderState, b: Byte, tail: seq<Byte>, cp: int)
    requires st.needed > 0 && st.lower <= b <= st.upper && st.seen + 1 < st.needed
    requires cp == st.cp * 64 + b % 64
    ensures Run([b] + tail, st) == Run(tail, DecoderState(cp, st.seen + 1, st.needed, 0x80, 0xBF))
  {
    var bs := [b] + tail;
    assert bs[0] == b && bs[1..] == tail;
    assert st.seen + 1 != st.needed;
  }

  lemma LastStep(st: DecoderState, b: Byte, tail: seq<Byte>, cp: int)
    requires st.needed > 0 && st.lower <= b <= st.upper && st.seen + 1 == st.needed
    requires cp == st.cp * 64 + b % 64
    ensures Run([b] + tail, st) == [ScalarOf(cp)] + Run(tail, Initial)
  {
    assert ([b] + tail)[1..] == tail;
  }

  lemma ContinuationLow(b: int, x: int)
    requires 0 <= x < 64 && b == 0x80 + x
    ensures b % 64 == x
  {
  }

  /** The arithmetic behind decoding three bytes. */
  lemma ThreeBytes(v: int)
    requires 0x800 <= v < 0x10000 && (v < 0xD800 || 0xE000 <= v)
    ensures 0xE0 <= 0xE0 + v / 4096 <= 0xEF
    ensures AfterLead(0xE0 + v / 4096).cp == v / 4096
    ensures AfterLead(0xE0 + v / 4096).lower <= 0x80 + (v / 64) % 64 <= AfterLead(0xE0 + v / 4096).upper
    ensures (v / 4096) * 64 + (v / 64) % 64 == v / 64
    ensures (v / 64) * 64 + v % 64 == v
  {
    DivDiv(v);
  }

  lemma RunThree(c: char, rest: seq<Byte>)
    requires 0x800 <= c as int < 0x10000
    ensures Run(EncodeChar(c) + rest, Initial) == [c] + Run(rest, Initial)
  {
    var v := c as int;
    ThreeBytes(v);
    var b0 := 0xE0 + v / 4096;
    var b1 := 0x80 + (v / 64) % 64;
    var b2 := 0x80 + v % 64;
    assert EncodeChar(c) + rest == [b0] + ([b1] + ([b2] + rest));
    var s1 := AfterLead(b0);
    LeadStep(b0, [b1] + ([b2] + rest));
    ContinuationLow(b1, (v / 64) % 64);
    ContinuationLow(b2, v % 64);
    MiddleStep(s1, b1, [b2] + rest, v / 64);
    LastStep(DecoderState(v / 64, 1, 2, 0x80, 0xBF), b2, rest, v);
    assert ScalarOf(v) == c;
  }

  /** The arithmetic behind decoding four bytes. */
  lemma FourBytes(v: int)
    requires 0x10000 <= v < 0x11_0000
    ensures 0xF0 <= 0xF0 + v / 0x40000 <= 0xF4
    ensures AfterLead(0xF0 + v / 0x40000).cp == v / 0x40000
    ensures AfterLead(0xF0 + v / 0x40000).lower <= 0x80 + (v / 4096) % 64 <= AfterLead(0xF0 + v / 0x40000).upper
    ensures (v / 0x40000) * 64 + (v / 4096) % 64 == v / 4096
    ensures (v / 4096) * 64 + (v / 64) % 64 == v / 64
    ensures (v / 64) * 64 + v % 64 == v
  {
    DivDiv(v);
  }

  lemma RunFour(c: char, rest: seq<Byte>)
    requires 0x10000 <= c as int
    ensures Run(EncodeChar(c) + rest, Initial) == [c] + Run(rest, Initial)
  {
    var v := c as int;
    FourBytes(v);
    var b0 := 0xF0 + v / 0x40000;
    var b1 := 0x80 + (v / 4096) % 64;
    var b2 := 0x80 + (v / 64) % 64;
    var b3 := 0x80 + v % 64;
    assert EncodeChar(c) + rest == [b0] + ([b1] + ([b2] + ([b3] + rest)));
    var s1 := AfterLead(b0);
    LeadStep(b0, [b1] + ([b2] + ([b3] + rest)));
    ContinuationLow(b1, (v / 4096) % 64);
    ContinuationLow(b2, (v / 64) % 64);
    ContinuationLow(b3, v % 64);
    MiddleStep(s1, b1, [b2] + ([b3] + rest), v / 4096);
    MiddleStep(DecoderState(v / 4096, 1, 3, 0x80, 0xBF), b2, [b3] + rest, v / 64);
    LastStep(DecoderState(v / 64, 2, 3, 0x80, 0xBF), b3, rest, v);
    assert ScalarOf(v) == c;
  }

  lemma {:induction false} RunEncode(s: string)
    ensures Run(Encode(s), Initial) == s
  {
    if |s| > 0 {
      RunEncode(s[1..]);
      RunChar(s[0], Encode(s[1..]));
    }
  }

  /** `TextDecoder` inverts `TextEncoder` except that it drops a leading
      byte order mark. */
  lemma DecodeEncode(s: string)
    ensures |s| > 0 && s[0] == Bom ==> Decode(Encode(s)) == s[1..]
    ensures (|s| == 0 || s[0] != Bom) ==> Decode(Encode(s)) == s
  {
    RunEncode(s);
  }
}

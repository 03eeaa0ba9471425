/** The on-screen message stack of client/src/lib/state/message.ts and of
    its legacy copy public/lib/message.js (the two `add`/`update` bodies
    are the same code). Each entry is a line of text with an opacity that
    fades on every frame; faded entries are spliced out. */
module MessageStack {

  datatype Entry = Entry(msg: string, alpha: real)

  // ---------------------------------------------------------------------
  // String.prototype.split('\n')

  function Newlines(s: string): nat {
    if |s| == 0 then 0 else (if s[0] == '\n' then 1 else 0) + Newlines(s[1..])
  }

  /** `s.split('\n')`: the pieces between line breaks, always at least one. */
  function Split(s: string): (ps: seq<string>)
    ensures |ps| == Newlines(s) + 1
    ensures forall k :: 0 <= k < |ps| ==> '\n' !in ps[k]
  {
    if |s| == 0 then [""]
    else if s[0] == '\n' then [""] + Split(s[1..])
    else
      var ps := Split(s[1..]);
      [[s[0]] + ps[0]] + ps[1..]
  }

  /** `ps.join('\n')`. */
  function Join(ps: seq<string>): string
    requires |ps| >= 1
  {
    if |ps| == 1 then ps[0] else ps[0] + "\n" + Join(ps[1..])
  }

  /** Splitting loses nothing: joining the pieces gives the text back. */
  lemma {:induction false} JoinSplit(s: string)
    ensures Join(Split(s)) == s
  {
    if |s| > 0 {
      var ps := Split(s[1..]);
      JoinSplit(s[1..]);
      if s[0] == '\n' {
        assert Split(s)[1..] == ps;
        assert s == "\n" + s[1..];
      } else {
        var qs := Split(s);
        assert qs[1..] == ps[1..];
        if |ps| == 1 {
          assert s == [s[0]] + s[1..];
        } else {
          assert Join(qs) == qs[0] + "\n" + Join(ps[1..]);
          assert Join(ps) == ps[0] + "\n" + Join(ps[1..]);
          assert s == [s[0]] + s[1..];
        }
      }
    }
  }

  // ---------------------------------------------------------------------
  // add

  /** The `for … of` loop of `add`: each piece in turn is unshifted onto
      the stack with full opacity. */
  function Push(stack: seq<Entry>, pieces: seq<string>): (r: seq<Entry>)
    ensures |r| == |stack| + |pieces|
    ensures r[|pieces|..] == stack
    ensures forall k :: 0 <= k < |pieces| ==> r[k] == Entry(pieces[|pieces| - 1 - k], 1.0)
    decreases |pieces|
  {
    if |pieces| == 0 then stack
    else
      var r := Push([Entry(pieces[0], 1.0)] + stack, pieces[1..]);
      PushShift(r, stack, pieces);
      r
  }

  /** The bookkeeping of one unshift: what the recursive call promises
      about the longer stack is what `Push` promises about the shorter. */
  lemma PushShift(r: seq<Entry>, stack: seq<Entry>, pieces: seq<string>)
    requires |pieces| > 0
    requires |r| == |stack| + |pieces|
    requires r[|pieces| - 1..] == [Entry(pieces[0], 1.0)] + stack
    requires forall k :: 0 <= k < |pieces| - 1 ==> r[k] == Entry(pieces[1..][|pieces| - 2 - k], 1.0)
    ensures r[|pieces|..] == stack
    ensures forall k :: 0 <= k < |pieces| ==> r[k] == Entry(pieces[|pieces| - 1 - k], 1.0)
  {
    assert r[|pieces|..] == (r[|pieces| - 1..])[1..];
    assert r[|pieces| - 1] == (r[|pieces| - 1..])[0];
  }

  /** `Message.add`: the lines of `m`, last line first, above the old
      entries, which keep their order. */
  function Add(stack: seq<Entry>, m: string): (r: seq<Entry>)
    ensures |r| == |stack| + Newlines(m) + 1
    ensures r[Newlines(m) + 1..] == stack
    ensures forall k :: 0 <= k <= Newlines(m) ==> r[k].alpha == 1.0 && '\n' !in r[k].msg
  {
    Push(stack, Split(m))
  }

  // ---------------------------------------------------------------------
  // update

  /** How much every visited entry fades: more when the stack is long. */
  function Fade(stack: seq<Entry>): real {
    if |stack| > 5 then 0.01 else 0.006
  }

  /** The loop of `update` from index i: fade entry i by the current
      length's step and splice it out once its opacity is not positive;
      either way move on to index i + 1, so the entry that slid into
      index i after a splice is not visited in this pass. */
  function Pass(stack: seq<Entry>, i: nat): seq<Entry>
    decreases |stack| - i
  {
    if i >= |stack| then stack
    else
      var e := stack[i].(alpha := stack[i].alpha - Fade(stack));
      if e.alpha <= 0.0 then Pass(stack[..i] + stack[i + 1..], i + 1)
      else Pass(stack[i := e], i + 1)
  }

  /** Strictly increasing indices. */
  predicate Increasing(o: seq<nat>) {
    forall j, k :: 0 <= j < k < |o| ==> o[j] < o[k]
  }

  /** Every entry of `stack` whose index is not in `o` had faded to at
      most one step. */
  predicate Gone(stack: seq<Entry>, o: seq<nat>) {
    forall j :: 0 <= j < |stack| && j !in o ==> stack[j].alpha <= 0.01
  }

  /** Entry k of `s` is entry o[k] of `stack`, faded by at most one step. */
  predicate Faded(stack: seq<Entry>, s: seq<Entry>, o: seq<nat>)
    requires |o| == |s|
  {
    forall k :: 0 <= k < |s| ==>
      o[k] < |stack| && s[k].msg == stack[o[k]].msg
      && stack[o[k]].alpha - 0.01 <= s[k].alpha <= stack[o[k]].alpha
  }

  /** Entries from index i on are untouched, and sit as far from their old
      place as the number of entries removed so far. */
  predicate Shifted(stack: seq<Entry>, s: seq<Entry>, o: seq<nat>, i: nat)
    requires |o| == |s| <= |stack|
  {
    (forall k :: 0 <= k < |s| ==> o[k] <= k + (|stack| - |s|))
    && (forall k :: i <= k < |s| ==> o[k] == k + (|stack| - |s|) && s[k] == stack[o[k]])
  }

  /** What the loop of `update` keeps true of the stack `s` it has built
      from `stack` and of each entry's earlier index, before index i. */
  predicate Tracked(stack: seq<Entry>, s: seq<Entry>, origin: seq<nat>, i: nat) {
    |origin| == |s| <= |stack|
    && Shifted(stack, s, origin, i) && Increasing(origin) && Faded(stack, s, origin) && Gone(stack, origin)
  }

  /** `Message.update`, as the source's loop. Next to the new stack it
      returns, for each surviving entry, the index it had before. */
  method Update(stack: seq<Entry>) returns (s: seq<Entry>, origin: seq<nat>)
    ensures s == Pass(stack, 0)
    ensures |origin| == |s| <= |stack|
    ensures forall j, k :: 0 <= j < k < |origin| ==> origin[j] < origin[k]
    ensures forall k :: 0 <= k < |s| ==> origin[k] < |stack| && s[k].msg == stack[origin[k]].msg
    ensures forall k :: 0 <= k < |s| ==> stack[origin[k]].alpha - 0.01 <= s[k].alpha <= stack[origin[k]].alpha
    ensures forall j :: 0 <= j < |stack| && j !in origin ==> stack[j].alpha <= 0.01
  {
    origin := Indices(|stack|);
    Start(stack, origin);
    var i;
    s, origin, i := Visits(stack, stack, origin, 0);
    Finish(stack, s, origin, i);
  }

  /** The loop of `update`, from index i to the end. */
  method Visits(stack: seq<Entry>, s0: seq<Entry>, origin0: seq<nat>, i0: nat)
    returns (s: seq<Entry>, origin: seq<nat>, i: nat)
    requires Tracked(stack, s0, origin0, i0)
    ensures Tracked(stack, s, origin, i) && s == Pass(s0, i0)
  {
    s, origin, i := s0, origin0, i0;
    while i < |s|
      invariant Tracked(stack, s, origin, i)
      invariant Pass(s, i) == Pass(s0, i0)
      decreases |s| - i
    {
      s, origin := Visit(stack, s, origin, i);
      i := i + 1;
    }
    assert Pass(s, i) == s;
  }

  lemma Finish(stack: seq<Entry>, s: seq<Entry>, origin: seq<nat>, i: nat)
    requires Tracked(stack, s, origin, i)
    ensures |origin| == |s| <= |stack|
    ensures forall j, k :: 0 <= j < k < |origin| ==> origin[j] < origin[k]
    ensures forall k :: 0 <= k < |s| ==> origin[k] < |stack| && s[k].msg == stack[origin[k]].msg
    ensures forall k :: 0 <= k < |s| ==> stack[origin[k]].alpha - 0.01 <= s[k].alpha <= stack[origin[k]].alpha
    ensures forall j :: 0 <= j < |stack| && j !in origin ==> stack[j].alpha <= 0.01
  {
  }

  /** One turn of the loop: fade entry i, splicing it out when it is gone. */
  method Visit(stack: seq<Entry>, s: seq<Entry>, origin: seq<nat>, i: nat) returns (s': seq<Entry>, origin': seq<nat>)
    requires Tracked(stack, s, origin, i) && i < |s|
    ensures Tracked(stack, s', origin', i + 1)
    ensures Pass(s', i + 1) == Pass(s, i) && |s'| - i <= |s| - i
  {
    var e := s[i].(alpha := s[i].alpha - Fade(s));
    if e.alpha <= 0.0 {
      DropStep(stack, s, origin, i);
      s' := s[..i] + s[i + 1..];
      origin' := origin[..i] + origin[i + 1..];
    } else {
      KeepStep(stack, s, origin, i, e);
      s' := s[i := e];
      origin' := origin;
    }
  }

  /** 0, 1, …, n − 1. */
  function Indices(n: nat): (o: seq<nat>)
    ensures |o| == n && forall k :: 0 <= k < n ==> o[k] == k
  {
    seq(n, k => k)
  }

  lemma Start(stack: seq<Entry>, origin: seq<nat>)
    requires origin == Indices(|stack|)
    ensures Tracked(stack, stack, origin, 0)
  {
    assert forall j :: 0 <= j < |stack| ==> origin[j] == j;
  }

  lemma KeepStep(stack: seq<Entry>, s: seq<Entry>, origin: seq<nat>, i: nat, e: Entry)
    requires Tracked(stack, s, origin, i) && i < |s|
    requires e == s[i].(alpha := s[i].alpha - Fade(s)) && e.alpha > 0.0
    ensures Tracked(stack, s[i := e], origin, i + 1)
  {
  }

  lemma DropStep(stack: seq<Entry>, s: seq<Entry>, origin: seq<nat>, i: nat)
    requires Tracked(stack, s, origin, i) && i < |s|
    requires s[i].alpha - Fade(s) <= 0.0
    ensures Tracked(stack, s[..i] + s[i + 1..], origin[..i] + origin[i + 1..], i + 1)
  {
    DropKept(stack, s, origin, i);
    DropOrder(origin, i);
    DropGone(stack, s, origin, i);
  }

  lemma DropKept(stack: seq<Entry>, s: seq<Entry>, origin: seq<nat>, i: nat)
    requires Tracked(stack, s, origin, i) && i < |s|
    ensures Shifted(stack, s[..i] + s[i + 1..], origin[..i] + origin[i + 1..], i + 1)
    ensures Faded(stack, s[..i] + s[i + 1..], origin[..i] + origin[i + 1..])
  {
    var s' := s[..i] + s[i + 1..];
    var o' := origin[..i] + origin[i + 1..];
    assert forall k :: 0 <= k < i ==> s'[k] == s[k] && o'[k] == origin[k];
    assert forall k :: i <= k < |s'| ==> s'[k] == s[k + 1] && o'[k] == origin[k + 1];
  }

  lemma DropOrder(origin: seq<nat>, i: nat)
    requires i < |origin| && Increasing(origin)
    ensures Increasing(origin[..i] + origin[i + 1..])
  {
    var o' := origin[..i] + origin[i + 1..];
    forall j, k | 0 <= j < k < |o'|
      ensures o'[j] < o'[k]
    {
      var j0 := if j < i then j else j + 1;
      var k0 := if k < i then k else k + 1;
      assert o'[j] == origin[j0] && o'[k] == origin[k0];
    }
  }

  /** The entry spliced out had faded to nothing, so its opacity was at
      most one fade step. */
  lemma DropGone(stack: seq<Entry>, s: seq<Entry>, origin: seq<nat>, i: nat)
    requires Tracked(stack, s, origin, i) && i < |s|
    requires s[i].alpha - Fade(s) <= 0.0
    ensures Gone(stack, origin[..i] + origin[i + 1..])
  {
    Dropped(stack, origin, i);
    assert stack[origin[i]].alpha <= 0.01;
  }

  /** Splicing out one origin index leaves every other index in place. */
  lemma Dropped(stack: seq<Entry>, origin: seq<nat>, i: nat)
    requires i < |origin|
    ensures forall j :: j in origin && j != origin[i] ==> j in origin[..i] + origin[i + 1..]
  {
    forall j | j in origin && j != origin[i]
      ensures j in origin[..i] + origin[i + 1..]
    {
      var k :| 0 <= k < |origin| && origin[k] == j;
      if k < i {
        assert (origin[..i] + origin[i + 1..])[k] == j;
      } else {
        assert (origin[..i] + origin[i + 1..])[k - 1] == j;
      }
    }
  }

  /** An entry that fades out takes the next one's turn with it: of two
      entries, the first about to vanish, the second is left as it was. */
  lemma SpliceSkipsNext(a: Entry, b: Entry)
    requires 0.0 < a.alpha <= 0.006
    ensures Pass([a, b], 0) == [b]
  {
    assert [a, b][..0] + [a, b][1..] == [b];
  }

  /** With one entry, every pass fades it by 0.006 and removes it only once
      its opacity is gone. */
  lemma SingleFades(e: Entry)
    ensures e.alpha > 0.006 ==> Pass([e], 0) == [e.(alpha := e.alpha - 0.006)]
    ensures e.alpha <= 0.006 ==> Pass([e], 0) == []
  {
  }
}

/**
 * The inbound framing of the serial-link protocol: messages are arbitrary
 * text, each terminated by the two characters `>>`. `Split` is what the
 * client's receive loop computes from its accumulation buffer: the trimmed
 * messages, in order, and the unterminated rest that stays buffered.
 */
module Framing {
  import opened Text

  const Terminator := ">>"

  /** The frame bodies cut from a buffer, in order, and what is left over. */
  datatype Frames = Frames(bodies: seq<string>, rest: string) {
    /** The messages handed on: each body trimmed of white space. */
    function Messages(): seq<string> {
      TrimAll(bodies)
    }
  }

  /**
   * Repeatedly cut the buffer at the leftmost terminator, as the receive
   * loop does (`SplitRest` says what is left over).
   */
  function Split(buffer: string): Frames
    decreases |buffer|
  {
    var i := IndexOf(buffer, Terminator);
    if i == -1 then Frames([], buffer)
    else
      var tail := Split(buffer[i + 2..]);
      Frames([buffer[..i]] + tail.bodies, tail.rest)
  }

  /** The receive step: append a chunk to the buffer and split. */
  function Feed(buffer: string, chunk: string): Frames {
    Split(buffer + chunk)
  }

  /** One turn of the receive loop: cut at the leftmost terminator `i`. */
  lemma SplitAt(buffer: string, i: int)
    requires i == IndexOf(buffer, Terminator) && i != -1
    ensures Split(buffer) == Frames([buffer[..i]] + Split(buffer[i + 2..]).bodies, Split(buffer[i + 2..]).rest)
  {
  }

  /** Cutting `x + y` at a terminator that lies inside `x`. */
  lemma SplitAtExtended(x: string, y: string, i: int)
    requires i == IndexOf(x, Terminator) && i != -1
    requires IndexOf(x + y, Terminator) == i
    ensures Split(x + y) == Frames([x[..i]] + Split(x[i + 2..] + y).bodies, Split(x[i + 2..] + y).rest)
  {
    assert (x + y)[..i] == x[..i];
    assert (x + y)[i + 2..] == x[i + 2..] + y;
  }

  /** The receive loop stops when no terminator is left. */
  lemma SplitNone(buffer: string)
    requires !Contains(buffer, Terminator)
    ensures Split(buffer) == Frames([], buffer)
  {
  }

  /**
   * No terminator is left behind: what stays buffered holds no `>>` and is
   * the text after the last consumed terminator, a suffix of the buffer.
   */
  lemma {:induction false} SplitRest(buffer: string)
    ensures !Contains(Split(buffer).rest, Terminator)
    ensures |Split(buffer).rest| <= |buffer|
    ensures Split(buffer).rest == buffer[|buffer| - |Split(buffer).rest|..]
    decreases |buffer|
  {
    var i := IndexOf(buffer, Terminator);
    if i != -1 {
      var after := buffer[i + 2..];
      SplitAt(buffer, i);
      SplitRest(after);
      SuffixOfSuffix(buffer, i + 2, Split(after).rest);
    } else {
      SplitNone(buffer);
    }
  }

  // ---------------------------------------------------------------------
  // A reference description of a framed buffer

  /** The raw frames, each followed by its terminator. */
  function Join(raws: seq<string>): string {
    if raws == [] then [] else raws[0] + Terminator + Join(raws[1..])
  }

  /** Each frame body trimmed, in order. */
  function TrimAll(raws: seq<string>): seq<string> {
    if raws == [] then [] else [Trim(raws[0])] + TrimAll(raws[1..])
  }

  lemma {:induction false} TrimAllAppend(a: seq<string>, b: seq<string>)
    ensures TrimAll(a + b) == TrimAll(a) + TrimAll(b)
  {
    if a != [] {
      ConsAppend(a, b);
      TrimAllAppend(a[1..], b);
      AppendAssoc([Trim(a[0])], TrimAll(a[1..]), TrimAll(b));
    } else {
      AppendEmpty(b);
    }
  }

  /**
   * A frame body ends at the leftmost terminator after it: it holds no
   * `>>` and does not end in `>` (else `>>>` would end it one earlier).
   */
  predicate IsFrameBody(raw: string) {
    !Contains(raw + ">", Terminator)
  }

  /** Text without any `>` is a frame body. */
  lemma NoAngleIsFrameBody(raw: string)
    requires Lacks(raw, '>')
    ensures IsFrameBody(raw)
  {
    forall k | 0 <= k && k + 2 <= |raw| + 1 ensures !OccursAt(raw + ">", Terminator, k) {
      assert (raw + ">")[k..k + 2][0] == (raw + ">")[k] == raw[k];
    }
    ContainsIff(raw + ">", Terminator);
  }

  /**
   * Any way of writing the buffer as terminated frame bodies followed by an
   * unterminated rest is the one `Split` finds: it cuts exactly those
   * bodies, in order, and keeps the rest as it is.
   */
  lemma {:induction false} SplitCharacterised(raws: seq<string>, rest: string)
    requires forall k :: 0 <= k < |raws| ==> IsFrameBody(raws[k])
    requires !Contains(rest, Terminator)
    ensures Split(Join(raws) + rest) == Frames(raws, rest)
  {
    if raws == [] {
      AppendEmpty(rest);
      SplitNone(rest);
    } else {
      JoinFirst(raws, rest);
      FrameBodyCut(raws[0], Join(raws[1..]) + rest);
      SplitCharacterised(raws[1..], rest);
      assert [raws[0]] + raws[1..] == raws;
    }
  }

  lemma JoinFirst(raws: seq<string>, rest: string)
    requires raws != []
    ensures Join(raws) + rest == raws[0] + Terminator + (Join(raws[1..]) + rest)
  {
    AppendAssoc(raws[0] + Terminator, Join(raws[1..]), rest);
  }

  /** A frame body followed by a terminator is cut there. */
  lemma FrameBodyCut(raw: string, tail: string)
    requires IsFrameBody(raw)
    ensures Split(raw + Terminator + tail) == Frames([raw] + Split(tail).bodies, Split(tail).rest)
  {
    var buffer := raw + Terminator + tail;
    FirstTerminatorAfterBody(raw, tail);
    SplitAt(buffer, |raw|);
    assert buffer[..|raw|] == raw;
    assert buffer[|raw| + 2..] == tail;
  }

  /** The leftmost terminator after a frame body is the one that ends it. */
  lemma FirstTerminatorAfterBody(raw: string, tail: string)
    requires IsFrameBody(raw)
    ensures IndexOf(raw + Terminator + tail, Terminator) == |raw|
  {
    var buffer := raw + Terminator + tail;
    assert buffer[..|raw| + 1] == raw + ">";
    assert buffer[|raw|..|raw| + 2] == Terminator;
    forall k | 0 <= k < |raw|
      ensures !OccursAt(buffer, Terminator, k)
    {
      OccursInWindow(buffer, raw + ">", Terminator, k, |raw| + 1);
      ContainsIff(raw + ">", Terminator);
    }
    IndexOfFromIsFirst(buffer, Terminator, 0, |raw|);
  }

  /**
   * Conversely, what `Split` cuts is such a decomposition: every body is a
   * frame body, and the bodies with their terminators, followed by the
   * rest, give back the buffer.
   */
  lemma {:induction false} SplitDecomposes(buffer: string)
    ensures forall k :: 0 <= k < |Split(buffer).bodies| ==> IsFrameBody(Split(buffer).bodies[k])
    ensures buffer == Join(Split(buffer).bodies) + Split(buffer).rest
    decreases |buffer|
  {
    var i := IndexOf(buffer, Terminator);
    if i == -1 {
      assert Split(buffer) == Frames([], buffer);
      assert Join([]) + buffer == buffer;
    } else {
      var raw := buffer[..i];
      var after := buffer[i + 2..];
      FirstCutIsFrameBody(buffer, i);
      SplitAt(buffer, i);
      SplitDecomposes(after);
      var f := Split(after);
      JoinCons(raw, f.bodies, f.rest);
      forall k | 0 <= k < |[raw] + f.bodies|
        ensures IsFrameBody(([raw] + f.bodies)[k])
      {
        if k > 0 {
          assert ([raw] + f.bodies)[k] == f.bodies[k - 1];
        }
      }
    }
  }

  lemma JoinCons(raw: string, bodies: seq<string>, rest: string)
    ensures Join([raw] + bodies) + rest == raw + Terminator + (Join(bodies) + rest)
  {
    assert ([raw] + bodies)[1..] == bodies;
  }

  /** The text before the leftmost terminator is a frame body. */
  lemma FirstCutIsFrameBody(buffer: string, i: int)
    requires i == IndexOf(buffer, Terminator) && i != -1
    ensures IsFrameBody(buffer[..i])
    ensures buffer == buffer[..i] + Terminator + buffer[i + 2..]
  {
    var raw := buffer[..i];
    IndexOfFromFound(buffer, Terminator, 0);
    assert buffer[i..i + 2] == Terminator;
    assert buffer[..i + 1] == raw + ">";
    forall k | 0 <= k
      ensures !OccursAt(raw + ">", Terminator, k)
    {
      if OccursAt(raw + ">", Terminator, k) {
        OccursInWindow(buffer, raw + ">", Terminator, k, i + 1);
        assert false;
      }
    }
    ContainsIff(raw + ">", Terminator);
  }

  /**
   * The buffer after a split is determined by the text after the last
   * consumed terminator: cutting `x` first and then feeding `y` to what is
   * left yields the same frames and rest as splitting `x + y` at once.
   */
  lemma {:induction false} SplitAppend(x: string, y: string)
    ensures Split(x + y).bodies == Split(x).bodies + Split(Split(x).rest + y).bodies
    ensures Split(x + y).rest == Split(Split(x).rest + y).rest
    decreases |x|
  {
    var i := IndexOf(x, Terminator);
    if i != -1 {
      SplitAppend(x[i + 2..], y);
      SplitAppendCut(x, y, i);
    } else {
      SplitNone(x);
      assert [] + Split(x + y).bodies == Split(x + y).bodies;
    }
  }

  /** The step of `SplitAppend`: the first cut of `x` is the first cut of `x + y`. */
  lemma SplitAppendCut(x: string, y: string, i: int)
    requires i == IndexOf(x, Terminator) && i != -1
    requires Split(x[i + 2..] + y).bodies == Split(x[i + 2..]).bodies + Split(Split(x[i + 2..]).rest + y).bodies
    requires Split(x[i + 2..] + y).rest == Split(Split(x[i + 2..]).rest + y).rest
    ensures Split(x + y).bodies == Split(x).bodies + Split(Split(x).rest + y).bodies
    ensures Split(x + y).rest == Split(Split(x).rest + y).rest
  {
    IndexOfExtend(x, y, Terminator);
    var after := x[i + 2..];
    SplitAt(x, i);
    SplitAtExtended(x, y, i);
    var head := [x[..i]];
    var fa := Split(after);
    var z := Split(fa.rest + y);
    AppendAssoc(head, fa.bodies, z.bodies);
  }

  /**
   * Chunk independence: feeding `a` and then `b` yields the same messages
   * and the same final buffer as feeding `a + b` once.
   */
  lemma FeedTwice(buffer: string, a: string, b: string)
    ensures Feed(buffer, a).Messages() + Feed(Feed(buffer, a).rest, b).Messages() == Feed(buffer, a + b).Messages()
    ensures Feed(Feed(buffer, a).rest, b).rest == Feed(buffer, a + b).rest
  {
    assert buffer + (a + b) == (buffer + a) + b;
    SplitAppend(buffer + a, b);
    TrimAllAppend(Feed(buffer, a).bodies, Feed(Feed(buffer, a).rest, b).bodies);
  }

  /** Feeding chunks one at a time, as successive reads deliver them. */
  function FeedAll(buffer: string, chunks: seq<string>): Frames
    decreases |chunks|
  {
    if chunks == [] then Frames([], buffer)
    else
      var first := Feed(buffer, chunks[0]);
      var after := FeedAll(first.rest, chunks[1..]);
      Frames(first.bodies + after.bodies, after.rest)
  }

  function Concat(chunks: seq<string>): string {
    if chunks == [] then [] else chunks[0] + Concat(chunks[1..])
  }

  /**
   * However the stream is cut into chunks, the frames and the final buffer
   * are those of the whole stream fed at once (from a buffer that holds no
   * terminator, as the client's always does between reads).
   */
  lemma {:induction false} FeedAllIsFeedConcat(buffer: string, chunks: seq<string>)
    requires !Contains(buffer, Terminator)
    ensures FeedAll(buffer, chunks) == Feed(buffer, Concat(chunks))
    decreases |chunks|
  {
    if chunks == [] {
      assert buffer + [] == buffer;
      assert Split(buffer) == Frames([], buffer);
    } else {
      var first := Feed(buffer, chunks[0]);
      SplitRest(buffer + chunks[0]);
      FeedAllIsFeedConcat(first.rest, chunks[1..]);
      assert buffer + (chunks[0] + Concat(chunks[1..])) == (buffer + chunks[0]) + Concat(chunks[1..]);
      SplitAppend(buffer + chunks[0], Concat(chunks[1..]));
    }
  }
}

/**
 The sequential semantics of the tracing collector's capture buffer, as values.

 A `State` is what the collector and its writers share: the bytes captured since the
 last drain, and the prefix character that the next render puts in front of its text.
 `Apply` is one operation on that state (a writer's write or flush, a prefix change, a
 clear, a render) and `Run` a sequence of them. Rendering drains the buffer; turning the
 drained bytes into text goes through two foreign steps, ANSI escape stripping and UTF-8
 decoding, which are kept abstract as the two functions of a `Cleaner`.
 */
module Capture {

  type Byte = bv8

  datatype Option<T> = None | Some(value: T)

  datatype Result<T, E> = Ok(value: T) | Err(error: E)

  /** Why a render fails: the escape stripper rejected the bytes, or what it
      left is not valid UTF-8. */
  datatype RenderError = StripFailed | InvalidUtf8

  /** The prefix a new collector starts with: U+33D2, SQUARE LOG. */
  const DefaultPrefix: char := '\U{33D2}'

  /** The two foreign steps of rendering: removing terminal escape sequences
      from raw bytes, and decoding the remaining bytes as UTF-8 text. Each
      reports failure with `None`. */
  datatype Cleaner = Cleaner(strip: seq<Byte> -> Option<seq<Byte>>, decode: seq<Byte> -> Option<string>)

  /** True when both foreign steps succeed on `drained`. */
  predicate Cleans(cl: Cleaner, drained: seq<Byte>)
  {
    cl.strip(drained).Some? && cl.decode(cl.strip(drained).value).Some?
  }

  /** The text that the foreign steps make of `drained`. */
  function CleanedText(cl: Cleaner, drained: seq<Byte>): (text: string)
    requires Cleans(cl, drained)
  {
    cl.decode(cl.strip(drained).value).value
  }

  /** The prefix, when there is one, followed by the text. */
  function WithPrefix(prefix: Option<char>, text: string): (r: string)
    ensures prefix.None? ==> r == text
    ensures prefix.Some? ==> |r| == |text| + 1 && r[0] == prefix.value && r[1..] == text
  {
    match prefix
    case None => text
    case Some(c) => [c] + text
  }

  /** What a render produces from the bytes it drained, with the prefix in
      effect at the moment of rendering. */
  function RenderText(prefix: Option<char>, drained: seq<Byte>, cl: Cleaner): (r: Result<string, RenderError>)
    ensures r.Ok? <==> Cleans(cl, drained)
    ensures r == Err(StripFailed) <==> cl.strip(drained).None?
    ensures r.Ok? ==> r.value == WithPrefix(prefix, CleanedText(cl, drained))
  {
    match cl.strip(drained)
    case None => Err(StripFailed)
    case Some(stripped) =>
      match cl.decode(stripped)
      case None => Err(InvalidUtf8)
      case Some(cleaned) => Ok(WithPrefix(prefix, cleaned))
  }

  /** The prefix only ever adds one character in front of the cleaned text:
      the same bytes render with prefix `c` exactly as without a prefix, with
      `c` put in front, and fail in the same way. */
  lemma PrefixOnlyAtHead(c: char, drained: seq<Byte>, cl: Cleaner)
    ensures RenderText(Some(c), drained, cl).Ok? == RenderText(None, drained, cl).Ok?
    ensures RenderText(Some(c), drained, cl).Err? ==> RenderText(Some(c), drained, cl) == RenderText(None, drained, cl)
    ensures RenderText(Some(c), drained, cl).Ok? ==>
              RenderText(Some(c), drained, cl).value == [c] + RenderText(None, drained, cl).value
  {
  }

  /** When the foreign steps map no bytes to no text, an empty drain renders
      as the prefix alone, or as the empty string when there is no prefix. */
  lemma EmptyDrainRendersPrefixOnly(prefix: Option<char>, cl: Cleaner)
    requires cl.strip([]) == Some([]) && cl.decode([]) == Some([])
    ensures RenderText(prefix, [], cl) == Ok(if prefix.Some? then [prefix.value] else [])
  {
    if prefix.Some? {
      assert [prefix.value] + [] == [prefix.value];
    }
  }

  // ---------------------------------------------------------------------------
  // The shared state and the operations on it
  // ---------------------------------------------------------------------------

  /** The captured bytes since the last drain, and the collector's prefix. */
  datatype State = State(buf: seq<Byte>, prefix: Option<char>)

  /** The state of a freshly constructed collector: nothing captured, and
      the default prefix. */
  function Initial(): (s: State)
    ensures s.buf == [] && s.prefix == Some(DefaultPrefix)
  {
    State([], Some(DefaultPrefix))
  }

  /** The operations of the core: `Write` and `Flush` are performed by a
      writer handed to the logging framework, the others by the collector. */
  datatype Op =
    | Write(bytes: seq<Byte>)
    | Flush
    | SetPrefix(c: char)
    | RemovePrefix
    | Clear
    | Render

  /** What one operation reports to its caller. A render reports the prefix
      it used and the bytes it drained; `RenderText` turns those into text. */
  datatype Reply = Written(n: nat) | Done | Rendered(prefix: Option<char>, drained: seq<Byte>)

  datatype Step = Step(next: State, reply: Reply)

  /** One operation. No byte is lost or duplicated by it: what it takes out
      followed by what stays equals what was there followed by what it writes.
      Only a prefix change touches the prefix, only a write reports a count,
      and only a render produces something to render: the prefix in effect and
      every byte captured before it. */
  function Apply(s: State, op: Op): (r: Step)
    ensures Removed(s, op) + r.next.buf == s.buf + (if op.Write? then op.bytes else [])
    ensures r.next.prefix == (if op.SetPrefix? then Some(op.c) else if op.RemovePrefix? then None else s.prefix)
    ensures r.reply.Written? <==> op.Write?
    ensures r.reply.Written? ==> r.reply.n == |op.bytes|
    ensures r.reply.Rendered? <==> op.Render?
    ensures r.reply.Rendered? ==> r.reply == Rendered(s.prefix, s.buf) && r.next.buf == []
  {
    match op
    case Write(bytes) => Step(s.(buf := s.buf + bytes), Written(|bytes|))
    case Flush => Step(s, Done)
    case SetPrefix(c) => Step(s.(prefix := Some(c)), Done)
    case RemovePrefix => Step(s.(prefix := None), Done)
    case Clear => Step(s.(buf := []), Done)
    case Render => Step(s.(buf := []), Rendered(s.prefix, s.buf))
  }

  /** The bytes an operation takes out of the buffer: all of them for a clear
      or a render, none otherwise. */
  function Removed(s: State, op: Op): (removed: seq<Byte>)
  {
    if op.Clear? || op.Render? then s.buf else []
  }

  /** The state after a sequence of operations. */
  function Run(s: State, ops: seq<Op>): (t: State)
    decreases |ops|
  {
    if ops == [] then s else Run(Apply(s, ops[0]).next, ops[1..])
  }

  /** The replies to a sequence of operations, in order. */
  function Replies(s: State, ops: seq<Op>): (replies: seq<Reply>)
    decreases |ops|
  {
    if ops == [] then [] else [Apply(s, ops[0]).reply] + Replies(Apply(s, ops[0]).next, ops[1..])
  }

  /** Every byte taken out of the buffer by a sequence of operations, in order. */
  function Consumed(s: State, ops: seq<Op>): (consumed: seq<Byte>)
    decreases |ops|
  {
    if ops == [] then [] else Removed(s, ops[0]) + Consumed(Apply(s, ops[0]).next, ops[1..])
  }

  /** The operations that neither drain nor clear the buffer. */
  predicate Quiet(op: Op)
  {
    op.Write? || op.Flush? || op.SetPrefix? || op.RemovePrefix?
  }

  /** Every byte written by a sequence of operations, in order. */
  function BytesOf(ops: seq<Op>): (written: seq<Byte>)
    decreases |ops|
  {
    if ops == [] then [] else (if ops[0].Write? then ops[0].bytes else []) + BytesOf(ops[1..])
  }

  /** The prefix after a sequence of operations that started with `p`. */
  function LastPrefix(p: Option<char>, ops: seq<Op>): (last: Option<char>)
    decreases |ops|
  {
    if ops == [] then p
    else LastPrefix(match ops[0] case SetPrefix(c) => Some(c) case RemovePrefix => None case _ => p, ops[1..])
  }

  /** The operations that write each of `chunks`, in order. */
  function Writes(chunks: seq<seq<Byte>>): (ops: seq<Op>)
    decreases |chunks|
  {
    if chunks == [] then [] else [Write(chunks[0])] + Writes(chunks[1..])
  }

  /** The chunks joined end to end. */
  function Concat(chunks: seq<seq<Byte>>): (joined: seq<Byte>)
    decreases |chunks|
  {
    if chunks == [] then [] else chunks[0] + Concat(chunks[1..])
  }

  // ---------------------------------------------------------------------------
  // Properties of single operations
  // ---------------------------------------------------------------------------

  /** A write appends its bytes after those already captured and reports all
      of them written; the prefix is untouched. */
  lemma WriteAppends(s: State, bytes: seq<Byte>)
    ensures Apply(s, Write(bytes)).next.buf[..|s.buf|] == s.buf
    ensures Apply(s, Write(bytes)).next.buf[|s.buf|..] == bytes
    ensures Apply(s, Write(bytes)).next.prefix == s.prefix
    ensures Apply(s, Write(bytes)).reply == Written(|bytes|)
  {
  }

  /** Prefix changes touch the prefix only; flush touches nothing. */
  lemma OnlyPrefixChanges(s: State, c: char)
    ensures Apply(s, SetPrefix(c)).next == State(s.buf, Some(c))
    ensures Apply(s, RemovePrefix).next == State(s.buf, None)
    ensures Apply(s, Flush).next == s
  {
  }

  // ---------------------------------------------------------------------------
  // Properties of sequences of operations
  // ---------------------------------------------------------------------------

  /** Running two sequences one after the other is running their concatenation. */
  lemma {:induction false} RunAppend(s: State, a: seq<Op>, b: seq<Op>)
    ensures Run(s, a + b) == Run(Run(s, a), b)
    ensures Replies(s, a + b) == Replies(s, a) + Replies(Run(s, a), b)
    ensures Consumed(s, a + b) == Consumed(s, a) + Consumed(Run(s, a), b)
    decreases |a|
  {
    if a == [] {
      assert a + b == b;
    } else {
      var t := Apply(s, a[0]).next;
      assert (a + b)[0] == a[0];
      assert (a + b)[1..] == a[1..] + b;
      RunAppend(t, a[1..], b);
    }
  }

  /** No byte is lost and none is duplicated: what clears and renders took out,
      followed by what is still captured, is exactly what was captured at the
      start followed by everything written, in write order. */
  lemma {:induction false} Conservation(s: State, ops: seq<Op>)
    ensures Consumed(s, ops) + Run(s, ops).buf == s.buf + BytesOf(ops)
    decreases |ops|
  {
    if ops != [] {
      var t := Apply(s, ops[0]).next;
      Conservation(t, ops[1..]);
      var w := if ops[0].Write? then ops[0].bytes else [];
      assert Removed(s, ops[0]) + t.buf == s.buf + w;
      calc {
        Consumed(s, ops) + Run(s, ops).buf;
        (Removed(s, ops[0]) + Consumed(t, ops[1..])) + Run(t, ops[1..]).buf;
        Removed(s, ops[0]) + (Consumed(t, ops[1..]) + Run(t, ops[1..]).buf);
        Removed(s, ops[0]) + (t.buf + BytesOf(ops[1..]));
        (Removed(s, ops[0]) + t.buf) + BytesOf(ops[1..]);
        (s.buf + w) + BytesOf(ops[1..]);
        s.buf + (w + BytesOf(ops[1..]));
      }
    }
  }

  /** Between two drains the buffer only grows, by the written bytes in write
      order, and the prefix is whichever was set last; nothing is taken out and
      nothing is rendered. */
  lemma {:induction false} QuietRun(s: State, ops: seq<Op>)
    requires forall i :: 0 <= i < |ops| ==> Quiet(ops[i])
    ensures Run(s, ops) == State(s.buf + BytesOf(ops), LastPrefix(s.prefix, ops))
    ensures Consumed(s, ops) == []
    ensures forall i :: 0 <= i < |Replies(s, ops)| ==> !Replies(s, ops)[i].Rendered?
    decreases |ops|
  {
    if ops != [] {
      var t := Apply(s, ops[0]).next;
      QuietRun(t, ops[1..]);
      var w := if ops[0].Write? then ops[0].bytes else [];
      assert t.buf == s.buf + w;
      assert s.buf + BytesOf(ops) == (s.buf + w) + BytesOf(ops[1..]);
      var rs := Replies(s, ops);
      assert rs == [Apply(s, ops[0]).reply] + Replies(t, ops[1..]);
      forall i | 0 <= i < |rs| ensures !rs[i].Rendered? {
        if i > 0 {
          assert rs[i] == Replies(t, ops[1..])[i - 1];
        }
      }
    }
  }

  /** A render drains exactly the bytes present before it: those captured at
      the last drain plus everything written since, in write order. It uses the
      prefix in effect at render time, whatever it was when the bytes were
      written, and leaves the buffer empty. */
  lemma RenderDrainsAll(s: State, ops: seq<Op>)
    requires forall i :: 0 <= i < |ops| ==> Quiet(ops[i])
    ensures Run(s, ops + [Render]) == State([], LastPrefix(s.prefix, ops))
    ensures Replies(s, ops + [Render])
         == Replies(s, ops) + [Rendered(LastPrefix(s.prefix, ops), s.buf + BytesOf(ops))]
  {
    RunAppend(s, ops, [Render]);
    QuietRun(s, ops);
  }

  /** Writing chunks one by one captures their concatenation. */
  lemma {:induction false} BytesOfWrites(chunks: seq<seq<Byte>>)
    ensures BytesOf(Writes(chunks)) == Concat(chunks)
    ensures |Writes(chunks)| == |chunks|
    ensures forall i :: 0 <= i < |Writes(chunks)| ==> Writes(chunks)[i] == Write(chunks[i])
    decreases |chunks|
  {
    if chunks != [] {
      BytesOfWrites(chunks[1..]);
      var ops := Writes(chunks);
      assert ops[0] == Write(chunks[0]);
      assert ops[1..] == Writes(chunks[1..]);
    }
  }

  /** Several writes followed by one render, starting from an empty buffer
      with prefix `p` (a fresh collector, or one just rendered): the render
      drains the concatenation of the writes in write order, with `p` once, and
      leaves the collector in the state it started from, ready for the next
      round of writes and render. */
  lemma WritesThenRender(p: Option<char>, chunks: seq<seq<Byte>>)
    ensures |Replies(State([], p), Writes(chunks) + [Render])| == |chunks| + 1
    ensures Replies(State([], p), Writes(chunks) + [Render])[|chunks|] == Rendered(p, Concat(chunks))
    ensures Run(State([], p), Writes(chunks) + [Render]) == State([], p)
  {
    BytesOfWrites(chunks);
    var ops := Writes(chunks);
    assert forall i :: 0 <= i < |ops| ==> Quiet(ops[i]);
    RenderDrainsAll(State([], p), ops);
    PrefixUnchangedByWrites(p, chunks);
    RepliesLength(State([], p), ops);
  }

  lemma {:induction false} PrefixUnchangedByWrites(p: Option<char>, chunks: seq<seq<Byte>>)
    ensures LastPrefix(p, Writes(chunks)) == p
    decreases |chunks|
  {
    if chunks != [] {
      PrefixUnchangedByWrites(p, chunks[1..]);
      assert Writes(chunks)[1..] == Writes(chunks[1..]);
    }
  }

  /** There is one reply per operation. */
  lemma {:induction false} RepliesLength(s: State, ops: seq<Op>)
    ensures |Replies(s, ops)| == |ops|
    decreases |ops|
  {
    if ops != [] {
      RepliesLength(Apply(s, ops[0]).next, ops[1..]);
    }
  }

  /** Rendering is destructive: a second render with nothing written in
      between drains nothing. */
  lemma RenderTwice(s: State)
    ensures Replies(s, [Render, Render]) == [Rendered(s.prefix, s.buf), Rendered(s.prefix, [])]
    ensures Run(s, [Render, Render]).buf == []
  {
  }

  /** A clear discards the buffer without producing output, so a render right
      after it drains nothing. */
  lemma ClearThenRender(s: State)
    ensures Replies(s, [Clear, Render]) == [Done, Rendered(s.prefix, [])]
    ensures Consumed(s, [Clear, Render]) == s.buf
  {
  }
}

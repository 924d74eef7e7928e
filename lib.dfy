/**
 The tracing collector as objects: one shared byte buffer, the writers handed to the
 logging framework, and the collector that owns the prefix and renders the buffer.

 Every writer and the collector hold a reference to the same `SharedBuffer`, so a
 byte written through any writer is seen by the collector's next render. The
 collector's observable state is `Model()`, a `Capture.State`, and each of its
 operations is proved to move that state exactly as `Capture.Apply` says.
 */
module Lib {
  import opened Capture

  /** The shared `Vec<u8>` behind the collector and all its writers. */
  class SharedBuffer {
    var bytes: seq<Byte>

    constructor ()
      ensures bytes == []
    {
      bytes := [];
    }

    /** Appends `data` and reports every byte written. */
    method Write(data: seq<Byte>) returns (n: nat)
      modifies this
      ensures bytes == old(bytes) + data
      ensures n == |data|
    {
      bytes := bytes + data;
      n := |data|;
    }

    /** Discards the contents. */
    method Clear()
      modifies this
      ensures bytes == []
    {
      bytes := [];
    }

    /** Exchanges the contents for an empty buffer and returns what was there. */
    method SwapOut() returns (taken: seq<Byte>)
      modifies this
      ensures taken == old(bytes)
      ensures bytes == []
    {
      taken := bytes;
      bytes := [];
    }
  }

  /** A writer that the logging framework writes formatted records into. */
  class CollectingWriter {
    const buf: SharedBuffer

    /** A writer into the given buffer; it does not copy the buffer. */
    constructor (buf: SharedBuffer)
      ensures this.buf == buf
    {
      this.buf := buf;
    }

    /** Appends the bytes to the shared buffer and reports them all written. */
    method Write(data: seq<Byte>) returns (n: nat)
      modifies buf
      ensures buf.bytes == old(buf.bytes) + data
      ensures n == |data|
    {
      n := buf.Write(data);
    }

    /** There is nothing further to flush to; the buffer is left as it is. */
    method Flush()
      ensures buf.bytes == old(buf.bytes)
    {
    }

    /** Another writer over the same shared buffer. */
    method MakeWriter() returns (w: CollectingWriter)
      ensures fresh(w)
      ensures w.buf == buf
    {
      w := new CollectingWriter(buf);
    }
  }

  class TracingCollector {
    const buf: SharedBuffer
    var prefix: Option<char>

    /** The collector's state: the captured bytes and the prefix. */
    function Model(): State
      reads this, buf
    {
      State(buf.bytes, prefix)
    }

    /** A collector with a new, empty buffer and the default prefix. */
    constructor ()
      ensures fresh(buf)
      ensures Model() == Initial()
    {
      buf := new SharedBuffer();
      prefix := Some(DefaultPrefix);
    }

    /** A new collector, together with the writer over its buffer that is
        given to the logging framework as the capture half of its output. */
    static method Init() returns (c: TracingCollector, saver: CollectingWriter)
      ensures fresh(c) && fresh(c.buf) && fresh(saver)
      ensures saver.buf == c.buf
      ensures c.Model() == Initial()
    {
      c := new TracingCollector();
      saver := new CollectingWriter(c.buf);
    }

    method SetPrefix(p: char)
      modifies this
      ensures Model() == Apply(old(Model()), Op.SetPrefix(p)).next
    {
      prefix := Some(p);
    }

    method RemovePrefix()
      modifies this
      ensures Model() == Apply(old(Model()), Op.RemovePrefix).next
    {
      prefix := None;
    }

    /** Discards everything captured, without rendering it. */
    method Clear()
      modifies buf
      ensures Model() == Apply(old(Model()), Op.Clear).next
    {
      buf.Clear();
    }

    /** The textual form of the collector: drains the buffer first, then
        cleans the drained bytes and puts the current prefix in front. */
    method Render(cl: Cleaner) returns (r: Result<string, RenderError>)
      modifies buf
      ensures Model() == Apply(old(Model()), Op.Render).next
      ensures r == RenderText(prefix, old(buf.bytes), cl)
    {
      var drained := buf.SwapOut();
      match cl.strip(drained)
      case None =>
        r := Err(StripFailed);
      case Some(stripped) =>
        match cl.decode(stripped)
        case None =>
          r := Err(InvalidUtf8);
        case Some(cleaned) =>
          match prefix
          case Some(c) =>
            r := Ok([c] + cleaned);
          case None =>
            r := Ok(cleaned);
    }

    /** Tears the collector down: the captured bytes are discarded without
        output, exactly as a clear discards them. */
    method Drop()
      modifies buf
      ensures Model() == Apply(old(Model()), Op.Clear).next
    {
      buf.Clear();
    }
  }

  // ---------------------------------------------------------------------------
  // Clients: what a test can conclude from the contracts above
  // ---------------------------------------------------------------------------

  /** The scenario of the crate's own test: one record is written and
      rendered, then two records are written, through two writers over the
      same buffer, and rendered together. Each render starts with the default
      prefix once and holds exactly the bytes written since the previous one. */
  method LogsScenario(first: seq<Byte>, second: seq<Byte>, third: seq<Byte>, cl: Cleaner)
    returns (out1: Result<string, RenderError>, out2: Result<string, RenderError>)
    ensures out1 == RenderText(Some(DefaultPrefix), first, cl)
    ensures out2 == RenderText(Some(DefaultPrefix), second + third, cl)
  {
    var log, saver := TracingCollector.Init();
    var n := saver.Write(first);
    assert log.buf.bytes == first;
    out1 := log.Render(cl);
    var other := saver.MakeWriter();
    n := other.Write(second);
    n := saver.Write(third);
    assert log.buf.bytes == second + third;
    out2 := log.Render(cl);
  }

  /** A prefix set after the bytes were captured is the one the render uses. */
  method PrefixAtRenderTime(bytes: seq<Byte>, c: char, cl: Cleaner)
    returns (withPrefix: Result<string, RenderError>, without: Result<string, RenderError>)
    ensures withPrefix == RenderText(Some(c), bytes, cl)
    ensures without == RenderText(None, bytes, cl)
  {
    var log, saver := TracingCollector.Init();
    var n := saver.Write(bytes);
    assert log.buf.bytes == bytes;
    log.SetPrefix(c);
    withPrefix := log.Render(cl);
    n := saver.Write(bytes);
    assert log.buf.bytes == bytes;
    log.RemovePrefix();
    without := log.Render(cl);
  }

  /** What is cleared is never rendered, and a second render right after a
      first one drains nothing. */
  method DrainsAreDestructive(bytes: seq<Byte>, cl: Cleaner)
    returns (afterClear: Result<string, RenderError>, first: Result<string, RenderError>, second: Result<string, RenderError>)
    ensures afterClear == RenderText(Some(DefaultPrefix), [], cl)
    ensures first == RenderText(Some(DefaultPrefix), bytes, cl)
    ensures second == RenderText(Some(DefaultPrefix), [], cl)
  {
    var log, saver := TracingCollector.Init();
    var n := saver.Write(bytes);
    log.Clear();
    afterClear := log.Render(cl);
    n := saver.Write(bytes);
    assert log.buf.bytes == bytes;
    saver.Flush();
    first := log.Render(cl);
    second := log.Render(cl);
  }

  /** A render right after a render yields the prefix alone, or the empty
      string when the prefix was removed, given that the foreign steps map no
      bytes to no text. */
  method SecondRenderIsPrefixOnly(bytes: seq<Byte>, p: Option<char>, cl: Cleaner)
    returns (first: Result<string, RenderError>, second: Result<string, RenderError>)
    requires cl.strip([]) == Some([]) && cl.decode([]) == Some([])
    ensures first == RenderText(p, bytes, cl)
    ensures second == Ok(if p.Some? then [p.value] else [])
  {
    var log, saver := TracingCollector.Init();
    match p {
      case Some(c) => log.SetPrefix(c);
      case None => log.RemovePrefix();
    }
    var n := saver.Write(bytes);
    assert log.buf.bytes == bytes;
    first := log.Render(cl);
    second := log.Render(cl);
    EmptyDrainRendersPrefixOnly(p, cl);
  }
}

# tracing-collector: a verified model of the capture buffer

`tracing-collector` is a test aid for Rust: a `TracingCollector` installs a
tracing subscriber whose output is copied into an in-memory byte buffer, and
turning the collector into a string ("rendering" it) drains that buffer,
strips ANSI escape sequences, decodes the rest as UTF-8 and puts a prefix
character (by default `㏒`, U+33D2) in front.

This project models the sequential semantics of that buffer and of the
collector's operations in Dafny, and proves them:

- `capture.dfy`, module `Capture`: the state shared by the collector and its
  writers as a value (`State`: captured bytes and prefix), each operation as a
  step (`Apply`), sequences of operations (`Run`, `Replies`, `Consumed`), the
  text a render produces (`RenderText`), and lemmas about all of these.
  The two foreign steps of rendering, escape stripping and UTF-8 decoding, are
  the two function values of a `Cleaner`; their failures are the errors
  `StripFailed` and `InvalidUtf8`.
- `lib.dfy`, module `Lib`: the objects of `src/lib.rs`. `SharedBuffer` is the
  shared `Vec<u8>`; every `CollectingWriter` and the `TracingCollector` hold a
  reference to the same `SharedBuffer` object, so aliasing is explicit. Each
  collector method is proved to change `Model()` exactly as `Capture.Apply`
  says (`Drop` moves it as a clear does). Four client methods replay the
  crate's own test and three further scenarios using nothing but those
  contracts and the lemmas of `Capture`.

The properties proved include: a write appends its bytes in order and reports
them all written; prefix changes and flush touch nothing else; a render drains
exactly the bytes present before it, in write order, uses the prefix in effect
at render time (once, at the head), and leaves the buffer empty; a clear
discards without output; a second render with no writes in between drains
nothing; and over any sequence of operations no byte is lost or duplicated
(what was cleared or rendered, followed by what remains, is what was there
plus everything written).

## Model

| member | source | states |
|---|---|---|
| `Capture.Initial` | src/lib.rs:61-67 | the state of a new collector: nothing captured and the prefix `Some('㏒')` |
| `Capture.Apply` | src/lib.rs:118-178 | the step of each operation: write appends and reports its byte count, flush and prefix changes leave the buffer alone, clear and render empty it; what a step removes followed by what stays is what was there followed by what it writes; only `set_prefix`/`remove_prefix` touch the prefix; only a render yields output, made of the prefix in effect and every byte captured before it |
| `Capture.WithPrefix` | src/lib.rs:130-134 | with a prefix the text is that one character followed by the cleaned text; without one it is the cleaned text alone |
| `Capture.RenderText` | src/lib.rs:128-134 | a render succeeds exactly when stripping and decoding both succeed; a strip failure is reported as such; on success the text is the prefix followed by the decoded, stripped bytes |
| `Capture.PrefixOnlyAtHead` | src/lib.rs:130-134 | the prefix adds exactly one character at the head of the rendered text and never changes whether the render fails |
| `Capture.EmptyDrainRendersPrefixOnly` | src/lib.rs:125-134 | when both foreign steps map no bytes to no text, an empty drain renders as the prefix alone, or as the empty string without a prefix |
| `Capture.WriteAppends` | src/lib.rs:169-174 | a write leaves the old bytes in place, puts the new bytes after them, keeps the prefix and reports the number of bytes written |
| `Capture.OnlyPrefixChanges` | src/lib.rs:69-75 | `set_prefix` and `remove_prefix` change the prefix and leave the buffer as it was; flush changes nothing |
| `Capture.Conservation` | src/lib.rs:118-174 | over any sequence of operations, the bytes taken out by clears and renders followed by the bytes still captured equal the bytes captured at the start followed by every byte written, in order |
| `Capture.QuietRun` | src/lib.rs:168-178 | between drains the buffer only grows by the written bytes in write order, the prefix is the last one set, and nothing is taken out or rendered |
| `Capture.RenderDrainsAll` | src/lib.rs:125-134 | a render after any writes and prefix changes drains exactly the bytes present before it, with the prefix in effect at render time, and leaves the buffer empty |
| `Capture.WritesThenRender` | tests/test.rs:5-24 | from an empty buffer with prefix `p` (a fresh collector, or one just rendered), several writes followed by one render drain their concatenation in write order with `p` once, and return the collector to that same state, so each round of the test's write-then-render behaves alike |
| `Capture.RenderTwice` | src/lib.rs:125-127 | a second render with no writes in between drains nothing |
| `Capture.ClearThenRender` | src/lib.rs:118-120 | a clear produces no output and takes out all captured bytes; a render right after it drains nothing |
| `Lib.SharedBuffer.constructor` | src/lib.rs:63 | a new buffer is empty |
| `Lib.SharedBuffer.Write` | src/lib.rs:173 | appends the bytes after the old contents and reports all of them written |
| `Lib.SharedBuffer.Clear` | src/lib.rs:119 | empties the buffer |
| `Lib.SharedBuffer.SwapOut` | src/lib.rs:125-127 | returns the old contents and leaves the buffer empty |
| `Lib.CollectingWriter.constructor` | src/lib.rs:154-156 | the writer refers to the given buffer object itself |
| `Lib.CollectingWriter.Write` | src/lib.rs:169-174 | the shared buffer becomes its old contents followed by the bytes; all bytes are reported written |
| `Lib.CollectingWriter.Flush` | src/lib.rs:176-178 | the shared buffer is unchanged |
| `Lib.CollectingWriter.MakeWriter` | src/lib.rs:184-186 | the new writer refers to the same shared buffer |
| `Lib.TracingCollector.constructor` | src/lib.rs:61-67 | a new collector has a fresh, empty buffer and the prefix `Some('㏒')` |
| `Lib.TracingCollector.Init` | src/lib.rs:98-116 | the collector starts in the initial state and the writer given to the subscriber refers to the collector's own buffer |
| `Lib.TracingCollector.SetPrefix` | src/lib.rs:69-71 | the state moves as `Apply` says for `SetPrefix`: prefix set, buffer untouched |
| `Lib.TracingCollector.RemovePrefix` | src/lib.rs:73-75 | the state moves as `Apply` says for `RemovePrefix`: prefix removed, buffer untouched |
| `Lib.TracingCollector.Clear` | src/lib.rs:118-120 | the state moves as `Apply` says for `Clear`: buffer emptied, prefix kept, no output |
| `Lib.TracingCollector.Render` | src/lib.rs:123-135 | the state moves as `Apply` says for `Render` (buffer emptied) and the result is `RenderText` of the prefix and the bytes present before the call |
| `Lib.TracingCollector.Drop` | src/lib.rs:139-145 | the state moves as `Apply` says for `Clear`: buffer emptied, prefix kept, no output |
| `Lib.LogsScenario` | tests/test.rs:4-24 | in the crate's test, the first render holds the first record and the second holds the next two, written through two writers over one buffer, each with the default prefix once |
| `Lib.PrefixAtRenderTime` | src/lib.rs:130-134 | a prefix set or removed after bytes were captured is the one the next render uses |
| `Lib.DrainsAreDestructive` | src/lib.rs:118-134 | cleared bytes are never rendered, and a render right after a render drains nothing |
| `Lib.SecondRenderIsPrefixOnly` | src/lib.rs:125-134 | when the foreign steps map no bytes to no text, a render right after a render yields the prefix alone, or the empty string once the prefix is removed |

## Left out

- Subscriber construction and installation (`tracing_subscriber::fmt()`, the pretty formatter, `Tee` to stdout, `set_default`, the `DefaultGuard` kept by `set_guard`, src/lib.rs:77-80 and 102-114): these are calls into the tracing crates and process-global sink installation. `Lib.TracingCollector.Init` keeps only the collector and the writer over its buffer.
- `Lib.TracingCollector.Init`: takes no maximum level; level filtering is done by the tracing framework, so `init_trace_level`, `init_debug_level` and `init_info_level` (src/lib.rs:83-95) differ only in an argument the model does not see.
- The record layout of the rendered text (`INFO  First log` and its `at file:line` trailer): produced by tracing-subscriber's formatter, not by this crate. The test's records are arbitrary byte strings in `Lib.LogsScenario`.
- ANSI escape stripping (`strip_ansi_escapes::strip`) and UTF-8 decoding (`String::from_utf8`) are foreign: they are the function values of a `Capture.Cleaner`. Nothing is assumed about them, except by `Capture.EmptyDrainRendersPrefixOnly` and `Lib.SecondRenderIsPrefixOnly`, which require both to map no bytes to no text (true of the real functions).
- Mutex locking and poisoning, and the panics on lock failure (src/lib.rs:78, 119, 126, 140, 159-165): the operations are modelled as sequential and no operation panics, so the lock is never poisoned and a writer's write never fails. The one single-threaded way the source poisons the lock, a failed render, is described on the `Lib.TracingCollector.Render` line about strip and decode failures.
- `Lib.TracingCollector.Render`: the `fmt::Formatter` that `Display::fmt` writes into (src/lib.rs:131, 133) is foreign, and its write error (`fmt::Error`) is not modelled; the model returns the text instead of writing it. With `to_string` or `format!` the sink is a `String` and never fails; when it does fail, the buffer has already been drained at src/lib.rs:127, as the model's drain also happens first.
- `Lib.TracingCollector.Render`: where the source panics (`expect`) on a strip or decode failure, the model returns `Err(StripFailed)` or `Err(InvalidUtf8)`. Only the drain matches the source: the buffer is already emptied when the failure happens. The rest does not: in the source the lock guard taken at src/lib.rs:126 is still held when the panic at src/lib.rs:128 or 129 unwinds, so the mutex is poisoned; afterwards every writer's `write` and `flush` return an error (src/lib.rs:162-164), `clear` and any later render panic (src/lib.rs:119, 126), and `drop` panics at src/lib.rs:140, which aborts the process when it runs during that unwinding. The model instead carries on with an empty, usable buffer.
- `Lib.TracingCollector.Drop`: does not model `shrink_to(0)` or the `Box::leak` of the buffer (src/lib.rs:63, 144); these affect memory use only.
- Use after drop: Rust's ownership rules out calling the collector after `drop`; the model does not track a torn-down state.

# DebugBackend: a verified model of its debug adapter client

DebugBackend is a small Tk front end for debuggers that speak the Debug
Adapter Protocol (DAP), such as `gdb -i=dap` and `lldb-dap`. Its class
`DebugBackend` starts the debugger and writes numbered requests to it. Each
request is framed as `Content-Length: N\r\n\r\n` followed by the JSON text.
The class reacts to the events and responses the debugger sends back:

- a stop asks for the stack;
- the stack asks for the scopes;
- the scopes ask for the variables;
- the initialize response launches the selected program.

The outcome is handed to the GUI through callbacks. The repository carries
two versions of this class:

- `debug.py`, the current one;
- `proto.py`, an earlier prototype.

It also carries the tiny C program the debugger is demonstrated on, a
growable array in `example/dyn_array.c`.

This project models those three pieces in Dafny and proves what they do.

- **`Protocol`** (protocol.dfy) holds the message vocabulary.
  - It defines the requests the client writes and the events and responses it reads.
  - JSON is kept abstract: a message is a datatype holding the fields the client looks at.
  - `effects` is one ordered log of everything the client does: requests written to the debugger, and callbacks into the GUI. `Stdin` projects out the requests.
  - `Numbered` states that the requests are numbered `k0, k0+1, ...` up to the counter.
  - `BreakpointsOn` gives the breakpoints the debugger holds for one file: the last `setBreakpoints` message for that file wins.
- **`Framing`** (framing.dfy) is the wire format, which is the same in both Python files.
  - It builds the frame `send_dap` writes.
  - It models the text-mode pipe's newline translation.
  - It models `DAP_Read`'s parsing: readline, split on spaces, take the last token, strip, `int()`, then read N+1 characters.
  - It proves that the read loop hands back every framed message, in order.
- **`DebugSpec`** (debug_spec.dfy) gives debug.py's `DebugBackend` as functions on a state value.
  - There is one function per method and one per branch of `handle_event`.
  - Lemmas state what each incoming message causes.
  - Further lemmas prove that the request numbering and the breakpoint bookkeeping hold over any session.
- **`DebugBackend`** (debug_backend.dfy) is the class itself.
  - Its fields and methods use the source's loops.
  - Each method is proved to reach exactly the state `DebugSpec` gives, and to keep the invariants.
- **`ProtoSpec`** (proto_spec.dfy) and **`ProtoBackend`** (proto_backend.dfy) do the same for proto.py.
- **`Compare`** (compare.dfy) states where the two versions agree, and the five places where the requests they write differ:
  - a `"signal"` stop;
  - a scopes response: debug.py asks for "Locals" and "Arguments", proto.py only for the first "Locals";
  - a variables response: debug.py asks to expand every variable, proto.py asks for nothing;
  - an initialize response that arrives before a program is selected;
  - clearing breakpoints.

  The GUI callbacks differ in two more places, where the requests agree:
  - a stackTrace response: debug.py calls `stacktrace` with all frames before it sends `scopes`, then `running_line` with path and line; proto.py calls no stack-trace callback and, after sending `scopes`, `running_line` with the line only;
  - a variables response: debug.py hands `locals_handler` every tuple gathered since the last scopes response, proto.py only this response's (name, value) pairs.
- **`VariableTree`** (variable_tree.dfy) covers `DebugFrontend.update_locals`. It turns the flat variable list into a tree, and a lemma ties that tree to what the engine records.
- **`DynArray`** (dyn_array.dfy) models `arr_create`, `arr_push` and `arr_pop` as a class over an array.

Oracles and I/O are parameters:

- what the debugger writes reaches `DapRead` as the text the pipe hands to Python: decoded, and with its newlines translated by `UniversalNewlines`;
- the messages queued by the reader thread are a sequence handed to `GetDapMessages`;
- the success of each `malloc` in the C code is a boolean argument.

## Model

| member | source | states |
|---|---|---|
| `Framing.DapRead` | debug.py:14-17 | The reader loop puts on the queue exactly the messages given by `Payloads` of the pipe's text; it stops when a header line carries no number. |
| `Framing.ReadFrame` | debug.py:16-17 | A frame that can be read consumes input, so the reader makes progress. |
| `Framing.Read` | debug.py:17 | `pipe.read(n)` returns the first `min(n, len)` characters, and the rest remains. |
| `Framing.ReadLine` | debug.py:16 | `readline` splits the text into a line and the rest; a non-empty input gives a non-empty line. |
| `Framing.ReadLineFirstNewline` | debug.py:16 | The line holds no newline before its last character, and ends in a newline unless the text ran out: it stops at the first newline. |
| `Framing.LastToken` | debug.py:17 | `split(" ")[-1]` is a suffix of the line containing no space. |
| `Framing.LastTokenAfterLastSpace` | debug.py:17 | The character just before that suffix, when there is one, is a space: the token is everything after the last space. |
| `Framing.StripTrims` | debug.py:17 | `strip()` gives a slice of its input with whitespace only outside it and no whitespace at either end. |
| `Framing.ParseIntLeadingZero` | debug.py:17 | `int()` ignores leading zeros, and a string of zeros gives 0. |
| `Framing.LengthFieldNeedsToken` | debug.py:17 | A line ending in a space, or the empty line at the end of the stream, carries no length. |
| `Framing.LengthFieldLastWord` | debug.py:17 | Whatever precedes the last space is ignored: a line ending in a space, N and a newline yields N. |
| `Framing.PayloadsBound` | debug.py:14-17 | The reader never queues more messages than the text has characters. |
| `Framing.HeaderAnnounces` | debug.py:67 | The header is the prefix `Content-Length: `, then digits that `int()` reads as N, then `\r\n\r\n`. |
| `Framing.FrameAnnounces` | debug.py:67-68 | The data written is the header announcing the JSON text's length, followed by that text. |
| `Framing.TranslatedFrame` | debug.py:27 | Through the text-mode pipe a frame reads as the header line ending in "\n", the blank line "\n", then the JSON text, followed by the translated rest. |
| `Framing.LoneCarriageReturn` | debug.py:27 | A carriage return not followed by a line feed becomes a line feed. |
| `Framing.CarriageReturnLineFeed` | debug.py:27 | A carriage return followed by a line feed becomes a single line feed. |
| `Framing.UniversalNewlinesClean` | debug.py:27 | The text-mode pipe's output holds no carriage return and is no longer than its input, and text without carriage returns passes unchanged. |
| `Framing.Decimal` | debug.py:67 | The length printed in the header is a non-empty run of digits, longer than one digit exactly when N >= 10, and starting with 0 only for N = 0, as `str(N)` prints it. |
| `Framing.DecimalRoundTrip` | debug.py:17 | `int()` of the printed length gives the length back. |
| `Framing.HeaderLineLength` | debug.py:16-17 | The header line, once the pipe has translated its newlines, yields exactly the length that was written. |
| `Framing.UniversalNewlinesKeeps` | debug.py:27 | The text-mode pipe leaves text without carriage returns unchanged. |
| `Framing.FrameRoundTrip` | debug.py:63-70 | Reading one frame in the format `send_dap` writes, which is also the format the debugger answers in, gives "\n" plus the JSON text, with the following input untouched. Stated for JSON text that is ASCII without CR or LF (see Left out). |
| `Framing.PayloadsOfFrame` | debug.py:14-17 | The reader's queue for a frame followed by more text is that frame's payload followed by the queue for the rest. |
| `Framing.FramesRoundTrip` | debug.py:63-70 | For any list of JSON texts written one after another, the reader queues each one once, in order, each prefixed "\n" by the N+1 read. |
| `Protocol.StdinAppend` | debug.py:69 | Each write appends to what the debugger has read so far. |
| `Protocol.NumberedFromAppend` | debug.py:64-66 | Two consecutively numbered runs of requests join into one. |
| `Protocol.ExtendsTrans` | debug.py:64-66 | "Appends only consecutively numbered requests, starting at the current counter" composes over successive steps. |
| `Protocol.NumberedExtends` | debug.py:64-66 | Such an extension of a numbered log is again numbered up to the new counter. |
| `Protocol.BreakpointsOnAppend` | debug.py:51-58 | Requests that are not `setBreakpoints` for a file leave that file's breakpoints as they were. |
| `DebugSpec.ShownScopes` | debug.py:85 | The scopes kept are exactly those named "Locals" or "Arguments", and they are no more than were received. |
| `DebugSpec.ShownScopesAppend` | debug.py:85 | Filtering a concatenation filters each part in turn, so the kept scopes stay in the order of the response. |
| `DebugSpec.ShownScopesAllShown` | debug.py:85 | A response holding only "Locals" and "Arguments" scopes is kept whole. |
| `DebugSpec.SessionNumbering` | debug.py:39-70 | Over any sequence of method calls and received messages, the requests written are numbered 1, 2, 3, ... with no gap or repeat, and the first is `initialize` with adapter id "debugger". |
| `DebugSpec.HandleEventGrows` | debug.py:72-101 | `handle_event` only appends requests numbered from the current counter, and the counter ends just past them. |
| `DebugSpec.StoppedEvent` | debug.py:74-77 | A "breakpoint", "step" or "signal" stop sets `tid` and sends one `stackTrace` for that thread; any other stop changes nothing. |
| `DebugSpec.StopThenResume` | debug.py:60-61 | After an acted-on stop, `cont` and `step` address the stopped thread. |
| `DebugSpec.StackTraceResponse` | debug.py:79-82 | A stackTrace response first shows all frames, then sends `scopes` for frame 0, then selects frame 0's path and line. Nothing else changes. |
| `DebugSpec.RequestVariablesSends` | debug.py:87-88 | The scopes loop sends one numbered `variables` request per kept scope, in order. |
| `DebugSpec.ScopesResponse` | debug.py:84-88 | A scopes response empties `current_variables` and requests the variables of each Locals/Arguments scope. |
| `DebugSpec.ExpandRecords` | debug.py:92-94 | The variables loop records each variable with its request_seq and with the number of its own expansion request, and sends that request. |
| `DebugSpec.VariablesResponse` | debug.py:90-95 | A variables response appends one tuple per variable, and each tuple's expansion seq is the number of the request sent for it. It then calls `locals_handler` with the whole list. Nothing else changes. |
| `DebugSpec.InitializeMessage` | debug.py:97-101 | Any initialize message sets `initialized`; it launches and clears the pending executable when there is one, and sends nothing otherwise. |
| `DebugSpec.SelectProgramDefers` | debug.py:117-121 | Once initialized, `select_program` launches at once; before that, it only stores the executable, the last one selected winning. |
| `DebugSpec.LaunchAfterInitialize` | debug.py:97-101 | Selecting a program before initialization sends nothing; the initialize response then sends exactly one `launch` for it. |
| `DebugSpec.RunProgramSendsOnly` | debug.py:123-124 | `run_program` sends `configurationDone` and changes nothing else. |
| `DebugSpec.ClearSourcesSends` | debug.py:53-54 | The clearing loop sends exactly one `setBreakpoints` without lines per entry of `bp_sources`, in order and with repeated entries repeated, numbered consecutively; nothing else changes. |
| `DebugSpec.ClearSourcesClears` | debug.py:53-54 | The clearing loop leaves no breakpoints on any listed file, and leaves the other files as they were. |
| `DebugSpec.ClearRemovesAll` | debug.py:51-56 | While `bp_sources` covers every file with breakpoints, clearing leaves the debugger with no breakpoints at all, and `bp_sources` becomes empty. |
| `DebugSpec.SetBreakpointTracks` | debug.py:51-58 | `set_breakpoint` keeps `bp_sources` covering every file with breakpoints. |
| `DebugSpec.SetClearSet` | debug.py:51-58 | Setting, clearing and setting again leaves exactly the last line on the file. |
| `DebugSpec.HandleEventQuiet` | debug.py:72-101 | No incoming message changes any file's breakpoints or `bp_sources`. |
| `DebugSpec.SessionClearRemovesAll` | debug.py:51-56 | In any session, a clearing `set_breakpoint` leaves the debugger with no breakpoints on any file. |
| `DebugBackend.KeepsValid` | debug.py:51-124 | Every public method keeps the requests numbered up to the counter and keeps `bp_sources` covering the breakpoints. |
| `DebugBackend.Backend.constructor` | debug.py:39-49 | `__init__` sets the fields and sends `initialize` numbered 1. |
| `DebugBackend.Backend.SendDap` | debug.py:63-70 | Writes the request numbered with the counter, then increments the counter. |
| `DebugBackend.Backend.SetBreakpoint` | debug.py:51-58 | Reaches `DebugSpec.SetBreakpoint`: with no line, one clearing request per tracked file and an empty list; otherwise the file is appended and one request is sent. The invariant is kept. |
| `DebugBackend.Backend.Cont` | debug.py:60-61 | Sends `continue` for `tid`; the invariant is kept. |
| `DebugBackend.Backend.Step` | debug.py:105-106 | Sends `next` for `tid`; the invariant is kept. |
| `DebugBackend.Backend.SelectProgram` | debug.py:117-121 | Reaches `DebugSpec.SelectProgram`; the invariant is kept. |
| `DebugBackend.Backend.RunProgram` | debug.py:123-124 | Sends `configurationDone`; the invariant is kept. |
| `DebugBackend.Backend.HandleEvent` | debug.py:72-101 | Runs the five branches with the source's loops, reaches exactly `DebugSpec.HandleEvent`, and keeps the invariant. |
| `DebugBackend.Backend.GetDapMessages` | debug.py:108-115 | Handles the queued messages in arrival order: the state of `DebugSpec.HandleAll`. |
| `VariableTree.LastExpansion` | debug.py:215-219 | The lookup in `resources` finds the last tuple, among those recorded so far, whose expansion seq matches, or reports that none does. |
| `VariableTree.ParentBefore` | debug.py:218-220 | Without self-links, the parent of a tuple comes earlier in the list. |
| `VariableTree.NoChildrenYet` | debug.py:218-220 | A tuple has no children before it is inserted. |
| `VariableTree.ParentLookup` | debug.py:218-219 | After tuple i is recorded in `resources`, looking up its request_seq gives exactly its parent, and the dictionary indexes the first i+1 tuples. |
| `VariableTree.ForestStep` | debug.py:218-220 | Inserting item i at the top level, then moving it to position 0 under its parent (when it has one), extends the forest of the first i tuples to that of the first i+1. |
| `VariableTree.UpdateLocals` | debug.py:211-220 | The top-level items are, in order, the tuples with no parent. Each item's children are the tuples whose parent it is, newest first, as the insertions at position 0 leave them. |
| `VariableTree.OrderedNoSelfLinks` | debug.py:93 | In an ordered list, no tuple's request_seq equals its own expansion seq. |
| `VariableTree.VariablesLinked` | debug.py:90-95 | A variables response answering a request already sent keeps the list ordered, and the list it hands to `locals_handler` has no self-links. |
| `VariableTree.HandleEventLinked` | debug.py:72-101 | `handle_event` keeps the list ordered and every list shown without self-links, given that a variables response answers a request already sent. |
| `VariableTree.HandleAllLinked` | debug.py:108-115 | The same over a queue of messages each answering only requests sent before it is handled. |
| `VariableTree.ApplyLinked` | debug.py:51-124 | Every public method keeps that invariant. |
| `VariableTree.SessionNoSelfLinks` | debug.py:39-124 | Over any session in which the debugger answers only requests it was sent, every list handed to `locals_handler`, and the list held at the end, has no self-links, so `UpdateLocals` can be called on it. |
| `VariableTree.LastExpansionSkip` | debug.py:218-219 | Entries that do not match leave the lookup unchanged. |
| `VariableTree.LastExpansionPrefix` | debug.py:218-219 | Appending later tuples does not change the lookup over earlier ones. |
| `VariableTree.OrderedAppend` | debug.py:92-94 | The tuples of one variables response, numbered from the counter and answering an earlier request, keep the list ordered. |
| `VariableTree.VariablesResponseLinks` | debug.py:90-95 | A variables response keeps the list ordered. Every new tuple ends up under the tuple whose expansion request the response answers, or at top level when none made it. |
| `VariableTree.UniqueParent` | debug.py:218-220 | With distinct expansion seqs, a tuple's parent is the one tuple whose expansion seq is its request_seq. |
| `ProtoSpec.LocalsScopes` | proto.py:78 | The scopes kept are exactly those named "Locals". |
| `ProtoSpec.SessionNumbering` | proto.py:38-63 | Over any session, the requests are numbered 1, 2, 3, ... and the first is `initialize`. |
| `ProtoSpec.HandleEventGrows` | proto.py:65-89 | `handle_event` only appends requests numbered from the counter. |
| `ProtoSpec.StoppedEvent` | proto.py:67-70 | Only "breakpoint" and "step" stops set `tid` and send `stackTrace`; any other stop, "signal" included, changes nothing. |
| `ProtoSpec.StackTraceResponse` | proto.py:72-75 | A stackTrace response sends `scopes` for frame 0, then selects frame 0's line. Nothing else changes. |
| `ProtoSpec.FirstLocals` | proto.py:78-79 | `l[0]` is the first scope named "Locals". |
| `ProtoSpec.ScopesResponse` | proto.py:77-80 | A scopes response requests the variables of only the first "Locals" scope. |
| `ProtoSpec.VariablesResponse` | proto.py:82-84 | A variables response passes the (name, value) pairs to `locals_handler` in order, and sends nothing. |
| `Compare.VariablesDiffer` | proto.py:83 | proto.py's pairs are, index by index, the name and value of the tuples debug.py records for the same response; debug.py writes one request per variable and proto.py none. debug.py's `locals_handler` gets the whole accumulated list, proto.py's only this response's pairs. |
| `ProtoSpec.InitializeMessage` | proto.py:86-89 | An initialize message acts only when an executable is pending. Without one, `initialized` stays false and a later `select_program` only stores the executable. |
| `ProtoSpec.SetBreakpointOneFile` | proto.py:47-51 | `set_breakpoint` sends one request, for the given file only, and keeps no state. |
| `ProtoSpec.ClearKeepsOtherFiles` | proto.py:47-49 | Clearing empties the given file; every other file keeps its breakpoints. |
| `ProtoBackend.KeepsNumbered` | proto.py:47-112 | Every public method keeps the requests numbered up to the counter. |
| `ProtoBackend.Backend.constructor` | proto.py:38-45 | `__init__` sets the fields and sends `initialize` numbered 1. |
| `ProtoBackend.Backend.SendDap` | proto.py:56-63 | Writes the request numbered with the counter, then increments the counter. |
| `ProtoBackend.Backend.SetBreakpoint` | proto.py:47-51 | Reaches `ProtoSpec.SetBreakpoint`; the numbering is kept. |
| `ProtoBackend.Backend.Cont` | proto.py:53-54 | Sends `continue` for `tid`; the numbering is kept. |
| `ProtoBackend.Backend.Step` | proto.py:93-94 | Sends `next` for `tid`; the numbering is kept. |
| `ProtoBackend.Backend.SelectProgram` | proto.py:105-109 | Reaches `ProtoSpec.SelectProgram`; the numbering is kept. |
| `ProtoBackend.Backend.RunProgram` | proto.py:111-112 | Sends `configurationDone`; the numbering is kept. |
| `ProtoBackend.Backend.HandleEvent` | proto.py:65-89 | Reaches exactly `ProtoSpec.HandleEvent`; the numbering is kept. |
| `ProtoBackend.Backend.GetDapMessages` | proto.py:96-103 | Handles the queued messages in arrival order. |
| `Compare.InitAgree` | proto.py:38-45 | Both versions start in agreeing states that have written the same `initialize`. |
| `Compare.CommandsAgree` | proto.py:47-112 | From agreeing states, `cont`, `step`, `run_program`, `select_program` and setting a breakpoint on a line write the same requests and leave agreeing states. |
| `Compare.StopsAgree` | proto.py:67-70 | "breakpoint" and "step" stops are handled alike. |
| `Compare.StackTraceCallbacksDiffer` | proto.py:72-75 | A stackTrace response keeps the two states agreeing, as both write the same `scopes` request. debug.py shows the stack first and selects frame 0 by path and line; proto.py shows no stack and selects frame 0 by line only. |
| `Compare.ScopesDiffer` | proto.py:77-80 | For the scopes Locals (5) and Arguments (6), debug.py writes two variables requests, for 5 then 6; proto.py writes one, for 5, and its counter ends one lower. |
| `Compare.SignalStopDiffers` | debug.py:75 | On a "signal" stop, debug.py adopts the thread and asks for its stack; proto.py changes nothing. |
| `Compare.EarlyInitializeDiffers` | proto.py:86-89 | An initialize response with no program pending makes debug.py launch the next selected program at once. proto.py stays uninitialized and only stores it. |
| `Compare.ClearDiffers` | debug.py:51-56 | Clearing one file removes another file's breakpoints in debug.py. proto.py leaves them. |
| `DynArray.DynArray.Create` | example/dyn_array.c:13-25 | NULL when either allocation fails, or when `initial_elements` is negative. Otherwise an empty array with capacity `initial_elements` and the given element size. |
| `DynArray.DynArray.Push` | example/dyn_array.c:27-39 | The element goes in at the old size, which is returned. Size grows by one, and the contents are the old contents plus the element. A full array first moves to a buffer of twice the capacity holding the same elements. A failed reallocation returns -1, leaves size and capacity, and loses the buffer. The element size never changes. |
| `DynArray.DynArray.Pop` | example/dyn_array.c:41-44 | Size shrinks by one and the last pushed element is returned; the contents lose their last element. Buffer, capacity and element size stay. |
| `DynArray.PushThenPop` | example/dyn_array.c:27-44 | Push then pop is last-in first-out: the pushed element comes back, and the array's size and contents are as before. |
| `DynArray.PushThreePopTwo` | example/dyn_arr_test.c:6-15 | The test's session with every allocation succeeding pops 30 first and then 20. This agrees with the commented-out check at line 13, not with the live checks at lines 14-15. |

proto.py's framing (proto.py:13-16 and proto.py:56-63) is the same code as
debug.py's, so the `Framing` rows cover both.

## Left out

- Starting the debugger (the command-line candidates, `Popen`, `exit()` when none starts), the reader thread, the queue and `time.sleep`. The model begins after a debugger is running. The thread's input is the string handed to `DapRead`; the queue is the sequence handed to `GetDapMessages`.
- JSON encoding and decoding. The requests and messages are datatypes carrying the fields the code reads.
- The write side of the text-mode pipe: it also translates newlines, turning "\n" into `os.linesep`. That is the identity only on a POSIX host, so `Framing.Frame`, `Framing.FrameAnnounces` and the round-trip lemmas describe what reaches the debugger on a POSIX host. On Windows each "\n" of the header's "\r\n\r\n" would be written as "\r\n", giving "\r\r\n"; that host is not modelled.
- Character encoding. The pipe is opened with `universal_newlines=True`, so `readline` and `read` work on decoded characters, while `Content-Length` counts bytes. The reader lemmas (`Framing.FrameRoundTrip`, `Framing.FramesRoundTrip`) assume the debugger's JSON payloads are ASCII without CR or LF, so characters and bytes agree. With multibyte UTF-8 in a payload, `read(N+1)` would take more bytes than announced and run into the next header; that case is not modelled.
- Framing.LengthField: this parses the header the debugger writes. The model assumes the debugger writes the length as ASCII decimal digits, as the Debug Adapter Protocol prescribes. Python's `int()` also accepts a sign, underscores and non-ASCII digits; those are not modelled, and the model treats them as no number. A signed length is therefore not modelled either: in the source `int("-5")` leads to `read(-4)`, which reads to the end of the stream.
- Framing.DapRead: ends when a header line carries no number. The source raises an exception in that case, which ends the thread.
- The `print` calls, and all of `DebugFrontend` except the linking rule of `update_locals`: Tk widgets, menus, source display and argument parsing.
- DebugSpec.HandleEvent: a missing key or index that would raise in the source (an absent `body`, or a successful stackTrace with no frames) is excluded by `WellFormed` rather than modelled as an exception. A stack frame always carries a source path (`Protocol.StackFrame`), although in the Debug Adapter Protocol a frame's `source` is optional and a frame in code without debug information has none. For such a top frame debug.py:82 raises `KeyError` after the `stacktrace` callback and the `scopes` request have already happened; that partial step is not modelled.
- ProtoSpec.HandleEvent: `ProtoWellFormed` also excludes a successful scopes response with no "Locals" scope, because `l[0]` raises there.
- VariableTree.UpdateLocals: requires that no tuple's request_seq equals its own expansion seq; Tk would reject moving an item into itself. `VariableTree.SessionNoSelfLinks` shows the engine never hands such a list to `locals_handler`, under the assumption below. The Treeview is represented by item indices; the deletion of the old items is not modelled.
- VariableTree.SessionNoSelfLinks: assumes the debugger answers only requests it was sent, so every variables response carries a request_seq below the counter when it is handled (`VariableTree.AnswersSent`). A debugger that answers a request not yet sent is not covered.
- DynArray: element bytes, `element_size` arithmetic, `memcpy` of raw bytes, and C `int` overflow of `initial_elements * element_size` (dyn_array.c:16) and of `size * element_size * 2` (dyn_array.c:30) are not modelled. One array slot holds one element.
- DynArray.DynArray.Push: requires capacity >= 1. With `initial_elements == 0` the doubled capacity stays 0 and the write runs past the buffer. It also requires a buffer, because after a failed reallocation the source calls `memcpy` from NULL.
- DynArray.DynArray.Create: requires `element_size >= 1`. With `element_size == 0` the result of `malloc(0)` is implementation-defined, and a negative `element_size` times a negative count gives a positive byte count for a struct with a negative capacity; neither is modelled.
- DynArray.DynArray.Pop: requires `size > 0`. The source does not check: on an empty array it sets size to -1 and returns an address before the buffer.
- DynArray.DynArray.Pop: the source returns the address of the slot in the buffer; the model returns the element stored there. A later push overwriting that slot is not modelled.
- `free` of the struct or of the old buffer has no counterpart: memory is not reclaimed in the model.

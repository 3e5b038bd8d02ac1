/**
 * Values exchanged between the debugger client and the debug adapter:
 * the requests the client sends, the decoded messages it receives, and the
 * append-only log that stands for the debugger's standard input together
 * with the calls made into the presentation layer.
 */
module Protocol {

  datatype Option<T> = None | Some(value: T)

  /** The request subset the client sends, with the arguments it puts in them. */
  datatype Request =
    | Initialize(adapterID: string)
    | Launch(nodebug: string, program: string)
      // `lines` is None when the request carries no "breakpoints" key (a clear)
    | SetBreakpoints(path: string, lines: Option<seq<int>>)
    | ConfigurationDone
    | Continue(threadId: int)
    | Next(threadId: int)
    | StackTrace(threadId: int)
    | Scopes(frameId: int)
    | Variables(variablesReference: int)

  /** One message written to the debugger: the request and the "seq" it was given. */
  datatype Sent = Sent(number: int, request: Request)

  datatype StackFrame = StackFrame(id: int, name: string, path: string, line: int)
  datatype Scope = Scope(name: string, variablesReference: int)
  datatype Variable = Variable(name: string, value: string, variablesReference: int)

  /** The "body" of an incoming message, as far as the client reads it. */
  datatype Body =
    | NoBody
    | StoppedBody(reason: string, threadId: int)
    | StackTraceBody(stackFrames: seq<StackFrame>)
    | ScopesBody(scopes: seq<Scope>)
    | VariablesBody(variables: seq<Variable>)

  /** A decoded incoming message, distinguished by its "type" field. */
  datatype Message =
    | Event(event: string, body: Body)
    | Response(command: string, requestSeq: int, success: bool, body: Body)
    | ReverseRequest(command: string)

  /**
   * Everything the handlers dereference is present: a "stopped" event has a
   * reason and a thread id, and a successful stackTrace, scopes or variables
   * response has the body its handler reads (at least one frame for a stack
   * trace). A message without these would raise KeyError or IndexError.
   */
  predicate WellFormed(m: Message) {
    match m
    case Event(e, b) => e == "stopped" ==> b.StoppedBody?
    case Response(c, _, ok, b) =>
      ok ==>
        && (c == "stackTrace" ==> b.StackTraceBody? && |b.stackFrames| > 0)
        && (c == "scopes" ==> b.ScopesBody?)
        && (c == "variables" ==> b.VariablesBody?)
    case ReverseRequest(_) => true
  }

  /** The "command" key of a message, when it has one. */
  function CommandOf(m: Message): Option<string> {
    match m
    case Event(_, _) => None
    case Response(c, _, _, _) => Some(c)
    case ReverseRequest(c) => Some(c)
  }

  /** Python truthiness of the pending executable: None and "" are false. */
  predicate Truthy(executable: Option<string>) {
    executable.Some? && executable.value != ""
  }

  /** Python truthiness of a breakpoint line: None and 0 are false. */
  predicate LineGiven(line: Option<int>) {
    line.Some? && line.value != 0
  }

  /**
   * What a session has done, in order: a message written to the debugger's
   * standard input, or a call of one of the presentation callbacks.
   */
  datatype Effect<C> = Send(sent: Sent) | Call(call: C)

  /** The messages written to the debugger's standard input, in order. */
  function Stdin<C>(effects: seq<Effect<C>>): seq<Sent> {
    if effects == [] then []
    else
      var last := effects[|effects| - 1];
      Stdin(effects[..|effects| - 1]) + (if last.Send? then [last.sent] else [])
  }

  lemma {:induction false} StdinAppend<C>(a: seq<Effect<C>>, b: seq<Effect<C>>)
    ensures Stdin(a + b) == Stdin(a) + Stdin(b)
    decreases |b|
  {
    if b == [] {
      assert a + b == a;
    } else {
      var n := |b| - 1;
      assert (a + b)[..|a + b| - 1] == a + b[..n];
      assert b[..|b| - 1] == b[..n];
      StdinAppend(a, b[..n]);
    }
  }

  lemma StdinSend<C>(e: seq<Effect<C>>, m: Sent)
    ensures Stdin(e + [Send(m)]) == Stdin(e) + [m]
  {
    assert (e + [Send(m)])[..|e|] == e;
  }

  lemma StdinCall<C>(e: seq<Effect<C>>, c: C)
    ensures Stdin(e + [Call(c)]) == Stdin(e)
  {
    assert (e + [Call(c)])[..|e|] == e;
  }

  /** The messages of `sent` carry the numbers k, k + 1, k + 2, ... in order. */
  predicate NumberedFrom(sent: seq<Sent>, k: int) {
    forall i :: 0 <= i < |sent| ==> sent[i].number == k + i
  }

  lemma NumberedFromAppend(a: seq<Sent>, b: seq<Sent>, k: int)
    requires NumberedFrom(a, k) && NumberedFrom(b, k + |a|)
    ensures NumberedFrom(a + b, k)
  {
  }

  /**
   * The session's log grew from (k0, e0) to (k1, e1) by appending only, and
   * the messages appended to standard input are numbered k0, k0 + 1, ...
   * with the counter left just past the last of them.
   */
  ghost predicate Extends<C>(k0: int, e0: seq<Effect<C>>, k1: int, e1: seq<Effect<C>>) {
    && |e0| <= |e1|
    && e1[..|e0|] == e0
    && NumberedFrom(Stdin(e1[|e0|..]), k0)
    && k1 == k0 + |Stdin(e1[|e0|..])|
  }

  /** The whole log is numbered 1, 2, 3, ... and the counter is the next number. */
  predicate Numbered<C>(k: int, e: seq<Effect<C>>) {
    NumberedFrom(Stdin(e), 1) && k == |Stdin(e)| + 1
  }

  lemma ExtendsRefl<C>(k: int, e: seq<Effect<C>>)
    ensures Extends(k, e, k, e)
  {
    assert e[|e|..] == [];
  }

  /** Sending with the current counter and then incrementing it is an extension. */
  lemma ExtendsSend<C>(k: int, e: seq<Effect<C>>, r: Request)
    ensures Extends(k, e, k + 1, e + [Send(Sent(k, r))])
  {
    var e1 := e + [Send(Sent(k, r))];
    assert e1[..|e|] == e;
    assert e1[|e|..] == [Send(Sent(k, r))];
    assert Stdin<C>([Send(Sent(k, r))]) == Stdin<C>([]) + [Sent(k, r)];
  }

  /** A callback leaves standard input and the counter alone. */
  lemma ExtendsCall<C>(k: int, e: seq<Effect<C>>, c: C)
    ensures Extends(k, e, k, e + [Call(c)])
  {
    var e1 := e + [Call(c)];
    assert e1[..|e|] == e;
    assert e1[|e|..] == [Call(c)];
    assert Stdin([Call(c)]) == Stdin<C>([]);
  }

  lemma {:induction false} ExtendsTrans<C>(k0: int, e0: seq<Effect<C>>, k1: int, e1: seq<Effect<C>>, k2: int, e2: seq<Effect<C>>)
    requires Extends(k0, e0, k1, e1) && Extends(k1, e1, k2, e2)
    ensures Extends(k0, e0, k2, e2)
  {
    var a, b := e1[|e0|..], e2[|e1|..];
    assert e2[..|e1|] == e1;
    assert e2[..|e0|] == e1[..|e0|];
    assert e2[|e0|..] == a + b;
    StdinAppend(a, b);
    NumberedFromAppend(Stdin(a), Stdin(b), k0);
  }

  /** An extension of a numbered log is numbered: no number is skipped or reused. */
  lemma {:induction false} NumberedExtends<C>(k0: int, e0: seq<Effect<C>>, k1: int, e1: seq<Effect<C>>)
    requires Numbered(k0, e0) && Extends(k0, e0, k1, e1)
    ensures Numbered(k1, e1)
  {
    assert e1 == e0 + e1[|e0|..];
    StdinAppend(e0, e1[|e0|..]);
    NumberedFromAppend(Stdin(e0), Stdin(e1[|e0|..]), 1);
  }

  /**
   * The breakpoints the debugger holds for `path` after the messages `sent`:
   * setBreakpoints replaces the whole list for its file, and one without
   * lines clears it.
   */
  function BreakpointsOn(sent: seq<Sent>, path: string): seq<int> {
    if sent == [] then []
    else
      var r := sent[|sent| - 1].request;
      if r.SetBreakpoints? && r.path == path then
        (if r.lines.Some? then r.lines.value else [])
      else BreakpointsOn(sent[..|sent| - 1], path)
  }

  lemma {:induction false} BreakpointsOnAppend(a: seq<Sent>, b: seq<Sent>, path: string)
    requires forall i :: 0 <= i < |b| ==> !(b[i].request.SetBreakpoints? && b[i].request.path == path)
    ensures BreakpointsOn(a + b, path) == BreakpointsOn(a, path)
    decreases |b|
  {
    if b != [] {
      assert (a + b)[..|a + b| - 1] == a + b[..|b| - 1];
      BreakpointsOnAppend(a, b[..|b| - 1], path);
    } else {
      assert a + b == a;
    }
  }
}

/**
 * The session engine of proto.py, the earlier DebugBackend, as functions
 * on its state. Framing and numbering are those of debug.py; the state is
 * smaller (no variable list, no breakpoint sources, no stack-trace
 * callback) and the reactions to incoming messages are narrower.
 */
module ProtoSpec {
  import opened Protocol

  /** The two presentation callbacks of this variant. */
  datatype Callback =
    | RunningLine(line: int)
    | LocalsShown(pairs: seq<(string, string)>)

  datatype State = State(
    sequence: int,
    initialized: bool,
    executable: Option<string>,
    tid: int,
    effects: seq<Effect<Callback>>)

  const StopReasons: seq<string> := ["breakpoint", "step"]

  predicate IsStop(m: Message) {
    m.Event? && m.event == "stopped"
  }

  predicate Succeeded(m: Message, command: string) {
    m.Response? && m.command == command && m.success
  }

  /** The scopes named "Locals", in order (the list comprehension of the scopes branch). */
  function LocalsScopes(scopes: seq<Scope>): (r: seq<Scope>)
    ensures forall x :: x in r <==> x in scopes && x.name == "Locals"
  {
    if scopes == [] then []
    else (if scopes[0].name == "Locals" then [scopes[0]] else []) + LocalsScopes(scopes[1..])
  }

  /**
   * What the handlers dereference is there; on top of debug.py's needs, a
   * successful scopes response must hold a "Locals" scope (l[0] would raise
   * IndexError otherwise).
   */
  predicate ProtoWellFormed(m: Message) {
    WellFormed(m) && (Succeeded(m, "scopes") ==> LocalsScopes(m.body.scopes) != [])
  }

  /* ---------- operations ---------- */

  function Fresh(): State {
    State(1, false, None, 0, [])
  }

  function Init(): State {
    SendDap(Fresh(), Initialize("debugger"))
  }

  function SendDap(s: State, r: Request): State {
    s.(sequence := s.sequence + 1, effects := s.effects + [Send(Sent(s.sequence, r))])
  }

  function Notify(s: State, c: Callback): State {
    s.(effects := s.effects + [Call(c)])
  }

  /** set_breakpoint keeps no state: one request, for the given file only. */
  function SetBreakpoint(s: State, filename: string, line: Option<int>): State {
    if !LineGiven(line) then SendDap(s, SetBreakpoints(filename, None))
    else SendDap(s, SetBreakpoints(filename, Some([line.value])))
  }

  function Cont(s: State): State {
    SendDap(s, Continue(s.tid))
  }

  function Step(s: State): State {
    SendDap(s, Next(s.tid))
  }

  function SelectProgram(s: State, executable: string): State {
    if s.initialized then SendDap(s, Launch("false", executable))
    else s.(executable := Some(executable))
  }

  function RunProgram(s: State): State {
    SendDap(s, ConfigurationDone)
  }

  function OnStopped(s: State, m: Message): State
    requires ProtoWellFormed(m)
  {
    if IsStop(m) && m.body.reason in StopReasons then
      SendDap(s.(tid := m.body.threadId), StackTrace(m.body.threadId))
    else s
  }

  function OnStackTrace(s: State, m: Message): State
    requires ProtoWellFormed(m)
  {
    if Succeeded(m, "stackTrace") then
      var frames := m.body.stackFrames;
      Notify(SendDap(s, Scopes(frames[0].id)), RunningLine(frames[0].line))
    else s
  }

  function OnScopes(s: State, m: Message): State
    requires ProtoWellFormed(m)
  {
    if Succeeded(m, "scopes") then
      SendDap(s, Variables(LocalsScopes(m.body.scopes)[0].variablesReference))
    else s
  }

  /** The (name, value) pairs of a variables response. */
  function Pairs(vars: seq<Variable>): seq<(string, string)> {
    seq(|vars|, i requires 0 <= i < |vars| => (vars[i].name, vars[i].value))
  }

  function OnVariables(s: State, m: Message): State
    requires ProtoWellFormed(m)
  {
    if Succeeded(m, "variables") then Notify(s, LocalsShown(Pairs(m.body.variables)))
    else s
  }

  /** Acted on only when an executable is pending. */
  function OnInitialize(s: State, m: Message): State {
    if CommandOf(m) == Some("initialize") && Truthy(s.executable) then
      SendDap(s.(initialized := true), Launch("false", s.executable.value)).(executable := None)
    else s
  }

  function HandleEvent(s: State, m: Message): State
    requires ProtoWellFormed(m)
  {
    OnInitialize(OnVariables(OnScopes(OnStackTrace(OnStopped(s, m), m), m), m), m)
  }

  predicate AllWellFormed(ms: seq<Message>) {
    forall i :: 0 <= i < |ms| ==> ProtoWellFormed(ms[i])
  }

  function HandleAll(s: State, ms: seq<Message>): State
    requires AllWellFormed(ms)
    decreases |ms|
  {
    if ms == [] then s else HandleAll(HandleEvent(s, ms[0]), ms[1..])
  }

  datatype Op =
    | Pump(inbox: seq<Message>)
    | DoSelectProgram(executable: string)
    | DoSetBreakpoint(filename: string, line: Option<int>)
    | DoCont
    | DoStep
    | DoRunProgram

  predicate OpWellFormed(op: Op) {
    op.Pump? ==> AllWellFormed(op.inbox)
  }

  function Apply(s: State, op: Op): State
    requires OpWellFormed(op)
  {
    match op
    case Pump(inbox) => HandleAll(s, inbox)
    case DoSelectProgram(e) => SelectProgram(s, e)
    case DoSetBreakpoint(f, l) => SetBreakpoint(s, f, l)
    case DoCont => Cont(s)
    case DoStep => Step(s)
    case DoRunProgram => RunProgram(s)
  }

  function ApplyAll(s: State, ops: seq<Op>): State
    requires forall i :: 0 <= i < |ops| ==> OpWellFormed(ops[i])
    decreases |ops|
  {
    if ops == [] then s else ApplyAll(Apply(s, ops[0]), ops[1..])
  }

  /* ---------- sequence numbering ---------- */

  ghost predicate Grows(s: State, t: State) {
    Extends(s.sequence, s.effects, t.sequence, t.effects)
  }

  lemma OnStoppedGrows(s: State, m: Message)
    requires ProtoWellFormed(m)
    ensures Grows(s, OnStopped(s, m))
  {
    if IsStop(m) && m.body.reason in StopReasons {
      ExtendsSend(s.sequence, s.effects, StackTrace(m.body.threadId));
    } else {
      ExtendsRefl(s.sequence, s.effects);
    }
  }

  lemma OnStackTraceGrows(s: State, m: Message)
    requires ProtoWellFormed(m)
    ensures Grows(s, OnStackTrace(s, m))
  {
    if Succeeded(m, "stackTrace") {
      var frames := m.body.stackFrames;
      var a := SendDap(s, Scopes(frames[0].id));
      ExtendsSend(s.sequence, s.effects, Scopes(frames[0].id));
      ExtendsCall(a.sequence, a.effects, RunningLine(frames[0].line));
      ExtendsTrans(s.sequence, s.effects, a.sequence, a.effects, a.sequence, a.effects + [Call(RunningLine(frames[0].line))]);
    } else {
      ExtendsRefl(s.sequence, s.effects);
    }
  }

  lemma OnScopesGrows(s: State, m: Message)
    requires ProtoWellFormed(m)
    ensures Grows(s, OnScopes(s, m))
  {
    if Succeeded(m, "scopes") {
      ExtendsSend(s.sequence, s.effects, Variables(LocalsScopes(m.body.scopes)[0].variablesReference));
    } else {
      ExtendsRefl(s.sequence, s.effects);
    }
  }

  lemma OnVariablesGrows(s: State, m: Message)
    requires ProtoWellFormed(m)
    ensures Grows(s, OnVariables(s, m))
  {
    if Succeeded(m, "variables") {
      ExtendsCall(s.sequence, s.effects, LocalsShown(Pairs(m.body.variables)));
    } else {
      ExtendsRefl(s.sequence, s.effects);
    }
  }

  lemma OnInitializeGrows(s: State, m: Message)
    ensures Grows(s, OnInitialize(s, m))
  {
    if CommandOf(m) == Some("initialize") && Truthy(s.executable) {
      ExtendsSend(s.sequence, s.effects, Launch("false", s.executable.value));
    } else {
      ExtendsRefl(s.sequence, s.effects);
    }
  }

  lemma HandleEventGrows(s: State, m: Message)
    requires ProtoWellFormed(m)
    ensures Grows(s, HandleEvent(s, m))
  {
    var s1 := OnStopped(s, m);
    var s2 := OnStackTrace(s1, m);
    var s3 := OnScopes(s2, m);
    var s4 := OnVariables(s3, m);
    var s5 := OnInitialize(s4, m);
    OnStoppedGrows(s, m);
    OnStackTraceGrows(s1, m);
    OnScopesGrows(s2, m);
    OnVariablesGrows(s3, m);
    OnInitializeGrows(s4, m);
    ExtendsTrans(s.sequence, s.effects, s1.sequence, s1.effects, s2.sequence, s2.effects);
    ExtendsTrans(s.sequence, s.effects, s2.sequence, s2.effects, s3.sequence, s3.effects);
    ExtendsTrans(s.sequence, s.effects, s3.sequence, s3.effects, s4.sequence, s4.effects);
    ExtendsTrans(s.sequence, s.effects, s4.sequence, s4.effects, s5.sequence, s5.effects);
  }

  lemma {:induction false} HandleAllGrows(s: State, ms: seq<Message>)
    requires AllWellFormed(ms)
    ensures Grows(s, HandleAll(s, ms))
    decreases |ms|
  {
    if ms == [] {
      ExtendsRefl(s.sequence, s.effects);
    } else {
      HandleEventGrows(s, ms[0]);
      HandleAllGrows(HandleEvent(s, ms[0]), ms[1..]);
      var t := HandleEvent(s, ms[0]);
      var u := HandleAll(s, ms);
      ExtendsTrans(s.sequence, s.effects, t.sequence, t.effects, u.sequence, u.effects);
    }
  }

  lemma ApplyGrows(s: State, op: Op)
    requires OpWellFormed(op)
    ensures Grows(s, Apply(s, op))
  {
    match op
    case Pump(inbox) => HandleAllGrows(s, inbox);
    case DoSelectProgram(e) =>
      if s.initialized { ExtendsSend(s.sequence, s.effects, Launch("false", e)); } else { ExtendsRefl(s.sequence, s.effects); }
    case DoSetBreakpoint(f, l) =>
      if !LineGiven(l) { ExtendsSend(s.sequence, s.effects, SetBreakpoints(f, None)); }
      else { ExtendsSend(s.sequence, s.effects, SetBreakpoints(f, Some([l.value]))); }
    case DoCont => ExtendsSend(s.sequence, s.effects, Continue(s.tid));
    case DoStep => ExtendsSend(s.sequence, s.effects, Next(s.tid));
    case DoRunProgram => ExtendsSend(s.sequence, s.effects, ConfigurationDone);
  }

  lemma {:induction false} GrowsAlong(s: State, ops: seq<Op>)
    requires forall i :: 0 <= i < |ops| ==> OpWellFormed(ops[i])
    ensures Grows(s, ApplyAll(s, ops))
    decreases |ops|
  {
    if ops == [] {
      ExtendsRefl(s.sequence, s.effects);
    } else {
      ApplyGrows(s, ops[0]);
      GrowsAlong(Apply(s, ops[0]), ops[1..]);
      var t := Apply(s, ops[0]);
      var u := ApplyAll(s, ops);
      ExtendsTrans(s.sequence, s.effects, t.sequence, t.effects, u.sequence, u.effects);
    }
  }

  /**
   * As in debug.py: over any session the messages written are numbered
   * 1, 2, 3, ... without gap or repeat, initialize first.
   */
  lemma {:induction false} SessionNumbering(ops: seq<Op>)
    requires forall i :: 0 <= i < |ops| ==> OpWellFormed(ops[i])
    ensures var t := ApplyAll(Init(), ops);
      && Numbered(t.sequence, t.effects)
      && |Stdin(t.effects)| > 0
      && Stdin(t.effects)[0] == Sent(1, Initialize("debugger"))
  {
    var init := Init();
    StdinSend<Callback>([], Sent(1, Initialize("debugger")));
    assert init.effects == [] + [Send(Sent(1, Initialize("debugger")))];
    assert Numbered(init.sequence, init.effects);
    GrowsAlong(init, ops);
    var t := ApplyAll(init, ops);
    NumberedExtends(init.sequence, init.effects, t.sequence, t.effects);
    assert t.effects == init.effects + t.effects[|init.effects|..];
    StdinAppend(init.effects, t.effects[|init.effects|..]);
  }

  /* ---------- reactions ---------- */

  /** Only "breakpoint" and "step" stops ask for the stack; "signal" and the rest change nothing. */
  lemma StoppedEvent(s: State, reason: string, threadId: int)
    ensures var t := HandleEvent(s, Event("stopped", StoppedBody(reason, threadId)));
      if reason in {"breakpoint", "step"} then
        t == s.(tid := threadId, sequence := s.sequence + 1,
                effects := s.effects + [Send(Sent(s.sequence, StackTrace(threadId)))])
      else t == s
  {
  }

  /** A stackTrace response: one scopes request for the innermost frame, then its line alone. */
  lemma StackTraceResponse(s: State, requestSeq: int, frames: seq<StackFrame>)
    requires |frames| > 0
    ensures HandleEvent(s, Response("stackTrace", requestSeq, true, StackTraceBody(frames)))
         == s.(sequence := s.sequence + 1,
               effects := s.effects + [Send(Sent(s.sequence, Scopes(frames[0].id))),
                                       Call(RunningLine(frames[0].line))])
  {
  }

  /**
   * A scopes response sends exactly one variables request, for the first
   * scope named "Locals", whatever other scopes there are.
   */
  lemma ScopesResponse(s: State, requestSeq: int, scopes: seq<Scope>, i: nat)
    requires i < |scopes| && scopes[i].name == "Locals"
    requires forall j :: 0 <= j < i ==> scopes[j].name != "Locals"
    ensures ProtoWellFormed(Response("scopes", requestSeq, true, ScopesBody(scopes)))
    ensures HandleEvent(s, Response("scopes", requestSeq, true, ScopesBody(scopes)))
         == SendDap(s, Variables(scopes[i].variablesReference))
  {
    FirstLocals(scopes, i);
  }

  lemma {:induction false} FirstLocals(scopes: seq<Scope>, i: nat)
    requires i < |scopes| && scopes[i].name == "Locals"
    requires forall j :: 0 <= j < i ==> scopes[j].name != "Locals"
    ensures LocalsScopes(scopes) != [] && LocalsScopes(scopes)[0] == scopes[i]
  {
    if i > 0 {
      FirstLocals(scopes[1..], i - 1);
    }
  }

  /**
   * A variables response hands locals_handler the (name, value) pairs of
   * that response, in order, and nothing else: no request, no state.
   */
  lemma VariablesResponse(s: State, requestSeq: int, vars: seq<Variable>)
    ensures var t := HandleEvent(s, Response("variables", requestSeq, true, VariablesBody(vars)));
      && t == s.(effects := s.effects + [Call(LocalsShown(Pairs(vars)))])
      && |Pairs(vars)| == |vars|
      && forall i :: 0 <= i < |vars| ==> Pairs(vars)[i] == (vars[i].name, vars[i].value)
  {
  }

  /**
   * An initialize response is acted on only when an executable is pending;
   * without one, initialized stays false and a later select_program only
   * stores the executable.
   */
  lemma InitializeMessage(s: State, m: Message, e: string)
    requires ProtoWellFormed(m) && CommandOf(m) == Some("initialize")
    ensures var t := HandleEvent(s, m);
      if Truthy(s.executable) then
        t == s.(initialized := true, executable := None, sequence := s.sequence + 1,
                effects := s.effects + [Send(Sent(s.sequence, Launch("false", s.executable.value)))])
      else t == s && (!s.initialized ==> SelectProgram(t, e) == s.(executable := Some(e)))
  {
  }

  /** set_breakpoint sends one request, for the file it is given, and keeps nothing. */
  lemma SetBreakpointOneFile(s: State, filename: string, line: Option<int>)
    ensures var t := SetBreakpoint(s, filename, line);
      && t.effects == s.effects + [Send(Sent(s.sequence, SetBreakpoints(filename, if LineGiven(line) then Some([line.value]) else None)))]
      && t.(sequence := s.sequence, effects := s.effects) == s
  {
  }

  /**
   * Clearing empties the given file only: every other file keeps the
   * breakpoints the debugger held for it.
   */
  lemma ClearKeepsOtherFiles(s: State, filename: string, other: string)
    requires other != filename
    ensures var t := SetBreakpoint(s, filename, None);
      && BreakpointsOn(Stdin(t.effects), filename) == []
      && BreakpointsOn(Stdin(t.effects), other) == BreakpointsOn(Stdin(s.effects), other)
  {
    var m := Sent(s.sequence, SetBreakpoints(filename, None));
    StdinSend(s.effects, m);
    assert (Stdin(s.effects) + [m])[..|Stdin(s.effects)|] == Stdin(s.effects);
  }
}

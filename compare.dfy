/**
 * debug.py and proto.py side by side. The two engines write the same
 * requests for the same calls, and the requests they write part ways in
 * five places: a "signal" stop, a scopes response (debug.py asks for
 * "Locals" and "Arguments", proto.py for the first "Locals" only), a
 * variables response (debug.py asks to expand every variable, proto.py
 * asks for nothing), an initialize response with no executable pending,
 * and clearing breakpoints. The GUI callbacks also differ, at a
 * stackTrace response and at a variables response.
 */
module Compare {
  import opened Protocol
  import D = DebugSpec
  import P = ProtoSpec

  /** The fields both variants have hold the same values, and both have written the same requests. */
  predicate Agree(d: D.State, p: P.State) {
    && d.sequence == p.sequence
    && d.initialized == p.initialized
    && d.executable == p.executable
    && d.tid == p.tid
    && Stdin(d.effects) == Stdin(p.effects)
  }

  lemma InitAgree()
    ensures Agree(D.Init(), P.Init())
  {
    StdinSend<D.Callback>([], Sent(1, Initialize("debugger")));
    StdinSend<P.Callback>([], Sent(1, Initialize("debugger")));
  }

  /**
   * cont, step, run_program, select_program and setting a breakpoint on a
   * line do the same thing in both variants.
   */
  lemma CommandsAgree(d: D.State, p: P.State, e: string, filename: string, line: int)
    requires Agree(d, p) && line != 0
    ensures Agree(D.Cont(d), P.Cont(p))
    ensures Agree(D.Step(d), P.Step(p))
    ensures Agree(D.RunProgram(d), P.RunProgram(p))
    ensures Agree(D.SelectProgram(d, e), P.SelectProgram(p, e))
    ensures Agree(D.SetBreakpoint(d, filename, Some(line)), P.SetBreakpoint(p, filename, Some(line)))
  {
    StdinSend(d.effects, Sent(d.sequence, Continue(d.tid)));
    StdinSend(p.effects, Sent(p.sequence, Continue(p.tid)));
    StdinSend(d.effects, Sent(d.sequence, Next(d.tid)));
    StdinSend(p.effects, Sent(p.sequence, Next(p.tid)));
    StdinSend(d.effects, Sent(d.sequence, ConfigurationDone));
    StdinSend(p.effects, Sent(p.sequence, ConfigurationDone));
    StdinSend(d.effects, Sent(d.sequence, Launch("false", e)));
    StdinSend(p.effects, Sent(p.sequence, Launch("false", e)));
    StdinSend(d.effects, Sent(d.sequence, SetBreakpoints(filename, Some([line]))));
    StdinSend(p.effects, Sent(p.sequence, SetBreakpoints(filename, Some([line]))));
  }

  /** A "breakpoint" or "step" stop asks for the stack in both. */
  lemma StopsAgree(d: D.State, p: P.State, reason: string, threadId: int)
    requires Agree(d, p) && reason in {"breakpoint", "step"}
    ensures Agree(D.HandleEvent(d, Event("stopped", StoppedBody(reason, threadId))),
                  P.HandleEvent(p, Event("stopped", StoppedBody(reason, threadId))))
  {
    StdinSend(d.effects, Sent(d.sequence, StackTrace(threadId)));
    StdinSend(p.effects, Sent(p.sequence, StackTrace(threadId)));
  }

  /** A "signal" stop: debug.py adopts the thread and asks for its stack, proto.py ignores it. */
  lemma SignalStopDiffers(d: D.State, p: P.State, threadId: int)
    requires Agree(d, p)
    ensures var m := Event("stopped", StoppedBody("signal", threadId));
      && Stdin(D.HandleEvent(d, m).effects) == Stdin(d.effects) + [Sent(d.sequence, StackTrace(threadId))]
      && D.HandleEvent(d, m).tid == threadId
      && P.HandleEvent(p, m) == p
  {
    StdinSend(d.effects, Sent(d.sequence, StackTrace(threadId)));
  }

  /**
   * An initialize response with no executable pending: debug.py becomes
   * initialized, so the next select_program launches at once; proto.py
   * stays uninitialized and the next select_program only stores the
   * executable, which nothing launches afterwards but a second initialize
   * response.
   */
  lemma EarlyInitializeDiffers(d: D.State, p: P.State, requestSeq: int, e: string)
    requires Agree(d, p) && !d.initialized && d.executable == None
    ensures var m := Response("initialize", requestSeq, true, NoBody);
      var d1 := D.SelectProgram(D.HandleEvent(d, m), e);
      var p1 := P.SelectProgram(P.HandleEvent(p, m), e);
      && d1.initialized
      && Stdin(d1.effects) == Stdin(d.effects) + [Sent(d.sequence, Launch("false", e))]
      && !p1.initialized
      && p1 == p.(executable := Some(e))
  {
    StdinSend(d.effects, Sent(d.sequence, Launch("false", e)));
  }

  /**
   * Clearing the breakpoints of one file: debug.py clears every file it
   * tracks, proto.py only the given one, so another file keeps its
   * breakpoints in proto.py and loses them in debug.py.
   */
  lemma ClearDiffers(d: D.State, p: P.State, filename: string, other: string)
    requires Agree(d, p) && D.Tracked(d) && other != filename
    ensures BreakpointsOn(Stdin(D.SetBreakpoint(d, filename, None).effects), other) == []
    ensures BreakpointsOn(Stdin(P.SetBreakpoint(p, filename, None).effects), other)
         == BreakpointsOn(Stdin(d.effects), other)
  {
    D.ClearRemovesAll(d, filename, None);
    P.ClearKeepsOtherFiles(p, filename, other);
  }

  /**
   * A scopes response holding a "Locals" and an "Arguments" scope: debug.py
   * asks for the variables of both, in that order; proto.py only for the
   * "Locals" one.
   */
  lemma ScopesDiffer(d: D.State, p: P.State, requestSeq: int)
    requires Agree(d, p)
    ensures var m := Response("scopes", requestSeq, true, ScopesBody([Scope("Locals", 5), Scope("Arguments", 6)]));
      && P.ProtoWellFormed(m)
      && Stdin(D.HandleEvent(d, m).effects)
         == Stdin(d.effects) + [Sent(d.sequence, Variables(5)), Sent(d.sequence + 1, Variables(6))]
      && Stdin(P.HandleEvent(p, m).effects) == Stdin(p.effects) + [Sent(p.sequence, Variables(5))]
      && D.HandleEvent(d, m).sequence == P.HandleEvent(p, m).sequence + 1
  {
    var scopes := [Scope("Locals", 5), Scope("Arguments", 6)];
    DebugBothScopes(d, requestSeq);
    P.ScopesResponse(p, requestSeq, scopes, 0);
    var e1 := d.effects + [Send(Sent(d.sequence, Variables(5)))];
    StdinSend(d.effects, Sent(d.sequence, Variables(5)));
    StdinSend(e1, Sent(d.sequence + 1, Variables(6)));
    StdinSend(p.effects, Sent(p.sequence, Variables(5)));
  }

  lemma DebugBothScopes(d: D.State, requestSeq: int)
    ensures var t := D.HandleEvent(d, Response("scopes", requestSeq, true, ScopesBody([Scope("Locals", 5), Scope("Arguments", 6)])));
      && t.sequence == d.sequence + 2
      && t.effects == d.effects + [Send(Sent(d.sequence, Variables(5)))] + [Send(Sent(d.sequence + 1, Variables(6)))]
  {
    var scopes := [Scope("Locals", 5), Scope("Arguments", 6)];
    D.ShownScopesAllShown(scopes);
    D.ScopesResponse(d, requestSeq, scopes);
    assert D.ScopeRequests(d.sequence, scopes)
        == [Send(Sent(d.sequence, Variables(5))), Send(Sent(d.sequence + 1, Variables(6)))];
  }

  /**
   * A variables response: debug.py records one tuple per variable and
   * writes one nested variables request per variable; proto.py writes
   * nothing and hands the GUI the same (name, value) pairs, in the same
   * order, that debug.py records. debug.py's locals_handler gets every
   * tuple gathered since the last scopes response, proto.py's only the
   * pairs of this response.
   */
  lemma VariablesDiffer(d: D.State, p: P.State, requestSeq: int, vars: seq<Variable>)
    requires Agree(d, p)
    ensures var m := Response("variables", requestSeq, true, VariablesBody(vars));
      var added := D.NewTuples(requestSeq, d.sequence, vars);
      var pairs := P.Pairs(vars);
      && |Stdin(D.HandleEvent(d, m).effects)| == |Stdin(d.effects)| + |vars|
      && Stdin(P.HandleEvent(p, m).effects) == Stdin(p.effects)
      && P.HandleEvent(p, m).sequence == p.sequence
      && |pairs| == |added|
      && (forall i :: 0 <= i < |vars| ==> pairs[i] == (added[i].name, added[i].value))
      && D.HandleEvent(d, m).effects[|D.HandleEvent(d, m).effects| - 1]
         == Call(D.LocalsShown(d.currentVariables + added))
      && P.HandleEvent(p, m).effects == p.effects + [Call(P.LocalsShown(pairs))]
  {
    var m := Response("variables", requestSeq, true, VariablesBody(vars));
    D.VariablesResponse(d, requestSeq, vars);
    P.VariablesResponse(p, requestSeq, vars);
    var t := D.HandleEvent(d, m);
    var sent := D.ExpansionRequests(d.sequence, vars);
    StdinCall(d.effects + sent, D.LocalsShown(t.currentVariables));
    ExpansionStdin(d.effects, d.sequence, vars);
    StdinCall(p.effects, P.LocalsShown(P.Pairs(vars)));
  }

  /** Each nested variables request reaches the debugger: the log gains one request per variable. */
  lemma {:induction false} ExpansionStdin(e: seq<Effect<D.Callback>>, k: int, vars: seq<Variable>)
    ensures |Stdin(e + D.ExpansionRequests(k, vars))| == |Stdin(e)| + |vars|
    decreases |vars|
  {
    if vars == [] {
      assert e + D.ExpansionRequests(k, vars) == e;
    } else {
      var first := Send(Sent(k, Variables(vars[0].variablesReference)));
      StdinSend(e, first.sent);
      ExpansionStdin(e + [first], k + 1, vars[1..]);
      assert e + D.ExpansionRequests(k, vars) == (e + [first]) + D.ExpansionRequests(k + 1, vars[1..]);
    }
  }

  /**
   * A stackTrace response writes the same scopes request in both, so the
   * states still agree; but debug.py first shows the whole stack and then
   * selects frame 0 by path and line, while proto.py shows no stack and
   * selects frame 0 by line only, after the request.
   */
  lemma StackTraceCallbacksDiffer(d: D.State, p: P.State, requestSeq: int, frames: seq<StackFrame>)
    requires Agree(d, p) && |frames| > 0
    ensures var m := Response("stackTrace", requestSeq, true, StackTraceBody(frames));
      var f := frames[0];
      && Agree(D.HandleEvent(d, m), P.HandleEvent(p, m))
      && D.HandleEvent(d, m).effects
         == d.effects + [Call(D.StackTraceShown(frames)), Send(Sent(d.sequence, Scopes(f.id))),
                         Call(D.RunningLine(f.path, f.line))]
      && P.HandleEvent(p, m).effects
         == p.effects + [Send(Sent(p.sequence, Scopes(f.id))), Call(P.RunningLine(f.line))]
  {
    var f := frames[0];
    D.StackTraceResponse(d, requestSeq, frames);
    P.StackTraceResponse(p, requestSeq, frames);
    var d1 := d.effects + [Call(D.StackTraceShown(frames))];
    StdinCall(d.effects, D.StackTraceShown(frames));
    StdinSend(d1, Sent(d.sequence, Scopes(f.id)));
    StdinCall(d1 + [Send(Sent(d.sequence, Scopes(f.id)))], D.RunningLine(f.path, f.line));
    assert d.effects + [Call(D.StackTraceShown(frames)), Send(Sent(d.sequence, Scopes(f.id))), Call(D.RunningLine(f.path, f.line))]
        == d1 + [Send(Sent(d.sequence, Scopes(f.id)))] + [Call(D.RunningLine(f.path, f.line))];
    StdinSend(p.effects, Sent(p.sequence, Scopes(f.id)));
    StdinCall(p.effects + [Send(Sent(p.sequence, Scopes(f.id)))], P.RunningLine(f.line));
    assert p.effects + [Send(Sent(p.sequence, Scopes(f.id))), Call(P.RunningLine(f.line))]
        == p.effects + [Send(Sent(p.sequence, Scopes(f.id)))] + [Call(P.RunningLine(f.line))];
  }
}

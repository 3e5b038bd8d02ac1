/**
 * Class DebugBackend of debug.py: the fields it updates and its methods,
 * each proved to leave the object in the state that module DebugSpec gives
 * for it, and to keep the invariant that the messages written so far are
 * numbered 1, 2, 3, ... and that bp_sources covers every file the debugger
 * holds breakpoints for.
 *
 * The debugger process is not started here: the model begins once some
 * candidate command line has started. The reader thread and its queue are
 * replaced by the inbox handed to GetDapMessages.
 */
module DebugBackend {
  import opened Protocol
  import Spec = DebugSpec

  /** Every operation keeps the numbering and the breakpoint coverage. */
  lemma KeepsValid(s: Spec.State, op: Spec.Op)
    requires Numbered(s.sequence, s.effects) && Spec.Tracked(s) && Spec.OpWellFormed(op)
    ensures var t := Spec.Apply(s, op); Numbered(t.sequence, t.effects) && Spec.Tracked(t)
  {
    Spec.ApplyGrows(s, op);
    var t := Spec.Apply(s, op);
    NumberedExtends(s.sequence, s.effects, t.sequence, t.effects);
    Spec.ApplyTracks(s, op);
  }

  lemma HandleKeepsValid(s: Spec.State, m: Message)
    requires Numbered(s.sequence, s.effects) && Spec.Tracked(s) && WellFormed(m)
    ensures var t := Spec.HandleEvent(s, m); Numbered(t.sequence, t.effects) && Spec.Tracked(t)
  {
    Spec.HandleEventGrows(s, m);
    var t := Spec.HandleEvent(s, m);
    NumberedExtends(s.sequence, s.effects, t.sequence, t.effects);
    Spec.HandleEventQuiet(s, m);
  }

  class Backend {
    var sequence: int
    var initialized: bool
    var executable: Option<string>
    var tid: int
    var currentVariables: seq<Spec.VarTuple>
    var bpSources: seq<string>
    /** The debugger's standard input and the callbacks, in the order they happened. */
    var effects: seq<Effect<Spec.Callback>>

    function Model(): Spec.State
      reads this
    {
      Spec.State(sequence, initialized, executable, tid, currentVariables, bpSources, effects)
    }

    ghost predicate Valid()
      reads this
    {
      Numbered(sequence, effects) && Spec.Tracked(Model())
    }

    /** __init__ after the debugger has started: the fields, then initialize. */
    constructor ()
      ensures Model() == Spec.Init()
      ensures Valid()
    {
      sequence := 1;
      initialized := false;
      executable := None;
      tid := 0;
      currentVariables := [];
      bpSources := [];
      effects := [];
      new;
      SendDap(Initialize("debugger"));
      StdinSend<Spec.Callback>([], Sent(1, Initialize("debugger")));
      Spec.InitTracked();
    }

    /** send_dap: write the request numbered with the counter, then increment the counter. */
    method SendDap(r: Request)
      modifies this
      ensures Model() == Spec.SendDap(old(Model()), r)
    {
      effects := effects + [Send(Sent(sequence, r))];
      sequence := sequence + 1;
    }

    method Notify(c: Spec.Callback)
      modifies this
      ensures Model() == Spec.Notify(old(Model()), c)
    {
      effects := effects + [Call(c)];
    }

    method SetBreakpoint(filename: string, lineno: Option<int>)
      requires Valid()
      modifies this
      ensures Model() == Spec.SetBreakpoint(old(Model()), filename, lineno)
      ensures Valid()
    {
      ghost var s0 := Model();
      if !LineGiven(lineno) {
        var files := bpSources;
        var i := 0;
        while i < |files|
          invariant 0 <= i <= |files|
          invariant bpSources == files
          invariant Spec.ClearSources(Model(), files[i..]) == Spec.ClearSources(s0, files)
        {
          assert files[i..][1..] == files[i + 1..];
          SendDap(SetBreakpoints(files[i], None));
          i := i + 1;
        }
        bpSources := [];
      } else {
        bpSources := bpSources + [filename];
        SendDap(SetBreakpoints(filename, Some([lineno.value])));
      }
      KeepsValid(s0, Spec.DoSetBreakpoint(filename, lineno));
    }

    method Cont()
      requires Valid()
      modifies this
      ensures Model() == Spec.Cont(old(Model()))
      ensures Valid()
    {
      ghost var s0 := Model();
      SendDap(Continue(tid));
      KeepsValid(s0, Spec.DoCont);
    }

    method Step()
      requires Valid()
      modifies this
      ensures Model() == Spec.Step(old(Model()))
      ensures Valid()
    {
      ghost var s0 := Model();
      SendDap(Next(tid));
      KeepsValid(s0, Spec.DoStep);
    }

    method SelectProgram(e: string)
      requires Valid()
      modifies this
      ensures Model() == Spec.SelectProgram(old(Model()), e)
      ensures Valid()
    {
      ghost var s0 := Model();
      if initialized {
        SendDap(Launch("false", e));
      } else {
        executable := Some(e);
      }
      KeepsValid(s0, Spec.DoSelectProgram(e));
    }

    method RunProgram()
      requires Valid()
      modifies this
      ensures Model() == Spec.RunProgram(old(Model()))
      ensures Valid()
    {
      ghost var s0 := Model();
      SendDap(ConfigurationDone);
      KeepsValid(s0, Spec.DoRunProgram);
    }

    /** handle_event: the five tests of the source, one after the other. */
    method HandleEvent(m: Message)
      requires Valid() && WellFormed(m)
      modifies this
      ensures Model() == Spec.HandleEvent(old(Model()), m)
      ensures Valid()
    {
      ghost var s0 := Model();
      if m.Event? && m.event == "stopped" {
        if m.body.reason in Spec.StopReasons {
          tid := m.body.threadId;
          SendDap(StackTrace(tid));
        }
      }
      assert Model() == Spec.OnStopped(s0, m);
      ghost var s1 := Model();

      if m.Response? && m.command == "stackTrace" && m.success {
        var frames := m.body.stackFrames;
        Notify(Spec.StackTraceShown(frames));
        SendDap(Scopes(frames[0].id));
        Notify(Spec.RunningLine(frames[0].path, frames[0].line));
      }
      assert Model() == Spec.OnStackTrace(s1, m);
      ghost var s2 := Model();

      if m.Response? && m.command == "scopes" && m.success {
        var l := Spec.ShownScopes(m.body.scopes);
        currentVariables := [];
        ghost var start := Model();
        var i := 0;
        while i < |l|
          invariant 0 <= i <= |l|
          invariant Spec.RequestVariables(Model(), l[i..]) == Spec.RequestVariables(start, l)
        {
          assert l[i..][1..] == l[i + 1..];
          SendDap(Variables(l[i].variablesReference));
          i := i + 1;
        }
      }
      assert Model() == Spec.OnScopes(s2, m);
      ghost var s3 := Model();

      if m.Response? && m.command == "variables" && m.success {
        var responseTo := m.requestSeq;
        var vars := m.body.variables;
        var i := 0;
        while i < |vars|
          invariant 0 <= i <= |vars|
          invariant Spec.Expand(Model(), responseTo, vars[i..]) == Spec.Expand(s3, responseTo, vars)
        {
          var x := vars[i];
          assert vars[i..][1..] == vars[i + 1..];
          currentVariables := currentVariables + [Spec.VarTuple(x.name, x.value, x.variablesReference, responseTo, sequence)];
          SendDap(Variables(x.variablesReference));
          i := i + 1;
        }
        Notify(Spec.LocalsShown(currentVariables));
      }
      assert Model() == Spec.OnVariables(s3, m);
      ghost var s4 := Model();

      if CommandOf(m) == Some("initialize") {
        initialized := true;
        if Truthy(executable) {
          SendDap(Launch("false", executable.value));
          executable := None;
        }
      }
      assert Model() == Spec.OnInitialize(s4, m);
      HandleKeepsValid(s0, m);
    }

    /** get_dap_messages: drain the inbox in arrival order. */
    method GetDapMessages(inbox: seq<Message>)
      requires Valid() && Spec.AllWellFormed(inbox)
      modifies this
      ensures Model() == Spec.HandleAll(old(Model()), inbox)
      ensures Valid()
    {
      ghost var s0 := Model();
      var i := 0;
      while i < |inbox|
        invariant 0 <= i <= |inbox|
        invariant Spec.HandleAll(Model(), inbox[i..]) == Spec.HandleAll(s0, inbox)
        invariant Valid()
      {
        assert inbox[i..][1..] == inbox[i + 1..];
        HandleEvent(inbox[i]);
        i := i + 1;
      }
    }
  }
}

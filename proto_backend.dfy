/**
 * Class DebugBackend of proto.py: its fields and methods, each proved to
 * leave the object in the state module ProtoSpec gives for it and to keep
 * the messages written numbered 1, 2, 3, ...
 *
 * As in DebugBackend, the debugger process, the reader thread and the
 * queue are not modelled; GetDapMessages is handed the queued messages.
 */
module ProtoBackend {
  import opened Protocol
  import Spec = ProtoSpec

  lemma KeepsNumbered(s: Spec.State, op: Spec.Op)
    requires Numbered(s.sequence, s.effects) && Spec.OpWellFormed(op)
    ensures var t := Spec.Apply(s, op); Numbered(t.sequence, t.effects)
  {
    Spec.ApplyGrows(s, op);
    var t := Spec.Apply(s, op);
    NumberedExtends(s.sequence, s.effects, t.sequence, t.effects);
  }

  lemma HandleKeepsNumbered(s: Spec.State, m: Message)
    requires Numbered(s.sequence, s.effects) && Spec.ProtoWellFormed(m)
    ensures var t := Spec.HandleEvent(s, m); Numbered(t.sequence, t.effects)
  {
    Spec.HandleEventGrows(s, m);
    var t := Spec.HandleEvent(s, m);
    NumberedExtends(s.sequence, s.effects, t.sequence, t.effects);
  }

  class Backend {
    var sequence: int
    var initialized: bool
    var executable: Option<string>
    var tid: int
    /** The debugger's standard input and the callbacks, in the order they happened. */
    var effects: seq<Effect<Spec.Callback>>

    function Model(): Spec.State
      reads this
    {
      Spec.State(sequence, initialized, executable, tid, effects)
    }

    ghost predicate Valid()
      reads this
    {
      Numbered(sequence, effects)
    }

    constructor ()
      ensures Model() == Spec.Init()
      ensures Valid()
    {
      sequence := 1;
      initialized := false;
      executable := None;
      tid := 0;
      effects := [];
      new;
      SendDap(Initialize("debugger"));
      StdinSend<Spec.Callback>([], Sent(1, Initialize("debugger")));
    }

    method SendDap(r: Request)
      modifies this
      ensures Model() == Spec.SendDap(old(Model()), r)
    {
      effects := effects + [Send(Sent(sequence, r))];
      sequence := sequence + 1;
    }

    method Notify(c: Spec.Callback)
      modifies this
      ensures Model() == Spec.Notify(old(Model()), c)
    {
      effects := effects + [Call(c)];
    }

    method SetBreakpoint(filename: string, lineno: Option<int>)
      requires Valid()
      modifies this
      ensures Model() == Spec.SetBreakpoint(old(Model()), filename, lineno)
      ensures Valid()
    {
      ghost var s0 := Model();
      if !LineGiven(lineno) {
        SendDap(SetBreakpoints(filename, None));
      } else {
        SendDap(SetBreakpoints(filename, Some([lineno.value])));
      }
      KeepsNumbered(s0, Spec.DoSetBreakpoint(filename, lineno));
    }

    method Cont()
      requires Valid()
      modifies this
      ensures Model() == Spec.Cont(old(Model()))
      ensures Valid()
    {
      ghost var s0 := Model();
      SendDap(Continue(tid));
      KeepsNumbered(s0, Spec.DoCont);
    }

    method Step()
      requires Valid()
      modifies this
      ensures Model() == Spec.Step(old(Model()))
      ensures Valid()
    {
      ghost var s0 := Model();
      SendDap(Next(tid));
      KeepsNumbered(s0, Spec.DoStep);
    }

    method SelectProgram(e: string)
      requires Valid()
      modifies this
      ensures Model() == Spec.SelectProgram(old(Model()), e)
      ensures Valid()
    {
      ghost var s0 := Model();
      if initialized {
        SendDap(Launch("false", e));
      } else {
        executable := Some(e);
      }
      KeepsNumbered(s0, Spec.DoSelectProgram(e));
    }

    method RunProgram()
      requires Valid()
      modifies this
      ensures Model() == Spec.RunProgram(old(Model()))
      ensures Valid()
    {
      ghost var s0 := Model();
      SendDap(ConfigurationDone);
      KeepsNumbered(s0, Spec.DoRunProgram);
    }

    /** handle_event: the five tests of the source, one after the other. */
    method HandleEvent(m: Message)
      requires Valid() && Spec.ProtoWellFormed(m)
      modifies this
      ensures Model() == Spec.HandleEvent(old(Model()), m)
      ensures Valid()
    {
      ghost var s0 := Model();
      if m.Event? && m.event == "stopped" {
        if m.body.reason in Spec.StopReasons {
          tid := m.body.threadId;
          SendDap(StackTrace(tid));
        }
      }
      assert Model() == Spec.OnStopped(s0, m);
      ghost var s1 := Model();

      if m.Response? && m.command == "stackTrace" && m.success {
        var frames := m.body.stackFrames;
        SendDap(Scopes(frames[0].id));
        Notify(Spec.RunningLine(frames[0].line));
      }
      assert Model() == Spec.OnStackTrace(s1, m);
      ghost var s2 := Model();

      if m.Response? && m.command == "scopes" && m.success {
        var l := Spec.LocalsScopes(m.body.scopes);
        SendDap(Variables(l[0].variablesReference));
      }
      assert Model() == Spec.OnScopes(s2, m);
      ghost var s3 := Model();

      if m.Response? && m.command == "variables" && m.success {
        var pairs := Spec.Pairs(m.body.variables);
        Notify(Spec.LocalsShown(pairs));
      }
      assert Model() == Spec.OnVariables(s3, m);
      ghost var s4 := Model();

      if CommandOf(m) == Some("initialize") && Truthy(executable) {
        initialized := true;
        SendDap(Launch("false", executable.value));
        executable := None;
      }
      assert Model() == Spec.OnInitialize(s4, m);
      HandleKeepsNumbered(s0, m);
    }

    /** get_dap_messages: drain the inbox in arrival order. */
    method GetDapMessages(inbox: seq<Message>)
      requires Valid() && Spec.AllWellFormed(inbox)
      modifies this
      ensures Model() == Spec.HandleAll(old(Model()), inbox)
      ensures Valid()
    {
      ghost var s0 := Model();
      var i := 0;
      while i < |inbox|
        invariant 0 <= i <= |inbox|
        invariant Spec.HandleAll(Model(), inbox[i..]) == Spec.HandleAll(s0, inbox)
        invariant Valid()
      {
        assert inbox[i..][1..] == inbox[i + 1..];
        HandleEvent(inbox[i]);
        i := i + 1;
      }
    }
  }
}

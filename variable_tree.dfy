/**
 * The linking rule of DebugFrontend.update_locals in debug.py: the flat
 * list that locals_handler receives becomes a forest. Each tuple goes in at
 * the top level and is then moved, at child position 0, under the most
 * recently recorded tuple whose own expansion seq (5th field) equals the
 * tuple's request_seq (4th field). The Treeview itself is not modelled: an
 * item is its index in the list, and the forest is the list of top-level
 * items plus, per item, its children in display order.
 */
module VariableTree {
  import opened Protocol
  import Spec = DebugSpec

  /** The index of the last of the first n tuples whose expansion seq is key. */
  function LastExpansion(values: seq<Spec.VarTuple>, key: int, n: nat): (r: Option<nat>)
    requires n <= |values|
    ensures r.Some? ==> r.value < n && values[r.value].expansionSeq == key
    ensures r.Some? ==> forall j :: r.value < j < n ==> values[j].expansionSeq != key
    ensures r.None? ==> forall j :: 0 <= j < n ==> values[j].expansionSeq != key
  {
    if n == 0 then None
    else if values[n - 1].expansionSeq == key then Some(n - 1)
    else LastExpansion(values, key, n - 1)
  }

  /**
   * The parent of tuple i: the last tuple up to and including i whose
   * expansion seq is i's request_seq (the dictionary entry for i is written
   * before it is looked up).
   */
  function ParentOf(values: seq<Spec.VarTuple>, i: nat): Option<nat>
    requires i < |values|
  {
    LastExpansion(values, values[i].requestSeq, i + 1)
  }

  /** No tuple is its own parent (the Treeview refuses to move an item into itself). */
  predicate NoSelfLinks(values: seq<Spec.VarTuple>) {
    forall i :: 0 <= i < |values| ==> values[i].requestSeq != values[i].expansionSeq
  }

  lemma ParentBefore(values: seq<Spec.VarTuple>, i: nat)
    requires NoSelfLinks(values) && i < |values|
    ensures ParentOf(values, i).Some? ==> ParentOf(values, i).value < i
  {
  }

  /** The tuples among the first n whose parent is p, oldest first. */
  function Having(values: seq<Spec.VarTuple>, p: Option<nat>, n: nat): seq<nat>
    requires n <= |values|
  {
    if n == 0 then []
    else Having(values, p, n - 1) + (if ParentOf(values, n - 1) == p then [n - 1] else [])
  }

  /** The children of tuple j among the first n, newest first (each is inserted at 0). */
  function ChildrenOf(values: seq<Spec.VarTuple>, j: nat, n: nat): seq<nat>
    requires n <= |values|
  {
    if n == 0 then []
    else (if ParentOf(values, n - 1) == Some(j) then [n - 1] else []) + ChildrenOf(values, j, n - 1)
  }

  lemma {:induction false} NoChildrenYet(values: seq<Spec.VarTuple>, j: nat, n: nat)
    requires NoSelfLinks(values) && n <= |values| && n <= j
    ensures ChildrenOf(values, j, n) == []
  {
    if n > 0 {
      ParentBefore(values, n - 1);
      NoChildrenYet(values, j, n - 1);
    }
  }

  /**
   * update_locals: returns the top-level items in order and, for every
   * item, its children in display order. A tuple sits under the most
   * recently recorded tuple whose expansion seq is its request_seq, and
   * stays top-level when there is none.
   */
  method UpdateLocals(values: seq<Spec.VarTuple>) returns (roots: seq<nat>, children: seq<seq<nat>>)
    requires NoSelfLinks(values)
    ensures roots == Having(values, None, |values|)
    ensures |children| == |values|
    ensures forall j :: 0 <= j < |values| ==> children[j] == ChildrenOf(values, j, |values|)
  {
    var resources: map<int, nat> := map[];
    roots, children := [], [];
    var i := 0;
    while i < |values|
      invariant 0 <= i <= |values|
      invariant Indexes(values, resources, i)
      invariant roots == Having(values, None, i)
      invariant |children| == i
      invariant forall j :: 0 <= j < i ==> children[j] == ChildrenOf(values, j, i)
    {
      var pair := values[i];
      ParentLookup(values, resources, i);
      ForestStep(values, roots, children, i);
      resources := resources[pair.expansionSeq := i];
      roots := roots + [i];
      children := children + [[]];
      if pair.requestSeq in resources {
        var p := resources[pair.requestSeq];
        roots := roots[..|roots| - 1];
        children := children[p := [i] + children[p]];
      }
      i := i + 1;
    }
  }

  /**
   * One step of the loop: item i goes in at the top level and, if it has a
   * parent p, is moved from there to the front of p's children.
   */
  lemma ForestStep(values: seq<Spec.VarTuple>, roots: seq<nat>, children: seq<seq<nat>>, i: nat)
    requires NoSelfLinks(values) && i < |values|
    requires roots == Having(values, None, i) && |children| == i
    requires forall j :: 0 <= j < i ==> children[j] == ChildrenOf(values, j, i)
    ensures var p := ParentOf(values, i);
      var c := children + [[]];
      var q := if p.Some? then p.value else 0;
      var moved := c[q := [i] + c[q]];
      && (p.None? ==> (roots + [i]) == Having(values, None, i + 1))
      && (p.None? ==> forall j :: 0 <= j < i + 1 ==> c[j] == ChildrenOf(values, j, i + 1))
      && (p.Some? ==> (roots + [i])[..|roots|] == Having(values, None, i + 1))
      && (p.Some? ==> forall j :: 0 <= j < i + 1 ==> moved[j] == ChildrenOf(values, j, i + 1))
  {
    ParentBefore(values, i);
    NoChildrenYet(values, i, i);
    assert (roots + [i])[..|roots|] == roots;
  }

  /** The dictionary maps each expansion seq to the last of the first n tuples that carries it. */
  ghost predicate Indexes(values: seq<Spec.VarTuple>, resources: map<int, nat>, n: nat)
    requires n <= |values|
  {
    forall k :: LastExpansion(values, k, n) == if k in resources then Some(resources[k]) else None
  }

  /**
   * Recording tuple n and then looking up its request_seq finds its parent,
   * and the dictionary then indexes the first n + 1 tuples.
   */
  lemma ParentLookup(values: seq<Spec.VarTuple>, resources: map<int, nat>, n: nat)
    requires NoSelfLinks(values) && n < |values| && Indexes(values, resources, n)
    ensures var r := resources[values[n].expansionSeq := n];
      && Indexes(values, r, n + 1)
      && ParentOf(values, n) == (if values[n].requestSeq in r then Some(r[values[n].requestSeq]) else None)
  {
    var r := resources[values[n].expansionSeq := n];
    forall k ensures LastExpansion(values, k, n + 1) == if k in r then Some(r[k]) else None {
      if k != values[n].expansionSeq {
        assert LastExpansion(values, k, n + 1) == LastExpansion(values, k, n);
      }
    }
  }

  /* ---------- what the engine hands to update_locals ---------- */

  /**
   * Expansion seqs strictly increase along the list and stay below the
   * counter k, and every tuple answers a request older than its own
   * expansion request.
   */
  predicate Ordered(values: seq<Spec.VarTuple>, k: int) {
    && (forall i, j :: 0 <= i < j < |values| ==> values[i].expansionSeq < values[j].expansionSeq)
    && (forall i :: 0 <= i < |values| ==> values[i].requestSeq < values[i].expansionSeq < k)
  }

  lemma OrderedNoSelfLinks(values: seq<Spec.VarTuple>, k: int)
    requires Ordered(values, k)
    ensures NoSelfLinks(values)
  {
  }

  lemma {:induction false} LastExpansionSkip(values: seq<Spec.VarTuple>, key: int, lo: nat, hi: nat)
    requires lo <= hi <= |values|
    requires forall j :: lo <= j < hi ==> values[j].expansionSeq != key
    ensures LastExpansion(values, key, hi) == LastExpansion(values, key, lo)
    decreases hi
  {
    if hi > lo {
      LastExpansionSkip(values, key, lo, hi - 1);
    }
  }

  lemma {:induction false} LastExpansionPrefix(a: seq<Spec.VarTuple>, b: seq<Spec.VarTuple>, key: int, n: nat)
    requires n <= |a|
    ensures LastExpansion(a + b, key, n) == LastExpansion(a, key, n)
  {
    if n > 0 {
      assert (a + b)[n - 1] == a[n - 1];
      LastExpansionPrefix(a, b, key, n - 1);
    }
  }

  /**
   * A successful variables response answering an earlier request keeps the
   * list ordered, and every variable in it is linked under the tuple whose
   * expansion request the response answers, or stays top-level when no
   * tuple made that request.
   */
  lemma VariablesResponseLinks(s: Spec.State, requestSeq: int, vars: seq<Variable>)
    requires Ordered(s.currentVariables, s.sequence)
    requires requestSeq < s.sequence
    ensures var t := Spec.HandleEvent(s, Response("variables", requestSeq, true, VariablesBody(vars)));
      var n := |s.currentVariables|;
      && Ordered(t.currentVariables, t.sequence)
      && |t.currentVariables| == n + |vars|
      && forall i :: n <= i < |t.currentVariables| ==>
           ParentOf(t.currentVariables, i) == LastExpansion(s.currentVariables, requestSeq, n)
  {
    Spec.VariablesResponse(s, requestSeq, vars);
    var old_ := s.currentVariables;
    var added := Spec.NewTuples(requestSeq, s.sequence, vars);
    var all := old_ + added;
    var n := |old_|;
    OrderedAppend(old_, requestSeq, s.sequence, vars);
    forall i | n <= i < |all| ensures ParentOf(all, i) == LastExpansion(old_, requestSeq, n) {
      assert all[i] == added[i - n];
      forall j | n <= j < i + 1 ensures all[j].expansionSeq != requestSeq {
        assert all[j] == added[j - n];
      }
      LastExpansionSkip(all, requestSeq, n, i + 1);
      LastExpansionPrefix(old_, added, requestSeq, n);
    }
  }

  /** Appending the tuples of one variables response keeps the list ordered. */
  lemma OrderedAppend(values: seq<Spec.VarTuple>, requestSeq: int, k: int, vars: seq<Variable>)
    requires Ordered(values, k) && requestSeq < k
    ensures Ordered(values + Spec.NewTuples(requestSeq, k, vars), k + |vars|)
  {
    var added := Spec.NewTuples(requestSeq, k, vars);
    var all := values + added;
    var n := |values|;
    forall i, j | 0 <= i < j < |all| ensures all[i].expansionSeq < all[j].expansionSeq {
      if j >= n { assert all[j] == added[j - n]; }
      if i >= n { assert all[i] == added[i - n]; }
    }
    forall i | 0 <= i < |all| ensures all[i].requestSeq < all[i].expansionSeq < k + |vars| {
      if i >= n { assert all[i] == added[i - n]; }
    }
  }

  /** With distinct expansion seqs, "most recently recorded" is simply "the one". */
  lemma UniqueParent(values: seq<Spec.VarTuple>, k: int, i: nat, j: nat)
    requires Ordered(values, k) && i < |values| && j < i
    requires values[j].expansionSeq == values[i].requestSeq
    ensures ParentOf(values, i) == Some(j)
  {
  }

  /* ---------- every list the engine hands to locals_handler ---------- */

  /** Every locals_handler call in the log received a list without self-links. */
  predicate ShownLinksOk(e: seq<Effect<Spec.Callback>>) {
    forall i :: 0 <= i < |e| ==> (e[i].Call? && e[i].call.LocalsShown? ==> NoSelfLinks(e[i].call.variables))
  }

  /** The engine's invariant for update_locals: the list is ordered, and so was every list already shown. */
  predicate Linked(s: Spec.State) {
    Ordered(s.currentVariables, s.sequence) && ShownLinksOk(s.effects)
  }

  lemma ShownLinksAppend(a: seq<Effect<Spec.Callback>>, b: seq<Effect<Spec.Callback>>)
    requires ShownLinksOk(a) && ShownLinksOk(b)
    ensures ShownLinksOk(a + b)
  {
    forall i | |a| <= i < |a + b| ensures (a + b)[i] == b[i - |a|] { }
  }

  lemma SendDapLinked(s: Spec.State, r: Request)
    requires Linked(s)
    ensures Linked(Spec.SendDap(s, r))
  {
    ShownLinksAppend(s.effects, [Send(Sent(s.sequence, r))]);
  }

  lemma NotifyLinked(s: Spec.State, c: Spec.Callback)
    requires Linked(s) && (c.LocalsShown? ==> NoSelfLinks(c.variables))
    ensures Linked(Spec.Notify(s, c))
  {
    ShownLinksAppend(s.effects, [Call(c)]);
  }

  lemma {:induction false} RequestVariablesLinked(s: Spec.State, scopes: seq<Scope>)
    requires Linked(s)
    ensures Linked(Spec.RequestVariables(s, scopes))
    decreases |scopes|
  {
    if scopes != [] {
      SendDapLinked(s, Variables(scopes[0].variablesReference));
      RequestVariablesLinked(Spec.SendDap(s, Variables(scopes[0].variablesReference)), scopes[1..]);
    }
  }

  lemma {:induction false} ClearSourcesLinked(s: Spec.State, files: seq<string>)
    requires Linked(s)
    ensures Linked(Spec.ClearSources(s, files))
    decreases |files|
  {
    if files != [] {
      SendDapLinked(s, SetBreakpoints(files[0], None));
      ClearSourcesLinked(Spec.SendDap(s, SetBreakpoints(files[0], None)), files[1..]);
    }
  }

  /** A variables response to a request already sent: the grown list is ordered, and that list is what locals_handler gets. */
  lemma VariablesLinked(s: Spec.State, m: Message)
    requires WellFormed(m) && Linked(s) && Spec.Succeeded(m, "variables") && m.requestSeq < s.sequence
    ensures Linked(Spec.OnVariables(s, m))
  {
    var vars := m.body.variables;
    Spec.ExpandRecords(s, m.requestSeq, vars);
    var t := Spec.Expand(s, m.requestSeq, vars);
    OrderedAppend(s.currentVariables, m.requestSeq, s.sequence, vars);
    var sent := Spec.ExpansionRequests(s.sequence, vars);
    assert ShownLinksOk(sent) by {
      forall i | 0 <= i < |sent| ensures sent[i].Send? { }
    }
    ShownLinksAppend(s.effects, sent);
    OrderedNoSelfLinks(t.currentVariables, t.sequence);
    NotifyLinked(t, Spec.LocalsShown(t.currentVariables));
  }

  /**
   * handle_event keeps the invariant, provided a variables response answers
   * a request that was already sent (its request_seq is below the counter).
   */
  lemma HandleEventLinked(s: Spec.State, m: Message)
    requires WellFormed(m) && Linked(s)
    requires Spec.Succeeded(m, "variables") ==> m.requestSeq < s.sequence
    ensures Linked(Spec.HandleEvent(s, m))
  {
    var s1 := Spec.OnStopped(s, m);
    if Spec.IsStop(m) && m.body.reason in Spec.StopReasons {
      SendDapLinked(s.(tid := m.body.threadId), StackTrace(m.body.threadId));
    }
    var s2 := Spec.OnStackTrace(s1, m);
    if Spec.Succeeded(m, "stackTrace") {
      var frames := m.body.stackFrames;
      var a := Spec.Notify(s1, Spec.StackTraceShown(frames));
      NotifyLinked(s1, Spec.StackTraceShown(frames));
      SendDapLinked(a, Scopes(frames[0].id));
      NotifyLinked(Spec.SendDap(a, Scopes(frames[0].id)), Spec.RunningLine(frames[0].path, frames[0].line));
    }
    var s3 := Spec.OnScopes(s2, m);
    if Spec.Succeeded(m, "scopes") {
      RequestVariablesLinked(s2.(currentVariables := []), Spec.ShownScopes(m.body.scopes));
    }
    var s4 := Spec.OnVariables(s3, m);
    if Spec.Succeeded(m, "variables") {
      assert s3 == s;
      VariablesLinked(s3, m);
    }
    if CommandOf(m) == Some("initialize") && Truthy(s4.executable) {
      SendDapLinked(s4.(initialized := true), Launch("false", s4.executable.value));
    }
  }

  /**
   * The debugger answers only requests it has been sent: every variables
   * response in the queue carries a request_seq below the counter at the
   * moment it is handled.
   */
  predicate AnswersSent(s: Spec.State, ms: seq<Message>)
    requires Spec.AllWellFormed(ms)
    decreases |ms|
  {
    ms == []
    || (&& (Spec.Succeeded(ms[0], "variables") ==> ms[0].requestSeq < s.sequence)
        && AnswersSent(Spec.HandleEvent(s, ms[0]), ms[1..]))
  }

  lemma {:induction false} HandleAllLinked(s: Spec.State, ms: seq<Message>)
    requires Spec.AllWellFormed(ms) && Linked(s) && AnswersSent(s, ms)
    ensures Linked(Spec.HandleAll(s, ms))
    decreases |ms|
  {
    if ms != [] {
      HandleEventLinked(s, ms[0]);
      HandleAllLinked(Spec.HandleEvent(s, ms[0]), ms[1..]);
    }
  }

  /** The same assumption over a whole session: each pump's queue answers only requests already sent. */
  predicate SessionAnswersSent(s: Spec.State, ops: seq<Spec.Op>)
    requires forall i :: 0 <= i < |ops| ==> Spec.OpWellFormed(ops[i])
    decreases |ops|
  {
    ops == []
    || (&& (ops[0].Pump? ==> assert Spec.OpWellFormed(ops[0]); AnswersSent(s, ops[0].inbox))
        && SessionAnswersSent(Spec.Apply(s, ops[0]), ops[1..]))
  }

  lemma ApplyLinked(s: Spec.State, op: Spec.Op)
    requires Spec.OpWellFormed(op) && Linked(s)
    requires op.Pump? ==> AnswersSent(s, op.inbox)
    ensures Linked(Spec.Apply(s, op))
  {
    match op
    case Pump(inbox) => HandleAllLinked(s, inbox);
    case DoSelectProgram(e) => if s.initialized { SendDapLinked(s, Launch("false", e)); }
    case DoSetBreakpoint(f, l) =>
      if !LineGiven(l) { ClearSourcesLinked(s, s.bpSources); }
      else { SendDapLinked(s.(bpSources := s.bpSources + [f]), SetBreakpoints(f, Some([l.value]))); }
    case DoCont => SendDapLinked(s, Continue(s.tid));
    case DoStep => SendDapLinked(s, Next(s.tid));
    case DoRunProgram => SendDapLinked(s, ConfigurationDone);
  }

  lemma {:induction false} LinkedAlong(s: Spec.State, ops: seq<Spec.Op>)
    requires forall i :: 0 <= i < |ops| ==> Spec.OpWellFormed(ops[i])
    requires Linked(s) && SessionAnswersSent(s, ops)
    ensures Linked(Spec.ApplyAll(s, ops))
    decreases |ops|
  {
    if ops != [] {
      ApplyLinked(s, ops[0]);
      LinkedAlong(Spec.Apply(s, ops[0]), ops[1..]);
    }
  }

  /**
   * Over any session in which the debugger answers only requests it was
   * sent, every list handed to locals_handler, and the list held at the
   * end, has no tuple whose request_seq equals its own expansion seq; so
   * UpdateLocals' precondition holds for every call the engine makes.
   */
  lemma SessionNoSelfLinks(ops: seq<Spec.Op>)
    requires forall i :: 0 <= i < |ops| ==> Spec.OpWellFormed(ops[i])
    requires SessionAnswersSent(Spec.Init(), ops)
    ensures var t := Spec.ApplyAll(Spec.Init(), ops);
      && NoSelfLinks(t.currentVariables)
      && forall i :: 0 <= i < |t.effects| && t.effects[i].Call? && t.effects[i].call.LocalsShown? ==>
           NoSelfLinks(t.effects[i].call.variables)
  {
    var init := Spec.Init();
    assert init.effects == [Send(Sent(1, Initialize("debugger")))];
    assert Linked(init);
    LinkedAlong(init, ops);
    var t := Spec.ApplyAll(init, ops);
    OrderedNoSelfLinks(t.currentVariables, t.sequence);
  }
}

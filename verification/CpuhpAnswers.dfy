// Which callbacks one step calls, and what it answers.
module CpuhpAnswers {
  import opened CpuhpSpec
  import opened CpuhpWalk

  lemma {:induction false} NodeCallsAre(s: int, up: bool, nodes: seq<Node>)
    ensures |NodeCalls(s, up, nodes)| == |nodes|
    ensures forall i | 0 <= i < |nodes| :: NodeCalls(s, up, nodes)[i] == Call(s, up, Some(nodes[i]))
    decreases |nodes|
  {
    if nodes != [] {
      NodeCallsAre(s, up, nodes[1..]);
    }
  }

  // The calls of a whole step: none without the callback, one for a plain step, and one for each instance in
  // order for a step that has instances.
  lemma StepCallsAre(env: Env, s: int, up: bool)
    ensures var st, calls := env.hp(s), StepCalls(env, s, up, None);
      if !(if up then st.startup else st.teardown) then calls == []
      else if !st.multi then calls == [Call(s, up, None)]
      else |calls| == |st.list| && forall i | 0 <= i < |st.list| :: calls[i] == Call(s, up, Some(st.list[i]))
  {
    BeforeIsAll(env.hp(s).list, None);
    NodeCallsAre(s, up, env.hp(s).list);
  }

  // The way from p over n steps, up to p + n or down to p - n, and the way back from there.
  lemma PassedAre(env: Env, p: int, n: nat)
    ensures Passed(env, p, 0, true) == Passed(env, p, 0, false) == [] == Undone(env, p, 0, true) == Undone(env, p, 0, false)
    ensures Passed(env, p, n + 1, true) == Passed(env, p, n, true) + StepCalls(env, p + n + 1, true, None)
    ensures Passed(env, p, n + 1, false) == Passed(env, p, n, false) + StepCalls(env, p - n, false, None)
    ensures Undone(env, p, n + 1, true) == StepCalls(env, p + n + 1, false, None) + Undone(env, p, n, true)
    ensures Undone(env, p, n + 1, false) == StepCalls(env, p - n, true, None) + Undone(env, p, n, false)
  {
    hide StepCalls;
  }

  // An injected failure is used up without a call; a step without the callback succeeds; a plain step, or an
  // instance that is given, takes exactly one call, and the answer is that of the callback.
  lemma InvokeOnce(env: Env, c: Cpu, s: int, up: bool, node: Option<Node>, useLast: bool)
    ensures var (t, ret) := Invoke(env, c, s, up, node, useLast);
      var st := env.hp(s);
      var has := if up then st.startup else st.teardown;
      if c.fail == s then t == c.(fail := -1) && ret == if has then -11 else 0
      else if !has then t == c && ret == 0
      else if !st.multi then t == c.(log := c.log + [Call(s, up, None)]) && ret == env.outcome(c.log + [Call(s, up, None)])
      else if node.Some? then t == c.(log := c.log + [Call(s, up, node)]) && ret == env.outcome(c.log + [Call(s, up, node)])
      else t == c.(log := t.log, last := t.last) && (!useLast ==> t.last == c.last)
  {
    hide RunUntilFailure, RunAll, Before;
  }

  // Which of the instances are called when none is given: in order up to the first that fails, or up to the
  // one where an earlier call stopped.
  ghost predicate Called(env: Env, base: seq<Call>, s: int, up: bool, nodes: seq<Node>, k: nat, log: seq<Call>, ret: int) {
    && k <= |nodes| && AllPassed(env, base, NodeCalls(s, up, nodes[..k]))
    && if k == |nodes| then ret == 0 && log == base + NodeCalls(s, up, nodes)
       else
         && log == base + NodeCalls(s, up, nodes[..k]) + [Call(s, up, Some(nodes[k]))]
         && ret == env.outcome(log) != 0
  }

  lemma RunCalls(env: Env, log: seq<Call>, s: int, up: bool, nodes: seq<Node>)
    ensures var r := RunUntilFailure(env, log, s, up, nodes); Called(env, log, s, up, nodes, r.done, r.log, r.ret)
  {
    RunMeaning(env, log, s, up, nodes);
    var r := RunUntilFailure(env, log, s, up, nodes);
    assert nodes[..|nodes|] == nodes;
    hide RunUntilFailure, NodeCalls, AllPassed;
  }

  // With the place of an earlier failure: the instances in front of it are called, and a new failure is
  // remembered in its stead.
  lemma InvokeInstances(env: Env, c: Cpu, s: int, up: bool) returns (k: nat)
    requires var st := env.hp(s); c.fail != s && st.multi && if up then st.startup else st.teardown
    ensures var nodes := Before(env.hp(s).list, c.last);
      var (t, ret) := Invoke(env, c, s, up, None, true);
      Called(env, c.log, s, up, nodes, k, t.log, ret) && t.last == if k < |nodes| then Some(nodes[k]) else None
  {
    var nodes := Before(env.hp(s).list, c.last);
    RunCalls(env, c.log, s, up, nodes);
    k := RunUntilFailure(env, c.log, s, up, nodes).done;
    hide RunUntilFailure, NodeCalls, AllPassed, Before;
  }

  lemma {:induction false} BeforeStops(nodes: seq<Node>, stop: Option<Node>)
    ensures var b := Before(nodes, stop);
      && b <= nodes && (forall x | x in b :: Some(x) != stop)
      && (|b| < |nodes| ==> stop == Some(nodes[|b|]))
    decreases |nodes|
  {
    if nodes != [] {
      BeforeStops(nodes[1..], stop);
    }
  }

  lemma {:induction false} AllCalls(env: Env, log: seq<Call>, s: int, up: bool, nodes: seq<Node>, ret: int)
    ensures var (log', ret') := RunAll(env, log, s, up, nodes, ret);
      log' == log + NodeCalls(s, up, nodes) && ret' == if nodes == [] then ret else env.outcome(log')
    decreases |nodes|
  {
    if nodes != [] {
      var log' := log + [Call(s, up, Some(nodes[0]))];
      AllCalls(env, log', s, up, nodes[1..], env.outcome(log'));
      assert log' + NodeCalls(s, up, nodes[1..]) == log + NodeCalls(s, up, nodes);
      assert nodes[1..] == [] ==> RunAll(env, log', s, up, [], env.outcome(log')) == (log', env.outcome(log'));
    }
  }

  // Without such a place: a failure is taken back on the instances in front of it, in the same order, if there
  // is a callback for the way back. The answer is then that of the last call made.
  lemma InvokeUndoesInstances(env: Env, c: Cpu, s: int, up: bool) returns (k: nat, log: seq<Call>, ret: int)
    requires var st := env.hp(s); c.fail != s && st.multi && if up then st.startup else st.teardown
    ensures var st := env.hp(s);
      var back := if up then st.teardown else st.startup;
      var (t, answer) := Invoke(env, c, s, up, None, false);
      && Called(env, c.log, s, up, st.list, k, log, ret)
      && if k == |st.list| || !back || k == 0 then t.log == log && answer == ret
         else t.log == log + NodeCalls(s, !up, st.list[..k]) && answer == env.outcome(t.log)
  {
    var list := env.hp(s).list;
    RunCalls(env, c.log, s, up, list);
    var r := RunUntilFailure(env, c.log, s, up, list);
    k, log, ret := r.done, r.log, r.ret;
    AllCalls(env, r.log, s, !up, list[..k], r.ret);
    NoNodeCalls(s, !up, list);
    assert r.log + [] == r.log;
    hide RunUntilFailure, NodeCalls, AllPassed, RunAll;
  }

  lemma InvokeThrough(env: Env, c: Cpu, s: int, up: bool)
    requires c.fail != s && Present(env.hp(s), up) && env.hp(s).multi
    ensures var nodes := Before(env.hp(s).list, c.last);
      var r := RunUntilFailure(env, c.log, s, up, nodes);
      Invoke(env, c, s, up, None, true) ==
        (c.(log := r.log, last := if r.ret != 0 then Some(nodes[r.done]) else None), r.ret)
  {
    hide RunUntilFailure, RunAll, Before, Present;
  }

  lemma InvokeIgnores(env: Env, c: Cpu, state: int, shouldRun: bool, s: int, up: bool)
    ensures var (t, ret) := Invoke(env, c, s, up, c.node, true);
      Invoke(env, c.(state := state, shouldRun := shouldRun), s, up, c.node, true) ==
        (t.(state := state, shouldRun := shouldRun), ret)
  {
    hide RunUntilFailure, Before, Invoke;
    var d := c.(state := state, shouldRun := shouldRun);
    if c.fail != s && Present(env.hp(s), up) && env.hp(s).multi && c.node.None? {
      InvokeThrough(env, c, s, up);
      InvokeThrough(env, d, s, up);
    } else {
      InvokeOnce(env, c, s, up, c.node, true);
      InvokeOnce(env, d, s, up, c.node, true);
    }
  }

  // One step of the thread: on the way up the step behind the present one, on the way down the present one;
  // an instance that is added or removed moves nothing. It goes on while there is no error and the target
  // is not reached.
  lemma ThreadStep(env: Env, c: Cpu)
    ensures var t := ThreadFun(env, c);
      var s := if c.single then c.cbState else if c.bringup then c.state + 1 else c.state;
      var (u, ret) := Invoke(env, c, s, c.bringup, c.node, true);
      && t.result == ret && t.log == u.log && t.last == u.last && t.fail == u.fail
      && t.state == (if c.single then c.state else if c.bringup then c.state + 1 else c.state - 1)
      && (t.shouldRun <==> !c.single && ret == 0 && if c.bringup then t.state < c.target else t.state > c.target)
  {
    var s := if c.single then c.cbState else if c.bringup then c.state + 1 else c.state;
    var state := if c.single then c.state else if c.bringup then c.state + 1 else c.state - 1;
    InvokeIgnores(env, c, state, !c.single && if c.bringup then state < c.target else state > c.target, s, c.bringup);
    hide Invoke;
  }
}

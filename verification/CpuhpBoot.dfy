// The boot processor's side of bringing a CPU up, and where the code falls short of its word.
module CpuhpBoot {
  import opened CpuhpSpec
  import opened CpuhpWalk

  // ---- cpuhp_up_callbacks() --------------------------------------------------------------------

  predicate SingleSteps(env: Env, p: int, n: nat) {
    forall i | 1 <= i <= n :: !env.hp(Nth(p, i, true)).multi
  }

  lemma InvokeSingle(env: Env, c: Cpu, s: int, up: bool) returns (tried: seq<Call>)
    requires !env.hp(s).multi
    ensures var (t, ret) := Invoke(env, c, s, up, None, false);
      && t == c.(fail := t.fail, log := t.log) && (t.fail == c.fail || t.fail == CPUHP_INVALID)
      && (s != CPUHP_INVALID ==> t.fail != s) && |tried| <= 1
      && (ret == 0 ==> t.log == c.log + StepCalls(env, s, up, None) && AllPassed(env, c.log, StepCalls(env, s, up, None)))
      && (ret != 0 ==> t.log == c.log + tried && forall x | x in tried :: x == Call(s, up, None))
      && (ret != 0 ==> if tried == [] then c.fail == s && ret == EAGAIN else ret == env.outcome(c.log + tried))
      && (c.fail != s ==> t.log == c.log + StepCalls(env, s, up, None))
  {
    tried := if c.fail != s && Present(env.hp(s), up) then [Call(s, up, None)] else [];
    FewPassed(env, c.log, Call(s, up, None));
    BeforeIsAll(env.hp(s).list, None);
  }

  lemma {:induction false} UndoUpMeaning(env: Env, c: Cpu, n: nat)
    requires 0 <= c.target && c.state == c.target + n && SingleSteps(env, c.target, n) && Spent(c, c.target, n, true)
    ensures UndoUp(env, c).state == c.target && UndoUp(env, c).log == c.log + Undone(env, c.target, n, true)
    decreases n
  {
    hide StepCalls, Invoke;
    if n > 0 {
      assert c.state == Nth(c.target, n, true);
      var tried := InvokeSingle(env, c, c.state, false);
      var c' := Invoke(env, c, c.state, false, None, false).0;
      UndoUpMeaning(env, c'.(state := c.state - 1, target := c.target), n - 1);
    }
  }

  // The steps passed returned 0; the error of one more call, if there was one, is returned; and there was
  // none only if the failure was injected.
  ghost predicate Stopped(env: Env, c: Cpu, base: seq<Call>, p: int, w: Way, ret: int) {
    var done := Passed(env, p, w.n, true);
    && AllPassed(env, base, done) && |w.tried| <= 1
    && (if w.tried == [] then c.fail == p + w.n + 1 && ret == EAGAIN else ret == env.outcome(base + done + w.tried) != 0)
  }

  // One step of the loop of cpuhp_up_callbacks().
  lemma SingleStepUp(env: Env, c: Cpu, p: int, n: nat, total: nat) returns (tried: seq<Call>)
    requires 0 <= p && n < total && c.state == p + n && SingleSteps(env, p, total) && Spent(c, p, n, true)
    ensures var s := c.state + 1;
      var (c', ret) := Invoke(env, c.(state := s), s, true, None, false);
      && c' == c.(state := s, fail := c'.fail, log := c'.log) && |tried| <= 1
      && s == Nth(p, n + 1, true) && SingleSteps(env, p, n)
      && Spent(c'.(state := s), p, n + 1, true) && Spent(c'.(state := s - 1, target := p), p, n, true)
      && c'.log == (c.log + if ret == 0 then StepCalls(env, s, true, None) else tried) && (c'.fail == c.fail || c'.fail == CPUHP_INVALID)
      && (ret == 0 ==> AllPassed(env, c.log, StepCalls(env, s, true, None)))
      && (ret != 0 ==> if tried == [] then c.fail == s && ret == EAGAIN else ret == env.outcome(c.log + tried))
  {
    hide StepCalls, Invoke, AllPassed;
    assert c.state + 1 == Nth(p, n + 1, true);
    tried := InvokeSingle(env, c.(state := c.state + 1), c.state + 1, true);
  }

  lemma {:induction false} UpMeaning(env: Env, c: Cpu, base: seq<Call>, p: int, n: nat, total: nat, canUndo: int -> bool)
    returns (w: Way)
    requires 0 <= p && n <= total && c.state == p + n && SingleSteps(env, p, total) && Spent(c, p, n, true)
    requires Went(env, c.log, base, p, n, true)
    ensures var (r, ret) := UpCallbacks(env, c, p + total, p, canUndo);
      if ret == 0 then r.state == p + total && Went(env, r.log, base, p, total, true)
      else
        && w.n < total && w.k == 0 && Stopped(env, c, base, p, w, ret)
        && r.state == (if canUndo(p + w.n + 1) then p else p + w.n + 1)
        && r.log == base + Passed(env, p, w.n, true) + w.tried + if canUndo(p + w.n + 1) then Undone(env, p, w.n, true) else []
    decreases total - n
  {
    hide StepCalls, Invoke, UndoUp, Undone, SingleSteps, Spent, AllPassed, Passed;
    w := Way(n, 0, []);
    if n < total {
      var s := c.state + 1;
      var tried := SingleStepUp(env, c, p, n, total);
      var (c', ret) := Invoke(env, c.(state := s), s, true, None, false);
      if ret == 0 {
        WentOn(env, c.log, c'.log, base, p, n, true);
        w := UpMeaning(env, c'.(state := s), base, p, n + 1, total, canUndo);
      } else {
        w := Way(n, 0, tried);
        UndoUpMeaning(env, c'.(state := s - 1, target := p), n);
      }
    }
  }

  // cpuhp_up_callbacks() over single-instance steps: all steps are passed, or the ones that were are
  // taken back, unless going back is not configured.
  lemma UpAllOrNothing(env: Env, c: Cpu, target: int, canUndo: int -> bool) returns (w: Way)
    requires 0 <= c.state <= target && SingleSteps(env, c.state, target - c.state)
    ensures var (r, ret) := UpCallbacks(env, c, target, c.state, canUndo);
      if ret == 0 then
        && r.state == target && r.log == c.log + Passed(env, c.state, target - c.state, true)
        && AllPassed(env, c.log, Passed(env, c.state, target - c.state, true))
      else
        && w.n < target - c.state && Stopped(env, c, c.log, c.state, w, ret)
        && r.state == (if canUndo(c.state + w.n + 1) then c.state else c.state + w.n + 1)
        && r.log == c.log + Passed(env, c.state, w.n, true) + w.tried
                    + if canUndo(c.state + w.n + 1) then Undone(env, c.state, w.n, true) else []
  {
    WentNowhere(env, c.log, c.state, true);
    w := UpMeaning(env, c, c.log, c.state, 0, target - c.state, canUndo);
  }

  // ---- the rollback inside cpuhp_invoke_callback() ------------------------------------------------

  lemma {:induction false} RunAllMeaning(env: Env, log: seq<Call>, s: int, up: bool, nodes: seq<Node>, ret: int)
    requires NeverFails(env, up)
    ensures RunAll(env, log, s, up, nodes, ret) == (log + NodeCalls(s, up, nodes), if nodes == [] then ret else 0)
    decreases |nodes|
  {
    if nodes != [] {
      var c := Call(s, up, Some(nodes[0]));
      assert (log + [c])[|log|].bringup == up;
      RunAllMeaning(env, log + [c], s, up, nodes[1..], env.outcome(log + [c]));
      Prepended(log, c, NodeCalls(s, up, nodes[1..]));
    } else {
      assert log + NodeCalls(s, up, nodes) == log;
    }
  }

  // Without lastp the calls that succeeded are taken back on the spot. The error is then reported as
  // success exactly if there was something to take back and a callback to do it.
  lemma ErrorIsLostIff(env: Env, c: Cpu, s: int, up: bool)
    requires env.hp(s).multi && Present(env.hp(s), up) && c.fail != s && NeverFails(env, !up)
    requires RunUntilFailure(env, c.log, s, up, env.hp(s).list).ret != 0
    ensures var r := RunUntilFailure(env, c.log, s, up, env.hp(s).list);
      var (t, ret) := Invoke(env, c, s, up, None, false);
      && (ret == 0 <==> Present(env.hp(s), !up) && r.done > 0)
      && t.log == r.log + if Present(env.hp(s), !up) then NodeCalls(s, !up, env.hp(s).list[..r.done]) else []
  {
    var r := RunUntilFailure(env, c.log, s, up, env.hp(s).list);
    RunAllMeaning(env, r.log, s, !up, env.hp(s).list[..r.done], r.ret);
  }

  // A step with two instances, of which the second fails to start.
  function SecondFails(): Env {
    Env(_ => Step(true, true, true, [0, 1]),
        log => if log != [] && log[|log| - 1] == Call(0, true, Some(1)) then EAGAIN else 0)
  }

  // It is reported as started.
  lemma ErrorIsLost(c: Cpu)
    requires c.fail != 0
    ensures RunUntilFailure(SecondFails(), c.log, 0, true, SecondFails().hp(0).list).ret == EAGAIN
    ensures Invoke(SecondFails(), c, 0, true, None, false).1 == 0
  {
    var env := SecondFails();
    var one, two := Call(0, true, Some(0)), Call(0, true, Some(1));
    assert [0, 1][1..] == [1] && [1][1..] == [];
    assert (c.log + [one])[|c.log|] == one && (c.log + [one] + [two])[|c.log + [one]|] == two;
    var r := RunUntilFailure(env, c.log, 0, true, [0, 1]);
    assert r == Ran(c.log + [one] + [two], 1, EAGAIN) by {
      assert RunUntilFailure(env, c.log + [one], 0, true, [1]) == Ran(c.log + [one] + [two], 0, EAGAIN);
    }
    ErrorIsLostIff(env, c, 0, true);
  }

  // ---- a transition to where the CPU already is --------------------------------------------------

  // cpuhp_kick_ap() does nothing then, provided that the result of the transition before was 0;
  // otherwise it takes that result for its own and walks two states up.
  lemma KickToSelfIff(env: Env, c: Cpu)
    ensures var (r, ret) := Kick(env, c, c.state);
      && (r.state == c.state && r.log == c.log <==> c.result == 0)
      && (c.result != 0 ==> r.state == c.state + 2)
      && ret == c.result
  {
    if c.result != 0 {
      var c1 := ResetState(SetState(c, c.state), c.state).(result := 0, shouldRun := true);
      ThreadFunFrame(env, c1);
      var t := ThreadFun(env, c1);
      InvokeKeepsState(env, c1.(state := c1.state + 1, shouldRun := c1.state + 1 < c1.target), c1.state + 1, true, c1.node, true);
      assert Run(env, c1) == Run(env, t) == t;
    }
  }

  lemma InvokeKeepsState(env: Env, c: Cpu, s: int, up: bool, node: Option<Node>, useLast: bool)
    ensures Invoke(env, c, s, up, node, useLast).0.state == c.state
  {
  }

  // That is reachable: a first step that fails at once, either way, leaves its error behind. On the way
  // down that is the teardown of the state the CPU is in.
  lemma FailureThenSelf(env: Env, c: Cpu, up: bool)
    requires Present(env.hp(FirstStep(c, up)), up) && !env.hp(FirstStep(c, up)).multi
    requires c.fail != FirstStep(c, up) && c.node.None?
    requires env.outcome(c.log + [Call(FirstStep(c, up), up, None)]) != 0
    ensures var r := Kick(env, c, if up then c.state + 1 else c.state - 1).0;
      r.state == c.state && r.result != 0 && Kick(env, r, r.state).0.state == r.state + 2
  {
    var target := if up then c.state + 1 else c.state - 1;
    var c1 := SetState(c, target).(result := 0, shouldRun := true);
    var t := ThreadFun(env, c1);
    assert Run(env, c1) == Run(env, t) == t;
    KickToSelfIff(env, Kick(env, c, target).0);
  }

  function FirstStep(c: Cpu, up: bool): int {
    if up then c.state + 1 else c.state
  }
}

// The per-CPU hotplug state as the kernel changes it, step by step; each method is proved against
// the value functions of CpuhpSpec.
module Cpuhp {
  import opened CpuhpSpec

  class CpuState {
    const env: Env
    var state: int
    var target: int
    var fail: int
    var shouldRun: bool
    var rollback: bool
    var single: bool
    var bringup: bool
    var node: Option<Node>
    var last: Option<Node>
    var cbState: int
    var result: int
    var trace: seq<Call>  // trace_cpuhp_enter() of every call

    constructor (e: Env, s: int)
      ensures env == e && Value() == Cpu(s, s, CPUHP_INVALID, false, false, false, false, None, None, 0, 0, [])
    {
      env, state, target, fail := e, s, s, CPUHP_INVALID;
      shouldRun, rollback, single, bringup := false, false, false, false;
      node, last, cbState, result, trace := None, None, 0, 0, [];
    }

    ghost function Value(): Cpu
      reads this
    {
      Cpu(state, target, fail, shouldRun, rollback, single, bringup, node, last, cbState, result, trace)
    }

    // A callback: its answer is up to the environment.
    method Callback(s: int, up: bool, n: Option<Node>) returns (ret: int)
      modifies `trace
      ensures trace == old(trace) + [Call(s, up, n)] && ret == env.outcome(trace)
    {
      trace := trace + [Call(s, up, n)];
      ret := env.outcome(trace);
    }

    // The loop over the instances, with the place where an earlier call stopped if useLast.
    method InvokeInstances(s: int, up: bool, useLast: bool) returns (ret: int, cnt: nat)
      modifies `trace, `last
      ensures var nodes := if useLast then Before(env.hp(s).list, old(last)) else env.hp(s).list;
        var r := RunUntilFailure(env, old(trace), s, up, nodes);
        && trace == r.log && ret == r.ret && cnt == r.done
        && last == if !useLast then old(last) else if ret != 0 then Some(nodes[cnt]) else None
    {
      hide RunUntilFailure, Before;
      cnt, ret := 0, 0;
      var list := env.hp(s).list;
      ghost var nodes := if useLast then Before(list, last) else list;
      ghost var all := RunUntilFailure(env, trace, s, up, nodes);
      BeforeIsShorter(list, last);
      while cnt < |list|
        invariant 0 <= cnt <= |list| && ret == 0 && last == old(last)
        invariant cnt <= |nodes| && (if useLast then nodes[cnt..] == Before(list[cnt..], last) else nodes == list)
        invariant StillToRun(env, trace, s, up, nodes, cnt, all)
      {
        var n := list[cnt];
        BeforeStep(list, last, cnt);
        if useLast && Some(n) == last {
          break;
        }
        NextIs(nodes, cnt, n, if useLast then Before(list[cnt + 1..], last) else list[cnt + 1..]);
        RunStep(env, trace, s, up, nodes, cnt, all);
        ret := Callback(s, up, Some(n));
        if ret != 0 {
          if useLast {
            last := Some(n);
          }
          return;
        }
        cnt := cnt + 1;
      }
      BeforeNone(last);
      RunDone(env, trace, s, up, nodes, cnt, all);
      if useLast {
        last := None;
      }
    }

    // Rollback of the instances in front of the one that failed.
    method RollBackInstances(s: int, up: bool, cnt: nat, first: int) returns (ret: int)
      requires cnt <= |env.hp(s).list|
      modifies `trace
      ensures (trace, ret) == RunAll(env, old(trace), s, up, env.hp(s).list[..cnt], first)
    {
      ret := first;
      var list, i := env.hp(s).list[..cnt], 0;
      while i < cnt
        invariant 0 <= i <= cnt
        invariant RunAll(env, trace, s, up, list[i..], ret) == RunAll(env, old(trace), s, up, list, first)
      {
        ret := Callback(s, up, Some(list[i]));
        i := i + 1;
      }
    }

    method InvokeCallback(s: int, up: bool, n: Option<Node>, useLast: bool) returns (ret: int)
      modifies `fail, `trace, `last
      ensures (Value(), ret) == Invoke(env, old(Value()), s, up, n, useLast)
    {
      var step := env.hp(s);
      if fail == s {
        fail := CPUHP_INVALID;
        if !(if up then step.startup else step.teardown) {
          return 0;
        }
        return EAGAIN;
      }
      if !step.multi {
        if !(if up then step.startup else step.teardown) {
          return 0;
        }
        ret := Callback(s, up, None);
        return;
      }
      if !(if up then step.startup else step.teardown) {
        return 0;
      }
      if n.Some? {
        ret := Callback(s, up, n);
        return;
      }
      var cnt;
      ret, cnt := InvokeInstances(s, up, useLast);
      if ret == 0 || useLast || !(if !up then step.startup else step.teardown) {
        return;
      }
      ret := RollBackInstances(s, !up, cnt, ret);
    }

    method CpuhpSetState(newTarget: int) returns (prev: int)
      modifies `rollback, `last, `target, `single, `bringup
      ensures Value() == SetState(old(Value()), newTarget) && prev == state
    {
      prev := state;
      rollback := false;
      last := None;
      target := newTarget;
      single := false;
      bringup := state < newTarget;
    }

    method CpuhpResetState(prev: int)
      modifies `rollback, `state, `target, `bringup
      ensures Value() == ResetState(old(Value()), prev)
    {
      rollback := true;
      if last.None? {
        if bringup {
          state := state - 1;
        } else {
          state := state + 1;
        }
      }
      target := prev;
      bringup := !bringup;
    }

    method CpuhpThreadFun()
      modifies `state, `shouldRun, `result, `fail, `trace, `last
      ensures Value() == ThreadFun(env, old(Value()))
    {
      hide Invoke;
      var up, s := bringup, cbState;
      if single {
        shouldRun := false;
      } else if up {
        state := state + 1;
        s := state;
        shouldRun := state < target;
      } else {
        s := state;
        state := state - 1;
        shouldRun := state > target;
      }
      result := InvokeCallback(s, up, node, true);
      if result != 0 {
        shouldRun := false;
      }
    }

    // _cpuhp_kick_ap(): wake the thread and wait until it is done.
    method KickThread()
      modifies `state, `shouldRun, `result, `fail, `trace, `last
      ensures Value() == Wake(env, old(Value()))
    {
      hide ThreadFun;
      if !single && state == target {
        return;
      }
      result := 0;
      shouldRun := true;
      while shouldRun
        invariant target == old(target) && bringup == old(bringup) && single == old(single)
        invariant Run(env, Value()) == Run(env, old(Value()).(result := 0, shouldRun := true))
        decreases shouldRun, if bringup then target - state else state - target
      {
        ThreadFunFrame(env, Value());
        CpuhpThreadFun();
      }
    }

    method CpuhpKickAp(newTarget: int) returns (ret: int)
      modifies this
      ensures (Value(), ret) == Kick(env, old(Value()), newTarget)
    {
      hide Run, ResetState, SetState;
      var prev := CpuhpSetState(newTarget);
      KickThread();
      ret := result;
      if ret != 0 {
        CpuhpResetState(prev);
        KickThread();
      }
    }

    // From the first decrement of the loop on.
    method CpuhpUndoUp()
      modifies `state, `fail, `trace, `last
      ensures Value() == UndoUp(env, old(Value()))
    {
      hide Invoke;
      while state > target
        invariant target == old(target) && UndoUp(env, Value()) == UndoUp(env, old(Value()))
        decreases state - target
      {
        InvokeKeeps(env, Value(), state, false);
        var _ := InvokeCallback(state, false, None, false);
        state := state - 1;
      }
    }

    method CpuhpUpCallbacks(newTarget: int, canUndo: int -> bool) returns (ret: int)
      modifies this
      ensures (Value(), ret) == UpCallbacks(env, old(Value()), newTarget, old(state), canUndo)
    {
      hide Invoke, UndoUp;
      var prev := state;
      ret := 0;
      while state < newTarget
        invariant ret == 0
        invariant UpCallbacks(env, Value(), newTarget, prev, canUndo) == UpCallbacks(env, old(Value()), newTarget, prev, canUndo)
        decreases newTarget - state
      {
        state := state + 1;
        InvokeKeeps(env, Value(), state, true);
        ret := InvokeCallback(state, true, None, false);
        if ret != 0 {
          if canUndo(state) {
            target := prev;
            state := state - 1;
            CpuhpUndoUp();
          }
          break;
        }
      }
    }
  }

  lemma InvokeKeeps(env: Env, c: Cpu, s: int, up: bool)
    ensures Invoke(env, c, s, up, None, false).0.state == c.state
    ensures Invoke(env, c, s, up, None, false).0.target == c.target
  {
  }

  // The calls on nodes from the k-th on lead to the outcome all.
  predicate StillToRun(env: Env, log: seq<Call>, s: int, up: bool, nodes: seq<Node>, k: nat, all: Ran)
    requires k <= |nodes|
  {
    var r := RunUntilFailure(env, log, s, up, nodes[k..]);
    r.log == all.log && r.ret == all.ret && k + r.done == all.done
  }

  lemma RunStep(env: Env, log: seq<Call>, s: int, up: bool, nodes: seq<Node>, k: nat, all: Ran)
    requires k < |nodes| && StillToRun(env, log, s, up, nodes, k, all)
    ensures var log' := log + [Call(s, up, Some(nodes[k]))];
      if env.outcome(log') != 0 then all == Ran(log', k, env.outcome(log')) else StillToRun(env, log', s, up, nodes, k + 1, all)
  {
    assert nodes[k..][0] == nodes[k] && nodes[k..][1..] == nodes[k + 1..];
  }

  lemma RunDone(env: Env, log: seq<Call>, s: int, up: bool, nodes: seq<Node>, k: nat, all: Ran)
    requires k <= |nodes| && nodes[k..] == [] && StillToRun(env, log, s, up, nodes, k, all)
    ensures all == Ran(log, k, 0)
  {
  }

  lemma NextIs(nodes: seq<Node>, k: nat, n: Node, rest: seq<Node>)
    requires k <= |nodes| && nodes[k..] == [n] + rest
    ensures k < |nodes| && nodes[k] == n && nodes[k + 1..] == rest
  {
    assert nodes[k..][0] == n && nodes[k..][1..] == nodes[k + 1..];
  }

  lemma {:induction false} BeforeIsShorter(list: seq<Node>, stop: Option<Node>)
    ensures |Before(list, stop)| <= |list|
    decreases |list|
  {
    if list != [] {
      BeforeIsShorter(list[1..], stop);
    }
  }

  lemma BeforeNone(stop: Option<Node>)
    ensures Before([], stop) == []
  {
  }

  lemma BeforeStep(list: seq<Node>, stop: Option<Node>, k: nat)
    requires k < |list|
    ensures Before(list[k..], stop) == if stop == Some(list[k]) then [] else [list[k]] + Before(list[k + 1..], stop)
  {
    assert list[k..][0] == list[k] && list[k..][1..] == list[k + 1..];
  }
}

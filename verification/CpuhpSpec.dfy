// The CPU hotplug state machine of one CPU: walking through the steps with their callbacks.
module CpuhpSpec {

  const CPUHP_INVALID := -1
  const EAGAIN := -11

  type Node = nat

  datatype Option<T> = None | Some(value: T)

  // struct cpuhp_step: which callbacks there are, and the instances of a multi-instance step.
  datatype Step = Step(startup: bool, teardown: bool, multi: bool, list: seq<Node>)

  datatype Call = Call(state: int, bringup: bool, node: Option<Node>)

  // The table of steps, and what a callback returns after the calls made so far, itself the last.
  datatype Env = Env(hp: int -> Step, outcome: seq<Call> -> int)

  // struct cpuhp_cpu_state, and every call made.
  datatype Cpu = Cpu(
    state: int, target: int, fail: int,
    shouldRun: bool, rollback: bool, single: bool, bringup: bool,
    node: Option<Node>, last: Option<Node>, cbState: int, result: int,
    log: seq<Call>)

  predicate Present(st: Step, bringup: bool) {
    if bringup then st.startup else st.teardown
  }

  // Calls on the instances in order, up to the first that fails: the calls made, how many succeeded,
  // and what the last one returned.
  datatype Ran = Ran(log: seq<Call>, done: nat, ret: int)

  function RunUntilFailure(env: Env, log: seq<Call>, s: int, bringup: bool, nodes: seq<Node>): (r: Ran)
    ensures r.done <= |nodes| && (r.ret != 0 ==> r.done < |nodes|)
    decreases |nodes|
  {
    if nodes == [] then Ran(log, 0, 0)
    else
      var log' := log + [Call(s, bringup, Some(nodes[0]))];
      var ret := env.outcome(log');
      if ret != 0 then Ran(log', 0, ret)
      else
        var r := RunUntilFailure(env, log', s, bringup, nodes[1..]);
        r.(done := r.done + 1)
  }

  // Calls on all the instances, whatever they return; the last return value wins.
  function RunAll(env: Env, log: seq<Call>, s: int, bringup: bool, nodes: seq<Node>, ret: int): (seq<Call>, int)
    decreases |nodes|
  {
    if nodes == [] then (log, ret)
    else
      var log' := log + [Call(s, bringup, Some(nodes[0]))];
      RunAll(env, log', s, bringup, nodes[1..], env.outcome(log'))
  }

  // The instances in front of the one where an earlier call stopped.
  function Before(nodes: seq<Node>, stop: Option<Node>): seq<Node> {
    if nodes == [] || stop == Some(nodes[0]) then [] else [nodes[0]] + Before(nodes[1..], stop)
  }

  function One(env: Env, c: Cpu, s: int, bringup: bool, node: Option<Node>): (Cpu, int) {
    var log := c.log + [Call(s, bringup, node)];
    (c.(log := log), env.outcome(log))
  }

  // cpuhp_invoke_callback(); useLast: the caller passes &st->last rather than NULL.
  function Invoke(env: Env, c: Cpu, s: int, bringup: bool, node: Option<Node>, useLast: bool): (Cpu, int) {
    var st := env.hp(s);
    if c.fail == s then (c.(fail := CPUHP_INVALID), if Present(st, bringup) then EAGAIN else 0)
    else if !Present(st, bringup) then (c, 0)
    else if !st.multi then One(env, c, s, bringup, None)
    else if node.Some? then One(env, c, s, bringup, node)
    else if useLast then
      var nodes := Before(st.list, c.last);
      var r := RunUntilFailure(env, c.log, s, bringup, nodes);
      (c.(log := r.log, last := if r.ret != 0 then Some(nodes[r.done]) else None), r.ret)
    else
      var r := RunUntilFailure(env, c.log, s, bringup, st.list);
      if r.ret == 0 || !Present(st, !bringup) then (c.(log := r.log), r.ret)
      else
        var (log, ret) := RunAll(env, r.log, s, !bringup, st.list[..r.done], r.ret);
        (c.(log := log), ret)
  }

  // ---- the thread of a CPU ------------------------------------------------------------------------

  function SetState(c: Cpu, target: int): Cpu {
    c.(rollback := false, last := None, target := target, single := false, bringup := c.state < target)
  }

  function ResetState(c: Cpu, prev: int): Cpu {
    c.(rollback := true,
       state := if c.last.Some? then c.state else if c.bringup then c.state - 1 else c.state + 1,
       target := prev,
       bringup := !c.bringup)
  }

  // cpuhp_thread_fun(): one step.
  function ThreadFun(env: Env, c: Cpu): Cpu {
    var s := if c.single then c.cbState else if c.bringup then c.state + 1 else c.state;
    var c1 :=
      if c.single then c.(shouldRun := false)
      else if c.bringup then c.(state := c.state + 1, shouldRun := c.state + 1 < c.target)
      else c.(state := c.state - 1, shouldRun := c.state - 1 > c.target);
    var (c2, ret) := Invoke(env, c1, s, c.bringup, c.node, true);
    c2.(result := ret, shouldRun := c1.shouldRun && ret == 0)
  }

  lemma ThreadFunFrame(env: Env, c: Cpu)
    ensures var t := ThreadFun(env, c);
      && t.target == c.target && t.bringup == c.bringup && t.single == c.single && t.node == c.node
      && (t.shouldRun ==> !c.single && (if c.bringup then c.state < t.state < t.target else c.state > t.state > t.target))
  {
  }

  // The thread runs until it has nothing to do.
  function Run(env: Env, c: Cpu): Cpu
    decreases c.shouldRun, if c.bringup then c.target - c.state else c.state - c.target
  {
    ThreadFunFrame(env, c);
    if !c.shouldRun then c else Run(env, ThreadFun(env, c))
  }

  // _cpuhp_kick_ap().
  function Wake(env: Env, c: Cpu): Cpu {
    if !c.single && c.state == c.target then c else Run(env, c.(result := 0, shouldRun := true))
  }

  // cpuhp_kick_ap().
  function Kick(env: Env, c: Cpu, target: int): (Cpu, int) {
    var c1 := Wake(env, SetState(c, target));
    if c1.result == 0 then (c1, 0) else (Wake(env, ResetState(c1, c.state)), c1.result)
  }

  // ---- the boot processor --------------------------------------------------------------------------

  // undo_cpu_up(), from its first decrement on.
  function UndoUp(env: Env, c: Cpu): Cpu
    decreases c.state - c.target
  {
    if c.state <= c.target then c
    else
      var c' := Invoke(env, c, c.state, false, None, false).0;
      UndoUp(env, c'.(state := c.state - 1, target := c.target))
  }

  // cpuhp_up_callbacks(); canUndo: can_rollback_cpu() in the state of the failure.
  function UpCallbacks(env: Env, c: Cpu, target: int, prev: int, canUndo: int -> bool): (Cpu, int)
    decreases target - c.state
  {
    if c.state >= target then (c, 0)
    else
      var s := c.state + 1;
      var (c', ret) := Invoke(env, c.(state := s), s, true, None, false);
      if ret == 0 then UpCallbacks(env, c'.(state := s), target, prev, canUndo)
      else if canUndo(s) then (UndoUp(env, c'.(state := s - 1, target := prev)), ret)
      else (c'.(state := s), ret)
  }
}

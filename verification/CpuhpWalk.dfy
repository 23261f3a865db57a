// A hotplug transition that fails is taken back completely.
module CpuhpWalk {
  import opened CpuhpSpec

  // From state p: the i-th step of the way (counting from 1), and the state after n steps.
  function Nth(p: int, i: int, up: bool): int {
    if up then p + i else p - i + 1
  }

  function After(p: int, n: int, up: bool): int {
    if up then p + n else p - n
  }

  function NodeCalls(s: int, up: bool, nodes: seq<Node>): seq<Call>
    decreases |nodes|
  {
    if nodes == [] then [] else [Call(s, up, Some(nodes[0]))] + NodeCalls(s, up, nodes[1..])
  }

  // Every call of a step on its way, with the instances in front of stop.
  function StepCalls(env: Env, s: int, up: bool, stop: Option<Node>): seq<Call> {
    var st := env.hp(s);
    if !Present(st, up) then [] else if !st.multi then [Call(s, up, None)] else NodeCalls(s, up, Before(st.list, stop))
  }

  function Passed(env: Env, p: int, n: nat, up: bool): seq<Call> {
    if n == 0 then [] else Passed(env, p, n - 1, up) + StepCalls(env, Nth(p, n, up), up, None)
  }

  // The same steps the other way, the last one first.
  function Undone(env: Env, p: int, n: nat, up: bool): seq<Call> {
    if n == 0 then [] else StepCalls(env, Nth(p, n, up), !up, None) + Undone(env, p, n - 1, up)
  }

  // Rollback must not fail.
  ghost predicate NeverFails(env: Env, bringup: bool) {
    forall log: seq<Call> | log != [] && log[|log| - 1].bringup == bringup :: env.outcome(log) == 0
  }

  // An instance is in one list, once.
  ghost predicate Distinct(env: Env) {
    && (forall s: int, i, j | 0 <= i < j < |env.hp(s).list| :: env.hp(s).list[i] != env.hp(s).list[j])
    && (forall s: int, t: int, x: Node | s != t && x in env.hp(s).list :: x !in env.hp(t).list)
  }

  // ---- one list of instances ---------------------------------------------------------------------

  lemma {:induction false} BeforeIsPrefix(nodes: seq<Node>, k: nat)
    requires k < |nodes| && forall i | 0 <= i < k :: nodes[i] != nodes[k]
    ensures Before(nodes, Some(nodes[k])) == nodes[..k]
    decreases k
  {
    if k > 0 {
      assert nodes[0] != nodes[k] && nodes[1..][k - 1] == nodes[k];
      assert forall i | 0 <= i < k - 1 :: nodes[1..][i] == nodes[i + 1];
      BeforeIsPrefix(nodes[1..], k - 1);
      assert nodes[..k] == [nodes[0]] + nodes[1..][..k - 1];
    }
  }

  lemma {:induction false} BeforeIsAll(nodes: seq<Node>, stop: Option<Node>)
    requires stop.Some? ==> stop.value !in nodes
    ensures Before(nodes, stop) == nodes
    decreases |nodes|
  {
    if nodes != [] {
      BeforeIsAll(nodes[1..], stop);
    }
  }

  // Each of these calls, made one after the other behind base, returned 0.
  ghost predicate AllPassed(env: Env, base: seq<Call>, calls: seq<Call>) {
    forall i | 0 < i <= |calls| :: env.outcome(base + calls[..i]) == 0
  }

  lemma PassedCons(env: Env, log: seq<Call>, c: Call, rest: seq<Call>)
    requires env.outcome(log + [c]) == 0 && AllPassed(env, log + [c], rest)
    ensures AllPassed(env, log, [c] + rest)
  {
    var l := [c] + rest;
    forall i | 0 < i <= |l| ensures env.outcome(log + l[..i]) == 0 {
      assert log + l[..i] == log + [c] + rest[..i - 1];
      assert i == 1 ==> log + l[..i] == log + [c];
    }
  }

  lemma PassedJoin(env: Env, base: seq<Call>, a: seq<Call>, b: seq<Call>)
    requires AllPassed(env, base, a) && AllPassed(env, base + a, b)
    ensures AllPassed(env, base, a + b)
  {
    var l := a + b;
    forall i | 0 < i <= |l| ensures env.outcome(base + l[..i]) == 0 {
      if i <= |a| {
        assert l[..i] == a[..i];
      } else {
        assert base + l[..i] == base + a + b[..i - |a|];
      }
    }
  }

  lemma FewPassed(env: Env, base: seq<Call>, c: Call)
    ensures AllPassed(env, base, [])
    ensures env.outcome(base + [c]) == 0 ==> AllPassed(env, base, [c])
  {
    assert [c][..1] == [c];
  }

  lemma {:induction false} RunMeaning(env: Env, log: seq<Call>, s: int, up: bool, nodes: seq<Node>)
    ensures var r := RunUntilFailure(env, log, s, up, nodes);
      && AllPassed(env, log, NodeCalls(s, up, nodes[..r.done])) &&
      if r.ret == 0 then r.done == |nodes| && r.log == log + NodeCalls(s, up, nodes)
      else
        && r.log == log + NodeCalls(s, up, nodes[..r.done]) + [Call(s, up, Some(nodes[r.done]))]
        && env.outcome(r.log) == r.ret
    decreases |nodes|
  {
    hide AllPassed;
    FewPassed(env, log, Call(s, up, None));
    if nodes != [] {
      var c := Call(s, up, Some(nodes[0]));
      if env.outcome(log + [c]) == 0 {
        RunMeaning(env, log + [c], s, up, nodes[1..]);
        var r := RunUntilFailure(env, log + [c], s, up, nodes[1..]);
        assert nodes[..r.done + 1][1..] == nodes[1..][..r.done];
        PassedCons(env, log, c, NodeCalls(s, up, nodes[1..][..r.done]));
        Prepended(log, c, NodeCalls(s, up, nodes[1..]));
        Prepended(log, c, NodeCalls(s, up, nodes[1..][..r.done]));
      } else {
        assert nodes[..0] == [];
      }
    }
  }

  lemma Prepended(log: seq<Call>, c: Call, rest: seq<Call>)
    ensures log + [c] + rest == log + ([c] + rest)
  {
  }

  lemma {:induction false} RunSucceeds(env: Env, log: seq<Call>, s: int, up: bool, nodes: seq<Node>)
    requires NeverFails(env, up)
    ensures RunUntilFailure(env, log, s, up, nodes) == Ran(log + NodeCalls(s, up, nodes), |nodes|, 0)
    decreases |nodes|
  {
    if nodes != [] {
      var c := Call(s, up, Some(nodes[0]));
      assert (log + [c])[|log|].bringup == up;
      RunSucceeds(env, log + [c], s, up, nodes[1..]);
      Prepended(log, c, NodeCalls(s, up, nodes[1..]));
    } else {
      assert log + NodeCalls(s, up, nodes) == log;
    }
  }

  // ---- forward --------------------------------------------------------------------------------------

  // c is on its way after n of the steps from p.
  predicate Going(c: Cpu, p: int, n: nat, total: nat, up: bool) {
    && c.shouldRun && !c.single && c.node.None? && c.last.None? && c.bringup == up
    && n < total && c.state == After(p, n, up) && c.target == After(p, total, up)
  }

  // An injected failure cannot strike again on the first n steps.
  predicate Spent(c: Cpu, p: int, n: nat, up: bool) {
    forall i | 1 <= i <= n :: c.fail != Nth(p, i, up)
  }

  // How far the way went: n whole steps and, of a step that failed, k instances; tried is the call
  // that failed, if there was one.
  datatype Way = Way(n: nat, k: nat, tried: seq<Call>)

  // The calls of the way that succeeded.
  function Succeeded(env: Env, p: int, up: bool, w: Way): seq<Call> {
    var s := Nth(p, w.n + 1, up);
    Passed(env, p, w.n, up) + NodeCalls(s, up, if w.k <= |env.hp(s).list| then env.hp(s).list[..w.k] else [])
  }

  predicate Same(c: Cpu, r: Cpu) {
    r.target == c.target && r.bringup == c.bringup && r.single == c.single && r.node == c.node
  }

  // One step forward, on all instances: it is passed, or it fails at instance k.
  ghost predicate Failed(env: Env, t: Cpu, log: seq<Call>, s: int, up: bool, w: Way) {
    var st := env.hp(s);
    && |w.tried| <= 1 && w.k <= |st.list| && AllPassed(env, log, NodeCalls(s, up, st.list[..w.k]))
    && (forall x | x in w.tried :: x.state == s && x.bringup == up && env.outcome(t.log) != 0)
    && (if t.last.None? then w.k == 0
        else st.multi && Present(st, up) && w.k < |st.list| && t.last == Some(st.list[w.k]))
    && t.log == log + NodeCalls(s, up, st.list[..w.k]) + w.tried
  }

  // What a step that fails returns: what its last call did, or the error of an injected failure.
  function Answer(env: Env, t: Cpu, w: Way): int {
    if w.tried == [] then EAGAIN else env.outcome(t.log)
  }

  // What one invocation forward comes to: c became t and ret was returned.
  ghost predicate Forward(env: Env, c: Cpu, s: int, up: bool, t: Cpu, ret: int, w: Way) {
    && t == c.(fail := t.fail, last := t.last, log := t.log)
    && (t.fail == c.fail || t.fail == CPUHP_INVALID) && (s != CPUHP_INVALID ==> t.fail != s)
    && (ret == 0 ==> t.last.None? && t.log == c.log + StepCalls(env, s, up, None) && AllPassed(env, c.log, StepCalls(env, s, up, None)))
    && (ret != 0 ==> Failed(env, t, c.log, s, up, w) && ret == Answer(env, t, w) && (w.tried == [] ==> c.fail == s)) && w.n == 0
  }

  lemma ForwardThroughInstances(env: Env, c: Cpu, s: int, up: bool) returns (w: Way)
    requires c.node.None? && c.last.None? && c.fail != s && Present(env.hp(s), up) && env.hp(s).multi
    ensures var (t, ret) := Invoke(env, c, s, up, c.node, true); Forward(env, c, s, up, t, ret, w)
  {
    hide RunUntilFailure, NodeCalls, Before, AllPassed;
    var list := env.hp(s).list;
    BeforeIsAll(list, None);
    RunMeaning(env, c.log, s, up, list);
    var r := RunUntilFailure(env, c.log, s, up, list);
    assert list[..|list|] == list;
    w := Way(0, r.done, if r.ret != 0 then [Call(s, up, Some(list[r.done]))] else []);
  }

  lemma ForwardThroughOne(env: Env, c: Cpu, s: int, up: bool) returns (w: Way)
    requires c.node.None? && c.last.None? && (c.fail != s && Present(env.hp(s), up) ==> !env.hp(s).multi)
    ensures var (t, ret) := Invoke(env, c, s, up, c.node, true); Forward(env, c, s, up, t, ret, w)
  {
    hide RunUntilFailure, NodeCalls, Before, AllPassed;
    NoNodeCalls(s, up, env.hp(s).list);
    FewPassed(env, c.log, Call(s, up, None));
    w := Way(0, 0, if c.fail != s && Present(env.hp(s), up) then [Call(s, up, None)] else []);
  }

  lemma InvokeForward(env: Env, c: Cpu, s: int, up: bool) returns (w: Way)
    requires c.node.None? && c.last.None?
    ensures var (t, ret) := Invoke(env, c, s, up, c.node, true); Forward(env, c, s, up, t, ret, w)
  {
    if c.fail != s && Present(env.hp(s), up) && env.hp(s).multi {
      w := ForwardThroughInstances(env, c, s, up);
    } else {
      w := ForwardThroughOne(env, c, s, up);
    }
  }

  ghost predicate Reached(env: Env, r: Cpu, base: seq<Call>, p: int, total: nat, up: bool) {
    r.state == r.target && r.last.None? && Went(env, r.log, base, p, total, up) && Spent(r, p, total, up)
  }

  // Since base, the first n steps of the way were passed.
  ghost predicate Went(env: Env, log: seq<Call>, base: seq<Call>, p: int, n: nat, up: bool) {
    log == base + Passed(env, p, n, up) && AllPassed(env, base, Passed(env, p, n, up))
  }

  lemma WentNowhere(env: Env, base: seq<Call>, p: int, up: bool)
    ensures Went(env, base, base, p, 0, up)
  {
  }

  lemma WentOn(env: Env, log: seq<Call>, log': seq<Call>, base: seq<Call>, p: int, n: nat, up: bool)
    requires Went(env, log, base, p, n, up)
    requires var calls := StepCalls(env, Nth(p, n + 1, up), up, None); log' == log + calls && AllPassed(env, log, calls)
    ensures Went(env, log', base, p, n + 1, up)
  {
    hide StepCalls, AllPassed;
    PassedJoin(env, base, Passed(env, p, n, up), StepCalls(env, Nth(p, n + 1, up), up, None));
  }

  ghost predicate Halted(env: Env, r: Cpu, base: seq<Call>, p: int, total: nat, up: bool, w: Way) {
    && w.n < total && r.state == After(p, w.n + 1, up) && Spent(r, p, w.n + 1, up)
    && AllPassed(env, base, Passed(env, p, w.n, up)) && r.result == Answer(env, r, w)
    && Failed(env, r, base + Passed(env, p, w.n, up), Nth(p, w.n + 1, up), up, w)
  }

  lemma StepForward(env: Env, c: Cpu, base: seq<Call>, p: int, n: nat, total: nat, up: bool) returns (w: Way)
    requires Going(c, p, n, total, up) && 0 <= p && 0 <= After(p, total, up) && Spent(c, p, n, up)
    requires Went(env, c.log, base, p, n, up)
    ensures var t := ThreadFun(env, c);
      Same(c, t) && (t.fail == c.fail || t.fail == CPUHP_INVALID) && (
      if t.result != 0 then
        !t.shouldRun && Halted(env, t, base, p, total, up, w) && w.n == n && (w.tried == [] ==> c.fail == Nth(p, n + 1, up))
      else if n + 1 == total then !t.shouldRun && Reached(env, t, base, p, total, up)
      else Going(t, p, n + 1, total, up) && Spent(t, p, n + 1, up) && Went(env, t.log, base, p, n + 1, up))
  {
    hide Invoke, StepCalls, Failed, Passed, AllPassed;
    var s := Nth(p, n + 1, up);
    var c1 := if up then c.(state := c.state + 1, shouldRun := c.state + 1 < c.target)
              else c.(state := c.state - 1, shouldRun := c.state - 1 > c.target);
    var v := InvokeForward(env, c1, s, up);
    w := Way(n, v.k, v.tried);
    FailedIgnores(env, ThreadFun(env, c), Invoke(env, c1, s, up, c.node, true).0, c.log, s, up, v, w);
    if ThreadFun(env, c).result == 0 {
      WentOn(env, c.log, ThreadFun(env, c).log, base, p, n, up);
    }
  }

  lemma FailedIgnores(env: Env, t: Cpu, u: Cpu, log: seq<Call>, s: int, up: bool, v: Way, w: Way)
    requires t.last == u.last && t.log == u.log && v.k == w.k && v.tried == w.tried
    ensures Failed(env, t, log, s, up, w) == Failed(env, u, log, s, up, v)
  {
  }

  lemma {:induction false} RunForward(env: Env, c: Cpu, base: seq<Call>, p: int, n: nat, total: nat, up: bool)
    returns (w: Way)
    requires Going(c, p, n, total, up) && 0 <= p && 0 <= After(p, total, up) && Spent(c, p, n, up)
    requires Went(env, c.log, base, p, n, up)
    ensures var r := Run(env, c);
      Same(c, r) &&
      if r.result == 0 then Reached(env, r, base, p, total, up)
      else Halted(env, r, base, p, total, up, w) && (w.tried == [] ==> c.fail == Nth(p, w.n + 1, up) >= 1)
    decreases total - n
  {
    hide ThreadFun, Went, Halted, Reached;
    w := StepForward(env, c, base, p, n, total, up);
    var t := ThreadFun(env, c);
    ThreadFunFrame(env, c);
    if t.shouldRun {
      w := RunForward(env, t, base, p, n + 1, total, up);
    }
    assert Run(env, c) == Run(env, t);
    HaltedAt(env, Run(env, c), base, p, total, up, w);
  }

  // The steps of a way between states have positive numbers.
  lemma HaltedAt(env: Env, r: Cpu, base: seq<Call>, p: int, total: nat, up: bool, w: Way)
    requires 0 <= p && 0 <= After(p, total, up)
    ensures Halted(env, r, base, p, total, up, w) ==> w.n < total && Nth(p, w.n + 1, up) >= 1
  {
  }

  // ---- back ------------------------------------------------------------------------------------------

  // c is on its way back to p over m of its steps.
  predicate Returning(c: Cpu, p: int, m: nat, up: bool) {
    && c.shouldRun && !c.single && c.node.None? && c.bringup == !up
    && m > 0 && c.state == After(p, m, up) && c.target == p
  }

  // What is left in st->last belongs to no step before the m-th.
  ghost predicate LastIsHere(env: Env, c: Cpu, p: int, m: nat, up: bool) {
    c.last.Some? ==> forall j | 1 <= j < m :: c.last.value !in env.hp(Nth(p, j, up)).list
  }

  lemma InvokeBack(env: Env, c: Cpu, s: int, back: bool)
    requires c.node.None? && c.fail != s && NeverFails(env, back)
    ensures var (t, ret) := Invoke(env, c, s, back, c.node, true);
      && ret == 0 && t == c.(last := t.last, log := c.log + StepCalls(env, s, back, c.last))
      && (t.last.Some? ==> t.last == c.last)
  {
    var st := env.hp(s);
    if Present(st, back) {
      if st.multi {
        RunSucceeds(env, c.log, s, back, Before(st.list, c.last));
      } else {
        var log := c.log + [Call(s, back, None)];
        assert log[|log| - 1].bringup == back;
      }
    }
  }

  lemma StepBack(env: Env, c: Cpu, p: int, m: nat, up: bool)
    requires Returning(c, p, m, up) && Spent(c, p, m, up) && NeverFails(env, !up)
    ensures var t := ThreadFun(env, c);
      && Same(c, t) && t.result == 0 && t.fail == c.fail && t.state == After(p, m - 1, up) && t.shouldRun == (m > 1)
      && t.log == c.log + StepCalls(env, Nth(p, m, up), !up, c.last) && (t.last.Some? ==> t.last == c.last)
  {
    hide Invoke, StepCalls;
    var s := Nth(p, m, up);
    var c1 := if !up then c.(state := c.state + 1, shouldRun := c.state + 1 < c.target)
              else c.(state := c.state - 1, shouldRun := c.state - 1 > c.target);
    InvokeBack(env, c1, s, !up);
  }

  lemma {:induction false} RunBack(env: Env, c: Cpu, p: int, m: nat, up: bool)
    requires Returning(c, p, m, up) && Spent(c, p, m, up) && NeverFails(env, !up) && LastIsHere(env, c, p, m, up)
    ensures var r := Run(env, c);
      r.state == p && r.log == c.log + StepCalls(env, Nth(p, m, up), !up, c.last) + Undone(env, p, m - 1, up)
    decreases m
  {
    hide ThreadFun, Nth, StepCalls, NeverFails;
    StepBack(env, c, p, m, up);
    var t := ThreadFun(env, c);
    ThreadFunFrame(env, c);
    if m > 1 {
      RunBack(env, t, p, m - 1, up);
      StopElsewhere(env, Nth(p, m - 1, up), !up, t.last);
    }
    assert Run(env, c) == Run(env, t);
  }

  lemma StopElsewhere(env: Env, s: int, up: bool, stop: Option<Node>)
    requires stop.Some? ==> stop.value !in env.hp(s).list
    ensures StepCalls(env, s, up, stop) == StepCalls(env, s, up, None)
  {
    BeforeIsAll(env.hp(s).list, stop);
    BeforeIsAll(env.hp(s).list, None);
  }

  // ---- the whole transition ---------------------------------------------------------------------------

  function Distance(p: int, target: int): nat {
    if p < target then target - p else p - target
  }

  // The calls that take a way back: the instances of the step that failed, then the whole steps.
  function TakenBack(env: Env, p: int, up: bool, w: Way): seq<Call> {
    var s := Nth(p, w.n + 1, up);
    (if Present(env.hp(s), !up) && w.k <= |env.hp(s).list| then NodeCalls(s, !up, env.hp(s).list[..w.k]) else [])
    + Undone(env, p, w.n, up)
  }

  lemma PartialCalls(env: Env, s: int, up: bool, k: nat)
    requires Distinct(env) && k < |env.hp(s).list| && env.hp(s).multi
    ensures StepCalls(env, s, up, Some(env.hp(s).list[k])) ==
      if Present(env.hp(s), up) then NodeCalls(s, up, env.hp(s).list[..k]) else []
  {
    BeforeIsPrefix(env.hp(s).list, k);
  }

  lemma ForwardAll(env: Env, c: Cpu, target: int) returns (w: Way)
    requires c.node.None? && c.state != target && 0 <= c.state && 0 <= target
    ensures var r := Wake(env, SetState(c, target));
      && !r.single && r.node.None? && r.bringup == (c.state < target)
      && (r.result == 0 ==> r.state == target && Reached(env, r, c.log, c.state, Distance(c.state, target), c.state < target))
      && (r.result != 0 ==> Halted(env, r, c.log, c.state, Distance(c.state, target), c.state < target, w))
      && (r.result != 0 && w.tried == [] ==> c.fail == Nth(c.state, w.n + 1, c.state < target))
  {
    hide Went, Halted;
    WentNowhere(env, c.log, c.state, c.state < target);

    var c1 := SetState(c, target).(result := 0, shouldRun := true);
    w := RunForward(env, c1, c.log, c.state, 0, Distance(c.state, target), c.state < target);
  }

  lemma BackAll(env: Env, r: Cpu, base: seq<Call>, p: int, total: nat, up: bool, w: Way)
    requires Distinct(env) && NeverFails(env, !up)
    requires Halted(env, r, base, p, total, up, w) && !r.single && r.node.None? && r.bringup == up
    ensures Wake(env, ResetState(r, p)).state == p
    ensures Wake(env, ResetState(r, p)).log == base + Succeeded(env, p, up, w) + w.tried + TakenBack(env, p, up, w)
  {
    hide Run, Passed, Undone, StepCalls, NodeCalls, NeverFails, Distinct;
    var s := Nth(p, w.n + 1, up);
    var go := ResetState(r, p).(result := 0, shouldRun := true);
    NoNodeCalls(s, up, env.hp(s).list);
    NoNodeCalls(s, !up, env.hp(s).list);
    Regroup(base, Passed(env, p, w.n, up), NodeCalls(s, up, env.hp(s).list[..w.k]), w.tried,
            if Present(env.hp(s), !up) then NodeCalls(s, !up, env.hp(s).list[..w.k]) else [], Undone(env, p, w.n, up));
    if r.last.Some? {
      LastHere(env, go, p, up, w);
      RunBack(env, go, p, w.n + 1, up);
      PartialCalls(env, s, !up, w.k);
    } else {
      UndoneStep(env, p, w.n, up);
      if w.n > 0 {
        RunBack(env, go, p, w.n, up);
        RegroupTwo(go.log, StepCalls(env, Nth(p, w.n, up), !up, None), Undone(env, p, w.n - 1, up));
      }
    }
  }

  lemma Regroup(base: seq<Call>, passed: seq<Call>, part: seq<Call>, tried: seq<Call>, back: seq<Call>, undone: seq<Call>)
    ensures base + passed + part + tried + back + undone == base + (passed + part) + tried + (back + undone)
  {
  }

  lemma RegroupTwo(log: seq<Call>, back: seq<Call>, undone: seq<Call>)
    ensures log + back + undone == log + ([] + (back + undone))
  {
  }

  lemma UndoneStep(env: Env, p: int, n: nat, up: bool)
    ensures Undone(env, p, n, up) ==
      if n == 0 then [] else StepCalls(env, Nth(p, n, up), !up, None) + Undone(env, p, n - 1, up)
  {
  }

  lemma NoNodeCalls(s: int, up: bool, nodes: seq<Node>)
    ensures NodeCalls(s, up, nodes[..0]) == []
  {
  }

  lemma LastHere(env: Env, c: Cpu, p: int, up: bool, w: Way)
    requires Distinct(env) && w.k < |env.hp(Nth(p, w.n + 1, up)).list|
    requires c.last == Some(env.hp(Nth(p, w.n + 1, up)).list[w.k])
    ensures LastIsHere(env, c, p, w.n + 1, up)
  {
    var s := Nth(p, w.n + 1, up);
    assert c.last.value in env.hp(s).list;
    forall j | 1 <= j < w.n + 1 ensures c.last.value !in env.hp(Nth(p, j, up)).list {
      assert Nth(p, j, up) != s;
    }
  }

  // How a way of c ends that is not passed: the calls that count as successful returned 0; there was at
  // most one more call, whose error is the one returned; and there was none only if the failure was
  // injected.
  ghost predicate Ended(env: Env, c: Cpu, p: int, up: bool, w: Way, ret: int) {
    && AllPassed(env, c.log, Succeeded(env, p, up, w)) && |w.tried| <= 1
    && (if w.tried == [] then c.fail == Nth(p, w.n + 1, up) && ret == EAGAIN
        else ret == env.outcome(c.log + Succeeded(env, p, up, w) + w.tried) != 0)
  }

  lemma HaltedEnds(env: Env, c: Cpu, r: Cpu, p: int, total: nat, up: bool, w: Way)
    requires Halted(env, r, c.log, p, total, up, w) && (w.tried == [] ==> c.fail == Nth(p, w.n + 1, up))
    ensures Ended(env, c, p, up, w, r.result)
  {
    hide Passed, NodeCalls, AllPassed;
    var passed, part := Passed(env, p, w.n, up), NodeCalls(Nth(p, w.n + 1, up), up, env.hp(Nth(p, w.n + 1, up)).list[..w.k]);
    PassedJoin(env, c.log, passed, part);
    if w.tried != [] {
      assert w.tried[0] in w.tried;
      assert r.log == c.log + (passed + part) + w.tried;
    }
  }

  // cpuhp_kick_ap() to another state: either every step of the way is passed; or one fails, and then
  // each call that succeeded is taken back, nothing else is, and the state is the one from before.
  lemma KickMeaning(env: Env, c: Cpu, target: int) returns (w: Way)
    requires Distinct(env) && c.node.None? && c.state != target && 0 <= c.state && 0 <= target
    requires NeverFails(env, !(c.state < target))
    ensures var (r, ret) := Kick(env, c, target);
      var up, p, total := c.state < target, c.state, Distance(c.state, target);
      if ret == 0 then
        r.state == target && r.log == c.log + Passed(env, p, total, up) && AllPassed(env, c.log, Passed(env, p, total, up))
      else
        && r.state == p && w.n < total && Ended(env, c, p, up, w, ret)
        && r.log == c.log + Succeeded(env, p, up, w) + w.tried + TakenBack(env, p, up, w)
  {
    w := ForwardAll(env, c, target);
    var r := Wake(env, SetState(c, target));
    if r.result != 0 {
      HaltedEnds(env, c, r, c.state, Distance(c.state, target), c.state < target, w);
      BackAll(env, r, c.log, c.state, Distance(c.state, target), c.state < target, w);
    }
  }

  // ---- exactly once -----------------------------------------------------------------------------------

  function Flip(l: seq<Call>): seq<Call> {
    if l == [] then [] else [l[0].(bringup := !l[0].bringup)] + Flip(l[1..])
  }

  lemma {:induction false} FlipSplits(a: seq<Call>, b: seq<Call>)
    ensures Flip(a + b) == Flip(a) + Flip(b)
    decreases |a|
  {
    if a == [] {
      assert a + b == b;
    } else {
      assert (a + b)[1..] == a[1..] + b;
      FlipSplits(a[1..], b);
    }
  }

  lemma {:induction false} FlipNodeCalls(s: int, up: bool, nodes: seq<Node>)
    ensures Flip(NodeCalls(s, up, nodes)) == NodeCalls(s, !up, nodes)
    decreases |nodes|
  {
    if nodes != [] {
      FlipNodeCalls(s, up, nodes[1..]);
      assert NodeCalls(s, up, nodes)[1..] == NodeCalls(s, up, nodes[1..]);
    }
  }

  // Each of the first n steps of the way has callbacks for both directions, or for none.
  ghost predicate Paired(env: Env, p: int, n: nat, up: bool) {
    forall i | 1 <= i <= n :: Present(env.hp(Nth(p, i, up)), up) == Present(env.hp(Nth(p, i, up)), !up)
  }

  lemma StepFlipped(env: Env, s: int, up: bool)
    requires Present(env.hp(s), up) == Present(env.hp(s), !up)
    ensures Flip(StepCalls(env, s, up, None)) == StepCalls(env, s, !up, None)
  {
    FlipNodeCalls(s, up, Before(env.hp(s).list, None));
  }

  lemma {:induction false} UndoneIsFlipped(env: Env, p: int, n: nat, up: bool)
    requires Paired(env, p, n, up)
    ensures multiset(Undone(env, p, n, up)) == multiset(Flip(Passed(env, p, n, up)))
    decreases n
  {
    hide StepCalls, Nth, Flip;
    if n > 0 {
      UndoneIsFlipped(env, p, n - 1, up);
      FlipSplits(Passed(env, p, n - 1, up), StepCalls(env, Nth(p, n, up), up, None));
      StepFlipped(env, Nth(p, n, up), up);
    } else {
      FlipOfNone();
    }
  }

  lemma FlipOfNone()
    ensures Flip([]) == []
  {
  }

  // With callbacks in pairs: of every callback of every instance, as many calls are taken back as
  // succeeded.
  lemma TakenBackExactly(env: Env, p: int, up: bool, w: Way)
    requires Paired(env, p, w.n + 1, up) && w.k <= |env.hp(Nth(p, w.n + 1, up)).list|
    requires w.k > 0 ==> Present(env.hp(Nth(p, w.n + 1, up)), up)
    ensures multiset(TakenBack(env, p, up, w)) == multiset(Flip(Succeeded(env, p, up, w)))
  {
    hide Flip, Passed, Undone, StepCalls, Nth, NodeCalls;
    var s := Nth(p, w.n + 1, up);
    var nodes := env.hp(s).list[..w.k];
    UndoneIsFlipped(env, p, w.n, up);
    FlipSplits(Passed(env, p, w.n, up), NodeCalls(s, up, nodes));
    FlipNodeCalls(s, up, nodes);
    NoNodeCalls(s, !up, env.hp(s).list);
  }

  lemma HaltedIsPaired(env: Env, r: Cpu, base: seq<Call>, p: int, total: nat, up: bool, w: Way)
    requires Halted(env, r, base, p, total, up, w) && Paired(env, p, total, up)
    ensures Paired(env, p, w.n + 1, up) && w.k <= |env.hp(Nth(p, w.n + 1, up)).list| && |w.tried| <= 1
    ensures w.k > 0 ==> Present(env.hp(Nth(p, w.n + 1, up)), up)
  {
  }

  lemma AtTheEnd(a: seq<Call>, b: seq<Call>)
    ensures a <= a + b && (a + b)[|a|..] == b
  {
  }

  // The same for a whole transition that fails: what was done is taken back once, and nothing else.
  lemma KickExactly(env: Env, c: Cpu, target: int) returns (w: Way)
    requires Distinct(env) && c.node.None? && c.state != target && 0 <= c.state && 0 <= target
    requires NeverFails(env, !(c.state < target)) && Kick(env, c, target).1 != 0
    requires Paired(env, c.state, Distance(c.state, target), c.state < target)
    ensures var r, done := Kick(env, c, target).0, Succeeded(env, c.state, c.state < target, w);
      && r.state == c.state && Ended(env, c, c.state, c.state < target, w, Kick(env, c, target).1)
      && c.log + done + w.tried <= r.log
      && multiset(r.log[|c.log + done + w.tried|..]) == multiset(Flip(done))
  {
    hide Wake, Passed, Undone, NodeCalls, Flip, ResetState, Paired, Distinct, NeverFails, TakenBack, Succeeded, SetState, Failed, AllPassed;
    w := ForwardAll(env, c, target);
    var up := c.state < target;
    var r := Wake(env, SetState(c, target));
    BackAll(env, r, c.log, c.state, Distance(c.state, target), up, w);
    HaltedEnds(env, c, r, c.state, Distance(c.state, target), up, w);
    HaltedIsPaired(env, r, c.log, c.state, Distance(c.state, target), up, w);
    TakenBackExactly(env, c.state, up, w);
    AtTheEnd(c.log + Succeeded(env, c.state, up, w) + w.tried, TakenBack(env, c.state, up, w));
  }
}

/** `sequencial_runner` and its pool: tasks of one tag run one after the other, in the order they were scheduled. */
module SequencialRunner {
  import opened Arithmetic

  datatype Task = Task(id: nat, tag: nat)

  datatype State = Run | Waiting

  /** Where the runner's thread is: before the locked block, in its wait, or in the loop with `i` tasks begun. */
  datatype Phase = Entering | Asleep(notified: bool) | Looping(i: nat, busy: bool)

  /** One runner, with the history of what it was given, began and finished. */
  datatype Runner = Runner(state: State, standby: seq<Task>, assigning: seq<Task>, phase: Phase,
                           given: seq<Task>, started: seq<Task>, finished: seq<Task>)

  function Fresh(): Runner { Runner(Run, [], [], Entering, [], [], []) }

  // ---- the steps of one runner ----

  function Assign(r: Runner, t: Task): Runner
  {
    r.(standby := r.standby + [t], given := r.given + [t],
       phase := if r.state == Waiting && r.phase.Asleep? then Asleep(true) else r.phase)
  }

  /** The locked block, entered at first or on waking up, for whatever reason: sleep, or swap the two vectors. */
  function Enter(r: Runner): Runner
  {
    if r.standby == [] then r.(state := Waiting, phase := Asleep(false))
    else r.(standby := r.assigning, assigning := r.standby, state := Run, phase := Looping(0, false))
  }

  function Begin(r: Runner): Runner
    requires r.phase.Looping? && r.phase.i < |r.assigning|
  {
    r.(phase := Looping(r.phase.i + 1, true), started := r.started + [r.assigning[r.phase.i]])
  }

  function Finish(r: Runner): Runner
    requires r.phase.Looping? && 0 < r.phase.i <= |r.assigning|
  {
    r.(phase := Looping(r.phase.i, false), finished := r.finished + [r.assigning[r.phase.i - 1]])
  }

  function Clear(r: Runner): Runner { r.(assigning := [], phase := Entering) }

  datatype Move = MEnter | MBegin | MFinish | MClear

  predicate Enabled(r: Runner, m: Move)
  {
    match m
    case MEnter => !r.phase.Looping?
    case MBegin => r.state == Run && r.phase.Looping? && !r.phase.busy && r.phase.i < |r.assigning|
    case MFinish => r.phase.Looping? && r.phase.busy && 0 < r.phase.i <= |r.assigning|
    case MClear => r.phase.Looping? && !r.phase.busy && r.phase.i == |r.assigning|
  }

  function Moved(r: Runner, m: Move): Runner
    requires Enabled(r, m)
  {
    match m
    case MEnter => Enter(r)
    case MBegin => Begin(r)
    case MFinish => Finish(r)
    case MClear => Clear(r)
  }

  /** The part of the swapped vector not begun yet. */
  function Unrun(r: Runner): seq<Task>
  {
    if r.phase.Looping? && r.phase.i <= |r.assigning| then r.assigning[r.phase.i..] else []
  }

  function Current(r: Runner): seq<Task>
  {
    if r.phase.Looping? && r.phase.busy && 0 < r.phase.i <= |r.assigning| then [r.assigning[r.phase.i - 1]] else []
  }

  /** What was begun, what is left of the swapped vector and what stands by is what was given, in order; at most
      one task is begun and not finished; a runner asleep and not notified has nothing to do. */
  predicate RunnerInv(r: Runner)
  {
    && (r.phase.Looping? ==> r.phase.i <= |r.assigning| && (r.phase.busy ==> r.phase.i > 0))
    && (!r.phase.Looping? ==> r.assigning == [])
    && (r.state == Waiting <==> r.phase.Asleep?)
    && (r.phase == Asleep(false) ==> r.standby == [])
    && r.started + Unrun(r) + r.standby == r.given
    && r.finished + Current(r) == r.started
  }

  lemma AssignKeeps(r: Runner, t: Task)
    requires RunnerInv(r)
    ensures RunnerInv(Assign(r, t))
  {
    assert r.started + Unrun(r) + (r.standby + [t]) == (r.started + Unrun(r) + r.standby) + [t];
  }

  lemma MoveKeeps(r: Runner, m: Move)
    requires RunnerInv(r) && Enabled(r, m)
    ensures RunnerInv(Moved(r, m)) && Moved(r, m).given == r.given
  {
    var q := Moved(r, m);
    match m {
      case MEnter =>
        assert r.started + r.standby == r.given;
      case MBegin =>
        assert Unrun(r) == [r.assigning[r.phase.i]] + Unrun(q);
        assert r.started + ([r.assigning[r.phase.i]] + Unrun(q)) == q.started + Unrun(q);
      case MFinish =>
        assert Unrun(q) == Unrun(r);
      case MClear =>
        assert Unrun(r) == [] == Unrun(q);
    }
  }

  lemma Bounds(r: Runner)
    requires RunnerInv(r)
    ensures r.phase.Looping? ==> r.phase.i <= |r.assigning| && (r.state == Run)
    ensures r.phase == Entering ==> r.assigning == [] && r.finished == r.started
  {}

  /** The block's assertions: the vector taken is empty before the swap and not after it. */
  lemma SwapAssertions(r: Runner)
    requires RunnerInv(r) && Enabled(r, MEnter) && r.standby != []
    ensures r.assigning == [] && Enter(r).assigning != [] && Enter(r).standby == []
  {}

  /** A bound on the moves left when nothing more is given. */
  function Work(r: Runner): int
  {
    4 * |r.standby| + match r.phase
      case Entering => 1
      case Asleep(notified) => if notified then 1 else 0
      case Looping(i, busy) => 2 * (|r.assigning| - i) + (if busy then 1 else 0) + 2
  }

  /** A runner that is not asleep for good has a move, and each one brings it nearer to that. */
  lemma Advances(r: Runner) returns (m: Move)
    requires RunnerInv(r) && r.phase != Asleep(false)
    ensures Enabled(r, m) && 0 <= Work(Moved(r, m)) < Work(r)
  {
    m := match r.phase
      case Entering => MEnter
      case Asleep(_) => MEnter
      case Looping(i, busy) => if busy then MFinish else if i < |r.assigning| then MBegin else MClear;
  }

  // ---- the pool ----

  datatype Pool = Pool(runners: seq<Runner>, scheduled: seq<Task>)

  datatype Step = Schedule(task: Task) | Turn(k: nat, move: Move)

  function Start(n: nat): Pool { Pool(seq(n, _ => Fresh()), []) }

  predicate Allowed(p: Pool, step: Step)
  {
    match step
    case Schedule(_) => p.runners != []
    case Turn(k, move) => k < |p.runners| && Enabled(p.runners[k], move)
  }

  function Index(tag: nat, n: nat): (k: nat)
    requires n > 0
    ensures k < n
  {
    tag % n
  }

  /** Tags share a runner exactly when they differ by a multiple of the number of runners, and every runner has tags. */
  lemma TagsShareIff(tag: nat, other: nat, n: nat)
    requires n > 0
    ensures Index(tag, n) == Index(other, n) <==> exists m: int :: tag - other == m * n
    ensures forall k: nat :: k < n ==> Index(k, n) == k
  {
    forall k: nat | k < n ensures Index(k, n) == k { SmallTag(k, n); }
    if Index(tag, n) == Index(other, n) {
      var m := tag / n - other / n;
      assert tag - other == m * n by { assert tag == n * (tag / n) + tag % n && other == n * (other / n) + other % n; }
    }
    if m: int :| tag - other == m * n {
      SameRemainder(tag, other, m, n);
    }
  }

  lemma SmallTag(k: nat, n: nat)
    requires k < n
    ensures k % n == k
  {}

  lemma SameRemainder(tag: nat, other: nat, m: int, n: nat)
    requires n > 0 && tag - other == m * n
    ensures tag % n == other % n
  {
    ModShift(other, n, m);
    assert tag == other + n * m;
  }

  function Next(p: Pool, step: Step): Pool
    requires Allowed(p, step)
  {
    match step
    case Schedule(t) =>
      var k := Index(t.tag, |p.runners|);
      Pool(p.runners[k := Assign(p.runners[k], t)], p.scheduled + [t])
    case Turn(k, move) => p.(runners := p.runners[k := Moved(p.runners[k], move)])
  }

  /** The tasks that go to runner `k` of `n`. */
  function Share(ts: seq<Task>, k: nat, n: nat): seq<Task>
    requires n > 0
  {
    if ts == [] then [] else
    var rest := Share(ts[..|ts| - 1], k, n);
    var t := ts[|ts| - 1];
    if Index(t.tag, n) == k then rest + [t] else rest
  }

  function OfTag(ts: seq<Task>, tag: nat): seq<Task>
  {
    if ts == [] then [] else
    var rest := OfTag(ts[..|ts| - 1], tag);
    var t := ts[|ts| - 1];
    if t.tag == tag then rest + [t] else rest
  }

  predicate Inv(p: Pool)
  {
    && p.runners != []
    && forall k :: 0 <= k < |p.runners| ==> RunnerInv(p.runners[k]) && p.runners[k].given == Share(p.scheduled, k, |p.runners|)
  }

  lemma StepKeeps(p: Pool, step: Step)
    requires Inv(p) && Allowed(p, step)
    ensures Inv(Next(p, step))
  {
    hide RunnerInv, Index;
    match step {
      case Schedule(t) =>
        var n := |p.runners|;
        var k := Index(t.tag, n);
        AssignKeeps(p.runners[k], t);
        assert (p.scheduled + [t])[..|p.scheduled|] == p.scheduled;
        assert forall j :: 0 <= j < n ==> Share(p.scheduled + [t], j, n) == if j == k then Share(p.scheduled, j, n) + [t] else Share(p.scheduled, j, n);
      case Turn(k, move) =>
        MoveKeeps(p.runners[k], move);
    }
  }

  predicate Reaches(p: Pool, steps: seq<Step>, q: Pool)
    decreases |steps|
  {
    if steps == [] then p == q else Allowed(p, steps[0]) && Reaches(Next(p, steps[0]), steps[1..], q)
  }

  lemma {:induction false} RunInv(p: Pool, steps: seq<Step>, q: Pool)
    requires Inv(p) && Reaches(p, steps, q)
    ensures Inv(q)
    decreases |steps|
  {
    if steps != [] {
      StepKeeps(p, steps[0]);
      RunInv(Next(p, steps[0]), steps[1..], q);
    }
  }

  lemma {:induction false} RunKeepsCount(p: Pool, steps: seq<Step>, q: Pool)
    requires Reaches(p, steps, q)
    ensures |q.runners| == |p.runners|
    decreases |steps|
  {
    if steps != [] { RunKeepsCount(Next(p, steps[0]), steps[1..], q); }
  }

  // ---- filters ----

  lemma {:induction false} TagWithinShare(ts: seq<Task>, tag: nat, n: nat)
    requires n > 0
    ensures OfTag(Share(ts, Index(tag, n), n), tag) == OfTag(ts, tag)
  {
    hide Index;
    if ts != [] {
      var front, t := ts[..|ts| - 1], ts[|ts| - 1];
      TagWithinShare(front, tag, n);
      var rest := Share(front, Index(tag, n), n);
      assert (rest + [t])[..|rest|] == rest;
    }
  }

  lemma {:induction false} ShareOnly(ts: seq<Task>, k: nat, n: nat)
    requires n > 0
    ensures forall t :: t in Share(ts, k, n) ==> Index(t.tag, n) == k
  {
    if ts != [] { ShareOnly(ts[..|ts| - 1], k, n); }
  }

  lemma {:induction false} TagPrefix(us: seq<Task>, vs: seq<Task>, tag: nat)
    ensures OfTag(us, tag) <= OfTag(us + vs, tag)
  {
    if vs == [] {
      assert us + vs == us;
    } else {
      var front := vs[..|vs| - 1];
      TagPrefix(us, front, tag);
      assert (us + vs)[..|us + vs| - 1] == us + front;
    }
  }

  // ---- the theorems ----

  /** Tasks of equal tag begin in schedule order, all on one runner, and one begins only when the ones before it
      are finished. */
  lemma TagOrder(n: nat, steps: seq<Step>, q: Pool, tag: nat)
    requires n > 0 && Reaches(Start(n), steps, q)
    ensures |q.runners| == n
    ensures var r := q.runners[Index(tag, n)];
            && OfTag(r.started, tag) <= OfTag(q.scheduled, tag)
            && r.finished <= r.started && |r.started| <= |r.finished| + 1
    ensures forall k :: 0 <= k < n && k != Index(tag, n) ==> OfTag(q.runners[k].started, tag) == []
  {
    hide Index, RunnerInv, OfTag, Share, Reaches;
    StartInv(n);
    RunInv(Start(n), steps, q);
    RunKeepsCount(Start(n), steps, q);
    RunnerTag(q.runners[Index(tag, n)], tag);
    TagWithinShare(q.scheduled, tag, n);
    forall k | 0 <= k < n && k != Index(tag, n) ensures OfTag(q.runners[k].started, tag) == [] {
      OtherRunner(q.runners[k], q.scheduled, k, n, tag);
    }
  }

  lemma RunnerTag(r: Runner, tag: nat)
    requires RunnerInv(r)
    ensures OfTag(r.started, tag) <= OfTag(r.given, tag)
    ensures r.finished <= r.started && |r.started| <= |r.finished| + 1
  {
    hide OfTag;
    TagPrefix(r.started, Unrun(r) + r.standby, tag);
    assert r.started + (Unrun(r) + r.standby) == r.given;
  }

  lemma OtherRunner(r: Runner, scheduled: seq<Task>, k: nat, n: nat, tag: nat)
    requires n > 0 && RunnerInv(r) && r.given == Share(scheduled, k, n) && k != Index(tag, n)
    ensures OfTag(r.started, tag) == []
  {
    hide OfTag, Share, Index;
    ShareOnly(scheduled, k, n);
    assert r.given == r.started + (Unrun(r) + r.standby);
    assert forall t :: t in r.started ==> t in r.given;
    NoneOfTag(r.started, tag);
  }

  lemma {:induction false} NoneOfTag(ts: seq<Task>, tag: nat)
    requires forall t :: t in ts ==> t.tag != tag
    ensures OfTag(ts, tag) == []
  {
    if ts != [] { NoneOfTag(ts[..|ts| - 1], tag); }
  }

  lemma StartInv(n: nat)
    requires n > 0
    ensures Inv(Start(n))
  {}

  /** Each runner executes what it was given, once and in order. */
  lemma ExecutionOrder(n: nat, steps: seq<Step>, q: Pool, k: nat)
    requires n > 0 && Reaches(Start(n), steps, q) && k < |q.runners|
    ensures var r := q.runners[k]; r.started + Unrun(r) + r.standby == r.given == Share(q.scheduled, k, |q.runners|)
  {
    StartInv(n);
    RunInv(Start(n), steps, q);
  }

  /** When every runner sleeps with no notification on its way, every task scheduled is finished. */
  lemma NothingForgotten(n: nat, steps: seq<Step>, q: Pool, tag: nat)
    requires n > 0 && Reaches(Start(n), steps, q)
    requires forall k :: 0 <= k < |q.runners| ==> q.runners[k].phase == Asleep(false)
    ensures |q.runners| == n && OfTag(q.runners[Index(tag, n)].finished, tag) == OfTag(q.scheduled, tag)
  {
    hide Index;
    StartInv(n);
    RunInv(Start(n), steps, q);
    RunKeepsCount(Start(n), steps, q);
    var r := q.runners[Index(tag, n)];
    TagWithinShare(q.scheduled, tag, n);
    assert r.finished == r.given;
  }

  // ---- the runner and the pool as objects ----

  class SequencialRunner {
    var state: State
    var standby: seq<Task>
    var assigning: seq<Task>
    var phase: Phase
    ghost var given: seq<Task>
    ghost var started: seq<Task>
    ghost var finished: seq<Task>

    ghost function View(): Runner
      reads this
    {
      Runner(state, standby, assigning, phase, given, started, finished)
    }

    constructor ()
      ensures View() == Fresh()
    {
      state, standby, assigning, phase := Run, [], [], Entering;
      given, started, finished := [], [], [];
    }

    method AssignTask(t: Task)
      modifies this
      ensures View() == Assign(old(View()), t)
    {
      standby := standby + [t];
      if state == Waiting && phase.Asleep? { phase := Asleep(true); }
      given := given + [t];
    }

    /** Up to the wait, or through the swap. */
    method EnterBlock() returns (taken: bool)
      requires RunnerInv(View()) && Enabled(View(), MEnter)
      modifies this
      ensures View() == Moved(old(View()), MEnter) && RunnerInv(View())
      ensures taken <==> old(standby) != []
    {
      MoveKeeps(View(), MEnter);
      assert assigning == [];
      if standby == [] {
        state := Waiting;
        phase := Asleep(false);
        return false;
      }
      standby, assigning := assigning, standby;
      assert assigning != [] && standby == [];
      state := Run;
      phase := Looping(0, false);
      taken := true;
    }

    method BeginTask() returns (t: Task)
      requires RunnerInv(View()) && Enabled(View(), MBegin)
      modifies this
      ensures View() == Moved(old(View()), MBegin) && RunnerInv(View())
      ensures started == old(started) + [t]
    {
      MoveKeeps(View(), MBegin);
      t := assigning[phase.i];
      phase := Looping(phase.i + 1, true);
      started := started + [t];
    }

    method FinishTask()
      requires RunnerInv(View()) && Enabled(View(), MFinish)
      modifies this
      ensures View() == Moved(old(View()), MFinish) && RunnerInv(View())
    {
      MoveKeeps(View(), MFinish);
      finished := finished + [assigning[phase.i - 1]];
      phase := Looping(phase.i, false);
    }

    method ClearBatch()
      requires RunnerInv(View()) && Enabled(View(), MClear)
      modifies this
      ensures View() == Moved(old(View()), MClear) && RunnerInv(View())
    {
      MoveKeeps(View(), MClear);
      assigning := [];
      phase := Entering;
    }

    /** The loop over a batch while nothing else happens: the whole batch is executed in order. */
    method RunBatch()
      requires RunnerInv(View()) && phase == Looping(0, false)
      modifies this
      ensures RunnerInv(View()) && phase == Entering && assigning == []
      ensures started == old(started) + old(assigning) && finished == started
      ensures standby == old(standby) && given == old(given)
    {
      hide RunnerInv;
      var size := |assigning|;
      Bounds(View());
      ghost var batch := assigning;
      while state == Run && phase.i != size
        invariant RunnerInv(View()) && phase.Looping? && !phase.busy && phase.i <= size && state == Run
        invariant assigning == batch && standby == old(standby) && given == old(given)
        invariant started == old(started) + batch[..phase.i]
        decreases size - phase.i
      {
        var _ := BeginTask();
        FinishTask();
      }
      ClearBatch();
      Bounds(View());
    }
  }

  method AssignToPool(runners: seq<SequencialRunner>, t: Task)
    requires runners != [] && forall i, j :: 0 <= i < j < |runners| ==> runners[i] != runners[j]
    modifies runners
    ensures forall k :: 0 <= k < |runners| ==>
      runners[k].View() == if k == Index(t.tag, |runners|) then Assign(old(runners[k].View()), t) else old(runners[k].View())
  {
    var ridx := Index(t.tag, |runners|);
    runners[ridx].AssignTask(t);
  }
}

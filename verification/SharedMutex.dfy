/** `impl::shared_mutex`: shared, upgrade and exclusive modes, for any number of threads. */
module SharedMutex {

  datatype UpgradeState = Set | Uping | NoSet

  // ---- the monitor's state ----

  /** `state_data`. The shared count takes in the holder of the upgrade mode. */
  datatype Data = Data(shared: nat, upgrade: UpgradeState, exclusive: bool)

  /** What a thread holds, or waits for in the middle of a conversion. */
  datatype Mode = Free | Shared | Upgrade | Exclusive | WaitsExclusive | WaitsUpgraded

  /** A conversion that waits is two operations: the call up to its wait loop, and `Resume`. */
  datatype Op =
    | LockShared | UnlockShared | UnlockSharedAndLock
    | Lock | Unlock | UnlockAndLockShared
    | TryLock | TryLockShared
    | LockUpgrade | UnlockUpgrade | UnlockUpgradeAndLock
    | Resume

  /** Calls are made on the mode that is held. */
  predicate Legal(mode: Mode, op: Op)
  {
    match op
    case LockShared | Lock | TryLock | TryLockShared | LockUpgrade => mode == Free
    case UnlockShared | UnlockSharedAndLock => mode == Shared
    case Unlock | UnlockAndLockShared => mode == Exclusive
    case UnlockUpgrade | UnlockUpgradeAndLock => mode == Upgrade
    case Resume => mode == WaitsExclusive || mode == WaitsUpgraded
  }

  /** Whether the call passes its wait loop; a `try` call returns false instead of waiting. */
  predicate Passes(d: Data, op: Op)
  {
    match op
    case LockShared | TryLockShared | LockUpgrade => !(d.exclusive || d.upgrade != NoSet)
    case Lock | TryLock | Resume => !(d.shared > 0 || d.exclusive)
    case _ => true
  }

  /** The assertions on the way of a call that passes. */
  predicate Asserts(d: Data, mode: Mode, op: Op)
  {
    match op
    case UnlockShared | UnlockSharedAndLock => d.shared > 0 && !d.exclusive
    case Unlock => d.shared == 0 && d.exclusive
    case UnlockAndLockShared => d.shared == 0 && d.exclusive && d.upgrade == NoSet
    case LockUpgrade => d.upgrade != Set
    case UnlockUpgrade | UnlockUpgradeAndLock => d.upgrade == Set && d.shared > 0
    case Resume => mode == WaitsUpgraded ==> d.upgrade == Uping
    case _ => true
  }

  function After(d: Data, mode: Mode, op: Op): Data
    requires Passes(d, op) && Asserts(d, mode, op)
  {
    match op
    case LockShared | TryLockShared => d.(shared := d.shared + 1)
    case UnlockShared | UnlockSharedAndLock => d.(shared := d.shared - 1)
    case Lock | TryLock => d.(exclusive := true)
    case Unlock => d.(exclusive := false)
    case UnlockAndLockShared => d.(exclusive := false, shared := d.shared + 1)
    case LockUpgrade => d.(shared := d.shared + 1, upgrade := Set)
    case UnlockUpgrade => d.(shared := d.shared - 1, upgrade := NoSet)
    case UnlockUpgradeAndLock => d.(shared := d.shared - 1, upgrade := Uping)
    case Resume => if mode == WaitsUpgraded then d.(exclusive := true, upgrade := NoSet) else d.(exclusive := true)
  }

  function NewMode(mode: Mode, op: Op): Mode
  {
    match op
    case LockShared | TryLockShared | UnlockAndLockShared => Shared
    case UnlockShared | Unlock | UnlockUpgrade => Free
    case UnlockSharedAndLock => WaitsExclusive
    case Lock | TryLock | Resume => Exclusive
    case LockUpgrade => Upgrade
    case UnlockUpgradeAndLock => WaitsUpgraded
  }

  // ---- the monitor as an object: each method is one stretch under the state mutex ----

  class Monitor {
    var shared: nat
    var upgrade: UpgradeState
    var exclusive: bool

    function View(): Data
      reads this
    {
      Data(shared, upgrade, exclusive)
    }

    constructor ()
      ensures View() == Data(0, NoSet, false)
    {
      shared, upgrade, exclusive := 0, NoSet, false;
    }

    /** False is one turn of a wait loop, or the answer of a `try` call. */
    method EnterShared() returns (passed: bool)
      modifies this
      ensures passed == Passes(old(View()), LockShared) == Passes(old(View()), TryLockShared)
      ensures View() == if passed then After(old(View()), Free, LockShared) else old(View())
    {
      if exclusive || upgrade != NoSet { return false; }
      shared := shared + 1;
      passed := true;
    }

    method EnterExclusive() returns (passed: bool)
      modifies this
      ensures passed == Passes(old(View()), Lock) == Passes(old(View()), TryLock) == Passes(old(View()), Resume)
      ensures View() == if passed then After(old(View()), WaitsExclusive, Resume) else old(View())
      ensures passed ==> View() == After(old(View()), Free, Lock)
    {
      if shared > 0 || exclusive { return false; }
      exclusive := true;
      passed := true;
    }

    method EnterUpgrade() returns (passed: bool)
      modifies this
      ensures passed == Passes(old(View()), LockUpgrade)
      ensures View() == if passed then After(old(View()), Free, LockUpgrade) else old(View())
    {
      if exclusive || upgrade != NoSet { return false; }
      assert upgrade != Set;
      shared := shared + 1;
      upgrade := Set;
      passed := true;
    }

    method LeaveShared()
      requires Asserts(View(), Shared, UnlockShared)
      modifies this
      ensures View() == After(old(View()), Shared, UnlockShared) == After(old(View()), Shared, UnlockSharedAndLock)
    {
      shared := shared - 1;
    }

    method LeaveExclusive()
      requires Asserts(View(), Exclusive, Unlock)
      modifies this
      ensures View() == After(old(View()), Exclusive, Unlock)
    {
      exclusive := false;
    }

    method ExclusiveToShared()
      requires Asserts(View(), Exclusive, UnlockAndLockShared)
      modifies this
      ensures View() == After(old(View()), Exclusive, UnlockAndLockShared)
    {
      exclusive := false;
      assert !(exclusive || upgrade != NoSet);
      shared := shared + 1;
    }

    method LeaveUpgrade()
      requires Asserts(View(), Upgrade, UnlockUpgrade)
      modifies this
      ensures View() == After(old(View()), Upgrade, UnlockUpgrade)
    {
      upgrade := NoSet;
      shared := shared - 1;
    }

    method BeginUp()
      requires Asserts(View(), Upgrade, UnlockUpgradeAndLock)
      modifies this
      ensures View() == After(old(View()), Upgrade, UnlockUpgradeAndLock)
    {
      upgrade := Uping;
      shared := shared - 1;
    }

    method FinishUp() returns (passed: bool)
      requires Asserts(View(), WaitsUpgraded, Resume)
      modifies this
      ensures passed == Passes(old(View()), Resume)
      ensures View() == if passed then After(old(View()), WaitsUpgraded, Resume) else old(View())
    {
      if shared > 0 || exclusive { return false; }
      exclusive := true;
      upgrade := NoSet;
      passed := true;
    }
  }

  // ---- any number of threads ----

  datatype System = System(data: Data, modes: seq<Mode>)

  datatype Step = Step(thread: nat, op: Op)

  function Start(threads: nat): System { System(Data(0, NoSet, false), seq(threads, _ => Free)) }

  /** A call that does not pass changes nothing. */
  function Next(s: System, step: Step): System
    requires step.thread < |s.modes| && (Passes(s.data, step.op) ==> Asserts(s.data, s.modes[step.thread], step.op))
  {
    var mode := s.modes[step.thread];
    if !Passes(s.data, step.op) then s
    else System(After(s.data, mode, step.op), s.modes[step.thread := NewMode(mode, step.op)])
  }

  /** A legal call; an exclusive owner goes down to shared only while no upgrade is pending. */
  predicate Allowed(s: System, step: Step)
  {
    && step.thread < |s.modes| && Legal(s.modes[step.thread], step.op)
    && (step.op == UnlockAndLockShared ==> WaitsUpgraded !in s.modes)
  }

  // ---- counting threads ----

  function Count(modes: seq<Mode>, m: Mode): nat
  {
    if modes == [] then 0 else (if modes[0] == m then 1 else 0) + Count(modes[1..], m)
  }

  lemma {:induction false} CountUpdate(modes: seq<Mode>, i: nat, to: Mode, m: Mode)
    requires i < |modes|
    ensures Count(modes[i := to], m) == Count(modes, m) - (if modes[i] == m then 1 else 0) + (if to == m then 1 else 0)
  {
    if i > 0 {
      assert modes[i := to][1..] == modes[1..][i - 1 := to];
      CountUpdate(modes[1..], i - 1, to, m);
    } else {
      assert modes[i := to][1..] == modes[1..];
    }
  }

  lemma {:induction false} CountIn(modes: seq<Mode>, m: Mode)
    ensures m in modes <==> Count(modes, m) > 0
  {
    if modes != [] { CountIn(modes[1..], m); }
  }

  /** Two threads in a mode count as two. */
  lemma CountTwo(modes: seq<Mode>, i: nat, j: nat, m: Mode)
    requires i < |modes| && j < |modes| && i != j && modes[i] == modes[j] == m
    ensures Count(modes, m) >= 2
  {
    var other := if m == Free then Shared else Free;
    CountUpdate(modes, i, other, m);
    var rest := modes[i := other];
    assert rest[j] == m;
    CountIn(rest, m);
  }

  lemma {:induction false} CountFree(threads: nat, m: Mode)
    ensures m != Free ==> Count(seq(threads, _ => Free), m) == 0
  {
    if threads > 0 {
      assert seq(threads, _ => Free)[1..] == seq(threads - 1, _ => Free);
      CountFree(threads - 1, m);
    }
  }

  // ---- the invariant ----

  /** The state counts the threads: holders of shared and upgrade, the one owner, the one upgrade held or pending. */
  predicate Inv(s: System)
  {
    var sh, up, ex, wu := Count(s.modes, Shared), Count(s.modes, Upgrade), Count(s.modes, Exclusive), Count(s.modes, WaitsUpgraded);
    && s.data.shared == sh + up
    && ex == (if s.data.exclusive then 1 else 0)
    && (s.data.exclusive ==> s.data.shared == 0)
    && up == (if s.data.upgrade == Set then 1 else 0)
    && wu == (if s.data.upgrade == Uping then 1 else 0)
  }

  /** Every assertion on the way of a legal call holds, but for one: going down from exclusive to shared fails
      exactly when an upgrade is pending. */
  lemma AssertionsHold(s: System, step: Step)
    requires Inv(s) && step.thread < |s.modes| && Legal(s.modes[step.thread], step.op) && Passes(s.data, step.op)
    ensures Asserts(s.data, s.modes[step.thread], step.op)
       <==> !(step.op == UnlockAndLockShared && WaitsUpgraded in s.modes)
  {
    var m := s.modes[step.thread];
    CountIn(s.modes, m);
    CountIn(s.modes, WaitsUpgraded);
    CountIn(s.modes, Upgrade);
  }

  lemma StepKeeps(s: System, step: Step)
    requires Inv(s) && Allowed(s, step)
    ensures Passes(s.data, step.op) ==> Asserts(s.data, s.modes[step.thread], step.op)
    ensures Inv(Next(s, step))
  {
    if Passes(s.data, step.op) {
      AssertionsHold(s, step);
      var i, to := step.thread, NewMode(s.modes[step.thread], step.op);
      CountUpdate(s.modes, i, to, Shared);
      CountUpdate(s.modes, i, to, Upgrade);
      CountUpdate(s.modes, i, to, Exclusive);
      CountUpdate(s.modes, i, to, WaitsUpgraded);
    }
  }

  predicate Reaches(s: System, steps: seq<Step>, t: System)
    decreases |steps|
  {
    if steps == [] then s == t
    else
      && Allowed(s, steps[0])
      && (Passes(s.data, steps[0].op) ==> Asserts(s.data, s.modes[steps[0].thread], steps[0].op))
      && Reaches(Next(s, steps[0]), steps[1..], t)
  }

  lemma {:induction false} RunInv(s: System, steps: seq<Step>, t: System)
    requires Inv(s) && Reaches(s, steps, t)
    ensures Inv(t)
    decreases |steps|
  {
    hide Inv, Next;
    if steps != [] {
      StepKeeps(s, steps[0]);
      RunInv(Next(s, steps[0]), steps[1..], t);
    }
  }

  lemma StartInv(threads: nat)
    ensures Inv(Start(threads))
  {
    CountFree(threads, Shared);
    CountFree(threads, Upgrade);
    CountFree(threads, Exclusive);
    CountFree(threads, WaitsUpgraded);
  }

  // ---- the theorems ----

  /** Whether two threads may be in these modes at once. */
  predicate Compatible(m: Mode, n: Mode)
  {
    && (m == Exclusive ==> n != Exclusive && n != Shared && n != Upgrade)
    && (m == Upgrade || m == WaitsUpgraded ==> n != Upgrade && n != WaitsUpgraded)
  }

  /** In every run, an exclusive owner is alone with no sharer and no upgrader, and one thread at most holds or
      awaits an upgrade. */
  lemma Exclusion(threads: nat, steps: seq<Step>, t: System, i: nat, j: nat)
    requires Reaches(Start(threads), steps, t) && i < |t.modes| && j < |t.modes| && i != j
    ensures Compatible(t.modes[i], t.modes[j])
  {
    StartInv(threads);
    RunInv(Start(threads), steps, t);
    var m, n := t.modes[i], t.modes[j];
    CountIn(t.modes, m);
    CountIn(t.modes, n);
    if m == n { CountTwo(t.modes, i, j, m); }
  }

  /** In every run, the counters are the number of threads in each mode. */
  lemma Accounting(threads: nat, steps: seq<Step>, t: System)
    requires Reaches(Start(threads), steps, t)
    ensures t.data.shared == Count(t.modes, Shared) + Count(t.modes, Upgrade)
    ensures t.data.exclusive <==> Count(t.modes, Exclusive) == 1
    ensures t.data.upgrade != NoSet <==> Count(t.modes, Upgrade) + Count(t.modes, WaitsUpgraded) == 1
    ensures Count(t.modes, Upgrade) + Count(t.modes, WaitsUpgraded) <= 1
  {
    StartInv(threads);
    RunInv(Start(threads), steps, t);
  }

  /** Who is let in: sharers and upgraders when there is no owner and no upgrade held or pending, an owner when
      nobody holds anything. An upgrade that is pending does not hold back a plain `lock`. */
  lemma EntryConditions(threads: nat, steps: seq<Step>, t: System)
    requires Reaches(Start(threads), steps, t)
    ensures Passes(t.data, LockShared) <==> Exclusive !in t.modes && Upgrade !in t.modes && WaitsUpgraded !in t.modes
    ensures Passes(t.data, LockUpgrade) <==> Exclusive !in t.modes && Upgrade !in t.modes && WaitsUpgraded !in t.modes
    ensures Passes(t.data, Lock) <==> Exclusive !in t.modes && Upgrade !in t.modes && Shared !in t.modes
    ensures Passes(t.data, Resume) <==> Exclusive !in t.modes && Upgrade !in t.modes && Shared !in t.modes
  {
    StartInv(threads);
    RunInv(Start(threads), steps, t);
    CountIn(t.modes, Shared);
    CountIn(t.modes, Upgrade);
    CountIn(t.modes, Exclusive);
    CountIn(t.modes, WaitsUpgraded);
  }

  /** The three moves of the run below, each as `Prepend` needs it. */
  lemma DowngradeMoves()
    ensures var s1, s2 := System(Data(1, Set, false), [Upgrade, Free]), System(Data(0, Uping, false), [WaitsUpgraded, Free]);
            && Taken(Start(2), Step(0, LockUpgrade), s1)
            && Taken(s1, Step(0, UnlockUpgradeAndLock), s2)
            && Taken(s2, Step(1, Lock), System(Data(0, Uping, true), [WaitsUpgraded, Exclusive]))
  {
    assert Start(2).modes == [Free, Free];
  }

  ghost predicate Taken(s: System, step: Step, t: System)
  {
    && Allowed(s, step) && (Passes(s.data, step.op) ==> Asserts(s.data, s.modes[step.thread], step.op))
    && Next(s, step) == t
  }

  /** The restriction on `unlock_and_lock_shared` is needed: with two threads an upgrade can be pending while the
      other owns the mutex, and then its call fails an assertion. */
  lemma DowngradeCanFail()
    ensures var steps := [Step(0, LockUpgrade), Step(0, UnlockUpgradeAndLock), Step(1, Lock)];
            var t := System(Data(0, Uping, true), [WaitsUpgraded, Exclusive]);
            Reaches(Start(2), steps, t) && Legal(t.modes[1], UnlockAndLockShared) && !Asserts(t.data, t.modes[1], UnlockAndLockShared)
  {
    DowngradeMoves();
    hide Reaches, Taken, Start;
    var s1, s2 := System(Data(1, Set, false), [Upgrade, Free]), System(Data(0, Uping, false), [WaitsUpgraded, Free]);
    var t := System(Data(0, Uping, true), [WaitsUpgraded, Exclusive]);
    Stay(t);
    Prepend(s2, Step(1, Lock), t, [], t);
    var last := [Step(1, Lock)] + [];
    Prepend(s1, Step(0, UnlockUpgradeAndLock), s2, last, t);
    var lastTwo := [Step(0, UnlockUpgradeAndLock)] + last;
    Prepend(Start(2), Step(0, LockUpgrade), s1, lastTwo, t);
    assert [Step(0, LockUpgrade)] + lastTwo == [Step(0, LockUpgrade), Step(0, UnlockUpgradeAndLock), Step(1, Lock)];
  }

  lemma Stay(s: System)
    ensures Reaches(s, [], s)
  {}

  lemma Prepend(s: System, step: Step, m: System, steps: seq<Step>, t: System)
    requires Taken(s, step, m) && Reaches(m, steps, t)
    ensures Reaches(s, [step] + steps, t)
  {
    assert ([step] + steps)[1..] == steps;
  }
}

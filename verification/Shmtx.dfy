/** The shared-memory mutex of `ngx_shmtx.c` (atomic operations and POSIX semaphore): every
    process is at one instruction that touches shared memory, and a run interleaves them. */
module Shmtx {

  /** `spin`, `ngx_ncpu > 1` and `semaphore`, the same in all processes. */
  datatype Config = Config(spin: nat, multi: bool, semaphore: bool)

  /** The next shared access of a process. */
  datatype PC =
    | Outside                              // not in the mutex code
    | TryRead | TryCas                     // line 65
    | Read | Cas                           // line 78
    | SpinRead(n: nat) | SpinCas(n: nat)   // line 90
    | AddWait                              // line 101
    | LastRead | LastCas                   // line 103
    | SemWait                              // line 110
    | Yield                                // line 130
    | Holding                              // the lock was taken
    | Release                              // line 142
    | Force(pid: nat)                      // line 154
    | WakeRead | WakeCas(wait: nat)        // lines 175 and 181
    | Post                                 // line 189
    | Dead

  datatype State = State(lock: nat, wait: nat, sem: nat, pcs: seq<PC>)

  /** What a process does next: its instruction, a call, or being interrupted, failing or killed. */
  datatype Action = Go | CallTry | CallLock | CallUnlock | CallForce(victim: nat) | Interrupt | SemError | Die

  /** Process identifiers are positive and distinct. */
  function Pid(p: nat): nat {
    p + 1
  }

  /** After line 78 failed, and each time the spin loop of line 84 goes round. */
  function Spin(c: Config, n: nat): PC {
    if c.multi && n < c.spin then SpinRead(n) else if c.semaphore then AddWait else Yield
  }

  /** `ngx_shmtx_wakeup`, line 169. */
  function Wakeup(c: Config): PC {
    if c.semaphore then WakeRead else Outside
  }

  /** What one process sees: the shared words and its own place in the code. */
  datatype View = View(lock: nat, wait: nat, sem: nat, pc: PC)

  function ViewOf(s: State, p: nat): View
    requires p < |s.pcs|
  {
    View(s.lock, s.wait, s.sem, s.pcs[p])
  }

  predicate Enabled(v: View, a: Action) {
    !v.pc.Dead? &&
    match a
    case Go => !(v.pc.Outside? || v.pc.Holding? || (v.pc.SemWait? && v.sem == 0))
    case CallTry => v.pc.Outside?
    case CallLock => v.pc.Outside?
    case CallUnlock => v.pc.Holding? || v.pc.Outside?
    case CallForce(_) => v.pc.Outside?
    case Interrupt => v.pc.SemWait?
    case SemError => v.pc.SemWait?
    case Die => true
  }

  /** The lock of a process is forced only after the process died. */
  predicate CanDo(s: State, p: nat, a: Action) {
    p < |s.pcs| && Enabled(ViewOf(s, p), a) && (a.CallForce? ==> a.victim < |s.pcs| && s.pcs[a.victim].Dead?)
  }

  /** `ngx_atomic_cmp_set(mtx->lock, 0, ngx_pid)`. */
  function CasLock(v: View, me: nat, lost: PC): View {
    if v.lock == 0 then v.(lock := me, pc := Holding) else v.(pc := lost)
  }

  function ReadLock(v: View, zero: PC, taken: PC): View {
    v.(pc := if v.lock == 0 then zero else taken)
  }

  /** `ngx_atomic_cmp_set(mtx->lock, pid, 0)` and then the wakeup. */
  function CasUnlock(c: Config, v: View, pid: nat): View {
    if v.lock == pid then v.(lock := 0, pc := Wakeup(c)) else v.(pc := Outside)
  }

  /** The instruction a process is at. */
  function Exec(c: Config, v: View, me: nat): View
    requires Enabled(v, Go)
  {
    match v.pc
    case TryRead => ReadLock(v, TryCas, Outside)
    case TryCas => CasLock(v, me, Outside)
    case Read => ReadLock(v, Cas, Spin(c, 1))
    case Cas => CasLock(v, me, Spin(c, 1))
    case SpinRead(n) => ReadLock(v, SpinCas(n), Spin(c, 2 * n))
    case SpinCas(n) => CasLock(v, me, Spin(c, 2 * n))
    case AddWait => v.(wait := v.wait + 1, pc := LastRead)
    case LastRead => ReadLock(v, LastCas, SemWait)
    case LastCas => CasLock(v, me, SemWait)
    case SemWait => v.(sem := v.sem - 1, pc := Read)
    case Yield => v.(pc := Read)
    case Release => CasUnlock(c, v, me)
    case Force(pid) => CasUnlock(c, v, pid)
    case WakeRead => v.(pc := if v.wait == 0 then Outside else WakeCas(v.wait))
    case WakeCas(w) => if v.wait == w && w > 0 then v.(wait := w - 1, pc := Post) else v.(pc := WakeRead)
    case Post => v.(sem := v.sem + 1, pc := Outside)
    case _ => v
  }

  function Do(c: Config, v: View, me: nat, a: Action): View
    requires Enabled(v, a)
  {
    match a
    case Go => Exec(c, v, me)
    case CallTry => v.(pc := TryRead)
    case CallLock => v.(pc := Read)
    case CallUnlock => v.(pc := Release)
    case CallForce(victim) => v.(pc := Force(Pid(victim)))
    case Interrupt => v
    case SemError => v.(pc := Read)
    case Die => v.(pc := Dead)
  }

  function Step(c: Config, s: State, p: nat, a: Action): (s': State)
    requires CanDo(s, p, a)
    ensures |s'.pcs| == |s.pcs|
  {
    var v := Do(c, ViewOf(s, p), Pid(p), a);
    State(v.lock, v.wait, v.sem, s.pcs[p := v.pc])
  }

  datatype Move = Move(p: nat, a: Action)

  function Start(n: nat): State {
    State(0, 0, 0, seq(n, _ => Outside))
  }

  ghost predicate IsRun(c: Config, s: State, moves: seq<Move>)
    decreases |moves|
  {
    moves == [] || (CanDo(s, moves[0].p, moves[0].a) && IsRun(c, Step(c, s, moves[0].p, moves[0].a), moves[1..]))
  }

  ghost function After(c: Config, s: State, moves: seq<Move>): (s': State)
    requires IsRun(c, s, moves)
    ensures |s'.pcs| == |s.pcs|
    decreases |moves|
  {
    if moves == [] then s else After(c, Step(c, s, moves[0].p, moves[0].a), moves[1..])
  }

  // ---------- mutual exclusion ----------

  /** The lock word is 0 or the pid of the one process that holds the lock, is releasing it, or
      died with it. */
  ghost predicate Exclusive(s: State) {
    && (forall p: nat :: p < |s.pcs| && s.pcs[p].Holding? ==> s.lock == Pid(p))
    && (s.lock != 0 ==> s.lock - 1 < |s.pcs| && var pc := s.pcs[s.lock - 1]; pc.Holding? || pc.Release? || pc.Dead?)
    && (forall p: nat :: p < |s.pcs| && s.pcs[p].Force? ==> 0 < s.pcs[p].pid <= |s.pcs| && s.pcs[s.pcs[p].pid - 1].Dead?)
  }

  lemma LockChange(c: Config, v: View, me: nat, a: Action)
    requires Enabled(v, a) && me > 0
    ensures var v' := Do(c, v, me, a);
      || (v'.lock == v.lock && !v'.pc.Holding? && (v.pc.Holding? ==> v'.pc.Release? || v'.pc.Dead?))
      || (v.lock == 0 && v'.lock == me && v'.pc.Holding?)
      || (v.pc.Release? && v.lock == me && v'.lock == 0 && !v'.pc.Holding?)
      || (v.pc.Force? && v.lock == v.pc.pid && v'.lock == 0 && !v'.pc.Holding?)
    ensures var v' := Do(c, v, me, a); v'.pc.Force? ==> a.CallForce? && v'.pc.pid == Pid(a.victim)
    ensures var v' := Do(c, v, me, a); v'.lock == v.lock == me ==> v'.pc.Release? || v'.pc.Dead? || !(v.pc.Holding? || v.pc.Release?)
  {
  }

  lemma StepExclusive(c: Config, s: State, p: nat, a: Action)
    requires Exclusive(s) && CanDo(s, p, a)
    ensures Exclusive(Step(c, s, p, a))
  {
    LockChange(c, ViewOf(s, p), Pid(p), a);
    hide Do;
  }

  /** The lock of a live process is released by that process only. */
  lemma OnlyOwnerReleases(c: Config, s: State, p: nat, a: Action, owner: nat)
    requires Exclusive(s) && CanDo(s, p, a) && owner < |s.pcs| && s.lock == Pid(owner) && !s.pcs[owner].Dead?
    ensures Step(c, s, p, a).lock != s.lock ==> p == owner && s.pcs[p].Release? && Step(c, s, p, a).lock == 0
  {
    LockChange(c, ViewOf(s, p), Pid(p), a);
    hide Do;
  }

  /** In every run at most one process is between lock and unlock, and the word is its pid. */
  lemma {:induction false} MutualExclusion(c: Config, s: State, moves: seq<Move>)
    requires Exclusive(s) && IsRun(c, s, moves)
    ensures Exclusive(After(c, s, moves))
    ensures var s' := After(c, s, moves);
      forall p: nat, q: nat :: p < |s'.pcs| && q < |s'.pcs| && s'.pcs[p].Holding? && s'.pcs[q].Holding? ==> p == q && s'.lock == Pid(p)
    decreases |moves|
  {
    if moves != [] {
      StepExclusive(c, s, moves[0].p, moves[0].a);
      MutualExclusion(c, Step(c, s, moves[0].p, moves[0].a), moves[1..]);
    }
  }

  // ---------- no lost wakeup ----------

  /** Committed to sleeping: it has counted itself and not yet been woken. */
  predicate Committed(pc: PC) {
    pc.LastRead? || pc.LastCas? || pc.SemWait?
  }

  /** On its way to try the lock again, or to take note of it before it sleeps. */
  predicate Contending(pc: PC) {
    pc.Read? || pc.Cas? || pc.SpinRead? || pc.SpinCas? || pc.AddWait? || pc.LastRead? || pc.LastCas? || pc.Yield?
  }

  predicate Waking(pc: PC) {
    pc.WakeRead? || pc.WakeCas? || pc.Post?
  }

  ghost function Tally(pcs: seq<PC>, f: PC -> bool): nat {
    if pcs == [] then 0 else (if f(pcs[0]) then 1 else 0) + Tally(pcs[1..], f)
  }

  lemma {:induction false} TallyUpdate(pcs: seq<PC>, f: PC -> bool, p: nat, pc: PC)
    requires p < |pcs|
    ensures Tally(pcs[p := pc], f) == Tally(pcs, f) - (if f(pcs[p]) then 1 else 0) + (if f(pc) then 1 else 0)
  {
    if p > 0 {
      TallyUpdate(pcs[1..], f, p - 1, pc);
      assert pcs[p := pc][1..] == pcs[1..][p - 1 := pc];
    } else {
      assert pcs[p := pc][1..] == pcs[1..];
    }
  }

  lemma {:induction false} TallyZero(pcs: seq<PC>, f: PC -> bool)
    ensures Tally(pcs, f) == 0 <==> forall p: nat :: p < |pcs| ==> !f(pcs[p])
  {
    if pcs != [] {
      TallyZero(pcs[1..], f);
      assert forall p: nat :: 0 < p < |pcs| ==> pcs[p] == pcs[1..][p - 1];
      if Tally(pcs[1..], f) != 0 {
        var p: nat :| p < |pcs[1..]| && f(pcs[1..][p]);
        assert f(pcs[p + 1]);
      }
    }
  }

  /** `wait`, the semaphore and the posts in flight cover all that are committed to sleeping. */
  ghost predicate Counted(s: State) {
    s.wait + s.sem + Tally(s.pcs, Posting) >= Tally(s.pcs, Committed)
  }

  predicate Posting(pc: PC) {
    pc.Post?
  }

  predicate Busy(pc: PC) {
    Contending(pc) || Waking(pc)
  }

  predicate Sleepy(pc: PC) {
    Committed(pc) || pc.AddWait?
  }

  ghost predicate AnyAsleep(s: State) {
    exists p: nat :: p < |s.pcs| && s.pcs[p].SemWait?
  }

  /** Somebody will look at the free lock: a contender, a waker, or a post not yet consumed. */
  ghost predicate Attended(s: State) {
    s.sem > 0 || exists p: nat :: p < |s.pcs| && Busy(s.pcs[p])
  }

  ghost predicate Alive(c: Config, s: State) {
    && Counted(s)
    && (s.lock == 0 && AnyAsleep(s) ==> Attended(s))
    && (!c.semaphore ==> forall p: nat :: p < |s.pcs| ==> !Sleepy(s.pcs[p]))
  }

  ghost predicate OtherAsleep(s: State, p: nat) {
    exists q: nat :: q < |s.pcs| && q != p && s.pcs[q].SemWait?
  }

  ghost predicate OtherBusy(s: State, p: nat) {
    exists q: nat :: q < |s.pcs| && q != p && Busy(s.pcs[q])
  }

  /** A death that takes no wakeup with it: the count has something to spare for a post that is not
      made, and on a free lock with a sleeper somebody else is about, or a post is there. */
  ghost predicate SafeDeath(s: State, p: nat)
    requires p < |s.pcs|
  {
    && (s.pcs[p].Post? ==> s.wait + s.sem + Tally(s.pcs, Posting) > Tally(s.pcs, Committed))
    && (s.lock == 0 && OtherAsleep(s, p) ==> s.sem > 0 || OtherBusy(s, p))
  }

  ghost predicate SafeMove(s: State, m: Move) {
    CanDo(s, m.p, m.a) && (m.a.Die? ==> SafeDeath(s, m.p))
  }

  ghost predicate IsSafeRun(c: Config, s: State, moves: seq<Move>)
    decreases |moves|
  {
    moves == [] || (SafeMove(s, moves[0]) && IsSafeRun(c, Step(c, s, moves[0].p, moves[0].a), moves[1..]))
  }

  function Margin(v: View): int {
    v.wait + v.sem + (if v.pc.Post? then 1 else 0) - (if Committed(v.pc) then 1 else 0)
  }

  /** A process that counted itself goes without a post: it wins the lock at line 103, or its wait
      fails. */
  predicate Leaves(v: View, a: Action) {
    (v.pc.LastCas? && a.Go? && v.lock == 0) || a.SemError?
  }

  lemma MarginStep(c: Config, v: View, me: nat, a: Action)
    requires Enabled(v, a) && !a.Die?
    ensures Margin(Do(c, v, me, a)) == Margin(v) + (if Leaves(v, a) then 1 else 0)
  {
  }

  /** What the count has more than it needs: `wait`, the semaphore and the posts in flight, less
      those committed to sleeping. */
  ghost function Surplus(s: State): int {
    s.wait + s.sem + Tally(s.pcs, Posting) - Tally(s.pcs, Committed)
  }

  /** A step of a live process leaves the surplus as it is, unless the process leaves. */
  lemma SurplusStep(c: Config, s: State, p: nat, a: Action)
    requires CanDo(s, p, a) && !a.Die?
    ensures Surplus(Step(c, s, p, a)) == Surplus(s) + (if Leaves(ViewOf(s, p), a) then 1 else 0)
  {
    MarginStep(c, ViewOf(s, p), Pid(p), a);
    var pc := Do(c, ViewOf(s, p), Pid(p), a).pc;
    hide Do;
    TallyUpdate(s.pcs, Committed, p, pc);
    TallyUpdate(s.pcs, Posting, p, pc);
  }

  lemma StepCounted(c: Config, s: State, p: nat, a: Action)
    requires Counted(s) && CanDo(s, p, a) && !a.Die?
    ensures Counted(Step(c, s, p, a))
  {
    SurplusStep(c, s, p, a);
    hide Do, Step;
  }

  /** Who stops attending a free lock leaves a post behind, has seen no count, or held the lock. */
  lemma AttentionPasses(c: Config, v: View, me: nat, a: Action)
    requires Enabled(v, a) && me > 0 && !a.Die?
    ensures var v' := Do(c, v, me, a); v'.lock == 0 && !Busy(v'.pc) ==>
      || v'.sem > 0
      || (c.semaphore && v'.wait == 0)
      || (v.lock == 0 && v'.sem == v.sem && (v'.pc.SemWait? ==> v.pc.SemWait?) && !Busy(v.pc))
      || !c.semaphore
  {
  }

  lemma StepAttended(c: Config, s: State, p: nat, a: Action)
    requires Alive(c, s) && CanDo(s, p, a) && !a.Die?
    requires var s' := Step(c, s, p, a); s'.lock == 0 && AnyAsleep(s') && c.semaphore
    ensures Attended(Step(c, s, p, a))
  {
    var s' := Step(c, s, p, a);
    StepCounted(c, s, p, a);
    AttentionPasses(c, ViewOf(s, p), Pid(p), a);
    hide Do;
    var sleeper: nat :| sleeper < |s'.pcs| && s'.pcs[sleeper].SemWait?;
    if Busy(s'.pcs[p]) || s'.sem > 0 {
    } else if s'.wait == 0 {
      SomePost(s', sleeper);
    } else {
      assert s.pcs[sleeper].SemWait?;
      var q: nat :| q < |s.pcs| && Busy(s.pcs[q]);
      assert s'.pcs[q] == s.pcs[q];
    }
  }

  /** With nothing counted and nothing posted, a sleeper is owed a post that is under way. */
  lemma SomePost(s: State, sleeper: nat)
    requires Counted(s) && sleeper < |s.pcs| && s.pcs[sleeper].SemWait? && s.wait == 0 && s.sem == 0
    ensures exists q: nat :: q < |s.pcs| && Busy(s.pcs[q])
  {
    TallyZero(s.pcs, Committed);
    TallyZero(s.pcs, Posting);
    assert Committed(s.pcs[sleeper]);
    var q: nat :| q < |s.pcs| && Posting(s.pcs[q]);
    assert Busy(s.pcs[q]);
  }

  lemma NoSemaphore(c: Config, v: View, me: nat, a: Action)
    requires Enabled(v, a) && !c.semaphore && !Sleepy(v.pc)
    ensures !Sleepy(Do(c, v, me, a).pc)
  {
  }

  /** A death loses a wakeup when and only when it is not safe. */
  lemma DeathIsSafe(c: Config, s: State, p: nat)
    requires Alive(c, s) && CanDo(s, p, Die)
    ensures Alive(c, Step(c, s, p, Die)) <==> SafeDeath(s, p)
  {
    var s' := Step(c, s, p, Die);
    assert s' == State(s.lock, s.wait, s.sem, s.pcs[p := Dead]);
    TallyUpdate(s.pcs, Committed, p, Dead);
    TallyUpdate(s.pcs, Posting, p, Dead);
    assert Counted(s') <==> (s.pcs[p].Post? ==> s.wait + s.sem + Tally(s.pcs, Posting) > Tally(s.pcs, Committed));
    assert AnyAsleep(s') <==> OtherAsleep(s, p) by {
      assert forall q: nat :: q < |s.pcs| && q != p ==> s'.pcs[q] == s.pcs[q];
    }
    assert Attended(s') <==> s.sem > 0 || OtherBusy(s, p) by {
      assert forall q: nat :: q < |s.pcs| && q != p ==> s'.pcs[q] == s.pcs[q];
    }
  }

  lemma StepAlive(c: Config, s: State, p: nat, a: Action)
    requires Alive(c, s) && SafeMove(s, Move(p, a))
    ensures Alive(c, Step(c, s, p, a))
  {
    if a.Die? {
      DeathIsSafe(c, s, p);
      return;
    }
    StepCounted(c, s, p, a);
    if c.semaphore {
      if Step(c, s, p, a).lock == 0 && AnyAsleep(Step(c, s, p, a)) {
        StepAttended(c, s, p, a);
      }
    } else {
      NoSemaphore(c, ViewOf(s, p), Pid(p), a);
      hide Do;
    }
  }

  /** In every run whose deaths are safe ones the count holds, and no free lock has a sleeper that
      nobody is going to wake. */
  lemma {:induction false} NoLostWakeup(c: Config, s: State, moves: seq<Move>)
    requires Exclusive(s) && Alive(c, s) && IsSafeRun(c, s, moves)
    ensures IsRun(c, s, moves) && Alive(c, After(c, s, moves)) && Exclusive(After(c, s, moves))
    decreases |moves|
  {
    if moves != [] {
      StepExclusive(c, s, moves[0].p, moves[0].a);
      StepAlive(c, s, moves[0].p, moves[0].a);
      NoLostWakeup(c, Step(c, s, moves[0].p, moves[0].a), moves[1..]);
    }
  }

  lemma {:induction false} TallyStart(n: nat, f: PC -> bool)
    requires !f(Outside)
    ensures Tally(Start(n).pcs, f) == 0
  {
    TallyZero(Start(n).pcs, f);
  }

  lemma StartOk(c: Config, n: nat)
    ensures Exclusive(Start(n)) && Alive(c, Start(n))
  {
    TallyStart(n, Committed);
    TallyStart(n, Posting);
  }

  /** When every process is outside, asleep or dead, the lock is free and no post is pending,
      nobody is asleep. */
  lemma QuietMeansAwake(c: Config, n: nat, moves: seq<Move>)
    requires IsSafeRun(c, Start(n), moves)
    ensures IsRun(c, Start(n), moves)
    ensures var s := After(c, Start(n), moves);
      s.lock == 0 && s.sem == 0 && (forall p: nat :: p < |s.pcs| ==> s.pcs[p].Outside? || s.pcs[p].SemWait? || s.pcs[p].Dead?)
      ==> forall p: nat :: p < |s.pcs| ==> !s.pcs[p].SemWait?
  {
    hide IsSafeRun, IsRun, After, CanDo, Step;
    StartOk(c, n);
    NoLostWakeup(c, Start(n), moves);
  }

  // ---------- what an unsafe death does, and the count that is not undone ----------

  lemma {:induction false} Extend(c: Config, s: State, moves: seq<Move>, m: Move)
    requires IsRun(c, s, moves) && CanDo(After(c, s, moves), m.p, m.a)
    ensures IsRun(c, s, moves + [m]) && After(c, s, moves + [m]) == Step(c, After(c, s, moves), m.p, m.a)
    decreases |moves|
  {
    if moves == [] {
      var s' := Step(c, s, m.p, m.a);
      assert (moves + [m])[1..] == [] && IsRun(c, s', []) && After(c, s', []) == s';
    } else {
      Extend(c, Step(c, s, moves[0].p, moves[0].a), moves[1..], m);
      assert (moves + [m])[1..] == moves[1..] + [m];
    }
  }

  const ONE_CPU := Config(2048, false, true)

  /** Two processes after the given moves. */
  ghost predicate Reaches(moves: seq<Move>, s: State) {
    IsRun(ONE_CPU, Start(2), moves) && After(ONE_CPU, Start(2), moves) == s
  }

  lemma Then(moves: seq<Move>, s: State, m: Move, s': State) returns (more: seq<Move>)
    requires Reaches(moves, s) && CanDo(s, m.p, m.a) && Step(ONE_CPU, s, m.p, m.a) == s'
    ensures Reaches(more, s')
  {
    Extend(ONE_CPU, Start(2), moves, m);
    more := moves + [m];
  }

  lemma Held() returns (moves: seq<Move>)
    ensures Reaches(moves, State(1, 0, 0, [Holding, Outside]))
  {
    assert Start(2).pcs == [Outside, Outside];
    assert Reaches([], State(0, 0, 0, [Outside, Outside]));
    hide Reaches;
    moves := Then([], State(0, 0, 0, [Outside, Outside]), Move(0, CallLock), State(0, 0, 0, [Read, Outside]));
    moves := Then(moves, State(0, 0, 0, [Read, Outside]), Move(0, Go), State(0, 0, 0, [Cas, Outside]));
    moves := Then(moves, State(0, 0, 0, [Cas, Outside]), Move(0, Go), State(1, 0, 0, [Holding, Outside]));
  }

  /** Process 0 holds the lock and process 1 has counted itself. */
  lemma HeldAndCounted() returns (moves: seq<Move>)
    ensures Reaches(moves, State(1, 1, 0, [Holding, LastRead]))
  {
    moves := Held();
    hide Reaches;
    moves := Then(moves, State(1, 0, 0, [Holding, Outside]), Move(1, CallLock), State(1, 0, 0, [Holding, Read]));
    moves := Then(moves, State(1, 0, 0, [Holding, Read]), Move(1, Go), State(1, 0, 0, [Holding, AddWait]));
    moves := Then(moves, State(1, 0, 0, [Holding, AddWait]), Move(1, Go), State(1, 1, 0, [Holding, LastRead]));
  }

  /** Lines 101-105 leave the count raised when the lock is won, so it is only a bound: here
      nobody is committed to sleeping. */
  lemma WaitIsNotUndone() returns (moves: seq<Move>)
    ensures Reaches(moves, State(2, 1, 0, [WakeRead, Holding]))
  {
    moves := HeldAndCounted();
    hide Reaches;
    moves := Then(moves, State(1, 1, 0, [Holding, LastRead]), Move(0, CallUnlock), State(1, 1, 0, [Release, LastRead]));
    moves := Then(moves, State(1, 1, 0, [Release, LastRead]), Move(0, Go), State(0, 1, 0, [WakeRead, LastRead]));
    moves := Then(moves, State(0, 1, 0, [WakeRead, LastRead]), Move(1, Go), State(0, 1, 0, [WakeRead, LastCas]));
    moves := Then(moves, State(0, 1, 0, [WakeRead, LastCas]), Move(1, Go), State(2, 1, 0, [WakeRead, Holding]));
  }

  /** Nor do lines 113-120, when the wait for the semaphore fails. */
  lemma FailedWaitIsNotUndone() returns (moves: seq<Move>)
    ensures Reaches(moves, State(1, 1, 0, [Holding, Read]))
  {
    moves := HeldAndCounted();
    hide Reaches;
    moves := Then(moves, State(1, 1, 0, [Holding, LastRead]), Move(1, Go), State(1, 1, 0, [Holding, SemWait]));
    moves := Then(moves, State(1, 1, 0, [Holding, SemWait]), Move(1, SemError), State(1, 1, 0, [Holding, Read]));
  }

  /** The steps of a run that leave. */
  ghost function Left(c: Config, s: State, moves: seq<Move>): nat
    requires IsRun(c, s, moves)
    decreases |moves|
  {
    if moves == [] then 0 else
      (if Leaves(ViewOf(s, moves[0].p), moves[0].a) then 1 else 0) + Left(c, Step(c, s, moves[0].p, moves[0].a), moves[1..])
  }

  ghost predicate NoDeaths(moves: seq<Move>) {
    forall i :: 0 <= i < |moves| ==> !moves[i].a.Die?
  }

  lemma {:induction false} RunSurplus(c: Config, s: State, moves: seq<Move>)
    requires IsRun(c, s, moves) && NoDeaths(moves)
    ensures Surplus(After(c, s, moves)) == Surplus(s) + Left(c, s, moves)
    decreases |moves|
  {
    if moves != [] {
      SurplusStep(c, s, moves[0].p, moves[0].a);
      RunSurplus(c, Step(c, s, moves[0].p, moves[0].a), moves[1..]);
    }
  }

  /** In a run without deaths the count is exact when and only when nobody won the lock after
      counting itself and no wait failed; else it is too high by one for each that did. */
  lemma CountExactIff(c: Config, n: nat, moves: seq<Move>)
    requires IsRun(c, Start(n), moves) && NoDeaths(moves)
    ensures var s := After(c, Start(n), moves);
      s.wait + s.sem + Tally(s.pcs, Posting) == Tally(s.pcs, Committed) + Left(c, Start(n), moves)
  {
    TallyStart(n, Committed);
    TallyStart(n, Posting);
    RunSurplus(c, Start(n), moves);
  }

  /** A process killed between releasing the lock and posting leaves a sleeper on a free lock. */
  lemma KilledWakerLosesWakeup() returns (moves: seq<Move>)
    ensures Reaches(moves, State(0, 1, 0, [Dead, SemWait]))
    ensures var s := State(0, 1, 0, [Dead, SemWait]); AnyAsleep(s) && !Attended(s)
  {
    moves := HeldAndCounted();
    hide Reaches;
    moves := Then(moves, State(1, 1, 0, [Holding, LastRead]), Move(1, Go), State(1, 1, 0, [Holding, SemWait]));
    moves := Then(moves, State(1, 1, 0, [Holding, SemWait]), Move(0, CallUnlock), State(1, 1, 0, [Release, SemWait]));
    moves := Then(moves, State(1, 1, 0, [Release, SemWait]), Move(0, Go), State(0, 1, 0, [WakeRead, SemWait]));
    moves := Then(moves, State(0, 1, 0, [WakeRead, SemWait]), Move(0, Die), State(0, 1, 0, [Dead, SemWait]));
    assert [Dead, SemWait][1].SemWait?;
  }
}

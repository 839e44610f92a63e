/** The accept mutex: workers that poll the shared listening sockets pass a lock around. The
    steps are those of `ngx_process_events_and_timers`, `ngx_trylock_accept_mutex` and the
    descriptor-exhaustion branch of `ngx_event_accept`, interleaved over all workers. */
module AcceptMutex {

  /** Where a worker is in its loop. `back` is where the accept handler returns to. */
  datatype PC =
    | Top                              // ngx_event.c:229-235
    | TryRead | TryCas                 // ngx_shmtx.c:65
    | Won                              // ngx_event_accept.c:377-382
    | Enable(i: nat)                   // ngx_event_accept.c:419-439
    | Lost                             // ngx_event_accept.c:398
    | Disable(i: nat)                  // ngx_event_accept.c:452-474
    | Poll                             // ngx_event.c:254
    | Posted                           // ngx_event.c:261-264
    | Exhausted(i: nat, back: PC)      // ngx_event_accept.c:114, the same loop as Disable
    | GiveUp(back: PC)                 // ngx_event_accept.c:121-126
    | Unlock                           // ngx_event.c:266-268
    | Timers                           // ngx_event.c:270-285
    | Dead

  /** The per-process globals; `active` has the `active` flag of every listening event, and `ran`
      tells whether this iteration called the trylock. */
  datatype Worker = Worker(pc: PC, held: bool, active: seq<bool>, disabled: int, ran: bool)

  datatype State = State(lock: nat, workers: seq<Worker>)

  /** `Accepted(d)`: a connection was accepted and `ngx_accept_disabled` became `d`. */
  datatype Action = Go | Accepted(d: int) | NoDescriptors | Die

  function Pid(w: nat): nat {
    w + 1
  }

  /** Accept handlers run inside the poll unless the events are posted for later. */
  predicate CanAccept(k: Worker) {
    (k.pc.Poll? && !(k.ran && k.held) && true in k.active) || (k.pc.Posted? && k.ran)
  }

  predicate CanDo(k: Worker, a: Action) {
    !k.pc.Dead? && match a
      case Go => true
      case Accepted(_) => CanAccept(k)
      case NoDescriptors => CanAccept(k)
      case Die => true
  }

  /** One worker's own step on the lock word and its globals. */
  datatype View = View(lock: nat, me: Worker)

  function To(v: View, pc: PC): View {
    View(v.lock, v.me.(pc := pc))
  }

  /** `ngx_shmtx_unlock`: `ngx_atomic_cmp_set(mtx->lock, ngx_pid, 0)`. */
  function CasUnlock(lock: nat, pid: nat): nat {
    if lock == pid then 0 else lock
  }

  function Exec(v: View, pid: nat): View {
    var k := v.me;
    match k.pc
    case Top =>
      if k.disabled > 0 then View(v.lock, k.(disabled := k.disabled - 1, ran := false, pc := Poll))
      else View(v.lock, k.(ran := true, pc := TryRead))
    case TryRead => To(v, if v.lock == 0 then TryCas else Lost)
    case TryCas => if v.lock == 0 then View(pid, k.(pc := Won)) else To(v, Lost)
    case Won => To(v, if k.held then Poll else Enable(0))
    case Enable(i) =>
      if i < |k.active| then View(v.lock, k.(active := k.active[i := true], pc := Enable(i + 1)))
      else View(v.lock, k.(held := true, pc := Poll))
    case Lost => To(v, if k.held then Disable(0) else Poll)
    case Disable(i) =>
      if i < |k.active| then View(v.lock, k.(active := k.active[i := false], pc := Disable(i + 1)))
      else View(v.lock, k.(held := false, pc := Poll))
    case Poll => To(v, Posted)
    case Posted => To(v, Unlock)
    case Exhausted(i, back) =>
      if i < |k.active| then View(v.lock, k.(active := k.active[i := false], pc := Exhausted(i + 1, back)))
      else To(v, GiveUp(back))
    case GiveUp(back) =>
      if k.held then View(CasUnlock(v.lock, pid), k.(held := false, disabled := 1, pc := back))
      else View(v.lock, k.(disabled := 1, pc := back))
    case Unlock => if k.held then View(CasUnlock(v.lock, pid), k.(pc := Timers)) else To(v, Timers)
    case Timers => To(v, Top)
    case Dead => v
  }

  function Do(v: View, pid: nat, a: Action): View {
    match a
    case Go => Exec(v, pid)
    case Accepted(d) => View(v.lock, v.me.(disabled := d))
    case NoDescriptors => To(v, Exhausted(0, v.me.pc))
    case Die => To(v, Dead)
  }

  /** A worker's step, or the master freeing the lock of a dead worker (ngx_shmtx_force_unlock). */
  datatype Move = Work(w: nat, a: Action) | Force(w: nat)

  predicate CanMove(s: State, m: Move) {
    m.w < |s.workers| && match m
      case Work(w, a) => CanDo(s.workers[w], a)
      case Force(w) => s.workers[w].pc.Dead?
  }

  function Step(s: State, m: Move): (s': State)
    requires CanMove(s, m)
    ensures |s'.workers| == |s.workers|
  {
    match m
    case Work(w, a) =>
      var v := Do(View(s.lock, s.workers[w]), Pid(w), a);
      State(v.lock, s.workers[w := v.me])
    case Force(w) => State(CasUnlock(s.lock, Pid(w)), s.workers)
  }

  ghost predicate IsRun(s: State, moves: seq<Move>)
    decreases |moves|
  {
    moves == [] || (CanMove(s, moves[0]) && IsRun(Step(s, moves[0]), moves[1..]))
  }

  ghost function After(s: State, moves: seq<Move>): (s': State)
    requires IsRun(s, moves)
    ensures |s'.workers| == |s.workers|
    decreases |moves|
  {
    if moves == [] then s else After(Step(s, moves[0]), moves[1..])
  }

  // ---------- the invariant ----------

  predicate AllAre(active: seq<bool>, lo: nat, hi: nat, on: bool) {
    forall i :: lo <= i < hi && i < |active| ==> active[i] == on
  }

  /** The events of a worker agree with its `held` flag, as far as its place in the code says. */
  predicate Agrees(k: Worker) {
    match k.pc
    case Enable(i) => !k.held && k.ran && i <= |k.active| && AllAre(k.active, 0, i, true) && AllAre(k.active, i, |k.active|, false)
    case Disable(i) => k.held && k.ran && i <= |k.active| && AllAre(k.active, 0, i, false) && AllAre(k.active, i, |k.active|, true)
    case Exhausted(i, back) => i <= |k.active| && AllAre(k.active, 0, i, false) && AllAre(k.active, i, |k.active|, k.held) && (back.Poll? || back.Posted?)
    case GiveUp(back) => AllAre(k.active, 0, |k.active|, false) && (back.Poll? || back.Posted?)
    case Dead => true
    case _ => AllAre(k.active, 0, |k.active|, k.held)
  }

  /** The worker owns the lock. */
  predicate Owns(k: Worker) {
    match k.pc
    case Won => true
    case Enable(_) => true
    case Poll => k.ran && k.held
    case Posted => k.ran && k.held
    case Exhausted(_, _) => k.ran && k.held
    case GiveUp(_) => k.ran && k.held
    case Unlock => k.ran && k.held
    case _ => false
  }

  predicate Trying(k: Worker) {
    k.pc.TryRead? || k.pc.TryCas? || k.pc.Won? || k.pc.Lost?
  }

  predicate WorkerOk(lock: nat, k: Worker, pid: nat) {
    && Agrees(k) && (Trying(k) ==> k.ran)
    && (!k.pc.Dead? ==> (lock == pid <==> Owns(k)))
  }

  ghost predicate Inv(s: State) {
    s.lock <= |s.workers| && forall w: nat :: w < |s.workers| ==> WorkerOk(s.lock, s.workers[w], Pid(w))
  }

  lemma StepAgrees(v: View, pid: nat, a: Action)
    requires CanDo(v.me, a) && Agrees(v.me) && (Trying(v.me) ==> v.me.ran)
    ensures var k := Do(v, pid, a).me; Agrees(k) && (Trying(k) ==> k.ran)
  {
    var active := v.me.active;
    NoneIn(active);
    match v.me.pc {
      case Enable(i) => if i < |active| { SetOne(active, i, true); }
      case Disable(i) => if i < |active| { SetOne(active, i, false); }
      case Exhausted(i, _) => if i < |active| { SetOne(active, i, false); }
      case _ =>
    }
    hide AllAre, Owns;
  }

  lemma NoneIn(active: seq<bool>)
    ensures AllAre(active, 0, 0, true) && AllAre(active, 0, 0, false)
  {
  }

  lemma SetOne(active: seq<bool>, i: nat, on: bool)
    requires i < |active|
    ensures AllAre(active, 0, i, on) ==> AllAre(active[i := on], 0, i + 1, on)
    ensures forall b :: AllAre(active, i, |active|, b) ==> AllAre(active[i := on], i + 1, |active|, b)
  {
  }

  lemma StepOwns(v: View, pid: nat, a: Action)
    requires pid > 0 && CanDo(v.me, a) && !v.me.pc.Dead? && (v.lock == pid <==> Owns(v.me))
    requires v.me.pc.Lost? || v.me.pc.TryRead? || v.me.pc.TryCas? ==> v.me.ran
    requires v.me.pc.Enable? ==> v.me.ran && !v.me.held
    requires v.me.pc.Won? ==> v.me.ran
    requires v.me.pc.GiveUp? ==> v.me.pc.back.Poll? || v.me.pc.back.Posted?
    ensures var v' := Do(v, pid, a);
      && (!v'.me.pc.Dead? ==> (v'.lock == pid <==> Owns(v'.me)))
      && (v'.lock == v.lock || (v.lock == 0 && v'.lock == pid) || (v.lock == pid && v'.lock == 0))
  {
    hide AllAre;
  }

  /** A step of one worker keeps its own state right and takes the lock only when it is free. */
  lemma OwnStep(v: View, pid: nat, a: Action)
    requires pid > 0 && CanDo(v.me, a) && WorkerOk(v.lock, v.me, pid)
    ensures var v' := Do(v, pid, a);
      WorkerOk(v'.lock, v'.me, pid) && (v'.lock == v.lock || (v.lock == 0 && v'.lock == pid) || (v.lock == pid && v'.lock == 0))
  {
    StepAgrees(v, pid, a);
    StepOwns(v, pid, a);
    hide Do, Owns, AllAre;
  }

  lemma StepInv(s: State, m: Move)
    requires Inv(s) && CanMove(s, m)
    ensures Inv(Step(s, m))
  {
    if m.Work? {
      assert WorkerOk(s.lock, s.workers[m.w], Pid(m.w));
      OwnStep(View(s.lock, s.workers[m.w]), Pid(m.w), m.a);
      hide Do, Agrees, Owns;
    }
  }

  function Start(n: nat, sockets: nat): State {
    State(0, seq(n, _ => Worker(Top, false, seq(sockets, _ => false), 0, false)))
  }

  lemma StartInv(n: nat, sockets: nat)
    ensures Inv(Start(n, sockets))
  {
  }

  lemma {:induction false} RunInv(s: State, moves: seq<Move>)
    requires Inv(s) && IsRun(s, moves)
    ensures Inv(After(s, moves))
    decreases |moves|
  {
    if moves != [] {
      StepInv(s, moves[0]);
      RunInv(Step(s, moves[0]), moves[1..]);
    }
  }

  // ---------- what it gives ----------

  predicate Polls(k: Worker) {
    k.pc.Poll? && true in k.active
  }

  /** Of the workers that tried the lock in their current iteration, at most one polls with
      listening events enabled. */
  lemma OnePoller(n: nat, sockets: nat, moves: seq<Move>, w: nat, u: nat)
    requires IsRun(Start(n, sockets), moves) && w < n && u < n
    requires var s := After(Start(n, sockets), moves); s.workers[w].ran && Polls(s.workers[w]) && s.workers[u].ran && Polls(s.workers[u])
    ensures w == u
  {
    StartInv(n, sockets);
    RunInv(Start(n, sockets), moves);
    hide IsRun, After;
    var s := After(Start(n, sockets), moves);
    assert WorkerOk(s.lock, s.workers[w], Pid(w)) && WorkerOk(s.lock, s.workers[u], Pid(u));
  }

  /** From its trylock to its unlock a worker's flag, its ownership of the lock and its events agree. */
  lemma HeldMeansOwned(n: nat, sockets: nat, moves: seq<Move>, w: nat)
    requires IsRun(Start(n, sockets), moves) && w < n
    requires var k := After(Start(n, sockets), moves).workers[w]; k.ran && (k.pc.Poll? || k.pc.Posted? || k.pc.Unlock?)
    ensures var s := After(Start(n, sockets), moves); var k := s.workers[w];
      (k.held <==> s.lock == Pid(w)) && forall i :: 0 <= i < |k.active| ==> (k.active[i] <==> k.held)
  {
    StartInv(n, sockets);
    RunInv(Start(n, sockets), moves);
    hide IsRun, After;
    var s := After(Start(n, sockets), moves);
    assert WorkerOk(s.lock, s.workers[w], Pid(w));
  }

  /** Polling with listening events enabled, but without the lock. */
  predicate Strays(lock: nat, k: Worker, pid: nat) {
    Polls(k) && lock != pid
  }

  /** The branch of lines 231-232 of ngx_event.c, taken with the events of the last turn on. */
  predicate SkipsWithEvents(k: Worker) {
    k.pc.Top? && k.disabled > 0 && k.held && |k.active| > 0
  }

  /** What a worker does at the top of its loop makes it stray when and only when
      `ngx_accept_disabled` is positive and its flag is set. */
  lemma SkipIff(lock: nat, k: Worker, pid: nat)
    requires pid > 0 && WorkerOk(lock, k, pid) && k.pc.Top?
    ensures var v := Do(View(lock, k), pid, Go); Strays(v.lock, v.me, pid) <==> k.disabled > 0 && k.held && |k.active| > 0
  {
    assert |k.active| > 0 ==> k.active[0] == k.held;
  }

  /** No other step of a worker makes it stray. */
  lemma OwnStray(v: View, pid: nat, a: Action)
    requires pid > 0 && CanDo(v.me, a) && WorkerOk(v.lock, v.me, pid)
    ensures var v' := Do(v, pid, a);
      !Strays(v.lock, v.me, pid) && Strays(v'.lock, v'.me, pid) <==> a.Go? && SkipsWithEvents(v.me)
  {
    OwnStep(v, pid, a);
    if v.me.pc.Top? && a.Go? {
      SkipIff(v.lock, v.me, pid);
    }
  }

  /** A step of the system makes a worker stray when and only when it is that worker's own step
      past the trylock, with its events on. */
  lemma StrayIff(s: State, m: Move, w: nat)
    requires Inv(s) && CanMove(s, m) && w < |s.workers|
    ensures var s' := Step(s, m);
      !Strays(s.lock, s.workers[w], Pid(w)) && Strays(s'.lock, s'.workers[w], Pid(w))
      <==> m == Work(w, Go) && SkipsWithEvents(s.workers[w])
  {
    assert WorkerOk(s.lock, s.workers[w], Pid(w));
    if m.Work? && m.w == w {
      OwnStray(View(s.lock, s.workers[w]), Pid(w), m.a);
    } else if m.Work? {
      assert WorkerOk(s.lock, s.workers[m.w], Pid(m.w));
      OwnStep(View(s.lock, s.workers[m.w]), Pid(m.w), m.a);
      hide Do;
    }
  }

  /** In every run a worker that polls with listening events enabled has the lock when and only
      when it ran the trylock in this iteration; so of two that poll at once, one skipped it. */
  lemma PollerOwnsIff(n: nat, sockets: nat, moves: seq<Move>, w: nat)
    requires IsRun(Start(n, sockets), moves) && w < n && Polls(After(Start(n, sockets), moves).workers[w])
    ensures var s := After(Start(n, sockets), moves); s.lock == Pid(w) <==> s.workers[w].ran
    ensures var s := After(Start(n, sockets), moves);
      forall u: nat :: u < n && u != w && Polls(s.workers[u]) ==> !s.workers[w].ran || !s.workers[u].ran
  {
    StartInv(n, sockets);
    RunInv(Start(n, sockets), moves);
    hide IsRun, After;
    var s := After(Start(n, sockets), moves);
    assert WorkerOk(s.lock, s.workers[w], Pid(w));
    forall u: nat | u < n && u != w && Polls(s.workers[u]) ensures !s.workers[w].ran || !s.workers[u].ran {
      assert WorkerOk(s.lock, s.workers[u], Pid(u));
    }
  }

  /** No step of one worker takes the lock from another, not even the unlock of one whose `held`
      flag is left over from an iteration before it skipped the trylock. */
  lemma NeverReleasesAnothers(s: State, w: nat, a: Action, owner: nat)
    requires Inv(s) && w < |s.workers| && CanDo(s.workers[w], a) && s.lock == Pid(owner) && owner != w
    ensures Step(s, Work(w, a)).lock == s.lock
  {
    OwnStep(View(s.lock, s.workers[w]), Pid(w), a);
  }

  // ---------- why only workers that tried the lock are counted ----------

  ghost predicate Reaches(n: nat, sockets: nat, moves: seq<Move>, s: State) {
    IsRun(Start(n, sockets), moves) && After(Start(n, sockets), moves) == s
  }

  lemma {:induction false} Extend(s: State, moves: seq<Move>, m: Move)
    requires IsRun(s, moves) && CanMove(After(s, moves), m)
    ensures IsRun(s, moves + [m]) && After(s, moves + [m]) == Step(After(s, moves), m)
    decreases |moves|
  {
    if moves == [] {
      var s' := Step(s, m);
      assert (moves + [m])[1..] == [] && IsRun(s', []) && After(s', []) == s';
    } else {
      Extend(Step(s, moves[0]), moves[1..], m);
      assert (moves + [m])[1..] == moves[1..] + [m];
    }
  }

  /** Worker `w` goes from one state to another by itself. */
  lemma Goes(n: nat, sockets: nat, moves: seq<Move>, lock: nat, ks: seq<Worker>, w: nat, a: Action, lock': nat, k: Worker)
    returns (more: seq<Move>)
    requires Reaches(n, sockets, moves, State(lock, ks)) && w < |ks| && CanDo(ks[w], a)
    requires Do(View(lock, ks[w]), Pid(w), a) == View(lock', k)
    ensures Reaches(n, sockets, more, State(lock', ks[w := k]))
  {
    Extend(Start(n, sockets), moves, Work(w, a));
    more := moves + [Work(w, a)];
  }

  /** With one listening socket, a free lock and idle globals, a worker gets to its poll. */
  lemma GetsToPoll(moves: seq<Move>, ks: seq<Worker>, w: nat) returns (more: seq<Move>)
    requires Reaches(2, 1, moves, State(0, ks)) && w < |ks| && ks[w] == Worker(Top, false, [false], 0, false)
    ensures Reaches(2, 1, more, State(Pid(w), ks[w := Worker(Poll, true, [true], 0, true)]))
  {
    hide Reaches;
    var k := ks;
    more := Goes(2, 1, moves, 0, k, w, Go, 0, Worker(TryRead, false, [false], 0, true));
    k := k[w := Worker(TryRead, false, [false], 0, true)];
    more := Goes(2, 1, more, 0, k, w, Go, 0, Worker(TryCas, false, [false], 0, true));
    k := k[w := Worker(TryCas, false, [false], 0, true)];
    more := Goes(2, 1, more, 0, k, w, Go, Pid(w), Worker(Won, false, [false], 0, true));
    k := k[w := Worker(Won, false, [false], 0, true)];
    more := Goes(2, 1, more, Pid(w), k, w, Go, Pid(w), Worker(Enable(0), false, [false], 0, true));
    k := k[w := Worker(Enable(0), false, [false], 0, true)];
    more := Goes(2, 1, more, Pid(w), k, w, Go, Pid(w), Worker(Enable(1), false, [true], 0, true));
    k := k[w := Worker(Enable(1), false, [true], 0, true)];
    more := Goes(2, 1, more, Pid(w), k, w, Go, Pid(w), Worker(Poll, true, [true], 0, true));
    assert ks[w := Worker(Poll, true, [true], 0, true)] == k[w := Worker(Poll, true, [true], 0, true)];
  }

  /** Lines 231-232 of ngx_event.c: worker 0 is overloaded and skips the trylock; it polls with its
      events still enabled, while worker 1 has the lock and polls too. */
  lemma SkippedTrylockOverlaps() returns (moves: seq<Move>, s: State)
    ensures Reaches(2, 1, moves, s) && s.lock == Pid(1) && |s.workers| == 2
    ensures Polls(s.workers[0]) && !s.workers[0].ran && Polls(s.workers[1]) && s.workers[1].ran
  {
    var idle := Worker(Top, false, [false], 0, false);
    var ws := Start(2, 1).workers;
    assert ws[0].active == [false] && ws[1].active == [false] && ws == [idle, idle];
    assert Reaches(2, 1, [], State(0, [idle, idle]));
    moves := GetsToPoll([], [idle, idle], 0);
    moves := SkipsNext(moves, idle);
    moves := GetsToPoll(moves, [Worker(Poll, true, [true], 4, false), idle], 1);
    s := State(Pid(1), [Worker(Poll, true, [true], 4, false), Worker(Poll, true, [true], 0, true)]);
    assert [Worker(Poll, true, [true], 4, false), idle][1 := Worker(Poll, true, [true], 0, true)] == s.workers;
  }

  lemma SkipsNext(moves: seq<Move>, other: Worker) returns (more: seq<Move>)
    requires Reaches(2, 1, moves, State(1, [Worker(Poll, true, [true], 0, true), other]))
    ensures Reaches(2, 1, more, State(0, [Worker(Poll, true, [true], 4, false), other]))
  {
    hide Reaches;
    var ks := [Worker(Poll, true, [true], 0, true), other];
    more := Goes(2, 1, moves, 1, ks, 0, Go, 1, Worker(Posted, true, [true], 0, true));
    ks := ks[0 := Worker(Posted, true, [true], 0, true)];
    more := Goes(2, 1, more, 1, ks, 0, Accepted(5), 1, Worker(Posted, true, [true], 5, true));
    ks := ks[0 := Worker(Posted, true, [true], 5, true)];
    more := Goes(2, 1, more, 1, ks, 0, Go, 1, Worker(Unlock, true, [true], 5, true));
    ks := ks[0 := Worker(Unlock, true, [true], 5, true)];
    more := Goes(2, 1, more, 1, ks, 0, Go, 0, Worker(Timers, true, [true], 5, true));
    ks := ks[0 := Worker(Timers, true, [true], 5, true)];
    more := Goes(2, 1, more, 0, ks, 0, Go, 0, Worker(Top, true, [true], 5, true));
    ks := ks[0 := Worker(Top, true, [true], 5, true)];
    more := Goes(2, 1, more, 0, ks, 0, Go, 0, Worker(Poll, true, [true], 4, false));
    assert ks[0 := Worker(Poll, true, [true], 4, false)] == [Worker(Poll, true, [true], 4, false), other];
  }
}

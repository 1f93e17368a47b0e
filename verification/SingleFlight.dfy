/**
 * The proxy's single-flight map (src/proxy/mod.rs:452-463 and 976-996). Every access to one map
 * entry is atomic (the map locks the entry's shard); everything between two accesses interleaves.
 * A request drops its mutex guard, then its flight, then its clone of the lock, each as its own
 * step, and may be cancelled while it waits or while it holds the mutex.
 */
module SingleFlight {
  type Key = nat
  type Lock = nat
  type Task = nat

  /** `Unguarded`: the guard is gone, the flight is not. `Bare`: only the clone is left. */
  datatype Phase = Waiting | Holding | Unguarded | Bare

  datatype Flight = Flight(key: Key, lock: Lock, phase: Phase)

  datatype State = State(requests: map<Key, Lock>, tasks: map<Task, Flight>, locked: set<Lock>)

  const EMPTY := State(map[], map[], {})

  datatype Step =
    | Enter(task: Task, key: Key, candidate: Lock)
    | Acquire(task: Task)
    | Release(task: Task)
    | Abandon(task: Task)
    | DropFlight(task: Task)
    | DropClone(task: Task)

  // ----- reference counts -----

  function Entries(s: State, lock: Lock): set<Key> {
    set k | k in s.requests && s.requests[k] == lock
  }

  function Clones(s: State, lock: Lock): set<Task> {
    set t | t in s.tasks && s.tasks[t].lock == lock
  }

  /** `Arc::strong_count`: the map's own reference and one for every request that cloned it. */
  function StrongCount(s: State, lock: Lock): nat {
    |Entries(s, lock)| + |Clones(s, lock)|
  }

  // ----- the machine -----

  predicate InPhase(s: State, t: Task, phase: Phase) {
    t in s.tasks && s.tasks[t].phase == phase
  }

  predicate Enabled(s: State, step: Step) {
    match step
    case Enter(t, _, candidate) => t !in s.tasks && StrongCount(s, candidate) == 0
    case Acquire(t) => InPhase(s, t, Waiting) && s.tasks[t].lock !in s.locked
    case Release(t) => InPhase(s, t, Holding)
    case Abandon(t) => InPhase(s, t, Waiting)
    case DropFlight(t) => InPhase(s, t, Unguarded)
    case DropClone(t) => InPhase(s, t, Bare)
  }

  function Moved(s: State, t: Task, phase: Phase): State
    requires t in s.tasks
  {
    s.(tasks := s.tasks[t := s.tasks[t].(phase := phase)])
  }

  /** `remove_if(key, strong_count <= 2)`. */
  function Cleaned(s: State, key: Key): State {
    if key in s.requests && StrongCount(s, s.requests[key]) <= 2 then s.(requests := s.requests - {key}) else s
  }

  function Entered(s: State, t: Task, key: Key, candidate: Lock): State {
    var lock := if key in s.requests then s.requests[key] else candidate;
    s.(requests := s.requests[key := lock], tasks := s.tasks[t := Flight(key, lock, Waiting)])
  }

  function Apply(s: State, step: Step): State
    requires Enabled(s, step)
  {
    match step
    case Enter(t, key, candidate) => Entered(s, t, key, candidate)
    case Acquire(t) => Moved(s, t, Holding).(locked := s.locked + {s.tasks[t].lock})
    case Release(t) => Moved(s, t, Unguarded).(locked := s.locked - {s.tasks[t].lock})
    case Abandon(t) => Moved(s, t, Unguarded)
    case DropFlight(t) => Moved(Cleaned(s, s.tasks[t].key), t, Bare)
    case DropClone(t) => s.(tasks := s.tasks - {t})
  }

  // ----- the invariant -----

  /** A request whose flight is alive finds its own lock in the map. */
  ghost predicate FlightsMapped(s: State) {
    forall t :: t in s.tasks && !s.tasks[t].phase.Bare? ==>
      s.tasks[t].key in s.requests && s.requests[s.tasks[t].key] == s.tasks[t].lock
  }

  /** Requests for different keys never share a lock. */
  ghost predicate LocksSeparate(s: State) {
    && (forall k, l :: k in s.requests && l in s.requests && s.requests[k] == s.requests[l] ==> k == l)
    && (forall t, k :: t in s.tasks && k in s.requests && s.tasks[t].lock == s.requests[k] ==> s.tasks[t].key == k)
    && (forall t, u :: t in s.tasks && u in s.tasks && s.tasks[t].lock == s.tasks[u].lock ==>
          s.tasks[t].key == s.tasks[u].key)
  }

  /** The mutex: locked exactly while one request holds its guard. */
  ghost predicate MutexSound(s: State) {
    && (forall t :: InPhase(s, t, Holding) ==> s.tasks[t].lock in s.locked)
    && (forall l :: l in s.locked ==> exists t :: InPhase(s, t, Holding) && s.tasks[t].lock == l)
    && (forall t, u :: InPhase(s, t, Holding) && InPhase(s, u, Holding) && s.tasks[t].lock == s.tasks[u].lock ==>
          t == u)
  }

  ghost predicate Inv(s: State) {
    FlightsMapped(s) && LocksSeparate(s) && MutexSound(s)
  }

  lemma Unreferenced(s: State, lock: Lock)
    requires StrongCount(s, lock) == 0
    ensures forall k :: k in s.requests ==> s.requests[k] != lock
    ensures forall t :: t in s.tasks ==> s.tasks[t].lock != lock
  {
    forall k | k in s.requests ensures s.requests[k] != lock {
      assert k !in Entries(s, lock);
    }
    forall t | t in s.tasks ensures s.tasks[t].lock != lock {
      assert t !in Clones(s, lock);
    }
  }

  lemma SingletonByCard<T>(xs: set<T>, x: T)
    requires x in xs
    ensures |xs| >= 1 && (|xs| <= 1 <==> xs == {x})
  {
    assert xs == (xs - {x}) + {x};
  }

  /** A count of two means that only the map and this request own the lock. */
  lemma CountOfTwo(s: State, t: Task)
    requires Inv(s) && t in s.tasks && !s.tasks[t].phase.Bare?
    ensures StrongCount(s, s.tasks[t].lock) <= 2 <==> Clones(s, s.tasks[t].lock) == {t}
  {
    var lock, key := s.tasks[t].lock, s.tasks[t].key;
    assert Entries(s, lock) == {key};
    SingletonByCard(Clones(s, lock), t);
  }

  lemma EnterKeeps(s: State, t: Task, key: Key, candidate: Lock)
    requires Inv(s) && Enabled(s, Enter(t, key, candidate))
    ensures Inv(Apply(s, Enter(t, key, candidate)))
  {
    Unreferenced(s, candidate);
    var r := Apply(s, Enter(t, key, candidate));
    assert FlightsMapped(r);
    assert LocksSeparate(r);
    assert MutexSound(r) by {
      forall l | l in r.locked ensures exists u :: InPhase(r, u, Holding) && r.tasks[u].lock == l {
        var u :| InPhase(s, u, Holding) && s.tasks[u].lock == l;
        assert InPhase(r, u, Holding);
      }
    }
  }

  /** Dropping entries or requests, or changing phases, cannot make two keys share a lock. */
  lemma LocksShrink(s: State, r: State)
    requires LocksSeparate(s)
    requires forall k :: k in r.requests ==> k in s.requests && r.requests[k] == s.requests[k]
    requires forall t :: t in r.tasks ==>
               t in s.tasks && r.tasks[t].key == s.tasks[t].key && r.tasks[t].lock == s.tasks[t].lock
    ensures LocksSeparate(r)
  {
  }

  lemma DropFlightKeeps(s: State, t: Task)
    requires Inv(s) && Enabled(s, DropFlight(t))
    ensures Inv(Apply(s, DropFlight(t)))
  {
    var r := Apply(s, DropFlight(t));
    var key := s.tasks[t].key;
    assert FlightsMapped(r) by {
      forall u | u in r.tasks && !r.tasks[u].phase.Bare?
        ensures r.tasks[u].key in r.requests && r.requests[r.tasks[u].key] == r.tasks[u].lock
      {
        assert s.tasks[u] == r.tasks[u];
        if s.tasks[u].key == key {
          CountOfTwo(s, t);
          assert u in Clones(s, s.tasks[t].lock);
        }
      }
    }
    assert LocksSeparate(r) by { LocksShrink(s, r); }
    assert MutexSound(r) by { HolderStays(s, r, t); }
  }

  /** A step of `t` that leaves the mutexes and every other request alone keeps the mutexes sound. */
  lemma HolderStays(s: State, r: State, t: Task)
    requires MutexSound(s) && r.locked == s.locked && !InPhase(s, t, Holding) && !InPhase(r, t, Holding)
    requires forall u :: u != t ==> (u in s.tasks <==> u in r.tasks) && (u in s.tasks ==> s.tasks[u] == r.tasks[u])
    ensures MutexSound(r)
  {
    forall l | l in r.locked ensures exists u :: InPhase(r, u, Holding) && r.tasks[u].lock == l {
      var u :| InPhase(s, u, Holding) && s.tasks[u].lock == l;
      assert InPhase(r, u, Holding);
    }
    assert forall u :: InPhase(r, u, Holding) ==> InPhase(s, u, Holding) && s.tasks[u] == r.tasks[u];
  }

  lemma AcquireMutex(s: State, t: Task)
    requires MutexSound(s) && Enabled(s, Acquire(t))
    ensures MutexSound(Apply(s, Acquire(t)))
  {
    var r := Apply(s, Acquire(t));
    forall l | l in r.locked ensures exists u :: InPhase(r, u, Holding) && r.tasks[u].lock == l {
      if l == s.tasks[t].lock {
        assert InPhase(r, t, Holding);
      } else {
        var u :| InPhase(s, u, Holding) && s.tasks[u].lock == l;
        assert InPhase(r, u, Holding);
      }
    }
    assert forall u :: InPhase(r, u, Holding) && u != t ==> InPhase(s, u, Holding) && s.tasks[u] == r.tasks[u];
  }

  lemma AcquireKeeps(s: State, t: Task)
    requires Inv(s) && Enabled(s, Acquire(t))
    ensures Inv(Apply(s, Acquire(t)))
  {
    var r := Apply(s, Acquire(t));
    assert LocksSeparate(r) by { LocksShrink(s, r); }
    assert FlightsMapped(r);
    assert MutexSound(r) by { AcquireMutex(s, t); }
  }

  lemma ReleaseMutex(s: State, t: Task)
    requires MutexSound(s) && Enabled(s, Release(t))
    ensures MutexSound(Apply(s, Release(t)))
  {
    var r := Apply(s, Release(t));
    forall l | l in r.locked ensures exists u :: InPhase(r, u, Holding) && r.tasks[u].lock == l {
      var u :| InPhase(s, u, Holding) && s.tasks[u].lock == l;
      assert InPhase(r, u, Holding);
    }
    assert forall u :: InPhase(r, u, Holding) ==> u != t && InPhase(s, u, Holding) && s.tasks[u] == r.tasks[u];
  }

  lemma ReleaseKeeps(s: State, t: Task)
    requires Inv(s) && Enabled(s, Release(t))
    ensures Inv(Apply(s, Release(t)))
  {
    var r := Apply(s, Release(t));
    assert LocksSeparate(r) by { LocksShrink(s, r); }
    assert FlightsMapped(r);
    assert MutexSound(r) by { ReleaseMutex(s, t); }
  }

  lemma QuietStep(s: State, r: State, t: Task)
    requires Inv(s) && r.locked == s.locked && r.requests == s.requests && t in s.tasks && !InPhase(s, t, Holding)
    requires (r == Moved(s, t, Unguarded) && InPhase(s, t, Waiting)) || r.tasks == s.tasks - {t}
    ensures Inv(r)
  {
    assert LocksSeparate(r) by { LocksShrink(s, r); }
    assert MutexSound(r) by { HolderStays(s, r, t); }
    assert FlightsMapped(r);
  }

  lemma StepKeeps(s: State, step: Step)
    requires Inv(s) && Enabled(s, step)
    ensures Inv(Apply(s, step))
  {
    match step {
      case Enter(t, key, candidate) => EnterKeeps(s, t, key, candidate);
      case Acquire(t) => AcquireKeeps(s, t);
      case Release(t) => ReleaseKeeps(s, t);
      case Abandon(t) => QuietStep(s, Apply(s, step), t);
      case DropFlight(t) => DropFlightKeeps(s, t);
      case DropClone(t) => QuietStep(s, Apply(s, step), t);
    }
  }

  // ----- whole runs -----

  /** The states of a run, one more than its steps. */
  ghost predicate IsRun(states: seq<State>, steps: seq<Step>) {
    && |states| == |steps| + 1
    && states[0] == EMPTY
    && forall i :: 0 <= i < |steps| ==> Enabled(states[i], steps[i]) && states[i + 1] == Apply(states[i], steps[i])
  }

  lemma {:induction false} RunKeeps(states: seq<State>, steps: seq<Step>, i: nat)
    requires IsRun(states, steps) && i < |states|
    ensures Inv(states[i])
  {
    if i > 0 {
      RunKeeps(states, steps, i - 1);
      StepKeeps(states[i - 1], steps[i - 1]);
    }
  }

  /** At most one request per key is inside the coalesced section, in every interleaving. */
  lemma OneInsidePerKey(states: seq<State>, steps: seq<Step>, i: nat, t: Task, u: Task)
    requires IsRun(states, steps) && i < |states|
    requires InPhase(states[i], t, Holding) && InPhase(states[i], u, Holding)
    requires states[i].tasks[t].key == states[i].tasks[u].key
    ensures t == u
  {
    RunKeeps(states, steps, i);
  }

  /** An entry goes only when no other request holds its lock, whatever that request is doing. */
  lemma RemovedOnlyUnshared(states: seq<State>, steps: seq<Step>, i: nat, key: Key)
    requires IsRun(states, steps) && i < |steps|
    requires key in states[i].requests && key !in states[i + 1].requests
    ensures steps[i].DropFlight? && states[i].tasks[steps[i].task].key == key
    ensures Clones(states[i], states[i].requests[key]) == {steps[i].task}
  {
    RunKeeps(states, steps, i);
    var t := steps[i].task;
    if steps[i].DropFlight? {
      CountOfTwo(states[i], t);
    }
  }

  /** Different keys never wait for each other: a waiter is blocked only by a request for its own key. */
  lemma BlockedBySameKeyOnly(states: seq<State>, steps: seq<Step>, i: nat, t: Task) returns (holder: Task)
    requires IsRun(states, steps) && i < |states|
    requires InPhase(states[i], t, Waiting) && !Enabled(states[i], Acquire(t))
    ensures holder != t && InPhase(states[i], holder, Holding) && states[i].tasks[holder].key == states[i].tasks[t].key
  {
    RunKeeps(states, steps, i);
    holder :| InPhase(states[i], holder, Holding) && states[i].tasks[holder].lock == states[i].tasks[t].lock;
  }

  // ----- when an entry outlives its requests -----

  predicate Flying(s: State, t: Task, key: Key) {
    t in s.tasks && s.tasks[t].key == key && !s.tasks[t].phase.Bare?
  }

  /** An entry that no flight will come back to remove. */
  ghost predicate Stranded(s: State, key: Key) {
    key in s.requests && forall t :: !Flying(s, t, key)
  }

  /** The last flight of a key drops while another finished request still has its clone. */
  ghost predicate LateClone(s: State, step: Step, key: Key) {
    && step.DropFlight? && Flying(s, step.task, key)
    && (forall t :: Flying(s, t, key) ==> t == step.task)
    && exists u :: u != step.task && u in s.tasks && s.tasks[u].lock == s.tasks[step.task].lock
  }

  predicate Reenters(step: Step, key: Key) {
    step.Enter? && step.key == key
  }

  lemma DropStrands(s: State, t: Task, key: Key)
    requires Inv(s) && Enabled(s, DropFlight(t)) && s.tasks[t].key == key
    ensures Stranded(Apply(s, DropFlight(t)), key) <==> LateClone(s, DropFlight(t), key)
  {
    var r := Apply(s, DropFlight(t));
    var lock := s.tasks[t].lock;
    CountOfTwo(s, t);
    assert t in Clones(s, lock);
    assert key in r.requests <==> Clones(s, lock) != {t};
    assert forall u :: Flying(r, u, key) <==> Flying(s, u, key) && u != t;
    if key in r.requests {
      var u :| u in Clones(s, lock) && u != t;
      assert u in s.tasks && s.tasks[u].lock == lock;
    }
    if LateClone(s, DropFlight(t), key) {
      var u :| u != t && u in s.tasks && s.tasks[u].lock == lock;
      assert u in Clones(s, lock);
    }
  }

  lemma StrandedStep(s: State, step: Step, key: Key)
    requires Inv(s) && Enabled(s, step)
    ensures Stranded(Apply(s, step), key) <==>
            (Stranded(s, key) && !Reenters(step, key)) || LateClone(s, step, key)
  {
    var r := Apply(s, step);
    if step.DropFlight? && s.tasks[step.task].key == key {
      DropStrands(s, step.task, key);
      assert Flying(s, step.task, key);
    } else if Reenters(step, key) {
      assert Flying(r, step.task, key);
    } else {
      assert forall u :: Flying(r, u, key) <==> Flying(s, u, key);
      assert key in r.requests <==> key in s.requests;
    }
  }

  /** Some last flight dropped beside another's clone, and no request for the key came after. */
  ghost predicate LeftBehind(states: seq<State>, steps: seq<Step>, n: nat, key: Key)
    requires n <= |states| && n <= |steps|
  {
    exists i :: 0 <= i < n && LateClone(states[i], steps[i], key) && forall j :: i < j < n ==> !Reenters(steps[j], key)
  }

  lemma LeftBehindUnrolled(states: seq<State>, steps: seq<Step>, n: nat, key: Key)
    requires n < |states| && n < |steps|
    ensures LeftBehind(states, steps, n + 1, key) <==>
            (LeftBehind(states, steps, n, key) && !Reenters(steps[n], key)) || LateClone(states[n], steps[n], key)
  {
    if LeftBehind(states, steps, n, key) && !Reenters(steps[n], key) {
      var i :| 0 <= i < n && LateClone(states[i], steps[i], key) && forall j :: i < j < n ==> !Reenters(steps[j], key);
      assert forall j :: i < j < n + 1 ==> !Reenters(steps[j], key);
    }
  }

  /** Exactly when an entry outlives its flights. */
  lemma {:induction false} StrandedExactly(states: seq<State>, steps: seq<Step>, n: nat, key: Key)
    requires IsRun(states, steps) && n <= |steps|
    ensures Stranded(states[n], key) <==> LeftBehind(states, steps, n, key)
  {
    if n > 0 {
      StrandedExactly(states, steps, n - 1, key);
      RunKeeps(states, steps, n - 1);
      assert states[n] == Apply(states[n - 1], steps[n - 1]);
      LeftBehindUnrolled(states, steps, n - 1, key);
      StrandedStep(states[n - 1], steps[n - 1], key);
    }
  }

  /** A proxy with no request left has an empty map exactly when no key was left behind. */
  lemma QuietMapIsEmpty(states: seq<State>, steps: seq<Step>)
    requires IsRun(states, steps) && states[|steps|].tasks == map[]
    ensures states[|steps|].requests == map[] <==> forall key :: !LeftBehind(states, steps, |steps|, key)
  {
    var last := states[|steps|];
    forall key ensures key in last.requests <==> LeftBehind(states, steps, |steps|, key) {
      StrandedExactly(states, steps, |steps|, key);
      assert forall t :: !Flying(last, t, key);
    }
  }

  // ----- a run that strands an entry -----

  function LeakSteps(k: Key, lock: Lock, t: Task, u: Task): seq<Step> {
    [Enter(t, k, lock), Enter(u, k, lock + 1), Acquire(t), Release(t), Acquire(u), Release(u),
     DropFlight(t), DropFlight(u), DropClone(t), DropClone(u)]
  }

  function LeakState(k: Key, lock: Lock, t: Task, u: Task, i: nat): State
    requires i <= 10
  {
    var a := (phase: Phase) => Flight(k, lock, phase);
    var m := map[k := lock];
    if i == 0 then EMPTY
    else if i == 1 then State(m, map[t := a(Waiting)], {})
    else if i == 2 then State(m, map[t := a(Waiting), u := a(Waiting)], {})
    else if i == 3 then State(m, map[t := a(Holding), u := a(Waiting)], {lock})
    else if i == 4 then State(m, map[t := a(Unguarded), u := a(Waiting)], {})
    else if i == 5 then State(m, map[t := a(Unguarded), u := a(Holding)], {lock})
    else if i == 6 then State(m, map[t := a(Unguarded), u := a(Unguarded)], {})
    else if i == 7 then State(m, map[t := a(Bare), u := a(Unguarded)], {})
    else if i == 8 then State(m, map[t := a(Bare), u := a(Bare)], {})
    else if i == 9 then State(m, map[u := a(Bare)], {})
    else State(m, map[], {})
  }

  lemma Shared(s: State, k: Key, lock: Lock, t: Task, u: Task)
    requires t != u && s.requests == map[k := lock] && s.tasks.Keys == {t, u}
    requires s.tasks[t].lock == lock && s.tasks[u].lock == lock
    ensures StrongCount(s, lock) == 3
  {
    assert Entries(s, lock) == {k} && Clones(s, lock) == {t, u};
  }

  lemma LeakStarts(k: Key, lock: Lock, t: Task, u: Task, i: nat)
    requires t != u && i < 5
    ensures Enabled(LeakState(k, lock, t, u, i), LeakSteps(k, lock, t, u)[i])
    ensures Apply(LeakState(k, lock, t, u, i), LeakSteps(k, lock, t, u)[i]) == LeakState(k, lock, t, u, i + 1)
  {
    var s := LeakState(k, lock, t, u, i);
    if i < 2 {
      assert Entries(s, lock + i) == {} && Clones(s, lock + i) == {};
    }
  }

  lemma LeakEnds(k: Key, lock: Lock, t: Task, u: Task, i: nat)
    requires t != u && 5 <= i < 10
    ensures Enabled(LeakState(k, lock, t, u, i), LeakSteps(k, lock, t, u)[i])
    ensures Apply(LeakState(k, lock, t, u, i), LeakSteps(k, lock, t, u)[i]) == LeakState(k, lock, t, u, i + 1)
  {
    if i < 8 {
      Shared(LeakState(k, lock, t, u, i), k, lock, t, u);
    }
  }

  /** Two overlapping requests for any key can finish and leave its entry in the map for good. */
  lemma LeakRun(k: Key, lock: Lock, t: Task, u: Task) returns (states: seq<State>, steps: seq<Step>)
    requires t != u
    ensures IsRun(states, steps) && steps == LeakSteps(k, lock, t, u)
    ensures states[|steps|].tasks == map[] && states[|steps|].requests == map[k := lock]
  {
    steps := LeakSteps(k, lock, t, u);
    states := seq(11, i requires 0 <= i < 11 => LeakState(k, lock, t, u, i));
    forall i | 0 <= i < 10
      ensures Enabled(states[i], steps[i]) && states[i + 1] == Apply(states[i], steps[i])
    {
      if i < 5 {
        LeakStarts(k, lock, t, u, i);
      } else {
        LeakEnds(k, lock, t, u, i);
      }
    }
  }

  // ----- the map and its reference counts, updated in place -----

  lemma ClonesAfterEnter(s: State, t: Task, key: Key, candidate: Lock, l: Lock)
    requires t !in s.tasks
    ensures var r := Entered(s, t, key, candidate);
            |Clones(r, l)| == |Clones(s, l)| + if l == r.requests[key] then 1 else 0
  {
    var r := Entered(s, t, key, candidate);
    assert t !in Clones(s, l);
    assert Clones(r, l) == Clones(s, l) + if l == r.requests[key] then {t} else {};
  }

  lemma EntriesAfterEnter(s: State, t: Task, key: Key, candidate: Lock, l: Lock)
    ensures var r := Entered(s, t, key, candidate);
            |Entries(r, l)| == |Entries(s, l)| + if l == r.requests[key] && key !in s.requests then 1 else 0
  {
    var r := Entered(s, t, key, candidate);
    if l == r.requests[key] && key !in s.requests {
      assert key !in Entries(s, l);
      assert Entries(r, l) == Entries(s, l) + {key};
    } else {
      assert Entries(r, l) == Entries(s, l);
    }
  }

  /** References to `l` that a request entering for `key` adds: its clone, and the map's if the entry is new. */
  function Entering(s: State, r: State, key: Key, l: Lock): nat
    requires key in r.requests
  {
    if l != r.requests[key] then 0 else if key in s.requests then 1 else 2
  }

  lemma CountAfterEnter(s: State, t: Task, key: Key, candidate: Lock, l: Lock)
    requires Enabled(s, Enter(t, key, candidate))
    ensures var r := Entered(s, t, key, candidate);
            StrongCount(r, l) == StrongCount(s, l) + Entering(s, r, key, l)
  {
    ClonesAfterEnter(s, t, key, candidate, l);
    EntriesAfterEnter(s, t, key, candidate, l);
  }

  lemma CountAfterRemoval(s: State, key: Key, l: Lock)
    requires key in s.requests
    ensures StrongCount(s.(requests := s.requests - {key}), l)
         == StrongCount(s, l) - if l == s.requests[key] then 1 else 0
  {
    var r := s.(requests := s.requests - {key});
    assert Clones(r, l) == Clones(s, l);
    assert Entries(r, l) == if l == s.requests[key] then Entries(s, l) - {key} else Entries(s, l);
    assert l == s.requests[key] ==> key in Entries(s, l);
  }

  lemma CountAfterMove(s: State, t: Task, phase: Phase, locked: set<Lock>, l: Lock)
    requires t in s.tasks
    ensures StrongCount(Moved(s, t, phase).(locked := locked), l) == StrongCount(s, l)
  {
    var r := Moved(s, t, phase).(locked := locked);
    assert Clones(r, l) == Clones(s, l) && Entries(r, l) == Entries(s, l);
  }

  lemma CountAfterClone(s: State, t: Task, l: Lock)
    requires t in s.tasks
    ensures StrongCount(s.(tasks := s.tasks - {t}), l) == StrongCount(s, l) - if l == s.tasks[t].lock then 1 else 0
  {
    var r := s.(tasks := s.tasks - {t});
    assert Entries(r, l) == Entries(s, l);
    assert Clones(r, l) == if l == s.tasks[t].lock then Clones(s, l) - {t} else Clones(s, l);
    assert l == s.tasks[t].lock ==> t in Clones(s, l);
  }

  /** The shared map with a stored count per lock; `view` is the machine's state. */
  class Requests {
    var requests: map<Key, Lock>
    var counts: map<Lock, nat>
    ghost var view: State

    function Count(lock: Lock): nat
      reads this
    {
      if lock in counts then counts[lock] else 0
    }

    /** The stored counts are the machine's, for every lock. */
    ghost predicate Valid()
      reads this
    {
      requests == view.requests && Inv(view) && forall l :: Count(l) == StrongCount(view, l)
    }

    constructor ()
      ensures Valid() && view == EMPTY
    {
      requests, counts, view := map[], map[], EMPTY;
      new;
      forall l ensures Count(l) == StrongCount(view, l) {
        assert Entries(view, l) == {} && Clones(view, l) == {};
      }
    }

    /** `entry(key).or_insert_with(..)` and the clone taken under the same shard lock. */
    method CloneLock(ghost t: Task, key: Key, candidate: Lock) returns (lock: Lock)
      requires Valid() && Enabled(view, Enter(t, key, candidate))
      modifies this
      ensures Valid() && view == Apply(old(view), Enter(t, key, candidate))
      ensures lock == view.tasks[t].lock == view.requests[key]
    {
      ghost var next := Entered(view, t, key, candidate);
      forall l ensures StrongCount(next, l) == StrongCount(view, l) + Entering(view, next, key, l) {
        CountAfterEnter(view, t, key, candidate, l);
      }
      StepKeeps(view, Enter(t, key, candidate));
      view := next;
      if key in requests {
        lock := requests[key];
      } else {
        lock := candidate;
        requests := requests[key := candidate];
        counts := counts[candidate := Count(candidate) + 1];
      }
      counts := counts[lock := Count(lock) + 1];
    }

    /** The mutex steps touch neither the map nor a count. */
    ghost method MutexStep(step: Step)
      requires Valid() && Enabled(view, step) && (step.Acquire? || step.Release? || step.Abandon?)
      modifies this`view
      ensures Valid() && view == Apply(old(view), step)
    {
      StepKeeps(view, step);
      var next := Apply(view, step);
      forall l ensures StrongCount(next, l) == StrongCount(view, l) {
        CountAfterMove(view, step.task, next.tasks[step.task].phase, next.locked, l);
      }
      view := next;
    }

    /** `RequestFlight::drop`. */
    method FlightDropped(ghost t: Task, key: Key)
      requires Valid() && Enabled(view, DropFlight(t)) && view.tasks[t].key == key
      modifies this
      ensures Valid() && view == Apply(old(view), DropFlight(t))
    {
      StepKeeps(view, DropFlight(t));
      ghost var cleaned := Cleaned(view, key);
      forall l ensures StrongCount(Moved(cleaned, t, Bare), l) == StrongCount(cleaned, l) {
        CountAfterMove(cleaned, t, Bare, cleaned.locked, l);
      }
      forall l ensures key in view.requests ==>
        StrongCount(view.(requests := view.requests - {key}), l)
        == StrongCount(view, l) - if l == view.requests[key] then 1 else 0
      {
        if key in view.requests {
          CountAfterRemoval(view, key, l);
        }
      }
      view := Moved(cleaned, t, Bare);
      if key in requests && Count(requests[key]) <= 2 {
        var lock := requests[key];
        requests := requests - {key};
        counts := counts[lock := Count(lock) - 1];
      }
    }

    /** The request's own clone goes last. */
    method CloneDropped(ghost t: Task, lock: Lock)
      requires Valid() && Enabled(view, DropClone(t)) && view.tasks[t].lock == lock
      modifies this`counts, this`view
      ensures Valid() && view == Apply(old(view), DropClone(t))
    {
      StepKeeps(view, DropClone(t));
      assert StrongCount(view, lock) > 0 by {
        assert t in Clones(view, lock);
      }
      forall l
        ensures StrongCount(view.(tasks := view.tasks - {t}), l) == StrongCount(view, l) - if l == lock then 1 else 0
      {
        CountAfterClone(view, t, l);
      }
      view := view.(tasks := view.tasks - {t});
      counts := counts[lock := Count(lock) - 1];
    }
  }
}

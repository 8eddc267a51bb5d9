/** Background deploys and foreground pushes running at once: a counting semaphore bounds the
    background ones, a lazily created mutex per node serializes the pushes (autoapply.go,
    hostlock.go, awg_push.go). A task's push is any sequence of commands on the node's state
    and the push's own variables. */
module Concurrency {
  import opened Text
  import RemoteNode

  type NodeState = RemoteNode.State

  /** What a push keeps to itself between two commands. */
  datatype Vars = Vars(records: seq<RemoteNode.PushRecord>, pending: seq<RemoteNode.PushRecord>, stopped: seq<string>,
                       backup: Option<RemoteNode.BackupKey>, outcome: RemoteNode.Outcome)

  type Command = (NodeState, Vars) -> (NodeState, Vars)

  datatype Task = Task(node: string, background: bool, start: Vars, commands: seq<Command>)

  datatype Phase =
    | Idle
    | WaitSlot
    | Holding
    | NeedMutex
    | WaitLock(mutex: nat)
    | Inside(mutex: nat, pc: nat, vars: Vars)
    | Releasing(pushed: bool)
    | Signing(pushed: bool)
    | Done(pushed: bool)

  /** `slots` taken in the semaphore channel, `waiting` the WaitGroup counter, `mutexes` the
      hostLocks map, `locked` the mutexes that are held, `order` who got a node's lock when. */
  datatype System = System(phases: seq<Phase>, slots: nat, waiting: nat, mutexes: map<string, nat>, made: nat,
                               locked: set<nat>, nodes: map<string, NodeState>, order: map<string, seq<nat>>)

  // ---- Steps ----

  function At(s: System, i: nat, p: Phase): System
    requires i < |s.phases|
  {
    s.(phases := s.phases[i := p])
  }

  function OrderOf(s: System, n: string): seq<nat> {
    if n in s.order then s.order[n] else []
  }

  /** hostLock: the node's mutex, made on first use. */
  function Fetch(s: System, n: string): System {
    if n in s.mutexes then s else s.(mutexes := s.mutexes[n := s.made], made := s.made + 1)
  }

  ghost predicate AcquireStep(s: System, t: System, k: nat, i: nat)
    requires i < |s.phases|
  {
    s.slots < k && t == At(s.(slots := s.slots + 1), i, Holding)
  }

  ghost predicate FetchStep(s: System, t: System, n: string, i: nat)
    requires i < |s.phases|
  {
    n in Fetch(s, n).mutexes && t == At(Fetch(s, n), i, WaitLock(Fetch(s, n).mutexes[n]))
  }

  ghost predicate LockStep(s: System, t: System, n: string, start: Vars, i: nat)
    requires i < |s.phases| && s.phases[i].WaitLock?
  {
    var m := s.phases[i].mutex;
    && m !in s.locked
    && t == At(s.(locked := s.locked + {m}, order := s.order[n := OrderOf(s, n) + [i]]), i, Inside(m, 0, start))
  }

  ghost predicate RunStep(s: System, t: System, task: Task, i: nat)
    requires i < |s.phases| && s.phases[i].Inside?
  {
    var p := s.phases[i];
    && p.pc < |task.commands| && task.node in s.nodes
    && var r := task.commands[p.pc](s.nodes[task.node], p.vars);
       t == At(s.(nodes := s.nodes[task.node := r.0]), i, Inside(p.mutex, p.pc + 1, r.1))
  }

  ghost predicate UnlockStep(s: System, t: System, task: Task, i: nat)
    requires i < |s.phases| && s.phases[i].Inside?
  {
    && s.phases[i].pc >= |task.commands|
    && t == At(s.(locked := s.locked - {s.phases[i].mutex}), i, if task.background then Releasing(true) else Done(true))
  }

  ghost predicate ReleaseStep(s: System, t: System, i: nat)
    requires i < |s.phases| && s.phases[i].Releasing?
  {
    s.slots > 0 && t == At(s.(slots := s.slots - 1), i, Signing(s.phases[i].pushed))
  }

  ghost predicate SignStep(s: System, t: System, i: nat)
    requires i < |s.phases| && s.phases[i].Signing?
  {
    s.waiting > 0 && t == At(s.(waiting := s.waiting - 1), i, Done(s.phases[i].pushed))
  }

  /** One step of task i under a semaphore of capacity k. */
  ghost predicate StepOf(ts: seq<Task>, k: nat, s: System, t: System, i: nat)
    requires |s.phases| == |ts| && i < |ts|
  {
    match s.phases[i]
    case Idle => t == At(s.(waiting := s.waiting + 1), i, WaitSlot)
    case WaitSlot => AcquireStep(s, t, k, i)
    case Holding => t == At(s, i, NeedMutex) || t == At(s, i, Releasing(false))
    case NeedMutex => FetchStep(s, t, ts[i].node, i)
    case WaitLock(_) => LockStep(s, t, ts[i].node, ts[i].start, i)
    case Inside(_, _, _) => RunStep(s, t, ts[i], i) || UnlockStep(s, t, ts[i], i)
    case Releasing(_) => ReleaseStep(s, t, i)
    case Signing(_) => SignStep(s, t, i)
    case Done(_) => false
  }

  ghost predicate Step(ts: seq<Task>, k: nat, s: System, t: System)
    requires |s.phases| == |ts|
  {
    exists i :: 0 <= i < |ts| && StepOf(ts, k, s, t, i)
  }

  // ---- Serial execution ----

  /** A push alone on a node, up to command `pc`. */
  function RunTo(t: Task, x: NodeState, pc: nat): (NodeState, Vars)
    requires pc <= |t.commands|
  {
    if pc == 0 then (x, t.start) else t.commands[pc - 1](RunTo(t, x, pc - 1).0, RunTo(t, x, pc - 1).1)
  }

  function Run(t: Task, x: NodeState): NodeState {
    RunTo(t, x, |t.commands|).0
  }

  /** The listed tasks one after the other. */
  function Serial(ts: seq<Task>, order: seq<nat>, x: NodeState): NodeState
    requires forall j :: 0 <= j < |order| ==> order[j] < |ts|
  {
    if order == [] then x else Run(ts[order[|order| - 1]], Serial(ts, order[..|order| - 1], x))
  }

  // ---- Counting ----

  predicate HasSlot(t: Task, p: Phase) {
    t.background && !p.Idle? && !p.WaitSlot? && !p.Signing? && !p.Done?
  }

  predicate Unfinished(t: Task, p: Phase) {
    t.background && !p.Idle? && !p.Done?
  }

  ghost function Slots(ts: seq<Task>, ps: seq<Phase>): nat
    requires |ps| <= |ts|
  {
    if ps == [] then 0
    else Slots(ts, ps[..|ps| - 1]) + if HasSlot(ts[|ps| - 1], ps[|ps| - 1]) then 1 else 0
  }

  ghost function Waiting(ts: seq<Task>, ps: seq<Phase>): nat
    requires |ps| <= |ts|
  {
    if ps == [] then 0
    else Waiting(ts, ps[..|ps| - 1]) + if Unfinished(ts[|ps| - 1], ps[|ps| - 1]) then 1 else 0
  }

  /** Steps a task still has in front of it. */
  function Left(t: Task, p: Phase): nat {
    match p
    case Idle => |t.commands| + 8
    case WaitSlot => |t.commands| + 7
    case Holding => |t.commands| + 6
    case NeedMutex => |t.commands| + 5
    case WaitLock(_) => |t.commands| + 4
    case Inside(_, pc, _) => if pc <= |t.commands| then |t.commands| - pc + 3 else 3
    case Releasing(_) => 2
    case Signing(_) => 1
    case Done(_) => 0
  }

  ghost function Remaining(ts: seq<Task>, ps: seq<Phase>): nat
    requires |ps| <= |ts|
  {
    if ps == [] then 0 else Remaining(ts, ps[..|ps| - 1]) + Left(ts[|ps| - 1], ps[|ps| - 1])
  }

  function One(b: bool): int {
    if b then 1 else 0
  }

  lemma {:induction false} CountsUpdate(ts: seq<Task>, ps: seq<Phase>, i: nat, p: Phase)
    requires i < |ps| <= |ts|
    ensures Slots(ts, ps[i := p]) == Slots(ts, ps) - One(HasSlot(ts[i], ps[i])) + One(HasSlot(ts[i], p))
    ensures Waiting(ts, ps[i := p]) == Waiting(ts, ps) - One(Unfinished(ts[i], ps[i])) + One(Unfinished(ts[i], p))
    ensures Remaining(ts, ps[i := p]) == Remaining(ts, ps) - Left(ts[i], ps[i]) + Left(ts[i], p)
  {
    var last := |ps| - 1;
    hide HasSlot, Unfinished, Left;
    if i == last {
      assert ps[i := p][..last] == ps[..last];
    } else {
      assert ps[i := p][..last] == ps[..last][i := p];
      CountsUpdate(ts, ps[..last], i, p);
    }
  }

  lemma {:induction false} NoSlots(ts: seq<Task>, ps: seq<Phase>)
    requires |ps| <= |ts| && forall i :: 0 <= i < |ps| ==> !HasSlot(ts[i], ps[i])
    ensures Slots(ts, ps) == 0
  {
    if ps != [] {
      NoSlots(ts, ps[..|ps| - 1]);
    }
  }

  lemma {:induction false} SomeSlot(ts: seq<Task>, ps: seq<Phase>, i: nat)
    requires i < |ps| <= |ts| && HasSlot(ts[i], ps[i])
    ensures Slots(ts, ps) > 0
  {
    if i < |ps| - 1 {
      SomeSlot(ts, ps[..|ps| - 1], i);
    }
  }

  lemma {:induction false} SomeWaiting(ts: seq<Task>, ps: seq<Phase>, i: nat)
    requires i < |ps| <= |ts| && Unfinished(ts[i], ps[i])
    ensures Waiting(ts, ps) > 0
  {
    if i < |ps| - 1 {
      SomeWaiting(ts, ps[..|ps| - 1], i);
    }
  }

  // ---- Invariants ----

  predicate Entered(p: Phase) {
    p.Inside? || (p.Releasing? && p.pushed) || (p.Signing? && p.pushed) || (p.Done? && p.pushed)
  }

  ghost predicate Counted(ts: seq<Task>, k: nat, s: System) {
    && |s.phases| == |ts|
    && s.slots == Slots(ts, s.phases) <= k
    && s.waiting == Waiting(ts, s.phases)
    && (forall i :: 0 <= i < |ts| && !ts[i].background ==>
          s.phases[i].NeedMutex? || s.phases[i].WaitLock? || s.phases[i].Inside? || s.phases[i].Done?)
  }

  /** Mutexes are one per node, and a mutex is held exactly by the one task inside. */
  ghost predicate Exclusive(ts: seq<Task>, s: System) {
    && |s.phases| == |ts|
    && (forall n :: n in s.mutexes ==> s.mutexes[n] < s.made)
    && (forall m, n :: m in s.mutexes && n in s.mutexes && s.mutexes[m] == s.mutexes[n] ==> m == n)
    && (forall i :: 0 <= i < |ts| && (s.phases[i].WaitLock? || s.phases[i].Inside?) ==>
          ts[i].node in s.mutexes && s.mutexes[ts[i].node] == s.phases[i].mutex)
    && (forall i :: 0 <= i < |ts| && s.phases[i].Inside? ==> s.phases[i].mutex in s.locked)
    && (forall m :: m in s.locked ==> exists i :: 0 <= i < |ts| && s.phases[i].Inside? && s.phases[i].mutex == m)
    && (forall i, j :: 0 <= i < j < |ts| && s.phases[i].Inside? && s.phases[j].Inside? ==> s.phases[i].mutex != s.phases[j].mutex)
  }

  /** A node's order lists exactly those that got its lock, each once; only its last can
      still be inside. */
  ghost predicate OrderedNode(ts: seq<Task>, ps: seq<Phase>, n: string, o: seq<nat>)
    requires |ps| == |ts|
  {
    && (forall j :: 0 <= j < |o| ==> o[j] < |ts| && ts[o[j]].node == n)
    && (forall i, j :: 0 <= i < j < |o| ==> o[i] != o[j])
    && (forall i :: 0 <= i < |ts| && ts[i].node == n ==> (i in o <==> Entered(ps[i])))
    && (forall i :: 0 <= i < |ts| && ts[i].node == n && ps[i].Inside? ==> o != [] && o[|o| - 1] == i)
  }

  ghost predicate Ordered(ts: seq<Task>, s: System) {
    |s.phases| == |ts| && forall n :: OrderedNode(ts, s.phases, n, OrderOf(s, n))
  }

  /** Somebody is inside the node: the last of its order. */
  predicate Busy(ts: seq<Task>, s: System, n: string)
    requires |s.phases| == |ts|
  {
    var o := OrderOf(s, n);
    o != [] && o[|o| - 1] < |ts| && s.phases[o[|o| - 1]].Inside?
  }

  /** Every node is where its pushes so far, run one after the other, have brought it. */
  ghost predicate NodeSerial(ts: seq<Task>, s: System, first: map<string, NodeState>, n: string)
    requires |s.phases| == |ts| && OrderedNode(ts, s.phases, n, OrderOf(s, n)) && n in first
  {
    var o := OrderOf(s, n);
    && n in s.nodes
    && if Busy(ts, s, n) then
         var p := s.phases[o[|o| - 1]];
         && p.pc <= |ts[o[|o| - 1]].commands|
         && (s.nodes[n], p.vars) == RunTo(ts[o[|o| - 1]], Serial(ts, o[..|o| - 1], first[n]), p.pc)
       else s.nodes[n] == Serial(ts, o, first[n])
  }

  ghost predicate Inv(ts: seq<Task>, k: nat, s: System, first: map<string, NodeState>) {
    && Counted(ts, k, s) && Exclusive(ts, s) && Ordered(ts, s)
    && (forall n :: n in first ==> NodeSerial(ts, s, first, n))
  }

  ghost predicate Known(ts: seq<Task>, first: map<string, NodeState>) {
    forall i :: 0 <= i < |ts| ==> ts[i].node in first
  }

  /** Background deploys are not scheduled yet; foreground pushes start at the mutex. */
  ghost predicate Init(ts: seq<Task>, s: System, first: map<string, NodeState>) {
    && |s.phases| == |ts|
    && (forall i :: 0 <= i < |ts| ==> s.phases[i] == if ts[i].background then Idle else NeedMutex)
    && s.slots == 0 && s.waiting == 0 && s.mutexes == map[] && s.made == 0 && s.locked == {}
    && s.nodes == first && s.order == map[]
  }

  lemma {:induction false} InitInv(ts: seq<Task>, k: nat, s: System, first: map<string, NodeState>)
    requires Init(ts, s, first)
    ensures Inv(ts, k, s, first)
  {
    NoSlots(ts, s.phases);
    NoneWaiting(ts, s.phases);
  }

  // ---- What a step does, seen from the locks and the nodes ----

  predicate Outside(p: Phase) {
    !p.WaitLock? && !p.Inside?
  }

  /** Acquiring and releasing a slot, deciding, and signing off. */
  ghost predicate QuietStep(s: System, t: System, i: nat)
    requires i < |s.phases|
  {
    && |t.phases| == |s.phases| && t == At(s, i, t.phases[i]).(slots := t.slots, waiting := t.waiting)
    && Outside(s.phases[i]) && Outside(t.phases[i]) && Entered(s.phases[i]) == Entered(t.phases[i])
  }

  lemma {:induction false} StepKinds(ts: seq<Task>, k: nat, s: System, t: System, i: nat)
    requires |s.phases| == |ts| && i < |ts| && StepOf(ts, k, s, t, i)
    ensures Outside(s.phases[i]) && !s.phases[i].NeedMutex? ==> QuietStep(s, t, i)
    ensures s.phases[i].NeedMutex? ==> FetchStep(s, t, ts[i].node, i)
    ensures s.phases[i].WaitLock? ==> LockStep(s, t, ts[i].node, ts[i].start, i)
    ensures s.phases[i].Inside? ==> RunStep(s, t, ts[i], i) || UnlockStep(s, t, ts[i], i)
  {
    hide FetchStep, LockStep, RunStep, UnlockStep, Fetch, QuietStep, AcquireStep, ReleaseStep, SignStep, At;
    if Outside(s.phases[i]) && !s.phases[i].NeedMutex? {
      QuietKinds(ts, k, s, t, i);
    }
  }

  lemma {:induction false} QuietKinds(ts: seq<Task>, k: nat, s: System, t: System, i: nat)
    requires |s.phases| == |ts| && i < |ts| && StepOf(ts, k, s, t, i)
    requires Outside(s.phases[i]) && !s.phases[i].NeedMutex?
    ensures QuietStep(s, t, i)
  {
    hide FetchStep, LockStep, RunStep, UnlockStep, Fetch;
  }

  lemma {:induction false} PhaseMoves(ts: seq<Task>, k: nat, s: System, t: System, i: nat)
    requires |s.phases| == |ts| && i < |ts| && StepOf(ts, k, s, t, i)
    ensures |t.phases| == |ts| && t.phases == s.phases[i := t.phases[i]]
  {
    StepKinds(ts, k, s, t, i);
    hide StepOf;
    if Outside(s.phases[i]) {
      hide LockStep, RunStep, UnlockStep;
    } else if s.phases[i].WaitLock? {
      hide FetchStep, RunStep, UnlockStep, QuietStep, Fetch;
    } else {
      hide FetchStep, LockStep, QuietStep, Fetch;
    }
  }

  /** Inside the lock and at its door no counter moves. */
  lemma {:induction false} LockCounters(ts: seq<Task>, k: nat, s: System, t: System, i: nat)
    requires |s.phases| == |ts| && i < |ts| && StepOf(ts, k, s, t, i)
    requires s.phases[i].NeedMutex? || s.phases[i].WaitLock? || s.phases[i].Inside?
    ensures t.slots == s.slots && t.waiting == s.waiting
    ensures |t.phases| == |ts| && Left(ts[i], t.phases[i]) < Left(ts[i], s.phases[i])
    ensures t.phases[i].WaitLock? || t.phases[i].Inside? || (t.phases[i].Releasing? && ts[i].background) || (t.phases[i].Done? && !ts[i].background)
  {
  }

  lemma {:induction false} StepCounters(ts: seq<Task>, k: nat, s: System, t: System, i: nat)
    requires |s.phases| == |ts| && i < |ts| && StepOf(ts, k, s, t, i) && s.slots <= k
    requires !ts[i].background ==> s.phases[i].NeedMutex? || s.phases[i].WaitLock? || s.phases[i].Inside? || s.phases[i].Done?
    ensures t.slots <= k && |t.phases| == |ts|
    ensures t.slots == s.slots - One(HasSlot(ts[i], s.phases[i])) + One(HasSlot(ts[i], t.phases[i]))
    ensures t.waiting == s.waiting - One(Unfinished(ts[i], s.phases[i])) + One(Unfinished(ts[i], t.phases[i]))
    ensures Left(ts[i], t.phases[i]) < Left(ts[i], s.phases[i])
    ensures !ts[i].background ==>
              t.phases[i].NeedMutex? || t.phases[i].WaitLock? || t.phases[i].Inside? || t.phases[i].Done?
  {
    if s.phases[i].NeedMutex? || s.phases[i].WaitLock? || s.phases[i].Inside? {
      LockCounters(ts, k, s, t, i);
      hide StepOf, Left;
    } else {
      hide FetchStep, LockStep, RunStep, UnlockStep, Fetch;
    }
  }

  lemma {:induction false} StepCounted(ts: seq<Task>, k: nat, s: System, t: System, i: nat)
    requires Counted(ts, k, s) && i < |ts| && StepOf(ts, k, s, t, i)
    ensures Counted(ts, k, t)
    ensures Remaining(ts, t.phases) < Remaining(ts, s.phases)
  {
    PhaseMoves(ts, k, s, t, i);
    StepCounters(ts, k, s, t, i);
    CountsUpdate(ts, s.phases, i, t.phases[i]);
    hide StepOf, Left, HasSlot, Unfinished, QuietStep, FetchStep, LockStep, RunStep, UnlockStep, Slots, Waiting, Remaining;
  }

  lemma {:induction false} QuietExclusive(ts: seq<Task>, s: System, t: System, i: nat)
    requires Exclusive(ts, s) && i < |ts| && QuietStep(s, t, i)
    ensures Exclusive(ts, t)
  {
    LockedKept(ts, s, t, i);
  }

  lemma {:induction false} LockedKept(ts: seq<Task>, s: System, t: System, i: nat)
    requires Exclusive(ts, s) && i < |ts| && |t.phases| == |ts| && t.phases == s.phases[i := t.phases[i]] && t.locked == s.locked
    requires s.phases[i].Inside? ==> t.phases[i].Inside? && t.phases[i].mutex == s.phases[i].mutex
    ensures forall m :: m in t.locked ==> exists j :: 0 <= j < |ts| && t.phases[j].Inside? && t.phases[j].mutex == m
  {
    forall m | m in t.locked
      ensures exists j :: 0 <= j < |ts| && t.phases[j].Inside? && t.phases[j].mutex == m
    {
      var j :| 0 <= j < |ts| && s.phases[j].Inside? && s.phases[j].mutex == m;
      assert t.phases[j].Inside? && t.phases[j].mutex == m;
    }
  }

  lemma {:induction false} FetchExclusive(ts: seq<Task>, s: System, t: System, i: nat)
    requires Exclusive(ts, s) && i < |ts| && s.phases[i].NeedMutex? && FetchStep(s, t, ts[i].node, i)
    ensures Exclusive(ts, t)
  {
    LockedKept(ts, s, t, i);
  }

  lemma {:induction false} LockExclusive(ts: seq<Task>, s: System, t: System, i: nat)
    requires Exclusive(ts, s) && i < |ts| && s.phases[i].WaitLock? && LockStep(s, t, ts[i].node, ts[i].start, i)
    ensures Exclusive(ts, t)
  {
    var q := s.phases[i].mutex;
    assert t.mutexes == s.mutexes && t.made == s.made && t.locked == s.locked + {q};
    assert t.phases == s.phases[i := t.phases[i]] && t.phases[i].Inside? && t.phases[i].mutex == q;
    hide LockStep;
    forall m | m in t.locked
      ensures exists j :: 0 <= j < |ts| && t.phases[j].Inside? && t.phases[j].mutex == m
    {
      if m != q {
        var j :| 0 <= j < |ts| && s.phases[j].Inside? && s.phases[j].mutex == m;
        assert t.phases[j].Inside? && t.phases[j].mutex == m;
      }
    }
  }

  lemma {:induction false} RunExclusive(ts: seq<Task>, s: System, t: System, i: nat)
    requires Exclusive(ts, s) && i < |ts| && s.phases[i].Inside? && RunStep(s, t, ts[i], i)
    ensures Exclusive(ts, t)
  {
    LockedKept(ts, s, t, i);
  }

  lemma {:induction false} UnlockExclusive(ts: seq<Task>, s: System, t: System, i: nat)
    requires Exclusive(ts, s) && i < |ts| && s.phases[i].Inside? && UnlockStep(s, t, ts[i], i)
    ensures Exclusive(ts, t)
  {
    forall m | m in t.locked
      ensures exists j :: 0 <= j < |ts| && t.phases[j].Inside? && t.phases[j].mutex == m
    {
      var j :| 0 <= j < |ts| && s.phases[j].Inside? && s.phases[j].mutex == m;
      assert t.phases[j].Inside? && t.phases[j].mutex == m;
    }
  }

  lemma {:induction false} StepExclusive(ts: seq<Task>, k: nat, s: System, t: System, i: nat)
    requires Exclusive(ts, s) && i < |ts| && StepOf(ts, k, s, t, i)
    ensures Exclusive(ts, t)
  {
    StepKinds(ts, k, s, t, i);
    hide StepOf, QuietStep, FetchStep, LockStep, RunStep, UnlockStep;
    if s.phases[i].NeedMutex? {
      FetchExclusive(ts, s, t, i);
    } else if s.phases[i].WaitLock? {
      LockExclusive(ts, s, t, i);
    } else if Outside(s.phases[i]) {
      QuietExclusive(ts, s, t, i);
    } else if RunStep(s, t, ts[i], i) {
      RunExclusive(ts, s, t, i);
    } else {
      UnlockExclusive(ts, s, t, i);
    }
  }

  /** Nobody is inside a node whose mutex is free. */
  lemma {:induction false} FreeMeansEmpty(ts: seq<Task>, s: System, i: nat)
    requires Exclusive(ts, s) && Ordered(ts, s) && i < |ts| && s.phases[i].WaitLock? && s.phases[i].mutex !in s.locked
    ensures forall j :: 0 <= j < |ts| && ts[j].node == ts[i].node ==> !s.phases[j].Inside?
    ensures !Busy(ts, s, ts[i].node)
  {
    assert OrderedNode(ts, s.phases, ts[i].node, OrderOf(s, ts[i].node));
  }

  /** A step that lets nobody in leaves the orders alone. */
  lemma {:induction false} SameOrdered(ts: seq<Task>, s: System, t: System, i: nat, n: string)
    requires |s.phases| == |ts| && OrderedNode(ts, s.phases, n, OrderOf(s, n)) && i < |ts|
    requires |t.phases| == |ts| && t.phases == s.phases[i := t.phases[i]] && OrderOf(t, n) == OrderOf(s, n)
    requires n != ts[i].node || (Entered(t.phases[i]) == Entered(s.phases[i]) && (t.phases[i].Inside? ==> s.phases[i].Inside?))
    ensures OrderedNode(ts, t.phases, n, OrderOf(t, n))
  {
  }

  lemma {:induction false} LockOrdered(ts: seq<Task>, s: System, t: System, i: nat)
    requires |s.phases| == |ts| && i < |ts| && OrderedNode(ts, s.phases, ts[i].node, OrderOf(s, ts[i].node))
    requires |t.phases| == |ts| && t.phases == s.phases[i := t.phases[i]] && !Entered(s.phases[i]) && t.phases[i].Inside?
    requires OrderOf(t, ts[i].node) == OrderOf(s, ts[i].node) + [i]
    requires forall j :: 0 <= j < |ts| && ts[j].node == ts[i].node ==> !s.phases[j].Inside?
    ensures OrderedNode(ts, t.phases, ts[i].node, OrderOf(t, ts[i].node))
  {
  }

  /** How a step moves the stepping task in and out of its node. */
  lemma {:induction false} StepEntry(ts: seq<Task>, k: nat, s: System, t: System, i: nat)
    requires |s.phases| == |ts| && i < |ts| && StepOf(ts, k, s, t, i)
    ensures |t.phases| == |ts|
    ensures if s.phases[i].WaitLock? then !Entered(s.phases[i]) && t.phases[i].Inside?
            else Entered(t.phases[i]) == Entered(s.phases[i]) && (t.phases[i].Inside? ==> s.phases[i].Inside?)
  {
  }

  lemma {:induction false} StepOrdered(ts: seq<Task>, k: nat, s: System, t: System, i: nat)
    requires Exclusive(ts, s) && Ordered(ts, s) && i < |ts| && StepOf(ts, k, s, t, i)
    ensures Ordered(ts, t)
  {
    PhaseMoves(ts, k, s, t, i);
    StepEntry(ts, k, s, t, i);
    if s.phases[i].WaitLock? {
      FreeMeansEmpty(ts, s, i);
    }
    hide StepOf, Exclusive, OrderedNode, Busy, OrderOf;
    forall n
      ensures OrderedNode(ts, t.phases, n, OrderOf(t, n))
    {
      OrderAfter(ts, k, s, t, i, n);
      assert OrderedNode(ts, s.phases, n, OrderOf(s, n));
      if n == ts[i].node && s.phases[i].WaitLock? {
        LockOrdered(ts, s, t, i);
      } else {
        SameOrdered(ts, s, t, i, n);
      }
    }
  }

  lemma {:induction false} OrderAfter(ts: seq<Task>, k: nat, s: System, t: System, i: nat, n: string)
    requires |s.phases| == |ts| && i < |ts| && StepOf(ts, k, s, t, i)
    ensures OrderOf(t, n) == if s.phases[i].WaitLock? && n == ts[i].node then OrderOf(s, n) + [i] else OrderOf(s, n)
  {
  }

  lemma {:induction false} SerialSnoc(ts: seq<Task>, o: seq<nat>, i: nat, x: NodeState)
    requires i < |ts| && forall j :: 0 <= j < |o| ==> o[j] < |ts|
    ensures Serial(ts, o + [i], x) == Run(ts[i], Serial(ts, o, x))
  {
    assert (o + [i])[..|o|] == o;
  }

  /** Nothing happened to the node: same order, same state, same task inside. */
  lemma {:induction false} SameNode(ts: seq<Task>, s: System, t: System, first: map<string, NodeState>, n: string, i: nat)
    requires Ordered(ts, s) && Ordered(ts, t) && n in first && NodeSerial(ts, s, first, n) && i < |ts|
    requires OrderOf(t, n) == OrderOf(s, n) && n in t.nodes && t.nodes[n] == s.nodes[n] && t.phases == s.phases[i := t.phases[i]]
    requires n != ts[i].node || (!s.phases[i].Inside? && !t.phases[i].Inside?)
    ensures NodeSerial(ts, t, first, n)
  {
    assert OrderedNode(ts, s.phases, n, OrderOf(s, n));
    hide Serial, RunTo, Ordered;
  }

  lemma {:induction false} LockNode(ts: seq<Task>, s: System, t: System, first: map<string, NodeState>, i: nat)
    requires Exclusive(ts, s) && Ordered(ts, s) && Ordered(ts, t) && i < |ts| && s.phases[i].WaitLock? && LockStep(s, t, ts[i].node, ts[i].start, i)
    requires ts[i].node in first && NodeSerial(ts, s, first, ts[i].node)
    ensures NodeSerial(ts, t, first, ts[i].node)
  {
    var n := ts[i].node;
    var o := OrderOf(s, n);
    FreeMeansEmpty(ts, s, i);
    assert OrderOf(t, n) == o + [i] && t.nodes == s.nodes && t.phases[i] == Inside(s.phases[i].mutex, 0, ts[i].start);
    hide LockStep, Exclusive;
    assert (o + [i])[..|o|] == o;
  }

  lemma {:induction false} RunNode(ts: seq<Task>, s: System, t: System, first: map<string, NodeState>, i: nat)
    requires Ordered(ts, s) && Ordered(ts, t) && i < |ts| && s.phases[i].Inside? && RunStep(s, t, ts[i], i)
    requires ts[i].node in first && NodeSerial(ts, s, first, ts[i].node)
    ensures NodeSerial(ts, t, first, ts[i].node)
  {
    var n := ts[i].node;
    var o := OrderOf(s, n);
    assert OrderedNode(ts, s.phases, n, o);
    assert OrderOf(t, n) == o && o[|o| - 1] == i;
    var x := Serial(ts, o[..|o| - 1], first[n]);
    var p := s.phases[i];
    assert RunTo(ts[i], x, p.pc + 1) == ts[i].commands[p.pc](s.nodes[n], p.vars);
    hide Serial, RunTo, Ordered, OrderedNode;
  }

  lemma {:induction false} UnlockNode(ts: seq<Task>, s: System, t: System, first: map<string, NodeState>, i: nat)
    requires Ordered(ts, s) && Ordered(ts, t) && i < |ts| && s.phases[i].Inside? && UnlockStep(s, t, ts[i], i)
    requires ts[i].node in first && NodeSerial(ts, s, first, ts[i].node)
    ensures NodeSerial(ts, t, first, ts[i].node)
  {
    var n := ts[i].node;
    var o := OrderOf(s, n);
    assert OrderedNode(ts, s.phases, n, o);
    assert OrderOf(t, n) == o && o[|o| - 1] == i && o == o[..|o| - 1] + [i];
    SerialSnoc(ts, o[..|o| - 1], i, first[n]);
    hide Serial, RunTo, Ordered, OrderedNode;
  }

  /** A task that is not inside its node, and is not getting in, does not touch it. */
  lemma {:induction false} NodesKept(ts: seq<Task>, k: nat, s: System, t: System, i: nat, n: string)
    requires |s.phases| == |ts| && i < |ts| && StepOf(ts, k, s, t, i) && n in s.nodes
    ensures n in t.nodes && (n != ts[i].node || !s.phases[i].Inside? ==> t.nodes[n] == s.nodes[n])
  {
  }

  lemma {:induction false} StepNode(ts: seq<Task>, k: nat, s: System, t: System, first: map<string, NodeState>, i: nat, n: string)
    requires Exclusive(ts, s) && Ordered(ts, s) && Ordered(ts, t) && i < |ts| && StepOf(ts, k, s, t, i)
    requires n in first && NodeSerial(ts, s, first, n)
    ensures NodeSerial(ts, t, first, n)
  {
    StepKinds(ts, k, s, t, i);
    PhaseMoves(ts, k, s, t, i);
    OrderAfter(ts, k, s, t, i, n);
    NodesKept(ts, k, s, t, i, n);
    StepEntry(ts, k, s, t, i);
    hide StepOf, Exclusive, Ordered, NodeSerial, Entered, RunStep, UnlockStep, LockStep, FetchStep, QuietStep, OrderedNode;
    if n != ts[i].node || Outside(s.phases[i]) {
      SameNode(ts, s, t, first, n, i);
    } else if s.phases[i].WaitLock? {
      LockNode(ts, s, t, first, i);
    } else if RunStep(s, t, ts[i], i) {
      RunNode(ts, s, t, first, i);
    } else {
      UnlockNode(ts, s, t, first, i);
    }
  }

  /** Every step of every task keeps the invariant, and the work left shrinks. */
  lemma {:induction false} StepInv(ts: seq<Task>, k: nat, s: System, t: System, first: map<string, NodeState>)
    requires Inv(ts, k, s, first) && Known(ts, first) && Step(ts, k, s, t)
    ensures Inv(ts, k, t, first) && Remaining(ts, t.phases) < Remaining(ts, s.phases)
  {
    var i :| 0 <= i < |ts| && StepOf(ts, k, s, t, i);
    StepCounted(ts, k, s, t, i);
    StepExclusive(ts, k, s, t, i);
    StepOrdered(ts, k, s, t, i);
    hide StepOf, Counted, Exclusive, Ordered, NodeSerial;
    forall n | n in first
      ensures NodeSerial(ts, t, first, n)
    {
      StepNode(ts, k, s, t, first, i, n);
    }
  }

  // ---- Consequences ----

  /** Two pushes are never inside the same node. */
  lemma {:induction false} MutualExclusion(ts: seq<Task>, k: nat, s: System, first: map<string, NodeState>, i: nat, j: nat)
    requires Inv(ts, k, s, first) && i < |ts| && j < |ts| && i != j && s.phases[i].Inside? && s.phases[j].Inside?
    ensures ts[i].node != ts[j].node
  {
  }

  /** At most the semaphore's capacity of background deploys runs at once. */
  lemma {:induction false} RunningBounded(ts: seq<Task>, k: nat, s: System, first: map<string, NodeState>, running: set<nat>)
    requires Inv(ts, k, s, first) && forall i :: i in running ==> i < |ts| && HasSlot(ts[i], s.phases[i])
    ensures |running| <= k
  {
    SlotsCover(ts, s.phases, running);
  }

  lemma {:induction false} SlotsCover(ts: seq<Task>, ps: seq<Phase>, running: set<nat>)
    requires |ps| <= |ts| && forall i :: i in running ==> i < |ps| && HasSlot(ts[i], ps[i])
    ensures |running| <= Slots(ts, ps)
  {
    if ps == [] {
      assert running == {};
    } else {
      var last := |ps| - 1;
      SlotsCover(ts, ps[..last], running - {last});
    }
  }

  predicate AllDone(s: System) {
    forall i :: 0 <= i < |s.phases| ==> s.phases[i].Done?
  }

  ghost predicate CanStep(ts: seq<Task>, k: nat, s: System, i: nat)
    requires |s.phases| == |ts| && i < |ts|
  {
    exists t :: StepOf(ts, k, s, t, i)
  }

  /** A task in a non-blocking phase can always step. */
  lemma {:induction false} FreeStep(ts: seq<Task>, k: nat, s: System, first: map<string, NodeState>, i: nat)
    requires Inv(ts, k, s, first) && Known(ts, first) && i < |ts|
    requires !s.phases[i].WaitSlot? && !s.phases[i].WaitLock? && !s.phases[i].Done?
    ensures ts[i].node in s.nodes && (s.phases[i].Releasing? ==> s.slots > 0) && (s.phases[i].Signing? ==> s.waiting > 0)
    ensures StepOf(ts, k, s, After(ts, s, i), i)
    ensures CanStep(ts, k, s, i)
  {
    hide StepOf, Exclusive, Serial, RunTo, Slots, Waiting;
    var n := ts[i].node;
    assert NodeSerial(ts, s, first, n);
    var p := s.phases[i];
    if p.Releasing? {
      SomeSlot(ts, s.phases, i);
    } else if p.Signing? {
      SomeWaiting(ts, s.phases, i);
    }
    AfterSteps(ts, k, s, i);
  }

  lemma {:induction false} AfterSteps(ts: seq<Task>, k: nat, s: System, i: nat)
    requires |s.phases| == |ts| && i < |ts| && ts[i].node in s.nodes
    requires (s.phases[i].Releasing? ==> s.slots > 0) && (s.phases[i].Signing? ==> s.waiting > 0)
    requires !s.phases[i].WaitSlot? && !s.phases[i].WaitLock? && !s.phases[i].Done?
    ensures StepOf(ts, k, s, After(ts, s, i), i)
  {
  }

  lemma {:induction false} LockCan(ts: seq<Task>, k: nat, s: System, i: nat)
    requires |s.phases| == |ts| && i < |ts| && s.phases[i].WaitLock? && s.phases[i].mutex !in s.locked
    ensures CanStep(ts, k, s, i)
  {
    var m, n := s.phases[i].mutex, ts[i].node;
    var t := At(s.(locked := s.locked + {m}, order := s.order[n := OrderOf(s, n) + [i]]), i, Inside(m, 0, ts[i].start));
    assert StepOf(ts, k, s, t, i);
  }

  lemma {:induction false} SlotCan(ts: seq<Task>, k: nat, s: System, i: nat)
    requires |s.phases| == |ts| && i < |ts| && s.phases[i].WaitSlot? && s.slots < k
    ensures CanStep(ts, k, s, i)
  {
    assert StepOf(ts, k, s, At(s.(slots := s.slots + 1), i, Holding), i);
  }

  /** The state a task in a non-blocking phase steps to. */
  ghost function After(ts: seq<Task>, s: System, i: nat): System
    requires |s.phases| == |ts| && i < |ts| && ts[i].node in s.nodes
    requires (s.phases[i].Releasing? ==> s.slots > 0) && (s.phases[i].Signing? ==> s.waiting > 0)
  {
    var n := ts[i].node;
    match s.phases[i]
    case Idle => At(s.(waiting := s.waiting + 1), i, WaitSlot)
    case Holding => At(s, i, NeedMutex)
    case NeedMutex => At(Fetch(s, n), i, WaitLock(Fetch(s, n).mutexes[n]))
    case Inside(m, pc, vars) =>
      if pc < |ts[i].commands| then
        var r := ts[i].commands[pc](s.nodes[n], vars);
        At(s.(nodes := s.nodes[n := r.0]), i, Inside(m, pc + 1, r.1))
      else At(s.(locked := s.locked - {m}), i, if ts[i].background then Releasing(true) else Done(true))
    case Releasing(p) => At(s.(slots := s.slots - 1), i, Signing(p))
    case Signing(p) => At(s.(waiting := s.waiting - 1), i, Done(p))
    case _ => s
  }

  /** Some task can always step until all have finished. */
  lemma {:induction false} Progress(ts: seq<Task>, k: nat, s: System, first: map<string, NodeState>)
    requires Inv(ts, k, s, first) && Known(ts, first) && k > 0 && !AllDone(s)
    ensures exists t :: Step(ts, k, s, t)
  {
    var i := Runnable(ts, k, s, first);
    var t :| StepOf(ts, k, s, t, i);
    assert Step(ts, k, s, t);
  }

  lemma {:induction false} Runnable(ts: seq<Task>, k: nat, s: System, first: map<string, NodeState>) returns (i: nat)
    requires Inv(ts, k, s, first) && Known(ts, first) && k > 0 && !AllDone(s)
    ensures i < |ts| && CanStep(ts, k, s, i)
  {
    hide CanStep, NodeSerial, Ordered, Slots, Waiting;
    if j :| 0 <= j < |ts| && !s.phases[j].WaitSlot? && !s.phases[j].WaitLock? && !s.phases[j].Done? {
      FreeStep(ts, k, s, first, j);
      i := j;
    } else if j :| 0 <= j < |ts| && s.phases[j].WaitLock? {
      LockCan(ts, k, s, j);
      i := j;
    } else {
      var j :| 0 <= j < |ts| && s.phases[j].WaitSlot?;
      NoSlotsHeld(ts, s.phases);
      SlotCan(ts, k, s, j);
      i := j;
    }
  }

  lemma {:induction false} NoSlotsHeld(ts: seq<Task>, ps: seq<Phase>)
    requires |ps| == |ts| && forall i :: 0 <= i < |ps| ==> ps[i].WaitSlot? || ps[i].Done?
    ensures Slots(ts, ps) == 0
  {
    NoSlots(ts, ps);
  }

  // ---- Whole runs ----

  ghost predicate IsRun(ts: seq<Task>, k: nat, run: seq<System>, first: map<string, NodeState>) {
    && run != [] && (forall i :: 0 <= i < |run| ==> |run[i].phases| == |ts|)
    && Init(ts, run[0], first)
    && (forall i :: 0 <= i < |run| - 1 ==> Step(ts, k, run[i], run[i + 1]))
  }

  lemma {:induction false} RunInv(ts: seq<Task>, k: nat, run: seq<System>, first: map<string, NodeState>, i: nat)
    requires IsRun(ts, k, run, first) && Known(ts, first) && i < |run|
    ensures Inv(ts, k, run[i], first)
    ensures Remaining(ts, run[i].phases) + i <= Remaining(ts, run[0].phases)
  {
    if i == 0 {
      InitInv(ts, k, run[0], first);
    } else {
      RunInv(ts, k, run, first, i - 1);
      assert Step(ts, k, run[i - 1], run[i - 1 + 1]);
      StepInv(ts, k, run[i - 1], run[i], first);
    }
  }

  /** What a finished run leaves on a node: its pushes, each once, one after the other. */
  ghost predicate Serialized(ts: seq<Task>, s: System, first: map<string, NodeState>, n: string)
    requires n in first
  {
    var o := OrderOf(s, n);
    && (forall j :: 0 <= j < |o| ==> o[j] < |ts|)
    && (forall i, j :: 0 <= i < j < |o| ==> o[i] != o[j])
    && (forall i :: 0 <= i < |ts| && i < |s.phases| ==> (i in o <==> ts[i].node == n && Entered(s.phases[i])))
    && n in s.nodes && s.nodes[n] == Serial(ts, o, first[n])
  }

  /** Every run stops after a bounded number of steps. When nothing can step any more, all tasks
      have finished, the semaphore and the WaitGroup are back at zero, and each node holds what
      running its pushes serially in lock order gives. */
  lemma {:induction false} RunsSerialize(ts: seq<Task>, k: nat, run: seq<System>, first: map<string, NodeState>)
    requires IsRun(ts, k, run, first) && Known(ts, first) && k > 0
    ensures |run| - 1 <= Remaining(ts, run[0].phases)
    ensures var last := run[|run| - 1];
            (!exists t :: Step(ts, k, last, t)) ==>
              && AllDone(last) && last.slots == 0 && last.waiting == 0
              && forall n :: n in first ==> Serialized(ts, last, first, n)
  {
    var last := run[|run| - 1];
    RunInv(ts, k, run, first, |run| - 1);
    if !exists t :: Step(ts, k, last, t) {
      if !AllDone(last) {
        Progress(ts, k, last, first);
        assert false;
      }
      NoSlots(ts, last.phases);
      NoneWaiting(ts, last.phases);
      forall n | n in first
        ensures Serialized(ts, last, first, n)
      {
        FinishedNode(ts, k, last, first, n);
      }
    }
  }

  // ---- A run in which everybody pushes ----

  predicate GaveUp(p: Phase) {
    (p.Releasing? || p.Signing? || p.Done?) && !p.pushed
  }

  predicate NobodyGaveUp(s: System) {
    forall i :: 0 <= i < |s.phases| ==> !GaveUp(s.phases[i])
  }

  lemma {:induction false} PhaseStays(ts: seq<Task>, s: System, i: nat)
    requires |s.phases| == |ts| && i < |ts| && ts[i].node in s.nodes
    requires (s.phases[i].Releasing? ==> s.slots > 0) && (s.phases[i].Signing? ==> s.waiting > 0)
    requires NobodyGaveUp(s)
    ensures NobodyGaveUp(After(ts, s, i))
  {
  }

  /** Some task can step without giving its push up. */
  lemma {:induction false} KeenStep(ts: seq<Task>, k: nat, s: System, first: map<string, NodeState>) returns (t: System)
    requires Inv(ts, k, s, first) && Known(ts, first) && k > 0 && !AllDone(s) && NobodyGaveUp(s)
    ensures Step(ts, k, s, t) && NobodyGaveUp(t)
  {
    hide NodeSerial, Ordered, Slots, Waiting;
    if j :| 0 <= j < |ts| && !s.phases[j].WaitSlot? && !s.phases[j].WaitLock? && !s.phases[j].Done? {
      FreeStep(ts, k, s, first, j);
      PhaseStays(ts, s, j);
      hide StepOf, After, Exclusive;
      t := After(ts, s, j);
      assert Step(ts, k, s, t);
    } else if j :| 0 <= j < |ts| && s.phases[j].WaitLock? {
      var m, n := s.phases[j].mutex, ts[j].node;
      t := At(s.(locked := s.locked + {m}, order := s.order[n := OrderOf(s, n) + [j]]), j, Inside(m, 0, ts[j].start));
      assert StepOf(ts, k, s, t, j);
      hide StepOf, Exclusive;
      assert Step(ts, k, s, t);
    } else {
      var j :| 0 <= j < |ts| && s.phases[j].WaitSlot?;
      NoSlotsHeld(ts, s.phases);
      t := At(s.(slots := s.slots + 1), j, Holding);
      assert StepOf(ts, k, s, t, j);
      hide StepOf, Exclusive;
      assert Step(ts, k, s, t);
    }
  }

  ghost predicate Steps(ts: seq<Task>, k: nat, run: seq<System>) {
    && run != [] && (forall i :: 0 <= i < |run| ==> |run[i].phases| == |ts|)
    && forall i :: 0 <= i < |run| - 1 ==> Step(ts, k, run[i], run[i + 1])
  }

  lemma {:induction false} KeenRun(ts: seq<Task>, k: nat, s: System, first: map<string, NodeState>) returns (run: seq<System>)
    requires Inv(ts, k, s, first) && Known(ts, first) && k > 0 && NobodyGaveUp(s)
    ensures Steps(ts, k, run) && run[0] == s && AllDone(run[|run| - 1]) && NobodyGaveUp(run[|run| - 1])
    decreases Remaining(ts, s.phases)
  {
    SameLength(ts, k, s, first);
    if AllDone(s) {
      run := [s];
    } else {
      hide *;
      var t := KeenStep(ts, k, s, first);
      StepInv(ts, k, s, t, first);
      var rest := KeenRun(ts, k, t, first);
      run := [s] + rest;
      StepsCons(ts, k, s, rest);
    }
  }

  lemma {:induction false} StepsCons(ts: seq<Task>, k: nat, s: System, rest: seq<System>)
    requires |s.phases| == |ts| && Steps(ts, k, rest) && Step(ts, k, s, rest[0])
    ensures rest != [] && Steps(ts, k, [s] + rest) && ([s] + rest)[|rest|] == rest[|rest| - 1]
  {
    var run := [s] + rest;
    hide Step;
    forall i | 0 <= i < |run| - 1
      ensures Step(ts, k, run[i], run[i + 1])
    {
      if i > 0 {
        assert Step(ts, k, rest[i - 1], rest[i - 1 + 1]);
      }
    }
  }

  lemma {:induction false} SameLength(ts: seq<Task>, k: nat, s: System, first: map<string, NodeState>)
    requires Inv(ts, k, s, first)
    ensures |s.phases| == |ts|
  {
  }

  predicate AllPushed(s: System) {
    forall i :: 0 <= i < |s.phases| ==> s.phases[i] == Done(true)
  }

  /** However many tasks there are, and however small the semaphore, there is a run in which every
      single one of them pushes. */
  lemma {:induction false} EverybodyCanPush(ts: seq<Task>, k: nat, s: System, first: map<string, NodeState>) returns (run: seq<System>)
    requires Init(ts, s, first) && Known(ts, first) && k > 0
    ensures IsRun(ts, k, run, first) && run[0] == s
    ensures AllPushed(run[|run| - 1])
  {
    InitInv(ts, k, s, first);
    run := KeenRun(ts, k, s, first);
  }

  lemma {:induction false} NoneWaiting(ts: seq<Task>, ps: seq<Phase>)
    requires |ps| <= |ts| && forall i :: 0 <= i < |ps| ==> !Unfinished(ts[i], ps[i])
    ensures Waiting(ts, ps) == 0
  {
    if ps != [] {
      NoneWaiting(ts, ps[..|ps| - 1]);
    }
  }

  lemma {:induction false} FinishedNode(ts: seq<Task>, k: nat, s: System, first: map<string, NodeState>, n: string)
    requires Inv(ts, k, s, first) && AllDone(s) && n in first
    ensures Serialized(ts, s, first, n)
  {
    assert NodeSerial(ts, s, first, n);
    var o := OrderOf(s, n);
    assert OrderedNode(ts, s.phases, n, o);
    forall i | 0 <= i < |ts|
      ensures i in o <==> ts[i].node == n && Entered(s.phases[i])
    {
      if i in o {
        var j :| 0 <= j < |o| && o[j] == i;
        assert ts[o[j]].node == n;
      }
    }
  }
}

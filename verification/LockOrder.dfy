/** The lock-order detector, as steps of threads that interleave. It records in which order locks are taken
    and reports the first time a pair of locks is seen in both orders. */
module LockOrder {
  import SetOrder

  type Thread = int
  type Lock = int
  type Orders = set<(Lock, Lock)>

  /* ---- recording ---- */

  /** The shared relation, and whether a report has been issued. */
  datatype Record = Record(orders: Orders, reported: bool)

  /** Records that c is taken after each lock of the stack from place i on, up to c itself; stops when it
      reports a pair that is known in the other order. */
  function Note(r: Record, stack: seq<Lock>, c: Lock, i: nat): Record
    requires i <= |stack|
    decreases |stack| - i
  {
    if i == |stack| || stack[i] == c then r
    else if (stack[i], c) in r.orders then Note(r, stack, c, i + 1)
    else
      var orders := r.orders + {(stack[i], c)};
      if (c, stack[i]) in orders then Record(orders, true)
      else Note(Record(orders, r.reported), stack, c, i + 1)
  }

  /** The locks of the stack before the first occurrence of c. */
  ghost predicate BeforeFirst(stack: seq<Lock>, c: Lock, i: int) {
    0 <= i < |stack| && forall j :: 0 <= j <= i ==> stack[j] != c
  }

  /** A pair known in both orders has been reported. */
  ghost predicate BothReported(r: Record) {
    forall a, b :: (a, b) in r.orders && (b, a) in r.orders ==> r.reported
  }

  lemma {:induction false} NoteKeeps(r: Record, stack: seq<Lock>, c: Lock, i: nat)
    requires i <= |stack| && BothReported(r)
    ensures var n := Note(r, stack, c, i);
      && BothReported(n) && r.orders <= n.orders && (r.reported ==> n.reported)
      && (n.reported || forall k :: i <= k && BeforeFirst(stack, c, k) ==> (stack[k], c) in n.orders)
    decreases |stack| - i
  {
    if i < |stack| && stack[i] != c {
      var orders := r.orders + {(stack[i], c)};
      if (stack[i], c) in r.orders {
        NoteKeeps(r, stack, c, i + 1);
      } else if (c, stack[i]) !in orders {
        assert BothReported(Record(orders, r.reported));
        NoteKeeps(Record(orders, r.reported), stack, c, i + 1);
      }
    } else if i < |stack| {
      forall k | i <= k ensures !BeforeFirst(stack, c, k) { }
    }
  }

  /** Only pairs just taken are added, and only a pair now known in both orders is reported. */
  lemma {:induction false} NoteAdds(r: Record, stack: seq<Lock>, c: Lock, i: nat)
    requires i <= |stack| && forall j :: 0 <= j < i ==> stack[j] != c
    ensures var n := Note(r, stack, c, i);
      && (forall a, b :: (a, b) in n.orders ==> (a, b) in r.orders || (b == c && Shows(stack, a, c)))
      && (n.reported ==> r.reported || exists a, b :: (a, b) in n.orders && (b, a) in n.orders)
    decreases |stack| - i
  {
    hide Shows;
    if i < |stack| && stack[i] != c {
      var orders := r.orders + {(stack[i], c)};
      ShowsAt(stack, c, i);
      if (stack[i], c) in r.orders {
        NoteAdds(r, stack, c, i + 1);
      } else if (c, stack[i]) !in orders {
        NoteAdds(Record(orders, r.reported), stack, c, i + 1);
      }
    }
  }

  lemma ShowsAt(stack: seq<Lock>, c: Lock, i: nat)
    requires i < |stack| && forall j :: 0 <= j <= i ==> stack[j] != c
    ensures Shows(stack, stack[i], c)
  {
    assert BeforeFirst(stack, c, i);
  }

  /** The shared relation as the threads use it, guarded by one mutex. */
  class Detector {
    var lockorders: Orders
    var reports: nat

    constructor ()
      ensures lockorders == {} && reports == 0
    {
      lockorders, reports := {}, 0;
    }

    function State(): Record
      reads this
    {
      Record(lockorders, reports > 0)
    }

    /** Pushes the lock and, unless it is only tried, records what it is taken after. */
    method PushLock(lockstack0: seq<Lock>, c: Lock, fTry: bool) returns (lockstack: seq<Lock>)
      modifies this
      ensures lockstack == lockstack0 + [c]
      ensures State() == if fTry then old(State()) else Note(old(State()), lockstack, c, 0)
      ensures reports <= old(reports) + 1
    {
      lockstack := lockstack0 + [c];
      if !fTry {
        var i := 0;
        while i < |lockstack|
          invariant 0 <= i <= |lockstack| && reports == old(reports)
          invariant Note(State(), lockstack, c, i) == Note(old(State()), lockstack, c, 0)
        {
          if lockstack[i] == c { break; }
          var p1 := (lockstack[i], c);
          if p1 !in lockorders {
            lockorders := lockorders + {p1};
            var p2 := (c, lockstack[i]);
            if p2 in lockorders {
              reports := reports + 1;
              break;
            }
          }
          i := i + 1;
        }
      }
    }

    method PopLock(lockstack0: seq<Lock>) returns (lockstack: seq<Lock>)
      requires lockstack0 != []
      ensures lockstack == lockstack0[..|lockstack0| - 1]
    {
      lockstack := lockstack0[..|lockstack0| - 1];
    }

    /** Tries to get the lock, which is free or not, unless it is already owned. Nothing is recorded, and a lock
        not got leaves no trace on the stack. */
    method TryEnter(lockstack0: seq<Lock>, c: Lock, owned0: bool, free: bool)
      returns (lockstack: seq<Lock>, owned: bool)
      modifies this
      ensures owned == (owned0 || free)
      ensures lockstack == if !owned0 && free then lockstack0 + [c] else lockstack0
      ensures State() == old(State())
    {
      lockstack, owned := lockstack0, owned0;
      if !owned {
        lockstack := PushLock(lockstack, c, true);
        owned := free;
        if !owned { lockstack := PopLock(lockstack); }
      }
    }
  }

  /* ---- threads ---- */

  /** What a thread is about to do: nothing in particular; get a lock it has recorded, waiting if it must;
      try to get one; take off its stack the lock it has released; release the lock it has taken off. */
  datatype Phase = Idle | Entering(c: Lock) | Trying(c: Lock) | Popping | Unlocking(k: int)

  /** The stack the detector keeps for the thread, and the locks it really holds, in the order it got them;
      a lock held twice is listed twice. */
  datatype Local = Local(stack: seq<Lock>, held: seq<Lock>, phase: Phase)

  datatype System = System(threads: map<Thread, Local>, record: Record)

  datatype Event =
    | Enter(t: Thread, c: Lock)            // records the lock
    | Acquire(t: Thread)                   // gets the lock it waits for
    | TryEnter(t: Thread, c: Lock)         // pushes the lock without recording pairs
    | TryLock(t: Thread)                   // gets the lock, or gives up and takes it off the stack
    | Unlock(t: Thread, k: int)            // releases the lock at place k, to take it off the stack next
    | Pop(t: Thread)                       // takes the last lock off the stack
    | LeaveFirst(t: Thread, k: int)        // takes the last lock off the stack, to release the one at k next
    | UnlockAfter(t: Thread)               // releases that one

  function Start(threads: set<Thread>): System {
    System(map t | t in threads :: Local([], [], Idle), Record({}, false))
  }

  ghost predicate HeldBy(s: System, t: Thread, c: Lock) { t in s.threads && c in s.threads[t].held }

  ghost predicate HeldByOther(s: System, t: Thread, c: Lock) { exists u :: u != t && HeldBy(s, u, c) }

  function Drop(s: seq<Lock>, k: int): seq<Lock>
    requires 0 <= k < |s|
  {
    s[..k] + s[k + 1..]
  }

  ghost predicate Enabled(s: System, e: Event) {
    e.t in s.threads && var l := s.threads[e.t];
    match e
    case Enter(_, _) => l.phase.Idle?
    case Acquire(_) => l.phase.Entering? && !HeldByOther(s, e.t, l.phase.c)
    case TryEnter(_, _) => l.phase.Idle?
    case TryLock(_) => l.phase.Trying? && l.stack != []
    case Unlock(_, k) => l.phase.Idle? && 0 <= k < |l.held|
    case Pop(_) => l.phase.Popping? && l.stack != []
    case LeaveFirst(_, k) => l.phase.Idle? && 0 <= k < |l.held| && l.stack != []
    case UnlockAfter(_) => l.phase.Unlocking? && 0 <= l.phase.k < |l.held|
  }

  ghost function Local'(s: System, e: Event): Local
    requires Enabled(s, e)
  {
    var l := s.threads[e.t];
    match e
    case Enter(_, c) => Local(l.stack + [c], l.held, Entering(c))
    case Acquire(_) => Local(l.stack, l.held + [l.phase.c], Idle)
    case TryEnter(_, c) => Local(l.stack + [c], l.held, Trying(c))
    case TryLock(_) =>
      if HeldByOther(s, e.t, l.phase.c) then Local(l.stack[..|l.stack| - 1], l.held, Idle)
      else Local(l.stack, l.held + [l.phase.c], Idle)
    case Unlock(_, k) => Local(l.stack, Drop(l.held, k), Popping)
    case Pop(_) => Local(l.stack[..|l.stack| - 1], l.held, Idle)
    case LeaveFirst(_, k) => Local(l.stack[..|l.stack| - 1], l.held, Unlocking(k))
    case UnlockAfter(_) => Local(l.stack, Drop(l.held, l.phase.k), Idle)
  }

  ghost function Next(s: System, e: Event): System
    requires Enabled(s, e)
  {
    var l := Local'(s, e);
    System(s.threads[e.t := l], if e.Enter? then Note(s.record, l.stack, e.c, 0) else s.record)
  }

  /** Locks are released last in, first out, as scoped locks are. */
  predicate Nested(s: System, e: Event)
    requires e.t in s.threads
  {
    (e.Unlock? || e.LeaveFirst?) ==> e.k == |s.threads[e.t].held| - 1
  }

  ghost predicate Reaches(s: System, es: seq<Event>, nested: bool)
    decreases |es|
  {
    es == [] || (Enabled(s, es[0]) && (nested ==> Nested(s, es[0])) && Reaches(Next(s, es[0]), es[1..], nested))
  }

  ghost function After(s: System, es: seq<Event>): System
    requires Reaches(s, es, false)
    decreases |es|
  {
    if es == [] then s else After(Next(s, es[0]), es[1..])
  }

  /* ---- what every run keeps ---- */

  /** The stack is what the thread holds, give or take the lock it is about to get or to let go. */
  ghost predicate StackRight(l: Local) {
    match l.phase
    case Idle => l.stack == l.held
    case Entering(c) => l.stack == l.held + [c]
    case Trying(c) => l.stack == l.held + [c]
    case Popping => l.stack != [] && l.stack[..|l.stack| - 1] == l.held
    case Unlocking(k) => l.held != [] && k == |l.held| - 1 && l.held[..k] == l.stack
  }

  /** A thread that is getting a lock has been recorded as taking it after each lock it holds. */
  ghost predicate Recorded(l: Local, r: Record) {
    l.phase.Entering? && !r.reported ==> forall i :: BeforeFirst(l.stack, l.phase.c, i) ==>
      (l.stack[i], l.phase.c) in r.orders
  }

  ghost predicate Inv(s: System) {
    && BothReported(s.record)
    && (forall t :: t in s.threads ==> StackRight(s.threads[t]) && Recorded(s.threads[t], s.record))
    && forall t, u, c :: HeldBy(s, t, c) && HeldBy(s, u, c) ==> t == u
  }

  lemma DropLast(s: seq<Lock>)
    requires s != []
    ensures Drop(s, |s| - 1) == s[..|s| - 1]
  {
  }

  lemma LocalKeeps(s: System, e: Event)
    requires Inv(s) && Enabled(s, e) && Nested(s, e)
    ensures StackRight(Next(s, e).threads[e.t]) && Recorded(Next(s, e).threads[e.t], Next(s, e).record)
  {
    var l := s.threads[e.t];
    if l.held != [] { DropLast(l.held); }
    if e.Enter? { NoteKeeps(s.record, l.stack + [e.c], e.c, 0); }
  }

  /** Nobody gets a lock another thread holds. */
  lemma ExclusionKeeps(s: System, e: Event, t: Thread, u: Thread, c: Lock)
    requires Inv(s) && Enabled(s, e) && HeldBy(Next(s, e), t, c) && HeldBy(Next(s, e), u, c)
    ensures t == u
  {
    HeldGrows(s, e, t, c);
    HeldGrows(s, e, u, c);
  }

  lemma HeldGrows(s: System, e: Event, t: Thread, c: Lock)
    requires Enabled(s, e) && HeldBy(Next(s, e), t, c)
    ensures HeldBy(s, t, c) || (t == e.t && !HeldByOther(s, t, c))
  {
    if t == e.t {
      var l, l' := s.threads[t], Next(s, e).threads[t];
      var i :| 0 <= i < |l'.held| && l'.held[i] == c;
    }
  }

  lemma StepKeeps(s: System, e: Event)
    requires Inv(s) && Enabled(s, e) && Nested(s, e)
    ensures Inv(Next(s, e)) && (s.record.reported ==> Next(s, e).record.reported)
  {
    hide BothReported, StackRight, Recorded, HeldBy, HeldByOther, Note, Local', Enabled;
    var n := Next(s, e);
    if e.Enter? { NoteKeeps(s.record, n.threads[e.t].stack, e.c, 0); }
    forall t | t in n.threads ensures StackRight(n.threads[t]) && Recorded(n.threads[t], n.record) {
      if t == e.t { LocalKeeps(s, e); } else { StillRecorded(s.threads[t], s.record, n.record); }
    }
    forall t, u, c | HeldBy(n, t, c) && HeldBy(n, u, c) ensures t == u { ExclusionKeeps(s, e, t, u, c); }
  }

  lemma StillRecorded(l: Local, r: Record, n: Record)
    requires Recorded(l, r) && r.orders <= n.orders && (r.reported ==> n.reported)
    ensures Recorded(l, n)
  {
  }

  lemma StartInv(threads: set<Thread>)
    ensures Inv(Start(threads))
  {
  }

  lemma {:induction false} RunKeeps(s: System, es: seq<Event>)
    requires Inv(s) && Reaches(s, es, true)
    ensures Reaches(s, es, false) && Inv(After(s, es))
    decreases |es|
  {
    hide Inv, Enabled, Next, Nested;
    if es != [] {
      StepKeeps(s, es[0]);
      RunKeeps(Next(s, es[0]), es[1..]);
    }
  }

  /* ---- the promise ---- */

  /** Each of the two threads holds the lock the other one is waiting for. */
  ghost predicate Deadlocked(s: System, t: Thread, u: Thread) {
    && t != u && t in s.threads && u in s.threads
    && s.threads[t].phase.Entering? && s.threads[u].phase.Entering?
    && HeldBy(s, u, s.threads[t].phase.c) && HeldBy(s, t, s.threads[u].phase.c)
  }

  /** The stack shows lock a before the first place of lock c. */
  ghost predicate Shows(stack: seq<Lock>, a: Lock, c: Lock) { exists i :: BeforeFirst(stack, c, i) && stack[i] == a }

  /** What every run keeps, in whatever order locks are released. */
  ghost predicate Records(s: System) {
    BothReported(s.record) && forall t :: t in s.threads ==> Recorded(s.threads[t], s.record)
  }

  lemma StepRecords(s: System, e: Event)
    requires Records(s) && Enabled(s, e)
    ensures Records(Next(s, e)) && (s.record.reported ==> Next(s, e).record.reported)
  {
    hide BothReported, Recorded, HeldBy, HeldByOther, Note, Local', Enabled;
    var n := Next(s, e);
    if e.Enter? { NoteKeeps(s.record, n.threads[e.t].stack, e.c, 0); }
    forall t | t in n.threads ensures Recorded(n.threads[t], n.record) {
      if t == e.t { EntererRecorded(s, e); } else { StillRecorded(s.threads[t], s.record, n.record); }
    }
  }

  lemma EntererRecorded(s: System, e: Event)
    requires Records(s) && Enabled(s, e)
    ensures Recorded(Next(s, e).threads[e.t], Next(s, e).record)
  {
    if e.Enter? { NoteKeeps(s.record, s.threads[e.t].stack + [e.c], e.c, 0); }
  }

  lemma {:induction false} RunRecords(s: System, es: seq<Event>)
    requires Records(s) && Reaches(s, es, false)
    ensures Records(After(s, es))
    decreases |es|
  {
    hide Records, Enabled, Next;
    if es != [] {
      StepRecords(s, es[0]);
      RunRecords(Next(s, es[0]), es[1..]);
    }
  }

  /** At some step of the run a thread goes to get lock c while its stack shows a. */
  ghost predicate TakenAfter(s: System, es: seq<Event>, a: Lock, c: Lock)
    requires Reaches(s, es, false)
    decreases |es|
  {
    es != [] && (EntersAfter(s, es[0], a, c) || TakenAfter(Next(s, es[0]), es[1..], a, c))
  }

  ghost predicate EntersAfter(s: System, e: Event, a: Lock, c: Lock)
    requires Enabled(s, e)
  {
    e.Enter? && e.c == c && Shows(s.threads[e.t].stack + [c], a, c)
  }

  /** A report has been issued exactly if some pair is known in both orders. */
  ghost predicate Exact(r: Record) {
    BothReported(r) && (r.reported ==> exists a, b :: (a, b) in r.orders && (b, a) in r.orders)
  }

  lemma StepExact(s: System, e: Event)
    requires Enabled(s, e) && Exact(s.record)
    ensures var n := Next(s, e).record;
      && Exact(n) && s.record.orders <= n.orders && (s.record.reported ==> n.reported)
      && (forall a, c :: (a, c) in n.orders ==> (a, c) in s.record.orders || EntersAfter(s, e, a, c))
      && (n.reported || forall a, c :: EntersAfter(s, e, a, c) ==> (a, c) in n.orders)
  {
    hide Local', Note, BothReported;
    if e.Enter? {
      var stack := s.threads[e.t].stack + [e.c];
      EnterNotes(s, e);
      NoteKeeps(s.record, stack, e.c, 0);
      NoteAdds(s.record, stack, e.c, 0);
    }
  }

  lemma EnterNotes(s: System, e: Event)
    requires Enabled(s, e)
    ensures Next(s, e).record == if e.Enter? then Note(s.record, s.threads[e.t].stack + [e.c], e.c, 0) else s.record
  {
  }

  lemma {:induction false} RunExact(s: System, es: seq<Event>)
    requires Reaches(s, es, false) && Exact(s.record)
    ensures var n := After(s, es).record;
      && Exact(n) && s.record.orders <= n.orders && (s.record.reported ==> n.reported)
      && (forall a, c :: (a, c) in n.orders ==> (a, c) in s.record.orders || TakenAfter(s, es, a, c))
      && (n.reported || forall a, c :: TakenAfter(s, es, a, c) ==> (a, c) in n.orders)
    decreases |es|
  {
    hide Exact, Enabled, Next, EntersAfter;
    if es != [] {
      StepExact(s, es[0]);
      RunExact(Next(s, es[0]), es[1..]);
    }
  }

  lemma TakenBoth(s: System, es: seq<Event>, a: Lock, b: Lock)
    requires Reaches(s, es, false) && Exact(s.record) && TakenAfter(s, es, a, b) && TakenAfter(s, es, b, a)
    ensures After(s, es).record.reported
  {
    hide Reaches, TakenAfter, After;
    RunExact(s, es);
    assert BothReported(After(s, es).record);
  }

  /** In every interleaving whatever, a report has been issued exactly if two locks have been taken in both orders:
      at one step a thread went to get the one while its stack showed the other, at another step the other way round. */
  lemma ReportedIff(threads: set<Thread>, es: seq<Event>)
    requires Reaches(Start(threads), es, false)
    ensures After(Start(threads), es).record.reported <==>
      exists a, b :: TakenAfter(Start(threads), es, a, b) && TakenAfter(Start(threads), es, b, a)
  {
    hide Reaches, TakenAfter, After;
    var s := Start(threads);
    RunExact(s, es);
    var n := After(s, es).record;
    if n.reported {
      var a, b :| (a, b) in n.orders && (b, a) in n.orders;
      assert TakenAfter(s, es, a, b) && TakenAfter(s, es, b, a);
    }
    if a, b :| TakenAfter(s, es, a, b) && TakenAfter(s, es, b, a) { TakenBoth(s, es, a, b); }
  }

  /** In every interleaving whatever, recursive locks, tried locks and locks released out of order included: if
      two threads wait, and the stack of each shows the lock the other waits for before its own, a report has
      been issued. */
  lemma WaitersReported(threads: set<Thread>, es: seq<Event>, t: Thread, u: Thread)
    requires Reaches(Start(threads), es, false)
    requires var s := After(Start(threads), es);
      && t in s.threads && u in s.threads && s.threads[t].phase.Entering? && s.threads[u].phase.Entering?
      && Shows(s.threads[t].stack, s.threads[u].phase.c, s.threads[t].phase.c)
      && Shows(s.threads[u].stack, s.threads[t].phase.c, s.threads[u].phase.c)
    ensures After(Start(threads), es).record.reported
  {
    RunRecords(Start(threads), es);
    hide After, Reaches, Start;
    var s := After(Start(threads), es);
    var i :| BeforeFirst(s.threads[t].stack, s.threads[t].phase.c, i) && s.threads[t].stack[i] == s.threads[u].phase.c;
    var j :| BeforeFirst(s.threads[u].stack, s.threads[u].phase.c, j) && s.threads[u].stack[j] == s.threads[t].phase.c;
  }

  /** A thread whose stack is what it holds shows every lock it holds before one it does not hold. */
  lemma HolderShows(l: Local, a: Lock)
    requires StackRight(l) && l.phase.Entering? && a in l.held && l.phase.c !in l.held
    ensures Shows(l.stack, a, l.phase.c)
  {
    var i :| 0 <= i < |l.held| && l.held[i] == a;
    forall j | 0 <= j <= i ensures l.stack[j] != l.phase.c { assert l.held[j] in l.held; }
    assert BeforeFirst(l.stack, l.phase.c, i) && l.stack[i] == a;
  }

  /** So when locks are released last in, first out, no two threads wait for each other before a report has
      been issued. */
  lemma DeadlockReported(threads: set<Thread>, es: seq<Event>, t: Thread, u: Thread)
    requires Reaches(Start(threads), es, true)
    ensures Reaches(Start(threads), es, false)
    ensures Deadlocked(After(Start(threads), es), t, u) ==> After(Start(threads), es).record.reported
  {
    StartInv(threads);
    RunKeeps(Start(threads), es);
    var s := After(Start(threads), es);
    if Deadlocked(s, t, u) {
      hide After, Reaches, Start;
      assert !HeldBy(s, t, s.threads[t].phase.c) && !HeldBy(s, u, s.threads[u].phase.c);
      HolderShows(s.threads[t], s.threads[u].phase.c);
      HolderShows(s.threads[u], s.threads[t].phase.c);
      WaitersReported(threads, es, t, u);
    }
  }

  /* ---- what it does not promise ---- */

  lemma {:induction false} Chain(s: System, es: seq<Event>, e: Event, nested: bool)
    requires Reaches(s, es, false) && Reaches(s, es, nested)
    requires Enabled(After(s, es), e) && (nested ==> Nested(After(s, es), e))
    ensures Reaches(s, es + [e], false) && Reaches(s, es + [e], nested) && After(s, es + [e]) == Next(After(s, es), e)
    decreases |es|
  {
    hide Enabled, Next, Nested;
    if es == [] {
      assert [] + [e] == [e] && [e][1..] == [];
    } else {
      Chain(Next(s, es[0]), es[1..], e, nested);
      assert (es + [e])[1..] == es[1..] + [e];
    }
  }

  /** A thread takes and gets a lock nobody else holds. */
  lemma Take(s0: System, es: seq<Event>, t: Thread, c: Lock, nested: bool) returns (fs: seq<Event>)
    requires Reaches(s0, es, false) && Reaches(s0, es, nested)
    requires var s := After(s0, es); t in s.threads && s.threads[t].phase.Idle? && !HeldByOther(s, t, c)
    ensures es <= fs && Reaches(s0, fs, false) && Reaches(s0, fs, nested)
    ensures var s := After(s0, es); var l := s.threads[t];
      After(s0, fs) ==
        System(s.threads[t := Local(l.stack + [c], l.held + [c], Idle)], Note(s.record, l.stack + [c], c, 0))
  {
    hide Reaches, After, Note, HeldByOther;
    var s := After(s0, es);
    Chain(s0, es, Enter(t, c), nested);
    var s1 := Next(s, Enter(t, c));
    EnterHolds(s, t, c);
    Chain(s0, es + [Enter(t, c)], Acquire(t), nested);
    fs := es + [Enter(t, c)] + [Acquire(t)];
    var l := s.threads[t];
    assert s1.threads[t := Local'(s1, Acquire(t))] == s.threads[t := Local(l.stack + [c], l.held + [c], Idle)];
  }

  lemma EnterHolds(s: System, t: Thread, c: Lock)
    requires Enabled(s, Enter(t, c)) && !HeldByOther(s, t, c)
    ensures !HeldByOther(Next(s, Enter(t, c)), t, c)
  {
    hide Note;
    forall u | u != t && HeldBy(Next(s, Enter(t, c)), u, c) ensures HeldBy(s, u, c) {}
  }

  /** A thread asks for a lock. */
  lemma Ask(s0: System, es: seq<Event>, t: Thread, c: Lock, nested: bool) returns (fs: seq<Event>)
    requires Reaches(s0, es, false) && Reaches(s0, es, nested)
    requires var s := After(s0, es); t in s.threads && s.threads[t].phase.Idle?
    ensures es <= fs && Reaches(s0, fs, false) && Reaches(s0, fs, nested)
    ensures var s := After(s0, es); var l := s.threads[t];
      After(s0, fs) ==
        System(s.threads[t := Local(l.stack + [c], l.held, Entering(c))], Note(s.record, l.stack + [c], c, 0))
  {
    hide Reaches, After, Note;
    Chain(s0, es, Enter(t, c), nested);
    fs := es + [Enter(t, c)];
  }

  /* ---- locks released out of order ---- */

  /** A number larger than all of a set. */
  lemma {:induction false} Above(s: set<int>) returns (x: int)
    ensures forall y :: y in s ==> y < x
    decreases |s|
  {
    x := 0;
    if s != {} {
      SetOrder.HasElement(s);
      var y :| y in s;
      x := Above(s - {y});
      if x <= y { x := y + 1; }
      forall z | z in s ensures z < x { assert z == y || z in s - {y}; }
    }
  }

  /** A lock nobody has had to do with. */
  lemma Unused(s: System, more: set<Lock>) returns (x: Lock)
    ensures forall t :: t in s.threads ==> x !in s.threads[t].held && x !in s.threads[t].stack
    ensures forall p :: p in s.record.orders ==> p.0 != x && p.1 != x
    ensures x !in more
  {
    var held := set t, i | t in s.threads && 0 <= i < |s.threads[t].held| :: s.threads[t].held[i];
    var stacks := set t, i | t in s.threads && 0 <= i < |s.threads[t].stack| :: s.threads[t].stack[i];
    var firsts, seconds := set p | p in s.record.orders :: p.0, set p | p in s.record.orders :: p.1;
    forall t, c | t in s.threads && c in s.threads[t].held ensures c in held {
      var i :| 0 <= i < |s.threads[t].held| && s.threads[t].held[i] == c;
      assert s.threads[t].held[i] in held;
    }
    forall t, c | t in s.threads && c in s.threads[t].stack ensures c in stacks {
      var i :| 0 <= i < |s.threads[t].stack| && s.threads[t].stack[i] == c;
      assert s.threads[t].stack[i] in stacks;
    }
    var all := held + stacks + firsts + seconds + more;
    x := Above(all);
    assert x !in all && held <= all && stacks <= all;
    forall p | p in s.record.orders ensures p.0 != x && p.1 != x { assert p.0 in firsts && p.1 in seconds; }
  }

  /** Recording a lock never seen before adds what it is taken after, and reports nothing. */
  lemma {:induction false} NoteUnused(r: Record, stack: seq<Lock>, x: Lock, i: nat)
    requires i <= |stack| && (forall p :: p in r.orders ==> p.0 != x) && !r.reported
    ensures var n := Note(r, stack + [x], x, i);
      && !n.reported && r.orders <= n.orders
      && forall p :: p in n.orders && p !in r.orders ==> p.1 == x && p.0 != x && p.0 in stack
    decreases |stack| - i
  {
    var s := stack + [x];
    if i < |stack| && stack[i] != x {
      assert stack[i] in stack;
      if (stack[i], x) in r.orders {
        NoteUnused(r, stack, x, i + 1);
      } else {
        NoteUnused(Record(r.orders + {(stack[i], x)}, false), stack, x, i + 1);
      }
    }
  }

  /** Recording after a single other lock. */
  lemma NoteOne(r: Record, x: Lock, a: Lock)
    requires x != a && !r.reported && (a, x) !in r.orders
    ensures !Note(r, [x] + [a], a, 0).reported
  {
    var s := [x] + [a];
    assert s[0] == x && s[1] == a;
    assert Note(r, s, a, 0) ==
      if (x, a) in r.orders then Note(r, s, a, 1) else Note(Record(r.orders + {(x, a)}, false), s, a, 1);
  }

  /** From every state without a report in which an idle thread holds a lock its stack does not show, and another
      thread is idle and holds nothing, the two can go on to wait for each other without a report. */
  lemma HiddenLockDeadlocks(s0: System, es: seq<Event>, t: Thread, u: Thread, a: Lock) returns (fs: seq<Event>)
    requires Reaches(s0, es, false) && t != u
    requires var s := After(s0, es);
      && !s.record.reported && t in s.threads && u in s.threads
      && s.threads[t].phase.Idle? && a in s.threads[t].held && a !in s.threads[t].stack
      && s.threads[u] == Local([], [], Idle)
    ensures es <= fs && Reaches(s0, fs, false)
    ensures Deadlocked(After(s0, fs), t, u) && !After(s0, fs).record.reported
  {
    hide Reaches, After, Note;
    var s := After(s0, es);
    var x := Unused(s, {a});
    var fs1 := Take(s0, es, u, x, false);
    assert [] + [x] == [x];
    NoteUnused(s.record, [], x, 0);
    var s1 := After(s0, fs1);
    assert s1.record.orders == s.record.orders;
    var fs2 := Ask(s0, fs1, t, x, false);
    NoteUnused(s1.record, s.threads[t].stack, x, 0);
    var s2 := After(s0, fs2);
    fs := Ask(s0, fs2, u, a, false);
    assert (a, x) !in s2.record.orders;
    NoteOne(s2.record, x, a);
    var s3 := After(s0, fs);
    assert HeldBy(s3, u, x) && HeldBy(s3, t, a);
  }

  /** One release out of order is enough: of a thread that holds what its stack says, it leaves the last lock held
      and off the stack, if it was not taken before as well. */
  lemma UnnestedHides(s: System, t: Thread, k: nat)
    requires t in s.threads && s.threads[t].phase.Idle? && s.threads[t].stack == s.threads[t].held
    requires var held := s.threads[t].held; k < |held| - 1 && held[|held| - 1] !in held[..|held| - 1]
    ensures Enabled(s, Unlock(t, k)) && Enabled(Next(s, Unlock(t, k)), Pop(t))
    ensures var n := Next(Next(s, Unlock(t, k)), Pop(t)); var a := s.threads[t].held[|s.threads[t].held| - 1];
      && n.record == s.record && n.threads == s.threads[t := n.threads[t]]
      && n.threads[t].phase.Idle? && a in n.threads[t].held && a !in n.threads[t].stack
  {
    var held := s.threads[t].held;
    var left := Drop(held, k);
    assert left[|left| - 1] == held[|held| - 1];
  }

  /** So from every state a nested run reaches without a report, in which an idle thread holds several locks and
      another none, releasing one of them out of order makes an unreported deadlock possible. */
  lemma UnnestedDeadlocks(threads: set<Thread>, es: seq<Event>, t: Thread, u: Thread, k: nat) returns (fs: seq<Event>)
    requires Reaches(Start(threads), es, true) && Reaches(Start(threads), es, false) && t != u
    requires var s := After(Start(threads), es);
      && !s.record.reported && t in s.threads && u in s.threads
      && s.threads[t].phase.Idle? && s.threads[u].phase.Idle? && s.threads[u].held == []
      && var held := s.threads[t].held; k < |held| - 1 && held[|held| - 1] !in held[..|held| - 1]
    ensures es + [Unlock(t, k)] <= fs && Reaches(Start(threads), fs, false)
    ensures Deadlocked(After(Start(threads), fs), t, u) && !After(Start(threads), fs).record.reported
  {
    StartInv(threads);
    RunKeeps(Start(threads), es);
    hide Reaches, After, Start;
    var s0 := Start(threads);
    var s := After(s0, es);
    UnnestedHides(s, t, k);
    Chain(s0, es, Unlock(t, k), false);
    Chain(s0, es + [Unlock(t, k)], Pop(t), false);
    var held := s.threads[t].held;
    fs := HiddenLockDeadlocks(s0, es + [Unlock(t, k)] + [Pop(t)], t, u, held[|held| - 1]);
  }

  /* ---- circles ---- */

  /** The lock after lock i in a circle of n. */
  function Around(n: nat, i: int): Lock { if i + 1 == n then 0 else i + 1 }

  /** The first k of n threads have taken the locks of their numbers. */
  function Taken(n: nat, k: nat): System {
    System(map i | 0 <= i < n :: (if i < k then Local([i], [i], Idle) else Local([], [], Idle)), Record({}, false))
  }

  /** All have, and the first k have asked for the next lock of the circle. */
  function Asked(n: nat, k: nat): System {
    System(map i | 0 <= i < n ::
      (if i < k then Local([i, Around(n, i)], [i], Entering(Around(n, i))) else Local([i], [i], Idle)),
      Record(set i | 0 <= i < k :: (i, Around(n, i)), false))
  }

  function Numbers(n: nat): (s: set<Thread>)
    ensures forall i :: i in s <==> 0 <= i < n
  {
    if n == 0 then {} else Numbers(n - 1) + {n - 1}
  }

  lemma {:induction false} TakeAll(n: nat, k: nat) returns (es: seq<Event>)
    requires k <= n
    ensures Reaches(Start(Numbers(n)), es, false) && Reaches(Start(Numbers(n)), es, true)
    ensures After(Start(Numbers(n)), es) == Taken(n, k)
  {
    hide Taken, Note, Start, Numbers, Enabled, Next;
    if k == 0 {
      es := [];
      StartTaken(n);
    } else {
      hide Reaches, After;
      var fs := TakeAll(n, k - 1);
      TakenNext(n, k - 1);
      es := Take(Start(Numbers(n)), fs, k - 1, k - 1, true);
    }
  }

  lemma StartTaken(n: nat)
    ensures Start(Numbers(n)) == Taken(n, 0)
  {
    assert Start(Numbers(n)).threads == Taken(n, 0).threads;
  }

  lemma TakenNext(n: nat, i: nat)
    requires i < n
    ensures i in Taken(n, i).threads && Taken(n, i).threads[i] == Local([], [], Idle) && !HeldByOther(Taken(n, i), i, i)
    ensures var s := Taken(n, i); var l := s.threads[i];
      System(s.threads[i := Local(l.stack + [i], l.held + [i], Idle)], Note(s.record, l.stack + [i], i, 0)) ==
        Taken(n, i + 1)
  {
    assert [] + [i] == [i];
    assert Taken(n, i).threads[i := Local([i], [i], Idle)] == Taken(n, i + 1).threads;
    NoteNothing(i);
  }

  lemma NoteNothing(c: Lock)
    ensures Note(Record({}, false), [c], c, 0) == Record({}, false)
  {
  }

  lemma {:induction false} AskAll(n: nat, k: nat) returns (es: seq<Event>)
    requires n >= 3 && k <= n
    ensures Reaches(Start(Numbers(n)), es, false) && Reaches(Start(Numbers(n)), es, true)
    ensures After(Start(Numbers(n)), es) == Asked(n, k)
  {
    hide Reaches, After, Start, Note, Numbers, Taken, Asked;
    if k == 0 {
      es := TakeAll(n, n);
      TakenAsked(n);
    } else {
      var fs := AskAll(n, k - 1);
      AskNext(n, k - 1);
      es := Ask(Start(Numbers(n)), fs, k - 1, Around(n, k - 1), true);
    }
  }

  lemma TakenAsked(n: nat)
    ensures Taken(n, n) == Asked(n, 0)
  {
    assert Taken(n, n).threads == Asked(n, 0).threads;
    assert Taken(n, n).record == Asked(n, 0).record;
  }

  /** In a circle of three or more no pair occurs in both orders. */
  lemma AskNext(n: nat, i: nat)
    requires n >= 3 && i < n
    ensures i in Asked(n, i).threads && Asked(n, i).threads[i] == Local([i], [i], Idle)
    ensures var s, c := Asked(n, i), Around(n, i);
      System(s.threads[i := Local([i] + [c], [i], Entering(c))], Note(s.record, [i] + [c], c, 0)) == Asked(n, i + 1)
  {
    var s, c := Asked(n, i), Around(n, i);
    assert [i] + [c] == [i, c];
    assert s.threads[i := Local([i, c], [i], Entering(c))] == Asked(n, i + 1).threads;
    NoteNext(n, i);
  }

  lemma NoteNext(n: nat, i: nat)
    requires n >= 3 && i < n
    ensures Note(Asked(n, i).record, [i] + [Around(n, i)], Around(n, i), 0) == Asked(n, i + 1).record
  {
    var r, c := Asked(n, i).record, Around(n, i);
    var s := [i] + [c];
    assert s[0] == i && s[1] == c && i != c;
    assert (i, c) !in r.orders;
    var orders := r.orders + {(i, c)};
    assert orders == Asked(n, i + 1).record.orders;
    assert (c, i) !in orders;
    assert Note(r, s, c, 0) == Note(Record(orders, false), s, c, 1);
  }

  /** Any number of threads from three on can wait for each other in a circle without a report, with nested
      releases, and in fact with none. */
  lemma CircleUnreported(n: nat) returns (es: seq<Event>)
    requires n >= 3
    ensures Reaches(Start(Numbers(n)), es, true) && Reaches(Start(Numbers(n)), es, false)
    ensures var s := After(Start(Numbers(n)), es);
      && !s.record.reported
      && forall i :: 0 <= i < n ==>
           && i in s.threads && s.threads[i].phase == Entering(Around(n, i))
           && HeldBy(s, Around(n, i), Around(n, i))
  {
    es := AskAll(n, n);
    hide Reaches, After, Start;
  }
}

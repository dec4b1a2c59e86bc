/** The user-space spinlock, as the steps that any number of threads take in any order. */
module Spinlock {
  datatype Result = Nothing | Success | Deadlock | Busy | NotOwner

  /**
   * Where a thread is: outside, with the result of its last call, or before one of the atomic
   * steps of pthread_spin_lock, pthread_spin_trylock and pthread_spin_unlock. A thread holds the
   * lock from the return of the call that took it to its own unlock.
   */
  datatype Phase =
    | Idle(holds: bool, result: Result)
    | LockSwap(holds: bool)
    | ReadLocker(holds: bool)
    | TrySwap(holds: bool)
    | SetLocker
    | CheckLocker
    | ClearLocker
    | Release

  datatype State = State(atom: int, locker: int, phase: map<int, Phase>)

  predicate Holds(s: State, t: int) {
    t in s.phase && match s.phase[t]
    case Idle(h, _) => h
    case LockSwap(h) => h
    case ReadLocker(h) => h
    case TrySwap(h) => h
    case CheckLocker => true
    case ClearLocker => true
    case SetLocker => false
    case Release => false
  }

  /** Thread t is outside, and its last call has returned r. */
  predicate Returned(s: State, t: int, r: Result) {
    t in s.phase && s.phase[t].Idle? && s.phase[t].result == r
  }

  /** pthread_spin_init, with all threads outside. */
  ghost predicate Init(s: State) {
    && s.atom == 1 && s.locker == -1
    && forall t :: t in s.phase ==> t >= 0 && s.phase[t] == Idle(false, Nothing)
  }

  function At(s: State, t: int, p: Phase): State {
    s.(phase := s.phase[t := p])
  }

  /** One atomic step of thread t; only a holder calls unlock. */
  ghost predicate Step(s: State, s': State, t: int) {
    t in s.phase && match s.phase[t]
    case Idle(h, _) =>
      s' == At(s, t, LockSwap(h)) || s' == At(s, t, TrySwap(h)) || (h && s' == At(s, t, CheckLocker))
    case LockSwap(h) =>
      if s.atom == 1 then s' == At(s.(atom := 0), t, SetLocker) else s' == At(s, t, ReadLocker(h))
    case ReadLocker(h) =>
      if s.locker == t then s' == At(s, t, Idle(h, Deadlock)) else s' == At(s, t, LockSwap(h))
    case TrySwap(h) =>
      if s.atom == 1 then s' == At(s.(atom := 0), t, SetLocker) else s' == At(s, t, Idle(h, Busy))
    case SetLocker =>
      s' == At(s.(locker := t), t, Idle(true, Success))
    case CheckLocker =>
      if s.locker < 0 then s' == At(s, t, Idle(true, NotOwner)) else s' == At(s, t, ClearLocker)
    case ClearLocker =>
      s' == At(s.(locker := -1), t, Release)
    case Release =>
      s' == At(if s.atom == 0 then s.(atom := 1) else s, t, Idle(false, Success))
  }

  /** A thread that has the lock, or is about to have it, or is about to be rid of it. */
  predicate Inside(s: State, t: int) {
    Holds(s, t) || (t in s.phase && (s.phase[t].SetLocker? || s.phase[t].Release?))
  }

  ghost predicate Inv(s: State) {
    && (s.atom == 0 || s.atom == 1)
    && (forall t :: t in s.phase ==> t >= 0)
    && (forall t, u {:trigger Inside(s, t), Inside(s, u)} :: Inside(s, t) && Inside(s, u) ==> t == u)
    && (s.atom == 1 ==> forall t :: !Inside(s, t))
    && (s.atom == 0 ==> exists t :: Inside(s, t))
    && (forall t {:trigger Holds(s, t)} :: Holds(s, t) ==> s.locker == t)
    && (s.locker >= 0 ==> Holds(s, s.locker))
    && (forall t :: t in s.phase && s.phase[t].Idle? ==>
          s.phase[t].result != NotOwner && (s.phase[t].result == Deadlock ==> s.phase[t].holds))
  }

  lemma InitInv(s: State)
    requires Init(s)
    ensures Inv(s)
  {
  }

  /** What a step of t does not change for the other threads. */
  lemma Others(s: State, s': State, t: int, u: int)
    requires Step(s, s', t) && u != t
    ensures Inside(s', u) <==> Inside(s, u)
    ensures Holds(s', u) <==> Holds(s, u)
    ensures u in s'.phase <==> u in s.phase
    ensures u in s.phase ==> s'.phase[u] == s.phase[u]
  {
  }

  /** Who is inside after a step, and what atom and locker are. */
  lemma StepEffect(s: State, s': State, t: int)
    requires Inv(s) && Step(s, s', t)
    ensures t in s'.phase && t >= 0
    ensures s'.atom == 0 || s'.atom == 1
    ensures Inside(s', t) ==> s'.atom == 0 && (Inside(s, t) || s.atom == 1)
    ensures !Inside(s', t) ==> if Inside(s, t) then s'.atom == 1 else s'.atom == s.atom
    ensures Holds(s', t) ==> s'.locker == t
    ensures !Holds(s', t) && !Holds(s, t) ==> s'.locker == s.locker
    ensures !Holds(s', t) && Holds(s, t) ==> s'.locker == -1
    ensures Holds(s', t) && !Holds(s, t) ==> Inside(s, t) && s.locker < 0
    ensures s'.phase[t].Idle? ==> s'.phase[t].result != NotOwner && (s'.phase[t].result == Deadlock ==> s'.phase[t].holds)
  {
    assert Holds(s, t) ==> Inside(s, t);
    assert Inside(s, t) ==> s.atom == 0;
    if s.locker >= 0 {
      assert Holds(s, s.locker);
      assert Inside(s, s.locker);
      assert Inside(s, t) ==> t == s.locker;
    }
  }

  /** Every step keeps the invariant. */
  lemma StepInv(s: State, s': State, t: int)
    requires Inv(s) && Step(s, s', t)
    ensures Inv(s')
  {
    hide Step, Inside, Holds;
    StepEffect(s, s', t);
    forall u | u != t
      ensures (Inside(s', u) <==> Inside(s, u)) && (Holds(s', u) <==> Holds(s, u)) && (u in s'.phase <==> u in s.phase)
      ensures u in s.phase ==> s'.phase[u] == s.phase[u]
    {
      Others(s, s', t, u);
    }
    HoldsInside(s);
    HoldsInside(s');
    if s'.atom == 0 && !Inside(s', t) {
      var u :| Inside(s, u);
      assert Inside(s', u);
    }
  }

  lemma HoldsInside(s: State)
    ensures forall t :: Holds(s, t) ==> Inside(s, t)
  {
  }

  /** An interleaving of the steps of the threads. */
  ghost predicate Run(run: seq<State>, who: seq<int>) {
    && |run| == |who| + 1 && Init(run[0])
    && forall i {:trigger who[i]} :: 0 <= i < |who| ==> Step(run[i], run[i + 1], who[i])
  }

  lemma {:induction false} RunInv(run: seq<State>, who: seq<int>, i: nat)
    requires Run(run, who) && i < |run|
    ensures Inv(run[i])
  {
    hide Init, Step, Inv;
    if i == 0 {
      InitInv(run[0]);
    } else {
      RunInv(run, who, i - 1);
      assert Step(run[i - 1], run[i], who[i - 1]);
      StepInv(run[i - 1], run[i], who[i - 1]);
    }
  }

  /**
   * Mutual exclusion, in every state of every interleaving; EDEADLK is returned only to the thread
   * that holds the lock, and a holder's unlock never fails.
   */
  lemma Safety(run: seq<State>, who: seq<int>, i: nat)
    requires Run(run, who) && i < |run|
    ensures forall t, u {:trigger Holds(run[i], t), Holds(run[i], u)} :: Holds(run[i], t) && Holds(run[i], u) ==> t == u
    ensures forall t :: Returned(run[i], t, Deadlock) ==> Holds(run[i], t)
    ensures forall t :: !Returned(run[i], t, NotOwner)
  {
    hide Run, Holds, Inside;
    RunInv(run, who, i);
    HoldsInside(run[i]);
    forall t | Returned(run[i], t, Deadlock) ensures Holds(run[i], t) {
      IdleHolds(run[i], t);
    }
  }

  lemma IdleHolds(s: State, t: int)
    requires t in s.phase && s.phase[t].Idle? && s.phase[t].holds
    ensures Holds(s, t)
  {
  }

  // ---------- what a whole call returns, whatever the other threads do in between ----------

  predicate Outside(s: State, t: int) {
    t in s.phase && s.phase[t].Idle?
  }

  /** Thread t enters a call at i, and its next return is at j. */
  ghost predicate Call(run: seq<State>, who: seq<int>, t: int, i: nat, j: nat) {
    && Run(run, who) && i < j <= |who| && who[i] == t && Outside(run[i], t) && Outside(run[j], t)
    && forall k :: i < k < j ==> !Outside(run[k], t)
  }

  /** What a step of u leaves of thread t, and what its own step finds. */
  lemma NextPhase(run: seq<State>, who: seq<int>, k: nat, t: int)
    requires Run(run, who) && k < |who| && t in run[k].phase
    ensures |run| == |who| + 1 && t in run[k + 1].phase
    ensures who[k] != t ==> run[k + 1].phase[t] == run[k].phase[t]
    ensures who[k] == t ==> Step(run[k], run[k + 1], t)
    ensures (run[k].atom == 0 || run[k].atom == 1) && (Inside(run[k], t) ==> run[k].atom == 0)
    ensures Holds(run[k], t) ==> Inside(run[k], t) && run[k].locker == t
    ensures t >= 0 && (run[k].locker == t ==> Holds(run[k], t))
  {
    hide Init, Holds;
    RunInv(run, who, k);
    assert Step(run[k], run[k + 1], who[k]);
    if who[k] != t {
      Others(run[k], run[k + 1], who[k], t);
    }
    assert Holds(run[k], t) ==> Inside(run[k], t);
  }

  /** Where thread t is while it calls pthread_spin_lock. */
  lemma {:induction false} InLock(run: seq<State>, who: seq<int>, t: int, i: nat, j: nat, k: nat)
    requires Call(run, who, t, i, j) && run[i + 1].phase[t].LockSwap? && i < k < j
    ensures t in run[k].phase
    ensures var h := Holds(run[i], t);
      run[k].phase[t] == LockSwap(h) || run[k].phase[t] == ReadLocker(h) || (!h && run[k].phase[t] == SetLocker)
  {
    hide Run, Inv;
    if k == i + 1 {
      NextPhase(run, who, i, t);
    } else {
      InLock(run, who, t, i, j, k - 1);
      NextPhase(run, who, k - 1, t);
      assert !Outside(run[k], t);
    }
  }

  /**
   * pthread_spin_lock: a thread that holds the lock gets EDEADLK, and any other thread returns,
   * if it does, with success and with the lock.
   */
  lemma LockCall(run: seq<State>, who: seq<int>, t: int, i: nat, j: nat)
    requires Call(run, who, t, i, j) && run[i + 1].phase[t].LockSwap?
    ensures run[j].phase[t].result == (if Holds(run[i], t) then Deadlock else Success)
    ensures Holds(run[j], t) && run[j].atom == 0 && run[j].locker == t
  {
    hide Run, Inv;
    InLock(run, who, t, i, j, j - 1);
    NextPhase(run, who, j - 1, t);
  }

  /** Where thread t is while it calls pthread_spin_trylock: before its swap, or behind it with the lock. */
  lemma {:induction false} InTry(run: seq<State>, who: seq<int>, t: int, i: nat, j: nat, k: nat) returns (swap: nat)
    requires Call(run, who, t, i, j) && run[i + 1].phase[t].TrySwap? && i < k < j
    ensures t in run[k].phase && i < swap <= k
    ensures var h := Holds(run[i], t);
      if swap == k then run[k].phase[t] == TrySwap(h)
      else !h && run[k].phase[t] == SetLocker && who[swap] == t && t in run[swap].phase && run[swap].phase[t] == TrySwap(h) && run[swap].atom == 1
    decreases k
  {
    hide Run, Inv;
    if k == i + 1 {
      NextPhase(run, who, i, t);
      swap := k;
    } else {
      swap := InTry(run, who, t, i, j, k - 1);
      NextPhase(run, who, k - 1, t);
      assert !Outside(run[k], t);
      if swap == k - 1 && who[k - 1] != t {
        swap := k;
      }
    }
  }

  /**
   * pthread_spin_trylock: it swaps once, returns EBUSY exactly if the swap finds the lock taken,
   * and otherwise returns with the lock.
   */
  lemma TryCall(run: seq<State>, who: seq<int>, t: int, i: nat, j: nat) returns (swap: nat)
    requires Call(run, who, t, i, j) && run[i + 1].phase[t].TrySwap?
    ensures i < swap < j && who[swap] == t && t in run[swap].phase && run[swap].phase[t].TrySwap?
    ensures run[j].phase[t].result == (if run[swap].atom == 0 then Busy else Success)
    ensures run[swap].atom == 0 <==> exists u :: Inside(run[swap], u)
    ensures Holds(run[j], t) <==> Holds(run[i], t) || run[swap].atom == 1
    ensures Holds(run[i], t) ==> run[j].phase[t].result == Busy
  {
    hide Run, Step, Holds;
    swap := InTry(run, who, t, i, j, j - 1);
    TryEnd(run, who, t, i, j, swap);
    NextPhase(run, who, swap, t);
    RunInv(run, who, swap);
  }

  lemma TryEnd(run: seq<State>, who: seq<int>, t: int, i: nat, j: nat, swap: nat)
    requires Call(run, who, t, i, j) && i < swap < j && t in run[j - 1].phase
    requires var h := Holds(run[i], t);
      if swap == j - 1 then run[j - 1].phase[t] == TrySwap(h)
      else !h && run[j - 1].phase[t] == SetLocker && who[swap] == t && t in run[swap].phase && run[swap].phase[t] == TrySwap(h) && run[swap].atom == 1
    ensures who[swap] == t && t in run[swap].phase && run[swap].phase[t] == TrySwap(Holds(run[i], t))
    ensures run[j].phase[t].result == (if run[swap].atom == 0 then Busy else Success)
    ensures Holds(run[j], t) <==> Holds(run[i], t) || run[swap].atom == 1
    ensures Holds(run[i], t) ==> run[swap].atom == 0
  {
    hide Run, Inv;
    NextPhase(run, who, j - 1, t);
  }

  /** pthread_spin_unlock: the holder, and nobody else, is rid of the lock when it returns. */
  lemma UnlockCall(run: seq<State>, who: seq<int>, t: int, i: nat, j: nat)
    requires Call(run, who, t, i, j) && run[i + 1].phase[t].CheckLocker?
    ensures run[j].phase[t].result == Success && Holds(run[i], t) && !Holds(run[j], t)
  {
    hide Run, Inv;
    InUnlock(run, who, t, i, j, j - 1);
    NextPhase(run, who, j - 1, t);
    NextPhase(run, who, i, t);
  }

  lemma {:induction false} InUnlock(run: seq<State>, who: seq<int>, t: int, i: nat, j: nat, k: nat)
    requires Call(run, who, t, i, j) && run[i + 1].phase[t].CheckLocker? && i < k < j
    ensures t in run[k].phase && (run[k].phase[t].CheckLocker? || run[k].phase[t].ClearLocker? || run[k].phase[t].Release?)
  {
    hide Run, Inv;
    if k == i + 1 {
      NextPhase(run, who, i, t);
    } else {
      InUnlock(run, who, t, i, j, k - 1);
      NextPhase(run, who, k - 1, t);
      assert !Outside(run[k], t);
    }
  }

  /**
   * A thread that takes its steps gets to the end of its call: a holder that calls lock is not sent
   * back to the swap, and only a thread that waits for another one is. What a step does depends only
   * on whether the atom is taken and on who holds the lock.
   */
  lemma Progress(run: seq<State>, who: seq<int>, k: nat)
    requires Run(run, who) && k < |who| && who[k] in run[k].phase
    ensures var t := who[k];
      t in run[k + 1].phase && var p, q := run[k].phase[t], run[k + 1].phase[t];
      match p
      case Idle(_, _) => q.LockSwap? || q.TrySwap? || (Holds(run[k], t) && q.CheckLocker?)
      case LockSwap(_) => if run[k].atom == 1 then q.SetLocker? else q.ReadLocker?
      case ReadLocker(_) => if Holds(run[k], t) then q == Idle(true, Deadlock) else q.LockSwap?
      case TrySwap(_) => if run[k].atom == 1 then q.SetLocker? else q.Idle? && q.result == Busy
      case SetLocker => q == Idle(true, Success)
      case CheckLocker => q.ClearLocker?
      case ClearLocker => q.Release?
      case Release => q == Idle(false, Success)
  {
    hide Run, Inv;
    NextPhase(run, who, k, who[k]);
  }

  /** A lock that nobody has, or is about to have or to release, goes to the next thread that tries. */
  lemma FreeWhenEmpty(run: seq<State>, who: seq<int>, i: nat)
    requires Run(run, who) && i < |who| && (forall u :: !Inside(run[i], u))
    requires who[i] in run[i].phase && (run[i].phase[who[i]].LockSwap? || run[i].phase[who[i]].TrySwap?)
    ensures run[i + 1].phase == run[i].phase[who[i] := SetLocker] && run[i + 1].atom == 0
  {
    hide Init, Inside;
    RunInv(run, who, i);
    assert Step(run[i], run[i + 1], who[i]);
  }
}

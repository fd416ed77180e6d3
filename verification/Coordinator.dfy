/**
 Single-flight deduplication (docker-core/src/cache/coordinator.rs) as a transition system.
 Taking and releasing the map lock are steps of their own, so a guard can find it taken;
 callers and producers interleave freely.
 */
module Coordinator {
  import opened Common
  import opened Runs

  datatype Status<V> = Pending | Finished(value: V)

  /** One shared future and the key it was started for. */
  datatype Flight<K, V> = Flight(key: K, status: Status<V>)

  datatype Role = Leader | Joined

  datatype Caller<V> =
    | Waiting(flight: nat, role: Role)
    | Returned(flight: nat, role: Role, value: V)
    | Cancelled(flight: nat, role: Role)

  /** What the holder of the lock will do: a call, forget, clear, a count, or a guard's removal. */
  datatype Op<K> = EnterOp(caller: nat, key: K) | ForgetOp(key: K) | ClearOp | CountOp | DropOp(key: K)

  datatype State<K(==), V> = State(
    lock: Option<Op<K>>, inFlight: map<K, nat>, flights: map<nat, Flight<K, V>>, callers: map<nat, Caller<V>>)

  /** `id` numbers the flight a call starts when it finds none. */
  datatype Step<K, V> =
    | Acquire(op: Op<K>)
    | Release(id: nat)
    | Complete(flight: nat, value: V)
    | Return(caller: nat)
    | Cancel(caller: nat)

  // ----- which flights are running -----

  predicate Waits<K, V(==)>(s: State<K, V>, c: nat, f: nat) {
    c in s.callers && s.callers[c].Waiting? && s.callers[c].flight == f
  }

  /** The map entry of its key is this flight. */
  predicate Found<K, V>(s: State<K, V>, f: nat) {
    f in s.flights && s.flights[f].key in s.inFlight && s.inFlight[s.flights[f].key] == f
  }

  /** Unfinished, and some handle keeps the shared future alive. */
  predicate Running<K(==), V(==)>(s: State<K, V>, f: nat) {
    f in s.flights && s.flights[f].status.Pending? && (Found(s, f) || exists c :: c in s.callers && Waits(s, c, f))
  }

  // ----- steps -----

  predicate Enabled<K(==), V(==)>(s: State<K, V>, step: Step<K, V>) {
    match step
    case Acquire(op) => s.lock.None? && !op.DropOp? && (op.EnterOp? ==> op.caller !in s.callers)
    case Release(id) =>
      s.lock.Some? && (s.lock.value.EnterOp? ==> id !in s.flights && s.lock.value.caller !in s.callers)
    case Complete(f, _) => Running(s, f)
    case Return(c) =>
      c in s.callers && s.callers[c].Waiting? && s.callers[c].flight in s.flights
      && s.flights[s.callers[c].flight].status.Finished?
    case Cancel(c) => c in s.callers && s.callers[c].Waiting? && s.callers[c].flight in s.flights
  }

  /** The critical section of each operation. */
  function Section<K, V>(s: State<K, V>, op: Op<K>, id: nat): State<K, V> {
    match op
    case EnterOp(c, k) =>
      if k in s.inFlight then s.(callers := s.callers[c := Waiting(s.inFlight[k], Joined)])
      else s.(inFlight := s.inFlight[k := id], flights := s.flights[id := Flight(k, Pending)],
              callers := s.callers[c := Waiting(id, Leader)])
    case ForgetOp(k) => s.(inFlight := s.inFlight - {k})
    case ClearOp => s.(inFlight := map[])
    case CountOp => s
    case DropOp(k) => s.(inFlight := s.inFlight - {k})
  }

  /** The lock after the guard of a caller is dropped: try_lock, and only the leader has a guard. */
  function TryLock<K, V>(s: State<K, V>, c: nat): Option<Op<K>>
    requires c in s.callers && s.callers[c].flight in s.flights
  {
    if s.lock.None? && s.callers[c].role == Leader then Some(DropOp(s.flights[s.callers[c].flight].key)) else s.lock
  }

  function Apply<K, V>(s: State<K, V>, step: Step<K, V>): State<K, V>
    requires Enabled(s, step)
  {
    match step
    case Acquire(op) => s.(lock := Some(op))
    case Release(id) => Section(s, s.lock.value, id).(lock := None)
    case Complete(f, v) => s.(flights := s.flights[f := Flight(s.flights[f].key, Finished(v))])
    case Return(c) =>
      var w := s.callers[c];
      s.(lock := TryLock(s, c), callers := s.callers[c := Returned(w.flight, w.role, s.flights[w.flight].status.value)])
    case Cancel(c) =>
      var w := s.callers[c];
      s.(lock := TryLock(s, c), callers := s.callers[c := Cancelled(w.flight, w.role)])
  }

  function Next<K(==), V(==)>(s: State<K, V>, step: Step<K, V>): Option<State<K, V>> {
    if Enabled(s, step) then Some(Apply(s, step)) else None
  }

  function Start<K, V>(): State<K, V> { State(None, map[], map[], map[]) }

  ghost predicate IsRun<K(!new), V(!new)>(steps: seq<Step<K, V>>) { Legal(Next<K, V>, Start<K, V>(), steps) }

  /** The coordinator after the first n steps of a run. */
  ghost function At<K(!new), V(!new)>(steps: seq<Step<K, V>>, n: nat): State<K, V>
    requires IsRun(steps) && n <= |steps|
  {
    StateAt(Next<K, V>, Start<K, V>(), steps, n)
  }

  lemma RunStep<K(!new), V(!new)>(steps: seq<Step<K, V>>, n: nat)
    requires IsRun(steps) && n < |steps|
    ensures Enabled(At(steps, n), steps[n]) && At(steps, n + 1) == Apply(At(steps, n), steps[n])
  {
    LegalMoment(Next<K, V>, Start<K, V>(), steps, n);
    LegalMoment(Next<K, V>, Start<K, V>(), steps, n + 1);
  }

  // ----- what holds in every run -----

  /** The map and the callers speak of existing flights, and a returned value is its flight's value. */
  ghost predicate WellFormed<K(!new), V(!new)>(s: State<K, V>) {
    && (forall k :: k in s.inFlight ==> s.inFlight[k] in s.flights && s.flights[s.inFlight[k]].key == k)
    && (forall c :: c in s.callers ==> s.callers[c].flight in s.flights)
    && (forall c :: c in s.callers && s.callers[c].Returned? ==>
          s.flights[s.callers[c].flight].status == Finished(s.callers[c].value))
  }

  lemma ApplyWellFormed<K(!new), V(!new)>(s: State<K, V>, step: Step<K, V>)
    requires WellFormed(s) && Enabled(s, step)
    ensures WellFormed(Apply(s, step))
  {
  }

  lemma RunWellFormed<K(!new), V(!new)>(steps: seq<Step<K, V>>, n: nat)
    requires IsRun(steps) && n <= |steps|
    ensures WellFormed(At(steps, n))
  {
    forall s, a | WellFormed(s) && Next<K, V>(s, a).Some? ensures WellFormed(Next<K, V>(s, a).value) {
      ApplyWellFormed(s, a);
    }
    AlwaysHolds(Next<K, V>, Start<K, V>(), WellFormed<K, V>, steps, n);
  }

  /** Callers keep their flight and role, and once they have a value, the value; flights keep their key. */
  ghost predicate Continues<K(!new), V(!new)>(r: State<K, V>, s: State<K, V>) {
    && (forall c :: c in r.callers ==>
          && c in s.callers && s.callers[c].flight == r.callers[c].flight && s.callers[c].role == r.callers[c].role
          && (!r.callers[c].Waiting? ==> s.callers[c] == r.callers[c]))
    && (forall f :: f in r.flights ==> f in s.flights && s.flights[f].key == r.flights[f].key)
  }

  lemma ContinuesStep<K(!new), V(!new)>(r: State<K, V>, s: State<K, V>, step: Step<K, V>)
    requires Continues(r, s) && Enabled(s, step)
    ensures Continues(r, Apply(s, step))
  {
  }

  lemma RunContinues<K(!new), V(!new)>(steps: seq<Step<K, V>>, m: nat, n: nat)
    requires IsRun(steps) && m <= n <= |steps|
    ensures Continues(At(steps, m), At(steps, n))
  {
    forall r, s, a | Continues(r, s) && Next<K, V>(s, a).Some? ensures Continues(r, Next<K, V>(s, a).value) {
      ContinuesStep(r, s, a);
    }
    AlwaysRelates(Next<K, V>, Start<K, V>(), Continues<K, V>, steps, m, n);
  }

  /**
   In every run, with or without forget and cancellation: a caller that found flight f when its
   section ended at step m and has returned by moment n, returned the value flight f produced.
   */
  lemma JoinedGetsItsFlight<K(!new), V(!new)>(steps: seq<Step<K, V>>, m: nat, n: nat, c: nat, k: K)
    requires IsRun(steps) && m < n <= |steps|
    requires steps[m].Release? && At(steps, m).lock == Some(EnterOp(c, k)) && k in At(steps, m).inFlight
    ensures c in At(steps, n).callers
    ensures var f, now := At(steps, m).inFlight[k], At(steps, n).callers[c];
            && now.flight == f && now.role == Joined && f in At(steps, n).flights
            && (now.Returned? ==> At(steps, n).flights[f] == Flight(k, Finished(now.value)))
  {
    RunStep(steps, m);
    RunWellFormed(steps, m);
    RunWellFormed(steps, n);
    RunContinues(steps, m + 1, n);
  }

  /** A flight keeps the value its producer completed it with, and that is what its callers return. */
  lemma {:induction false} ProducedValue<K(!new), V(!new)>(steps: seq<Step<K, V>>, m: nat, n: nat, f: nat, v: V)
    requires IsRun(steps) && m < n <= |steps| && steps[m] == Complete(f, v)
    ensures f in At(steps, n).flights && At(steps, n).flights[f].status == Finished(v)
    ensures var callers := At(steps, n).callers;
            forall c :: c in callers && callers[c].Returned? && callers[c].flight == f ==> callers[c].value == v
  {
    RunWellFormed(steps, n);
    RunStep(steps, n - 1);
    if m < n - 1 {
      ProducedValue(steps, m, n - 1, f, v);
      var s, step := At(steps, n - 1), steps[n - 1];
      assert step.Complete? ==> step.flight != f;
    }
  }

  // ----- exclusivity -----

  /** At most one producer per key is running. */
  ghost predicate Exclusive<K(!new), V(!new)>(s: State<K, V>) {
    forall f, g :: Running(s, f) && Running(s, g) && s.flights[f].key == s.flights[g].key ==> f == g
  }

  /** The step ends the section of a call for `k` that finds no entry and becomes the leader. */
  predicate Leads<K(==), V>(s: State<K, V>, step: Step<K, V>, k: K) {
    step.Release? && s.lock.Some? && s.lock.value.EnterOp? && s.lock.value.key == k && k !in s.inFlight
  }

  /** Only the start of a flight makes one run that did not run before. */
  lemma NothingElseRuns<K(!new), V(!new)>(s: State<K, V>, step: Step<K, V>, f: nat)
    requires WellFormed(s) && Enabled(s, step) && Running(Apply(s, step), f)
    ensures Running(s, f) || (step.Release? && f == step.id && Leads(s, step, Apply(s, step).flights[f].key))
  {
    var t := Apply(s, step);
    if f in s.flights && !Found(s, f) && !Found(t, f) {
      var c :| c in t.callers && Waits(t, c, f);
      assert c in s.callers && Waits(s, c, f);
    }
  }

  /** A started flight runs beside every flight that was running. */
  lemma LeaderRuns<K(!new), V(!new)>(s: State<K, V>, step: Step<K, V>, k: K, g: nat)
    requires WellFormed(s) && Enabled(s, step) && Leads(s, step, k) && Running(s, g)
    ensures var t := Apply(s, step);
            && g != step.id && Running(t, g) && t.flights[g] == s.flights[g]
            && Running(t, step.id) && t.flights[step.id].key == k
  {
    var t := Apply(s, step);
    if !Found(s, g) {
      var c :| c in s.callers && Waits(s, c, g);
      assert c in t.callers && Waits(t, c, g);
    }
  }

  /** The step starts a second producer of some key. */
  ghost predicate Doubles<K(!new), V(!new)>(s: State<K, V>, step: Step<K, V>) {
    exists g :: Running(s, g) && Leads(s, step, s.flights[g].key)
  }

  /** A step keeps exclusivity exactly when it does not start a flight of a key that has one running. */
  lemma ExclusiveStep<K(!new), V(!new)>(s: State<K, V>, step: Step<K, V>)
    requires WellFormed(s) && Exclusive(s) && Enabled(s, step)
    ensures Exclusive(Apply(s, step)) <==> !Doubles(s, step)
  {
    var t := Apply(s, step);
    if Doubles(s, step) {
      var g :| Running(s, g) && Leads(s, step, s.flights[g].key);
      LeaderRuns(s, step, s.flights[g].key, g);
      assert Running(t, g) && Running(t, step.id);
    } else {
      forall f, g | Running(t, f) && Running(t, g) && t.flights[f].key == t.flights[g].key ensures f == g {
        NothingElseRuns(s, step, f);
        NothingElseRuns(s, step, g);
      }
    }
  }

  /** The step ends a section that removes the entry of `k`: forget, clear, or a leader's guard. */
  predicate Removes<K(==), V>(s: State<K, V>, step: Step<K, V>, k: K) {
    step.Release? && s.lock.Some? &&
    match s.lock.value
    case ForgetOp(x) => x == k
    case DropOp(x) => x == k
    case ClearOp => true
    case _ => false
  }

  /** The section of forget, clear or a guard removes exactly these entries, and only a new leader adds one. */
  lemma EntriesExactly<K(!new), V(!new)>(s: State<K, V>, step: Step<K, V>, k: K)
    requires Enabled(s, step)
    ensures var t := Apply(s, step);
            && (k in t.inFlight <==> (k in s.inFlight && !Removes(s, step, k)) || Leads(s, step, k))
            && (k in t.inFlight && k in s.inFlight ==> t.inFlight[k] == s.inFlight[k])
  {
  }

  /** A running flight whose entry is gone lost it to a removal while it was running. */
  lemma {:induction false} LostItsEntry<K(!new), V(!new)>(steps: seq<Step<K, V>>, n: nat, g: nat)
    requires IsRun(steps) && n <= |steps| && Running(At(steps, n), g) && !Found(At(steps, n), g)
    ensures exists m: nat :: m < n && RemovedAt(steps, m, g)
  {
    if n > 0 {
      var s, step := At(steps, n - 1), steps[n - 1];
      RunStep(steps, n - 1);
      RunWellFormed(steps, n - 1);
      NothingElseRuns(s, step, g);
      if Found(s, g) {
        assert RemovedAt(steps, n - 1, g);
      } else {
        LostItsEntry(steps, n - 1, g);
      }
    }
  }

  /** Step m removes the entry of flight g while g is running. */
  ghost predicate RemovedAt<K(!new), V(!new)>(steps: seq<Step<K, V>>, m: nat, g: nat)
    requires IsRun(steps)
  {
    && m < |steps| && Running(At(steps, m), g) && Found(At(steps, m), g)
    && Removes(At(steps, m), steps[m], At(steps, m).flights[g].key)
  }

  /** Flight g loses its entry at m and is still running when a call for its key becomes leader at n. */
  ghost predicate Overlap<K(!new), V(!new)>(steps: seq<Step<K, V>>, m: nat, n: nat, g: nat)
    requires IsRun(steps)
  {
    && m < n < |steps| && RemovedAt(steps, m, g)
    && Running(At(steps, n), g) && Leads(At(steps, n), steps[n], At(steps, n).flights[g].key)
  }

  ghost predicate ExclusiveAt<K(!new), V(!new)>(steps: seq<Step<K, V>>, n: nat)
    requires IsRun(steps)
  {
    n <= |steps| ==> Exclusive(At(steps, n))
  }

  lemma {:induction false} NoOverlapIsExclusive<K(!new), V(!new)>(steps: seq<Step<K, V>>, n: nat)
    requires IsRun(steps) && n <= |steps| && forall m: nat, n: nat, g: nat :: !Overlap(steps, m, n, g)
    ensures Exclusive(At(steps, n))
  {
    if n > 0 {
      NoOverlapIsExclusive(steps, n - 1);
      RunStep(steps, n - 1);
      RunWellFormed(steps, n - 1);
      var s, step := At(steps, n - 1), steps[n - 1];
      if Doubles(s, step) {
        var g :| Running(s, g) && Leads(s, step, s.flights[g].key);
        LostItsEntry(steps, n - 1, g);
        var m: nat :| m < n - 1 && RemovedAt(steps, m, g);
        assert Overlap(steps, m, n - 1, g);
      }
      ExclusiveStep(s, step);
    }
  }

  /**
   At every moment of a run at most one producer per key is running, exactly when no running
   flight's entry is removed (by forget, clear or a leader's guard) and a call for its key
   becomes leader while it still runs.
   */
  lemma ExclusiveRunsExactly<K(!new), V(!new)>(steps: seq<Step<K, V>>)
    requires IsRun(steps)
    ensures (forall n: nat :: ExclusiveAt(steps, n)) <==> (forall m: nat, n: nat, g: nat :: !Overlap(steps, m, n, g))
  {
    if m: nat, n: nat, g: nat :| Overlap(steps, m, n, g) {
      RunStep(steps, n);
      RunWellFormed(steps, n);
      LeaderRuns(At(steps, n), steps[n], At(steps, n).flights[g].key, g);
      assert !ExclusiveAt(steps, n + 1);
    } else {
      forall n: nat ensures ExclusiveAt(steps, n) {
        if n <= |steps| { NoOverlapIsExclusive(steps, n); }
      }
    }
  }

  // ----- runs without forget, clear or leader cancellation -----

  predicate Plain<K, V>(s: State<K, V>, step: Step<K, V>)
    requires Enabled(s, step)
  {
    match step
    case Acquire(op) => !op.ForgetOp? && !op.ClearOp?
    case Cancel(c) => s.callers[c].role == Joined
    case _ => true
  }

  ghost predicate PlainAt<K(!new), V(!new)>(steps: seq<Step<K, V>>, n: nat)
    requires IsRun(steps)
  {
    n < |steps| ==> Enabled(At(steps, n), steps[n]) && Plain(At(steps, n), steps[n])
  }

  ghost predicate PlainRun<K(!new), V(!new)>(steps: seq<Step<K, V>>)
    requires IsRun(steps)
  {
    forall n: nat :: PlainAt(steps, n)
  }

  predicate IsLeader<K, V>(s: State<K, V>, c: nat) { c in s.callers && s.callers[c].role == Leader }

  predicate IsLeading<K, V(==)>(s: State<K, V>, c: nat) { IsLeader(s, c) && s.callers[c].Waiting? }

  /** No leader waits for flight f any more. */
  ghost predicate LeaderGone<K(!new), V(!new)>(s: State<K, V>, f: nat) {
    forall c :: IsLeading(s, c) ==> s.callers[c].flight != f
  }

  /**
   A waiting leader's flight is the one its key finds, a flight has one leader ever, an
   unfinished flight's leader waits, and a guard removes only the entry of a flight that is over.
   */
  ghost predicate Led<K(!new), V(!new)>(s: State<K, V>) {
    && (forall c :: IsLeading(s, c) ==> Found(s, s.callers[c].flight))
    && (forall c, d :: IsLeader(s, c) && IsLeader(s, d) && s.callers[c].flight == s.callers[d].flight ==> c == d)
    && (forall f :: f in s.flights && s.flights[f].status.Pending? ==>
          exists c :: IsLeading(s, c) && s.callers[c].flight == f)
    && (s.lock.Some? ==> !s.lock.value.ForgetOp? && !s.lock.value.ClearOp?)
    && (s.lock.Some? && s.lock.value.DropOp? && s.lock.value.key in s.inFlight ==>
          LeaderGone(s, s.inFlight[s.lock.value.key]))
  }

  lemma LedIsExclusive<K(!new), V(!new)>(s: State<K, V>)
    requires Led(s)
    ensures Exclusive(s)
  {
  }

  lemma PlainKeepsLed<K(!new), V(!new)>(s: State<K, V>, step: Step<K, V>)
    requires WellFormed(s) && Led(s) && Enabled(s, step) && Plain(s, step)
    ensures Led(Apply(s, step))
  {
    var t := Apply(s, step);
    PendingHaveLeaders(s, step);
    forall c | IsLeading(t, c) ensures Found(t, t.callers[c].flight) {
      assert c in s.callers ==> IsLeading(s, c);
    }
    forall c, d | IsLeader(t, c) && IsLeader(t, d) && t.callers[c].flight == t.callers[d].flight ensures c == d {
      assert c in s.callers ==> IsLeader(s, c);
      assert d in s.callers ==> IsLeader(s, d);
    }
  }

  lemma PendingHaveLeaders<K(!new), V(!new)>(s: State<K, V>, step: Step<K, V>)
    requires Led(s) && Enabled(s, step) && Plain(s, step)
    ensures var t := Apply(s, step);
            forall f :: f in t.flights && t.flights[f].status.Pending? ==>
              exists c :: IsLeading(t, c) && t.callers[c].flight == f
  {
    var t := Apply(s, step);
    forall f | f in t.flights && t.flights[f].status.Pending?
      ensures exists c :: IsLeading(t, c) && t.callers[c].flight == f
    {
      if f !in s.flights {
        assert IsLeading(t, s.lock.value.caller);
      } else {
        var c :| IsLeading(s, c) && s.callers[c].flight == f;
        assert IsLeading(t, c);
      }
    }
  }

  /** At most one producer per key runs at any moment, in every interleaving and whoever gets the lock. */
  lemma {:induction false} PlainRunsAreExclusive<K(!new), V(!new)>(steps: seq<Step<K, V>>, n: nat)
    requires IsRun(steps) && PlainRun(steps) && n <= |steps|
    ensures Led(At(steps, n)) && Exclusive(At(steps, n))
  {
    if n > 0 {
      PlainRunsAreExclusive(steps, n - 1);
      RunWellFormed(steps, n - 1);
      RunStep(steps, n - 1);
      assert PlainAt(steps, n - 1);
      PlainKeepsLed(At(steps, n - 1), steps[n - 1]);
    }
    LedIsExclusive(At(steps, n));
  }

  /** A call, then forget. */
  function Forgotten<K, V>(k: K): seq<Step<K, V>> {
    [Acquire(EnterOp(0, k)), Release(0), Acquire(ForgetOp(k)), Release(0)]
  }

  function Orphan<K(==), V>(k: K): State<K, V> {
    State(None, map[], map[0 := Flight(k, Pending)], map[0 := Waiting(0, Leader)])
  }

  lemma ForgottenRuns<K(!new), V(!new)>(k: K, steps: seq<Step<K, V>>)
    requires Forgotten(k) <= steps
    ensures Moment(Next<K, V>, Start<K, V>(), steps, 4) == Some(Orphan<K, V>(k))
  {
    var next, start := Next<K, V>, Start<K, V>();
    assert forall i :: 0 <= i < 4 ==> steps[i] == Forgotten<K, V>(k)[i];
    assert Moment(next, start, steps, 0) == Some(start);
    assert Moment(next, start, steps, 1) == Some(start.(lock := Some(EnterOp(0, k))));
    var led: State<K, V> := State(None, map[k := 0], map[0 := Flight(k, Pending)], map[0 := Waiting(0, Leader)]);
    assert Moment(next, start, steps, 2) == Some(led);
    assert Moment(next, start, steps, 3) == Some(led.(lock := Some(ForgetOp(k))));
    assert led.inFlight - {k} == map[];
  }

  /** With forget, two producers of one key can run at once. */
  lemma ForgetAllowsTwoProducers<K(!new), V(!new)>(k: K)
    ensures var steps: seq<Step<K, V>> := Forgotten(k) + [Acquire(EnterOp(1, k)), Release(1)];
            IsRun(steps) && !Exclusive(At(steps, 6))
  {
    var steps: seq<Step<K, V>> := Forgotten(k) + [Acquire(EnterOp(1, k)), Release(1)];
    var next, start := Next<K, V>, Start<K, V>();
    ForgottenRuns(k, steps);
    var s := Orphan<K, V>(k).(lock := Some(EnterOp(1, k)));
    assert Moment(next, start, steps, 5) == Some(s);
    assert Moment(next, start, steps, 6) == Some(Apply(s, steps[5]));
    assert Waits(s, 0, 0);
    assert Running(s, 0);
    LeaderRuns(s, steps[5], k, 0);
    assert Running(Apply(s, steps[5]), 1);
  }

  // ----- is the entry removed on completion? -----

  /** Flight f is in the map only while a guard is about to remove it. */
  ghost predicate Going<K(!new), V(!new)>(s: State<K, V>, k: K, f: nat) {
    f in s.flights && (k in s.inFlight && s.inFlight[k] == f ==> s.lock == Some(DropOp(k)))
  }

  /** Flight f stays in the map although its leader has returned. */
  ghost predicate Stale<K(!new), V(!new)>(s: State<K, V>, k: K, f: nat) {
    && f in s.flights && k in s.inFlight && s.inFlight[k] == f && LeaderGone(s, f)
    && s.lock != Some(DropOp(k))
  }

  lemma StaleStep<K(!new), V(!new)>(s: State<K, V>, step: Step<K, V>, k: K, f: nat)
    requires WellFormed(s) && Led(s) && Enabled(s, step) && Plain(s, step) && Stale(s, k, f)
    ensures Stale(Apply(s, step), k, f)
  {
    var t := Apply(s, step);
    forall c | IsLeading(t, c) ensures t.callers[c].flight != f {
      if c in s.callers { assert IsLeading(s, c); }
    }
    if step.Return? && s.callers[step.caller].role == Leader {
      assert IsLeading(s, step.caller);
    }
  }

  lemma {:induction false} StaleForever<K(!new), V(!new)>(steps: seq<Step<K, V>>, m: nat, n: nat, k: K, f: nat)
    requires IsRun(steps) && PlainRun(steps) && m <= n <= |steps| && Stale(At(steps, m), k, f)
    ensures Stale(At(steps, n), k, f)
  {
    if m < n {
      StaleForever(steps, m, n - 1, k, f);
      PlainRunsAreExclusive(steps, n - 1);
      RunWellFormed(steps, n - 1);
      RunStep(steps, n - 1);
      assert PlainAt(steps, n - 1);
      StaleStep(At(steps, n - 1), steps[n - 1], k, f);
    }
  }

  lemma {:induction false} GoneForever<K(!new), V(!new)>(steps: seq<Step<K, V>>, m: nat, n: nat, k: K, f: nat)
    requires IsRun(steps) && m <= n <= |steps| && Going(At(steps, m), k, f)
    ensures Going(At(steps, n), k, f)
  {
    if m < n {
      GoneForever(steps, m, n - 1, k, f);
      RunStep(steps, n - 1);
    }
  }

  /**
   The documentation says the entry is removed when the future completes. A call for the key
   that ends its section after the leader returned finds the finished flight, and so receives
   its old value, exactly when the lock was taken at the moment the leader returned.
   */
  lemma StaleExactly<K(!new), V(!new)>(steps: seq<Step<K, V>>, m: nat, n: nat, c: nat, d: nat, k: K, f: nat)
    requires IsRun(steps) && PlainRun(steps) && m < n < |steps|
    requires steps[m] == Return(c) && IsLeading(At(steps, m), c) && At(steps, m).callers[c].flight == f
    requires f in At(steps, m).flights && At(steps, m).flights[f].key == k
    requires steps[n].Release? && At(steps, n).lock == Some(EnterOp(d, k))
    ensures k in At(steps, n).inFlight && At(steps, n).inFlight[k] == f <==> At(steps, m).lock.Some?
  {
    var s := At(steps, m);
    RunStep(steps, m);
    PlainRunsAreExclusive(steps, m);
    var t := At(steps, m + 1);
    if s.lock.None? {
      GoneForever(steps, m + 1, n, k, f);
    } else {
      forall x | IsLeading(t, x) ensures t.callers[x].flight != f {
        assert IsLeader(s, x) && IsLeader(s, c);
      }
      assert s.lock == Some(DropOp(k)) ==> LeaderGone(s, f);
      assert Stale(t, k, f);
      StaleForever(steps, m + 1, n, k, f);
    }
  }

  /** A count holds the lock while the leader returns; a second call comes after the count is done. */
  function MissedLock<K, V>(k: K, v: V): seq<Step<K, V>> {
    [Acquire(EnterOp(0, k)), Release(0), Complete(0, v), Acquire(CountOp), Return(0), Release(0),
     Acquire(EnterOp(1, k)), Release(1)]
  }

  /** The coordinator after each of those steps. */
  function MissedStates<K(==), V>(k: K, v: V): seq<State<K, V>> {
    var led: State<K, V> := State(None, map[k := 0], map[0 := Flight(k, Pending)], map[0 := Waiting(0, Leader)]);
    var done := led.(flights := map[0 := Flight(k, Finished(v))]);
    var gone := done.(callers := map[0 := Returned(0, Leader, v)]);
    [Start(), Start<K, V>().(lock := Some(EnterOp(0, k))), led, done, done.(lock := Some(CountOp)),
     gone.(lock := Some(CountOp)), gone, gone.(lock := Some(EnterOp(1, k))),
     gone.(callers := map[0 := Returned(0, Leader, v), 1 := Waiting(0, Joined)])]
  }

  lemma MissedStep<K(!new), V(!new)>(k: K, v: V, n: nat)
    requires n < 8
    ensures var s, step := MissedStates(k, v)[n], MissedLock(k, v)[n];
            Enabled(s, step) && Apply(s, step) == MissedStates(k, v)[n + 1] && Plain(s, step)
  {
    if n == 2 { assert Found(MissedStates(k, v)[2], 0); }
  }

  lemma {:induction false} MissedRuns<K(!new), V(!new)>(k: K, v: V, n: nat)
    requires n <= 8
    ensures Moment(Next<K, V>, Start<K, V>(), MissedLock(k, v), n) == Some(MissedStates(k, v)[n])
  {
    if n > 0 {
      MissedRuns(k, v, n - 1);
      MissedStep(k, v, n - 1);
    }
  }

  /** The entry can outlive its flight: the later call joins the finished flight and is given its old value. */
  lemma GuardMissesLock<K(!new), V(!new)>(k: K, v: V)
    ensures var steps := MissedLock<K, V>(k, v);
            && IsRun(steps) && PlainRun(steps)
            && steps[4] == Return(0) && IsLeading(At(steps, 4), 0) && At(steps, 4).lock == Some(CountOp)
            && At(steps, 8) == MissedStates(k, v)[8]
            && MissedStates(k, v)[8].callers[1] == Waiting(0, Joined)
            && MissedStates(k, v)[8].flights[0] == Flight(k, Finished(v))
  {
    var steps := MissedLock<K, V>(k, v);
    MissedRuns(k, v, 8);
    forall n: nat ensures PlainAt(steps, n) {
      if n < 8 {
        MissedRuns(k, v, n);
        MissedStep(k, v, n);
      }
    }
    MissedRuns(k, v, 4);
  }
}

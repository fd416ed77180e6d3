/**
 One client connection of the daemon (tuxstack-daemon/src/ipc.rs, serve_client): the request and
 subscription tables of the main loop, the subscription tasks, and the outbound queue, as a
 transition system with free interleaving.
 */
module Connection {
  import opened Common
  import opened Runs

  const MAX_REQUESTS: nat := 64
  const MAX_SUBSCRIPTIONS: nat := 32
  const MAX_STREAM_TASKS: nat := 32
  const MAX_MEMBERS: nat := 16
  const MAX_DIMENSION: nat := 4096
  const MAX_ID: nat := 0xFFFF_FFFF_FFFF_FFFF

  // ----- subscription requests -----

  datatype Subscription =
    | Stats(ids: seq<Bytes>)
    | Logs(ids: seq<Bytes>)
    | Terminal(container: Bytes, rows: nat, cols: nat, user: Option<Bytes>, workdir: Option<Bytes>)
    | Single

  /** The length of the Unicode White_Space character, in UTF-8, at the front of `s`, or 0. */
  function SpaceLen(s: Bytes): (n: nat)
    ensures n <= |s|
  {
    if |s| >= 1 && (s[0] == 0x20 || 0x09 <= s[0] <= 0x0D) then 1
    else if |s| >= 2 && s[0] == 0xC2 && (s[1] == 0x85 || s[1] == 0xA0) then 2
    else if |s| >= 3 && WideSpace(s[0], s[1], s[2]) then 3
    else 0
  }

  /** U+1680, U+2000 to U+200A, U+2028, U+2029, U+202F, U+205F and U+3000. */
  predicate WideSpace(a: byte, b: byte, c: byte) {
    || (a == 0xE1 && b == 0x9A && c == 0x80)
    || (a == 0xE2 && b == 0x80 && (0x80 <= c <= 0x8A || c == 0xA8 || c == 0xA9 || c == 0xAF))
    || (a == 0xE2 && b == 0x81 && c == 0x9F)
    || (a == 0xE3 && b == 0x80 && c == 0x80)
  }

  /** trim() leaves nothing. */
  predicate Blank(s: Bytes) { s == [] || (SpaceLen(s) > 0 && Blank(s[SpaceLen(s)..])) }

  /** A visible ASCII character anywhere is not trimmed away; ASCII whitespace alone is. */
  lemma {:induction false} BlankAscii(s: Bytes)
    ensures (exists i :: 0 <= i < |s| && 0x21 <= s[i] <= 0x7E) ==> !Blank(s)
    ensures (forall i :: 0 <= i < |s| ==> s[i] == 0x20 || 0x09 <= s[i] <= 0x0D) ==> Blank(s)
    decreases |s|
  {
    if s != [] && SpaceLen(s) > 0 {
      var n := SpaceLen(s);
      BlankAscii(s[n..]);
      assert forall i :: 0 <= i < n ==> !(0x21 <= s[i] <= 0x7E);
      if i :| 0 <= i < |s| && 0x21 <= s[i] <= 0x7E { assert s[n..][i - n] == s[i]; }
    }
  }

  predicate BadOption(user: Option<Bytes>, workdir: Option<Bytes>) {
    || (user.Some? && (user.value == [] || 0 in user.value))
    || (workdir.Some? && (workdir.value == [] || 0 in workdir.value || workdir.value[0] != SLASH))
  }

  predicate GoodSize(n: nat) { 1 <= n <= MAX_DIMENSION }

  /** subscription_task_cost; None is an InvalidRequest reply. */
  function TaskCost(sub: Subscription): (r: Option<nat>)
    ensures sub.Stats? || sub.Logs? ==>
              && (r.Some? <==> 1 <= |sub.ids| <= 16 && forall i :: 0 <= i < |sub.ids| ==> !Blank(sub.ids[i]))
              && (r.Some? ==> r.value == |sub.ids|)
    ensures sub.Terminal? ==>
              && (r.Some? <==>
                    && !Blank(sub.container) && 1 <= sub.rows <= 4096 && 1 <= sub.cols <= 4096
                    && (sub.user.Some? ==> sub.user.value != [] && 0 !in sub.user.value)
                    && (sub.workdir.Some? ==> 0 !in sub.workdir.value && [SLASH] <= sub.workdir.value))
              && (r.Some? ==> r.value == 1)
    ensures sub.Single? ==> r == Some(1)
  {
    match sub
    case Stats(ids) => MemberCost(ids)
    case Logs(ids) => MemberCost(ids)
    case Terminal(c, rows, cols, user, workdir) =>
      if Blank(c) || !GoodSize(rows) || !GoodSize(cols) || BadOption(user, workdir) then None else Some(1)
    case Single => Some(1)
  }

  function MemberCost(ids: seq<Bytes>): Option<nat> {
    if ids == [] || |ids| > MAX_MEMBERS || exists i :: 0 <= i < |ids| && Blank(ids[i]) then None else Some(|ids|)
  }

  // ----- the sum of live costs -----

  ghost function Sum(m: map<nat, nat>): nat {
    if m == map[] then 0 else var k :| k in m; m[k] + Sum(m - {k})
  }

  lemma {:induction false} SumRemove(m: map<nat, nat>, k: nat)
    requires k in m
    ensures Sum(m) == m[k] + Sum(m - {k})
    decreases |m|
  {
    var j :| j in m && Sum(m) == m[j] + Sum(m - {j});
    if j != k {
      SumRemove(m - {j}, k);
      assert m - {j} - {k} == m - {k} - {j};
      SumRemove(m - {k}, j);
    }
  }

  lemma SumInsert(m: map<nat, nat>, k: nat, v: nat)
    requires k !in m
    ensures Sum(m[k := v]) == Sum(m) + v
  {
    SumRemove(m[k := v], k);
    assert m[k := v] - {k} == m;
  }

  // ----- the search for a subscription ID -----

  /** wrapping_add(1).max(1) on 64 bits. */
  function Succ(id: nat): nat { if id >= MAX_ID then 1 else id + 1 }

  function Advance(id: nat, n: nat): nat { if n == 0 then id else Succ(Advance(id, n - 1)) }

  lemma {:induction false} AdvanceForm(id: nat, n: nat)
    requires 1 <= id <= MAX_ID && n < MAX_ID
    ensures Advance(id, n) == if id + n <= MAX_ID then id + n else id + n - MAX_ID
    ensures 1 <= Advance(id, n) <= MAX_ID
  {
    if n > 0 { AdvanceForm(id, n - 1); }
  }

  /** The first n candidates. */
  ghost function Candidates(id: nat, n: nat): set<nat> {
    if n == 0 then {} else Candidates(id, n - 1) + {Advance(id, n - 1)}
  }

  lemma {:induction false} CandidateIndex(id: nat, n: nat, x: nat) returns (i: nat)
    requires x in Candidates(id, n)
    ensures i < n && x == Advance(id, i)
  {
    if x == Advance(id, n - 1) { i := n - 1; } else { i := CandidateIndex(id, n - 1, x); }
  }

  /** They are pairwise distinct. */
  lemma {:induction false} CandidatesSize(id: nat, n: nat)
    requires 1 <= id <= MAX_ID && n <= MAX_ID
    ensures |Candidates(id, n)| == n
  {
    if n > 0 {
      CandidatesSize(id, n - 1);
      if Advance(id, n - 1) in Candidates(id, n - 1) {
        var i := CandidateIndex(id, n - 1, Advance(id, n - 1));
        AdvanceForm(id, i);
        AdvanceForm(id, n - 1);
      }
    }
  }

  lemma {:induction false} CandidatesUsed(id: nat, n: nat, used: set<nat>)
    requires forall i: nat :: i < n ==> Advance(id, i) in used
    ensures Candidates(id, n) <= used
  {
    if n > 0 { CandidatesUsed(id, n - 1, used); }
  }

  /** `id` is the first unused candidate from `next` on. */
  ghost predicate FirstFree(used: set<nat>, next: nat, id: nat) {
    && id !in used
    && exists n: nat ::
         n <= |used| && id == Advance(next, n) && forall i: nat :: i < n ==> Advance(next, i) in used
  }

  lemma FirstFreeUnique(used: set<nat>, next: nat, a: nat, b: nat)
    requires FirstFree(used, next, a) && FirstFree(used, next, b)
    ensures a == b
  {
    var m: nat :| m <= |used| && a == Advance(next, m) && forall i: nat :: i < m ==> Advance(next, i) in used;
    var n: nat :| n <= |used| && b == Advance(next, n) && forall i: nat :: i < n ==> Advance(next, i) in used;
  }

  /** The `while contains_key` loop ends, at the first unused ID in cyclic order, which is never 0. */
  method FindId(used: set<nat>, next: nat) returns (id: nat)
    requires 1 <= next <= MAX_ID && |used| < MAX_ID
    ensures FirstFree(used, next, id) && 1 <= id <= MAX_ID
  {
    id := next;
    ghost var n := 0;
    while id in used
      invariant n <= |used| && id == Advance(next, n) && 1 <= id <= MAX_ID
      invariant forall i: nat :: i < n ==> Advance(next, i) in used
      decreases |used| - n
    {
      CandidatesUsed(next, n + 1, used);
      CandidatesSize(next, n + 1);
      SubsetSize(Candidates(next, n + 1), used);
      n := n + 1;
      id := if id == MAX_ID then 1 else id + 1;
    }
  }

  // ----- the system -----

  /** How far a subscription task has come. Terminals pass through Fresh, Connected and Live. */
  datatype Phase = Unspawned | Streaming | Fresh | Connected | Live | Closing | Finished | Reported

  /** Accepted subscriptions are numbered; the number tells apart uses of a recycled ID. */
  datatype Instance = Instance(id: nat, cost: nat, terminal: bool, phase: Phase)

  /** A request task: at work, its response handed to the queue, or its done-message taken by the loop. */
  datatype Work = Work(id: nat, stage: Stage)

  datatype Stage = Busy | Answered | Collected

  datatype Said = Data | Connecting | Running | Output | Exited | FailedState

  /** What is put on the outbound queue. */
  datatype Msg = Reply | Subscribed(inst: nat) | Event(inst: nat, said: Said) | Ended(inst: nat)

  /** `dropped` is history: the accepted subscriptions the client has unsubscribed. */
  datatype State = State(
    open: bool, requests: set<nat>, subs: map<nat, nat>, tasks: nat, nextId: nat,
    works: seq<Work>, instances: seq<Instance>, dropped: set<nat>, out: seq<Msg>)

  function Start(): State { State(true, {}, map[], 0, 1, [], [], {}, []) }

  /** `delivered` is false when the send fails, times out or is cut short by cancellation. */
  datatype Step =
    | Request(id: nat)
    | Respond(work: nat, delivered: bool)
    | RequestDone(work: nat)
    | Pong
    | Refuse(sub: Subscription)
    | Subscribe(sub: Subscription, id: nat, delivered: bool)
    | Unsubscribe(id: nat)
    | Emit(inst: nat, said: Said, delivered: bool)
    | Quit(inst: nat)
    | Finish(inst: nat, delivered: bool)
    | SubscriptionDone(inst: nat)
    | HangUp

  predicate HasRoom(s: State, cost: nat) { |s.subs| < MAX_SUBSCRIPTIONS && s.tasks + cost <= MAX_STREAM_TASKS }

  /** The phase after an event has been sent, or could not be sent. */
  function NextPhase(phase: Phase, said: Said, delivered: bool): Option<Phase> {
    match (phase, said)
    case (Streaming, Data) => Some(Streaming)
    case (Fresh, Connecting) => Some(if delivered then Connected else Closing)
    case (Connected, Running) => Some(if delivered then Live else Closing)
    case (Connected, FailedState) => Some(Closing)
    case (Live, Output) => Some(if delivered then Live else Closing)
    case (Live, Exited) => Some(Closing)
    case (Live, FailedState) => Some(Closing)
    case _ => None
  }

  ghost predicate Enabled(s: State, step: Step) {
    match step
    case Request(_) => s.open
    case Respond(j, _) => j < |s.works| && s.works[j].stage.Busy?
    case RequestDone(j) => s.open && j < |s.works| && s.works[j].stage.Answered?
    case Pong => s.open
    case Refuse(sub) => s.open && (TaskCost(sub).None? || !HasRoom(s, TaskCost(sub).value))
    case Subscribe(sub, id, _) =>
      s.open && TaskCost(sub).Some? && HasRoom(s, TaskCost(sub).value) && FirstFree(s.subs.Keys, s.nextId, id)
    case Unsubscribe(_) => s.open
    case Emit(i, said, d) => i < |s.instances| && NextPhase(s.instances[i].phase, said, d).Some?
    case Quit(i) => i < |s.instances| && (s.instances[i].phase.Connected? || s.instances[i].phase.Live?)
    case Finish(i, _) => i < |s.instances| && (s.instances[i].phase.Streaming? || s.instances[i].phase.Closing?)
    case SubscriptionDone(i) => s.open && i < |s.instances| && s.instances[i].phase.Finished?
    case HangUp => true
  }

  function SatSub(a: nat, b: nat): nat { if a <= b then 0 else a - b }

  /** Removing an ID from the table gives its cost back; an unknown ID changes nothing. */
  function Release(s: State, id: nat): State {
    if id in s.subs then s.(subs := s.subs - {id}, tasks := SatSub(s.tasks, s.subs[id])) else s
  }

  function SetPhase(s: State, i: nat, phase: Phase): State
    requires i < |s.instances|
  {
    s.(instances := s.instances[i := s.instances[i].(phase := phase)])
  }

  function SetStage(s: State, j: nat, stage: Stage): State
    requires j < |s.works|
  {
    s.(works := s.works[j := s.works[j].(stage := stage)])
  }

  /** The accepted subscriptions that bear an ID. */
  function Bearing(instances: seq<Instance>, id: nat): set<nat> {
    set i | 0 <= i < |instances| && instances[i].id == id
  }

  function Drop(s: State, id: nat): State { s.(dropped := s.dropped + Bearing(s.instances, id)) }

  function Send(s: State, m: Msg, delivered: bool): State { if delivered then s.(out := s.out + [m]) else s }

  ghost function Apply(s: State, step: Step): State
    requires Enabled(s, step)
  {
    match step
    case Request(id) =>
      if id == 0 || id in s.requests || |s.requests| >= MAX_REQUESTS then Send(s, Reply, true)
      else s.(requests := s.requests + {id}, works := s.works + [Work(id, Busy)])
    case Respond(j, delivered) => Send(SetStage(s, j, Answered), Reply, delivered)
    case RequestDone(j) => SetStage(s, j, Collected).(requests := s.requests - {s.works[j].id})
    case Pong => Send(s, Reply, true)
    case Refuse(_) => Send(s, Reply, true)
    case Subscribe(sub, id, delivered) =>
      var cost := TaskCost(sub).value;
      var first := if !delivered then Unspawned else if sub.Terminal? then Fresh else Streaming;
      var t := s.(subs := s.subs[id := cost], tasks := s.tasks + cost, nextId := Succ(id), open := delivered,
                  instances := s.instances + [Instance(id, cost, sub.Terminal?, first)]);
      Send(t, Subscribed(|s.instances|), delivered)
    case Unsubscribe(id) => Send(Release(Drop(s, id), id), Reply, true)
    case Emit(i, said, delivered) =>
      Send(SetPhase(s, i, NextPhase(s.instances[i].phase, said, delivered).value), Event(i, said), delivered)
    case Quit(i) => SetPhase(s, i, Closing)
    case Finish(i, delivered) => Send(SetPhase(s, i, Finished), Ended(i), delivered)
    case SubscriptionDone(i) => Release(SetPhase(s, i, Reported), s.instances[i].id)
    case HangUp => s.(open := false)
  }

  // ----- limits and accounting -----

  ghost predicate Bounded(s: State) {
    && |s.requests| <= MAX_REQUESTS && 0 !in s.requests
    && |s.subs| <= MAX_SUBSCRIPTIONS
    && s.tasks == Sum(s.subs) <= MAX_STREAM_TASKS
    && 1 <= s.nextId <= MAX_ID
    && forall id :: id in s.subs ==> 1 <= id <= MAX_ID && 1 <= s.subs[id]
  }

  /** Giving back a cost never saturates. */
  lemma ReleaseKeeps(s: State, id: nat)
    requires Bounded(s)
    ensures Bounded(Release(s, id))
    ensures id in s.subs ==> s.subs[id] <= s.tasks && Release(s, id).tasks == s.tasks - s.subs[id]
  {
    if id in s.subs {
      SumRemove(s.subs, id);
      assert (s.subs - {id}).Keys == s.subs.Keys - {id};
    }
  }

  lemma FirstFreeInRange(s: State, id: nat)
    requires Bounded(s) && FirstFree(s.subs.Keys, s.nextId, id)
    ensures 1 <= id <= MAX_ID && id !in s.subs
  {
    var n: nat :| n <= |s.subs.Keys| && id == Advance(s.nextId, n);
    AdvanceForm(s.nextId, n);
  }

  /** Bounded looks only at the tables and the counters. */
  lemma SameTables(s: State, t: State)
    requires Bounded(s) && t.requests == s.requests && t.subs == s.subs && t.tasks == s.tasks && t.nextId == s.nextId
    ensures Bounded(t)
  {
  }

  lemma InsertBounded(s: State, id: nat, cost: nat)
    requires Bounded(s) && 1 <= cost && HasRoom(s, cost) && 1 <= id <= MAX_ID && id !in s.subs
    ensures Bounded(s.(subs := s.subs[id := cost], tasks := s.tasks + cost, nextId := Succ(id)))
  {
    SumInsert(s.subs, id, cost);
    assert s.subs[id := cost].Keys == s.subs.Keys + {id};
  }

  lemma SubscribeBounded(s: State, step: Step)
    requires Bounded(s) && step.Subscribe? && Enabled(s, step)
    ensures Bounded(Apply(s, step))
  {
    var id, cost := step.id, TaskCost(step.sub).value;
    FirstFreeInRange(s, id);
    InsertBounded(s, id, cost);
    SameTables(s.(subs := s.subs[id := cost], tasks := s.tasks + cost, nextId := Succ(id)), Apply(s, step));
  }

  lemma ApplyBounded(s: State, step: Step)
    requires Bounded(s) && Enabled(s, step)
    ensures Bounded(Apply(s, step))
  {
    match step
    case Subscribe(_, _, _) => SubscribeBounded(s, step);
    case Unsubscribe(id) => ReleaseKeeps(Drop(s, id), id);
    case SubscriptionDone(i) => ReleaseKeeps(SetPhase(s, i, Reported), s.instances[i].id);
    case _ =>
  }

  ghost function Next(s: State, step: Step): Option<State> {
    if Enabled(s, step) then Some(Apply(s, step)) else None
  }

  ghost predicate IsRun(steps: seq<Step>) { Legal(Next, Start(), steps) }

  /** A hang-up and a failed acceptance close the loop, nothing else does; a closed loop takes nothing any more. */
  lemma ClosedExactly(s: State, step: Step)
    requires Enabled(s, step)
    ensures Apply(s, step).open <==> s.open && !step.HangUp? && !(step.Subscribe? && !step.delivered)
    ensures !s.open ==>
              var t := Apply(s, step); t.requests == s.requests && t.subs == s.subs && |t.instances| == |s.instances|
  {
  }

  /** The connection after the first n steps of a run. */
  ghost function At(steps: seq<Step>, n: nat): State
    requires IsRun(steps) && n <= |steps|
  {
    StateAt(Next, Start(), steps, n)
  }

  /** At every moment of every run: the limits hold and the task counter is the sum of the live costs. */
  lemma RunBounded(steps: seq<Step>, n: nat)
    requires IsRun(steps) && n <= |steps|
    ensures Bounded(At(steps, n))
    ensures var s := At(steps, n); |s.requests| <= 64 && |s.subs| <= 32 && s.tasks == Sum(s.subs) <= 32
  {
    forall s, a | Bounded(s) && Next(s, a).Some? ensures Bounded(Next(s, a).value) { ApplyBounded(s, a); }
    AlwaysHolds(Next, Start(), Bounded, steps, n);
  }

  // ----- the messages of one subscription -----

  predicate Concerns(m: Msg, i: nat) { !m.Reply? && m.inst == i }

  /** The part of the outbound queue that belongs to one accepted subscription, in order. */
  function Of(out: seq<Msg>, i: nat): seq<Msg> {
    if out == [] then []
    else if Concerns(out[|out| - 1], i) then Of(out[..|out| - 1], i) + [out[|out| - 1]]
    else Of(out[..|out| - 1], i)
  }

  datatype Point = New | Opened | Attached | Talking | Over | Closed

  /** The messages a client may see next. */
  function Accept(terminal: bool, p: Point, m: Msg): Option<Point> {
    match (p, m)
    case (New, Subscribed(_)) => Some(Opened)
    case (Opened, Event(_, said)) =>
      if !terminal && said == Data then Some(Opened)
      else if terminal && said == Connecting then Some(Attached)
      else None
    case (Attached, Event(_, Running)) => Some(Talking)
    case (Attached, Event(_, FailedState)) => Some(Over)
    case (Talking, Event(_, Output)) => Some(Talking)
    case (Talking, Event(_, Exited)) => Some(Over)
    case (Talking, Event(_, FailedState)) => Some(Over)
    case (_, Ended(_)) => if p == New || p == Closed then None else Some(Closed)
    case _ => None
  }

  function Track(terminal: bool, ms: seq<Msg>): Option<Point> {
    if ms == [] then Some(New)
    else match Track(terminal, ms[..|ms| - 1])
      case None => None
      case Some(p) => Accept(terminal, p, ms[|ms| - 1])
  }

  predicate Fits(terminal: bool, phase: Phase, p: Point) {
    match phase
    case Unspawned => p == New
    case Streaming => !terminal && p == Opened
    case Fresh => terminal && p == Opened
    case Connected => terminal && p == Attached
    case Live => terminal && p == Talking
    case Closing => p != New && p != Closed
    case Finished => p != New
    case Reported => p != New
  }

  ghost predicate InstanceOk(s: State, i: nat)
    requires i < |s.instances|
  {
    var inst := s.instances[i];
    && Track(inst.terminal, Of(s.out, i)).Some?
    && Fits(inst.terminal, inst.phase, Track(inst.terminal, Of(s.out, i)).value)
  }

  /** Where the client stands while the task is in a phase that can say something. */
  function PointOf(phase: Phase): Option<Point> {
    match phase
    case Streaming => Some(Opened)
    case Fresh => Some(Opened)
    case Connected => Some(Attached)
    case Live => Some(Talking)
    case _ => None
  }

  /**
   A task can say exactly what the client's protocol allows next, and goes on from there: to the
   phase of the new point, or to closing after Exited and Failed.
   */
  lemma SaysExactly(phase: Phase, said: Said, i: nat)
    requires PointOf(phase).Some?
    ensures var q, p := NextPhase(phase, said, true), Accept(!phase.Streaming?, PointOf(phase).value, Event(i, said));
            && (q.Some? <==> p.Some?)
            && (q.Some? ==> if p.value == Over then q.value == Closing else PointOf(q.value) == p)
  {
  }

  /** Each instance's messages so far are acceptable and match its phase; no message is for a future one. */
  ghost predicate Ordered(s: State) {
    && (forall i :: 0 <= i < |s.instances| ==> InstanceOk(s, i))
    && (forall k :: 0 <= k < |s.out| && !s.out[k].Reply? ==> s.out[k].inst < |s.instances|)
  }

  lemma OfSnoc(out: seq<Msg>, m: Msg, i: nat)
    ensures Of(out + [m], i) == if Concerns(m, i) then Of(out, i) + [m] else Of(out, i)
  {
    assert (out + [m])[..|out|] == out;
  }

  lemma {:induction false} OfNone(out: seq<Msg>, i: nat)
    requires forall k :: 0 <= k < |out| ==> !Concerns(out[k], i)
    ensures Of(out, i) == []
  {
    if out != [] { OfNone(out[..|out| - 1], i); }
  }

  lemma TrackSnoc(terminal: bool, ms: seq<Msg>, m: Msg)
    ensures Track(terminal, ms + [m]) ==
            match Track(terminal, ms) case None => None case Some(p) => Accept(terminal, p, m)
  {
    assert (ms + [m])[..|ms|] == ms;
  }

  /** One instance moves to `phase` and perhaps says `m`; the others stay as they were. */
  lemma MoveOrdered(s: State, i: nat, phase: Phase, m: Msg, delivered: bool)
    requires Ordered(s) && i < |s.instances| && Concerns(m, i) && InstanceOk(s, i)
    requires var p := Track(s.instances[i].terminal, Of(s.out, i)).value;
             var q := if delivered then Accept(s.instances[i].terminal, p, m) else Some(p);
             q.Some? && Fits(s.instances[i].terminal, phase, q.value)
    ensures Ordered(Send(SetPhase(s, i, phase), m, delivered))
  {
    var t := Send(SetPhase(s, i, phase), m, delivered);
    forall j | 0 <= j < |t.instances| ensures InstanceOk(t, j) {
      assert InstanceOk(s, j);
      OfSnoc(s.out, m, j);
      TrackSnoc(s.instances[j].terminal, Of(s.out, j), m);
    }
  }

  lemma ReplyOrdered(s: State)
    requires Ordered(s)
    ensures Ordered(Send(s, Reply, true))
  {
    var t := Send(s, Reply, true);
    forall j | 0 <= j < |t.instances| ensures InstanceOk(t, j) {
      assert InstanceOk(s, j);
      OfSnoc(s.out, Reply, j);
    }
  }

  lemma SubscribeOrdered(s: State, inst: Instance, delivered: bool)
    requires Ordered(s) && inst.phase == if !delivered then Unspawned else if inst.terminal then Fresh else Streaming
    ensures Ordered(Send(s.(instances := s.instances + [inst]), Subscribed(|s.instances|), delivered))
  {
    var n := |s.instances|;
    var m := Subscribed(n);
    var t := Send(s.(instances := s.instances + [inst]), m, delivered);
    OfNone(s.out, n);
    OfSnoc(s.out, m, n);
    TrackSnoc(inst.terminal, [], m);
    assert t.instances[n] == inst && InstanceOk(t, n);
    forall j | 0 <= j < n ensures InstanceOk(t, j) {
      assert InstanceOk(s, j);
      OfSnoc(s.out, m, j);
    }
  }

  /** Ordered looks only at the instances and the queue. */
  lemma SameView(s: State, t: State)
    requires Ordered(s) && t.instances == s.instances && t.out == s.out
    ensures Ordered(t)
  {
    forall j | 0 <= j < |t.instances| ensures InstanceOk(t, j) { assert InstanceOk(s, j); }
  }

  lemma ApplyOrdered(s: State, step: Step)
    requires Ordered(s) && Enabled(s, step)
    ensures Ordered(Apply(s, step))
  {
    var t := Apply(s, step);
    match step
    case Subscribe(sub, id, delivered) =>
      var first := if !delivered then Unspawned else if sub.Terminal? then Fresh else Streaming;
      var inst := Instance(id, TaskCost(sub).value, sub.Terminal?, first);
      SubscribeOrdered(s, inst, delivered);
      SameView(Send(s.(instances := s.instances + [inst]), Subscribed(|s.instances|), delivered), t);
    case Emit(i, said, delivered) =>
      assert InstanceOk(s, i);
      MoveOrdered(s, i, NextPhase(s.instances[i].phase, said, delivered).value, Event(i, said), delivered);
    case Quit(i) =>
      assert InstanceOk(s, i);
      MoveOrdered(s, i, Closing, Ended(i), false);
    case Finish(i, delivered) =>
      assert InstanceOk(s, i);
      MoveOrdered(s, i, Finished, Ended(i), delivered);
    case SubscriptionDone(i) =>
      assert InstanceOk(s, i);
      MoveOrdered(s, i, Reported, Ended(i), false);
      SameView(SetPhase(s, i, Reported), t);
    case Unsubscribe(id) =>
      SameView(s, Release(Drop(s, id), id));
      ReplyOrdered(Release(Drop(s, id), id));
    case Respond(j, delivered) =>
      SameView(s, SetStage(s, j, Answered));
      ReplyOrdered(SetStage(s, j, Answered));
    case _ =>
      ReplyOrdered(s);
      if t.out == s.out { SameView(s, t); }
  }

  lemma RunOrdered(steps: seq<Step>, n: nat)
    requires IsRun(steps) && n <= |steps|
    ensures Ordered(At(steps, n))
  {
    forall s, a | Ordered(s) && Next(s, a).Some? ensures Ordered(Next(s, a).value) { ApplyOrdered(s, a); }
    AlwaysHolds(Next, Start(), Ordered, steps, n);
  }

  /** What a step puts on the queue for accepted subscription i. */
  function Sends(s: State, step: Step, i: nat): seq<Msg> {
    match step
    case Subscribe(_, _, true) => if i == |s.instances| then [Subscribed(i)] else []
    case Emit(j, said, true) => if i == j then [Event(i, said)] else []
    case Finish(j, true) => if i == j then [Ended(i)] else []
    case _ => []
  }

  /** The message, if any, that a step puts on the queue. */
  function Puts(s: State, step: Step): Option<Msg> {
    match step
    case Subscribe(_, _, true) => Some(Subscribed(|s.instances|))
    case Emit(j, said, true) => Some(Event(j, said))
    case Finish(j, true) => Some(Ended(j))
    case Request(id) =>
      if id == 0 || id in s.requests || |s.requests| >= MAX_REQUESTS then Some(Reply) else None
    case Respond(_, true) => Some(Reply)
    case Pong => Some(Reply)
    case Refuse(_) => Some(Reply)
    case Unsubscribe(_) => Some(Reply)
    case _ => None
  }

  lemma QueueGrows(s: State, step: Step)
    requires Enabled(s, step)
    ensures Puts(s, step).Some? ==> Apply(s, step).out == s.out + [Puts(s, step).value]
    ensures Puts(s, step).None? ==> Apply(s, step).out == s.out
  {
  }

  /** Each subscription's messages grow by exactly what the step sends for it; answers to others do not mix in. */
  lemma SendsExactly(s: State, step: Step, i: nat)
    requires Enabled(s, step)
    ensures Of(Apply(s, step).out, i) == Of(s.out, i) + Sends(s, step, i)
  {
    QueueGrows(s, step);
    match Puts(s, step)
    case Some(m) => OfSnoc(s.out, m, i);
    case None => assert Of(s.out, i) + [] == Of(s.out, i);
  }

  // ----- what acceptance means -----

  /** Subscribed comes first and only first, and nothing follows SubscriptionEnded. */
  ghost predicate Framed(ms: seq<Msg>) {
    && (ms != [] ==> ms[0].Subscribed?)
    && (forall k :: 0 < k < |ms| ==> !ms[k].Subscribed?)
    && (forall k :: 0 <= k < |ms| && ms[k].Ended? ==> k == |ms| - 1)
  }

  /** Terminal output only after Running; after Exited or Failed at most the end. */
  ghost predicate TerminalFramed(ms: seq<Msg>) {
    && (forall k :: 0 <= k < |ms| && Says(ms[k], Output) ==> exists j :: 0 <= j < k && Says(ms[j], Running))
    && (forall k :: 0 <= k < |ms| && (Says(ms[k], Exited) || Says(ms[k], FailedState)) ==>
          |ms| <= k + 2 && (|ms| == k + 2 ==> ms[k + 1].Ended?))
  }

  predicate Says(m: Msg, said: Said) { m.Event? && m.said == said }

  /** Facts about an accepted sequence, by the point it has reached. */
  lemma {:induction false} TrackMeaning(terminal: bool, ms: seq<Msg>)
    requires Track(terminal, ms).Some?
    ensures Framed(ms)
    ensures var p := Track(terminal, ms).value;
            && (p == New <==> ms == []) && (ms != [] && ms[|ms| - 1].Ended? <==> p == Closed)
            && (p == Over <==> ms != [] && (Says(ms[|ms| - 1], Exited) || Says(ms[|ms| - 1], FailedState)))
  {
    if ms != [] {
      var front := ms[..|ms| - 1];
      TrackMeaning(terminal, front);
      assert forall k :: 0 <= k < |front| ==> ms[k] == front[k];
    }
  }

  lemma {:induction false} TrackTerminal(terminal: bool, ms: seq<Msg>)
    requires Track(terminal, ms).Some?
    ensures TerminalFramed(ms)
    ensures Track(terminal, ms).value == Talking ==> exists j :: 0 <= j < |ms| && Says(ms[j], Running)
  {
    if ms != [] {
      var front, last := ms[..|ms| - 1], ms[|ms| - 1];
      TrackTerminal(terminal, front);
      TrackMeaning(terminal, front);
      assert forall k :: 0 <= k < |front| ==> ms[k] == front[k];
      if Says(last, Running) { assert Says(ms[|ms| - 1], Running); }
      if j :| 0 <= j < |front| && Says(front[j], Running) { assert Says(ms[j], Running); }
    }
  }

  /**
   In every run and for every accepted subscription: its messages on the outbound queue are
   Subscribed, then events, then at most one SubscriptionEnded that is last; and terminal
   messages keep the order of a terminal session.
   */
  lemma MessagesFramed(steps: seq<Step>, n: nat, i: nat)
    requires IsRun(steps) && n <= |steps| && i < |At(steps, n).instances|
    ensures Framed(Of(At(steps, n).out, i)) && TerminalFramed(Of(At(steps, n).out, i))
  {
    var s := At(steps, n);
    RunOrdered(steps, n);
    assert InstanceOk(s, i);
    TrackMeaning(s.instances[i].terminal, Of(s.out, i));
    TrackTerminal(s.instances[i].terminal, Of(s.out, i));
  }

  // ----- IDs -----

  /** Until the counter wraps, the i-th accepted subscription has ID i + 1. */
  ghost predicate Sequential(s: State) {
    |s.instances| < MAX_ID ==>
      && s.nextId == |s.instances| + 1
      && (forall i :: 0 <= i < |s.instances| ==> s.instances[i].id == i + 1)
      && (forall id :: id in s.subs ==> 1 <= id <= |s.instances|)
  }

  lemma ApplySequential(s: State, step: Step)
    requires Bounded(s) && Sequential(s) && Enabled(s, step)
    ensures Sequential(Apply(s, step))
  {
    if step.Subscribe? && |s.instances| < MAX_ID { SequentialId(s, step.id); }
  }

  lemma SequentialId(s: State, id: nat)
    requires Bounded(s) && Sequential(s) && |s.instances| < MAX_ID && FirstFree(s.subs.Keys, s.nextId, id)
    ensures id == s.nextId
  {
    assert Advance(s.nextId, 0) == s.nextId;
    assert FirstFree(s.subs.Keys, s.nextId, s.nextId);
    FirstFreeUnique(s.subs.Keys, s.nextId, s.nextId, id);
  }

  lemma RunSequential(steps: seq<Step>, n: nat)
    requires IsRun(steps) && n <= |steps|
    ensures Sequential(At(steps, n))
  {
    forall s, a | Bounded(s) && Sequential(s) && Next(s, a).Some?
      ensures Bounded(Next(s, a).value) && Sequential(Next(s, a).value)
    {
      ApplyBounded(s, a);
      ApplySequential(s, a);
    }
    AlwaysHolds(Next, Start(), s => Bounded(s) && Sequential(s), steps, n);
  }

  /** A connection that has accepted fewer than 2^64 - 1 subscriptions has never used an ID twice. */
  lemma IdsDistinct(steps: seq<Step>, n: nat, i: nat, j: nat)
    requires IsRun(steps) && n <= |steps| && |At(steps, n).instances| < MAX_ID
    requires i < j < |At(steps, n).instances|
    ensures At(steps, n).instances[i].id != At(steps, n).instances[j].id
  {
    RunSequential(steps, n);
  }

  // ----- the tables hold exactly what is under way -----

  /** A request ID is active exactly when a task was started for it whose done-message has not been taken. */
  ghost predicate RequestsExact(s: State) {
    && (forall id :: id in s.requests <==> exists j :: 0 <= j < |s.works| && Active(s, j, id))
    && (forall i, j, id ::
          0 <= i < |s.works| && 0 <= j < |s.works| && Active(s, i, id) && Active(s, j, id) ==> i == j)
  }

  predicate Active(s: State, j: nat, id: nat)
    requires j < |s.works|
  {
    s.works[j].id == id && !s.works[j].stage.Collected?
  }

  lemma ApplyRequestsExact(s: State, step: Step)
    requires RequestsExact(s) && Enabled(s, step)
    ensures RequestsExact(Apply(s, step))
  {
    var t := Apply(s, step);
    match step
    case Request(id) =>
      if t.works == s.works { SameRequests(s, t); } else { StartedExact(s, t, id); }
    case Respond(j, _) => StageExact(s, t, j, Answered);
    case RequestDone(j) => CollectedExact(s, t, j);
    case _ => SameRequests(s, t);
  }

  lemma SameRequests(s: State, t: State)
    requires RequestsExact(s) && t.works == s.works && t.requests == s.requests
    ensures RequestsExact(t)
  {
    assert forall j, id :: 0 <= j < |s.works| ==> (Active(t, j, id) <==> Active(s, j, id));
  }

  lemma StartedExact(s: State, t: State, id: nat)
    requires RequestsExact(s) && id !in s.requests
    requires t.requests == s.requests + {id} && t.works == s.works + [Work(id, Busy)]
    ensures RequestsExact(t)
  {
    forall j, x | 0 <= j < |s.works| ensures Active(t, j, x) <==> Active(s, j, x) { assert t.works[j] == s.works[j]; }
    assert Active(t, |s.works|, id);
    forall x ensures x in t.requests <==> exists j :: 0 <= j < |t.works| && Active(t, j, x) {
      if j :| 0 <= j < |s.works| && Active(s, j, x) { assert Active(t, j, x); }
    }
  }

  lemma StageExact(s: State, t: State, j: nat, stage: Stage)
    requires RequestsExact(s) && j < |s.works| && !s.works[j].stage.Collected? && !stage.Collected?
    requires t.requests == s.requests && t.works == s.works[j := s.works[j].(stage := stage)]
    ensures RequestsExact(t)
  {
    forall i, x | 0 <= i < |s.works| ensures Active(t, i, x) <==> Active(s, i, x) { }
  }

  lemma CollectedExact(s: State, t: State, j: nat)
    requires RequestsExact(s) && j < |s.works| && !s.works[j].stage.Collected?
    requires t.requests == s.requests - {s.works[j].id} && t.works == s.works[j := s.works[j].(stage := Collected)]
    ensures RequestsExact(t)
  {
    assert Active(s, j, s.works[j].id);
    forall i, x | 0 <= i < |s.works| ensures Active(t, i, x) <==> Active(s, i, x) && i != j { }
    forall x ensures x in t.requests <==> exists i :: 0 <= i < |t.works| && Active(t, i, x) {
      if x in t.requests {
        var i :| 0 <= i < |s.works| && Active(s, i, x);
        assert Active(t, i, x);
      }
    }
  }

  /** At every moment the active request IDs are exactly those whose task is not yet done with. */
  lemma RunRequestsExact(steps: seq<Step>, n: nat)
    requires IsRun(steps) && n <= |steps|
    ensures RequestsExact(At(steps, n))
  {
    forall s, a | RequestsExact(s) && Next(s, a).Some? ensures RequestsExact(Next(s, a).value) {
      ApplyRequestsExact(s, a);
    }
    AlwaysHolds(Next, Start(), RequestsExact, steps, n);
  }

  /** The subscription with this ID was accepted, has not been unsubscribed, and its done-message has not been taken. */
  predicate UnderWay(s: State, id: nat) {
    1 <= id <= |s.instances| && id - 1 !in s.dropped && !s.instances[id - 1].phase.Reported?
  }

  function CostOf(s: State, id: nat): nat { if 1 <= id <= |s.instances| then s.instances[id - 1].cost else 0 }

  /** The IDs and costs of the subscriptions under way; the i-th accepted one has ID i + 1. */
  function UnderWayCosts(s: State): map<nat, nat> {
    map id: nat | 1 <= id <= |s.instances| && UnderWay(s, id) :: CostOf(s, id)
  }

  ghost predicate TableExact(s: State) { |s.instances| < MAX_ID ==> s.subs == UnderWayCosts(s) }

  lemma SubscribeTable(s: State, step: Step)
    requires Bounded(s) && Sequential(s) && DroppedAccepted(s) && TableExact(s) && step.Subscribe? && Enabled(s, step)
    ensures TableExact(Apply(s, step))
  {
    var t := Apply(s, step);
    if |t.instances| < MAX_ID {
      ApplySequential(s, step);
      assert t.instances[|s.instances|].id == step.id;
      AcceptedTable(s, t, TaskCost(step.sub).value);
    }
  }

  lemma UnsubscribeTable(s: State, id: nat)
    requires Sequential(s) && TableExact(s) && Enabled(s, Unsubscribe(id))
    ensures TableExact(Apply(s, Unsubscribe(id)))
  {
    if |s.instances| < MAX_ID { DroppedTable(s, Apply(s, Unsubscribe(id)), id); }
  }

  lemma DoneTable(s: State, i: nat)
    requires Sequential(s) && TableExact(s) && Enabled(s, SubscriptionDone(i))
    ensures TableExact(Apply(s, SubscriptionDone(i)))
  {
    if |s.instances| < MAX_ID { LeftTable(s, Apply(s, SubscriptionDone(i)), i); }
  }

  lemma ApplyTableExact(s: State, step: Step)
    requires Bounded(s) && Sequential(s) && DroppedAccepted(s) && TableExact(s) && Enabled(s, step)
    ensures TableExact(Apply(s, step))
  {
    var t := Apply(s, step);
    if step.Subscribe? {
      SubscribeTable(s, step);
    } else if step.SubscriptionDone? {
      DoneTable(s, step.inst);
    } else if step.Unsubscribe? {
      UnsubscribeTable(s, step.id);
    } else if |s.instances| < MAX_ID {
      if t.instances == s.instances {
        SameTable(s, t);
      } else {
        PhaseTable(s, t, step.inst, t.instances[step.inst].phase);
      }
    }
  }

  lemma ApplyDropped(s: State, step: Step)
    requires DroppedAccepted(s) && Enabled(s, step)
    ensures DroppedAccepted(Apply(s, step))
  {
  }

  lemma SameTable(s: State, t: State)
    requires s.subs == UnderWayCosts(s) && t.subs == s.subs && t.dropped == s.dropped && t.instances == s.instances
    ensures t.subs == UnderWayCosts(t)
  {
    assert forall id :: UnderWay(t, id) == UnderWay(s, id) && CostOf(t, id) == CostOf(s, id);
  }

  lemma PhaseTable(s: State, t: State, i: nat, phase: Phase)
    requires s.subs == UnderWayCosts(s) && t.subs == s.subs && t.dropped == s.dropped && i < |s.instances|
    requires t.instances == s.instances[i := s.instances[i].(phase := phase)]
    requires !phase.Reported? && !s.instances[i].phase.Reported?
    ensures t.subs == UnderWayCosts(t)
  {
    assert forall id :: UnderWay(t, id) == UnderWay(s, id) && CostOf(t, id) == CostOf(s, id);
  }

  lemma AcceptedTable(s: State, t: State, cost: nat)
    requires s.subs == UnderWayCosts(s) && |s.instances| !in s.dropped && t.dropped == s.dropped
    requires |t.instances| == |s.instances| + 1 && t.instances[..|s.instances|] == s.instances
    requires t.instances[|s.instances|].cost == cost && !t.instances[|s.instances|].phase.Reported?
    requires t.subs == s.subs[|s.instances| + 1 := cost]
    ensures t.subs == UnderWayCosts(t)
  {
    var n := |s.instances| + 1;
    assert forall i :: 0 <= i < |s.instances| ==> t.instances[i] == s.instances[i];
    assert forall id :: id != n ==> UnderWay(t, id) == UnderWay(s, id) && CostOf(t, id) == CostOf(s, id);
    assert UnderWay(t, n) && CostOf(t, n) == cost;
  }

  lemma LeftTable(s: State, t: State, i: nat)
    requires s.subs == UnderWayCosts(s) && i < |s.instances| && t.dropped == s.dropped
    requires t.instances == s.instances[i := s.instances[i].(phase := Reported)] && t.subs == s.subs - {i + 1}
    ensures t.subs == UnderWayCosts(t)
  {
    assert forall id :: UnderWay(t, id) == (UnderWay(s, id) && id != i + 1) && CostOf(t, id) == CostOf(s, id);
  }

  lemma DroppedTable(s: State, t: State, id: nat)
    requires s.subs == UnderWayCosts(s) && t.instances == s.instances && t.subs == s.subs - {id}
    requires forall i :: 0 <= i < |s.instances| ==> (i in t.dropped <==> i in s.dropped || i + 1 == id)
    ensures t.subs == UnderWayCosts(t)
  {
    assert forall x :: UnderWay(t, x) == (UnderWay(s, x) && x != id) && CostOf(t, x) == CostOf(s, x);
  }

  /** Only accepted subscriptions can have been unsubscribed. */
  ghost predicate DroppedAccepted(s: State) { forall i :: i in s.dropped ==> i < |s.instances| }

  /**
   Before the ID counter wraps, the table holds exactly the subscriptions under way with their
   costs and the counter is the sum of these costs; when none is under way the table is empty
   and the counter 0.
   */
  lemma RunTableExact(steps: seq<Step>, n: nat)
    requires IsRun(steps) && n <= |steps| && |At(steps, n).instances| < MAX_ID
    ensures var s := At(steps, n);
            && s.subs == UnderWayCosts(s) && s.tasks == Sum(UnderWayCosts(s))
            && ((forall id :: !UnderWay(s, id)) ==> s.subs == map[] && s.tasks == 0)
  {
    var inv := (s: State) => Bounded(s) && Sequential(s) && DroppedAccepted(s) && TableExact(s);
    forall s, a | inv(s) && Next(s, a).Some? ensures inv(Next(s, a).value) {
      ApplyBounded(s, a);
      ApplySequential(s, a);
      ApplyTableExact(s, a);
      ApplyDropped(s, a);
    }
    AlwaysHolds(Next, Start(), inv, steps, n);
  }

  // ----- the main loop's own variables -----

  /** The locals of serve_client; the tasks and the queue belong to the rest of the system. */
  class ClientLoop {
    var open: bool
    var requests: set<nat>
    var subscriptions: map<nat, nat>
    var subscriptionTasks: nat
    var nextSubscriptionId: nat
    ghost var works: seq<Work>
    ghost var instances: seq<Instance>
    ghost var dropped: set<nat>
    ghost var out: seq<Msg>

    ghost function View(): State
      reads this
    {
      State(open, requests, subscriptions, subscriptionTasks, nextSubscriptionId, works, instances, dropped, out)
    }

    ghost predicate Valid()
      reads this
    {
      Bounded(View())
    }

    constructor ()
      ensures Valid() && View() == Start()
    {
      open, requests, subscriptions, subscriptionTasks, nextSubscriptionId := true, {}, map[], 0, 1;
      works, instances, dropped, out := [], [], {}, [];
    }

    /** A Request frame; answers whether a task was started. */
    method OnRequest(id: nat) returns (started: bool)
      requires Valid() && open
      modifies this
      ensures Valid() && View() == Apply(old(View()), Request(id))
      ensures started <==> id != 0 && id !in old(requests) && |old(requests)| < 64
      ensures started ==> requests == old(requests) + {id}
    {
      ApplyBounded(View(), Request(id));
      if id == 0 || id in requests || |requests| >= MAX_REQUESTS {
        out := out + [Reply];
        return false;
      }
      requests := requests + {id};
      works := works + [Work(id, Busy)];
      return true;
    }

    /** The done-message of a request task. */
    method OnRequestDone(ghost work: nat, id: nat)
      requires Valid() && open && work < |works| && works[work] == Work(id, Answered)
      modifies this
      ensures Valid() && View() == Apply(old(View()), RequestDone(work))
    {
      ApplyBounded(View(), RequestDone(work));
      requests := requests - {id};
      works := works[work := Work(id, Collected)];
    }

    /** The done-message of a subscription task. */
    method OnSubscriptionDone(ghost inst: nat, id: nat)
      requires Valid() && open && inst < |instances| && instances[inst].phase.Finished? && instances[inst].id == id
      modifies this
      ensures Valid() && View() == Apply(old(View()), SubscriptionDone(inst))
    {
      ApplyBounded(View(), SubscriptionDone(inst));
      instances := instances[inst := instances[inst].(phase := Reported)];
      Remove(id);
    }

    /** The table part of an accepted Subscribe frame. */
    method Reserve(cost: nat) returns (id: nat)
      requires Valid() && 1 <= cost && HasRoom(View(), cost)
      modifies this`subscriptions, this`subscriptionTasks, this`nextSubscriptionId
      ensures FirstFree(old(subscriptions).Keys, old(nextSubscriptionId), id) && id != 0 && id !in old(subscriptions)
      ensures subscriptions == old(subscriptions)[id := cost] && subscriptionTasks == old(subscriptionTasks) + cost
      ensures nextSubscriptionId == Succ(id)
    {
      id := FindId(subscriptions.Keys, nextSubscriptionId);
      nextSubscriptionId := if id == MAX_ID then 1 else id + 1;
      subscriptions := subscriptions[id := cost];
      subscriptionTasks := subscriptionTasks + cost;
    }

    /** An accepted Subscribe frame. */
    method Admit(sub: Subscription, delivered: bool) returns (id: nat)
      requires Valid() && open && TaskCost(sub).Some? && HasRoom(View(), TaskCost(sub).value)
      modifies this
      ensures Valid() && Enabled(old(View()), Subscribe(sub, id, delivered))
      ensures View() == Apply(old(View()), Subscribe(sub, id, delivered))
    {
      ghost var before := View();
      var cost := TaskCost(sub).value;
      id := Reserve(cost);
      ApplyBounded(before, Subscribe(sub, id, delivered));
      var first := if !delivered then Unspawned else if sub.Terminal? then Fresh else Streaming;
      if delivered { out := out + [Subscribed(|instances|)]; }
      instances := instances + [Instance(id, cost, sub.Terminal?, first)];
      open := delivered;
    }

    /** A Subscribe frame: refused, or accepted under a fresh ID. */
    method OnSubscribe(sub: Subscription, delivered: bool) returns (id: Option<nat>)
      requires Valid() && open
      modifies this
      ensures Valid()
      ensures id.None? <==> TaskCost(sub).None? || |old(subscriptions)| >= 32
                            || old(subscriptionTasks) + TaskCost(sub).value > 32
      ensures id.None? ==> Enabled(old(View()), Refuse(sub)) && View() == Apply(old(View()), Refuse(sub))
      ensures id.Some? ==> Enabled(old(View()), Subscribe(sub, id.value, delivered))
                           && View() == Apply(old(View()), Subscribe(sub, id.value, delivered))
    {
      var cost := TaskCost(sub);
      if cost.None? || |subscriptions| >= MAX_SUBSCRIPTIONS || subscriptionTasks + cost.value > MAX_STREAM_TASKS {
        ApplyBounded(View(), Refuse(sub));
        out := out + [Reply];
        return None;
      }
      var i := Admit(sub, delivered);
      return Some(i);
    }

    /** Taking an ID out of the table, for Unsubscribe and for a finished task. */
    method Remove(id: nat)
      requires Valid()
      modifies this`subscriptions, this`subscriptionTasks
      ensures View() == Release(old(View()), id) && Valid()
    {
      ReleaseKeeps(View(), id);
      if id in subscriptions {
        var cost := subscriptions[id];
        subscriptions := subscriptions - {id};
        subscriptionTasks := if subscriptionTasks <= cost then 0 else subscriptionTasks - cost;
      }
    }

    method OnUnsubscribe(id: nat)
      requires Valid() && open
      modifies this
      ensures Valid() && View() == Apply(old(View()), Unsubscribe(id))
    {
      ApplyBounded(View(), Unsubscribe(id));
      dropped := dropped + Bearing(instances, id);
      Remove(id);
      out := out + [Reply];
    }
  }
}

/** The debounced Docker event monitor (docker-core/src/cache/events.rs). */
module EventMonitor {
  import opened Common

  const MAX_CONTAINER_CHANGES: nat := 256

  datatype Kind = Images | Containers | Volumes | Networks | Daemon

  datatype Change = Change(actor: Bytes, action: Bytes)

  /** A classified event. */
  datatype Event = Event(kind: Kind, change: Change)

  datatype Notification = Notification(
    kinds: seq<Kind>, changes: seq<Change>, truncated: bool, burst: nat, reconnected: bool)

  /**
   What the select loop can see next. `event` is None for an event no class wants; `late` says
   that the debounce window had already closed; `resumes` that a stream failure was survived.
   */
  datatype Input =
    | Received(event: Option<Event>, late: bool)
    | StreamFailed(resumes: bool)
    | Tick
    | Cancelled

  // ----- what a notification should say about the events it stands for -----

  /** The distinct container changes in first-seen order. */
  function FirstSeen(es: seq<Event>): seq<Change> {
    if es == [] then []
    else
      var seen, e := FirstSeen(es[..|es| - 1]), es[|es| - 1];
      if e.kind == Containers && e.change !in seen then seen + [e.change] else seen
  }

  function Capped(cs: seq<Change>): seq<Change> {
    if |cs| <= MAX_CONTAINER_CHANGES then cs else cs[..MAX_CONTAINER_CHANGES]
  }

  function KindsOf(es: seq<Event>): set<Kind> {
    if es == [] then {} else KindsOf(es[..|es| - 1]) + {es[|es| - 1].kind}
  }

  function Pick(k: Kind, ks: set<Kind>): seq<Kind> { if k in ks then [k] else [] }

  function Ordered(ks: set<Kind>): seq<Kind> {
    Pick(Images, ks) + Pick(Containers, ks) + Pick(Volumes, ks) + Pick(Networks, ks) + Pick(Daemon, ks)
  }

  function Summary(es: seq<Event>, reconnected: bool): Notification {
    Notification(Ordered(KindsOf(es)), Capped(FirstSeen(es)), |FirstSeen(es)| > MAX_CONTAINER_CHANGES, |es|,
                 reconnected)
  }

  /** A notification carries the first 256 distinct container changes and says whether there were more. */
  lemma SummaryCarries(es: seq<Event>, reconnected: bool)
    ensures var n, all := Summary(es, reconnected), FirstSeen(es);
            && n.changes <= all && |n.changes| == (if |all| <= 256 then |all| else 256)
            && (n.truncated <==> |all| > 256) && n.burst == |es| && n.reconnected == reconnected
  {
  }

  /** Where a kind stands in a notification. */
  function Rank(k: Kind): nat {
    match k
    case Images => 0
    case Containers => 1
    case Volumes => 2
    case Networks => 3
    case Daemon => 4
  }

  /** A notification reports exactly the kinds that occurred, each once, in the fixed order. */
  lemma KindsReported(es: seq<Event>)
    ensures forall k :: k in Ordered(KindsOf(es)) <==> exists i :: 0 <= i < |es| && es[i].kind == k
    ensures var ks := Ordered(KindsOf(es)); forall i, j :: 0 <= i < j < |ks| ==> Rank(ks[i]) < Rank(ks[j])
  {
    KindsOccurred(es);
    OrderedHolds(KindsOf(es));
  }

  /** The kinds of `ks` up to rank n, in order. */
  ghost predicate ListsUpTo(s: seq<Kind>, ks: set<Kind>, n: nat) {
    && (forall k :: k in s <==> k in ks && Rank(k) < n)
    && (forall i, j :: 0 <= i < j < |s| ==> Rank(s[i]) < Rank(s[j]))
  }

  lemma PickNext(s: seq<Kind>, ks: set<Kind>, k: Kind)
    requires ListsUpTo(s, ks, Rank(k))
    ensures ListsUpTo(s + Pick(k, ks), ks, Rank(k) + 1)
  {
    var t := s + Pick(k, ks);
    forall x ensures x in t <==> x in ks && Rank(x) < Rank(k) + 1 {
      assert x in t <==> x in s || x in Pick(k, ks);
      assert Rank(x) == Rank(k) ==> x == k;
    }
    forall i, j | 0 <= i < j < |t| ensures Rank(t[i]) < Rank(t[j]) {
      if j == |s| { assert t[i] in s; }
    }
  }

  lemma OrderedHolds(ks: set<Kind>)
    ensures ListsUpTo(Ordered(ks), ks, 5)
  {
    var none: seq<Kind> := [];
    assert ListsUpTo(none, ks, 0);
    PickNext(none, ks, Images);
    assert none + Pick(Images, ks) == Pick(Images, ks);
    PickNext(Pick(Images, ks), ks, Containers);
    PickNext(Pick(Images, ks) + Pick(Containers, ks), ks, Volumes);
    PickNext(Pick(Images, ks) + Pick(Containers, ks) + Pick(Volumes, ks), ks, Networks);
    PickNext(Pick(Images, ks) + Pick(Containers, ks) + Pick(Volumes, ks) + Pick(Networks, ks), ks, Daemon);
  }

  lemma {:induction false} KindsOccurred(es: seq<Event>)
    ensures forall k :: k in KindsOf(es) <==> exists i :: 0 <= i < |es| && es[i].kind == k
  {
    if es != [] {
      var front := es[..|es| - 1];
      KindsOccurred(front);
      forall k ensures k in KindsOf(es) <==> exists i :: 0 <= i < |es| && es[i].kind == k {
        if i :| 0 <= i < |front| && front[i].kind == k { assert es[i].kind == k; }
        if k == es[|es| - 1].kind { assert es[|es| - 1].kind == k; }
        if i :| 0 <= i < |es| && es[i].kind == k { assert i < |front| ==> front[i].kind == k; }
      }
    }
  }

  lemma {:induction false} FirstSeenDistinct(es: seq<Event>)
    ensures forall i, j :: 0 <= i < j < |FirstSeen(es)| ==> FirstSeen(es)[i] != FirstSeen(es)[j]
    ensures forall c :: c in FirstSeen(es) <==> exists k :: 0 <= k < |es| && es[k] == Event(Containers, c)
  {
    if es != [] {
      var front, e := es[..|es| - 1], es[|es| - 1];
      FirstSeenDistinct(front);
      forall c ensures c in FirstSeen(es) <==> exists k :: 0 <= k < |es| && es[k] == Event(Containers, c) {
        if e == Event(Containers, c) { assert es[|es| - 1] == Event(Containers, c); }
        if k :| 0 <= k < |front| && front[k] == Event(Containers, c) { assert es[k] == Event(Containers, c); }
        if k :| 0 <= k < |es| && es[k] == Event(Containers, c) {
          if k < |front| { assert front[k] == Event(Containers, c); }
        }
      }
    }
  }

  // ----- the pending batch -----

  class PendingBatch {
    var kinds: set<Kind>
    var changes: seq<Change>
    var seen: set<Change>
    var truncated: bool
    var burst: nat
    /** The events counted so far. */
    ghost var events: seq<Event>

    ghost predicate Valid()
      reads this
    {
      && events != [] && burst == |events| && kinds == KindsOf(events)
      && changes == Capped(FirstSeen(events))
      && truncated == (|FirstSeen(events)| > MAX_CONTAINER_CHANGES)
      && forall c :: c in seen <==> c in changes
    }

    constructor (e: Event)
      ensures Valid() && events == [e]
    {
      kinds := {e.kind};
      burst := 1;
      events := [e];
      truncated := false;
      if e.kind == Containers {
        changes, seen := [e.change], {e.change};
      } else {
        changes, seen := [], {};
      }
      new;
      assert events[..0] == [];
      assert FirstSeen([]) == [] && KindsOf([]) == {};
    }

    method Add(e: Event)
      requires Valid()
      modifies this
      ensures Valid() && events == old(events) + [e]
    {
      ghost var all := events + [e];
      assert all[..|all| - 1] == events;
      kinds := kinds + {e.kind};
      burst := burst + 1;
      events := all;
      if e.kind != Containers { return; }
      var change := e.change;
      if change in seen { return; }
      if |changes| >= MAX_CONTAINER_CHANGES {
        truncated := true;
        return;
      }
      seen := seen + {change};
      changes := changes + [change];
    }
  }

  // ----- runs -----

  /** The classified events among the first inputs, in order. */
  function Classified(inputs: seq<Input>): seq<Event> {
    if inputs == [] then []
    else
      var front, last := Classified(inputs[..|inputs| - 1]), inputs[|inputs| - 1];
      if last.Received? && last.event.Some? then front + [last.event.value] else front
  }

  /** A stream failure at some position from `a` up to, but not including, `b`. */
  predicate FailedWithin(inputs: seq<Input>, a: nat, b: nat) {
    exists p :: a <= p < b && p < |inputs| && inputs[p].StreamFailed?
  }

  /** A notification with the events it stands for, the input that triggered it, and the previous trigger. */
  datatype Sent = Sent(note: Notification, events: seq<Event>, since: nat, at: nat)

  /** The trigger of the latest notification. */
  function Mark(log: seq<Sent>): nat { if log == [] then 0 else log[|log| - 1].at }

  /**
   Each notification summarises a non-empty stretch of events, and is marked reconnected exactly
   when a stream failure lies between the previous trigger and its own, its own excluded.
   */
  ghost predicate Faithful(inputs: seq<Input>, log: seq<Sent>) {
    log == [] ||
    (var front, last := log[..|log| - 1], log[|log| - 1];
     && Faithful(inputs, front) && last.events != [] && last.since == Mark(front) <= last.at < |inputs|
     && last.note == Summary(last.events, FailedWithin(inputs, last.since, last.at)))
  }

  function EventsOf(log: seq<Sent>): seq<Event> {
    if log == [] then [] else EventsOf(log[..|log| - 1]) + log[|log| - 1].events
  }

  function Notes(log: seq<Sent>): seq<Notification> {
    if log == [] then [] else Notes(log[..|log| - 1]) + [log[|log| - 1].note]
  }

  /** Where a run stands: inputs used, notifications sent, events pending, and the reconnect flag. */
  datatype History = History(used: nat, log: seq<Sent>, tail: seq<Event>, flag: bool)

  /**
   The logged notifications and then the pending events are, in order, exactly the classified
   events so far; the flag tells of failures since the latest notification.
   */
  ghost predicate Ready(inputs: seq<Input>, h: History) {
    && h.used <= |inputs| && Faithful(inputs, h.log) && Mark(h.log) <= h.used
    && EventsOf(h.log) + h.tail == Classified(inputs[..h.used])
    && h.flag == FailedWithin(inputs, Mark(h.log), h.used)
  }

  /** Sending the pending events, if any, lowers the flag. */
  function Flushed(h: History): History {
    if h.tail == [] then h
    else History(h.used, h.log + [Sent(Summary(h.tail, h.flag), h.tail, Mark(h.log), h.used)], [], false)
  }

  /** Using up one more input; a stream failure raises the flag. */
  function Taken(h: History, e: Input): History {
    History(h.used + 1, h.log, if e.Received? && e.event.Some? then h.tail + [e.event.value] else h.tail,
            h.flag || e.StreamFailed?)
  }

  /**
   One turn: failures, timers and cancellation flush first, a wanted event only when its window
   had already closed, an unwanted one never.
   */
  function Turned(h: History, e: Input): History {
    Taken(if e.Received? && (e.event.None? || !e.late) then h else Flushed(h), e)
  }

  /**
   What is sent when: a timer tick, a failure and cancellation send whatever is pending; an event
   sends it first if its window has closed; nothing else sends, and nothing pending is held back.
   */
  lemma TurnSends(h: History, e: Input)
    ensures Sends(e) && h.tail != [] ==> Notes(Turned(h, e).log) == Notes(h.log) + [Summary(h.tail, h.flag)]
    ensures !Sends(e) || h.tail == [] ==> Turned(h, e).log == h.log
    ensures var kept := if Sends(e) then [] else h.tail;
            Turned(h, e).tail == if e.Received? && e.event.Some? then kept + [e.event.value] else kept
  {
    TurnedIs(h, e);
    if Sends(e) {
      FlushedRest(h);
      FlushedShows(h);
    }
  }

  lemma TurnedIs(h: History, e: Input)
    ensures Turned(h, e).log == (if Sends(e) then Flushed(h) else h).log
    ensures var kept := (if Sends(e) then Flushed(h) else h).tail;
            Turned(h, e).tail == if e.Received? && e.event.Some? then kept + [e.event.value] else kept
    ensures h.tail == [] ==> Flushed(h) == h
  {
  }

  predicate Sends(e: Input) {
    e.Tick? || e.StreamFailed? || e.Cancelled? || (e.Received? && e.event.Some? && e.late)
  }

  /** The history after the first n inputs. */
  function Run(inputs: seq<Input>, n: nat): History
    requires n <= |inputs|
  {
    if n == 0 then History(0, [], [], false) else Turned(Run(inputs, n - 1), inputs[n - 1])
  }

  /** The flag is raised by this very input or was raised before it. */
  lemma FailedStep(inputs: seq<Input>, a: nat, n: nat)
    requires a <= n < |inputs|
    ensures FailedWithin(inputs, a, n + 1) <==> FailedWithin(inputs, a, n) || inputs[n].StreamFailed?
    ensures !FailedWithin(inputs, n, n)
  {
    if p :| a <= p < n && p < |inputs| && inputs[p].StreamFailed? { assert a <= p < n + 1; }
    if inputs[n].StreamFailed? { assert a <= n < n + 1; }
  }

  /** What a flush does to the pending events and the flag. */
  lemma FlushedRest(h: History)
    ensures Flushed(h).tail == [] && Flushed(h).used == h.used && Flushed(h).flag == (h.flag && h.tail == [])
  {
  }

  /** What a flush does to the notifications. */
  lemma FlushedShows(h: History)
    ensures Notes(Flushed(h).log) == Notes(h.log) + if h.tail == [] then [] else [Summary(h.tail, h.flag)]
  {
    if h.tail != [] {
      var last := Sent(Summary(h.tail, h.flag), h.tail, Mark(h.log), h.used);
      assert (h.log + [last])[..|h.log|] == h.log;
    } else {
      assert Notes(h.log) + [] == Notes(h.log);
    }
  }

  lemma FlushedReady(inputs: seq<Input>, h: History)
    requires Ready(inputs, h) && h.used < |inputs|
    ensures Ready(inputs, Flushed(h))
  {
    if h.tail != [] {
      var last := Sent(Summary(h.tail, h.flag), h.tail, Mark(h.log), h.used);
      assert (h.log + [last])[..|h.log|] == h.log;
      FailedStep(inputs, h.used, h.used);
      assert EventsOf(h.log) + h.tail + [] == EventsOf(h.log) + h.tail;
    }
  }

  lemma TakenReady(inputs: seq<Input>, h: History)
    requires Ready(inputs, h) && h.used < |inputs|
    ensures Ready(inputs, Taken(h, inputs[h.used]))
  {
    var e, n := inputs[h.used], h.used;
    assert inputs[..n + 1][..n] == inputs[..n] && inputs[..n + 1][n] == e;
    if e.Received? && e.event.Some? { Concat3(EventsOf(h.log), h.tail, [e.event.value]); }
    FailedStep(inputs, Mark(h.log), n);
  }

  /** Cancellation, or a stream failure that is not survived, ends the loop. */
  predicate Ends(i: Input) { i.Cancelled? || (i.StreamFailed? && !i.resumes) }

  /** None of the first n inputs ends the loop. */
  predicate Ongoing(inputs: seq<Input>, n: nat)
    requires n <= |inputs|
  {
    n == 0 || (Ongoing(inputs, n - 1) && !Ends(inputs[n - 1]))
  }

  lemma {:induction false} OngoingMeans(inputs: seq<Input>, n: nat)
    requires n <= |inputs| && Ongoing(inputs, n)
    ensures forall i :: 0 <= i < n ==> inputs[i] !in {Cancelled, StreamFailed(false)}
  {
    if n > 0 { OngoingMeans(inputs, n - 1); }
  }

  // ----- the loop's variables -----

  class Monitor {
    var pending: PendingBatch?
    var reconnected: bool
    /** Everything handed to the sender. */
    var sent: seq<Notification>
    ghost var h: History

    /** The batch and the notifications are those of the history `h`. */
    ghost predicate Shows()
      reads this, pending
    {
      && (pending != null ==> pending.Valid())
      && h.tail == (if pending == null then [] else pending.events) && sent == Notes(h.log)
    }

    ghost predicate Valid()
      reads this, pending
    {
      Shows() && reconnected == h.flag
    }

    constructor ()
      ensures Valid() && pending == null && h == History(0, [], [], false)
    {
      pending, reconnected, sent := null, false, [];
      h := History(0, [], [], false);
    }

    /** flush: sends the pending batch, if there is one, stamped with the current flag. */
    method Flush()
      requires Valid()
      modifies this`pending, this`sent, this`h
      ensures Shows() && pending == null && h == Flushed(old(h))
    {
      FlushedRest(h);
      FlushedShows(h);
      if pending != null {
        var batch := pending;
        sent := sent + [Notification(Ordered(batch.kinds), batch.changes, batch.truncated, batch.burst, reconnected)];
        pending := null;
      }
      h := Flushed(h);
    }

    /** A classified event joins the pending batch. */
    method Extend(e: Event, late: bool)
      requires Valid() && pending != null
      modifies this`h, pending
      ensures Valid() && h == Taken(old(h), Received(Some(e), late))
    {
      h := Taken(h, Received(Some(e), late));
      pending.Add(e);
    }

    /** A classified event opens a new batch. */
    method Open(e: Event, late: bool)
      requires Valid() && pending == null
      modifies this`h, this`pending
      ensures Valid() && h == Taken(old(h), Received(Some(e), late)) && pending != null && fresh(pending)
    {
      assert [] + [e] == [e];
      h := Taken(h, Received(Some(e), late));
      pending := new PendingBatch(e);
    }

    /** A batch whose window has closed is sent and the flag lowered. */
    method FlushLate()
      requires Valid()
      modifies this
      ensures Valid() && pending == null && h == Flushed(old(h))
    {
      FlushedRest(h);
      if pending != null {
        Flush();
        reconnected := false;
      }
    }

    /** A window that closed while the loop was away is flushed before the event is kept. */
    method Accept(e: Event, late: bool)
      requires Valid()
      modifies this, pending
      ensures Valid() && h == Turned(old(h), Received(Some(e), late))
      ensures pending != null && (pending == old(pending) || fresh(pending))
    {
      if late { FlushLate(); }
      if pending != null {
        Extend(e, late);
      } else {
        Open(e, late);
      }
    }

    /** A stream error or end: flush first, then raise the flag. */
    method Fail(resumes: bool)
      requires Valid()
      modifies this
      ensures Valid() && pending == null && h == Turned(old(h), StreamFailed(resumes))
    {
      Flush();
      h := Taken(h, StreamFailed(resumes));
      reconnected := true;
    }

    /** The debounce timer: only a real flush lowers the flag. */
    method Timer()
      requires Valid()
      modifies this
      ensures Valid() && pending == null && h == Turned(old(h), Tick)
    {
      FlushedRest(h);
      var flushed := pending != null;
      Flush();
      if flushed { reconnected := false; }
      h := Taken(h, Tick);
    }

    /** Cancellation: the loop ends and the last batch is flushed; the flag is not read again. */
    method Stop()
      requires Valid()
      modifies this
      ensures Shows() && pending == null && h == Turned(old(h), Cancelled)
    {
      Flush();
      h := Taken(h, Cancelled);
    }

    /** One turn of the select loop; says whether the loop ends. An event of no interest changes nothing. */
    method Turn(input: Input) returns (stop: bool)
      requires Valid()
      modifies this, pending
      ensures Shows() && h == Turned(old(h), input) && stop == Ends(input) && (!stop ==> Valid())
      ensures pending == null || pending == old(pending) || fresh(pending)
    {
      match input {
        case Cancelled => Stop();
        case StreamFailed(resumes) => Fail(resumes);
        case Tick => Timer();
        case Received(event, late) =>
          if event.None? {
            h := Taken(h, input);
          } else {
            Accept(event.value, late);
          }
      }
      return Ends(input);
    }
  }

  // ----- conservation -----

  function Bursts(sent: seq<Notification>): nat {
    if sent == [] then 0 else Bursts(sent[..|sent| - 1]) + sent[|sent| - 1].burst
  }

  /** The bursts of all notifications add up to the events they stand for. */
  lemma {:induction false} BurstsConserved(inputs: seq<Input>, log: seq<Sent>)
    requires Faithful(inputs, log)
    ensures Bursts(Notes(log)) == |EventsOf(log)|
  {
    if log != [] {
      var front := log[..|log| - 1];
      BurstsConserved(inputs, front);
      assert Notes(log)[..|Notes(log)| - 1] == Notes(front);
    }
  }

  lemma TurnedReady(inputs: seq<Input>, h: History)
    requires Ready(inputs, h) && h.used < |inputs|
    ensures Ready(inputs, Turned(h, inputs[h.used])) && Turned(h, inputs[h.used]).used == h.used + 1
  {
    FlushedReady(inputs, h);
    var e := inputs[h.used];
    var before := if e.Received? && (e.event.None? || !e.late) then h else Flushed(h);
    TakenReady(inputs, before);
  }

  /** Every run, wherever it stands, has its notifications and pending events in order and its flag right. */
  lemma {:induction false} RunReady(inputs: seq<Input>, n: nat)
    requires n <= |inputs|
    ensures Ready(inputs, Run(inputs, n)) && Run(inputs, n).used == n
  {
    if n > 0 {
      RunReady(inputs, n - 1);
      TurnedReady(inputs, Run(inputs, n - 1));
    }
  }

  /** When the loop ends, each classified event has been counted in exactly one notification. */
  lemma EndedRunNotifiesAll(inputs: seq<Input>, n: nat)
    requires 0 < n <= |inputs| && Ends(inputs[n - 1])
    ensures var log := Run(inputs, n).log;
            && Faithful(inputs, log) && EventsOf(log) == Classified(inputs[..n])
            && Bursts(Notes(log)) == |Classified(inputs[..n])|
  {
    RunReady(inputs, n - 1);
    RunReady(inputs, n);
    assert Run(inputs, n).tail == [];
    BurstsConserved(inputs, Run(inputs, n).log);
  }

  // ----- the loop -----

  /**
   run_monitor on any sequence of events, failures, timers and cancellation. It sends what the
   reference run sends, turn by turn, and stops at the first input that ends the loop.
   */
  method RunMonitor(inputs: seq<Input>) returns (sent: seq<Notification>, used: nat, stopped: bool)
    ensures used <= |inputs| && (!stopped ==> used == |inputs|)
    ensures stopped ==> 0 < used && inputs[used - 1] in {Cancelled, StreamFailed(false)}
    ensures forall i :: 0 <= i < (if stopped then used - 1 else used) ==> inputs[i] !in {Cancelled, StreamFailed(false)}
    ensures sent == Notes(Run(inputs, used).log)
  {
    var m := new Monitor();
    for i := 0 to |inputs|
      invariant m.Valid() && m.h == Run(inputs, i) && Ongoing(inputs, i)
      invariant fresh(m) && (m.pending != null ==> fresh(m.pending))
    {
      var stop := m.Turn(inputs[i]);
      if stop {
        OngoingMeans(inputs, i);
        return m.sent, i + 1, true;
      }
    }
    OngoingMeans(inputs, |inputs|);
    return m.sent, |inputs|, false;
  }
}

/** What scripts get from the timers of quickjs-libc.c over whole runs: a cleared callback is not called, and one that
    was set is called once, as it was set, and not before its time. */
module TimerRuns {
  import opened Timers

  // ---------------------------------------------------------------------
  // Taking one timer out of the list
  // ---------------------------------------------------------------------

  /** Nothing but the element at p is missing. */
  predicate TakenOut(before: seq<Id>, p: nat, after: seq<Id>) {
    p < |before| && after == before[..p] + before[p + 1..]
  }

  lemma {:induction false} WithoutAbsent(queue: seq<Id>, id: Id)
    requires id !in queue
    ensures Without(queue, id) == queue
    decreases |queue|
  {
    if queue != [] { WithoutAbsent(queue[1..], id); }
  }

  lemma {:induction false} WithoutAt(queue: seq<Id>, p: nat)
    requires p < |queue| && Distinct(queue)
    ensures TakenOut(queue, p, Without(queue, queue[p]))
    decreases |queue|
  {
    var id, rest := queue[p], queue[1..];
    if p == 0 {
      forall j | 0 <= j < |rest| ensures rest[j] != id { assert rest[j] == queue[j + 1]; }
      WithoutAbsent(rest, id);
    } else {
      assert queue[0] != queue[p];
      assert rest[p - 1] == id;
      assert Distinct(rest) by { forall i, j | 0 <= i < j < |rest| ensures rest[i] != rest[j] { assert rest[i] == queue[i + 1]; } }
      WithoutAt(rest, p - 1);
      assert rest[p..] == queue[p + 1..];
    }
  }

  lemma ReachableValid(events: seq<Event>, w: World)
    requires Leads(START, events, w)
    ensures Valid(w)
  {
    StartValid();
    LeadsValid(START, events, w);
  }

  // ---------------------------------------------------------------------
  // Clearing
  // ---------------------------------------------------------------------

  /** A timer that is not pending. */
  predicate Off(w: World, id: Id) { id < w.next && id !in w.queue }

  lemma OffKeeps(w: World, e: Event, id: Id)
    requires Valid(w) && Enabled(w, e) && Off(w, id)
    ensures Off(Next(w, e), id) && (id in Next(w, e).running ==> id in w.running)
  {
    hide Distinct, Without, AfterShutdown;
    match e
    case ClearEvent(other) => UnlinkQueue(w, other);
    case ExpireEvent(now) =>
      var due := w.queue[FirstDue(w, now, 0)];
      UnlinkQueue(w.(heap := w.heap[due := w.heap[due].(func := Undefined)], running := map[due := w.heap[due].func]), due);
    case ShutdownEvent => ShutdownKeeps(w);
    case _ =>
  }

  lemma {:induction false} ShutdownKeeps(w: World)
    requires Valid(w) && w.running == map[]
    ensures AfterShutdown(w).queue == [] && AfterShutdown(w).next == w.next && AfterShutdown(w).running == map[]
    decreases |w.queue|
  {
    hide Distinct, Without;
    if w.queue != [] {
      var id := w.queue[0];
      WithoutShorter(w.queue);
      UnlinkQueue(w, id);
      var u := Unlink(w, id);
      assert CallbacksValid(u) by {
        forall k: Id ensures HoldsFunc(u, k) == HoldsFunc(w, k) { }
      }
      assert QueueValid(u);
      if !w.heap[id].hasObject { FreeKeeps(u, id); }
      ShutdownKeeps(if !w.heap[id].hasObject then AfterFree(u, id) else u);
    }
  }

  lemma {:induction false} StaysOff(v: World, events: seq<Event>, w: World, id: Id)
    requires Valid(v) && Leads(v, events, w) && Off(v, id)
    ensures Valid(w) && Off(w, id) && (id in w.running ==> id in v.running)
    decreases |events|
  {
    hide Valid, Enabled, Next;
    if events != [] {
      NextValid(v, events[0]);
      OffKeeps(v, events[0], id);
      StaysOff(Next(v, events[0]), events[1..], w, id);
    }
  }

  /** After a timer has been cleared it is not pending, and in no continuation is its callback called, unless it is
      running already; all other timers keep their place, their time and their callback. */
  lemma ClearedNeverRuns(events: seq<Event>, w: World, id: Id, more: seq<Event>, u: World)
    requires Leads(START, events, w) && Enabled(w, ClearEvent(id)) && Leads(Next(w, ClearEvent(id)), more, u)
    ensures var v := Next(w, ClearEvent(id));
      && id !in v.queue && id !in u.queue && (id in u.running ==> id in w.running)
      && (forall e: Event :: Enabled(u, e) && id in Next(u, e).running ==> id in u.running)
      && v.heap == w.heap && v.running == w.running
      && if id in w.queue then exists p: nat :: TakenOut(w.queue, p, v.queue) && w.queue[p] == id else v.queue == w.queue
  {
    hide Leads, Distinct;
    ReachableValid(events, w);
    var v := Next(w, ClearEvent(id));
    NextValid(w, ClearEvent(id));
    UnlinkQueue(w, id);
    if id in w.queue {
      var p: nat :| p < |w.queue| && w.queue[p] == id;
      WithoutAt(w.queue, p);
    } else {
      WithoutAbsent(w.queue, id);
    }
    StaysOff(v, more, u, id);
    forall e: Event | Enabled(u, e) && id in Next(u, e).running ensures id in u.running { OffKeeps(u, e, id); }
  }

  // ---------------------------------------------------------------------
  // Setting and expiring
  // ---------------------------------------------------------------------

  /** While the timer is pending it is as it was set, and a call of its handler calls what was set. */
  predicate AsSet(w: World, id: Id, func: Func, timeout: int) {
    && id < w.next
    && (id in w.queue ==> id in w.heap && w.heap[id].timeout == timeout && w.heap[id].func == Ref(func))
    && (id in w.running ==> w.running[id] == Ref(func))
  }

  lemma AsSetKeeps(w: World, e: Event, id: Id, func: Func, timeout: int)
    requires Valid(w) && Enabled(w, e) && AsSet(w, id, func, timeout)
    ensures AsSet(Next(w, e), id, func, timeout)
  {
    hide Distinct, Without, AfterShutdown;
    match e
    case ClearEvent(other) => UnlinkQueue(w, other);
    case ExpireEvent(now) =>
      var due := w.queue[FirstDue(w, now, 0)];
      UnlinkQueue(w.(heap := w.heap[due := w.heap[due].(func := Undefined)], running := map[due := w.heap[due].func]), due);
    case ShutdownEvent => ShutdownKeeps(w);
    case _ =>
  }

  lemma {:induction false} StaysAsSet(v: World, events: seq<Event>, w: World, id: Id, func: Func, timeout: int)
    requires Valid(v) && Leads(v, events, w) && AsSet(v, id, func, timeout)
    ensures Valid(w) && AsSet(w, id, func, timeout)
    decreases |events|
  {
    hide Valid, Enabled, Next, AsSet;
    if events != [] {
      NextValid(v, events[0]);
      AsSetKeeps(v, events[0], id, func, timeout);
      StaysAsSet(Next(v, events[0]), events[1..], w, id, func, timeout);
    }
  }

  /** A timer that has been set is pending, last in the list, and due from exactly its time on. In every continuation,
      whenever a step starts its handler, its time has come and what is called is exactly the callback it was set with. */
  lemma SetRunsItsCallback(events: seq<Event>, w: World, func: Func, timeout: int, more: seq<Event>, u: World, e: Event)
    requires Leads(START, events, w) && Enabled(w, SetEvent(func, timeout)) && Leads(Next(w, SetEvent(func, timeout)), more, u)
    requires Enabled(u, e)
    ensures var id, v := w.next, Next(w, SetEvent(func, timeout));
      && id !in w.heap && id !in w.queue && v.queue == w.queue + [id] && (forall now :: IsDue(v, id, now) <==> timeout <= now)
      && (forall k :: k in w.heap ==> k in v.heap && v.heap[k] == w.heap[k])
      && (id in u.queue ==> forall now :: IsDue(u, id, now) <==> timeout <= now)
      && (id in Next(u, e).running && id !in u.running ==>
            e.ExpireEvent? && timeout <= e.now && id in u.queue && Next(u, e).running == map[id := Ref(func)])
  {
    hide Leads, Distinct, Without, AfterShutdown;
    ReachableValid(events, w);
    var id, v := w.next, Next(w, SetEvent(func, timeout));
    NextValid(w, SetEvent(func, timeout));
    StaysAsSet(v, more, u, id, func, timeout);
    if e.ShutdownEvent? { ShutdownKeeps(u); }
  }

  /** It stays pending, also without its object, until it is cleared, it expires or everything is shut down. */
  lemma StaysPending(events: seq<Event>, w: World, e: Event, id: Id)
    requires Leads(START, events, w) && Enabled(w, e) && id in w.queue
    requires e != ClearEvent(id) && !e.ShutdownEvent?
    requires e.ExpireEvent? ==> w.queue[FirstDue(w, e.now, 0)] != id
    ensures id in Next(w, e).queue
  {
    hide Leads, Distinct, Without;
    ReachableValid(events, w);
    match e
    case ClearEvent(other) => UnlinkQueue(w, other);
    case ExpireEvent(now) =>
      var due := w.queue[FirstDue(w, now, 0)];
      UnlinkQueue(w.(heap := w.heap[due := w.heap[due].(func := Undefined)], running := map[due := w.heap[due].func]), due);
    case _ =>
  }

  /** A poll at any time at which something is due takes out exactly the first pending timer in list order whose time
      has come, calls its callback, and leaves the others as they are. */
  lemma FirstDueExpires(events: seq<Event>, w: World, now: int, p: nat)
    requires Leads(START, events, w) && !w.down && w.running == map[]
    requires p < |w.queue| && IsDue(w, w.queue[p], now) && forall k :: 0 <= k < p ==> !IsDue(w, w.queue[k], now)
    ensures Enabled(w, ExpireEvent(now))
    ensures var id, v := w.queue[p], Next(w, ExpireEvent(now));
      && id in w.heap && v.running == map[id := w.heap[id].func] && w.heap[id].func.Ref?
      && TakenOut(w.queue, p, v.queue) && id !in v.queue
      && forall k :: k in w.heap && k != id ==> k in v.heap && v.heap[k] == w.heap[k]
  {
    hide Leads;
    ReachableValid(events, w);
    assert FirstDue(w, now, 0) == p;
    WithoutAt(w.queue, p);
    WithoutMembers(w.queue, w.queue[p]);
  }
}

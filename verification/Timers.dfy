/** Timers of quickjs-libc.c. A timer record is owned jointly by the list of pending timers and by the
    script object made for it; whichever lets go last frees the record. */
module Timers {

  type Id = nat
  type Func = nat

  /** `th->func` is a reference to the callback until it is taken out or the record is freed. */
  datatype Callback = Undefined | Ref(func: Func)

  /** A JSOSTimer. */
  datatype Timer = Timer(hasObject: bool, timeout: int, func: Callback)

  /** All records, the pending list in its order, the callback that the poll loop has taken out and is
      calling, and how often each record was freed and its callback reference released. */
  datatype World = World(
    heap: map<Id, Timer>, queue: seq<Id>, running: map<Id, Callback>,
    frees: multiset<Id>, releases: multiset<Id>, next: Id, down: bool)

  const START := World(map[], [], map[], multiset{}, multiset{}, 0, false)

  function Without(queue: seq<Id>, id: Id): seq<Id> {
    if queue == [] then []
    else if queue[0] == id then Without(queue[1..], id)
    else [queue[0]] + Without(queue[1..], id)
  }

  lemma {:induction false} WithoutMembers(queue: seq<Id>, id: Id)
    ensures forall k :: k in Without(queue, id) <==> k in queue && k != id
  {
    if queue != [] {
      WithoutMembers(queue[1..], id);
      assert queue == [queue[0]] + queue[1..];
    }
  }

  /** `free_timer`: the callback reference goes, if it is still there, and then the record. */
  function AfterFree(w: World, id: Id): World
    requires id in w.heap
  {
    w.(heap := w.heap - {id},
       frees := w.frees + multiset{id},
       releases := if w.heap[id].func.Ref? then w.releases + multiset{id} else w.releases)
  }

  /** `unlink_timer`. */
  function Unlink(w: World, id: Id): World {
    w.(queue := Without(w.queue, id))
  }

  /** `js_os_setTimeout`, once the arguments are checked and the record is allocated. */
  function AfterSet(w: World, func: Func, timeout: int): World {
    w.(heap := w.heap[w.next := Timer(true, timeout, Ref(func))], queue := w.queue + [w.next], next := w.next + 1)
  }

  /** `js_os_clearTimeout` on a timer object. */
  function AfterClear(w: World, id: Id): World {
    Unlink(w, id)
  }

  /** `js_os_timer_finalizer`. */
  function AfterFinalize(w: World, id: Id): World
    requires id in w.heap
  {
    var u := w.(heap := w.heap[id := w.heap[id].(hasObject := false)]);
    if id in w.queue then u else AfterFree(u, id)
  }

  /** The expiry of one timer up to the call of its handler. */
  function AfterExpire(w: World, id: Id): World
    requires id in w.heap
  {
    var u := Unlink(w.(heap := w.heap[id := w.heap[id].(func := Undefined)], running := map[id := w.heap[id].func]), id);
    if w.heap[id].hasObject then u else AfterFree(u, id)
  }

  /** After the handler has returned the reference that was taken out is released. */
  function AfterReturn(w: World, id: Id): World {
    w.(running := w.running - {id}, releases := w.releases + multiset{id})
  }

  /** The timer part of `js_std_free_handlers`. */
  function AfterShutdown(w: World): World
    decreases |w.queue|
  {
    if w.queue == [] then w.(down := true)
    else
      var id := w.queue[0];
      WithoutShorter(w.queue);
      var u := Unlink(w, id);
      AfterShutdown(if id in w.heap && !w.heap[id].hasObject then AfterFree(u, id) else u)
  }

  lemma {:induction false} WithoutShorter(queue: seq<Id>)
    requires queue != []
    ensures |Without(queue, queue[0])| < |queue|
  {
    WithoutNoLonger(queue[1..], queue[0]);
  }

  lemma {:induction false} WithoutNoLonger(queue: seq<Id>, id: Id)
    ensures |Without(queue, id)| <= |queue|
  {
    if queue != [] { WithoutNoLonger(queue[1..], id); }
  }

  // ---------------------------------------------------------------------
  // The ownership invariant
  // ---------------------------------------------------------------------

  /** The callback reference of a timer is held by its record, or by the call that is running. */
  predicate HoldsFunc(w: World, id: Id) {
    (id in w.heap && w.heap[id].func.Ref?) || id in w.running
  }

  /** The pending timers are records that still have their callback, each in the list once. */
  ghost predicate QueueValid(w: World) {
    (forall k: Id :: k in w.queue ==> k in w.heap && w.heap[k].func.Ref?)
    && Distinct(w.queue)
  }

  ghost predicate Distinct(queue: seq<Id>) {
    forall i, j :: 0 <= i < j < |queue| ==> queue[i] != queue[j]
  }

  /** A record is live exactly while it is linked or has an object, and every other one was freed once. */
  ghost predicate RecordsValid(w: World) {
    (forall k: Id :: k in w.heap ==> k < w.next && (k in w.queue || w.heap[k].hasObject))
    && forall k: Id :: w.frees[k] == if k < w.next && k !in w.heap then 1 else 0
  }

  /** A callback reference has exactly one holder until it is released, once. */
  ghost predicate CallbacksValid(w: World) {
    (forall k: Id :: k in w.running ==> k < w.next && !(k in w.heap && w.heap[k].func.Ref?))
    && forall k: Id :: w.releases[k] == if k < w.next && !HoldsFunc(w, k) then 1 else 0
  }

  ghost predicate Valid(w: World) {
    QueueValid(w) && RecordsValid(w) && CallbacksValid(w) && (w.down ==> w.queue == [] && w.running == map[])
  }

  lemma {:induction false} WithoutDistinct(queue: seq<Id>, id: Id)
    requires Distinct(queue)
    ensures Distinct(Without(queue, id))
  {
    if queue != [] {
      var rest := Without(queue[1..], id);
      WithoutDistinct(queue[1..], id);
      WithoutMembers(queue[1..], id);
      forall j | 0 <= j < |rest| ensures rest[j] != queue[0] {
        assert rest[j] in queue[1..];
      }
    }
  }

  lemma StartValid()
    ensures Valid(START)
  {
  }

  lemma SetTimeoutValid(w: World, func: Func, timeout: int)
    requires Valid(w) && !w.down
    ensures Valid(AfterSet(w, func, timeout))
  {
    var u := AfterSet(w, func, timeout);
    forall i, j | 0 <= i < j < |u.queue| ensures u.queue[i] != u.queue[j] {
      assert w.queue[i] in w.queue;
    }
  }

  lemma ClearTimeoutValid(w: World, id: Id)
    requires Valid(w) && id in w.heap && w.heap[id].hasObject
    ensures Valid(AfterClear(w, id))
  {
    hide Without, Distinct;
    UnlinkQueue(w, id);
  }

  lemma UnlinkQueue(w: World, id: Id)
    ensures forall k: Id :: k in Unlink(w, id).queue <==> k in w.queue && k != id
    ensures Distinct(w.queue) ==> Distinct(Unlink(w, id).queue)
    ensures w.queue == [] ==> Unlink(w, id).queue == []
  {
    WithoutMembers(w.queue, id);
    if Distinct(w.queue) { WithoutDistinct(w.queue, id); }
  }

  lemma FinalizeValid(w: World, id: Id)
    requires Valid(w) && id in w.heap && w.heap[id].hasObject
    ensures Valid(AfterFinalize(w, id))
  {
    hide Distinct, Without;
    var u := w.(heap := w.heap[id := w.heap[id].(hasObject := false)]);
    if id !in w.queue { FreeKeeps(u, id); }
  }

  /** Freeing a record that is neither linked nor owned by an object. */
  lemma FreeKeeps(w: World, id: Id)
    requires QueueValid(w) && CallbacksValid(w) && (w.down ==> w.queue == [] && w.running == map[])
    requires id in w.heap && id !in w.queue && id < w.next
    requires forall k: Id :: k in w.heap ==> k < w.next && (k == id || k in w.queue || w.heap[k].hasObject)
    requires forall k: Id :: w.frees[k] == if k < w.next && k !in w.heap then 1 else 0
    ensures Valid(AfterFree(w, id))
  {
    hide Distinct;
    var u := AfterFree(w, id);
    assert QueueValid(u);
    forall k: Id ensures u.releases[k] == if k < u.next && !HoldsFunc(u, k) then 1 else 0 {
      assert k != id ==> HoldsFunc(u, k) == HoldsFunc(w, k);
    }
  }

  lemma ExpireValid(w: World, id: Id)
    requires Valid(w) && id in w.queue && w.running == map[]
    ensures Valid(AfterExpire(w, id))
  {
    hide Without, Distinct;
    var v := w.(heap := w.heap[id := w.heap[id].(func := Undefined)], running := map[id := w.heap[id].func]);
    var u := Unlink(v, id);
    UnlinkQueue(v, id);
    TakeKeeps(w, id);
    if !w.heap[id].hasObject { FreeKeeps(u, id); }
  }

  /** Taking the callback out moves its reference from the record to the call. */
  lemma TakeKeeps(w: World, id: Id)
    requires Valid(w) && id in w.queue && w.running == map[]
    ensures var u := Unlink(w.(heap := w.heap[id := w.heap[id].(func := Undefined)], running := map[id := w.heap[id].func]), id);
            QueueValid(u) && CallbacksValid(u)
  {
    hide Without, Distinct;
    var v := w.(heap := w.heap[id := w.heap[id].(func := Undefined)], running := map[id := w.heap[id].func]);
    var u := Unlink(v, id);
    UnlinkQueue(v, id);
    forall k: Id ensures u.releases[k] == if k < u.next && !HoldsFunc(u, k) then 1 else 0 {
      assert HoldsFunc(u, k) == HoldsFunc(w, k);
    }
  }

  lemma ExpiredValid(w: World, now: int)
    requires Valid(w) && w.running == map[] && !w.down && FirstDue(w, now, 0) < |w.queue|
    ensures var id := w.queue[FirstDue(w, now, 0)];
            id in w.heap && Valid(AfterExpire(w, id)) && AfterExpire(w, id).running == map[id := w.heap[id].func] && !AfterExpire(w, id).down
  {
    hide Distinct, Without;
    ExpireValid(w, w.queue[FirstDue(w, now, 0)]);
  }

  lemma ReturnValid(w: World, id: Id)
    requires Valid(w) && id in w.running
    ensures Valid(AfterReturn(w, id))
  {
    hide Distinct;
    var u := AfterReturn(w, id);
    forall k: Id ensures u.releases[k] == if k < u.next && !HoldsFunc(u, k) then 1 else 0 {
      assert k != id ==> HoldsFunc(u, k) == HoldsFunc(w, k);
    }
  }

  lemma {:induction false} ShutdownValid(w: World)
    requires Valid(w) && w.running == map[]
    ensures Valid(AfterShutdown(w)) && AfterShutdown(w).down && AfterShutdown(w).running == map[]
    decreases |w.queue|
  {
    hide Without, Distinct;
    if w.queue != [] {
      var id := w.queue[0];
      WithoutShorter(w.queue);
      UnlinkQueue(w, id);
      var u := Unlink(w, id);
      assert CallbacksValid(u) by {
        forall k: Id ensures HoldsFunc(u, k) == HoldsFunc(w, k) { }
      }
      assert QueueValid(u);
      if !w.heap[id].hasObject { FreeKeeps(u, id); }
      ShutdownValid(if !w.heap[id].hasObject then AfterFree(u, id) else u);
    }
  }

  // ---------------------------------------------------------------------
  // Runs
  // ---------------------------------------------------------------------

  datatype Event =
    | SetEvent(func: Func, timeout: int)
    | ClearEvent(id: Id)
    | FinalizeEvent(id: Id)
    | ExpireEvent(now: int)
    | ReturnEvent(id: Id)
    | ShutdownEvent

  /** The first pending timer, in list order from i on, whose time has come; the length if none. */
  function FirstDue(w: World, now: int, i: nat): (r: nat)
    requires i <= |w.queue|
    ensures i <= r <= |w.queue|
    ensures forall k :: i <= k < r ==> !IsDue(w, w.queue[k], now)
    ensures r < |w.queue| ==> IsDue(w, w.queue[r], now)
    decreases |w.queue| - i
  {
    if i == |w.queue| || IsDue(w, w.queue[i], now) then i else FirstDue(w, now, i + 1)
  }

  predicate IsDue(w: World, id: Id, now: int) {
    id in w.heap && w.heap[id].timeout <= now
  }

  /** Scripts reach a timer through its object only; the poll loop is not re-entered from a handler; after
      the shutdown only finalizers run. */
  predicate Enabled(w: World, e: Event) {
    match e
    case SetEvent(_, _) => !w.down
    case ClearEvent(id) => !w.down && id in w.heap && w.heap[id].hasObject
    case FinalizeEvent(id) => id in w.heap && w.heap[id].hasObject
    case ExpireEvent(now) => !w.down && w.running == map[] && FirstDue(w, now, 0) < |w.queue|
    case ReturnEvent(id) => id in w.running
    case ShutdownEvent => !w.down && w.running == map[]
  }

  function Next(w: World, e: Event): World
    requires Enabled(w, e)
  {
    match e
    case SetEvent(func, timeout) => AfterSet(w, func, timeout)
    case ClearEvent(id) => AfterClear(w, id)
    case FinalizeEvent(id) => AfterFinalize(w, id)
    case ExpireEvent(now) => AfterExpire(w, w.queue[FirstDue(w, now, 0)])
    case ReturnEvent(id) => AfterReturn(w, id)
    case ShutdownEvent => AfterShutdown(w)
  }

  lemma NextValid(w: World, e: Event)
    requires Valid(w) && Enabled(w, e)
    ensures Valid(Next(w, e))
  {
    hide Distinct, Without;
    match e
    case SetEvent(func, timeout) => SetTimeoutValid(w, func, timeout);
    case ClearEvent(id) => ClearTimeoutValid(w, id);
    case FinalizeEvent(id) => FinalizeValid(w, id);
    case ExpireEvent(now) => ExpireValid(w, w.queue[FirstDue(w, now, 0)]);
    case ReturnEvent(id) => ReturnValid(w, id);
    case ShutdownEvent => ShutdownValid(w);
  }

  /** w is reached from v by these events, each possible when it happens. */
  ghost predicate Leads(v: World, events: seq<Event>, w: World)
    decreases |events|
  {
    if events == [] then w == v
    else Enabled(v, events[0]) && Leads(Next(v, events[0]), events[1..], w)
  }

  lemma {:induction false} LeadsValid(v: World, events: seq<Event>, w: World)
    requires Valid(v) && Leads(v, events, w)
    ensures Valid(w)
    decreases |events|
  {
    hide Valid, Next, Enabled;
    if events != [] {
      NextValid(v, events[0]);
      LeadsValid(Next(v, events[0]), events[1..], w);
    }
  }

  /** In every reachable state a record lives exactly while it is linked or has an object; otherwise it has been
      freed exactly once; and a callback reference that neither its record nor the running call holds has been
      released exactly once. */
  lemma ReachableOwnership(events: seq<Event>, w: World, id: Id)
    requires Leads(START, events, w) && id < w.next
    ensures id in w.heap <==> (id in w.queue || (id in w.heap && w.heap[id].hasObject))
    ensures w.frees[id] == if id in w.heap then 0 else 1
    ensures w.releases[id] == if HoldsFunc(w, id) then 0 else 1
  {
    StartValid();
    LeadsValid(START, events, w);
  }

  /** Once the handlers are shut down and the objects are gone, every timer that was ever set has been freed
      once and its callback released once. */
  lemma NothingLeaks(events: seq<Event>, w: World, id: Id)
    requires Leads(START, events, w) && w.down && id < w.next
    requires forall k: Id :: k in w.heap ==> !w.heap[k].hasObject
    ensures w.heap == map[] && w.frees[id] == 1 && w.releases[id] == 1
  {
    StartValid();
    LeadsValid(START, events, w);
    assert forall k: Id :: k in w.heap ==> k in w.queue;
  }

  /** A timer that is not pending never gets pending again, and its callback is not called again. */
  lemma ExpiresOnce(events: seq<Event>, w: World, e: Event, id: Id)
    requires Leads(START, events, w) && Enabled(w, e) && id < w.next && id !in w.queue
    ensures id !in Next(w, e).queue && (id in Next(w, e).running ==> id in w.running)
  {
    hide Distinct;
    StartValid();
    LeadsValid(START, events, w);
    match e
    case ClearEvent(other) => UnlinkQueue(w, other);
    case ExpireEvent(now) =>
      var due := w.queue[FirstDue(w, now, 0)];
      UnlinkQueue(w.(heap := w.heap[due := w.heap[due].(func := Undefined)], running := map[due := w.heap[due].func]), due);
    case ShutdownEvent => ShutdownValid(w);
    case _ =>
  }

  /** What a handler can do to timers: set and clear them, and drop their objects. */
  predicate ByScript(e: Event) {
    e.SetEvent? || e.ClearEvent? || e.FinalizeEvent?
  }

  /** After a handler that does these things, as far as each is possible when it comes. */
  function AfterHandler(w: World, handler: seq<Event>): World
    decreases |handler|
  {
    if handler == [] then w
    else AfterHandler(if ByScript(handler[0]) && Enabled(w, handler[0]) then Next(w, handler[0]) else w, handler[1..])
  }

  lemma {:induction false} HandlerKeeps(w: World, handler: seq<Event>)
    requires Valid(w)
    ensures var u := AfterHandler(w, handler); Valid(u) && u.running == w.running && u.down == w.down
    decreases |handler|
  {
    hide Valid, Enabled, Next;
    if handler != [] {
      if ByScript(handler[0]) && Enabled(w, handler[0]) {
        NextValid(w, handler[0]);
        ScriptKeeps(w, handler[0]);
        HandlerKeeps(Next(w, handler[0]), handler[1..]);
      } else {
        HandlerKeeps(w, handler[1..]);
      }
    }
  }

  lemma ScriptKeeps(w: World, e: Event)
    requires ByScript(e) && Enabled(w, e)
    ensures Next(w, e).running == w.running && Next(w, e).down == w.down
  {
    hide Without;
  }

  // ---------------------------------------------------------------------
  // The program, updating its list and records in place
  // ---------------------------------------------------------------------

  datatype PollResult =
    | NoTimers             // nothing pending: wait without a limit
    | Expired(id: Id)      // the handler of this timer is to be called
    | Wait(delay: int)     // nothing due: wait at most this long

  const LONGEST_WAIT := 10000

  class TimerQueue {
    var heap: map<Id, Timer>
    var queue: seq<Id>
    var running: map<Id, Callback>
    var next: Id
    var down: bool
    ghost var frees: multiset<Id>
    ghost var releases: multiset<Id>

    ghost function State(): World
      reads this
    {
      World(heap, queue, running, frees, releases, next, down)
    }

    constructor ()
      ensures State() == START
    {
      heap, queue, running, next, down := map[], [], map[], 0, false;
      frees, releases := multiset{}, multiset{};
    }

    method FreeTimer(id: Id)
      requires id in heap
      modifies this
      ensures State() == AfterFree(old(State()), id)
    {
      if heap[id].func.Ref? { releases := releases + multiset{id}; }
      heap := heap - {id};
      frees := frees + multiset{id};
    }

    method SetTimeout(func: Func, now: int, delay: int) returns (id: Id)
      modifies this
      ensures id == old(next) && State() == AfterSet(old(State()), func, now + delay)
    {
      id := next;
      next := next + 1;
      heap := heap[id := Timer(true, now + delay, Ref(func))];
      queue := queue + [id];
    }

    method ClearTimeout(id: Id)
      modifies this
      ensures State() == AfterClear(old(State()), id)
    {
      queue := Without(queue, id);
    }

    method Finalize(id: Id)
      requires id in heap
      modifies this
      ensures State() == AfterFinalize(old(State()), id)
    {
      heap := heap[id := heap[id].(hasObject := false)];
      if id !in queue { FreeTimer(id); }
    }

    /** The timer part of `js_os_poll`, up to the call of a handler or the wait. */
    method Poll(now: int) returns (r: PollResult)
      requires Valid(State()) && running == map[] && !down
      modifies this
      ensures match r
              case NoTimers => queue == [] && State() == old(State())
              case Expired(id) => var i := FirstDue(old(State()), now, 0);
                                  i < |old(queue)| && id == old(queue)[i] && State() == AfterExpire(old(State()), id)
              case Wait(delay) => queue != [] && State() == old(State()) && 0 < delay <= LONGEST_WAIT
                                  && (forall i :: 0 <= i < |queue| ==> delay <= heap[queue[i]].timeout - now)
                                  && (delay == LONGEST_WAIT || exists i :: 0 <= i < |queue| && delay == heap[queue[i]].timeout - now)
    {
      if queue == [] { return NoTimers; }
      var minDelay := LONGEST_WAIT;
      for k := 0 to |queue|
        invariant State() == old(State()) && 0 < minDelay <= LONGEST_WAIT
        invariant FirstDue(State(), now, 0) == FirstDue(State(), now, k)
        invariant forall i :: 0 <= i < k ==> minDelay <= heap[queue[i]].timeout - now
        invariant minDelay == LONGEST_WAIT || exists i :: 0 <= i < k && minDelay == heap[queue[i]].timeout - now
      {
        var id := queue[k];
        var delay := heap[id].timeout - now;
        if delay <= 0 {
          TakeOut(id);
          return Expired(id);
        } else if delay < minDelay {
          minDelay := delay;
        }
      }
      return Wait(minDelay);
    }

    method TakeOut(id: Id)
      requires id in heap
      modifies this
      ensures State() == AfterExpire(old(State()), id)
    {
      var hasObject := heap[id].hasObject;
      running := map[id := heap[id].func];
      heap := heap[id := heap[id].(func := Undefined)];
      queue := Without(queue, id);
      if !hasObject { FreeTimer(id); }
    }

    /** After the handler: `JS_FreeValue(ctx, func)`. */
    method HandlerReturned(id: Id)
      modifies this
      ensures State() == AfterReturn(old(State()), id)
    {
      running := running - {id};
      releases := releases + multiset{id};
    }

    /** One thing a handler does. */
    method Act(e: Event)
      requires ByScript(e) && Enabled(State(), e)
      modifies this
      ensures State() == Next(old(State()), e)
    {
      match e
      case SetEvent(func, timeout) => var _ := SetTimeout(func, timeout, 0);
      case ClearEvent(id) => ClearTimeout(id);
      case FinalizeEvent(id) => Finalize(id);
    }

    /** The timer part of `js_os_poll` with the call of the handler, which may use timers itself: at most one timer
        expires, its callback is released after the call, and the ownership invariant holds again. */
    method PollAndCall(now: int, handler: seq<Event>)
      requires Valid(State()) && running == map[] && !down
      modifies this
      ensures Valid(State()) && running == map[] && !down
      ensures var i, w := FirstDue(old(State()), now, 0), old(State());
              if i == |w.queue| then State() == w
              else State() == AfterReturn(AfterHandler(AfterExpire(w, w.queue[i]), handler), w.queue[i])
    {
      hide Valid, AfterExpire, AfterHandler, Without;
      ghost var i, w := FirstDue(State(), now, 0), State();
      var r := Poll(now);
      if r.Expired? {
        ExpiredValid(w, now);
        Call(handler);
        HandlerReturned(r.id);
        ReturnValid(AfterHandler(AfterExpire(w, r.id), handler), r.id);
      } else {
        assert forall k :: 0 <= k < |w.queue| ==> !IsDue(w, w.queue[k], now);
      }
    }

    method Call(handler: seq<Event>)
      requires Valid(State())
      modifies this
      ensures State() == AfterHandler(old(State()), handler)
      ensures Valid(State()) && running == old(running) && down == old(down)
    {
      hide Valid, Next, FirstDue;
      HandlerKeeps(State(), handler);
      var rest := handler;
      while rest != []
        invariant AfterHandler(State(), rest) == AfterHandler(old(State()), handler)
        decreases |rest|
      {
        if ByScript(rest[0]) && Possible(rest[0]) { Act(rest[0]); }
        rest := rest[1..];
      }
    }

    predicate Possible(e: Event)
      reads this
    {
      match e
      case SetEvent(_, _) => !down
      case ClearEvent(id) => !down && id in heap && heap[id].hasObject
      case FinalizeEvent(id) => id in heap && heap[id].hasObject
      case _ => false
    }

    method FreeHandlers()
      modifies this
      ensures State() == AfterShutdown(old(State()))
    {
      while queue != []
        invariant AfterShutdown(State()) == AfterShutdown(old(State()))
        decreases |queue|
      {
        var id := queue[0];
        WithoutShorter(queue);
        queue := Without(queue, id);
        if id in heap && !heap[id].hasObject { FreeTimer(id); }
      }
      down := true;
    }
  }
}

/** What the library hands over in a drain, stated of the log alone: all that was
    added and not taken out since, oldest first.
  */
module ScannedCodeLibrary {
  import opened Options
  import opened Protocol
  import opened Course
  import opened ScannedCodeLaws

  predicate Adds(e: Event) { (e.Happened? && e.what.Queue?) || (e.Resolved? && e.call.Cancel?) }

  /** `e` adds `r`: a request of the library's own, or the refusal of a flow that
      is called off. */
  predicate AddsRequest(e: Event, r: Request)
  {
    && Adds(e)
    && if e.Happened? then r.kind == e.what.kind && r.readable == e.what.readable
       else r.kind.ToDevice? && r.readable == e.reply.readable
  }

  predicate TakesOut(e: Event, r: Request)
  {
    (e.Resolved? && e.call == MarkSent(r.id)) || (e == Happened(Evict(r.id)) && !r.kind.ToDevice?)
  }

  ghost predicate Untouched(log: seq<Event>, j: nat, n: nat, r: Request)
    requires n <= |log|
  {
    forall k :: j < k < n ==> !TakesOut(log[k], r)
  }

  /** Before `n` the request was added, under the number of those added before it,
      and it was not taken out since. */
  ghost predicate Stands(log: seq<Event>, n: nat, r: Request)
    requires n <= |log|
  {
    exists j :: 0 <= j < n && AddsRequest(log[j], r) && Count(log, j, Adds) == r.id && Untouched(log, j, n, r)
  }

  lemma StandsMore(log: seq<Event>, n: nat, r: Request)
    requires n < |log|
    ensures Stands(log, n + 1, r) <==>
      (AddsRequest(log[n], r) && Count(log, n, Adds) == r.id) || (Stands(log, n, r) && !TakesOut(log[n], r))
  {
    if AddsRequest(log[n], r) && Count(log, n, Adds) == r.id {
      assert Untouched(log, n, n + 1, r);
    } else if !TakesOut(log[n], r) {
      if j :| 0 <= j < n && AddsRequest(log[j], r) && Count(log, j, Adds) == r.id && Untouched(log, j, n, r) {
        assert Untouched(log, j, n + 1, r);
      }
      if j :| 0 <= j < n + 1 && AddsRequest(log[j], r) && Count(log, j, Adds) == r.id && Untouched(log, j, n + 1, r) {
        assert Untouched(log, j, n, r);
      }
    }
  }

  function Served(library: Library, e: Event): Library
  {
    match e
    case Resolved(c, reply) => LibraryAfter(library, c, reply)
    case Happened(h) => LibraryTold(library, h)
    case _ => library
  }

  /** Calling a flow off queues one refusal. */
  ghost predicate QueuesOne(library: Library, e: Event)
  {
    e.Resolved? && e.call.Cancel? ==> e.reply.batch == [Request(library.nextId, ToDevice, e.reply.readable)]
  }

  lemma LibraryStep(script: seq<Turn>, w: Watch, e: Event)
    requires Step(script, w) == Some(e)
    ensures Observe(w, e).world.library == Served(w.world.library, e) && QueuesOne(w.world.library, e)
  {}

  lemma QueueStep(was: Library, e: Event, r: Request)
    requires QueuesOne(was, e)
    ensures r in Served(was, e).queue <==> (AddsRequest(e, r) && r.id == was.nextId) || (r in was.queue && !TakesOut(e, r))
    ensures Served(was, e).nextId == was.nextId + if Adds(e) then 1 else 0
  {}

  /** The observer's queue is what stands. */
  ghost function Agrees(log: seq<Event>, n: nat, library: Library, r: Request): Verdict
    requires n <= |log|
  {
    if (r in library.queue <==> Stands(log, n, r)) && library.nextId == Count(log, n, Adds) then Fine else Breach
  }

  lemma QueueNext(script: seq<Turn>, log: seq<Event>, known: seq<Watch>, n: nat, r: Request)
    requires Traced(script, log, known) && n < |log| && Agrees(log, n, known[n].world.library, r).Fine?
    ensures Agrees(log, n + 1, known[n + 1].world.library, r).Fine?
  {
    Proceeds(script, log, known, n);
    LibraryStep(script, known[n], log[n]);
    QueueStep(known[n].world.library, log[n], r);
    StandsMore(log, n, r);
  }

  lemma {:induction false} QueueSoFar(script: seq<Turn>, log: seq<Event>, known: seq<Watch>, n: nat, r: Request)
    requires Traced(script, log, known) && n <= |log|
    ensures Agrees(log, n, known[n].world.library, r).Fine?
  {
    if n > 0 {
      QueueSoFar(script, log, known, n - 1, r);
      QueueNext(script, log, known, n - 1, r);
    }
  }

  // ---- their order ----

  ghost predicate Ascending(queue: seq<Request>)
  {
    forall i, j :: 0 <= i < j < |queue| ==> queue[i].id < queue[j].id
  }

  ghost predicate InOrder(library: Library)
  {
    Ascending(library.queue) && forall r :: r in library.queue ==> r.id < library.nextId
  }

  lemma {:induction false} WithoutAscends(queue: seq<Request>, id: nat, evicting: bool)
    requires Ascending(queue)
    ensures Ascending(Without(queue, id, evicting))
  {
    if queue != [] {
      WithoutAscends(queue[1..], id, evicting);
      var rest := Without(queue[1..], id, evicting);
      forall j | 0 <= j < |rest| ensures queue[0].id < rest[j].id {
        assert rest[j] in rest;
        var i :| 0 <= i < |queue[1..]| && queue[1..][i] == rest[j];
        assert queue[1..][i] == queue[i + 1];
      }
    }
  }

  lemma OrderStep(was: Library, e: Event)
    requires InOrder(was) && QueuesOne(was, e)
    ensures InOrder(Served(was, e))
  {
    if e.Resolved? && e.call.MarkSent? {
      WithoutAscends(was.queue, e.call.id, false);
    } else if e.Happened? && e.what.Evict? {
      WithoutAscends(was.queue, e.what.id, true);
    }
  }

  lemma OrderNext(script: seq<Turn>, log: seq<Event>, known: seq<Watch>, n: nat)
    requires Traced(script, log, known) && n < |log| && InOrder(known[n].world.library)
    ensures InOrder(known[n + 1].world.library)
  {
    Proceeds(script, log, known, n);
    LibraryStep(script, known[n], log[n]);
    OrderStep(known[n].world.library, log[n]);
  }

  lemma {:induction false} OrderSoFar(script: seq<Turn>, log: seq<Event>, known: seq<Watch>, n: nat)
    requires Traced(script, log, known) && n <= |log|
    ensures InOrder(known[n].world.library)
  {
    if n > 0 {
      OrderSoFar(script, log, known, n - 1);
      OrderNext(script, log, known, n - 1);
    }
  }

  /** A drain hands over exactly the requests that were added and not taken out
      since, oldest first. */
  lemma HandsOverAll(script: seq<Turn>, log: seq<Event>, known: seq<Watch>, k: nat)
    requires Traced(script, log, known) && k < |log| && log[k].Resolved? && log[k].call.Take?
    ensures forall r :: r in log[k].reply.batch <==> Stands(log, k, r)
    ensures Ascending(log[k].reply.batch)
  {
    Proceeds(script, log, known, k);
    TakesTheQueue(script, known[k], log[k]);
    OrderSoFar(script, log, known, k);
    forall r ensures r in log[k].reply.batch <==> Stands(log, k, r) {
      QueueSoFar(script, log, known, k, r);
    }
  }

  lemma TakesTheQueue(script: seq<Turn>, w: Watch, e: Event)
    requires Step(script, w) == Some(e) && e.Resolved? && e.call.Take?
    ensures e.reply.batch == w.world.library.queue
  {}
}

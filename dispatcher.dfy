/** runDispatcherThread on the buffer objects: the round-robin loop over the producer queues,
    then one "DONE" into each of the three dispatcher queues. Each turn is proved to do what
    DispatcherSpec.Step does to the contents of the queues. */
module Dispatcher {
  import opened Messages
  import opened BoundedBuffers
  import opened UnboundedBuffers
  import opened DispatcherSpec

  /** The producer queues: valid, and distinct objects. */
  ghost predicate ProducersValid(pqs: seq<BoundedBuffer>)
    reads pqs, set p | 0 <= p < |pqs| :: pqs[p].buffer
  {
    (forall p :: 0 <= p < |pqs| ==> pqs[p].Valid()) &&
    (forall p, q :: 0 <= p < q < |pqs| ==> pqs[p] != pqs[q])
  }

  /** The three dispatcher queues (SPORTS, NEWS, WEATHER): valid, and distinct objects. */
  ghost predicate RoutesValid(dqs: seq<UnboundedBuffer>)
    reads dqs
  {
    |dqs| == 3 && dqs[0].Valid() && dqs[1].Valid() && dqs[2].Valid() &&
    dqs[0] != dqs[1] && dqs[0] != dqs[2] && dqs[1] != dqs[2]
  }

  /** The messages waiting in the producer queues. */
  ghost function Waiting(pqs: seq<BoundedBuffer>): seq<seq<Msg>>
    reads pqs
  {
    seq(|pqs|, p requires 0 <= p < |pqs| reads pqs => pqs[p].Contents)
  }

  /** The messages in the three dispatcher queues. */
  ghost function Routed(dqs: seq<UnboundedBuffer>): seq<seq<Msg>>
    requires |dqs| == 3
    reads dqs
  {
    [dqs[0].Contents, dqs[1].Contents, dqs[2].Contents]
  }

  /** The dispatcher's state as DispatcherSpec sees it. */
  ghost function Snapshot(pqs: seq<BoundedBuffer>, dqs: seq<UnboundedBuffer>, current: int, doneCount: int): Dispatch
    requires |dqs| == 3
    reads pqs, dqs
  {
    Dispatch(Waiting(pqs), Routed(dqs), current, doneCount)
  }

  /** removeBounded on producer queue `current`: its first message leaves it; the other
      producer queues are not touched. */
  method TakeFrom(pqs: seq<BoundedBuffer>, current: int) returns (message: Msg)
    requires ProducersValid(pqs) && 0 <= current < |pqs| && pqs[current].count > 0
    modifies pqs[current]
    ensures ProducersValid(pqs)
    ensures old(Waiting(pqs))[current] != [] && message == old(Waiting(pqs))[current][0]
    ensures Waiting(pqs) == old(Waiting(pqs))[current := old(Waiting(pqs))[current][1..]]
  {
    ghost var before := Waiting(pqs);
    message := pqs[current].Remove();
    forall p | 0 <= p < |pqs| && p != current ensures pqs[p].Contents == before[p] && pqs[p].Valid() {
      assert pqs[p] != pqs[current];
    }
    assert Waiting(pqs) == before[current := before[current][1..]];
  }

  /** The strstr chain of the loop body: an item goes to dispatcher queue 0, 1 or 2 for SPORTS,
      NEWS or WEATHER; the other two queues are not touched. */
  method Route(dqs: seq<UnboundedBuffer>, message: Msg)
    requires RoutesValid(dqs) && message.Item?
    modifies dqs[0], dqs[1], dqs[2]
    ensures RoutesValid(dqs)
    ensures Routed(dqs) == old(Routed(dqs))[CategoryIndex(message.category) :=
      old(Routed(dqs))[CategoryIndex(message.category)] + [message]]
  {
    match message.category
    case Sports => dqs[0].Insert(message);
    case News => dqs[1].Insert(message);
    case Weather => dqs[2].Insert(message);
  }

  /** One turn of the while loop: if producer queue `current` holds a message, remove it; count
      a "DONE", send an item to the queue of its category; then move to the next producer. */
  method DispatchStep(pqs: seq<BoundedBuffer>, dqs: seq<UnboundedBuffer>, current: int, doneCount: int)
    returns (nextProducer: int, newDoneCount: int)
    requires ProducersValid(pqs) && RoutesValid(dqs) && 0 <= current < |pqs|
    modifies pqs, dqs
    ensures ProducersValid(pqs) && RoutesValid(dqs)
    ensures Snapshot(pqs, dqs, nextProducer, newDoneCount) == Step(old(Snapshot(pqs, dqs, current, doneCount)))
  {
    newDoneCount := doneCount;
    if pqs[current].count > 0 {
      var message := TakeFrom(pqs, current);
      if message == Done {
        newDoneCount := doneCount + 1;
      } else {
        Route(dqs, message);
      }
    }
    nextProducer := (current + 1) % |pqs|;
  }

  /** The final loop: one "DONE" at the end of each of the three dispatcher queues. */
  method FanOut(dqs: seq<UnboundedBuffer>)
    requires RoutesValid(dqs)
    modifies dqs[0], dqs[1], dqs[2]
    ensures RoutesValid(dqs)
    ensures forall j :: 0 <= j < 3 ==> Routed(dqs)[j] == old(Routed(dqs))[j] + [Done]
  {
    ghost var routed := Routed(dqs);
    for i := 0 to 3
      invariant RoutesValid(dqs)
      invariant dqs[0].Contents == routed[0] + (if 0 < i then [Done] else [])
      invariant dqs[1].Contents == routed[1] + (if 1 < i then [Done] else [])
      invariant dqs[2].Contents == routed[2] + (if 2 < i then [Done] else [])
    {
      dqs[i].Insert(Done);
    }
  }

  /** The while loop of the dispatcher thread, run after every producer has finished (each
      producer queue holds its whole stream): it takes every message of every producer queue,
      and stops once it has seen one "DONE" per producer, which is exactly when all producer
      queues are empty. The items taken land in the queue of their category in the order taken.
      With no producers the loop does not run at all. The ghost result is the history of what
      was taken from where. */
  method DrainProducers(pqs: seq<BoundedBuffer>, dqs: seq<UnboundedBuffer>) returns (doneCount: int, ghost log: seq<Entry>)
    requires ProducersValid(pqs) && RoutesValid(dqs)
    requires forall p :: 0 <= p < |pqs| ==> IsStream(pqs[p].Contents)
    modifies pqs, dqs
    ensures ProducersValid(pqs) && RoutesValid(dqs)
    ensures doneCount == |pqs|
    ensures forall k :: 0 <= k < |log| ==> 0 <= log[k].source < |pqs|
    ensures forall p :: 0 <= p < |pqs| ==> Waiting(pqs)[p] == [] && From(log, p) == old(Waiting(pqs))[p]
    ensures forall c: Category ::
      Routed(dqs)[CategoryIndex(c)] == old(Routed(dqs))[CategoryIndex(c)] + ItemsOf(Taken(log), c)
  {
    ghost var orig := Waiting(pqs);
    ghost var initial := Routed(dqs);
    var currentProducer := 0;
    doneCount := 0;
    log := [];
    assert forall p :: 0 <= p < |orig| ==> IsStream(orig[p]);
    InvInit(orig, initial, 0);
    ghost var d := Snapshot(pqs, dqs, currentProducer, doneCount);
    while doneCount < |pqs|
      invariant ProducersValid(pqs) && RoutesValid(dqs)
      invariant |pqs| > 0 ==> 0 <= currentProducer < |pqs|
      invariant d == Snapshot(pqs, dqs, currentProducer, doneCount)
      invariant Inv(orig, initial, d, log)
      decreases Total(d.queues), Rank(d)
    {
      DoneCountTracksDrained(orig, initial, d, log);
      StepProgress(d);
      StepKeepsInv(orig, initial, d, log);
      log := Record(d, log);
      currentProducer, doneCount := DispatchStep(pqs, dqs, currentProducer, doneCount);
      d := Step(d);
    }
    DrainedAtEnd(orig, initial, d, log);
  }

  /** runDispatcherThread: the while loop, then one "DONE" into each dispatcher queue. */
  method RunDispatcher(pqs: seq<BoundedBuffer>, dqs: seq<UnboundedBuffer>) returns (ghost log: seq<Entry>)
    requires ProducersValid(pqs) && RoutesValid(dqs)
    requires forall p :: 0 <= p < |pqs| ==> IsStream(pqs[p].Contents)
    modifies pqs, dqs
    ensures ProducersValid(pqs) && RoutesValid(dqs)
    ensures forall k :: 0 <= k < |log| ==> 0 <= log[k].source < |pqs|
    ensures forall p :: 0 <= p < |pqs| ==> Waiting(pqs)[p] == [] && From(log, p) == old(Waiting(pqs))[p]
    ensures forall c: Category ::
      Routed(dqs)[CategoryIndex(c)] == old(Routed(dqs))[CategoryIndex(c)] + ItemsOf(Taken(log), c) + [Done]
  {
    var doneCount;
    doneCount, log := DrainProducers(pqs, dqs);
    FanOut(dqs);
  }
}

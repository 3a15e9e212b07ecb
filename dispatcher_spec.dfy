/** The dispatcher of news_broadcasting.c on values: one turn of its round-robin loop, what it
    keeps invariant, and why its loop ends exactly when every producer queue is drained.
    Module Dispatcher runs the same turn on the buffer objects. */
module DispatcherSpec {
  import opened Messages

  /** The dispatcher's view: the messages waiting in each producer queue, the messages in each
      of the three dispatcher queues (SPORTS, NEWS, WEATHER), the cursor currentProducer and
      doneCount, the number of "DONE"s taken. */
  datatype Dispatch = Dispatch(queues: seq<seq<Msg>>, categories: seq<seq<Msg>>, current: int, doneCount: int)

  /** A state in which the loop body can run: some producer, the cursor on one of them. */
  predicate Ready(d: Dispatch)
  {
    1 <= |d.queues| && 0 <= d.current < |d.queues| && |d.categories| == 3
  }

  /** One turn of the loop body: if the current producer queue holds a message, take exactly
      one; a "DONE" is counted and not forwarded, an item goes to the queue of its category.
      In every case the cursor moves on to the next producer. */
  function Step(d: Dispatch): (r: Dispatch)
    requires Ready(d)
    ensures Ready(r) && |r.queues| == |d.queues|
    ensures r.current == (d.current + 1) % |d.queues|
    ensures forall p :: 0 <= p < |d.queues| && p != d.current ==> r.queues[p] == d.queues[p]
    ensures d.queues[d.current] == [] ==>
      r.queues == d.queues && r.categories == d.categories && r.doneCount == d.doneCount
    ensures d.queues[d.current] != [] ==> r.queues[d.current] == d.queues[d.current][1..]
    ensures d.queues[d.current] != [] && d.queues[d.current][0] == Done ==>
      r.doneCount == d.doneCount + 1 && r.categories == d.categories
    ensures d.queues[d.current] != [] && d.queues[d.current][0].Item? ==>
      r.doneCount == d.doneCount &&
      forall c: Category :: r.categories[CategoryIndex(c)] ==
        d.categories[CategoryIndex(c)] + (if c == d.queues[d.current][0].category then [d.queues[d.current][0]] else [])
  {
    var q := d.queues[d.current];
    var next := (d.current + 1) % |d.queues|;
    if q == [] then
      d.(current := next)
    else if q[0] == Done then
      d.(queues := d.queues[d.current := q[1..]], current := next, doneCount := d.doneCount + 1)
    else
      var k := CategoryIndex(q[0].category);
      CategoryIndexInjectiveAll(q[0].category);
      d.(queues := d.queues[d.current := q[1..]],
         categories := d.categories[k := d.categories[k] + [q[0]]],
         current := next)
  }

  lemma CategoryIndexInjectiveAll(a: Category)
    ensures forall b: Category :: CategoryIndex(b) == CategoryIndex(a) ==> b == a
  {
    forall b: Category {
      CategoryIndexInjective(a, b);
    }
  }

  // ----- The history of a run: which message was taken from which producer queue -----

  /** A taken message with the index of the producer queue it came from. */
  datatype Entry = Entry(source: int, msg: Msg)

  /** The history after one more turn of the loop body. */
  function Record(d: Dispatch, log: seq<Entry>): seq<Entry>
    requires Ready(d)
  {
    if d.queues[d.current] == [] then log else log + [Entry(d.current, d.queues[d.current][0])]
  }

  /** The messages taken, in the order taken. */
  function Taken(log: seq<Entry>): (r: seq<Msg>)
    ensures |r| == |log|
  {
    if log == [] then [] else Taken(log[..|log| - 1]) + [log[|log| - 1].msg]
  }

  /** The messages taken from producer queue p, in the order taken. */
  function From(log: seq<Entry>, p: int): seq<Msg>
  {
    if log == [] then []
    else From(log[..|log| - 1], p) + (if log[|log| - 1].source == p then [log[|log| - 1].msg] else [])
  }

  /** What the loop keeps: every producer queue is what its producer wrote (orig) minus what was
      taken from its front; every dispatcher queue is what it held at the start (initial) plus
      the items of its category taken, in the order taken; doneCount counts the "DONE"s taken. */
  ghost predicate Inv(orig: seq<seq<Msg>>, initial: seq<seq<Msg>>, d: Dispatch, log: seq<Entry>)
  {
    |d.queues| == |orig| && |d.categories| == 3 && |initial| == 3 &&
    (forall k :: 0 <= k < |log| ==> 0 <= log[k].source < |orig|) &&
    (forall p :: 0 <= p < |orig| ==> orig[p] == From(log, p) + d.queues[p]) &&
    (forall c: Category :: d.categories[CategoryIndex(c)] == initial[CategoryIndex(c)] + ItemsOf(Taken(log), c)) &&
    d.doneCount == Count(Taken(log), true)
  }

  /** The loop starts with nothing taken. */
  lemma InvInit(orig: seq<seq<Msg>>, initial: seq<seq<Msg>>, current: int)
    requires |initial| == 3
    ensures Inv(orig, initial, Dispatch(orig, initial, current, 0), [])
  {
    forall c: Category ensures initial[CategoryIndex(c)] == initial[CategoryIndex(c)] + ItemsOf(Taken([]), c) {
      assert ItemsOf(Taken([]), c) == [];
    }
  }

  lemma TakenSnoc(log: seq<Entry>, e: Entry)
    ensures Taken(log + [e]) == Taken(log) + [e.msg]
  {
    assert (log + [e])[..|log|] == log;
  }

  lemma FromSnoc(log: seq<Entry>, e: Entry, p: int)
    ensures From(log + [e], p) == From(log, p) + (if e.source == p then [e.msg] else [])
  {
    assert (log + [e])[..|log|] == log;
  }

  lemma CountSnoc(s: seq<Msg>, m: Msg, done: bool)
    ensures Count(s + [m], done) == Count(s, done) + (if m.Done? == done then 1 else 0)
  {
    assert (s + [m])[..|s|] == s;
  }

  /** The turn's effect on one producer queue: the taken message moves from the front of the
      queue to the end of what was taken from it. */
  lemma StepKeepsQueue(orig: seq<seq<Msg>>, d: Dispatch, log: seq<Entry>, p: int)
    requires Ready(d) && |orig| == |d.queues| && 0 <= p < |orig|
    requires d.queues[d.current] != []
    requires orig[p] == From(log, p) + d.queues[p]
    ensures orig[p] == From(log + [Entry(d.current, d.queues[d.current][0])], p) + Step(d).queues[p]
  {
    var q := d.queues[d.current];
    FromSnoc(log, Entry(d.current, q[0]), p);
    if p == d.current {
      assert q == [q[0]] + q[1..];
      assert orig[p] == (From(log, p) + [q[0]]) + q[1..];
    }
  }

  /** The turn's effect on one dispatcher queue: it gains the taken message exactly when that
      is an item of its category. */
  lemma StepKeepsCategory(initial: seq<seq<Msg>>, d: Dispatch, log: seq<Entry>, c: Category)
    requires Ready(d) && |initial| == 3
    requires d.queues[d.current] != []
    requires d.categories[CategoryIndex(c)] == initial[CategoryIndex(c)] + ItemsOf(Taken(log), c)
    ensures Step(d).categories[CategoryIndex(c)]
         == initial[CategoryIndex(c)] + ItemsOf(Taken(log + [Entry(d.current, d.queues[d.current][0])]), c)
  {
    var m := d.queues[d.current][0];
    TakenSnoc(log, Entry(d.current, m));
    ItemsOfSnoc(Taken(log), m, c);
    if m == Done {
      assert Step(d).categories == d.categories;
    } else {
      assert Step(d).categories[CategoryIndex(c)]
          == d.categories[CategoryIndex(c)] + (if c == m.category then [m] else []);
    }
  }

  lemma SourcesSnoc(log: seq<Entry>, e: Entry, n: int)
    requires forall k :: 0 <= k < |log| ==> 0 <= log[k].source < n
    requires 0 <= e.source < n
    ensures forall k :: 0 <= k < |log + [e]| ==> 0 <= (log + [e])[k].source < n
  {
    forall k | 0 <= k < |log + [e]| ensures 0 <= (log + [e])[k].source < n {
      if k < |log| { assert (log + [e])[k] == log[k]; }
    }
  }

  /** Each turn of the loop body keeps Inv, with the taken message appended to the history. */
  lemma StepKeepsInv(orig: seq<seq<Msg>>, initial: seq<seq<Msg>>, d: Dispatch, log: seq<Entry>)
    requires Ready(d) && Inv(orig, initial, d, log)
    ensures Inv(orig, initial, Step(d), Record(d, log))
  {
    var q := d.queues[d.current];
    if q != [] {
      var e := Entry(d.current, q[0]);
      var r := Step(d);
      var log' := log + [e];
      assert Record(d, log) == log';
      forall p | 0 <= p < |orig| ensures orig[p] == From(log', p) + r.queues[p] {
        StepKeepsQueue(orig, d, log, p);
      }
      forall c: Category
        ensures r.categories[CategoryIndex(c)] == initial[CategoryIndex(c)] + ItemsOf(Taken(log'), c)
      {
        StepKeepsCategory(initial, d, log, c);
      }
      TakenSnoc(log, e);
      CountSnoc(Taken(log), q[0], true);
      SourcesSnoc(log, e, |orig|);
    }
  }

  // ----- Counting "DONE"s and items per producer -----

  /** Sum over producers 0 .. n - 1 of the "DONE"s (done) or items (not done) taken from each. */
  function SumFrom(log: seq<Entry>, n: int, done: bool): nat
  {
    if n <= 0 then 0 else SumFrom(log, n - 1, done) + Count(From(log, n - 1), done)
  }

  /** One more taken message adds one to the sum when it came from one of the n producers
      and is of the kind counted. */
  lemma {:induction false} SumFromSnoc(log: seq<Entry>, e: Entry, n: int, done: bool)
    requires 0 <= e.source
    ensures SumFrom(log + [e], n, done) == SumFrom(log, n, done) + Hit(e, n, done)
  {
    if n > 0 {
      SumFromSnoc(log, e, n - 1, done);
      SumFromStep(log, e, n, done);
    }
  }

  lemma SumFromStep(log: seq<Entry>, e: Entry, n: int, done: bool)
    requires n > 0
    requires SumFrom(log + [e], n - 1, done) == SumFrom(log, n - 1, done) + Hit(e, n - 1, done)
    ensures SumFrom(log + [e], n, done) == SumFrom(log, n, done) + Hit(e, n, done)
  {
    CountFromSnoc(log, e, n - 1, done);
  }

  lemma CountFromSnoc(log: seq<Entry>, e: Entry, p: int, done: bool)
    ensures Count(From(log + [e], p), done)
         == Count(From(log, p), done) + (if e.source == p && e.msg.Done? == done then 1 else 0)
  {
    FromSnoc(log, e, p);
    if e.source == p {
      CountSnoc(From(log, p), e.msg, done);
    } else {
      assert From(log + [e], p) == From(log, p);
    }
  }

  /** 1 if e came from one of the producers 0 .. n - 1 and is a "DONE" (done) or an item (not done). */
  function Hit(e: Entry, n: int, done: bool): nat
  {
    if e.source < n && e.msg.Done? == done then 1 else 0
  }

  /** Splitting the history by source: every taken message came from one of the n producers. */
  lemma {:induction false} CountBySource(log: seq<Entry>, n: int, done: bool)
    requires forall k :: 0 <= k < |log| ==> 0 <= log[k].source < n
    ensures Count(Taken(log), done) == SumFrom(log, n, done)
  {
    if log == [] {
      SumFromEmpty(n, done);
    } else {
      var log' := log[..|log| - 1];
      var e := log[|log| - 1];
      assert log == log' + [e];
      CountBySource(log', n, done);
      TakenSnoc(log', e);
      CountSnoc(Taken(log'), e.msg, done);
      SumFromSnoc(log', e, n, done);
    }
  }

  lemma {:induction false} SumFromEmpty(n: int, done: bool)
    ensures SumFrom([], n, done) == 0
  {
    if n > 0 {
      SumFromEmpty(n - 1, done);
    }
  }

  /** Number of empty queues. */
  function EmptyQueues(queues: seq<seq<Msg>>): (r: nat)
    ensures r <= |queues|
  {
    if queues == [] then 0
    else EmptyQueues(queues[..|queues| - 1]) + (if queues[|queues| - 1] == [] then 1 else 0)
  }

  /** With every producer stream finished (items then one "DONE"), the first n producers have
      given up one "DONE" each exactly when their queues are empty. */
  lemma {:induction false} DonesAreEmptyQueues(orig: seq<seq<Msg>>, initial: seq<seq<Msg>>, d: Dispatch, log: seq<Entry>, n: nat)
    requires Inv(orig, initial, d, log) && n <= |orig|
    requires forall p :: 0 <= p < |orig| ==> IsStream(orig[p])
    ensures SumFrom(log, n, true) == EmptyQueues(d.queues[..n])
  {
    if n > 0 {
      DonesAreEmptyQueues(orig, initial, d, log, n - 1);
      var p := n - 1;
      assert d.queues[..n][..n - 1] == d.queues[..n - 1];
      assert orig[p][..|From(log, p)|] == From(log, p);
      StreamPrefixDones(orig[p], |From(log, p)|);
    }
  }

  lemma {:induction false} AllEmpty(queues: seq<seq<Msg>>)
    requires EmptyQueues(queues) == |queues|
    ensures forall p :: 0 <= p < |queues| ==> queues[p] == []
  {
    if queues != [] {
      var front := queues[..|queues| - 1];
      AllEmpty(front);
      forall p | 0 <= p < |queues| ensures queues[p] == [] {
        if p < |front| { assert queues[p] == front[p]; }
      }
    }
  }

  lemma {:induction false} SomeNonEmpty(queues: seq<seq<Msg>>)
    requires EmptyQueues(queues) < |queues|
    ensures exists p :: 0 <= p < |queues| && queues[p] != []
  {
    var front := queues[..|queues| - 1];
    if queues[|queues| - 1] == [] {
      SomeNonEmpty(front);
      var p :| 0 <= p < |front| && front[p] != [];
      assert queues[p] == front[p];
    }
  }

  /** The dispatcher's counter equals the number of drained producer queues. So it never exceeds
      the number of producers; it reaches it exactly when every producer queue is empty, and
      while it is below, some producer queue still holds a message. */
  lemma DoneCountTracksDrained(orig: seq<seq<Msg>>, initial: seq<seq<Msg>>, d: Dispatch, log: seq<Entry>)
    requires Inv(orig, initial, d, log)
    requires forall p :: 0 <= p < |orig| ==> IsStream(orig[p])
    ensures d.doneCount == EmptyQueues(d.queues) <= |orig|
    ensures d.doneCount == |orig| <==> forall p :: 0 <= p < |orig| ==> d.queues[p] == []
    ensures d.doneCount < |orig| ==> exists p :: 0 <= p < |orig| && d.queues[p] != []
  {
    CountBySource(log, |orig|, true);
    DonesAreEmptyQueues(orig, initial, d, log, |orig|);
    assert d.queues[..|orig|] == d.queues;
    if d.doneCount == |orig| {
      AllEmpty(d.queues);
    } else {
      SomeNonEmpty(d.queues);
    }
  }

  /** When the loop ends, everything every producer wrote has been taken, in order. */
  lemma DrainedAtEnd(orig: seq<seq<Msg>>, initial: seq<seq<Msg>>, d: Dispatch, log: seq<Entry>)
    requires Inv(orig, initial, d, log)
    requires forall p :: 0 <= p < |orig| ==> IsStream(orig[p])
    requires d.doneCount >= |orig|
    ensures d.doneCount == |orig|
    ensures forall p :: 0 <= p < |orig| ==> d.queues[p] == [] && From(log, p) == orig[p]
  {
    DoneCountTracksDrained(orig, initial, d, log);
    forall p | 0 <= p < |orig| ensures From(log, p) == orig[p] {
      assert orig[p] == From(log, p) + [];
    }
  }

  // ----- Progress: the loop terminates -----

  /** Messages waiting in all producer queues together. */
  function Total(queues: seq<seq<Msg>>): nat
  {
    if queues == [] then 0 else Total(queues[..|queues| - 1]) + |queues[|queues| - 1]|
  }

  lemma {:induction false} TotalUpdate(queues: seq<seq<Msg>>, p: int, s: seq<Msg>)
    requires 0 <= p < |queues|
    ensures Total(queues[p := s]) == Total(queues) - |queues[p]| + |s|
  {
    var n := |queues|;
    var front := queues[..n - 1];
    if p < n - 1 {
      TotalUpdate(front, p, s);
      assert queues[p := s][..n - 1] == front[p := s];
    } else {
      assert queues[p := s][..n - 1] == front;
    }
  }

  /** Some producer queue at or after index c holds a message. */
  predicate PendingFrom(queues: seq<seq<Msg>>, c: int)
  {
    exists j :: 0 <= c <= j < |queues| && queues[j] != []
  }

  /** Distance of the cursor to a producer queue it will find non-empty: small while some queue
      at or after the cursor holds a message, larger once only queues before it do. */
  function Rank(d: Dispatch): int
  {
    RankOf(d.queues, d.current)
  }

  function RankOf(queues: seq<seq<Msg>>, current: int): int
  {
    (if PendingFrom(queues, current) then 0 else |queues|) + |queues| - current
  }

  /** Moving the cursor past an empty queue brings it closer to a message: to the next
      index, or from the last producer back to the first. */
  lemma {:induction false} IdleStepProgress(queues: seq<seq<Msg>>, current: int, next: int)
    requires 0 <= current < |queues| && queues[current] == []
    requires next == if current + 1 < |queues| then current + 1 else 0
    requires exists p :: 0 <= p < |queues| && queues[p] != []
    ensures 0 <= RankOf(queues, next) < RankOf(queues, current)
  {
    var n := |queues|;
    if current + 1 < n {
      if PendingFrom(queues, next) {
        var j :| 0 <= next <= j < n && queues[j] != [];
        assert 0 <= current <= j < n;
        assert PendingFrom(queues, current);
      } else {
        forall j | 0 <= current <= j < n ensures queues[j] == [] {
          if j != current {
            assert 0 <= next <= j < n;
          }
        }
        assert !PendingFrom(queues, current);
      }
    } else {
      var p :| 0 <= p < n && queues[p] != [];
      assert 0 <= next <= p < n;
      assert PendingFrom(queues, next);
      assert !PendingFrom(queues, current);
    }
  }

  /** While some producer queue holds a message, each turn either takes one (fewer waiting) or
      moves the cursor closer to a non-empty queue. */
  lemma StepProgress(d: Dispatch)
    requires Ready(d)
    requires exists p :: 0 <= p < |d.queues| && d.queues[p] != []
    ensures Total(Step(d).queues) < Total(d.queues)
         || (Total(Step(d).queues) == Total(d.queues) && 0 <= Rank(Step(d)) < Rank(d))
  {
    var q := d.queues[d.current];
    if q != [] {
      assert Step(d).queues == d.queues[d.current := q[1..]];
      TotalUpdate(d.queues, d.current, q[1..]);
    } else {
      var next := if d.current + 1 < |d.queues| then d.current + 1 else 0;
      assert Step(d) == d.(current := next);
      IdleStepProgress(d.queues, d.current, next);
    }
  }

  // ----- Order: each producer's items keep their order within a category -----

  /** The real items in s from the producer with this id, in their order in s. */
  function ByProducer(s: seq<Msg>, id: int): seq<Msg>
  {
    if s == [] then []
    else
      var m := s[|s| - 1];
      ByProducer(s[..|s| - 1], id) + (if m.Item? && m.producer == id then [m] else [])
  }

  lemma ByProducerSnoc(s: seq<Msg>, m: Msg, id: int)
    ensures ByProducer(s + [m], id) == ByProducer(s, id) + (if m.Item? && m.producer == id then [m] else [])
  {
    assert (s + [m])[..|s|] == s;
  }

  /** Every real item in s carries this producer id. */
  predicate Tagged(s: seq<Msg>, id: int)
  {
    forall k :: 0 <= k < |s| && s[k].Item? ==> s[k].producer == id
  }

  lemma TaggedDropLast(s: seq<Msg>, m: Msg, id: int)
    requires Tagged(s + [m], id)
    ensures Tagged(s, id) && (m.Item? ==> m.producer == id)
  {
    assert (s + [m])[|s|] == m;
    forall k | 0 <= k < |s| && s[k].Item? ensures s[k].producer == id {
      assert (s + [m])[k] == s[k];
    }
  }

  /** Dropping the last taken message keeps every producer's part tagged, and that message
      carries the id of the producer it came from. */
  lemma TaggedLogDropLast(log: seq<Entry>, e: Entry, ids: seq<int>)
    requires 0 <= e.source < |ids|
    requires forall q :: 0 <= q < |ids| ==> Tagged(From(log + [e], q), ids[q])
    ensures forall q :: 0 <= q < |ids| ==> Tagged(From(log, q), ids[q])
    ensures e.msg.Item? ==> e.msg.producer == ids[e.source]
  {
    forall q | 0 <= q < |ids| ensures Tagged(From(log, q), ids[q]) {
      FromSnoc(log, e, q);
      if q == e.source {
        TaggedDropLast(From(log, q), e.msg, ids[q]);
      } else {
        assert From(log + [e], q) == From(log, q);
      }
    }
    FromSnoc(log, e, e.source);
    TaggedDropLast(From(log, e.source), e.msg, ids[e.source]);
  }

  /** With distinct ids, a taken item is in p's part exactly when it carries p's id. */
  lemma EntryOrder(e: Entry, ids: seq<int>, p: int, c: Category)
    requires forall a, b :: 0 <= a < b < |ids| ==> ids[a] != ids[b]
    requires 0 <= e.source < |ids| && 0 <= p < |ids|
    requires e.msg.Item? ==> e.msg.producer == ids[e.source]
    ensures (e.msg.Item? && e.msg.category == c && e.msg.producer == ids[p])
        <==> (e.source == p && e.msg.Item? && e.msg.category == c)
  {
    if e.source < p {
      assert ids[e.source] != ids[p];
    } else if p < e.source {
      assert ids[p] != ids[e.source];
    }
  }

  /** When producers have distinct ids and each tags its items with its own id, the items of
      category c from producer p appear in the dispatcher's output in the order p wrote them. */
  lemma {:induction false} ProducerOrderKept(log: seq<Entry>, ids: seq<int>, p: int, c: Category)
    requires forall k :: 0 <= k < |log| ==> 0 <= log[k].source < |ids|
    requires forall a, b :: 0 <= a < b < |ids| ==> ids[a] != ids[b]
    requires forall q :: 0 <= q < |ids| ==> Tagged(From(log, q), ids[q])
    requires 0 <= p < |ids|
    ensures ByProducer(ItemsOf(Taken(log), c), ids[p]) == ItemsOf(From(log, p), c)
  {
    if log != [] {
      var log' := log[..|log| - 1];
      var e := log[|log| - 1];
      var m := e.msg;
      assert log == log' + [e];
      TaggedLogDropLast(log', e, ids);
      ProducerOrderKept(log', ids, p, c);
      EntryOrder(e, ids, p, c);
      var before := ItemsOf(Taken(log'), c);
      TakenSnoc(log', e);
      ItemsOfSnoc(Taken(log'), m, c);
      FromSnoc(log', e, p);
      if m.Item? && m.category == c {
        ByProducerSnoc(before, m, ids[p]);
        assert ItemsOf(Taken(log), c) == before + [m];
        if e.source == p {
          ItemsOfSnoc(From(log', p), m, c);
          assert From(log, p) == From(log', p) + [m];
          assert ByProducer(before + [m], ids[p]) == ByProducer(before, ids[p]) + [m];
        } else {
          assert From(log, p) == From(log', p);
          assert ByProducer(before + [m], ids[p]) == ByProducer(before, ids[p]);
        }
      } else {
        assert ItemsOf(Taken(log), c) == before;
        if e.source == p {
          ItemsOfSnoc(From(log', p), m, c);
          assert From(log, p) == From(log', p) + [m];
        } else {
          assert From(log, p) == From(log', p);
        }
        assert ItemsOf(From(log, p), c) == ItemsOf(From(log', p), c);
      }
    }
  }

  /** A prefix of a tagged stream is tagged: what the dispatcher has taken from producer p so far
      carries p's id. */
  lemma TakenIsTagged(orig: seq<seq<Msg>>, initial: seq<seq<Msg>>, d: Dispatch, log: seq<Entry>, ids: seq<int>)
    requires Inv(orig, initial, d, log) && |ids| == |orig|
    requires forall p :: 0 <= p < |orig| ==> Tagged(orig[p], ids[p])
    ensures forall p :: 0 <= p < |orig| ==> Tagged(From(log, p), ids[p])
  {
    forall p, k | 0 <= p < |orig| && 0 <= k < |From(log, p)| && From(log, p)[k].Item?
      ensures From(log, p)[k].producer == ids[p]
    {
      assert From(log, p)[k] == orig[p][k];
    }
  }

  /** Items routed: the three dispatcher queues gained exactly the items taken, and each
      producer contributed all of its items. */
  lemma ItemsConserved(orig: seq<seq<Msg>>, initial: seq<seq<Msg>>, d: Dispatch, log: seq<Entry>)
    requires Inv(orig, initial, d, log)
    ensures |d.categories[0]| + |d.categories[1]| + |d.categories[2]|
         == |initial[0]| + |initial[1]| + |initial[2]| + SumFrom(log, |orig|, false)
  {
    ItemsOfPartition(Taken(log));
    CountBySource(log, |orig|, false);
    assert d.categories[CategoryIndex(Sports)] == initial[0] + ItemsOf(Taken(log), Sports);
    assert d.categories[CategoryIndex(News)] == initial[1] + ItemsOf(Taken(log), News);
    assert d.categories[CategoryIndex(Weather)] == initial[2] + ItemsOf(Taken(log), Weather);
  }
}

/** The stages together, in the sequential schedule of this model: every producer has written
    its whole stream, then the dispatcher runs to the end, then the SPORTS, NEWS and WEATHER
    co-editors run one after the other, then the screen manager. */
module Pipeline {
  import opened Messages
  import opened BoundedBuffers
  import opened UnboundedBuffers
  import opened Producer
  import opened DispatcherSpec
  import opened Dispatcher
  import opened CoEditor
  import opened ScreenManager

  /** Dispatcher queue c when the dispatcher is done: the items of category c it took, in the
      order it took them, then the one "DONE" of the fan-out. */
  function RoutedStream(taken: seq<Msg>, c: Category): (r: seq<Msg>)
    ensures IsStream(r)
  {
    ItemsOfAreItems(taken, c);
    ItemsOf(taken, c) + [Done]
  }

  /** The queue the co-editors share, after each has forwarded its dispatcher queue. */
  function Shared(taken: seq<Msg>): seq<Msg>
  {
    Edited(RoutedStream(taken, Sports)) + Edited(RoutedStream(taken, News))
      + Edited(RoutedStream(taken, Weather))
  }

  /** Each co-editor forwards its whole dispatcher queue. */
  lemma EditedRouted(taken: seq<Msg>, c: Category)
    ensures Edited(RoutedStream(taken, c)) == RoutedStream(taken, c)
  {
    ItemsOfAreItems(taken, c);
    EditedStream(ItemsOf(taken, c), []);
    assert ItemsOf(taken, c) + [Done] + [] == RoutedStream(taken, c);
  }

  /** The screen manager takes the three co-editors' streams and stops after the last "DONE",
      leaving whatever might follow; it shows every item the dispatcher took, SPORTS first, then
      NEWS, then WEATHER, each category in the dispatcher's order, and nothing else. */
  lemma ScreenShowsEveryItem(taken: seq<Msg>, rest: seq<Msg>)
    ensures Drained(Shared(taken) + rest, CoEditors) == Shared(taken)
    ensures Shown(Shared(taken)) == ItemsOf(taken, Sports) + ItemsOf(taken, News) + ItemsOf(taken, Weather)
    ensures |Shown(Shared(taken))| == Count(taken, false)
  {
    EditedRouted(taken, Sports);
    EditedRouted(taken, News);
    EditedRouted(taken, Weather);
    var s1, s2, s3 := RoutedStream(taken, Sports), RoutedStream(taken, News), RoutedStream(taken, Weather);
    assert Shared(taken) == s1 + s2 + s3;
    DrainedOfStreams(s1, s2, s3, rest);
    ShownOfStreams(s1, s2, s3);
    assert s1[..|s1| - 1] == ItemsOf(taken, Sports);
    assert s2[..|s2| - 1] == ItemsOf(taken, News);
    assert s3[..|s3| - 1] == ItemsOf(taken, Weather);
    ItemsOfPartition(taken);
  }

  /** The items the producers 0 .. n - 1 write together: numProducts each. */
  function TotalProducts(nums: seq<int>, n: int): (r: nat)
    requires n <= |nums|
  {
    if n <= 0 then 0 else TotalProducts(nums, n - 1) + (if nums[n - 1] <= 0 then 0 else nums[n - 1])
  }

  /** When nums[p] items (none if nums[p] <= 0) were taken from each producer p, the items taken from producers
      0 .. n - 1 are their numProducts added up. */
  lemma {:induction false} TakenProducts(log: seq<Entry>, nums: seq<int>, n: int)
    requires n <= |nums|
    requires forall p :: 0 <= p < |nums| ==> Count(From(log, p), false) == if nums[p] <= 0 then 0 else nums[p]
    ensures SumFrom(log, n, false) == TotalProducts(nums, n)
  {
    if n > 0 {
      TakenProducts(log, nums, n - 1);
    }
  }

  /** When the dispatcher has taken every producer's whole stream, it has taken as many items
      as the producers wrote together. */
  lemma TakenCount(log: seq<Entry>, ids: seq<int>, nums: seq<int>)
    requires |ids| == |nums|
    requires forall k :: 0 <= k < |log| ==> 0 <= log[k].source < |ids|
    requires forall p :: 0 <= p < |ids| ==> From(log, p) == ProducerStream(ids[p], nums[p])
    ensures Count(Taken(log), false) == TotalProducts(nums, |nums|)
  {
    CountBySource(log, |ids|, false);
    forall p | 0 <= p < |nums|
      ensures Count(From(log, p), false) == if nums[p] <= 0 then 0 else nums[p]
    {
      assert From(log, p) == ProducerStream(ids[p], nums[p]);
    }
    TakenProducts(log, nums, |nums|);
  }

  /** End to end: when the dispatcher has taken every producer's whole stream, the screen shows
      exactly as many items as the producers wrote. */
  lemma EveryProductShown(log: seq<Entry>, ids: seq<int>, nums: seq<int>)
    requires |ids| == |nums|
    requires forall k :: 0 <= k < |log| ==> 0 <= log[k].source < |ids|
    requires forall p :: 0 <= p < |ids| ==> From(log, p) == ProducerStream(ids[p], nums[p])
    ensures |Shown(Shared(Taken(log)))| == TotalProducts(nums, |nums|)
  {
    ScreenShowsEveryItem(Taken(log), []);
    TakenCount(log, ids, nums);
  }

  /** The shared queue holds one "DONE" per co-editor. */
  lemma SharedDones(taken: seq<Msg>)
    ensures Count(Shared(taken), true) == CoEditors
  {
    EditedRouted(taken, Sports);
    EditedRouted(taken, News);
    EditedRouted(taken, Weather);
    var s1, s2, s3 := RoutedStream(taken, Sports), RoutedStream(taken, News), RoutedStream(taken, Weather);
    StreamCounts(s1);
    StreamCounts(s2);
    StreamCounts(s3);
    CountAppend(s1, s2, true);
    CountAppend(s1 + s2, s3, true);
  }

  /** Every item a producer writes carries that producer's id. */
  lemma ProducerStreamTagged(id: int, numProducts: int)
    ensures Tagged(ProducerStream(id, numProducts), id)
  {
    forall k | 0 <= k < |ProducerStream(id, numProducts)|
      ensures ProducerStream(id, numProducts)[k].Item? ==> ProducerStream(id, numProducts)[k].producer == id
    {
      StreamAt(id, numProducts, k);
    }
  }

  /** Lines 295-299 of main: every configured id is decremented by one. */
  method DecrementIds(ids: seq<int>) returns (producerIds: seq<int>)
    ensures |producerIds| == |ids|
    ensures forall p :: 0 <= p < |ids| ==> producerIds[p] == ids[p] - 1
  {
    producerIds := ids;
    for i := 0 to |ids|
      invariant |producerIds| == |ids|
      invariant forall p :: 0 <= p < |ids| ==> producerIds[p] == if p < i then ids[p] - 1 else ids[p]
    {
      producerIds := producerIds[i := producerIds[i] - 1];
    }
  }

  /** The producer queues of main, each of its queueSize, and each producer run to the end on
      its own queue. */
  method ProducerStage(producerIds: seq<int>, nums: seq<int>, queueSizes: seq<int>)
    returns (producerQueues: seq<BoundedBuffer>)
    requires |producerIds| == |nums| == |queueSizes|
    requires forall p :: 0 <= p < |nums| ==> (if nums[p] <= 0 then 0 else nums[p]) < queueSizes[p]
    ensures |producerQueues| == |producerIds| && ProducersValid(producerQueues)
    ensures forall p :: 0 <= p < |producerQueues| ==> fresh(producerQueues[p])
    ensures Written(producerQueues, producerIds, nums)
  {
    producerQueues := [];
    for i := 0 to |producerIds|
      invariant |producerQueues| == i
      invariant ProducersValid(producerQueues) && Written(producerQueues, producerIds, nums)
      invariant forall p :: 0 <= p < i ==> fresh(producerQueues[p])
    {
      var queue := StartProducer(producerIds[i], nums[i], queueSizes[i]);
      ProducersValidSnoc(producerQueues, queue, producerIds, nums);
      producerQueues := producerQueues + [queue];
    }
  }

  /** Each of the first |queues| producer queues holds its producer's whole stream. */
  ghost predicate Written(queues: seq<BoundedBuffer>, producerIds: seq<int>, nums: seq<int>)
    reads queues
  {
    |queues| <= |producerIds| && |queues| <= |nums| &&
    forall p :: 0 <= p < |queues| ==> queues[p].Contents == ProducerStream(producerIds[p], nums[p])
  }

  lemma ProducersValidSnoc(queues: seq<BoundedBuffer>, queue: BoundedBuffer, producerIds: seq<int>, nums: seq<int>)
    requires ProducersValid(queues) && queue.Valid() && queue !in queues
    requires Written(queues, producerIds, nums) && |queues| < |producerIds| && |queues| < |nums|
    requires queue.Contents == ProducerStream(producerIds[|queues|], nums[|queues|])
    ensures ProducersValid(queues + [queue]) && Written(queues + [queue], producerIds, nums)
  {
  }

  /** One producer of main: its queue of queueSize slots, with its whole stream written. */
  method StartProducer(id: int, numProducts: int, queueSize: int) returns (queue: BoundedBuffer)
    requires (if numProducts <= 0 then 0 else numProducts) < queueSize
    ensures fresh(queue) && queue.Valid()
    ensures queue.Contents == ProducerStream(id, numProducts)
  {
    queue := new BoundedBuffer(queueSize);
    RunProducer(id, numProducts, queue);
  }

  /** The three dispatcher queues of main, and the dispatcher run to the end over the producer
      queues: each dispatcher queue holds the routed stream of its category. */
  method DispatcherStage(producerQueues: seq<BoundedBuffer>)
    returns (sports: UnboundedBuffer, news: UnboundedBuffer, weather: UnboundedBuffer, ghost log: seq<Entry>)
    requires ProducersValid(producerQueues)
    requires forall p :: 0 <= p < |producerQueues| ==> IsStream(producerQueues[p].Contents)
    modifies producerQueues
    ensures fresh(sports) && fresh(news) && fresh(weather)
    ensures sports != news && sports != weather && news != weather
    ensures sports.Valid() && news.Valid() && weather.Valid()
    ensures sports.Contents == RoutedStream(Taken(log), Sports)
    ensures news.Contents == RoutedStream(Taken(log), News)
    ensures weather.Contents == RoutedStream(Taken(log), Weather)
    ensures forall k :: 0 <= k < |log| ==> 0 <= log[k].source < |producerQueues|
    ensures forall p :: 0 <= p < |producerQueues| ==> From(log, p) == old(producerQueues[p].Contents)
  {
    sports := new UnboundedBuffer();
    news := new UnboundedBuffer();
    weather := new UnboundedBuffer();
    ghost var waiting := Waiting(producerQueues);
    var dqs := [sports, news, weather];
    log := RunDispatcher(producerQueues, dqs);
    assert forall p :: 0 <= p < |producerQueues| ==> From(log, p) == waiting[p];
    ghost var routed := Routed(dqs);
    RoutedStreams(routed, Taken(log));
  }

  lemma RoutedStreams(routed: seq<seq<Msg>>, taken: seq<Msg>)
    requires |routed| == 3
    requires forall c: Category :: routed[CategoryIndex(c)] == [] + ItemsOf(taken, c) + [Done]
    ensures routed[0] == RoutedStream(taken, Sports)
    ensures routed[1] == RoutedStream(taken, News)
    ensures routed[2] == RoutedStream(taken, Weather)
  {
    assert routed[CategoryIndex(Sports)] == [] + ItemsOf(taken, Sports) + [Done];
    assert routed[CategoryIndex(News)] == [] + ItemsOf(taken, News) + [Done];
    assert routed[CategoryIndex(Weather)] == [] + ItemsOf(taken, Weather) + [Done];
  }

  /** The co-editor queue of main, of its configured size, and the SPORTS, NEWS and WEATHER
      co-editors run one after the other on it: it holds what each forwarded, in turn. */
  method CoEditorStage(sports: UnboundedBuffer, news: UnboundedBuffer, weather: UnboundedBuffer, coEditorQueueSize: int)
    returns (coEditorQueue: BoundedBuffer)
    requires sports.Valid() && news.Valid() && weather.Valid()
    requires sports != news && sports != weather && news != weather
    requires Done in sports.Contents && Done in news.Contents && Done in weather.Contents
    requires |Edited(sports.Contents)| + |Edited(news.Contents)| + |Edited(weather.Contents)| <= coEditorQueueSize
    modifies sports, news, weather
    ensures fresh(coEditorQueue) && coEditorQueue.Valid()
    ensures coEditorQueue.Contents
         == Edited(old(sports.Contents)) + Edited(old(news.Contents)) + Edited(old(weather.Contents))
  {
    ghost var e1, e2, e3 := Edited(sports.Contents), Edited(news.Contents), Edited(weather.Contents);
    coEditorQueue := new BoundedBuffer(coEditorQueueSize);
    RunCoEditor(sports, coEditorQueue);
    assert coEditorQueue.Contents == e1;
    RunCoEditor(news, coEditorQueue);
    assert coEditorQueue.Contents == e1 + e2;
    RunCoEditor(weather, coEditorQueue);
  }

  /** The co-editors, then the screen manager: the screen shows the items of the three
      categories in turn, then "DONE". */
  method ConsumerStage(sports: UnboundedBuffer, news: UnboundedBuffer, weather: UnboundedBuffer,
                       coEditorQueueSize: int, ghost taken: seq<Msg>)
    returns (output: seq<string>)
    requires sports.Valid() && news.Valid() && weather.Valid()
    requires sports != news && sports != weather && news != weather
    requires sports.Contents == RoutedStream(taken, Sports)
    requires news.Contents == RoutedStream(taken, News)
    requires weather.Contents == RoutedStream(taken, Weather)
    requires Count(taken, false) + CoEditors <= coEditorQueueSize
    modifies sports, news, weather
    ensures output == Lines(ItemsOf(taken, Sports) + ItemsOf(taken, News) + ItemsOf(taken, Weather)) + ["DONE"]
  {
    ConsumerFacts(taken);
    var coEditorQueue := CoEditorStage(sports, news, weather, coEditorQueueSize);
    output := RunScreenManager(coEditorQueue);
  }

  /** What ConsumerStage needs about the three routed streams: each holds its "DONE", they fit
      in a co-editor queue of Count(taken, false) + 3 slots, the co-editors forward them as the
      shared queue, which holds three "DONE"s and is drained to the screen whole. */
  lemma ConsumerFacts(taken: seq<Msg>)
    ensures Done in RoutedStream(taken, Sports) && Done in RoutedStream(taken, News) && Done in RoutedStream(taken, Weather)
    ensures |Edited(RoutedStream(taken, Sports))| + |Edited(RoutedStream(taken, News))| + |Edited(RoutedStream(taken, Weather))|
         == Count(taken, false) + CoEditors
    ensures Count(Shared(taken), true) >= CoEditors
    ensures Lines(Shown(Drained(Shared(taken), CoEditors)))
         == Lines(ItemsOf(taken, Sports) + ItemsOf(taken, News) + ItemsOf(taken, Weather))
  {
    ItemsOfPartition(taken);
    EditedRouted(taken, Sports);
    EditedRouted(taken, News);
    EditedRouted(taken, Weather);
    SharedDones(taken);
    ScreenShowsEveryItem(taken, []);
    assert Shared(taken) + [] == Shared(taken);
    assert RoutedStream(taken, Sports)[|RoutedStream(taken, Sports)| - 1] == Done;
    assert RoutedStream(taken, News)[|RoutedStream(taken, News)| - 1] == Done;
    assert RoutedStream(taken, Weather)[|RoutedStream(taken, Weather)| - 1] == Done;
  }

  /** With distinct ids, what the dispatcher took keeps each producer's items of a category in
      the order that producer wrote them. */
  lemma PipelineOrder(log: seq<Entry>, producerIds: seq<int>, nums: seq<int>, p: int, c: Category)
    requires |producerIds| == |nums|
    requires forall k :: 0 <= k < |log| ==> 0 <= log[k].source < |producerIds|
    requires forall q :: 0 <= q < |producerIds| ==> From(log, q) == ProducerStream(producerIds[q], nums[q])
    requires forall a, b :: 0 <= a < b < |producerIds| ==> producerIds[a] != producerIds[b]
    requires 0 <= p < |producerIds|
    ensures ByProducer(ItemsOf(Taken(log), c), producerIds[p]) == ItemsOf(ProducerStream(producerIds[p], nums[p]), c)
  {
    forall q | 0 <= q < |producerIds| ensures Tagged(From(log, q), producerIds[q]) {
      ProducerStreamTagged(producerIds[q], nums[q]);
    }
    ProducerOrderKept(log, producerIds, p, c);
  }

  /** PipelineOrder for every producer and category, stated with the configured ids. */
  lemma OrderFromConfig(log: seq<Entry>, ids: seq<int>, producerIds: seq<int>, nums: seq<int>)
    requires |ids| == |producerIds| == |nums|
    requires forall p :: 0 <= p < |ids| ==> producerIds[p] == ids[p] - 1
    requires forall k :: 0 <= k < |log| ==> 0 <= log[k].source < |producerIds|
    requires forall q :: 0 <= q < |producerIds| ==> From(log, q) == ProducerStream(producerIds[q], nums[q])
    ensures (forall a, b :: 0 <= a < b < |ids| ==> ids[a] != ids[b]) ==>
      forall p, c: Category :: 0 <= p < |ids| ==>
        ByProducer(ItemsOf(Taken(log), c), ids[p] - 1) == ItemsOf(ProducerStream(ids[p] - 1, nums[p]), c)
  {
    if forall a, b :: 0 <= a < b < |ids| ==> ids[a] != ids[b] {
      forall p, c: Category | 0 <= p < |ids|
        ensures ByProducer(ItemsOf(Taken(log), c), ids[p] - 1) == ItemsOf(ProducerStream(ids[p] - 1, nums[p]), c)
      {
        PipelineOrder(log, producerIds, nums, p, c);
      }
    }
  }

  /** main, from the configuration on: the ids are decremented, each producer gets a bounded
      queue of its queueSize and writes its stream into it, the three dispatcher queues and
      the co-editor queue are created, and the stages run one after the other. The screen
      shows every item the dispatcher took, SPORTS, then NEWS, then WEATHER, then "DONE": as
      many item lines as numProducts add up to, and each producer's items of a category in
      the order it wrote them whenever the ids are distinct. Every queue must be large enough
      for the stream it receives, because no stage waits for another. */
  method RunPipeline(ids: seq<int>, nums: seq<int>, queueSizes: seq<int>, coEditorQueueSize: int)
    returns (output: seq<string>, ghost taken: seq<Msg>, ghost log: seq<Entry>)
    requires |ids| == |nums| == |queueSizes|
    requires forall p :: 0 <= p < |nums| ==> (if nums[p] <= 0 then 0 else nums[p]) < queueSizes[p]
    requires TotalProducts(nums, |nums|) + CoEditors <= coEditorQueueSize
    ensures taken == Taken(log)
    ensures forall k :: 0 <= k < |log| ==> 0 <= log[k].source < |ids|
    ensures forall p :: 0 <= p < |ids| ==> From(log, p) == ProducerStream(ids[p] - 1, nums[p])
    ensures output == Lines(ItemsOf(taken, Sports) + ItemsOf(taken, News) + ItemsOf(taken, Weather)) + ["DONE"]
    ensures |output| == TotalProducts(nums, |nums|) + 1
    ensures (forall a, b :: 0 <= a < b < |ids| ==> ids[a] != ids[b]) ==>
      forall p, c: Category :: 0 <= p < |ids| ==>
        ByProducer(ItemsOf(taken, c), ids[p] - 1) == ItemsOf(ProducerStream(ids[p] - 1, nums[p]), c)
  {
    var producerIds := DecrementIds(ids);
    var producerQueues := ProducerStage(producerIds, nums, queueSizes);
    var sports, news, weather;
    sports, news, weather, log := DispatcherStage(producerQueues);
    taken := Taken(log);
    TakenCount(log, producerIds, nums);
    output := ConsumerStage(sports, news, weather, coEditorQueueSize, taken);
    ItemsOfPartition(taken);
    OrderFromConfig(log, ids, producerIds, nums);
  }
}

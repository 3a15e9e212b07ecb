# News broadcasting pipeline, modelled in Dafny

`news_broadcasting.c` simulates a news broadcast with threads that talk through queues.

- **Producers.** Each producer writes `numProducts` news items into its own bounded queue, then a `"DONE"`. Item `i` reads `"Producer <id> <CATEGORY> <i / 3>"`. Its category is SPORTS, NEWS or WEATHER for `i % 3` equal to 0, 1 or 2.
- **Dispatcher.** It visits the producer queues round robin and takes at most one message from each per visit. It counts `"DONE"`s and routes each item to one of three unbounded queues, chosen by `strstr` on the category word. It stops once every producer has sent its `"DONE"`, then puts one `"DONE"` into each of the three queues.
- **Co-editors.** There are three, one per category. Each forwards its queue, unchanged and in order, to a bounded queue shared with the screen manager. It forwards the first `"DONE"` too, then stops.
- **Screen manager.** It prints every message it removes that is not `"DONE"`. After the third `"DONE"` it prints `"DONE"`.

The model has one module per part of the program:

- `Messages` — the values that travel: an item `Item(producer, category, sequence)` or `Done`. It also defines counting and per-category selection on sequences of messages.
- `Text` — how a message is written out: `%d`, the category words and the `"Producer …"` line. It proves that `strcmp(message, "DONE")` and the `strstr` routing chain, applied to such a line, decide exactly what the tags say. That is why the other modules can work on tags.
- `BoundedBuffers` — class `BoundedBuffer`, the ring buffer over an `array`, with `count`, `out` and `in` (`inn` here). Its invariant ties the slots to an abstract FIFO content.
- `UnboundedBuffers` — class `UnboundedBuffer`, whose storage is re-allocated to `in + 1` slots on each insert.
- `Producer` — the producer loop as a method on a `BoundedBuffer`, plus lemmas about the stream it writes.
- `DispatcherSpec` — one turn of the dispatcher loop as a function on values. It comes with the loop invariant, the termination argument, and what the loop has taken when it ends.
- `Dispatcher` — the same loop as methods on the buffer objects. Each turn is proved to be that function's step.
- `CoEditor` and `ScreenManager` — the two consumer loops as methods on the buffer objects, each proved against a function on the queue contents.
- `Pipeline` — `main` from the configuration on. It decrements the ids, creates the queues and runs the stage methods one after the other. It shows that the screen receives every item any producer wrote, by category, in dispatcher order, and nothing else.

There are no threads in the model. Where a call in the C program would block on a semaphore, the model makes its condition a precondition: a free slot, a queued message, or a queued `"DONE"`.

## Model

| member | source | states |
|---|---|---|
| BoundedBuffers.BoundedBuffer.constructor | news_broadcasting.c:71-83 | a valid empty ring of `size` slots with `out == 0` and `in == -1` |
| BoundedBuffers.BoundedBuffer.Insert | news_broadcasting.c:85-94 | the message is appended to the FIFO contents and written into slot `(in + 1) % size`, which becomes `in`; the count grows by one and no other slot changes |
| BoundedBuffers.BoundedBuffer.Remove | news_broadcasting.c:96-106 | returns the oldest message, the one in slot `out`; `out` advances modulo `size`; the contents lose their head; the slots are unchanged |
| BoundedBuffers.WrapIsMod | news_broadcasting.c:89 | for `0 <= k < 2 * size`, the wrap used in the invariant is `k % size` |
| BoundedBuffers.FifoExample | news_broadcasting.c:85-106 | a two-slot queue returns two inserted messages in insertion order |
| UnboundedBuffers.UnboundedBuffer.constructor | news_broadcasting.c:23-34 | a valid empty queue with one allocated slot, `out == 0` and `in == -1` |
| UnboundedBuffers.UnboundedBuffer.Insert | news_broadcasting.c:36-45 | `in` advances; the storage grows to `in + 1` slots and keeps the earlier ones; the message lands in slot `in` and is appended to the contents |
| UnboundedBuffers.UnboundedBuffer.Remove | news_broadcasting.c:47-56 | returns the message in slot `out`, which is the oldest; `out` advances; the storage is untouched |
| UnboundedBuffers.Realloc | news_broadcasting.c:40 | the re-allocated storage has the requested length and keeps every old slot that fits |
| UnboundedBuffers.FifoExample | news_broadcasting.c:36-56 | inserts and removes interleaved without any capacity limit keep FIFO order |
| Messages.CategoryOfIndex | news_broadcasting.c:124 | `CategoryOf`, the ternary on this line, gives message `i` the category handled by dispatcher queue `i % 3` |
| Messages.CategoryIndexInjective | news_broadcasting.c:158-163 | distinct categories go to distinct dispatcher queues |
| Messages.ItemsOfPartition | news_broadcasting.c:158-163 | the items of the three categories together are as many as the non-`"DONE"` messages |
| Messages.StreamCounts | news_broadcasting.c:121-128 | a finished stream (items, then `"DONE"`) holds exactly one `"DONE"` |
| Messages.StreamPrefixDones | news_broadcasting.c:147-155 | a proper prefix of a finished stream holds no `"DONE"` |
| Text.DecimalRoundTrip | news_broadcasting.c:124 | reading back the digits `%d` writes for a number gives that number, sign included |
| Text.DecimalChars | news_broadcasting.c:124 | `Decimal`, the model of `%d`, writes only digits and a minus sign, and the sign comes first exactly for negative numbers |
| Text.Render | news_broadcasting.c:124-128 | the text of a message, `"Producer <id> <CATEGORY> <n>"` for an item and `"DONE"` for the sentinel: it is `"DONE"` exactly for the sentinel, so `strcmp(message, "DONE") == 0` at line 152 picks out the sentinel and nothing else |
| Text.RenderInjective | news_broadcasting.c:124-128 | distinct messages render to distinct strings: the id, the category and the number of an item are read back from its line, using the spaces between the fields and `DecimalRoundTrip` for each `%d` |
| Text.RouteOf | news_broadcasting.c:158-163 | the `strstr` chain: the first category word found picks queue 0, 1 or 2, and a message with none is dropped (`None`); `RouteByText` shows no rendered item is dropped |
| Text.CategoryWords | news_broadcasting.c:158-163 | each category word (`CategoryName`, the literals of lines 124 and 158-163) contains itself and no other category word |
| Text.CategoryByText | news_broadcasting.c:124 | `strstr(message, word) != NULL`, modelled by `Contains`, holds for a rendered item exactly when the word is the item's own category, whatever the numbers |
| Text.RouteByText | news_broadcasting.c:158-163 | the `strstr` chain sends a rendered item to the dispatcher queue of its category and never drops one |
| Producer.Message | news_broadcasting.c:121-126 | the producer's `i`-th message is an item with its id and number `i / 3`, of the category routed to queue `i % 3` |
| Producer.Produced | news_broadcasting.c:121-126 | after `n` turns of the loop the producer has written `max(n, 0)` messages; `ProducedAt` gives each one |
| Producer.ProducedAt | news_broadcasting.c:121-126 | the `i`-th message written is `Item(id, category of i % 3, i / 3)` |
| Producer.RunProducer | news_broadcasting.c:117-130 | the producer queue gains exactly the producer's stream: items `0 .. numProducts - 1`, then `"DONE"` |
| Producer.ProducerStream | news_broadcasting.c:121-128 | the stream is finished and holds `max(numProducts, 0)` items and one `"DONE"` |
| Producer.StreamAt | news_broadcasting.c:124-128 | message `i` of the stream is `Item(id, category of i % 3, i / 3)` for `i < numProducts`, else `"DONE"` |
| Producer.CategoryItemsNumbered | news_broadcasting.c:124 | the `k`-th item of a category in a producer's stream carries number `k`, so numbers within a category increase from 0 without gaps |
| Producer.CategoryItemsCount | news_broadcasting.c:121-124 | a producer writes `ceil((numProducts - c) / 3)` items of the category with index `c` |
| DispatcherSpec.Step | news_broadcasting.c:149-167 | an empty producer queue only moves the cursor; otherwise exactly one message leaves the current producer queue; a `"DONE"` increments `doneCount`; an item is appended to the queue of its category and nowhere else; the cursor moves to `(current + 1) % producersNum` |
| DispatcherSpec.InvInit | news_broadcasting.c:144-145 | the loop invariant holds at the start, when nothing has been taken |
| DispatcherSpec.StepKeepsInv | news_broadcasting.c:147-168 | each turn keeps the invariant: each producer queue is its original minus what was taken from its front; each category queue gained exactly the taken items of its category in order; `doneCount` counts the `"DONE"`s taken |
| DispatcherSpec.DoneCountTracksDrained | news_broadcasting.c:147 | once every producer wrote a finished stream, `doneCount` is the number of empty producer queues, and it reaches `producersNum` exactly when all are empty; below that, some queue still holds a message |
| DispatcherSpec.StepProgress | news_broadcasting.c:147-168 | while a message waits, each turn takes one or moves the cursor closer to a non-empty queue, so the loop ends |
| DispatcherSpec.DrainedAtEnd | news_broadcasting.c:147 | when the loop exits, every producer queue is empty and everything each producer wrote was taken in order |
| DispatcherSpec.ProducerOrderKept | news_broadcasting.c:151-163 | with distinct producer ids, the items one producer contributes to a category queue appear in the order that producer wrote them |
| DispatcherSpec.TakenIsTagged | news_broadcasting.c:151 | what was taken from producer `p` carries `p`'s id |
| DispatcherSpec.ItemsConserved | news_broadcasting.c:156-163 | the three category queues together gained exactly the number of items taken |
| DispatcherSpec.CountBySource | news_broadcasting.c:151 | the messages taken, counted over all producers, are the sum of those taken from each |
| Dispatcher.TakeFrom | news_broadcasting.c:151 | `removeBounded` on the current producer queue removes its head and leaves every other producer queue as it was |
| Dispatcher.Route | news_broadcasting.c:158-163 | an item is appended to the dispatcher queue of its category; the other two are unchanged |
| Dispatcher.DispatchStep | news_broadcasting.c:149-167 | one turn on the buffer objects does to their contents exactly what `DispatcherSpec.Step` does |
| Dispatcher.DrainProducers | news_broadcasting.c:144-168 | the loop ends with `doneCount == producersNum`, every producer queue empty, and each producer's whole stream taken; each category queue gained the taken items of its category, in the order taken |
| Dispatcher.FanOut | news_broadcasting.c:170-173 | each of the three dispatcher queues gains one `"DONE"` at its end |
| Dispatcher.RunDispatcher | news_broadcasting.c:140-176 | each dispatcher queue ends as its old contents, then the taken items of its category in order, then one `"DONE"`; every producer queue is drained |
| CoEditor.Edited | news_broadcasting.c:189-201 | what a co-editor forwards is a prefix of its queue: everything up to and including the first `"DONE"`, or the whole queue if there is none (`EditedIsStream`, `EditedWithoutDone`) |
| CoEditor.Forward | news_broadcasting.c:191-200 | the head of the dispatcher queue is removed and appended to the co-editor queue |
| CoEditor.RunCoEditor | news_broadcasting.c:185-204 | the shared queue gains exactly the messages up to and including the first `"DONE"` of the dispatcher queue, unchanged and in order; those messages leave the dispatcher queue and the rest stays |
| CoEditor.EditedIsStream | news_broadcasting.c:189-196 | from a queue holding a `"DONE"`, a co-editor forwards a finished stream: items, then one `"DONE"` |
| CoEditor.EditedWithoutDone | news_broadcasting.c:189-201 | a queue with no `"DONE"` would be forwarded whole |
| CoEditor.EditedStream | news_broadcasting.c:189-201 | a category queue of items followed by `"DONE"` is forwarded as is, and whatever follows the `"DONE"` is left |
| ScreenManager.Drained | news_broadcasting.c:217-228 | what the screen manager removes is a prefix of its queue, ending right after the `need`-th `"DONE"` (`DrainedDones`) |
| ScreenManager.Shown | news_broadcasting.c:220-227 | the messages printed are the removed ones that are not `"DONE"`, in order (`ShownAreItems`, `ShownOfStreams`) |
| ScreenManager.RunScreenManager | news_broadcasting.c:212-232 | the printed lines are `Lines` of the non-`"DONE"` messages removed up to the third `"DONE"` (each message's rendering, one per `printf`), followed by `"DONE"`; exactly those messages leave the queue |
| ScreenManager.DrainedDones | news_broadcasting.c:217-223 | with at least `need` `"DONE"`s queued, it removes exactly `need` of them and stops right after the last (the loop runs with `need == 3`) |
| ScreenManager.NoDoneLine | news_broadcasting.c:224-230 | no printed item line reads `"DONE"`, so the only `"DONE"` on the screen is the final one |
| ScreenManager.DrainedOfStreams | news_broadcasting.c:217-228 | a queue beginning with three finished streams is drained exactly up to the end of the third |
| ScreenManager.ShownOfStreams | news_broadcasting.c:224-227 | for three finished streams, the screen shows the items of the first, then the second, then the third |
| ScreenManager.ShownAreItems | news_broadcasting.c:224-227 | only real items are printed before the final `"DONE"` |
| Pipeline.RoutedStream | news_broadcasting.c:158-173 | a dispatcher queue at the end is a finished stream |
| Pipeline.EditedRouted | news_broadcasting.c:189-201 | each co-editor forwards its whole dispatcher queue |
| Pipeline.ScreenShowsEveryItem | news_broadcasting.c:319-347 | with the stages run in sequence, the screen manager drains exactly the three co-editor streams; it shows every SPORTS item taken, then every NEWS item, then every WEATHER item, each in dispatcher order, and as many lines as items taken |
| Pipeline.TakenProducts | news_broadcasting.c:121-128 | when each producer gave `max(numProducts, 0)` items, the items taken add up to the sum of those numbers |
| Pipeline.EveryProductShown | news_broadcasting.c:318-365 | when the dispatcher took every producer's whole stream, the screen shows exactly as many item lines as the producers wrote items in total |
| Pipeline.TakenCount | news_broadcasting.c:121-128 | when the dispatcher took every producer's whole stream, it took as many items as the `numProducts` values add up to (negative ones counting as 0) |
| Pipeline.SharedDones | news_broadcasting.c:192-194 | the co-editor queue receives exactly one `"DONE"` per co-editor, three in all |
| Pipeline.ProducerStreamTagged | news_broadcasting.c:124 | every item a producer writes carries that producer's id |
| Pipeline.PipelineOrder | news_broadcasting.c:124-163 | with distinct ids, the items of one producer and one category that the dispatcher took are exactly that producer's items of that category, in the order it wrote them |
| Pipeline.ConsumerFacts | news_broadcasting.c:189-230 | each routed stream holds its `"DONE"`; together they take `items + 3` slots in the co-editor queue; the shared queue holds three `"DONE"`s and is drained to the screen whole |
| Pipeline.DecrementIds | news_broadcasting.c:295-299 | every configured id is decremented by one |
| Pipeline.StartProducer | news_broadcasting.c:303-307 | a fresh valid producer queue of `queueSize` slots holding the producer's whole stream |
| Pipeline.ProducerStage | news_broadcasting.c:303-322 | one fresh, distinct, valid queue per producer, each holding that producer's whole stream |
| Pipeline.DispatcherStage | news_broadcasting.c:309-333 | three fresh dispatcher queues, each holding its category's routed stream, with each producer's stream taken whole |
| Pipeline.CoEditorStage | news_broadcasting.c:315-342 | a fresh co-editor queue holding what the SPORTS, NEWS and WEATHER co-editors forwarded, in that order |
| Pipeline.ConsumerStage | news_broadcasting.c:335-347 | after the co-editors and the screen manager, the screen shows the SPORTS items, then NEWS, then WEATHER, each in dispatcher order, then `"DONE"` |
| Pipeline.RunPipeline | news_broadcasting.c:295-365 | with the stages run one after the other on freshly created queues, the dispatcher takes from each producer `p` exactly its whole stream, written with id `ids[p] - 1`; the screen lines are every item taken, by category, each category in the order taken, then `"DONE"`; there are exactly as many item lines as the `numProducts` add up to; with distinct ids, each producer's items of a category appear in the order it wrote them |

## Left out

- Threads, mutexes and semaphores (lines 19-20, 31-32, 38-54, 66-68, 79-104, 318-365) are not modelled. Blocking becomes a precondition: `count < size` for a bounded insert, `count > 0` for a remove.
- The stages run in a fixed sequential schedule. Producers finish first, then the dispatcher runs to the end, then the three co-editors one after the other, then the screen manager. With real threads the three co-editor streams interleave in the shared queue. That interleaving is not modelled, so `Pipeline` shows categories one after the other.
- The dispatcher reads `count` at line 149 without the mutex. The model reads it as if no producer were writing at the same time.
- Dispatcher.DrainProducers, Dispatcher.RunDispatcher, Pipeline.DispatcherStage: these take producer queues that already hold their whole streams. They do not model a dispatcher that overtakes a producer still writing.
- Producer.RunProducer, Pipeline.StartProducer, Pipeline.ProducerStage: require the whole stream to fit in the producer queue, because the sequential model cannot wait for free slots. With `queueSize` smaller than the stream, the C program needs the concurrent dispatcher.
- CoEditor.RunCoEditor, Pipeline.CoEditorStage, Pipeline.ConsumerStage: require a `"DONE"` already queued and room in the shared queue for everything it forwards, for the same reason.
- ScreenManager.RunScreenManager, Pipeline.ConsumerStage: require three `"DONE"`s already queued, for the same reason.
- `sleep(0.1)` at line 198 only delays, so it is left out. It takes an `unsigned int`, so the call is `sleep(0)`.
- Reading the configuration file, its error messages, and counting producers by blank lines (lines 236-293) are file I/O. They are not modelled.
- Thread creation and joins in `main` (lines 318-365) become plain calls, one stage after the other, in `Pipeline.RunPipeline`.
- Pipeline.RunPipeline: requires each producer queue to be larger than its stream of items, and the co-editor queue to hold all items plus three `"DONE"`s. With real threads, smaller queues work too.
- `malloc`, `realloc`, `strdup` and `free`, and the memory the program never frees, are not modelled. A message is a value, so the copy made in each insert does not appear.
- `UnboundedBuffer.size` (lines 15, 27) is set to 1 and never read afterwards. The model leaves it out.
- `snprintf` truncation at `MAX_MESSAGE_LEN` (100) is not modelled. `"Producer %d %s %d"` of two `int`s is fewer than 40 characters, so it never truncates.
- Numbers are unbounded integers. `i / 3` cannot overflow, because `i < numProducts <= INT_MAX`. The decrement `id--` at line 298 overflows in C for a configured id of `INT_MIN`; the model ignores this and uses `id - 1`.
- A message with no category word would be dropped at lines 158-163. `Text.RouteOf` models that case (`None`), but producers never write such a message, so `Dispatcher.Route` takes only tagged items.
- Printing: `printf("%s\n", …)` becomes one string per line in the `RunScreenManager` output, without the newline.
- A bounded buffer of size 0 (line 71) is created validly, but no insert or remove on it can be called. In the C program `sem_wait` would block on it forever.
- BoundedBuffers.BoundedBuffer.constructor: requires `size >= 0`: a negative configured queue size makes `malloc` and `sem_init` fail in C, and the model does not create such a queue.

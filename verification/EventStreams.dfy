/** The in-memory event broker on values (kernel/events/memory.py): what each
    subscriber's queue holds after any history. `Q` identifies a queue. */
module EventStreams {

  // End is the None that close puts into a queue.
  datatype Item = Event(payload: string) | End

  datatype Subscriber<Q> = Subscriber(queue: Q, tenant: string)

  datatype Op<Q> =
    | Subscribe(queue: Q, execution: string, tenant: string)
    | Unsubscribe(execution: string, queue: Q)
    | Publish(execution: string, sender: string, payload: string)
    | PublishRaw(execution: string, payload: string)
    | Close(execution: string)
    | CloseAll

  type Lists<Q> = map<string, seq<Subscriber<Q>>>

  function ListOf<Q>(lists: Lists<Q>, execution: string): seq<Subscriber<Q>> {
    if execution in lists then lists[execution] else []
  }

  datatype Broker<Q> = Broker(lists: Lists<Q>, queues: map<Q, seq<Item>>)

  // Both sides must name a tenant for the filter to drop an event.
  predicate Passes(subscriber: string, sender: string) {
    subscriber == "" || sender == "" || subscriber == sender
  }

  function Without<Q(==)>(subs: seq<Subscriber<Q>>, queue: Q): seq<Subscriber<Q>> {
    if subs == [] then []
    else
      Without(subs[..|subs| - 1], queue)
      + (if subs[|subs| - 1].queue == queue then [] else [subs[|subs| - 1]])
  }

  predicate Listed<Q(==)>(subs: seq<Subscriber<Q>>, queue: Q) {
    exists i :: 0 <= i < |subs| && subs[i].queue == queue
  }

  // The subscribers of the list that a sender reaches.
  predicate Reached<Q(==)>(subs: seq<Subscriber<Q>>, queue: Q, sender: string) {
    exists i :: 0 <= i < |subs| && subs[i].queue == queue && Passes(subs[i].tenant, sender)
  }

  // The item an operation puts into a queue, if any.
  ghost function Put<Q>(lists: Lists<Q>, op: Op<Q>, queue: Q): seq<Item> {
    match op
    case Publish(e, sender, payload) => if Reached(ListOf(lists, e), queue, sender) then [Event(payload)] else []
    case PublishRaw(e, payload) => if Listed(ListOf(lists, e), queue) then [Event(payload)] else []
    case Close(e) => if Listed(ListOf(lists, e), queue) then [End] else []
    case CloseAll => if exists e :: e in lists && Listed(lists[e], queue) then [End] else []
    case _ => []
  }

  ghost function ListsAfter<Q>(lists: Lists<Q>, op: Op<Q>): Lists<Q> {
    match op
    case Subscribe(q, e, t) => lists[e := ListOf(lists, e) + [Subscriber(q, t)]]
    case Unsubscribe(e, q) => lists[e := Without(ListOf(lists, e), q)]
    case Close(e) => lists - {e}
    case CloseAll => map[]
    case _ => lists
  }

  ghost function QueuesAfter<Q>(b: Broker<Q>, op: Op<Q>): map<Q, seq<Item>> {
    var queues := map q | q in b.queues :: b.queues[q] + Put(b.lists, op, q);
    if op.Subscribe? then queues[op.queue := []] else queues
  }

  ghost function Step<Q>(b: Broker<Q>, op: Op<Q>): Broker<Q> {
    Broker(ListsAfter(b.lists, op), QueuesAfter(b, op))
  }

  // A subscription always makes a new queue.
  ghost predicate Enabled<Q>(b: Broker<Q>, op: Op<Q>) {
    op.Subscribe? ==> op.queue !in b.queues
  }

  ghost predicate AllEnabled<Q>(b: Broker<Q>, ops: seq<Op<Q>>)
    decreases |ops|
  {
    ops != [] ==> Enabled(b, ops[0]) && AllEnabled(Step(b, ops[0]), ops[1..])
  }

  ghost function Run<Q>(b: Broker<Q>, ops: seq<Op<Q>>): Broker<Q>
    decreases |ops|
  {
    if ops == [] then b else Run(Step(b, ops[0]), ops[1..])
  }

  /* ----- What a subscriber should see ----- */

  // What an operation means to a subscriber of one execution: an event is dropped
  // only if both name a tenant, and not the same.
  function Delivered<Q>(op: Op<Q>, execution: string, tenant: string): seq<Item> {
    match op
    case Publish(e, sender, payload) =>
      if e != execution || (tenant != "" && sender != "" && tenant != sender) then [] else [Event(payload)]
    case PublishRaw(e, payload) => if e == execution then [Event(payload)] else []
    case Close(e) => if e == execution then [End] else []
    case CloseAll => [End]
    case _ => []
  }

  predicate EndsSubscription<Q(==)>(op: Op<Q>, execution: string, queue: Q) {
    op == CloseAll || op == Close(execution) || op == Unsubscribe(execution, queue)
  }

  // From its subscription on: the events of its execution that pass its filter,
  // in order, until it unsubscribes or is closed; a close leaves one End.
  function Stream<Q(==)>(ops: seq<Op<Q>>, execution: string, tenant: string, queue: Q): seq<Item> {
    if ops == [] then []
    else
      Delivered(ops[0], execution, tenant)
      + (if EndsSubscription(ops[0], execution, queue) then [] else Stream(ops[1..], execution, tenant, queue))
  }

  // Every queue is listed once at most, and every listed queue exists.
  ghost predicate Sound<Q>(b: Broker<Q>) {
    ListsSound(b.lists, b.queues.Keys)
  }

  ghost predicate ListsSound<Q>(lists: Lists<Q>, queues: set<Q>) {
    && (forall e, i | e in lists && 0 <= i < |lists[e]| :: lists[e][i].queue in queues)
    && (forall e, i, f, j | e in lists && f in lists && 0 <= i < |lists[e]| && 0 <= j < |lists[f]|
          && lists[e][i].queue == lists[f][j].queue :: e == f && i == j)
  }

  ghost predicate ListedAt<Q>(lists: Lists<Q>, e: string, q: Q, t: string) {
    e in lists && Subscriber(q, t) in lists[e]
  }

  ghost predicate ListedNowhere<Q>(lists: Lists<Q>, q: Q) {
    forall e | e in lists :: !Listed(lists[e], q)
  }

  // Removal keeps the others, once each.
  lemma {:induction false} WithoutKeeps<Q>(subs: seq<Subscriber<Q>>, queue: Q)
    ensures var out := Without(subs, queue);
            && (forall i | 0 <= i < |out| :: out[i] in subs && out[i].queue != queue)
            && (forall i | 0 <= i < |subs| && subs[i].queue != queue :: subs[i] in out)
            && (Distinct(subs) ==> Distinct(out))
  {
    if subs != [] {
      var n := |subs| - 1;
      var front := subs[..n];
      WithoutKeeps(front, queue);
      assert subs == front + [subs[n]];
      var out := Without(front, queue);
      if Distinct(subs) {
        forall i | 0 <= i < |out| ensures out[i].queue != subs[n].queue {
          assert out[i] in front;
        }
      }
    }
  }

  ghost predicate Distinct<Q>(subs: seq<Subscriber<Q>>) {
    forall i, j | 0 <= i < j < |subs| :: subs[i].queue != subs[j].queue
  }

  lemma SubscribingIsSound<Q>(lists: Lists<Q>, queues: set<Q>, op: Op<Q>)
    requires ListsSound(lists, queues) && op.Subscribe? && op.queue !in queues
    ensures ListsSound(ListsAfter(lists, op), queues + {op.queue})
  {
  }

  lemma UnsubscribingIsSound<Q>(lists: Lists<Q>, queues: set<Q>, op: Op<Q>)
    requires ListsSound(lists, queues) && op.Unsubscribe?
    ensures ListsSound(ListsAfter(lists, op), queues)
  {
    var before := ListOf(lists, op.execution);
    var after := Without(before, op.queue);
    WithoutKeeps(before, op.queue);
    forall i | 0 <= i < |after| ensures after[i] in before {
    }
  }

  lemma StepIsSound<Q>(b: Broker<Q>, op: Op<Q>)
    requires Sound(b) && Enabled(b, op)
    ensures Sound(Step(b, op))
  {
    var queues := Step(b, op).queues.Keys;
    assert queues == if op.Subscribe? then b.queues.Keys + {op.queue} else b.queues.Keys;
    match op
    case Subscribe(_, _, _) => SubscribingIsSound(b.lists, b.queues.Keys, op);
    case Unsubscribe(_, _) => UnsubscribingIsSound(b.lists, b.queues.Keys, op);
    case _ =>
  }

  // While a queue is listed, a step puts what the stream says and keeps or ends the listing.
  lemma ListedStep<Q>(b: Broker<Q>, op: Op<Q>, e: string, q: Q, t: string)
    requires Sound(b) && Enabled(b, op) && ListedAt(b.lists, e, q, t)
    ensures q in b.queues
    ensures Put(b.lists, op, q) == Delivered(op, e, t)
    ensures if EndsSubscription(op, e, q) then ListedNowhere(Step(b, op).lists, q)
            else ListedAt(Step(b, op).lists, e, q, t)
  {
    var k :| 0 <= k < |b.lists[e]| && b.lists[e][k] == Subscriber(q, t);
    forall f | f in b.lists && f != e ensures !Listed(b.lists[f], q) {
    }
    if op.Unsubscribe? {
      WithoutKeeps(ListOf(b.lists, op.execution), op.queue);
      var after := Without(ListOf(b.lists, op.execution), op.queue);
      assert forall i | 0 <= i < |after| :: after[i] in ListOf(b.lists, op.execution);
    }
  }

  // A queue listed nowhere gets nothing more.
  lemma UnlistedStep<Q>(b: Broker<Q>, op: Op<Q>, q: Q)
    requires Sound(b) && Enabled(b, op) && q in b.queues && ListedNowhere(b.lists, q)
    ensures Put(b.lists, op, q) == [] && ListedNowhere(Step(b, op).lists, q)
  {
    if op.Unsubscribe? {
      WithoutKeeps(ListOf(b.lists, op.execution), op.queue);
      var after := Without(ListOf(b.lists, op.execution), op.queue);
      assert forall i | 0 <= i < |after| :: after[i] in ListOf(b.lists, op.execution);
    }
  }

  lemma {:induction false} UnlistedRun<Q>(b: Broker<Q>, ops: seq<Op<Q>>, q: Q)
    requires Sound(b) && AllEnabled(b, ops) && q in b.queues && ListedNowhere(b.lists, q)
    ensures q in Run(b, ops).queues && Run(b, ops).queues[q] == b.queues[q]
    decreases |ops|
  {
    if ops != [] {
      StepIsSound(b, ops[0]);
      UnlistedStep(b, ops[0], q);
      UnlistedRun(Step(b, ops[0]), ops[1..], q);
    }
  }

  lemma ListedAdvance<Q>(b: Broker<Q>, op: Op<Q>, e: string, q: Q, t: string)
    requires Sound(b) && Enabled(b, op) && ListedAt(b.lists, e, q, t)
    ensures q in b.queues && q in Step(b, op).queues && Sound(Step(b, op))
    ensures Step(b, op).queues[q] == b.queues[q] + Delivered(op, e, t)
    ensures if EndsSubscription(op, e, q) then ListedNowhere(Step(b, op).lists, q)
            else ListedAt(Step(b, op).lists, e, q, t)
  {
    StepIsSound(b, op);
    ListedStep(b, op, e, q, t);
  }

  lemma {:induction false} ListedRun<Q>(b: Broker<Q>, ops: seq<Op<Q>>, e: string, q: Q, t: string)
    requires Sound(b) && AllEnabled(b, ops) && ListedAt(b.lists, e, q, t)
    ensures q in b.queues && q in Run(b, ops).queues
    ensures Run(b, ops).queues[q] == b.queues[q] + Stream(ops, e, t, q)
    decreases |ops|
  {
    ListedExists(b, e, q, t);
    if ops != [] {
      var op, b', rest := ops[0], Step(b, ops[0]), ops[1..];
      ListedAdvance(b, op, e, q, t);
      if EndsSubscription(op, e, q) {
        UnlistedRun(b', rest, q);
      } else {
        ListedRun(b', rest, e, q, t);
        Regroup(b.queues[q], Delivered(op, e, t), Stream(rest, e, t, q));
      }
    }
  }

  lemma ListedExists<Q>(b: Broker<Q>, e: string, q: Q, t: string)
    requires Sound(b) && ListedAt(b.lists, e, q, t)
    ensures q in b.queues
  {
    var k :| 0 <= k < |b.lists[e]| && b.lists[e][k] == Subscriber(q, t);
  }

  lemma Regroup(a: seq<Item>, b: seq<Item>, c: seq<Item>)
    ensures a + (b + c) == (a + b) + c
  {
  }

  lemma {:induction false} RunIsSound<Q>(b: Broker<Q>, ops: seq<Op<Q>>)
    requires Sound(b) && AllEnabled(b, ops)
    ensures Sound(Run(b, ops))
    decreases |ops|
  {
    if ops != [] {
      StepIsSound(b, ops[0]);
      RunIsSound(Step(b, ops[0]), ops[1..]);
    }
  }

  /** A queue holds exactly its subscriber's stream, whatever happened before the
      subscription and whatever happens to other executions and subscribers. */
  lemma QueueIsStream<Q>(before: seq<Op<Q>>, q: Q, e: string, t: string, after: seq<Op<Q>>)
    requires AllEnabled(Broker(map[], map[]), before)
    requires AllEnabled(Run(Broker(map[], map[]), before), [Subscribe(q, e, t)] + after)
    ensures var queues := Run(Run(Broker(map[], map[]), before), [Subscribe(q, e, t)] + after).queues;
            q in queues && queues[q] == Stream(after, e, t, q)
  {
    var op, b := Subscribe(q, e, t), Run(Broker(map[], map[]), before);
    assert ([op] + after)[1..] == after;
    RunIsSound(Broker(map[], map[]), before);
    StepIsSound(b, op);
    ListedRun(Step(b, op), after, e, q, t);
  }

  // The subscription is closed before it is given up.
  ghost predicate ClosedWhileSubscribed<Q>(ops: seq<Op<Q>>, e: string, q: Q) {
    exists i :: 0 <= i < |ops|
      && (ops[i].CloseAll? || ops[i] == Close(e))
      && forall j | 0 <= j < i :: ops[j] != Unsubscribe(e, q)
  }

  lemma ClosedFromNext<Q>(ops: seq<Op<Q>>, e: string, q: Q)
    requires ops != []
    ensures ClosedWhileSubscribed(ops, e, q)
       <==> (ops[0].CloseAll? || ops[0] == Close(e)
             || (ops[0] != Unsubscribe(e, q) && ClosedWhileSubscribed(ops[1..], e, q)))
  {
    if ClosedWhileSubscribed(ops[1..], e, q) && ops[0] != Unsubscribe(e, q) {
      var i :| 0 <= i < |ops[1..]| && (ops[1..][i].CloseAll? || ops[1..][i] == Close(e))
        && forall j | 0 <= j < i :: ops[1..][j] != Unsubscribe(e, q);
      assert ops[i + 1] == ops[1..][i];
      assert forall j | 0 <= j < i + 1 :: ops[j] == if j == 0 then ops[0] else ops[1..][j - 1];
    }
    if ClosedWhileSubscribed(ops, e, q) && !ops[0].CloseAll? && ops[0] != Close(e) {
      var i :| 0 <= i < |ops| && (ops[i].CloseAll? || ops[i] == Close(e))
        && forall j | 0 <= j < i :: ops[j] != Unsubscribe(e, q);
      assert ops[1..][i - 1] == ops[i];
      assert forall j | 0 <= j < i - 1 :: ops[1..][j] == ops[j + 1];
    }
  }

  /** End is put at most once, last, and exactly when the subscription was closed. */
  lemma {:induction false} EndsOnceIffClosed<Q>(ops: seq<Op<Q>>, e: string, t: string, q: Q)
    ensures var s := Stream(ops, e, t, q);
            && (forall i | 0 <= i < |s| - 1 :: s[i].Event?)
            && (s != [] && s[|s| - 1] == End <==> ClosedWhileSubscribed(ops, e, q))
  {
    if ops != [] {
      EndsOnceIffClosed(ops[1..], e, t, q);
      ClosedFromNext(ops, e, q);
    }
  }

  /* ----- Tenants ----- */

  /** An event reaches a listed subscriber of its execution if and only if they do
      not name two different tenants. */
  lemma ReachesUnlessTenantsDiffer<Q>(b: Broker<Q>, e: string, q: Q, t1: string, t2: string, payload: string)
    requires Sound(b) && ListedAt(b.lists, e, q, t1)
    ensures Put(b.lists, Publish(e, t2, payload), q)
         == if t1 != "" && t2 != "" && t1 != t2 then [] else [Event(payload)]
  {
    ListedStep(b, Publish(e, t2, payload), e, q, t1);
  }

  // The operation publishes this payload to the execution, and not for another
  // named tenant.
  ghost predicate PublishesTo<Q>(op: Op<Q>, execution: string, tenant: string, payload: string) {
    || op == PublishRaw(execution, payload)
    || (op.Publish? && op.execution == execution && op.payload == payload
        && (op.sender == "" || op.sender == tenant || tenant == ""))
  }

  // Where an event in a stream comes from.
  lemma {:induction false} StreamSource<Q>(ops: seq<Op<Q>>, e: string, t: string, q: Q, payload: string)
    returns (k: nat)
    requires Event(payload) in Stream(ops, e, t, q)
    ensures k < |ops| && PublishesTo(ops[k], e, t, payload)
    ensures forall j | 0 <= j < k :: !EndsSubscription(ops[j], e, q)
  {
    if Event(payload) in Delivered(ops[0], e, t) {
      k := 0;
    } else {
      var m := StreamSource(ops[1..], e, t, q, payload);
      k := m + 1;
      forall j | 0 <= j < k ensures !EndsSubscription(ops[j], e, q) {
        if j > 0 { assert ops[j] == ops[1..][j - 1]; }
      }
    }
  }

  /** Tenants are kept apart over whole histories: every event in a subscriber's
      queue was published to its execution during its subscription, raw, by a sender
      that names no tenant, or by its own tenant (by anyone, if it names none). */
  lemma EveryEventHasSource<Q>(before: seq<Op<Q>>, q: Q, e: string, t: string, after: seq<Op<Q>>, payload: string)
    returns (k: nat)
    requires AllEnabled(Broker(map[], map[]), before)
    requires AllEnabled(Run(Broker(map[], map[]), before), [Subscribe(q, e, t)] + after)
    requires var queues := Run(Run(Broker(map[], map[]), before), [Subscribe(q, e, t)] + after).queues;
             q in queues && Event(payload) in queues[q]
    ensures k < |after| && PublishesTo(after[k], e, t, payload)
    ensures forall j | 0 <= j < k :: !EndsSubscription(after[j], e, q)
  {
    QueueIsStream(before, q, e, t, after);
    k := StreamSource(after, e, t, q, payload);
  }

  /** So what only another named tenant publishes never gets into the queue of a
      subscriber that names its tenant. */
  lemma ForeignEventsStayOut<Q>(before: seq<Op<Q>>, q: Q, e: string, t: string, after: seq<Op<Q>>,
                                other: string, payload: string)
    requires AllEnabled(Broker(map[], map[]), before)
    requires AllEnabled(Run(Broker(map[], map[]), before), [Subscribe(q, e, t)] + after)
    requires t != "" && other != "" && other != t
    requires forall k | 0 <= k < |after| && after[k].Publish? && after[k].payload == payload :: after[k].sender == other
    requires forall k | 0 <= k < |after| && after[k].PublishRaw? :: after[k].payload != payload
    ensures var queues := Run(Run(Broker(map[], map[]), before), [Subscribe(q, e, t)] + after).queues;
            q in queues && Event(payload) !in queues[q]
  {
    QueueIsStream(before, q, e, t, after);
    if Event(payload) in Stream(after, e, t, q) {
      var k := StreamSource(after, e, t, q, payload);
    }
  }
}

/** The in-memory event publisher object (kernel/events/memory.py). */
module EventPublisher {
  import opened EventStreams

  class EventQueue {
    var items: seq<Item>

    constructor ()
      ensures items == []
    {
      items := [];
    }

    method PutNowait(item: Item)
      modifies this
      ensures items == old(items) + [item]
    {
      items := items + [item];
    }
  }

  class InMemoryEventPublisher {
    var subscribers: Lists<EventQueue>
    ghost var queues: set<EventQueue>

    ghost predicate Valid()
      reads this
    {
      ListsSound(subscribers, queues)
    }

    ghost function View(): Broker<EventQueue>
      reads this, queues
    {
      Broker(subscribers, map q | q in queues :: q.items)
    }

    constructor ()
      ensures Valid() && View() == Broker(map[], map[])
    {
      subscribers, queues := map[], {};
    }

    method Subscribe(execution: string, tenant: string) returns (queue: EventQueue)
      requires Valid()
      modifies this
      ensures Valid() && fresh(queue) && queues == old(queues) + {queue}
      ensures View() == Step(old(View()), Op.Subscribe(queue, execution, tenant))
      ensures queue.items == []
      ensures var listed := if execution in old(subscribers) then old(subscribers)[execution] else [];
              subscribers == old(subscribers)[execution := listed + [Subscriber(queue, tenant)]]
    {
      queue := new EventQueue();
      SubscribingIsSound(subscribers, queues, Op.Subscribe(queue, execution, tenant));
      subscribers := subscribers[execution := ListOf(subscribers, execution) + [Subscriber(queue, tenant)]];
      queues := queues + {queue};
      forall q | q in old(queues)
        ensures View().queues[q] == QueuesAfter(old(View()), Op.Subscribe(queue, execution, tenant))[q]
      {
        assert old(q.items) + [] == old(q.items);
      }
      assert View().queues == QueuesAfter(old(View()), Op.Subscribe(queue, execution, tenant));
    }

    method Unsubscribe(execution: string, queue: EventQueue)
      requires Valid()
      modifies this
      ensures Valid() && queues == old(queues)
      ensures View() == Step(old(View()), Op.Unsubscribe(execution, queue))
    {
      UnsubscribingIsSound(subscribers, queues, Op.Unsubscribe(execution, queue));
      var subs := ListOf(subscribers, execution);
      var kept := [];
      for i := 0 to |subs|
        invariant kept == Without(subs[..i], queue)
      {
        assert subs[..i + 1][..i] == subs[..i];
        if subs[i].queue != queue {
          kept := kept + [subs[i]];
        }
      }
      assert subs[..|subs|] == subs;
      subscribers := subscribers[execution := kept];
      forall q | q in old(queues)
        ensures View().queues[q] == QueuesAfter(old(View()), Op.Unsubscribe(execution, queue))[q]
      {
        assert old(q.items) + [] == old(q.items);
      }
      assert View().queues == QueuesAfter(old(View()), Op.Unsubscribe(execution, queue));
    }

    // Puts an item into the queue of every listed subscriber that `reaches` selects.
    method PutAll(subs: seq<Subscriber<EventQueue>>, sender: string, item: Item)
      requires Distinct(subs) && forall i | 0 <= i < |subs| :: subs[i].queue in queues
      modifies queues
      ensures forall q | q in queues :: q.items == old(q.items) + (if Reached(subs, q, sender) then [item] else [])
    {
      for i := 0 to |subs|
        invariant forall q | q in queues ::
                    q.items == old(q.items) + (if Reached(subs[..i], q, sender) then [item] else [])
      {
        ReachedNext(subs, i, sender);
        if !Passes(subs[i].tenant, sender) {
          continue;
        }
        subs[i].queue.PutNowait(item);
      }
      assert subs[..|subs|] == subs;
    }

    lemma ReachedNext(subs: seq<Subscriber<EventQueue>>, i: nat, sender: string)
      requires i < |subs| && Distinct(subs)
      ensures forall q :: Reached(subs[..i + 1], q, sender)
                <==> Reached(subs[..i], q, sender) || (q == subs[i].queue && Passes(subs[i].tenant, sender))
      ensures !Reached(subs[..i], subs[i].queue, sender)
    {
      var shorter, longer := subs[..i], subs[..i + 1];
      assert forall k | 0 <= k < i :: shorter[k] == longer[k] == subs[k];
      assert longer[i] == subs[i];
      forall q | Reached(shorter, q, sender) ensures Reached(longer, q, sender) {
        var k :| 0 <= k < |shorter| && shorter[k].queue == q && Passes(shorter[k].tenant, sender);
        assert longer[k].queue == q;
      }
    }

    // An event object: both tenants, when named, must agree.
    method PublishEvent(execution: string, sender: string, payload: string)
      requires Valid()
      modifies queues
      ensures Valid() && View() == Step(old(View()), Op.Publish(execution, sender, payload))
      ensures execution in subscribers ==> forall i | 0 <= i < |subscribers[execution]| ::
                var sub := subscribers[execution][i];
                && sub.queue in queues
                && sub.queue.items == old(sub.queue.items)
                   + (if sub.tenant != "" && sender != "" && sub.tenant != sender then [] else [Event(payload)])
    {
      PutAll(ListOf(subscribers, execution), sender, Event(payload));
    }

    // A raw dictionary: no filter, which is a sender without tenant.
    method PublishDict(execution: string, payload: string)
      requires Valid()
      modifies queues
      ensures Valid() && View() == Step(old(View()), Op.PublishRaw(execution, payload))
      ensures execution in subscribers ==> forall i | 0 <= i < |subscribers[execution]| ::
                var queue := subscribers[execution][i].queue;
                queue in queues && queue.items == old(queue.items) + [Event(payload)]
    {
      PutAll(ListOf(subscribers, execution), "", Event(payload));
      assert forall q :: Reached(ListOf(subscribers, execution), q, "") == Listed(ListOf(subscribers, execution), q);
    }

    method Close(execution: string)
      requires Valid()
      modifies this, queues
      ensures Valid() && queues == old(queues)
      ensures View() == Step(old(View()), Op.Close(execution))
      ensures subscribers == old(subscribers) - {execution}
      ensures execution in old(subscribers) ==> forall i | 0 <= i < |old(subscribers)[execution]| ::
                var queue := old(subscribers)[execution][i].queue;
                queue in queues && queue.items == old(queue.items) + [End]
    {
      PutAll(ListOf(subscribers, execution), "", End);
      assert forall q :: Reached(ListOf(subscribers, execution), q, "") == Listed(ListOf(subscribers, execution), q);
      subscribers := subscribers - {execution};
    }

    method CloseAll()
      requires Valid()
      modifies this, queues
      ensures Valid() && queues == old(queues)
      ensures View() == Step(old(View()), Op.CloseAll)
      ensures subscribers == map[]
    {
      ghost var before := View();
      NoneClosed(before);
      assert before.lists.Keys - subscribers.Keys == {};
      while subscribers.Keys != {}
        invariant Valid() && queues == old(queues)
        invariant subscribers.Keys <= before.lists.Keys
        invariant forall e | e in subscribers :: subscribers[e] == before.lists[e]
        invariant View().queues == QueuesClosed(before, before.lists.Keys - subscribers.Keys)
        decreases subscribers.Keys
      {
        var execution :| execution in subscribers.Keys;
        ghost var closed := before.lists.Keys - subscribers.Keys;
        CloseOneMore(before, View(), closed, execution);
        Close(execution);
        assert before.lists.Keys - subscribers.Keys == closed + {execution};
      }
      assert before.lists.Keys - subscribers.Keys == before.lists.Keys;
      AllClosed(before);
    }
  }

  // The queues when the given executions have been closed, one after the other.
  ghost function QueuesClosed<Q>(b: Broker<Q>, closed: set<string>): map<Q, seq<Item>> {
    map q | q in b.queues :: b.queues[q] + (if ClosedBy(b.lists, closed, q) then [End] else [])
  }

  ghost predicate ClosedBy<Q>(lists: Lists<Q>, closed: set<string>, q: Q) {
    exists e :: e in closed && e in lists && Listed(lists[e], q)
  }

  lemma CloseOneMore<Q>(before: Broker<Q>, now: Broker<Q>, closed: set<string>, e: string)
    requires Sound(before) && e in before.lists && e !in closed
    requires now.queues == QueuesClosed(before, closed) && ListOf(now.lists, e) == before.lists[e]
    ensures QueuesAfter(now, Op.Close(e)) == QueuesClosed(before, closed + {e})
  {
    forall q | q in before.queues
      ensures now.queues[q] + Put(now.lists, Op.Close(e), q) == QueuesClosed(before, closed + {e})[q]
    {
      if Listed(before.lists[e], q) {
        assert !ClosedBy(before.lists, closed, q);
      }
    }
  }

  lemma NoneClosed<Q>(b: Broker<Q>)
    ensures QueuesClosed(b, {}) == b.queues
  {
    forall q | q in b.queues ensures QueuesClosed(b, {})[q] == b.queues[q] {
      assert b.queues[q] + [] == b.queues[q];
    }
  }

  lemma AllClosed<Q>(b: Broker<Q>)
    ensures QueuesAfter(b, Op.CloseAll) == QueuesClosed(b, b.lists.Keys)
  {
    forall q | q in b.queues
      ensures (exists e :: e in b.lists && Listed(b.lists[e], q)) == ClosedBy(b.lists, b.lists.Keys, q)
    {
    }
  }
}

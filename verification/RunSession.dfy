/**
  The run object of a cloud agent (internal/console/chat_cloud_agent_stream.go): its fields and the
  methods that update them in place, proved against the transition system of the hub.
*/
module RunSessions {
  import opened Text
  import opened Channels
  import opened RunHub

  class CloudAgentRun {
    var content: string
    var reasoning: string
    var operations: seq<Operation>
    var done: bool
    var errorRecorded: bool
    var subscribers: map<nat, Channel<Event>>
    var nextSubID: nat

    ghost function View(): Progress
      reads `content, `reasoning, `operations
    {
      Progress(content, reasoning, operations)
    }

    /** A channel is in the map exactly while it is open, and each under one id. */
    ghost predicate Valid()
      reads `subscribers, `nextSubID, subscribers.Values
    {
      && (forall id :: id in subscribers ==>
            id < nextSubID && !subscribers[id].closed && subscribers[id].capacity == CHANNEL_CAPACITY)
      && (forall a, b :: a in subscribers && b in subscribers && a != b ==> subscribers[a] != subscribers[b])
    }

    constructor ()
      ensures Valid() && View() == NO_PROGRESS && !done && !errorRecorded && subscribers == map[]
    {
      content, reasoning, operations := "", "", [];
      done, errorRecorded, subscribers, nextSubID := false, false, map[], 0;
    }

    /** The search-then-overwrite loop of `mergeOperation`. */
    method MergeStep(operation: Operation)
      modifies this`operations
      ensures View() == Merge(old(View()), Step(operation))
    {
      var index := -1;
      var i := 0;
      while i < |operations|
        invariant 0 <= i <= |operations| && index == -1 && operations == old(operations)
        invariant forall j :: 0 <= j < i ==> !SameOperation(operations[j], operation)
      {
        if TrimSpace(operations[i].id) == TrimSpace(operation.id) {
          index := i;
          break;
        }
        i := i + 1;
      }
      MergeOperationAt(operations, operation);
      if index >= 0 {
        var merged := operations[index];
        if TrimSpace(operation.name) != "" { merged := merged.(name := operation.name); }
        if TrimSpace(operation.status) != "" { merged := merged.(status := operation.status); }
        if TrimSpace(operation.detail) != "" { merged := merged.(detail := operation.detail); }
        if TrimSpace(operation.category) != "" { merged := merged.(category := operation.category); }
        if TrimSpace(operation.url) != "" { merged := merged.(url := operation.url); }
        if TrimSpace(operation.screenshotURL) != "" { merged := merged.(screenshotURL := operation.screenshotURL); }
        operations := operations[index := merged];
        return;
      }
      operations := operations + [operation];
    }

    /** The loop of `broadcast`: every channel is offered the event, and those without room are closed. */
    method OfferToAll(all: map<nat, Channel<Event>>, event: Event) returns (evicted: set<nat>)
      requires forall id :: id in all ==> !all[id].closed && all[id].capacity == CHANNEL_CAPACITY
      requires forall a, b :: a in all && b in all && a != b ==> all[a] != all[b]
      modifies all.Values
      ensures evicted == set id | id in all && |old(all[id].queue)| >= CHANNEL_CAPACITY
      ensures forall id :: id in all ==>
                && all[id].queue == Offer(old(all[id].queue), event, CHANNEL_CAPACITY)
                && all[id].closed == (id in evicted)
    {
      ghost var queues := map id | id in all :: all[id].queue;
      var todo := all.Keys;
      evicted := {};
      while todo != {}
        invariant todo <= all.Keys && evicted <= all.Keys - todo
        invariant forall id :: id in todo ==> !all[id].closed && all[id].queue == queues[id]
        invariant forall id :: id in all && id !in todo ==>
                    && (id in evicted <==> |queues[id]| >= CHANNEL_CAPACITY)
                    && all[id].queue == Offer(queues[id], event, CHANNEL_CAPACITY) && all[id].closed == (id in evicted)
        modifies all.Values
      {
        var id :| id in todo;
        var sent := all[id].TrySend(event);
        if !sent {
          all[id].Close();
          evicted := evicted + {id};
        }
        todo := todo - {id};
      }
    }

    /** Every registered channel is offered the event; the ones without room are closed and forgotten.
        The whole loop runs under the lock, so forgetting them in one assignment at its end is the same
        as deleting them one by one. */
    method Broadcast(event: Event)
      requires Valid()
      modifies this`subscribers, subscribers.Values
      ensures Valid() && Offered(old(subscribers), old(Queues()), event)
    {
      var all := subscribers;
      var evicted := OfferToAll(all, event);
      subscribers := subscribers - evicted;
    }

    ghost function Queues(): map<nat, seq<Event>>
      reads `subscribers, subscribers.Values
    {
      map id | id in subscribers :: subscribers[id].queue
    }

    /** The state after a broadcast to the channels `all`, whose queues were `queues`: each was offered the
        event; those that had room are still registered and open, the others closed and forgotten. */
    ghost predicate Offered(all: map<nat, Channel<Event>>, queues: map<nat, seq<Event>>, event: Event)
      requires all.Keys == queues.Keys
      reads `subscribers, all.Values
    {
      && (forall id :: id in subscribers <==> id in all && |queues[id]| < CHANNEL_CAPACITY)
      && (forall id :: id in subscribers ==> subscribers[id] == all[id])
      && (forall id :: id in all ==>
            && all[id].queue == Offer(queues[id], event, CHANNEL_CAPACITY)
            && all[id].closed == (|queues[id]| >= CHANNEL_CAPACITY))
    }

    /** The critical section in which an update is merged. */
    method MergeUpdate(update: Update)
      modifies `content, `reasoning, `operations
      ensures View() == Merge(old(View()), update)
      ensures content == old(content) + if update.TextDelta? then update.text else ""
      ensures reasoning == old(reasoning) + if update.Reasoning? then update.text else ""
      ensures !update.Step? ==> operations == old(operations)
    {
      match update {
        case TextDelta(text) => content := content + text;
        case Reasoning(text) => reasoning := reasoning + text;
        case Step(operation) => MergeStep(operation);
      }
    }

    /** One update of the worker, from its merge to its broadcast, when nothing comes in between. */
    method Append(update: Update)
      requires Valid()
      modifies `content, `reasoning, `operations, `subscribers, subscribers.Values
      ensures Valid()
      ensures View() == if Ignored(update) then old(View()) else Merge(old(View()), update)
      ensures content == old(content) + if update.TextDelta? then update.text else ""
      ensures reasoning == old(reasoning) + if update.Reasoning? then update.text else ""
      ensures operations ==
              if update.Step? && (TrimSpace(update.operation.id) != "" || TrimSpace(update.operation.name) != "")
              then MergeOperation(old(operations), update.operation) else old(operations)
      ensures Ignored(update) ==> subscribers == old(subscribers) && Queues() == old(Queues())
      ensures !Ignored(update) ==> Offered(old(subscribers), old(Queues()), Live(update))
    {
      if Ignored(update) {
        return;
      }
      MergeUpdate(update);
      Broadcast(Live(update));
    }

    /** Joining: a snapshot of the progress if there is anything to see and a fresh channel, or, on a
        finished run, only a final event. */
    method Subscribe()
      returns (synced: bool, sync: Progress, final: bool, event: Event, id: nat, channel: Channel<Event>)
      requires Valid()
      modifies this
      ensures Valid() && View() == old(View()) && done == old(done)
      ensures fresh(channel) && channel.queue == [] && !channel.closed
      ensures final == old(done) && sync == old(View())
      ensures final ==> event == (if errorRecorded then Error else Done) && subscribers == old(subscribers) && !synced
      ensures synced <==> !old(done)
                          && (TrimSpace(content) != "" || TrimSpace(reasoning) != "" || operations != [])
      ensures !final ==> synced == Visible(sync) && id == old(nextSubID) && nextSubID == id + 1
                         && subscribers == old(subscribers)[id := channel]
    {
      channel := new Channel<Event>(CHANNEL_CAPACITY);
      sync := Progress(content, reasoning, operations);
      id, event, synced, final := 0, Done, false, false;
      if done {
        final := true;
        if errorRecorded {
          event := Error;
        }
        return;
      }
      if TrimSpace(content) != "" || TrimSpace(reasoning) != "" || |operations| > 0 {
        synced := true;
      }
      id := nextSubID;
      nextSubID := nextSubID + 1;
      subscribers := subscribers[id := channel];
    }

    /** The closure a subscriber runs when it leaves: it closes its channel unless an eviction did. */
    method Unsubscribe(id: nat)
      requires Valid()
      modifies this`subscribers, subscribers.Values
      ensures Valid() && subscribers == old(subscribers) - {id}
      ensures id in old(subscribers) ==> old(subscribers)[id].closed
      ensures forall other :: other in old(subscribers) ==>
                old(subscribers)[other].queue == old(subscribers[other].queue)
    {
      if id in subscribers {
        var channel := subscribers[id];
        subscribers := subscribers - {id};
        channel.Close();
      } else {
        assert subscribers - {id} == subscribers;
      }
    }

    /** `complete` with nobody in between its critical sections, the one that marks the run done, the one that
        records an error, and the broadcast of the final event. */
    method Complete(failed: bool)
      requires Valid()
      modifies `done, `errorRecorded, `subscribers, subscribers.Values
      ensures Valid() && done
      ensures errorRecorded == (old(errorRecorded) || failed)
      ensures Offered(old(subscribers), old(Queues()), if failed then Error else Done)
    {
      var event := if failed then Error else Done;
      done, errorRecorded := true, errorRecorded || failed;
      assert Valid() && Queues() == old(Queues());
      Broadcast(event);
    }
  }
}

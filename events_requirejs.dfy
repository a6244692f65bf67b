/**
 The full `LocalEvent` bus: topic subscriptions, all-topics listeners, and the
 `publishers` stamp that keeps one event object from being handled twice by the
 same bus when several buses hand it on to each other.
 */
module EventsRequirejs {
  import opened Registry

  /** The identity of a bus; the source draws it from `getGUID`, here the creator supplies it. */
  type BusId = string

  /**
   An event record: the topic it is published under and the `publishers`
   stamps of the buses that have already handled this very object.
   */
  class Event {
    const message: Topic
    var publishers: set<BusId>

    constructor (message: Topic)
      ensures this.message == message && publishers == {}
    {
      this.message := message;
      publishers := {};
    }
  }

  class LocalEvent {
    const busId: BusId
    var topics: Topics
    var subId: int
    var globalSubscribeFuncs: seq<HandlerId>

    /** Tokens are pairwise distinct across all lists and none is above `subId`. */
    ghost predicate Valid()
      reads this
    {
      Invariant(topics, subId)
    }

    /** A new bus: no topics, no all-topics listeners, and the first token it issues is 0. */
    constructor (id: BusId)
      ensures Valid()
      ensures busId == id && topics == map[] && subId == -1 && globalSubscribeFuncs == []
    {
      busId := id;
      topics := map[];
      subId := -1;
      globalSubscribeFuncs := [];
    }

    /**
     Creates `topic`'s list on first use, issues the next token and pushes the
     entry at the end of the list; every other list stays as it was.
     */
    method Subscribe(topic: Topic, func: HandlerId) returns (token: int)
      requires Valid()
      modifies this
      ensures Valid()
      ensures token == old(subId) + 1 && subId == token
      ensures !TokenIn(old(topics), token)
      ensures topics == WithSubscription(old(topics), topic, Subscription(token, func))
      ensures globalSubscribeFuncs == old(globalSubscribeFuncs)
    {
      SubscribeKeepsInvariant(topics, subId, topic, func);
      ghost var before := topics;
      if topic !in topics {
        topics := topics[topic := []];
      }
      assert topics[topic] == Lookup(before, topic);
      subId := subId + 1;
      token := subId;
      topics := topics[topic := topics[topic] + [Subscription(token, func)]];
      assert topics == WithSubscription(before, topic, Subscription(token, func));
    }

    /** Appends a listener that every publish notifies, whatever its topic. */
    method SubscribeToAll(func: HandlerId)
      requires Valid()
      modifies this
      ensures Valid()
      ensures globalSubscribeFuncs == old(globalSubscribeFuncs) + [func]
      ensures topics == old(topics) && subId == old(subId)
    {
      globalSubscribeFuncs := globalSubscribeFuncs + [func];
    }

    /** Notifies every all-topics listener once, in the order they were added, with the event alone. */
    method PublishToGlobalSubscribeFuncs() returns (calls: seq<Call>)
      ensures |calls| == |globalSubscribeFuncs|
      ensures forall i :: 0 <= i < |calls| ==> calls[i] == Call(globalSubscribeFuncs[i], [])
    {
      calls := [];
      var i, len := 0, |globalSubscribeFuncs|;
      while i < len
        invariant 0 <= i <= len
        invariant calls == GlobalCalls(globalSubscribeFuncs[..i])
      {
        calls := calls + [Call(globalSubscribeFuncs[i], [])];
        i := i + 1;
      }
      assert globalSubscribeFuncs[..len] == globalSubscribeFuncs;
    }

    /**
     Publishes `event` with the further arguments `extra`. A bus that finds its
     own stamp on the event returns false and notifies nobody. Otherwise it
     stamps the event, notifies the all-topics listeners, and, when a list
     exists for the event's message (even an emptied one), invokes that list
     newest first with all the arguments and returns true.
     */
    method Publish(event: Event, extra: seq<Value>) returns (handled: bool, calls: seq<Call>)
      modifies event
      ensures busId in old(event.publishers) ==>
        !handled && calls == [] && event.publishers == old(event.publishers)
      ensures busId !in old(event.publishers) ==>
        && event.publishers == old(event.publishers) + {busId}
        && handled == (event.message in topics)
        && calls == GlobalCalls(globalSubscribeFuncs)
                    + (if event.message in topics then Dispatch(topics[event.message], extra) else [])
    {
      if busId in event.publishers {
        return false, [];
      }
      event.publishers := event.publishers + {busId};
      calls := PublishToGlobalSubscribeFuncs();
      if event.message !in topics {
        return false, calls;
      }
      var topicCalls := DispatchLoop(topics[event.message], extra);
      calls := calls + topicCalls;
      handled := true;
    }

    /**
     Removes the one entry whose token is `token`, leaving the order of the
     others and every other list as it was, and returns the token; an unknown
     token returns None and changes nothing.
     */
    method Unsubscribe(token: int) returns (r: Option<int>)
      requires Valid()
      modifies this
      ensures Valid()
      ensures r == if TokenIn(old(topics), token) then Some(token) else None
      ensures topics == WithoutToken(old(topics), token) && topics.Keys == old(topics).Keys
      ensures subId == old(subId) && globalSubscribeFuncs == old(globalSubscribeFuncs)
    {
      var found := FindToken(topics, token);
      match found {
        case None =>
          WithoutTokenAbsent(topics, token);
          r := None;
        case Some(loc) =>
          WithoutTokenAt(topics, token, loc);
          RemoveAtKeepsInvariant(topics, subId, loc);
          topics := topics[loc.topic := RemoveAt(topics[loc.topic], loc.index)];
          r := Some(token);
      }
    }
  }

  /**
   Any two buses A and B with distinct identities, and one event object that
   neither has stamped, handed on A, B, A: A and B each handle it once, with
   their all-topics listeners and their topic's list; the second visit to A is
   refused and invokes nothing, so the cycle stops whatever the buses hold.
   */
  method CycleStopsOnAnyBuses(a: LocalEvent, b: LocalEvent, event: Event, extra: seq<Value>)
    returns (first: bool, second: bool, third: bool, callsA: seq<Call>, callsB: seq<Call>, callsAgain: seq<Call>)
    requires a.busId != b.busId
    requires a.busId !in event.publishers && b.busId !in event.publishers
    modifies event
    ensures first == (event.message in a.topics) && second == (event.message in b.topics) && !third
    ensures callsA == GlobalCalls(a.globalSubscribeFuncs)
      + (if event.message in a.topics then Dispatch(a.topics[event.message], extra) else [])
    ensures callsB == GlobalCalls(b.globalSubscribeFuncs)
      + (if event.message in b.topics then Dispatch(b.topics[event.message], extra) else [])
    ensures callsAgain == []
    ensures event.publishers == old(event.publishers) + {a.busId, b.busId}
  {
    first, callsA := a.Publish(event, extra);
    second, callsB := b.Publish(event, extra);
    third, callsAgain := a.Publish(event, extra);
  }

  /**
   Two buses A and B, each with one subscriber to `topic`, and one event
   object handed on A, B, A: the first two publishes handle it, each invoking
   its own subscriber once; the second visit to A is refused and invokes
   nothing, so the cycle stops.
   */
  method CycleStops(idA: BusId, idB: BusId, topic: Topic, handlerA: HandlerId, handlerB: HandlerId)
    returns (first: bool, second: bool, third: bool, callsA: seq<Call>, callsB: seq<Call>, callsAgain: seq<Call>)
    requires idA != idB
    ensures first && second && !third
    ensures callsA == [Call(handlerA, [])] && callsB == [Call(handlerB, [])] && callsAgain == []
  {
    var a := new LocalEvent(idA);
    var b := new LocalEvent(idB);
    var _ := a.Subscribe(topic, handlerA);
    var _ := b.Subscribe(topic, handlerB);
    var event := new Event(topic);
    first, callsA := a.Publish(event, []);
    second, callsB := b.Publish(event, []);
    third, callsAgain := a.Publish(event, []);
  }
}

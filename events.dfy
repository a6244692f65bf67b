/**
 The simple `LocalEvent` bus of `utils.localEvents`: topic subscriptions and
 token-based unsubscription, with no all-topics listeners and no guard against
 handling one event twice. `publish` takes the topic string itself.
 */
module Events {
  import opened Registry

  class LocalEvent {
    var topics: Topics
    var subId: int

    /** Tokens are pairwise distinct across all lists and none is above `subId`. */
    ghost predicate Valid()
      reads this
    {
      Invariant(topics, subId)
    }

    /** A new bus: no topics, and the first token it issues is 0. */
    constructor ()
      ensures Valid()
      ensures topics == map[] && subId == -1
    {
      topics := map[];
      subId := -1;
    }

    /**
     Creates `topic`'s list on first use, issues the next token and pushes the
     entry at the end of the list; every other list stays as it was.
     */
    method Subscribe(topic: Topic, func: HandlerId) returns (token: int)
      requires Valid()
      modifies this
      ensures Valid()
      ensures token == old(subId) + 1 && subId == token
      ensures !TokenIn(old(topics), token)
      ensures topics == WithSubscription(old(topics), topic, Subscription(token, func))
    {
      SubscribeKeepsInvariant(topics, subId, topic, func);
      ghost var before := topics;
      if topic !in topics {
        topics := topics[topic := []];
      }
      assert topics[topic] == Lookup(before, topic);
      subId := subId + 1;
      token := subId;
      topics := topics[topic := topics[topic] + [Subscription(token, func)]];
      assert topics == WithSubscription(before, topic, Subscription(token, func));
    }

    /**
     Publishes `topic` with the further arguments `extra`: false, invoking
     nobody, when the topic has no list; otherwise every entry of the list,
     newest first, with all the arguments, and true, even when the list has
     been emptied by unsubscribes.
     */
    method Publish(topic: Topic, extra: seq<Value>) returns (handled: bool, calls: seq<Call>)
      ensures handled <==> topic in topics
      ensures calls == if handled then Dispatch(topics[topic], extra) else []
      ensures handled ==> |calls| == |topics[topic]|
      ensures handled ==> forall k :: 0 <= k < |calls| ==>
        calls[k] == Call(topics[topic][|calls| - 1 - k].handler, extra)
    {
      if topic !in topics {
        return false, [];
      }
      calls := DispatchLoop(topics[topic], extra);
      DispatchNewestFirst(topics[topic], extra);
      handled := true;
    }

    /**
     Removes the one entry whose token is `token`, leaving the order of the
     others and every other list as it was, and returns the token; an unknown
     token returns None and changes nothing.
     */
    method Unsubscribe(token: int) returns (r: Option<int>)
      requires Valid()
      modifies this
      ensures Valid()
      ensures r == if TokenIn(old(topics), token) then Some(token) else None
      ensures topics == WithoutToken(old(topics), token) && topics.Keys == old(topics).Keys
      ensures subId == old(subId)
    {
      var found := FindToken(topics, token);
      match found {
        case None =>
          WithoutTokenAbsent(topics, token);
          r := None;
        case Some(loc) =>
          WithoutTokenAt(topics, token, loc);
          RemoveAtKeepsInvariant(topics, subId, loc);
          topics := topics[loc.topic := RemoveAt(topics[loc.topic], loc.index)];
          r := Some(token);
      }
    }
  }

  /**
   On a bus where `func` is not subscribed to `topic`, subscribing it and then
   unsubscribing the token it got leaves `topic` with a list (so publishing it
   returns true) whose dispatch never invokes `func`.
   */
  method SubscribeThenUnsubscribe(bus: LocalEvent, topic: Topic, func: HandlerId, extra: seq<Value>)
    returns (token: int, removed: Option<int>, handled: bool, calls: seq<Call>)
    requires bus.Valid()
    requires forall j :: 0 <= j < |Lookup(bus.topics, topic)| ==> Lookup(bus.topics, topic)[j].handler != func
    modifies bus
    ensures bus.Valid()
    ensures removed == Some(token) && handled
    ensures forall c :: c in calls ==> c.handler != func
  {
    ghost var topics0, subId0 := bus.topics, bus.subId;
    token := bus.Subscribe(topic, func);
    ghost var subscribed: Topics := bus.topics;
    assert subscribed == WithSubscription(topics0, topic, Subscription(subId0 + 1, func));
    assert subscribed[topic][|subscribed[topic]| - 1].token == token;
    assert TokenIn(subscribed, token);
    removed := bus.Unsubscribe(token);
    assert bus.topics == WithoutToken(subscribed, token);
    UnsubscribedHandlerNotInvoked(topics0, subId0, topic, func, extra);
    handled, calls := bus.Publish(topic, extra);
  }
}

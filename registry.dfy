/**
 The topic registry that both variants of `LocalEvent` share: a dictionary from
 topic name to the list of subscriptions in subscription order, the counter that
 issues tokens, and what a dispatch over such a list invokes.

 Handlers are opaque callbacks; each one is named by a `HandlerId`. A dispatch is
 described by the sequence of `Call`s it makes, in order.
 */
module Registry {

  type Topic = string
  type HandlerId = nat

  /** An extra argument handed to `publish`; the bus only forwards it. */
  type Value = int

  datatype Option<T> = None | Some(value: T)

  /** One `{token, func}` entry of a topic's list. */
  datatype Subscription = Subscription(token: int, handler: HandlerId)

  /**
   One handler invocation. The first argument (the event object, or the topic
   string in the simple variant) is always passed and left implicit; `extra`
   is what follows it.
   */
  datatype Call = Call(handler: HandlerId, extra: seq<Value>)

  /** Where an entry sits: its topic and its index in that topic's list. */
  datatype Location = Location(topic: Topic, index: nat)

  type Topics = map<Topic, seq<Subscription>>

  /** The list of `t`, or the empty list when `t` has none yet. */
  function Lookup(topics: Topics, t: Topic): seq<Subscription>
  {
    if t in topics then topics[t] else []
  }

  ghost predicate ListHas(s: seq<Subscription>, tok: int)
  {
    exists j :: 0 <= j < |s| && s[j].token == tok
  }

  /** Some list of the registry holds an entry with token `tok`. */
  ghost predicate TokenIn(topics: Topics, tok: int)
  {
    exists m :: m in topics && ListHas(topics[m], tok)
  }

  /** No two entries, in one list or in two, carry the same token. */
  ghost predicate TokensDistinct(topics: Topics)
  {
    forall m1, i1, m2, i2 |
      m1 in topics && m2 in topics && 0 <= i1 < |topics[m1]| && 0 <= i2 < |topics[m2]|
      && topics[m1][i1].token == topics[m2][i2].token
      :: m1 == m2 && i1 == i2
  }

  /** Every token in the registry was issued by a counter that now stands at `subId`. */
  ghost predicate TokensIssued(topics: Topics, subId: int)
  {
    forall m, i | m in topics && 0 <= i < |topics[m]| :: 0 <= topics[m][i].token <= subId
  }

  /** The invariant of a bus's registry and its token counter. */
  ghost predicate Invariant(topics: Topics, subId: int)
  {
    subId >= -1 && TokensDistinct(topics) && TokensIssued(topics, subId)
  }

  /** The registry after `subscribe(t, …)` has created `t`'s list if need be and pushed `sub`. */
  function WithSubscription(topics: Topics, t: Topic, sub: Subscription): Topics
  {
    topics[t := Lookup(topics, t) + [sub]]
  }

  /** `s.splice(i, 1)`: the list without its `i`-th entry. */
  function RemoveAt(s: seq<Subscription>, i: nat): seq<Subscription>
    requires i < |s|
  {
    s[..i] + s[i + 1..]
  }

  /** The list without the entries whose token is `tok`, the rest in their order. */
  function Without(s: seq<Subscription>, tok: int): seq<Subscription>
  {
    if s == [] then []
    else (if s[0].token == tok then [] else [s[0]]) + Without(s[1..], tok)
  }

  /** The registry with the entries of token `tok` taken out of every list; no list is dropped. */
  function WithoutToken(topics: Topics, tok: int): Topics
  {
    map m | m in topics :: Without(topics[m], tok)
  }

  /** What a topic dispatch invokes: every entry of `s` with the same arguments, newest first. */
  function Dispatch(s: seq<Subscription>, extra: seq<Value>): seq<Call>
  {
    if s == [] then [] else Dispatch(s[1..], extra) + [Call(s[0].handler, extra)]
  }

  /** What notifying the all-topics listeners invokes: each in order, with the event alone. */
  function GlobalCalls(listeners: seq<HandlerId>): seq<Call>
  {
    seq(|listeners|, i requires 0 <= i < |listeners| => Call(listeners[i], []))
  }

  function Handlers(calls: seq<Call>): seq<HandlerId>
  {
    seq(|calls|, i requires 0 <= i < |calls| => calls[i].handler)
  }

  function SubscribedHandlers(s: seq<Subscription>): seq<HandlerId>
  {
    seq(|s|, i requires 0 <= i < |s| => s[i].handler)
  }

  // ---------------------------------------------------------------------------
  // Dispatch order

  /** The `k`-th call of a dispatch is the handler subscribed `k`-th from the end. */
  lemma {:induction false} DispatchNewestFirst(s: seq<Subscription>, extra: seq<Value>)
    ensures |Dispatch(s, extra)| == |s|
    ensures forall k :: 0 <= k < |s| ==> Dispatch(s, extra)[k] == Call(s[|s| - 1 - k].handler, extra)
  {
    if s != [] {
      DispatchNewestFirst(s[1..], extra);
    }
  }

  /** Of two entries, the one subscribed later is invoked earlier. */
  lemma LaterSubscriberRunsFirst(s: seq<Subscription>, extra: seq<Value>, i: nat, j: nat)
    requires i < j < |s|
    ensures var d := Dispatch(s, extra);
      |d| == |s| && d[|s| - 1 - j] == Call(s[j].handler, extra)
      && d[|s| - 1 - i] == Call(s[i].handler, extra) && |s| - 1 - j < |s| - 1 - i
  {
    DispatchNewestFirst(s, extra);
  }

  /** A dispatch invokes each subscribed handler exactly as often as it is subscribed. */
  lemma {:induction false} DispatchInvokesEachOnce(s: seq<Subscription>, extra: seq<Value>)
    ensures multiset(Handlers(Dispatch(s, extra))) == multiset(SubscribedHandlers(s))
  {
    if s != [] {
      DispatchInvokesEachOnce(s[1..], extra);
      var rest := Dispatch(s[1..], extra);
      assert Handlers(rest + [Call(s[0].handler, extra)]) == Handlers(rest) + [s[0].handler];
      assert SubscribedHandlers(s) == [s[0].handler] + SubscribedHandlers(s[1..]);
    }
  }

  /** A dispatch invokes only subscribed handlers, always with the publish arguments. */
  lemma InvokesOnlySubscribers(s: seq<Subscription>, extra: seq<Value>, c: Call)
    requires c in Dispatch(s, extra)
    ensures c.extra == extra
    ensures exists j :: 0 <= j < |s| && s[j].handler == c.handler
  {
    DispatchNewestFirst(s, extra);
    var k :| 0 <= k < |Dispatch(s, extra)| && Dispatch(s, extra)[k] == c;
    assert s[|s| - 1 - k].handler == c.handler;
  }

  // ---------------------------------------------------------------------------
  // Removing a token

  lemma {:induction false} WithoutAbsent(s: seq<Subscription>, tok: int)
    requires !ListHas(s, tok)
    ensures Without(s, tok) == s
  {
    if s != [] {
      assert !ListHas(s[1..], tok) by {
        forall j | 0 <= j < |s[1..]| ensures s[1..][j].token != tok {
          assert s[1..][j] == s[j + 1];
        }
      }
      WithoutAbsent(s[1..], tok);
      assert s == [s[0]] + s[1..];
    }
  }

  /** When `tok` sits at index `i` only, removing it is `splice(i, 1)`. */
  lemma {:induction false} WithoutUnique(s: seq<Subscription>, tok: int, i: nat)
    requires i < |s| && s[i].token == tok
    requires forall j :: 0 <= j < |s| && j != i ==> s[j].token != tok
    ensures Without(s, tok) == RemoveAt(s, i)
  {
    if i == 0 {
      assert !ListHas(s[1..], tok) by {
        forall j | 0 <= j < |s[1..]| ensures s[1..][j].token != tok {
          assert s[1..][j] == s[j + 1];
        }
      }
      WithoutAbsent(s[1..], tok);
    } else {
      forall j | 0 <= j < |s[1..]| && j != i - 1 ensures s[1..][j].token != tok {
        assert s[1..][j] == s[j + 1];
      }
      WithoutUnique(s[1..], tok, i - 1);
      assert s[..i] == [s[0]] + s[1..][..i - 1];
      assert s[i + 1..] == s[1..][i..];
    }
  }

  /** An unknown token leaves the registry as it is. */
  lemma WithoutTokenAbsent(topics: Topics, tok: int)
    requires !TokenIn(topics, tok)
    ensures WithoutToken(topics, tok) == topics
  {
    forall m | m in topics ensures Without(topics[m], tok) == topics[m] {
      WithoutAbsent(topics[m], tok);
    }
  }

  /**
   With distinct tokens, removing the token found at `loc` splices exactly that
   entry out of its list and leaves every other list as it is.
   */
  lemma WithoutTokenAt(topics: Topics, tok: int, loc: Location)
    requires TokensDistinct(topics)
    requires loc.topic in topics && loc.index < |topics[loc.topic]|
    requires topics[loc.topic][loc.index].token == tok
    ensures WithoutToken(topics, tok) == topics[loc.topic := RemoveAt(topics[loc.topic], loc.index)]
  {
    var t, i := loc.topic, loc.index;
    WithoutUnique(topics[t], tok, i);
    forall m | m in topics && m != t ensures Without(topics[m], tok) == topics[m] {
      WithoutAbsent(topics[m], tok);
    }
  }

  lemma RemoveAtIndex(s: seq<Subscription>, i: nat, j: nat)
    requires i < |s| && j < |s| - 1
    ensures |RemoveAt(s, i)| == |s| - 1
    ensures RemoveAt(s, i)[j] == s[if j < i then j else j + 1]
  {
  }

  /** Splicing one entry out of one list keeps the invariant. */
  lemma RemoveAtKeepsInvariant(topics: Topics, subId: int, loc: Location)
    requires Invariant(topics, subId)
    requires loc.topic in topics && loc.index < |topics[loc.topic]|
    ensures Invariant(topics[loc.topic := RemoveAt(topics[loc.topic], loc.index)], subId)
  {
    var t, i := loc.topic, loc.index;
    var after := topics[t := RemoveAt(topics[t], i)];
    // each entry of `after` is an entry of `topics`, at a position that is one-to-one
    forall m: Topic, k: int | m in after && 0 <= k < |after[m]|
      ensures m in topics && (if m == t && k >= i then k + 1 else k) < |topics[m]|
      ensures after[m][k] == topics[m][if m == t && k >= i then k + 1 else k]
    {
      if m == t { RemoveAtIndex(topics[t], i, k); }
    }
  }

  /** Removing any token keeps the invariant. */
  lemma WithoutTokenKeepsInvariant(topics: Topics, subId: int, tok: int)
    requires Invariant(topics, subId)
    ensures Invariant(WithoutToken(topics, tok), subId)
  {
    if TokenIn(topics, tok) {
      var m :| m in topics && ListHas(topics[m], tok);
      var j :| 0 <= j < |topics[m]| && topics[m][j].token == tok;
      WithoutTokenAt(topics, tok, Location(m, j));
      RemoveAtKeepsInvariant(topics, subId, Location(m, j));
    } else {
      WithoutTokenAbsent(topics, tok);
    }
  }

  // ---------------------------------------------------------------------------
  // Subscribing

  /**
   The next token `subId + 1` is fresh, and pushing an entry with it keeps the
   invariant once the counter has moved on to it.
   */
  lemma SubscribeKeepsInvariant(topics: Topics, subId: int, t: Topic, h: HandlerId)
    requires Invariant(topics, subId)
    ensures !TokenIn(topics, subId + 1)
    ensures Invariant(WithSubscription(topics, t, Subscription(subId + 1, h)), subId + 1)
  {
    var after := WithSubscription(topics, t, Subscription(subId + 1, h));
    forall m: Topic, k: int | m in after && 0 <= k < |after[m]|
      ensures m == t && k == |Lookup(topics, t)| ==> after[m][k] == Subscription(subId + 1, h)
      ensures !(m == t && k == |Lookup(topics, t)|) ==>
        m in topics && k < |topics[m]| && after[m][k] == topics[m][k]
    {
    }
  }

  /**
   Unsubscribing the token that `subscribe(t, h)` just issued gives back the
   registry as it was, except that `t` keeps the list created for it.
   */
  lemma UnsubscribeUndoesSubscribe(topics: Topics, subId: int, t: Topic, h: HandlerId)
    requires Invariant(topics, subId)
    ensures WithoutToken(WithSubscription(topics, t, Subscription(subId + 1, h)), subId + 1)
            == topics[t := Lookup(topics, t)]
  {
    var tok := subId + 1;
    var after := WithSubscription(topics, t, Subscription(tok, h));
    SubscribeKeepsInvariant(topics, subId, t, h);
    var s := Lookup(topics, t);
    assert after[t] == s + [Subscription(tok, h)];
    assert TokensDistinct(after);
    WithoutTokenAt(after, tok, Location(t, |s|));
    assert RemoveAt(after[t], |s|) == s;
    assert after[t := s] == topics[t := s];
  }

  /**
   So, after `unsubscribe(subscribe(t, h))`, publishing `t` invokes the same
   handlers as before the subscription; a handler not subscribed before is
   never invoked.
   */
  lemma UnsubscribedHandlerNotInvoked(topics: Topics, subId: int, t: Topic, h: HandlerId, extra: seq<Value>)
    requires Invariant(topics, subId)
    requires forall j :: 0 <= j < |Lookup(topics, t)| ==> Lookup(topics, t)[j].handler != h
    ensures var after := WithoutToken(WithSubscription(topics, t, Subscription(subId + 1, h)), subId + 1);
      t in after && Dispatch(after[t], extra) == Dispatch(Lookup(topics, t), extra)
      && forall c :: c in Dispatch(after[t], extra) ==> c.handler != h
  {
    UnsubscribeUndoesSubscribe(topics, subId, t, h);
    forall c | c in Dispatch(Lookup(topics, t), extra) ensures c.handler != h {
      InvokesOnlySubscribers(Lookup(topics, t), extra, c);
    }
  }

  // ---------------------------------------------------------------------------
  // The loops both variants run

  /**
   The search of `unsubscribe`: topics in no particular order (the order of
   `for … in`), each list from its start. Finds the first entry with token
   `tok` in some list, or reports that there is none.
   */
  method FindToken(topics: Topics, tok: int) returns (r: Option<Location>)
    ensures r.None? <==> !TokenIn(topics, tok)
    ensures r.Some? ==>
      && r.value.topic in topics
      && r.value.index < |topics[r.value.topic]|
      && topics[r.value.topic][r.value.index].token == tok
      && forall j :: 0 <= j < r.value.index ==> topics[r.value.topic][j].token != tok
  {
    var pending := topics.Keys;
    while pending != {}
      invariant pending <= topics.Keys
      invariant forall m :: m in topics && m !in pending ==> !ListHas(topics[m], tok)
      decreases |pending|
    {
      var m :| m in pending;
      var list := topics[m];
      var i := 0;
      while i < |list|
        invariant 0 <= i <= |list|
        invariant forall j :: 0 <= j < i ==> list[j].token != tok
      {
        if list[i].token == tok {
          return Some(Location(m, i));
        }
        i := i + 1;
      }
      pending := pending - {m};
    }
    return None;
  }

  /** The `while (len--)` loop of `publish`: the list from its last entry down to its first. */
  method DispatchLoop(subscribers: seq<Subscription>, extra: seq<Value>) returns (calls: seq<Call>)
    ensures calls == Dispatch(subscribers, extra)
  {
    calls := [];
    var len := |subscribers|;
    while len > 0
      invariant 0 <= len <= |subscribers|
      invariant calls == Dispatch(subscribers[len..], extra)
    {
      len := len - 1;
      assert subscribers[len..][1..] == subscribers[len + 1..];
      calls := calls + [Call(subscribers[len].handler, extra)];
    }
  }
}

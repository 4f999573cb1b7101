/** The event bus: subscription matching and removal. */
module EventBus {
  import opened Options

  datatype Subscription = Subscription(id: string, eventType: string, async: bool)

  function CutSuffix(s: string, suffix: string): Option<string> {
    if |s| >= |suffix| && s[|s| - |suffix|..] == suffix then Some(s[..|s| - |suffix|]) else None
  }

  lemma CutSuffixInverts(p: string, s: string, suffix: string)
    ensures CutSuffix(s, suffix) == Some(p) <==> s == p + suffix
  {
    if s == p + suffix {
      assert s[|s| - |suffix|..] == suffix && s[..|s| - |suffix|] == p;
    }
  }

  /** The tests `matchSubscriptions` makes, in its order. */
  predicate Matches(pattern: string, eventType: string) {
    || pattern == "*"
    || pattern == eventType
    || (var prefix := CutSuffix(pattern, ".*");
        prefix.Some? && |eventType| > |prefix.value| && eventType[..|prefix.value|] == prefix.value && eventType[|prefix.value|] == '.')
  }

  /** What a pattern means: everything, one type, or every type below a dotted prefix. */
  lemma MatchesMeaning(pattern: string, eventType: string)
    ensures Matches(pattern, eventType) <==>
              || pattern == "*"
              || pattern == eventType
              || exists p: string, rest: string :: pattern == p + ".*" && eventType == p + "." + rest
  {
    var prefix := CutSuffix(pattern, ".*");
    if prefix.Some? && |eventType| > |prefix.value| && eventType[..|prefix.value|] == prefix.value && eventType[|prefix.value|] == '.' {
      CutSuffixInverts(prefix.value, pattern, ".*");
      assert eventType == prefix.value + "." + eventType[|prefix.value| + 1..];
    }
    if p: string, rest: string :| pattern == p + ".*" && eventType == p + "." + rest {
      CutSuffixInverts(p, pattern, ".*");
      assert eventType[..|p|] == p;
    }
  }

  function Matching(subs: seq<Subscription>, eventType: string): seq<Subscription> {
    if subs == [] then []
    else Matching(subs[..|subs| - 1], eventType)
         + if Matches(subs[|subs| - 1].eventType, eventType) then [subs[|subs| - 1]] else []
  }

  /** A delivery list holds each subscription as often as it is registered, if it matches, and else not at all. */
  lemma {:induction false} MatchingSelects(subs: seq<Subscription>, eventType: string, x: Subscription)
    ensures multiset(Matching(subs, eventType))[x] == if Matches(x.eventType, eventType) then multiset(subs)[x] else 0
  {
    if subs != [] {
      var front, last := subs[..|subs| - 1], subs[|subs| - 1];
      MatchingSelects(front, eventType, x);
      assert subs == front + [last];
    }
  }

  /** Deliveries go in the order of registration: later subscriptions only add to the end of the list. */
  lemma {:induction false} MatchingInOrder(subs: seq<Subscription>, more: seq<Subscription>, eventType: string)
    ensures Matching(subs + more, eventType) == Matching(subs, eventType) + Matching(more, eventType)
  {
    if more == [] {
      assert subs + more == subs;
    } else {
      var all := subs + more;
      assert all[..|all| - 1] == subs + more[..|more| - 1] && all[|all| - 1] == more[|more| - 1];
      MatchingInOrder(subs, more[..|more| - 1], eventType);
    }
  }

  ghost predicate DistinctIds(subs: seq<Subscription>) {
    forall i, j :: 0 <= i < j < |subs| ==> subs[i].id != subs[j].id
  }

  class Bus {
    var subscriptions: seq<Subscription>

    constructor ()
      ensures subscriptions == []
    {
      subscriptions := [];
    }

    /** `id` stands for the generated identifier. */
    method SubscribeNamed(id: string, eventType: string, async: bool)
      requires DistinctIds(subscriptions) && forall s :: s in subscriptions ==> s.id != id
      modifies this
      ensures DistinctIds(subscriptions)
      ensures subscriptions == old(subscriptions) + [Subscription(id, eventType, async)]
    {
      subscriptions := subscriptions + [Subscription(id, eventType, async)];
    }

    /** Removes exactly the subscription with that ID; the last one takes its place, so only the order may change. */
    method Unsubscribe(subID: string) returns (found: bool)
      requires DistinctIds(subscriptions)
      modifies this
      ensures DistinctIds(subscriptions)
      ensures !found ==> subscriptions == old(subscriptions)
      ensures found ==> exists s: Subscription :: s.id == subID && RemovesOne(old(subscriptions), s, subscriptions)
      ensures forall s :: s in subscriptions ==> s.id != subID
    {
      for i := 0 to |subscriptions|
        invariant subscriptions == old(subscriptions)
        invariant forall k :: 0 <= k < i ==> subscriptions[k].id != subID
      {
        if subscriptions[i].id == subID {
          var last := |subscriptions| - 1;
          var rest := subscriptions[i := subscriptions[last]][..last];
          RemovedBySwap(subscriptions, i, rest);
          subscriptions := rest;
          return true;
        }
      }
      return false;
    }

    method MatchSubscriptions(eventType: string) returns (matched: seq<Subscription>)
      ensures matched == Matching(subscriptions, eventType)
    {
      matched := [];
      for i := 0 to |subscriptions|
        invariant matched == Matching(subscriptions[..i], eventType)
      {
        var sub := subscriptions[i];
        assert subscriptions[..i + 1][..i] == subscriptions[..i];
        if sub.eventType == "*" {
          matched := matched + [sub];
          continue;
        }
        if sub.eventType == eventType {
          matched := matched + [sub];
          continue;
        }
        var prefix := CutSuffix(sub.eventType, ".*");
        if prefix.Some? && |eventType| > |prefix.value| && eventType[..|prefix.value|] == prefix.value && eventType[|prefix.value|] == '.' {
          matched := matched + [sub];
        }
      }
      assert subscriptions[..|subscriptions|] == subscriptions;
    }
  }

  ghost predicate RemovesOne(subs: seq<Subscription>, gone: Subscription, rest: seq<Subscription>) {
    gone in subs && multiset(rest) == multiset(subs) - multiset{gone}
  }

  lemma RemovedBySwap(subs: seq<Subscription>, i: nat, rest: seq<Subscription>)
    requires DistinctIds(subs) && i < |subs| && rest == subs[i := subs[|subs| - 1]][..|subs| - 1]
    ensures DistinctIds(rest) && RemovesOne(subs, subs[i], rest)
    ensures forall s :: s in rest ==> s.id != subs[i].id
  {
    var last := |subs| - 1;
    assert subs == subs[..last] + [subs[last]];
    assert subs[i := subs[last]] == rest + [subs[last]];
  }
}

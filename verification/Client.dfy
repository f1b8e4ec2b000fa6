/** The packet handlers of a connected client (broker/client.go, broker/subscribe.go,
    broker/unsubscribe.go, broker/publish.go). */
module BrokerClient {
  import opened Basics
  import opened TopicLevels
  import opened Packets
  import opened SubscriptionTree
  import RetainedTree
  import opened MemTopicsProvider
  import opened Subscriptions
  import opened Session
  import opened AwaitWindow
  import Outbox

  /** Where fresh subscription records come from. */
  class AddressSpace {
    var next: nat

    constructor ()
      ensures next == 0
    {
      next := 0;
    }
  }

  /** The topic a filter of a SUBSCRIBE packet is looked up under in the retained tree. */
  ghost function LookedUp(t: Bytes): Path {
    if ParseFilter(t).BadShare? then [] else Tokenize(ParseFilter(t).topic).levels
  }

  /** How often a retained message is fetched for the first n filters of a SUBSCRIBE packet. */
  ghost function Fetched(t: RetainedTree.RTree, topics: seq<Bytes>, qoss: seq<Byte>, m: PublishPacket, n: nat): nat
    requires n <= |topics| == |qoss|
  {
    if n == 0 then 0
    else if Accepts(topics[n - 1], qoss[n - 1]) then
      Fetched(t, topics, qoss, m, n - 1) + |RetainedTree.Hits(t, LookedUp(topics[n - 1]), m)|
    else Fetched(t, topics, qoss, m, n - 1)
  }

  ghost predicate Gathered(t: RetainedTree.RTree, topics: seq<Bytes>, qoss: seq<Byte>, n: nat,
                           msgs0: seq<PublishPacket>, msgs: seq<PublishPacket>)
    requires n <= |topics| == |qoss|
  {
    forall m :: multiset(msgs)[m] == multiset(msgs0)[m] + Fetched(t, topics, qoss, m, n)
  }

  /** The messages fetched for one filter. */
  ghost predicate FetchedFor(t: RetainedTree.RTree, filter: Bytes, q: Byte,
                             msgs0: seq<PublishPacket>, msgs: seq<PublishPacket>)
  {
    if Accepts(filter, q) then RetainedTree.Found(t, LookedUp(filter), msgs0, msgs) else msgs == msgs0
  }

  lemma GatherOneMore(t: RetainedTree.RTree, topics: seq<Bytes>, qoss: seq<Byte>, n: nat,
                      msgs0: seq<PublishPacket>, before: seq<PublishPacket>, after: seq<PublishPacket>)
    requires n < |topics| == |qoss|
    requires Gathered(t, topics, qoss, n, msgs0, before)
    requires FetchedFor(t, topics[n], qoss[n], before, after)
    ensures Gathered(t, topics, qoss, n + 1, msgs0, after)
  {
    forall m
      ensures multiset(after)[m] == multiset(msgs0)[m] + Fetched(t, topics, qoss, m, n + 1)
    {
      assert multiset(before)[m] == multiset(msgs0)[m] + Fetched(t, topics, qoss, m, n);
    }
  }

  /** The return codes for the first n filters. */
  ghost function ReturnCodes(topics: seq<Bytes>, qoss: seq<Byte>, n: nat): (codes: seq<Byte>)
    requires n <= |topics| == |qoss|
    ensures |codes| == n && forall i :: 0 <= i < n ==> codes[i] == ReturnCode(topics[i], qoss[i])
  {
    if n == 0 then [] else ReturnCodes(topics, qoss, n - 1) + [ReturnCode(topics[n - 1], qoss[n - 1])]
  }

  /** SUBACK with these codes, and after it all of the gathered messages exactly when it could be
      written. */
  ghost predicate Answers(answer: seq<Packet>, id: nat, codes: seq<Byte>, msgs: seq<PublishPacket>, acked: bool) {
    && |answer| == 1 + (if acked then |msgs| else 0)
    && answer[0] == Suback(id, codes)
    && forall i :: 1 <= i < |answer| ==> answer[i] == Publish(msgs[i - 1])
  }

  lemma {:induction false} PublishesCount(packets: seq<Packet>, msgs: seq<PublishPacket>, m: PublishPacket)
    requires |packets| == |msgs| && forall i :: 0 <= i < |msgs| ==> packets[i] == Publish(msgs[i])
    ensures multiset(packets)[Publish(m)] == multiset(msgs)[m]
  {
    if msgs != [] {
      var n := |msgs| - 1;
      PublishesCount(packets[..n], msgs[..n], m);
      assert packets == packets[..n] + [packets[n]] && msgs == msgs[..n] + [msgs[n]];
    }
  }

  /** How often a message is in an answer. */
  lemma AnswerCounts(answer: seq<Packet>, id: nat, codes: seq<Byte>, msgs: seq<PublishPacket>, acked: bool,
                     m: PublishPacket)
    requires Answers(answer, id, codes, msgs, acked)
    ensures multiset(answer)[Publish(m)] == if acked then multiset(msgs)[m] else 0
  {
    assert answer == [answer[0]] + answer[1..];
    if acked {
      PublishesCount(answer[1..], msgs, m);
    }
  }

  /** What SUBSCRIBE asks of the topic provider for one filter: drop the old entry, index the new
      one, fetch the retained messages. */
  method IndexFilter(mt: MemTopics, subMap: map<Bytes, Subscription>, t: Bytes, sub: Subscription,
                     rmsgs: seq<PublishPacket>)
    returns (code: Byte, ok: bool, msgs: seq<PublishPacket>)
    requires mt.Valid() && !ParseFilter(t).BadShare? && sub.topic == ParseFilter(t).topic
    modifies mt.sroot.Repr
    ensures mt.Valid() && mt.rroot.tree == old(mt.rroot.tree)
    ensures fresh(mt.sroot.Repr - old(mt.sroot.Repr))
    ensures mt.sroot.tree == Reindexed(old(mt.sroot.tree), subMap, t, sub)
    ensures ok == Accepts(t, sub.qos) && code == ReturnCode(t, sub.qos)
    ensures FetchedFor(mt.rroot.tree, t, sub.qos, rmsgs, msgs)
  {
    ReindexedGood(mt.sroot.tree, subMap, t, sub);
    if t in subMap {
      var oldSub := subMap[t];
      var gone := mt.Unsubscribe(oldSub.topic, Some(oldSub));
    }
    code, ok := mt.Subscribe(sub.topic, sub.qos, Some(sub));
    msgs := rmsgs;
    if ok {
      TokenizeSpec(sub.topic);
      var found;
      found, msgs := mt.Retained(sub.topic, rmsgs);
    }
  }

  ghost function Reindexed(tree: STree, subMap: map<Bytes, Subscription>, t: Bytes, sub: Subscription): STree
    requires GoodTree(tree)
  {
    ReindexedGood(tree, subMap, t, sub);
    var tree1 := if t in subMap then Unsubscribed(tree, subMap[t].topic, Some(subMap[t])) else tree;
    Subscribed(tree1, sub.topic, sub.qos, Some(sub))
  }

  lemma SubscribeOneParts(v: State, client: nat, t: Bytes, q: Byte)
    requires GoodTree(v.tree) && !ParseFilter(t).BadShare?
    ensures var s := NewSubscription(v.nextSub, client, t, q);
      SubscribeOne(v, client, t, q) == State(
        Reindexed(v.tree, v.subMap, t, s),
        if Accepts(t, q) then (v.subMap - {t})[t := s] else v.subMap - {t},
        if Accepts(t, q) then v.session[t := q] else v.session,
        v.nextSub + 1)
  {
    if t !in v.subMap {
      assert v.subMap - {t} == v.subMap;
    }
  }

  lemma ReindexedGood(tree: STree, subMap: map<Bytes, Subscription>, t: Bytes, sub: Subscription)
    requires GoodTree(tree)
    ensures t in subMap ==> GoodTree(Unsubscribed(tree, subMap[t].topic, Some(subMap[t])))
  {
    if t in subMap {
      SubscribedGood(tree, subMap[t].topic, 0, Some(subMap[t]));
    }
  }

  /** What PUBLISH asks of the topic provider, and whom it hands the message to. */
  method Route(mt: MemTopics, packet: PublishPacket, subs0: seq<Subscription>, qoss0: seq<Byte>)
    returns (handed: seq<Subscription>, subs: seq<Subscription>, qoss: seq<Byte>)
    requires mt.Valid()
    modifies mt.rroot.Repr
    ensures mt.Valid() && mt.sroot.tree == old(mt.sroot.tree)
    ensures mt.rroot.tree == if packet.retain then AfterRetain(old(mt.rroot.tree), packet) else old(mt.rroot.tree)
    ensures RoutedTo(mt.sroot.tree, packet, handed)
  {
    if packet.retain {
      var retained := mt.Retain(packet);
    }
    var ok;
    ok, subs, qoss := mt.Subscribers(packet.topicName, packet.qos, subs0, qoss0);
    handed := [];
    if ok {
      handed := PickTargets(subs, mt.sroot.tree, Tokenize(packet.topicName).levels);
    }
  }

  /** The message fans out over the tree, unless its QoS is invalid or the look-up fails. */
  ghost predicate RoutedTo(t: STree, packet: PublishPacket, handed: seq<Subscription>) {
    if ValidQos(packet.qos) && !WalkFails(t, Tokenize(packet.topicName))
    then FanOut(t, Tokenize(packet.topicName).levels, handed)
    else handed == []
  }

  /** PUBACK for QoS 1, PUBREC for QoS 2 when the id is registered, nothing otherwise. */
  ghost function Acknowledged(s: Outbox.Link, packet: PublishPacket, w: Window): Outbox.Link {
    if packet.qos == 1 then Outbox.Sent(s, Puback(packet.messageId))
    else if packet.qos == 2 && Registers(w, packet.messageId) then Outbox.Sent(s, Pubrec(packet.messageId))
    else s
  }

  /** The receive window takes one more id. */
  ghost predicate HasRoom(w: Window) {
    w.limit == 0 || |w.since| < w.limit
  }

  /** A QoS 0 message is routed at once, the others when their acknowledgement was written, QoS 2 only
      when its id was registered. */
  ghost predicate MayRoute(packet: PublishPacket, w: Window, acked: bool) {
    || packet.qos == 0
    || (packet.qos == 1 && acked)
    || (packet.qos == 2 && Registers(w, packet.messageId) && acked)
  }

  class Client {
    const id: nat
    const topicsMgr: MemTopics
    const session: ClientSession
    const space: AddressSpace
    const window: AwaitingRel
    const box: Outbox.ClientOutbox   // the connection, and what was written to it

    var subMap: map<Bytes, Subscription>
    var rmsgs: seq<PublishPacket>
    var subs: seq<Subscription>
    var qoss: seq<Byte>

    ghost predicate Valid()
      reads this, session, window, topicsMgr, topicsMgr.sroot, topicsMgr.rroot,
            topicsMgr.sroot.Repr, topicsMgr.rroot.Repr
    {
      topicsMgr.Valid() && session.initted && window.Valid()
    }

    /** What SUBSCRIBE and UNSUBSCRIBE of this client act on. */
    ghost function View(): State
      reads this, session, space, topicsMgr, topicsMgr.sroot
    {
      State(topicsMgr.sroot.tree, subMap, session.topics, space.next)
    }

    constructor (id: nat, topicsMgr: MemTopics, session: ClientSession, space: AddressSpace, limit: int)
      ensures this.id == id && this.topicsMgr == topicsMgr && this.session == session && this.space == space
      ensures subMap == map[] && rmsgs == []
      ensures fresh(box) && box.State() == Outbox.Link(true, map[], None, [])
      ensures fresh(window) && window.Valid() && window.window == Window(map[], multiset{}, limit)
    {
      this.id, this.topicsMgr, this.session, this.space := id, topicsMgr, session, space;
      window := new AwaitingRel(limit);
      box := new Outbox.ClientOutbox();
      subMap, rmsgs, subs, qoss := map[], [], [], [];
    }

    /** Writing to a closed client is silently dropped; a write to an open one may fail. */
    method WritePacket(p: Packet) returns (ok: bool)
      modifies box`out
      ensures box.State() == Outbox.Sent(old(box.State()), p)
      ensures !box.open ==> ok
    {
      box.WritePacket(p);
      ok := *;
      if !box.open {
        ok := true;
      }
    }

    /** `acked`: SUBACK was written. */
    method ProcessClientSubscribe(messageId: nat, topics: seq<Bytes>, requested: seq<Byte>) returns (acked: bool)
      requires Valid() && |topics| == |requested|
      modifies this`subMap, this`rmsgs, box`out, session`topics, space, topicsMgr.sroot.Repr
      ensures Valid() && topicsMgr.rroot.tree == old(topicsMgr.rroot.tree)
      ensures !box.open ==> !acked && View() == old(View()) && box.out == old(box.out) && rmsgs == old(rmsgs)
      ensures box.open ==> View() == SubscribeSome(old(View()), id, topics, requested, |topics|)
      ensures box.open ==> Gathered(topicsMgr.rroot.tree, topics, requested, |topics|, old(rmsgs), rmsgs)
      ensures box.open ==>
        && old(box.out) <= box.out
        && Answers(box.out[|old(box.out)|..], messageId, ReturnCodes(topics, requested, |topics|), rmsgs, acked)
      ensures forall m :: multiset(box.out)[Publish(m)] ==
                          multiset(old(box.out))[Publish(m)] + if acked then multiset(rmsgs)[m] else 0
    {
      if !box.open {
        return false;
      }
      var retcodes := SubscribeFilters(topics, requested);
      acked := WriteAll(messageId, retcodes);
      ghost var n := |old(box.out)|;
      assert box.out == old(box.out) + box.out[n..];
      forall m
        ensures multiset(box.out)[Publish(m)] ==
                multiset(old(box.out))[Publish(m)] + if acked then multiset(rmsgs)[m] else 0
      {
        AnswerCounts(box.out[n..], messageId, retcodes, rmsgs, acked, m);
      }
    }

    /** The loop over the filters of a SUBSCRIBE packet. */
    method SubscribeFilters(topics: seq<Bytes>, requested: seq<Byte>) returns (retcodes: seq<Byte>)
      requires Valid() && |topics| == |requested|
      modifies this`subMap, this`rmsgs, session`topics, space, topicsMgr.sroot.Repr
      ensures Valid() && topicsMgr.rroot.tree == old(topicsMgr.rroot.tree)
      ensures View() == SubscribeSome(old(View()), id, topics, requested, |topics|)
      ensures Gathered(topicsMgr.rroot.tree, topics, requested, |topics|, old(rmsgs), rmsgs)
      ensures retcodes == ReturnCodes(topics, requested, |topics|)
    {
      ghost var v, rtree, gathered := View(), topicsMgr.rroot.tree, rmsgs;
      retcodes := [];
      var i := 0;
      while i < |topics|
        invariant 0 <= i <= |topics| && GoodTree(v.tree)
        invariant Valid() && topicsMgr.rroot.tree == rtree
        invariant fresh(topicsMgr.sroot.Repr - old(topicsMgr.sroot.Repr))
        invariant View() == SubscribeSome(v, id, topics, requested, i)
        invariant retcodes == ReturnCodes(topics, requested, i)
        invariant Gathered(rtree, topics, requested, i, gathered, rmsgs)
      {
        ghost var before := rmsgs;
        var code := SubscribeFilter(topics[i], requested[i]);
        GatherOneMore(rtree, topics, requested, i, gathered, before, rmsgs);
        retcodes := retcodes + [code];
        i := i + 1;
      }
    }

    /** One iteration of the loop over the filters. */
    method SubscribeFilter(t: Bytes, q: Byte) returns (code: Byte)
      requires Valid()
      modifies this`subMap, this`rmsgs, session`topics, space, topicsMgr.sroot.Repr
      ensures Valid() && topicsMgr.rroot.tree == old(topicsMgr.rroot.tree)
      ensures fresh(topicsMgr.sroot.Repr - old(topicsMgr.sroot.Repr))
      ensures View() == SubscribeOne(old(View()), id, t, q)
      ensures code == ReturnCode(t, q)
      ensures FetchedFor(topicsMgr.rroot.tree, t, q, old(rmsgs), rmsgs)
    {
      if ParseFilter(t).BadShare? {
        return QOS_FAILURE;
      }
      var sub := NewSubscription(space.next, id, t, q);
      var ok, msgs;
      code, ok, msgs := IndexFilter(topicsMgr, subMap, t, sub, rmsgs);
      Record(t, sub, ok, msgs);
      SubscribeOneParts(old(View()), id, t, q);
    }

    /** The subMap and the session after the index was changed, and the retained messages gathered. */
    method Record(t: Bytes, sub: Subscription, ok: bool, msgs: seq<PublishPacket>)
      requires session.initted
      modifies this`subMap, this`rmsgs, session`topics, space
      ensures space.next == old(space.next) + 1 && rmsgs == msgs
      ensures subMap == if ok then (old(subMap) - {t})[t := sub] else old(subMap) - {t}
      ensures session.topics == if ok then old(session.topics)[t := sub.qos] else old(session.topics)
    {
      space.next := space.next + 1;
      subMap := subMap - {t};
      rmsgs := msgs;
      if ok {
        subMap := subMap[t := sub];
        var added := session.AddTopic(t, sub.qos);
      }
    }

    /** SUBACK, and every message gathered so far unless the SUBACK could not be written. */
    method WriteAll(messageId: nat, retcodes: seq<Byte>) returns (acked: bool)
      requires box.open
      modifies box`out
      ensures old(box.out) <= box.out
      ensures Answers(box.out[|old(box.out)|..], messageId, retcodes, rmsgs, acked)
    {
      acked := WritePacket(Suback(messageId, retcodes));
      if !acked {
        return;
      }
      ghost var n := |old(box.out)| + 1;
      var i := 0;
      while i < |rmsgs|
        invariant 0 <= i <= |rmsgs| && |box.out| == n + i
        invariant old(box.out) + [Suback(messageId, retcodes)] <= box.out
        invariant forall j :: 0 <= j < i ==> box.out[n + j] == Publish(rmsgs[j])
      {
        var written := WritePacket(Publish(rmsgs[i]));
        i := i + 1;
      }
    }

    method ProcessClientUnsubscribe(messageId: nat, topics: seq<Bytes>)
      requires Valid()
      modifies this`subMap, box`out, session`topics, topicsMgr.sroot.Repr
      ensures Valid() && topicsMgr.rroot.tree == old(topicsMgr.rroot.tree)
      ensures View() == if box.open then UnsubscribeSome(old(View()), topics, |topics|) else old(View())
      ensures box.out == if box.open then old(box.out) + [Unsuback(messageId)] else old(box.out)
    {
      if !box.open {
        return;
      }
      var i := 0;
      while i < |topics|
        invariant 0 <= i <= |topics|
        invariant Valid() && topicsMgr.rroot.tree == old(topicsMgr.rroot.tree)
        invariant topicsMgr.sroot.Repr == old(topicsMgr.sroot.Repr)
        invariant View() == UnsubscribeSome(old(View()), topics, i)
        invariant box.out == old(box.out)
      {
        UnsubscribeFilter(topics[i]);
        i := i + 1;
      }
      var ok := WritePacket(Unsuback(messageId));
    }

    method UnsubscribeFilter(t: Bytes)
      requires Valid()
      modifies this`subMap, session`topics, topicsMgr.sroot.Repr
      ensures Valid() && topicsMgr.rroot.tree == old(topicsMgr.rroot.tree)
      ensures topicsMgr.sroot.Repr == old(topicsMgr.sroot.Repr)
      ensures View() == UnsubscribeOne(old(View()), t)
    {
      if t in subMap {
        var sub := subMap[t];
        var gone := topicsMgr.Unsubscribe(sub.topic, Some(sub));
        var removed := session.RemoveTopic(t);
        subMap := subMap - {t};
      }
    }

    /** Route a message: retain it if asked to, look the subscribers up, hand it to every one that
        is not shared and to a random one of those that are. `handed` lists the calls of publish. */
    method ProcessPublishMessage(packet: PublishPacket) returns (handed: seq<Subscription>)
      requires Valid()
      modifies this`subs, this`qoss, topicsMgr.rroot.Repr
      ensures Valid() && topicsMgr.sroot.tree == old(topicsMgr.sroot.tree)
      ensures topicsMgr.rroot.tree ==
        if packet.retain then AfterRetain(old(topicsMgr.rroot.tree), packet) else old(topicsMgr.rroot.tree)
      ensures RoutedTo(topicsMgr.sroot.tree, packet, handed)
    {
      handed, subs, qoss := Route(topicsMgr, packet, subs, qoss);
    }

    /** QoS dispatch. `acked`: the acknowledgement, where one is due, was written. */
    method ProcessClientPublish(packet: PublishPacket, now: nat)
      returns (acked: bool, routed: bool, handed: seq<Subscription>)
      requires Valid()
      modifies this`subs, this`qoss, box`out, window, topicsMgr.rroot.Repr
      ensures Valid() && topicsMgr.sroot.tree == old(topicsMgr.sroot.tree)
      ensures window.window == if packet.qos == 2 then Registered(old(window.window), packet.messageId, now)
                               else old(window.window)
      ensures box.State() == Acknowledged(old(box.State()), packet, old(window.window))
      ensures box.out == old(box.out) +
        if box.open && packet.qos == 1 then [Puback(packet.messageId)]
        else if && box.open && packet.qos == 2
                && packet.messageId !in old(window.window).since && HasRoom(old(window.window))
        then [Pubrec(packet.messageId)] else []
      ensures !box.open ==> acked
      ensures packet.qos == 0 ==> routed
      ensures packet.qos == 1 ==> (routed <==> acked)
      ensures packet.qos == 2 ==>
        (routed <==> acked && packet.messageId !in old(window.window).since && HasRoom(old(window.window)))
      ensures packet.qos == 2 && routed ==> packet.messageId in window.window.since
      ensures packet.qos > 2 ==> !routed
      ensures topicsMgr.rroot.tree ==
        if routed && packet.retain then AfterRetain(old(topicsMgr.rroot.tree), packet) else old(topicsMgr.rroot.tree)
      ensures if routed then RoutedTo(topicsMgr.sroot.tree, packet, handed) else handed == []
    {
      acked, routed, handed := true, false, [];
      if packet.qos == 0 {
        routed := true;
      } else if packet.qos == 1 {
        acked := WritePacket(Puback(packet.messageId));
        routed := acked;
      } else if packet.qos == 2 {
        var registered := window.RegisterPublishPacketId(packet.messageId, now);
        if registered {
          acked := WritePacket(Pubrec(packet.messageId));
          routed := acked;
        }
      }
      if routed {
        handed := ProcessPublishMessage(packet);
      }
    }

    /** PUBREL from the client: release the id, known or not, and answer PUBCOMP. */
    method ProcessPubrel(messageId: nat)
      requires Valid()
      modifies box`out, window
      ensures Valid()
      ensures window.window == Released(old(window.window), messageId)
      ensures box.out == if box.open then old(box.out) + [Pubcomp(messageId)] else old(box.out)
    {
      var released := window.PubRel(messageId);
      var ok := WritePacket(Pubcomp(messageId));
    }
  }

  /** The fan-out loop over the looked-up subscribers: those that are not shared are served at
      once, the positions of the others are kept. */
  method ServeUnshared(subs: seq<Subscription>) returns (handed: seq<Subscription>, qsub: seq<nat>)
    ensures handed == Unshared(subs, |subs|)
    ensures qsub == SharedPositions(subs, |subs|)
  {
    handed, qsub := [], [];
    var i := 0;
    while i < |subs|
      invariant 0 <= i <= |subs|
      invariant handed == Unshared(subs, i)
      invariant qsub == SharedPositions(subs, i)
    {
      if subs[i].share {
        qsub := qsub + [i];
      } else {
        handed := handed + [subs[i]];
      }
      i := i + 1;
    }
  }

  /** One of the shared subscribers, at random, is served last. */
  method PickTargets(subs: seq<Subscription>, ghost t: STree, ghost topic: Path) returns (handed: seq<Subscription>)
    requires forall s :: multiset(subs)[s] == |Hits(t, s, topic)|
    ensures FanOut(t, topic, handed)
  {
    var qsub;
    handed, qsub := ServeUnshared(subs);
    SharedPositionsSpec(subs, |subs|);
    if |qsub| > 0 {
      var idx :| 0 <= idx < |qsub|;
      var sub := subs[qsub[idx]];
      PickShared(subs, sub);
      handed := handed + [sub];
    } else {
      PickNone(subs);
    }
    PickedFanOut(t, topic, subs, handed);
  }

  /** The subscribers that are not shared, among the first n. */
  ghost function Unshared(subs: seq<Subscription>, n: nat): seq<Subscription>
    requires n <= |subs|
  {
    if n == 0 then []
    else if subs[n - 1].share then Unshared(subs, n - 1)
    else Unshared(subs, n - 1) + [subs[n - 1]]
  }

  /** The positions of the shared subscribers among the first n. */
  ghost function SharedPositions(subs: seq<Subscription>, n: nat): seq<nat>
    requires n <= |subs|
  {
    if n == 0 then []
    else if subs[n - 1].share then SharedPositions(subs, n - 1) + [n - 1]
    else SharedPositions(subs, n - 1)
  }

  lemma {:induction false} UnsharedSpec(subs: seq<Subscription>, n: nat, s: Subscription)
    requires n <= |subs|
    ensures multiset(Unshared(subs, n))[s] == if s.share then 0 else multiset(subs[..n])[s]
  {
    if n > 0 {
      UnsharedSpec(subs, n - 1, s);
      assert subs[..n] == subs[..n - 1] + [subs[n - 1]];
    }
  }

  lemma {:induction false} UnsharedNone(subs: seq<Subscription>, n: nat)
    requires n <= |subs|
    ensures SharedCount(Unshared(subs, n)) == 0
  {
    if n > 0 {
      UnsharedNone(subs, n - 1);
      var d := Unshared(subs, n - 1);
      assert (d + [subs[n - 1]])[..|d|] == d;
    }
  }

  lemma {:induction false} SharedPositionsSpec(subs: seq<Subscription>, n: nat)
    requires n <= |subs|
    ensures forall i :: 0 <= i < |SharedPositions(subs, n)| ==>
      SharedPositions(subs, n)[i] < n && subs[SharedPositions(subs, n)[i]].share
    ensures SharedPositions(subs, n) == [] <==> forall i :: 0 <= i < n ==> !subs[i].share
  {
    if n > 0 {
      SharedPositionsSpec(subs, n - 1);
    }
  }

  /** How often a subscriber is in the list that the loop serves. */
  lemma ServedCount(subs: seq<Subscription>, s: Subscription)
    ensures multiset(Unshared(subs, |subs|))[s] == if s.share then 0 else multiset(subs)[s]
    ensures s in Unshared(subs, |subs|) ==> !s.share
  {
    UnsharedSpec(subs, |subs|, s);
    assert subs[..|subs|] == subs;
    assert s in Unshared(subs, |subs|) ==> multiset(Unshared(subs, |subs|))[s] > 0;
  }

  lemma PickShared(subs: seq<Subscription>, x: Subscription)
    requires x in subs && x.share
    ensures Picked(subs, Unshared(subs, |subs|) + [x])
  {
    var d := Unshared(subs, |subs|);
    assert (d + [x])[..|d|] == d;
    UnsharedNone(subs, |subs|);
    forall s: Subscription
      ensures !s.share ==> multiset(d + [x])[s] == multiset(subs)[s]
      ensures s.share && s in d + [x] ==> s in subs
    {
      ServedCount(subs, s);
    }
  }

  lemma PickNone(subs: seq<Subscription>)
    requires forall i :: 0 <= i < |subs| ==> !subs[i].share
    ensures Picked(subs, Unshared(subs, |subs|))
  {
    UnsharedNone(subs, |subs|);
    forall s: Subscription
      ensures !s.share ==> multiset(Unshared(subs, |subs|))[s] == multiset(subs)[s]
      ensures s in Unshared(subs, |subs|) ==> !s.share
    {
      ServedCount(subs, s);
    }
  }

  /** Every subscriber that is not shared as often as it was found, and one of the shared ones. */
  ghost predicate Picked(subs: seq<Subscription>, handed: seq<Subscription>) {
    && (forall s: Subscription :: !s.share ==> multiset(handed)[s] == multiset(subs)[s])
    && (forall s: Subscription :: s.share && s in handed ==> s in subs)
    && SharedCount(handed) == if exists s: Subscription :: s.share && s in subs then 1 else 0
  }

  lemma PickedFanOut(t: STree, topic: Path, subs: seq<Subscription>, handed: seq<Subscription>)
    requires Picked(subs, handed)
    requires forall s :: multiset(subs)[s] == |Hits(t, s, topic)|
    ensures FanOut(t, topic, handed)
  {
    forall s
      ensures s in subs <==> |Hits(t, s, topic)| > 0
    {
      assert s in subs <==> multiset(subs)[s] > 0;
    }
  }
}

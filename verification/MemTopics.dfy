/** The topic provider the broker talks to (memTopics in
    broker/persistence/topics/memtopics.go): one subscription trie and one retained trie. */
module MemTopicsProvider {
  import opened Basics
  import opened TopicLevels
  import opened TopicMatch
  import opened Trie
  import opened Packets
  import opened SubscriptionTree
  import opened SubscriptionNode
  import RetainedTree
  import opened RetainedNode

  const QOS_FAILURE: Byte := 0x80

  predicate ValidQos(q: Byte): (valid: bool)
    ensures valid <==> q <= 2
  {
    q == 0 || q == 1 || q == 2
  }

  /** What Subscribe does to the subscription tree. */
  ghost function Subscribed(t: STree, topic: Bytes, q: Byte, sub: Option<Subscription>): STree
    requires GoodTree(t)
  {
    if ValidQos(q) && sub.Some? then Insert(t, Tokenize(topic), q, sub.value) else t
  }

  /** What Unsubscribe does to the subscription tree. */
  ghost function Unsubscribed(t: STree, topic: Bytes, sub: Option<Subscription>): STree
    requires GoodTree(t)
  {
    match Remove(t, Tokenize(topic), sub)
    case Some(t') => t'
    case None => t
  }

  /** What Retain does to the tree of retained messages: an empty payload clears the topic. */
  ghost function AfterRetain(t: RetainedTree.RTree, m: PublishPacket): RetainedTree.RTree {
    if m.payload != [] then RetainedTree.RInsert(t, Tokenize(m.topicName), m)
    else match RetainedTree.RRemove(t, Tokenize(m.topicName))
      case Some(t') => t'
      case None => t
  }

  lemma SubscribedGood(t: STree, topic: Bytes, q: Byte, sub: Option<Subscription>)
    requires GoodTree(t)
    ensures GoodTree(Subscribed(t, topic, q, sub))
    ensures GoodTree(Unsubscribed(t, topic, sub))
  {
    TokensSharpLast(topic);
    if sub.Some? {
      InsertTable(t, Tokenize(topic), q, sub.value);
    }
    RemoveTable(t, Tokenize(topic), sub);
  }

  class MemTopics {
    const sroot: SNode
    const rroot: RNode

    ghost function Repr(): set<object>
      reads this, sroot, rroot
    {
      {this} + sroot.Repr + rroot.Repr
    }

    ghost predicate Valid()
      reads this, sroot, rroot, sroot.Repr, rroot.Repr
    {
      sroot.Valid() && GoodTree(sroot.tree) && rroot.Valid()
    }

    constructor ()
      ensures Valid() && fresh(Repr())
      ensures sroot.tree == Leaf(NO_ENTRY) && rroot.tree == Leaf(None)
    {
      sroot := new SNode();
      rroot := new RNode();
      new;
      LeafGood();
    }

    method Subscribe(topic: Bytes, q: Byte, sub: Option<Subscription>) returns (code: Byte, ok: bool)
      requires Valid()
      modifies sroot.Repr
      ensures Valid() && fresh(Repr() - old(Repr())) && rroot.tree == old(rroot.tree)
      ensures sroot.tree == Subscribed(old(sroot.tree), topic, q, sub)
      ensures ok <==> q <= 2 && sub.Some? && WellFormed(topic)
      ensures code == if ok then q else 128
    {
      if !ValidQos(q) {
        return QOS_FAILURE, false;
      }
      if sub.None? {
        return QOS_FAILURE, false;
      }
      // the code caps the QoS at 2 here, which a valid QoS never exceeds
      TokenizeSpec(topic);
      SubscribedGood(sroot.tree, topic, q, sub);
      ok := sroot.SInsert(topic, q, sub.value);
      code := if ok then q else QOS_FAILURE;
    }

    method Unsubscribe(topic: Bytes, sub: Option<Subscription>) returns (ok: bool)
      requires Valid()
      modifies sroot.Repr
      ensures Valid() && Repr() == old(Repr()) && rroot.tree == old(rroot.tree)
      ensures sroot.tree == Unsubscribed(old(sroot.tree), topic, sub)
      ensures ok == Remove(old(sroot.tree), Tokenize(topic), sub).Some?
    {
      SubscribedGood(sroot.tree, topic, 0, sub);
      ok := sroot.SRemove(topic, sub);
    }

    /** The result slices are refilled from scratch, unless the QoS is refused. */
    method Subscribers(topic: Bytes, q: Byte, subs0: seq<Subscription>, qoss0: seq<Byte>)
      returns (ok: bool, subs: seq<Subscription>, qoss: seq<Byte>)
      requires Valid()
      ensures ok <==> q <= 2 && !WalkFails(sroot.tree, Tokenize(topic))
      ensures ok ==> forall s :: multiset(subs)[s] == |Hits(sroot.tree, s, Tokenize(topic).levels)|
      ensures q <= 2 ==> |subs| == |qoss| && forall i :: 0 <= i < |qoss| ==> qoss[i] == q
      ensures q > 2 ==> subs == subs0 && qoss == qoss0
    {
      if !ValidQos(q) {
        return false, subs0, qoss0;
      }
      ok, subs, qoss := sroot.SMatch(topic, q, [], []);
    }

    method Retain(m: PublishPacket) returns (ok: bool)
      requires Valid()
      modifies rroot.Repr
      ensures Valid() && fresh(Repr() - old(Repr())) && sroot.tree == old(sroot.tree)
      ensures sroot.Repr == old(sroot.Repr)
      ensures rroot.tree == AfterRetain(old(rroot.tree), m)
      ensures ok <==> if m.payload == [] then RetainedTree.RRemove(old(rroot.tree), Tokenize(m.topicName)).Some?
                      else WellFormed(m.topicName)
    {
      TokenizeSpec(m.topicName);
      if |m.payload| == 0 {
        ok := rroot.RRemove(m.topicName);
      } else {
        ok := rroot.RInsertOrUpdate(m.topicName, m);
      }
    }

    method Retained(topic: Bytes, msgs0: seq<PublishPacket>)
      returns (ok: bool, msgs: seq<PublishPacket>)
      requires Valid()
      ensures ok <==> !RetainedTree.WalkFails(rroot.tree, Tokenize(topic))
      ensures ok ==> RetainedTree.Found(rroot.tree, Tokenize(topic).levels, msgs0, msgs)
      ensures msgs0 <= msgs
    {
      ok, msgs := rroot.RMatch(topic, msgs0);
    }
  }

  // ---------------------------------------------------------------------
  // The two matchers are dual
  // ---------------------------------------------------------------------

  /** In any subscription tree that holds s at F and any tree of retained messages that holds m at
      T, the topic T finds s at F exactly when the filter F finds m at T, and both happen exactly
      when section 4.7.1 of MQTT Version 3.1.1 relates F and T. */
  lemma MatchersDual(t: STree, r: RetainedTree.RTree, s: Subscription, m: PublishPacket, F: Path, T: Path)
    requires s in SubsAt(t, F) && RetainedTree.MsgAt(r, T) == Some(m)
    ensures F in SubscriptionTree.Hits(t, s, T) <==> T in RetainedTree.Hits(r, F, m)
    ensures F in SubscriptionTree.Hits(t, s, T) <==> Matches(F, T)
  {
    SubscriptionTree.InHits(t, s, T, F);
    RetainedTree.InHits(r, F, m, T);
  }

  /** Every retained message is stored under the levels of its own topic name. */
  ghost predicate Homed(r: RetainedTree.RTree) {
    forall p :: RetainedTree.MsgAt(r, p).Some? ==> p == Tokenize(RetainedTree.MsgAt(r, p).value.topicName).levels
  }

  lemma AfterRetainHomed(r: RetainedTree.RTree, m: PublishPacket)
    requires Homed(r)
    ensures Homed(AfterRetain(r, m))
  {
    var toks := Tokenize(m.topicName);
    forall p
      ensures var x := RetainedTree.MsgAt(AfterRetain(r, m), p); x.Some? ==> p == Tokenize(x.value.topicName).levels
    {
      RetainedTree.RInsertTable(r, toks, m, p);
      RetainedTree.RRemoveTable(r, toks, p);
    }
  }

  /** A message with a payload is found at the levels of its topic, and one without leaves nothing there;
      on a malformed topic the first changes nothing. */
  lemma RetainTable(r: RetainedTree.RTree, m: PublishPacket, p: Path)
    ensures m.payload != [] && WellFormed(m.topicName) ==>
      RetainedTree.MsgAt(AfterRetain(r, m), p) ==
        if p == LevelsOf(m.topicName) then Some(m) else RetainedTree.MsgAt(r, p)
    ensures m.payload == [] && WellFormed(m.topicName) ==>
      RetainedTree.MsgAt(AfterRetain(r, m), LevelsOf(m.topicName)) == None
    ensures m.payload != [] && !WellFormed(m.topicName) ==>
      RetainedTree.MsgAt(AfterRetain(r, m), p) == RetainedTree.MsgAt(r, p)
  {
    var toks := Tokenize(m.topicName);
    TokenizeSpec(m.topicName);
    RetainedTree.RInsertTable(r, toks, m, p);
    RetainedTree.RRemoveTable(r, toks, toks.levels);
  }

  lemma EmptyHomed()
    ensures Homed(Leaf(None))
  {
    forall p
      ensures RetainedTree.MsgAt(Leaf(None), p) == None
    {
      LeafTable<RetainedTree.Message>(None, p);
    }
  }

  lemma OneHome(H: set<Path>, p: Path, b: bool)
    requires forall q :: q in H ==> q == p
    requires p in H <==> b
    ensures |H| == if b then 1 else 0
  {
    assert H == if b then {p} else {};
  }

  /** With messages retained at the topics `a` and `a/b`, a PUBLISH with an empty payload to `a/b` loses
      the message at `a` too. */
  lemma ClearingChildLosesParent(parent: PublishPacket, child: PublishPacket, clear: PublishPacket)
    requires parent.topicName == [97] && child.topicName == clear.topicName == [97, SEP, 98]
    requires parent.payload != [] && child.payload != [] && clear.payload == []
    ensures var r := AfterRetain(AfterRetain(Leaf(None), parent), child);
      && RetainedTree.MsgAt(r, [[97]]) == Some(parent) && RetainedTree.MsgAt(r, [[97], [98]]) == Some(child)
      && RetainedTree.MsgAt(AfterRetain(r, clear), [[97]]) == None
  {
    SplitCons([97], [98]);
    SplitOne([97]);
    SplitOne([98]);
    assert [97] + [SEP] + [98] == [97, SEP, 98];
    TokenizeSpec([97]);
    TokenizeSpec([97, SEP, 98]);
    assert LevelsOf([97]) == [[97]] && LevelsOf([97, SEP, 98]) == [[97], [98]];
    RetainedTree.ClearingLosesParent([97], [98], parent, child);
  }

  /** smatch of a topic finds a subscription to a filter if and only if rmatch of that filter finds
      the message retained at that topic, in any topic provider, whatever else it holds; the
      subscription is indexed under its own filter only, and messages under their own topics. */
  method MatchersAgree(mt: MemTopics, filter: Bytes, topic: Bytes, s: Subscription, m: PublishPacket)
    returns (subscriptionFound: bool, messageFound: bool)
    requires mt.Valid() && WellFormed(filter) && WellFormed(topic)
    requires s in SubsAt(mt.sroot.tree, LevelsOf(filter))
    requires forall p :: s in SubsAt(mt.sroot.tree, p) ==> p == LevelsOf(filter)
    requires Homed(mt.rroot.tree)
    requires RetainedTree.MsgAt(mt.rroot.tree, LevelsOf(topic)) == Some(m)
    ensures subscriptionFound == messageFound == Matches(LevelsOf(filter), LevelsOf(topic))
  {
    TokenizeSpec(filter);
    TokenizeSpec(topic);
    var found, subs, qoss := mt.Subscribers(topic, 0, [], []);
    var walked, msgs := mt.Retained(filter, []);
    FoundIff(mt.sroot.tree, mt.rroot.tree, s, m, LevelsOf(filter), LevelsOf(topic));
    subscriptionFound := s in subs;
    messageFound := m in msgs;
    assert s in subs <==> multiset(subs)[s] > 0;
    assert m in msgs <==> multiset(msgs)[m] > 0;
  }

  lemma FoundIff(t: STree, r: RetainedTree.RTree, s: Subscription, m: PublishPacket, F: Path, T: Path)
    requires s in SubsAt(t, F) && forall p :: s in SubsAt(t, p) ==> p == F
    requires Homed(r) && RetainedTree.MsgAt(r, T) == Some(m)
    ensures |SubscriptionTree.Hits(t, s, T)| == |RetainedTree.Hits(r, F, m)| == if Matches(F, T) then 1 else 0
  {
    MatchersDual(t, r, s, m, F, T);
    OneHome(SubscriptionTree.Hits(t, s, T), F, Matches(F, T));
    forall q | q in RetainedTree.Hits(r, F, m)
      ensures q == T
    {
      RetainedTree.InHits(r, F, m, q);
    }
    OneHome(RetainedTree.Hits(r, F, m), T, Matches(F, T));
  }

  lemma OneSubscription(s: Subscription, q: Byte, filter: Tokens, p: Path)
    requires filter.ok && SharpLast(filter.levels)
    ensures GoodTree(Leaf(NO_ENTRY))
    ensures s in SubsAt(Insert(Leaf(NO_ENTRY), filter, q, s), p) <==> p == filter.levels
  {
    LeafGood();
    InsertTable(Leaf(NO_ENTRY), filter, q, s);
    LeafTable(NO_ENTRY, p);
  }

  /** In particular for a provider that holds nothing but the two. */
  method MatchersAgreeAlone(filter: Bytes, topic: Bytes, s: Subscription, m: PublishPacket)
    returns (subscriptionFound: bool, messageFound: bool)
    requires WellFormed(filter) && WellFormed(topic)
    requires m.topicName == topic && m.payload != []
    ensures subscriptionFound == messageFound == Matches(LevelsOf(filter), LevelsOf(topic))
  {
    TokenizeSpec(filter);
    TokenizeSpec(topic);
    TokensSharpLast(filter);
    var mt := new MemTopics();
    EmptyHomed();
    var code, stored := mt.Subscribe(filter, 0, Some(s));
    ghost var r := mt.rroot.tree;
    AfterRetainHomed(r, m);
    RetainedTree.RInsertTable(r, Tokenize(topic), m, LevelsOf(topic));
    var kept := mt.Retain(m);
    forall p
      ensures s in SubsAt(mt.sroot.tree, p) <==> p == LevelsOf(filter)
    {
      OneSubscription(s, 0, Tokenize(filter), p);
    }
    subscriptionFound, messageFound := MatchersAgree(mt, filter, topic, s, m);
  }
}

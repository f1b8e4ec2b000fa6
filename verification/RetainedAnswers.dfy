/** What a connection is sent in answer to its SUBSCRIBE packets: the list of gathered retained
    messages (rmsgs in broker/subscribe.go) is never reset between packets. */
module RetainedAnswers {
  import opened Basics
  import opened TopicLevels
  import opened TopicMatch
  import opened Trie
  import opened Packets
  import RetainedTree
  import opened MemTopicsProvider
  import opened Subscriptions
  import opened BrokerClient

  /** A SUBSCRIBE packet, the tree of retained messages it meets, whether its SUBACK could be written,
      and the packets written in answer to it. */
  datatype Lookup = Lookup(rtree: RetainedTree.RTree, id: nat, topics: seq<Bytes>, qoss: seq<Byte>, acked: bool,
                           answer: seq<Packet>)

  /** The i-th filter is well formed with a QoS of at most 2, and matches the topic p where m is retained. */
  ghost predicate Asks(l: Lookup, i: nat, p: Path, m: PublishPacket)
    requires i < |l.topics| == |l.qoss|
  {
    var filter := ParseFilter(l.topics[i]);
    && !filter.BadShare? && l.qoss[i] <= 2 && WellFormed(filter.topic)
    && RetainedTree.MsgAt(l.rtree, p) == Some(m) && Matches(LevelsOf(filter.topic), p)
  }

  /** Which of the first n filters ask for m, and where it is retained. */
  ghost function Asked(l: Lookup, m: PublishPacket, n: nat): set<(nat, Path)>
    requires n <= |l.topics| == |l.qoss|
  {
    set i: nat, p: Path | i < n && p in Paths(l.rtree) && Asks(l, i, p, m) :: (i, p)
  }

  /** How often the packet asks for m. */
  ghost function FetchedBy(l: Lookup, m: PublishPacket): nat
    requires |l.topics| == |l.qoss|
  {
    |Asked(l, m, |l.topics|)|
  }

  lemma AskedHere(l: Lookup, i: nat, m: PublishPacket)
    requires i < |l.topics| == |l.qoss|
    ensures forall p :: Asks(l, i, p, m) <==>
      Accepts(l.topics[i], l.qoss[i]) && p in RetainedTree.Hits(l.rtree, LookedUp(l.topics[i]), m)
    ensures forall p :: Asks(l, i, p, m) ==> p in Paths(l.rtree)
  {
    if !ParseFilter(l.topics[i]).BadShare? {
      TokenizeSpec(ParseFilter(l.topics[i]).topic);
    }
    forall p
      ensures p in RetainedTree.Hits(l.rtree, LookedUp(l.topics[i]), m) <==>
        RetainedTree.MsgAt(l.rtree, p) == Some(m) && Matches(LookedUp(l.topics[i]), p)
      ensures RetainedTree.MsgAt(l.rtree, p) == Some(m) ==> p in Paths(l.rtree)
    {
      RetainedTree.InHits(l.rtree, LookedUp(l.topics[i]), m, p);
      PathsHas(l.rtree, p);
    }
  }

  lemma {:induction false} PairsCount(i: nat, ps: set<Path>)
    ensures |set p | p in ps :: (i, p)| == |ps|
    decreases |ps|
  {
    if ps != {} {
      var x :| x in ps;
      PairsCount(i, ps - {x});
      assert (set p | p in ps :: (i, p)) == (set p | p in ps - {x} :: (i, p)) + {(i, x)};
    }
  }

  /** The i-th filter adds the places where it finds m. */
  lemma AskedOneMore(l: Lookup, m: PublishPacket, i: nat, here: set<Path>)
    requires i < |l.topics| == |l.qoss|
    requires forall p :: p in here <==> p in Paths(l.rtree) && Asks(l, i, p, m)
    ensures |Asked(l, m, i + 1)| == |Asked(l, m, i)| + |here|
  {
    var more := set p | p in here :: (i, p);
    PairsCount(i, here);
    forall x
      ensures x in Asked(l, m, i + 1) <==> x in Asked(l, m, i) || x in more
    {
    }
    assert Asked(l, m, i + 1) == Asked(l, m, i) + more;
  }

  /** The number of times the loop over the filters fetches m is the number of times they ask for it. */
  lemma {:induction false} FetchedIsAsked(l: Lookup, m: PublishPacket, n: nat)
    requires n <= |l.topics| == |l.qoss|
    ensures Fetched(l.rtree, l.topics, l.qoss, m, n) == |Asked(l, m, n)|
  {
    if n > 0 {
      var i := n - 1;
      FetchedIsAsked(l, m, i);
      AskedHere(l, i, m);
      AskedOneMore(l, m, i,
        if Accepts(l.topics[i], l.qoss[i]) then RetainedTree.Hits(l.rtree, LookedUp(l.topics[i]), m) else {});
    } else {
      assert Asked(l, m, n) == {};
    }
  }

  /** The packets of one connection, and its list before the first and after each of them. */
  ghost predicate IsConnection(ps: seq<Lookup>, lists: seq<seq<PublishPacket>>) {
    && |lists| == |ps| + 1 && lists[0] == []
    && forall j :: 0 <= j < |ps| ==> |ps[j].topics| == |ps[j].qoss| && Handled(ps[j], lists[j], lists[j + 1])
  }

  /** What the handler promises of one packet. */
  ghost predicate Handled(l: Lookup, list: seq<PublishPacket>, list': seq<PublishPacket>)
    requires |l.topics| == |l.qoss|
  {
    && Gathered(l.rtree, l.topics, l.qoss, |l.topics|, list, list')
    && Answers(l.answer, l.id, ReturnCodes(l.topics, l.qoss, |l.topics|), list', l.acked)
  }

  /** On the wire: SUBACK comes first; when it was written every message of the list follows as often as
      it is there and nothing else does; when it was not, nothing follows. */
  lemma AnswerOnWire(l: Lookup, list: seq<PublishPacket>, list': seq<PublishPacket>, m: PublishPacket)
    requires |l.topics| == |l.qoss| && Handled(l, list, list')
    ensures l.answer != [] && l.answer[0].Suback? && l.answer[0].id == l.id && |l.answer[0].codes| == |l.topics|
    ensures l.acked ==> forall i :: 1 <= i < |l.answer| ==> l.answer[i].Publish?
    ensures l.acked ==> multiset(l.answer)[Publish(m)] == multiset(list')[m]
    ensures !l.acked ==> |l.answer| == 1
  {
    AnswerCounts(l.answer, l.id, ReturnCodes(l.topics, l.qoss, |l.topics|), list', l.acked, m);
  }

  ghost function Total(ps: seq<Lookup>, m: PublishPacket, k: nat): nat
    requires k <= |ps| && forall j :: 0 <= j < |ps| ==> |ps[j].topics| == |ps[j].qoss|
  {
    if k == 0 then 0 else Total(ps, m, k - 1) + FetchedBy(ps[k - 1], m)
  }

  /** The list holds every message as often as all packets so far fetched it. */
  lemma {:induction false} Accumulates(ps: seq<Lookup>, lists: seq<seq<PublishPacket>>, k: nat, m: PublishPacket)
    requires IsConnection(ps, lists) && k <= |ps|
    ensures multiset(lists[k])[m] == Total(ps, m, k)
  {
    if k > 0 {
      Accumulates(ps, lists, k - 1, m);
      assert Handled(ps[k - 1], lists[k - 1], lists[k]);
      FetchedIsAsked(ps[k - 1], m, |ps[k - 1].topics|);
    }
  }

  /** Nothing that is retained matches a filter of the packet that is well formed and has a valid QoS. */
  ghost predicate Quiet(l: Lookup)
    requires |l.topics| == |l.qoss|
  {
    forall i: nat, p, m :: i < |l.topics| ==> !Asks(l, i, p, m)
  }

  lemma QuietIff(l: Lookup)
    requires |l.topics| == |l.qoss|
    ensures Quiet(l) <==> forall m :: FetchedBy(l, m) == 0
  {
    if Quiet(l) {
      forall m
        ensures FetchedBy(l, m) == 0
      {
        assert Asked(l, m, |l.topics|) == {};
      }
    } else {
      var i: nat, p, m :| i < |l.topics| && Asks(l, i, p, m);
      AskedHere(l, i, m);
      assert (i, p) in Asked(l, m, |l.topics|);
      assert FetchedBy(l, m) > 0;
    }
  }

  /** The messages written in answer to packet k are exactly those it asks for. */
  ghost predicate AnsweredExactly(ps: seq<Lookup>, k: nat)
    requires k < |ps| && |ps[k].topics| == |ps[k].qoss|
  {
    forall m :: multiset(ps[k].answer)[Publish(m)] == FetchedBy(ps[k], m)
  }

  lemma {:induction false} TotalAtLeast(ps: seq<Lookup>, m: PublishPacket, j: nat, k: nat)
    requires j < k <= |ps| && forall j :: 0 <= j < |ps| ==> |ps[j].topics| == |ps[j].qoss|
    ensures Total(ps, m, k) >= FetchedBy(ps[j], m)
  {
    if j < k - 1 {
      TotalAtLeast(ps, m, j, k - 1);
    }
  }

  lemma {:induction false} TotalOfQuiet(ps: seq<Lookup>, m: PublishPacket, k: nat)
    requires k <= |ps| && forall j :: 0 <= j < |ps| ==> |ps[j].topics| == |ps[j].qoss|
    requires forall j :: 0 <= j < k ==> Quiet(ps[j])
    ensures Total(ps, m, k) == 0
  {
    if k > 0 {
      TotalOfQuiet(ps, m, k - 1);
      QuietIff(ps[k - 1]);
    }
  }

  /** A SUBSCRIBE packet whose SUBACK was written is answered with exactly the messages it asks for, each
      as often, if and only if no earlier packet of the connection asked for a message. */
  lemma AnsweredExactlyIff(ps: seq<Lookup>, lists: seq<seq<PublishPacket>>, k: nat)
    requires IsConnection(ps, lists) && k < |ps| && ps[k].acked
    ensures AnsweredExactly(ps, k) <==> forall j :: 0 <= j < k ==> Quiet(ps[j])
  {
    forall m
      ensures multiset(ps[k].answer)[Publish(m)] == Total(ps, m, k) + FetchedBy(ps[k], m)
    {
      AnswerOnWire(ps[k], lists[k], lists[k + 1], m);
      Accumulates(ps, lists, k + 1, m);
    }
    if AnsweredExactly(ps, k) {
      forall j | 0 <= j < k
        ensures Quiet(ps[j])
      {
        forall m
          ensures FetchedBy(ps[j], m) == 0
        {
          assert multiset(ps[k].answer)[Publish(m)] == FetchedBy(ps[k], m);
          TotalAtLeast(ps, m, j, k);
        }
        QuietIff(ps[j]);
      }
    }
    if forall j :: 0 <= j < k ==> Quiet(ps[j]) {
      forall m
        ensures multiset(ps[k].answer)[Publish(m)] == FetchedBy(ps[k], m)
      {
        TotalOfQuiet(ps, m, k);
      }
    }
  }

  // ---------------------------------------------------------------------
  // It happens
  // ---------------------------------------------------------------------

  /** With one message retained at `a`, a client that sends SUBSCRIBE for `a` twice is sent that
      message once in answer to the first packet and twice in answer to the second. */
  lemma SecondAnswerRepeats(m: PublishPacket, ps: seq<Lookup>, lists: seq<seq<PublishPacket>>)
    requires m.topicName == TOPIC_A && m.payload != []
    requires |ps| == 2 && IsConnection(ps, lists)
    requires forall j :: 0 <= j < 2 ==>
      ps[j].rtree == AfterRetain(Leaf(None), m) && ps[j].topics == [TOPIC_A] && ps[j].qoss == [0] && ps[j].acked
    ensures multiset(ps[0].answer)[Publish(m)] == 1 && multiset(ps[1].answer)[Publish(m)] == 2
    ensures !AnsweredExactly(ps, 1)
  {
    AsksOnce(ps[0], m);
    AsksOnce(ps[1], m);
    Accumulates(ps, lists, 1, m);
    Accumulates(ps, lists, 2, m);
    AnswerOnWire(ps[0], lists[0], lists[1], m);
    AnswerOnWire(ps[1], lists[1], lists[2], m);
    assert Total(ps, m, 0) == 0 && Total(ps, m, 1) == 1;
  }

  lemma AsksOnce(l: Lookup, m: PublishPacket)
    requires m.topicName == TOPIC_A && m.payload != []
    requires l.rtree == AfterRetain(Leaf(None), m) && l.topics == [TOPIC_A] && l.qoss == [0]
    ensures FetchedBy(l, m) == 1
  {
    PlainTopic(97);
    TokenizeSpec(TOPIC_A);
    var F: Path := [TOPIC_A];
    AskedHere(l, 0, m);
    forall p
      ensures Asks(l, 0, p, m) <==> p == F
    {
      RetainTable(Leaf(None), m, p);
      LeafTable<RetainedTree.Message>(None, p);
      if p == F { assert Matches(F, F); }
    }
    assert Asked(l, m, 1) == {(0, F)};
  }
}

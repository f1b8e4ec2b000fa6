/** From a published message to the packets written to every client: the subscription index, the
    fan-out and the outgoing side of each connection put together. */
module EndToEnd {
  import opened TopicLevels
  import opened TopicMatch
  import opened Packets
  import opened SubscriptionTree
  import opened Subscriptions
  import opened Outbox

  /** The outgoing side of every client after `publish` was called for each entry in turn. */
  ghost function HandAll(links: map<nat, Link>, handed: seq<Subscription>, p: PublishPacket, now: nat)
    : (after: map<nat, Link>)
    requires forall s :: s in handed ==> s.client in links
    ensures after.Keys == links.Keys
  {
    if handed == [] then links
    else
      var n := |handed| - 1;
      var before := HandAll(links, handed[..n], p, now);
      before[handed[n].client := Published(before[handed[n].client], p, now)]
  }

  /** How many of the entries belong to client c. */
  ghost function Copies(handed: seq<Subscription>, c: nat): nat {
    if handed == [] then 0
    else Copies(handed[..|handed| - 1], c) + if handed[|handed| - 1].client == c then 1 else 0
  }

  ghost function Repeat(p: Packet, n: nat): seq<Packet> {
    if n == 0 then [] else Repeat(p, n - 1) + [p]
  }

  /** A connection after n copies were handed to it: an open one was written one packet per copy
      for QoS 0 and 1, and nothing for QoS 2; with QoS 1 the message is in flight. */
  ghost predicate Got(s: Link, p: PublishPacket, now: nat, n: nat, s': Link) {
    && s'.open == s.open
    && s'.out == s.out + (if s.open && p.qos <= 1 then Repeat(Publish(p), n) else [])
    && s'.inflight == (if p.qos == 1 && n > 0
                       then s.inflight[p.messageId := Element(AwaitingAck, p, now)] else s.inflight)
  }

  lemma GotOneMore(s: Link, p: PublishPacket, now: nat, n: nat, s': Link)
    requires Got(s, p, now, n, s')
    ensures Got(s, p, now, n + 1, Published(s', p, now))
  {
    if s.open && p.qos <= 1 {
      assert (s.out + Repeat(Publish(p), n)) + [Publish(p)] == s.out + (Repeat(Publish(p), n) + [Publish(p)]);
    }
  }

  /** Handing a message to a list of entries gives every client one copy per entry of its own. */
  lemma {:induction false} HandedToWire(links: map<nat, Link>, handed: seq<Subscription>, p: PublishPacket, now: nat,
                                        c: nat)
    requires forall s :: s in handed ==> s.client in links
    requires c in links
    ensures Got(links[c], p, now, Copies(handed, c), HandAll(links, handed, p, now)[c])
  {
    if handed != [] {
      var n := |handed| - 1;
      HandedToWire(links, handed[..n], p, now, c);
      if handed[n].client == c {
        GotOneMore(links[c], p, now, Copies(handed[..n], c), HandAll(links, handed[..n], p, now)[c]);
      }
    }
  }

  // ---------------------------------------------------------------------
  // Counting the entries of one client
  // ---------------------------------------------------------------------

  /** The filters of client c that are not shared and match the topic. */
  ghost function MatchingFilters(w: World, c: nat, topic: Path): set<Bytes>
    requires c in w.clients
  {
    var subMap := w.clients[c].subMap;
    set t | t in subMap && !subMap[t].share && Matches(PathOf(subMap[t]), topic)
  }

  ghost function SharedTo(handed: seq<Subscription>, c: nat): set<Subscription> {
    set s | s in handed && s.share && s.client == c
  }

  ghost function PlainTo(handed: seq<Subscription>, c: nat): set<Subscription> {
    set s | s in handed && !s.share && s.client == c
  }

  /** One more entry that is not in the list yet. */
  lemma OneMorePlain(front: seq<Subscription>, x: Subscription, c: nat)
    requires x !in front
    ensures |PlainTo(front + [x], c)| == |PlainTo(front, c)| + if x.client == c && !x.share then 1 else 0
  {
    assert PlainTo(front + [x], c) == PlainTo(front, c) + if x.client == c && !x.share then {x} else {};
  }

  lemma OneMoreShared(front: seq<Subscription>, x: Subscription, c: nat)
    requires x !in front
    ensures |SharedTo(front + [x], c)| == |SharedTo(front, c)| + if x.client == c && x.share then 1 else 0
  {
    assert SharedTo(front + [x], c) == SharedTo(front, c) + if x.client == c && x.share then {x} else {};
  }

  /** A list without repetitions has one entry per member. */
  lemma {:induction false} CopiesAreMembers(handed: seq<Subscription>, c: nat)
    requires NoDup(handed)
    ensures Copies(handed, c) == |PlainTo(handed, c)| + |SharedTo(handed, c)|
  {
    if handed != [] {
      var n := |handed| - 1;
      CopiesAreMembers(handed[..n], c);
      OneMorePlain(handed[..n], handed[n], c);
      OneMoreShared(handed[..n], handed[n], c);
      assert handed == handed[..n] + [handed[n]];
    }
  }

  lemma {:induction false} KeysCount(ss: set<Subscription>, keys: set<Bytes>)
    requires forall s, s' :: s in ss && s' in ss && KeyOf(s) == KeyOf(s') ==> s == s'
    requires forall t :: t in keys <==> exists s :: s in ss && KeyOf(s) == t
    ensures |keys| == |ss|
    decreases |ss|
  {
    if ss == {} {
      assert keys == {};
    } else {
      var x :| x in ss;
      var ss', keys' := ss - {x}, keys - {KeyOf(x)};
      forall t
        ensures t in keys' <==> exists s :: s in ss' && KeyOf(s) == t
      {
        if t in keys' {
          var s :| s in ss && KeyOf(s) == t;
          assert s in ss';
        }
      }
      KeysCount(ss', keys');
      assert KeyOf(x) in keys;
    }
  }

  lemma {:induction false} SharedAtMostOnce(d: seq<Subscription>, i: nat, j: nat)
    requires SharedCount(d) <= 1 && i < j < |d|
    ensures !(d[i].share && d[j].share)
    ensures SharedCount(d) == 0 ==> !d[i].share && !d[j].share
  {
    var n := |d| - 1;
    if j < n {
      SharedAtMostOnce(d[..n], i, j);
    } else {
      SharedUnique(d[..n]);
      assert d[..n][i] == d[i] && d[i] in d[..n];
    }
  }

  lemma FanOutNoDup(w: World, topic: Path, d: seq<Subscription>)
    requires Agreement(w) && FanOut(w.tree, topic, d)
    ensures NoDup(d)
  {
    Delivery(w, topic, d);
    forall i, j | 0 <= i < j < |d|
      ensures d[i] != d[j]
    {
      if d[i].share && d[j].share {
        SharedAtMostOnce(d, i, j);
      } else if d[i] == d[j] {
        TwiceInList(d, i, j);
      }
    }
  }

  lemma TwiceInList(d: seq<Subscription>, i: nat, j: nat)
    requires i < j < |d| && d[i] == d[j]
    ensures multiset(d)[d[i]] >= 2
  {
    assert d == d[..j] + [d[j]] + d[j + 1..];
    assert d[..j][i] == d[i];
  }

  /** The whole path of a message: each client is written one copy per matching filter of its own
      that is not shared, plus one if the shared pick fell on it; nothing when it is closed, and
      nothing at all when the message has QoS 2. */
  lemma PublishedToWire(w: World, links: map<nat, Link>, topic: Path, handed: seq<Subscription>,
                        p: PublishPacket, now: nat, c: nat)
    requires Agreement(w) && FanOut(w.tree, topic, handed)
    requires links.Keys == w.clients.Keys && c in links
    ensures forall s :: s in handed ==> s.client in links
    ensures |SharedTo(handed, c)| <= 1
    ensures Copies(handed, c) == |MatchingFilters(w, c, topic)| + |SharedTo(handed, c)|
    ensures Got(links[c], p, now, Copies(handed, c), HandAll(links, handed, p, now)[c])
  {
    HandedClients(w, topic, handed);
    HandedCount(w, topic, handed, c);
    HandedToWire(links, handed, p, now, c);
  }

  lemma HandedClients(w: World, topic: Path, handed: seq<Subscription>)
    requires Agreement(w) && FanOut(w.tree, topic, handed)
    ensures forall s :: s in handed ==> s.client in w.clients
  {
    Delivery(w, topic, handed);
  }

  lemma HandedCount(w: World, topic: Path, handed: seq<Subscription>, c: nat)
    requires Agreement(w) && FanOut(w.tree, topic, handed) && c in w.clients
    ensures |SharedTo(handed, c)| <= 1
    ensures Copies(handed, c) == |MatchingFilters(w, c, topic)| + |SharedTo(handed, c)|
  {
    FanOutNoDup(w, topic, handed);
    CopiesAreMembers(handed, c);
    PlainAreFilters(w, topic, handed, c);
    AtMostOneShared(handed, c);
  }

  lemma AtMostOneShared(handed: seq<Subscription>, c: nat)
    requires SharedCount(handed) <= 1
    ensures |SharedTo(handed, c)| <= 1
  {
    SharedUnique(handed);
    if SharedTo(handed, c) != {} {
      var x :| x in SharedTo(handed, c);
      assert SharedTo(handed, c) == {x};
    }
  }

  lemma PlainAreFilters(w: World, topic: Path, handed: seq<Subscription>, c: nat)
    requires Agreement(w) && FanOut(w.tree, topic, handed) && c in w.clients
    ensures |PlainTo(handed, c)| == |MatchingFilters(w, c, topic)|
  {
    Delivery(w, topic, handed);
    var subMap := w.clients[c].subMap;
    forall t
      ensures t in MatchingFilters(w, c, topic) <==> exists s :: s in PlainTo(handed, c) && KeyOf(s) == t
    {
      if t in MatchingFilters(w, c, topic) {
        assert Indexed(w, c, t);
        var s := subMap[t];
        assert Wanted(w, s, topic);
        assert multiset(handed)[s] == 1;
        assert s in PlainTo(handed, c) && KeyOf(s) == t;
      }
      if s :| s in PlainTo(handed, c) && KeyOf(s) == t {
        assert Wanted(w, s, topic);
      }
    }
    forall s, s' | s in PlainTo(handed, c) && s' in PlainTo(handed, c) && KeyOf(s) == KeyOf(s')
      ensures s == s'
    {
      assert Live(w, s) && Live(w, s');
    }
    KeysCount(PlainTo(handed, c), MatchingFilters(w, c, topic));
  }
}

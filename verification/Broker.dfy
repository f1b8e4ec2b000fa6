/** The broker with all its clients (broker/broker.go and the handlers it dispatches to): the
    agreement of client views and index is an invariant of the object, and a publication is
    carried through to the connections of the clients it is handed to. */
module Broker {
  import opened Basics
  import opened TopicLevels
  import opened TopicMatch
  import opened Packets
  import Trie
  import opened SubscriptionTree
  import opened MemTopicsProvider
  import opened Subscriptions
  import opened Session
  import AwaitWindow
  import opened Outbox
  import RetainedTree
  import opened BrokerClient
  import opened EndToEnd

  /** SUBSCRIBE and UNSUBSCRIBE have their effect on an open connection only. */
  ghost function After(w: World, open: bool, op: Op): World
    requires GoodTree(w.tree) && Enabled(w, op)
  {
    if open then Step(w, op) else w
  }

  lemma AfterSubscribe(w: World, open: bool, c: nat, topics: seq<Bytes>, requested: seq<Byte>)
    requires Agreement(w) && c in w.clients && |topics| == |requested|
    ensures var v := if open then SubscribeSome(Select(w, c), c, topics, requested, |topics|) else Select(w, c);
      After(w, open, Subscribe(c, topics, requested)) == Put(w, c, v) && Agreement(Put(w, c, v))
  {
    SubscribeKeepsAgreement(w, c, topics, requested, |topics|);
    PutSelect(w, c);
  }

  lemma AfterUnsubscribe(w: World, open: bool, c: nat, topics: seq<Bytes>)
    requires Agreement(w) && c in w.clients
    ensures var v := if open then UnsubscribeSome(Select(w, c), topics, |topics|) else Select(w, c);
      After(w, open, Unsubscribe(c, topics)) == Put(w, c, v) && Agreement(Put(w, c, v))
  {
    UnsubscribeKeepsAgreement(w, c, topics, |topics|);
    PutSelect(w, c);
  }

  /** What routing a message does to all connections: when it can be looked up, each client gets one
      copy per matching filter of its own that is not shared, plus one if the shared pick fell on it;
      otherwise nothing happens. */
  ghost predicate Outcome(w: World, links: map<nat, Link>, p: PublishPacket, handed: seq<Subscription>, now: nat,
                          links': map<nat, Link>)
  {
    && links'.Keys == links.Keys == w.clients.Keys
    && forall d :: d in links ==> Delivered(w, links[d], p, handed, now, d, links'[d])
  }

  ghost predicate Delivered(w: World, s: Link, p: PublishPacket, handed: seq<Subscription>, now: nat, d: nat, s': Link)
    requires d in w.clients
  {
    if ValidQos(p.qos) && !WalkFails(w.tree, Tokenize(p.topicName))
    then Served(w, s, p, Tokenize(p.topicName).levels, handed, now, d, s')
    else s' == s
  }

  ghost predicate Served(w: World, s: Link, p: PublishPacket, topic: Path, handed: seq<Subscription>, now: nat, d: nat,
                         s': Link)
    requires d in w.clients
  {
    && |SharedTo(handed, d)| <= 1
    && Copies(handed, d) == |MatchingFilters(w, d, topic)| + |SharedTo(handed, d)|
    && Got(s, p, now, Copies(handed, d), s')
  }

  lemma ServedOne(w: World, links: map<nat, Link>, p: PublishPacket, topic: Path, handed: seq<Subscription>, now: nat,
                  d: nat)
    requires Agreement(w) && links.Keys == w.clients.Keys && FanOut(w.tree, topic, handed) && d in links
    requires forall s :: s in handed ==> s.client in links
    ensures Served(w, links[d], p, topic, handed, now, d, HandAll(links, handed, p, now)[d])
  {
    PublishedToWire(w, links, topic, handed, p, now, d);
  }

  /** A well-formed topic and a QoS of at most 2 can be looked up. */
  lemma OutcomeServes(w: World, links: map<nat, Link>, p: PublishPacket, handed: seq<Subscription>, now: nat,
                      links': map<nat, Link>)
    requires Outcome(w, links, p, handed, now, links') && p.qos <= 2 && WellFormed(p.topicName)
    ensures forall d :: d in links ==> Served(w, links[d], p, LevelsOf(p.topicName), handed, now, d, links'[d])
  {
    TokenizeSpec(p.topicName);
    forall d | d in links
      ensures Served(w, links[d], p, LevelsOf(p.topicName), handed, now, d, links'[d])
    {
      assert Delivered(w, links[d], p, handed, now, d, links'[d]);
    }
  }

  lemma RoutedClients(w: World, p: PublishPacket, handed: seq<Subscription>)
    requires Agreement(w) && RoutedTo(w.tree, p, handed)
    ensures forall s :: s in handed ==> s.client in w.clients
  {
    if ValidQos(p.qos) && !WalkFails(w.tree, Tokenize(p.topicName)) {
      HandedClients(w, Tokenize(p.topicName).levels, handed);
    }
  }

  lemma RoutedOutcome(w: World, links: map<nat, Link>, p: PublishPacket, handed: seq<Subscription>, now: nat)
    requires Agreement(w) && links.Keys == w.clients.Keys && RoutedTo(w.tree, p, handed)
    ensures forall s :: s in handed ==> s.client in links
    ensures Outcome(w, links, p, handed, now, HandAll(links, handed, p, now))
  {
    RoutedClients(w, p, handed);
    forall d | d in links
      ensures Delivered(w, links[d], p, handed, now, d, HandAll(links, handed, p, now)[d])
    {
      if ValidQos(p.qos) && !WalkFails(w.tree, Tokenize(p.topicName)) {
        ServedOne(w, links, p, Tokenize(p.topicName).levels, handed, now, d);
      }
    }
  }

  /** From the bytes of a published topic to the wire, after any run of SUBSCRIBE and UNSUBSCRIBE packets. */
  lemma PublishedAfterAnyRun(ws: seq<World>, ops: seq<Op>, links: map<nat, Link>, p: PublishPacket,
                             handed: seq<Subscription>, now: nat, d: nat)
    requires IsRun(ws, ops) && links.Keys == ws[|ops|].clients.Keys && d in links
    requires WellFormed(p.topicName) && p.qos <= 2 && RoutedTo(ws[|ops|].tree, p, handed)
    ensures forall s :: s in handed ==> s.client in links
    ensures Served(ws[|ops|], links[d], p, LevelsOf(p.topicName), handed, now, d, HandAll(links, handed, p, now)[d])
  {
    RunsKeepAgreement(ws, ops, |ops|);
    TokenizeSpec(p.topicName);
    RoutedClients(ws[|ops|], p, handed);
    ServedOne(ws[|ops|], links, p, LevelsOf(p.topicName), handed, now, d);
  }

  lemma HandOneMore(links: map<nat, Link>, handed: seq<Subscription>, i: nat, p: PublishPacket, now: nat)
    requires i < |handed| && forall s :: s in handed ==> s.client in links
    ensures var before := HandAll(links, handed[..i], p, now);
      HandAll(links, handed[..i + 1], p, now) == before[handed[i].client := Published(before[handed[i].client], p, now)]
  {
    assert handed[..i + 1][..i] == handed[..i];
  }

  /** The retained messages after a PUBLISH packet. */
  ghost function RetainedAfter(r: RetainedTree.RTree, packet: PublishPacket, routed: bool): RetainedTree.RTree {
    if routed && packet.retain then AfterRetain(r, packet) else r
  }

  /** The receive window after a PUBLISH packet. */
  ghost function WindowAfter(w: AwaitWindow.Window, packet: PublishPacket, now: nat): AwaitWindow.Window {
    if packet.qos == 2 then AwaitWindow.Registered(w, packet.messageId, now) else w
  }

  /** An open connection gets SUBACK and the messages gathered so far, a closed one nothing. */
  ghost predicate SubscribeAnswered(r: RetainedTree.RTree, id: nat, topics: seq<Bytes>, requested: seq<Byte>,
                                    msgs: seq<PublishPacket>, s: Link, msgs': seq<PublishPacket>, acked: bool, s': Link)
    requires |topics| == |requested|
  {
    if s.open then
      && Gathered(r, topics, requested, |topics|, msgs, msgs')
      && s.out <= s'.out && s' == s.(out := s'.out)
      && Answers(s'.out[|s.out|..], id, ReturnCodes(topics, requested, |topics|), msgs', acked)
    else msgs' == msgs && s' == s
  }

  /** The view of client c, with its session seen by every client that shares it. */
  ghost function Sharing(views: map<nat, ClientView>, mates: set<nat>, c: nat): map<nat, ClientView>
    requires c in views
  {
    map d | d in views :: if d in mates then views[d].(session := views[c].session) else views[d]
  }

  ghost function Spread(w: World, mates: set<nat>, c: nat): World
    requires c in w.clients
  {
    w.(clients := Sharing(w.clients, mates, c))
  }

  /** A session that client c does not share is seen by client c only. */
  lemma SpreadAlone(w: World, c: nat)
    requires c in w.clients
    ensures Spread(w, {c}, c) == w
  {
    assert Sharing(w.clients, {c}, c) == w.clients;
  }

  lemma SpreadAgrees(w: World, mates: set<nat>, c: nat)
    requires Agreement(w) && c in w.clients
    ensures Agreement(Spread(w, mates, c))
  {
    var w' := Spread(w, mates, c);
    forall p, s, q | Holds(w'.tree, p, s, q)
      ensures Live(w', s) && p == PathOf(s)
    {
      assert Live(w, s);
    }
    forall c', t' | c' in w'.clients && t' in w'.clients[c'].subMap
      ensures Indexed(w', c', t')
    {
      assert Indexed(w, c', t');
    }
  }

  class BrokerCore {
    const topicsMgr: MemTopics
    const space: AddressSpace
    var clients: map<nat, Client>

    /** The views of all clients. */
    ghost function Views(): map<nat, ClientView>
      reads this, clients.Values, set c | c in clients :: clients[c].session
    {
      map c | c in clients :: ClientView(clients[c].subMap, clients[c].session.topics)
    }

    /** The outgoing side of all connections. */
    ghost function Links(): map<nat, Link>
      reads this, clients.Values, set c | c in clients :: clients[c].box
    {
      map c | c in clients :: clients[c].box.State()
    }

    /** Index, views and addresses: the state the subscription layer is about. */
    ghost function Global(): World
      reads this, space, topicsMgr, topicsMgr.sroot, clients.Values, set c | c in clients :: clients[c].session
    {
      World(topicsMgr.sroot.tree, Views(), space.next)
    }

    /** Client c works on this broker's index and addresses. */
    ghost predicate Serves(c: nat)
      requires c in clients
      reads this, clients[c], clients[c].session, clients[c].window
    {
      var k := clients[c];
      k.id == c && k.topicsMgr == topicsMgr && k.space == space && k.session.initted && k.window.Valid()
    }

    /** No two clients share a window or a connection; they may share a session. */
    ghost predicate Apart()
      reads this, clients.Values
    {
      forall c, d :: c in clients && d in clients && c != d ==>
        && clients[c] != clients[d] && clients[c].window != clients[d].window && clients[c].box != clients[d].box
    }

    ghost predicate Valid()
      reads this, space, topicsMgr, topicsMgr.sroot, topicsMgr.rroot,
            topicsMgr.sroot.Repr, topicsMgr.rroot.Repr, clients.Values,
            (set c | c in clients :: clients[c].session), (set c | c in clients :: clients[c].window)
    {
      && topicsMgr.Valid() && Apart()
      && (forall c :: c in clients ==> Serves(c))
      && Agreement(Global()) && Homed(topicsMgr.rroot.tree)
    }

    /** The clients that work on the session of client c. */
    ghost function Mates(c: nat): set<nat>
      requires c in clients
      reads this, clients.Values
    {
      set d | d in clients && clients[d].session == clients[c].session
    }

    constructor ()
      ensures Valid() && clients == map[] && Global() == World(Trie.Leaf(NO_ENTRY), map[], 0)
    {
      topicsMgr := new MemTopics();
      space := new AddressSpace();
      clients := map[];
      new;
      assert Views() == map[];
      InitialAgreement();
      EmptyHomed();
    }

    /** Client c is apart from every other. */
    ghost predicate Alone(c: nat)
      requires c in clients
      reads this, clients.Values
    {
      forall d :: d in clients && d != c ==>
        && clients[d] != clients[c] && clients[d].window != clients[c].window && clients[d].box != clients[c].box
    }

    /** Nothing about the other clients changed but a session they share with client c. */
    twostate predicate OnlyTouched(c: nat)
      reads this, clients.Values, (set d | d in clients :: clients[d].session),
            (set d | d in clients :: clients[d].window), (set d | d in clients :: clients[d].box)
    {
      && clients == old(clients)
      && forall d :: d in clients && d != c ==>
           && unchanged(clients[d]) && unchanged(clients[d].window) && unchanged(clients[d].box)
           && (c in clients && clients[d].session != clients[c].session ==> unchanged(clients[d].session))
    }

    twostate lemma OthersServed(c: nat)
      requires c in clients && OnlyTouched(c)
      requires old(forall d :: d in clients ==> Serves(d)) && Serves(c)
      ensures forall d :: d in clients ==> Serves(d)
    {
    }

    twostate lemma OthersLinked(c: nat)
      requires c in clients && OnlyTouched(c)
      ensures Links() == old(Links())[c := clients[c].box.State()]
    {
    }

    twostate lemma OthersView(c: nat)
      requires c in clients && OnlyTouched(c)
      ensures forall d :: d in clients && d != c ==>
        Views()[d] == (if d in Mates(c) then old(Views())[d].(session := clients[c].session.topics)
                       else old(Views())[d])
    {
    }

    twostate lemma OthersViewed(c: nat)
      requires c in clients && OnlyTouched(c)
      ensures Views() ==
        Sharing(old(Views())[c := ClientView(clients[c].subMap, clients[c].session.topics)], Mates(c), c)
    {
      OthersView(c);
    }

    /** A change of client c's view that keeps the agreement keeps the broker valid. */
    twostate lemma ViewChanged(c: nat)
      requires old(c in clients && Apart() && forall d :: d in clients ==> Serves(d))
      requires OnlyTouched(c) && Serves(c) && topicsMgr.Valid() && Homed(topicsMgr.rroot.tree)
      requires Agreement(Put(old(Global()), c, clients[c].View()))
      ensures Valid() && Global() == Spread(Put(old(Global()), c, clients[c].View()), Mates(c), c)
    {
      OthersServed(c);
      OthersViewed(c);
      SpreadAgrees(Put(old(Global()), c, clients[c].View()), Mates(c), c);
    }

    /** A handler that leaves client c's view alone leaves all views alone. */
    twostate lemma ViewKept(c: nat)
      requires old(c in clients) && OnlyTouched(c) && clients[c].View() == old(clients[c].View())
      requires clients[c].topicsMgr == topicsMgr && clients[c].space == space
      ensures Global() == old(Global())
    {
      OthersView(c);
      assert forall d :: d in clients ==> Views()[d] == old(Views())[d];
    }

    /** One client more, and nothing about the others changed. */
    twostate predicate Joined(c: nat)
      reads this, clients.Values, (set d | d in clients :: clients[d].session),
            (set d | d in clients :: clients[d].window), (set d | d in clients :: clients[d].box)
    {
      && old(c !in clients) && c in clients && clients == old(clients)[c := clients[c]]
      && forall d :: d in clients && d != c ==>
           && unchanged(clients[d]) && unchanged(clients[d].session)
           && unchanged(clients[d].window) && unchanged(clients[d].box)
    }

    twostate lemma JoinedViews(c: nat)
      requires Joined(c)
      ensures Views() == old(Views())[c := ClientView(clients[c].subMap, clients[c].session.topics)]
    {
    }

    twostate lemma JoinedLinks(c: nat)
      requires Joined(c)
      ensures Links() == old(Links())[c := clients[c].box.State()]
    {
    }

    twostate lemma JoinedServed(c: nat)
      requires Joined(c) && Serves(c) && Alone(c) && old(Apart() && forall d :: d in clients ==> Serves(d))
      ensures Apart() && forall d :: d in clients ==> Serves(d)
    {
    }

    method Join(c: nat, session: ClientSession, limit: int)
      requires c !in clients && session.initted
      modifies this
      ensures Joined(c) && Serves(c) && Alone(c)
      ensures fresh(clients[c]) && clients[c].session == session
      ensures clients[c].subMap == map[] && clients[c].box.State() == Link(true, map[], None, [])
    {
      var k := new Client(c, topicsMgr, session, space, limit);
      clients := clients[c := k];
    }

    method Admit(c: nat, session: ClientSession, limit: int)
      requires c !in clients && session.initted
      requires topicsMgr.Valid() && Apart() && forall d :: d in clients ==> Serves(d)
      modifies this
      ensures clients.Keys == old(clients).Keys + {c}
      ensures topicsMgr.Valid() && Apart() && forall d :: d in clients ==> Serves(d)
      ensures Global() == Step(old(Global()), Connect(c, old(session.topics)))
      ensures Links() == old(Links())[c := Link(true, map[], None, [])]
    {
      Join(c, session, limit);
      JoinedViews(c);
      JoinedLinks(c);
      JoinedServed(c);
    }

    /** A new connection c. */
    method OnConnect(c: nat, session: ClientSession, limit: int)
      requires Valid() && c !in clients && session.initted
      modifies this
      ensures Valid() && clients.Keys == old(clients).Keys + {c}
      ensures Global() == Step(old(Global()), Connect(c, old(session.topics)))
      ensures Links() == old(Links())[c := Link(true, map[], None, [])]
      ensures topicsMgr.rroot.tree == old(topicsMgr.rroot.tree)
    {
      ConnectKeepsAgreement(Global(), c, session.topics);
      Admit(c, session, limit);
    }

    /** A SUBSCRIBE packet of client c. */
    method OnSubscribe(c: nat, messageId: nat, topics: seq<Bytes>, requested: seq<Byte>) returns (acked: bool)
      requires Valid() && c in clients && |topics| == |requested|
      modifies clients[c], clients[c].session`topics, clients[c].box`out, space, topicsMgr.sroot.Repr
      ensures Valid() && clients == old(clients) && topicsMgr.rroot.tree == old(topicsMgr.rroot.tree)
      ensures Global() ==
        Spread(After(old(Global()), old(clients[c].box.open), Subscribe(c, topics, requested)), Mates(c), c)
      ensures Links() == old(Links())[c := clients[c].box.State()]
      ensures SubscribeAnswered(topicsMgr.rroot.tree, messageId, topics, requested, old(clients[c].rmsgs),
                                old(clients[c].box.State()), clients[c].rmsgs, acked, clients[c].box.State())
    {
      AfterSubscribe(Global(), clients[c].box.open, c, topics, requested);
      acked := SubscribeClient(c, messageId, topics, requested);
      ViewChanged(c);
      OthersLinked(c);
    }

    method SubscribeClient(c: nat, messageId: nat, topics: seq<Bytes>, requested: seq<Byte>) returns (acked: bool)
      requires c in clients && Alone(c) && Serves(c) && topicsMgr.Valid() && |topics| == |requested|
      modifies clients[c], clients[c].session`topics, clients[c].box`out, space, topicsMgr.sroot.Repr
      ensures OnlyTouched(c) && Serves(c) && topicsMgr.Valid() && topicsMgr.rroot.tree == old(topicsMgr.rroot.tree)
      ensures clients[c].View() == if old(clients[c].box.open)
                                   then SubscribeSome(old(clients[c].View()), c, topics, requested, |topics|)
                                   else old(clients[c].View())
      ensures SubscribeAnswered(topicsMgr.rroot.tree, messageId, topics, requested, old(clients[c].rmsgs),
                                old(clients[c].box.State()), clients[c].rmsgs, acked, clients[c].box.State())
    {
      acked := clients[c].ProcessClientSubscribe(messageId, topics, requested);
    }

    /** An UNSUBSCRIBE packet of client c. */
    method OnUnsubscribe(c: nat, messageId: nat, topics: seq<Bytes>)
      requires Valid() && c in clients
      modifies clients[c], clients[c].session`topics, clients[c].box`out, topicsMgr.sroot.Repr
      ensures Valid() && clients == old(clients) && topicsMgr.rroot.tree == old(topicsMgr.rroot.tree)
      ensures Global() ==
        Spread(After(old(Global()), old(clients[c].box.open), Unsubscribe(c, topics)), Mates(c), c)
      ensures Links() == old(Links())[c := Sent(old(Links())[c], Unsuback(messageId))]
    {
      AfterUnsubscribe(Global(), clients[c].box.open, c, topics);
      UnsubscribeClient(c, messageId, topics);
      ViewChanged(c);
      OthersLinked(c);
    }

    method UnsubscribeClient(c: nat, messageId: nat, topics: seq<Bytes>)
      requires c in clients && Alone(c) && Serves(c) && topicsMgr.Valid()
      modifies clients[c], clients[c].session`topics, clients[c].box`out, topicsMgr.sroot.Repr
      ensures OnlyTouched(c) && Serves(c) && topicsMgr.Valid() && topicsMgr.rroot.tree == old(topicsMgr.rroot.tree)
      ensures clients[c].View() == if old(clients[c].box.open)
                                   then UnsubscribeSome(old(clients[c].View()), topics, |topics|)
                                   else old(clients[c].View())
      ensures clients[c].box.State() == Sent(old(clients[c].box.State()), Unsuback(messageId))
    {
      clients[c].ProcessClientUnsubscribe(messageId, topics);
    }

    /** Only the connection of client c changed. */
    twostate lemma OneLink(c: nat)
      requires clients == old(clients) && c in clients
      requires forall d :: d in clients && d != c ==> unchanged(clients[d].box)
      ensures Links() == old(Links())[c := clients[c].box.State()]
    {
    }

    /** Nothing but the connections changed. */
    twostate predicate OnlyBoxes()
      reads this, space, topicsMgr, topicsMgr.sroot, topicsMgr.rroot,
            topicsMgr.sroot.Repr, topicsMgr.rroot.Repr, clients.Values,
            (set c | c in clients :: clients[c].session), (set c | c in clients :: clients[c].window)
    {
      && unchanged(this) && unchanged(space) && unchanged(topicsMgr)
      && unchanged(topicsMgr.sroot) && unchanged(topicsMgr.rroot)
      && (forall n :: n in topicsMgr.sroot.Repr ==> unchanged(n))
      && (forall n :: n in topicsMgr.rroot.Repr ==> unchanged(n))
      && forall c :: c in clients ==>
           unchanged(clients[c]) && unchanged(clients[c].session) && unchanged(clients[c].window)
    }

    twostate lemma BoxesApart()
      requires OnlyBoxes() && old(Valid())
      ensures Valid() && Global() == old(Global())
    {
    }

    method CloseOne(c: nat)
      requires Apart() && c in clients
      modifies clients[c].box`open
      ensures Links() == old(Links())[c := old(Links())[c].(open := false)] && unchanged(this)
    {
      clients[c].box.Close();
      OneLink(c);
    }

    /** The connection of client c is closed; its subscriptions stay. */
    method OnClose(c: nat)
      requires Valid() && c in clients
      modifies clients[c].box`open
      ensures Valid() && clients == old(clients) && Global() == old(Global())
      ensures Links() == old(Links())[c := old(Links())[c].(open := false)]
    {
      CloseOne(c);
      BoxesApart();
    }

    method HandOne(c: nat, p: PublishPacket, now: nat)
      requires Apart() && c in clients
      modifies clients[c].box
      ensures Links() == old(Links())[c := Published(old(Links())[c], p, now)] && unchanged(this)
    {
      clients[c].box.PublishTo(p, now);
      OneLink(c);
    }

    /** `publish` for each of the entries in turn. */
    method HandOut(handed: seq<Subscription>, p: PublishPacket, now: nat)
      requires Apart() && forall s :: s in handed ==> s.client in clients
      modifies set c | c in clients :: clients[c].box
      ensures Links() == HandAll(old(Links()), handed, p, now) && unchanged(this)
    {
      var i := 0;
      while i < |handed|
        invariant 0 <= i <= |handed|
        invariant Links() == HandAll(old(Links()), handed[..i], p, now) && unchanged(this)
      {
        HandOne(handed[i].client, p, now);
        HandOneMore(old(Links()), handed, i, p, now);
        i := i + 1;
      }
      assert handed[..i] == handed;
    }

    /** Handing out changes nothing but the connections. */
    method HandOutOnly(handed: seq<Subscription>, p: PublishPacket, now: nat)
      requires Valid() && forall s :: s in handed ==> s.client in clients
      modifies set c | c in clients :: clients[c].box
      ensures Valid() && clients == old(clients) && Global() == old(Global())
      ensures topicsMgr.rroot.tree == old(topicsMgr.rroot.tree)
      ensures forall d :: d in clients ==> clients[d].window.window == old(clients[d].window.window)
      ensures Links() == HandAll(old(Links()), handed, p, now)
    {
      HandOut(handed, p, now);
      BoxesApart();
    }

    /** A routed message goes out. */
    method Deliver(packet: PublishPacket, handed: seq<Subscription>, now: nat)
      requires Valid() && RoutedTo(Global().tree, packet, handed)
      modifies set c | c in clients :: clients[c].box
      ensures Valid() && clients == old(clients) && Global() == old(Global())
      ensures topicsMgr.rroot.tree == old(topicsMgr.rroot.tree)
      ensures forall d :: d in clients ==> clients[d].window.window == old(clients[d].window.window)
      ensures Outcome(Global(), old(Links()), packet, handed, now, Links())
    {
      RoutedOutcome(Global(), Links(), packet, handed, now);
      HandOutOnly(handed, packet, now);
    }

    /** A message of client c is acknowledged and looked up. */
    method PublishClient(c: nat, packet: PublishPacket, now: nat)
      returns (acked: bool, routed: bool, handed: seq<Subscription>)
      requires c in clients && Alone(c) && Serves(c) && topicsMgr.Valid()
      modifies clients[c], clients[c].box`out, clients[c].window, topicsMgr.rroot.Repr
      ensures OnlyTouched(c) && Serves(c) && topicsMgr.Valid()
      ensures clients[c].View() == old(clients[c].View())
      ensures clients[c].box.State() == Acknowledged(old(clients[c].box.State()), packet, old(clients[c].window.window))
      ensures routed <==> MayRoute(packet, old(clients[c].window.window), acked)
      ensures if routed then RoutedTo(topicsMgr.sroot.tree, packet, handed) else handed == []
      ensures topicsMgr.rroot.tree == RetainedAfter(old(topicsMgr.rroot.tree), packet, routed)
      ensures clients[c].window.window == WindowAfter(old(clients[c].window.window), packet, now)
    {
      acked, routed, handed := clients[c].ProcessClientPublish(packet, now);
    }

    /** A PUBLISH packet before it is handed out: the acknowledgement, the receive window and the
        retained messages. */
    method Accept(c: nat, packet: PublishPacket, now: nat)
      returns (acked: bool, routed: bool, handed: seq<Subscription>)
      requires Valid() && c in clients
      modifies clients[c], clients[c].window, topicsMgr.rroot.Repr, clients[c].box
      ensures Valid() && clients == old(clients) && Global() == old(Global())
      ensures topicsMgr.rroot.tree == RetainedAfter(old(topicsMgr.rroot.tree), packet, routed)
      ensures clients[c].window.window == WindowAfter(old(clients[c].window.window), packet, now)
      ensures Links() == old(Links())[c := Acknowledged(old(Links())[c], packet, old(clients[c].window.window))]
      ensures routed <==> MayRoute(packet, old(clients[c].window.window), acked)
      ensures if routed then RoutedTo(Global().tree, packet, handed) else handed == []
    {
      AfterRetainHomed(topicsMgr.rroot.tree, packet);
      acked, routed, handed := PublishClient(c, packet, now);
      ViewKept(c);
      OthersServed(c);
      OthersLinked(c);
    }

    /** A PUBLISH packet of client c: once it is acknowledged and routed, every connection gets what
        the subscriptions of its client ask for. */
    method OnPublish(c: nat, packet: PublishPacket, now: nat)
      returns (acked: bool, routed: bool, handed: seq<Subscription>)
      requires Valid() && c in clients
      modifies clients[c], clients[c].window, topicsMgr.rroot.Repr, set d | d in clients :: clients[d].box
      ensures Valid() && clients == old(clients) && Global() == old(Global())
      ensures topicsMgr.rroot.tree == RetainedAfter(old(topicsMgr.rroot.tree), packet, routed)
      ensures clients[c].window.window == WindowAfter(old(clients[c].window.window), packet, now)
      ensures routed <==> MayRoute(packet, old(clients[c].window.window), acked)
      ensures routed ==> RoutedTo(Global().tree, packet, handed)
      ensures var links := old(Links())[c := Acknowledged(old(Links())[c], packet, old(clients[c].window.window))];
        if routed then Outcome(Global(), links, packet, handed, now, Links()) else Links() == links
      ensures var links := old(Links())[c := Acknowledged(old(Links())[c], packet, old(clients[c].window.window))];
        routed && packet.qos <= 2 && WellFormed(packet.topicName) ==> forall d :: d in clients ==>
          Served(Global(), links[d], packet, LevelsOf(packet.topicName), handed, now, d, Links()[d])
      ensures packet.qos == 2 && routed ==>
        packet.messageId !in old(clients[c].window.window).since && packet.messageId in clients[c].window.window.since
      ensures !routed ==> topicsMgr.rroot.tree == old(topicsMgr.rroot.tree) && handed == []
    {
      acked, routed, handed := Accept(c, packet, now);
      if routed {
        ghost var links := Links();
        Deliver(packet, handed, now);
        if packet.qos <= 2 && WellFormed(packet.topicName) {
          OutcomeServes(Global(), links, packet, handed, now, Links());
        }
      }
    }

    /** A subscription that is in place when a message is published, and one made while it is retained,
        find each other under the same condition: the message retained at T is found by the filter of
        a subscription exactly when T finds that subscription. */
    lemma RetainedMeetsLive(c: nat, t: Bytes, topic: Path, m: PublishPacket)
      requires Valid() && c in clients && t in clients[c].subMap
      requires RetainedTree.MsgAt(topicsMgr.rroot.tree, topic) == Some(m)
      ensures var s := clients[c].subMap[t];
        |Hits(topicsMgr.sroot.tree, s, topic)| == |RetainedTree.Hits(topicsMgr.rroot.tree, PathOf(s), m)|
          == if Matches(PathOf(s), topic) then 1 else 0
    {
      var w, s := Global(), clients[c].subMap[t];
      assert Indexed(w, c, t);
      HoldsSubs(w.tree, PathOf(s), s);
      forall p | s in SubsAt(w.tree, p)
        ensures p == PathOf(s)
      {
        HoldsSubs(w.tree, p, s);
      }
      FoundIff(w.tree, topicsMgr.rroot.tree, s, m, PathOf(s), topic);
    }
  }
}

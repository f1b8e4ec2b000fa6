/** The subscription layer (broker/subscribe.go, broker/unsubscribe.go): what SUBSCRIBE and
    UNSUBSCRIBE packets do to a client's subMap, to its session and to the shared tree, and the
    agreement of the three in every state the broker can reach. */
module Subscriptions {
  import opened Basics
  import opened TopicLevels
  import opened TopicMatch
  import opened Trie
  import opened SubscriptionTree
  import opened MemTopicsProvider

  // ---------------------------------------------------------------------
  // Shared subscriptions: ^\$share/([0-9a-zA-Z_-]+)/(.*)$
  // ---------------------------------------------------------------------

  const SHARE_PREFIX: Bytes := [36, 115, 104, 97, 114, 101, 47] // "$share/"
  const NEWLINE: Byte := 10

  predicate GroupByte(b: Byte) {
    || 48 <= b <= 57 || 65 <= b <= 90 || 97 <= b <= 122
    || b == 95 || b == 45
  }

  datatype Filter = Plain(topic: Bytes) | Shared(group: Bytes, topic: Bytes) | BadShare

  function ParseFilter(t: Bytes): Filter {
    if !(SHARE_PREFIX <= t) then Plain(t)
    else
      var body := t[|SHARE_PREFIX|..];
      var k := FirstSep(body);
      if k == 0 || k == |body| || (exists b :: b in body[..k] && !GroupByte(b)) || NEWLINE in body[k + 1..]
      then BadShare
      else Shared(body[..k], body[k + 1..])
  }

  /** t is `$share/<group>/<topic>`: a group of letters, digits, `-` and `_`, and no newline in the rest. */
  ghost predicate IsShare(t: Bytes, group: Bytes, topic: Bytes) {
    && t == [36, 115, 104, 97, 114, 101, 47] + group + [47] + topic
    && group != [] && 10 !in topic
    && forall b :: b in group ==> 48 <= b <= 57 || 65 <= b <= 90 || 97 <= b <= 122 || b == 45 || b == 95
  }

  lemma ShareParses(t: Bytes, group: Bytes, topic: Bytes)
    requires IsShare(t, group, topic)
    ensures ParseFilter(t) == Shared(group, topic)
  {
    var body := t[7..];
    assert body == group + [47] + topic;
    assert forall i :: 0 <= i < |group| ==> body[i] == group[i] && body[i] in group;
    assert body[|group|] == 47;
    assert FirstSep(body) == |group|;
    assert body[..|group|] == group && body[|group| + 1..] == topic;
  }

  lemma ParsedIsShare(t: Bytes)
    requires ParseFilter(t).Shared?
    ensures IsShare(t, ParseFilter(t).group, ParseFilter(t).topic)
  {
    var body := t[7..];
    var k := FirstSep(body);
    assert t == t[..7] + body && body == body[..k] + [47] + body[k + 1..];
  }

  /** A filter is a shared one exactly when it has that form, refused exactly when it has the prefix only,
      and plain exactly when it has not even that. */
  lemma ParseFilterIff(t: Bytes)
    ensures forall group, topic :: ParseFilter(t) == Shared(group, topic) <==> IsShare(t, group, topic)
    ensures ParseFilter(t).BadShare? <==>
      [36, 115, 104, 97, 114, 101, 47] <= t && forall group, topic :: !IsShare(t, group, topic)
    ensures ParseFilter(t) == Plain(t) <==> !([36, 115, 104, 97, 114, 101, 47] <= t)
  {
    forall group, topic
      ensures ParseFilter(t) == Shared(group, topic) <==> IsShare(t, group, topic)
    {
      if IsShare(t, group, topic) {
        ShareParses(t, group, topic);
      } else if ParseFilter(t) == Shared(group, topic) {
        ParsedIsShare(t);
      }
    }
    if ParseFilter(t).Shared? {
      ParsedIsShare(t);
    }
  }

  /** The string the client subscribed with, recovered from the record. */
  function KeyOf(s: Subscription): Bytes {
    if s.share then SHARE_PREFIX + s.groupName + [SEP] + s.topic else s.topic
  }

  function NewSubscription(id: nat, client: nat, t: Bytes, q: Byte): Subscription
    requires !ParseFilter(t).BadShare?
  {
    match ParseFilter(t)
    case Plain(topic) => Subscription(id, client, topic, q, false, [])
    case Shared(group, topic) => Subscription(id, client, topic, q, true, group)
  }

  lemma KeyOfNew(id: nat, client: nat, t: Bytes, q: Byte)
    requires !ParseFilter(t).BadShare?
    ensures KeyOf(NewSubscription(id, client, t, q)) == t
  {
    if SHARE_PREFIX <= t {
      var body := t[|SHARE_PREFIX|..];
      var k := FirstSep(body);
      assert t == SHARE_PREFIX + body;
      assert body == body[..k] + [SEP] + body[k + 1..];
    }
  }

  /** A filter is accepted when its `$share/` prefix parses, its QoS is valid and it is well formed. */
  predicate Accepts(t: Bytes, q: Byte) {
    !ParseFilter(t).BadShare? && ValidQos(q) && WellFormed(ParseFilter(t).topic)
  }

  /** The requested QoS, 0 to 2, of a filter that parses and is well formed, and 128 for any other. */
  function ReturnCode(t: Bytes, q: Byte): (code: Byte)
    ensures if !ParseFilter(t).BadShare? && q <= 2 && WellFormed(ParseFilter(t).topic) then code == q else code == 128
  {
    if Accepts(t, q) then q else QOS_FAILURE
  }

  const TOPIC_A: Bytes := [97] // "a"

  lemma PlainTopic(b: Byte)
    requires b != SEP && b != HASH && b != PLUS
    ensures Tokenize([b]) == Tokens([[b]], true)
    ensures WellFormed([b]) && ParseFilter([b]) == Plain([b])
  {
    var t: Bytes := [b];
    assert FirstSep(t) == 1 && t[..1] == t;
    assert Tokenize([]) == Tokens([], true);
    assert [t] + [] == [t];
    TokenizeSpec(t);
  }

  // ---------------------------------------------------------------------
  // One client's packets as functions of the state they touch
  // ---------------------------------------------------------------------

  /** The shared tree, the client's subMap, its session's topics, and the next free address. */
  datatype State = State(tree: STree, subMap: map<Bytes, Subscription>, session: map<Bytes, Byte>, nextSub: nat)

  ghost function DropOld(v: State, t: Bytes): (v': State)
    requires GoodTree(v.tree)
    ensures GoodTree(v'.tree)
  {
    if t !in v.subMap then v
    else
      var s := v.subMap[t];
      SubscribedGood(v.tree, s.topic, 0, Some(s));
      v.(tree := Unsubscribed(v.tree, s.topic, Some(s)), subMap := v.subMap - {t})
  }

  ghost function SubscribeOne(v: State, client: nat, t: Bytes, q: Byte): (v': State)
    requires GoodTree(v.tree)
    ensures GoodTree(v'.tree)
  {
    if ParseFilter(t).BadShare? then v
    else
      var v1 := DropOld(v, t);
      var s := NewSubscription(v.nextSub, client, t, q);
      SubscribedGood(v1.tree, s.topic, q, Some(s));
      var v2 := v1.(tree := Subscribed(v1.tree, s.topic, q, Some(s)), nextSub := v.nextSub + 1);
      if Accepts(t, q) then v2.(subMap := v2.subMap[t := s], session := v2.session[t := q]) else v2
  }

  /** The first n filters of a SUBSCRIBE packet. */
  ghost function SubscribeSome(v: State, client: nat, topics: seq<Bytes>, qoss: seq<Byte>, n: nat): (v': State)
    requires GoodTree(v.tree) && n <= |topics| == |qoss|
    ensures GoodTree(v'.tree)
  {
    if n == 0 then v
    else SubscribeOne(SubscribeSome(v, client, topics, qoss, n - 1), client, topics[n - 1], qoss[n - 1])
  }

  ghost function UnsubscribeOne(v: State, t: Bytes): (v': State)
    requires GoodTree(v.tree)
    ensures GoodTree(v'.tree)
  {
    if t !in v.subMap then v else DropOld(v, t).(session := v.session - {t})
  }

  ghost function UnsubscribeSome(v: State, topics: seq<Bytes>, n: nat): (v': State)
    requires GoodTree(v.tree) && n <= |topics|
    ensures GoodTree(v'.tree)
  {
    if n == 0 then v else UnsubscribeOne(UnsubscribeSome(v, topics, n - 1), topics[n - 1])
  }

  // ---------------------------------------------------------------------
  // All clients, and the agreement invariant
  // ---------------------------------------------------------------------

  datatype ClientView = ClientView(subMap: map<Bytes, Subscription>, session: map<Bytes, Byte>)

  datatype World = World(tree: STree, clients: map<nat, ClientView>, nextSub: nat)

  ghost function PathOf(s: Subscription): Path {
    Tokenize(s.topic).levels
  }

  /** s is the value of a subMap entry of some client. */
  ghost predicate Live(w: World, s: Subscription) {
    && s.client in w.clients
    && KeyOf(s) in w.clients[s.client].subMap
    && w.clients[s.client].subMap[KeyOf(s)] == s
  }

  /** The row (path, subscriber, QoS) of the flat table. */
  ghost predicate Holds(t: STree, p: Path, s: Subscription, q: Byte) {
    var e := At(t, p, NO_ENTRY);
    GoodEntry(e) && s in e.subs && QosOf(e, s) == q
  }

  /** A subMap entry is indexed at its own filter path with its QoS. */
  ghost predicate Indexed(w: World, c: nat, t: Bytes)
    requires c in w.clients && t in w.clients[c].subMap
  {
    var s := w.clients[c].subMap[t];
    && s.client == c && KeyOf(s) == t && s.id < w.nextSub
    && WellFormed(s.topic)
    && Holds(w.tree, PathOf(s), s, s.qos)
  }

  /** The client views and the index agree: the rows of the table are exactly the subMap values,
      each at its own filter path with its own QoS. */
  ghost predicate Agreement(w: World) {
    && GoodTree(w.tree)
    && (forall c, t :: c in w.clients && t in w.clients[c].subMap ==> Indexed(w, c, t))
    && (forall p, s, q :: Holds(w.tree, p, s, q) ==> Live(w, s) && p == PathOf(s))
  }

  /** Every filter in a subMap is a topic of the session, with the same QoS. */
  ghost predicate SessionCovers(v: ClientView) {
    forall t :: t in v.subMap ==> t in v.session && v.session[t] == v.subMap[t].qos
  }

  ghost function Select(w: World, c: nat): State
    requires c in w.clients
  {
    State(w.tree, w.clients[c].subMap, w.clients[c].session, w.nextSub)
  }

  ghost function Put(w: World, c: nat, v: State): World {
    World(v.tree, w.clients[c := ClientView(v.subMap, v.session)], v.nextSub)
  }

  lemma HoldsSubs(t: STree, p: Path, s: Subscription)
    requires GoodTree(t)
    ensures s in SubsAt(t, p) <==> exists q :: Holds(t, p, s, q)
  {
    GoodAt(t, p);
    if s in SubsAt(t, p) {
      assert Holds(t, p, s, QosOf(At(t, p, NO_ENTRY), s));
    }
  }

  /** Unsubscribing deletes the one row of a subscriber that has no other. */
  lemma DropRow(t: STree, s: Subscription, p: Path, x: Subscription, q: Byte)
    requires GoodTree(t) && WellFormed(s.topic) && s in SubsAt(t, PathOf(s))
    requires forall r, k :: Holds(t, r, s, k) ==> r == PathOf(s)
    ensures Holds(Unsubscribed(t, s.topic, Some(s)), p, x, q) <==> Holds(t, p, x, q) && x != s
  {
    TokenizeSpec(s.topic);
    RemoveTable(t, Tokenize(s.topic), Some(s));
    assert Has(t, PathOf(s));
    if p == PathOf(s) {
      DropSubSpec(At(t, p, NO_ENTRY), s);
    }
  }

  /** Subscribing with a fresh record adds one row, or none when the filter is refused. */
  lemma AddRow(t: STree, s: Subscription, q: Byte, p: Path, x: Subscription, k: Byte)
    requires GoodTree(t) && s !in SubsAt(t, PathOf(s))
    ensures Holds(Subscribed(t, s.topic, q, Some(s)), p, x, k) <==>
      || Holds(t, p, x, k)
      || (ValidQos(q) && WellFormed(s.topic) && p == PathOf(s) && x == s && k == q)
  {
    TokenizeSpec(s.topic);
    TokensSharpLast(s.topic);
    InsertTable(t, Tokenize(s.topic), q, s);
    PutSubSpec(At(t, PathOf(s), NO_ENTRY), q, s);
  }

  lemma RowIsLive(w: World, p: Path, s: Subscription, q: Byte)
    requires Agreement(w) && Holds(w.tree, p, s, q)
    ensures Live(w, s) && Indexed(w, s.client, KeyOf(s)) && s.id < w.nextSub
  {
  }

  /** Dropping an entry from the subMap and the tree keeps the agreement, whether or not the
      session forgets the filter too. */
  lemma DropKeepsAgreement(w: World, c: nat, t: Bytes, session: map<Bytes, Byte>)
    requires Agreement(w) && c in w.clients && t in w.clients[c].subMap
    ensures Agreement(Put(w, c, DropOld(Select(w, c), t).(session := session)))
  {
    assert Indexed(w, c, t);
    var s := w.clients[c].subMap[t];
    var w' := Put(w, c, DropOld(Select(w, c), t).(session := session));
    forall p, x, q
      ensures Holds(w'.tree, p, x, q) <==> Holds(w.tree, p, x, q) && x != s
    {
      DropRow(w.tree, s, p, x, q);
    }
    RowsWithout(w, c, t, w');
  }

  lemma RowsWithout(w: World, c: nat, t: Bytes, w': World)
    requires Agreement(w) && c in w.clients && t in w.clients[c].subMap && GoodTree(w'.tree)
    requires c in w'.clients && w'.clients == w.clients[c := w'.clients[c]] && w'.nextSub == w.nextSub
    requires w'.clients[c].subMap == w.clients[c].subMap - {t}
    requires forall p, x, q ::
      Holds(w'.tree, p, x, q) <==> Holds(w.tree, p, x, q) && x != w.clients[c].subMap[t]
    ensures Agreement(w')
  {
    forall p, x, q | Holds(w'.tree, p, x, q)
      ensures Live(w', x) && p == PathOf(x)
    {
      assert Live(w, x);
    }
    forall c', t' | c' in w'.clients && t' in w'.clients[c'].subMap
      ensures Indexed(w', c', t')
    {
      assert Indexed(w, c', t') && Indexed(w, c, t);
    }
  }

  /** Indexing a fresh record for a filter that has no entry keeps the agreement; so does an
      attempt that is refused. */
  lemma AddKeepsAgreement(w: World, c: nat, t: Bytes, q: Byte)
    requires Agreement(w) && c in w.clients && t !in w.clients[c].subMap
    requires !ParseFilter(t).BadShare?
    ensures Agreement(Put(w, c, SubscribeOne(Select(w, c), c, t, q)))
  {
    var s := NewSubscription(w.nextSub, c, t, q);
    KeyOfNew(w.nextSub, c, t, q);
    var w' := Put(w, c, SubscribeOne(Select(w, c), c, t, q));
    HoldsSubs(w.tree, PathOf(s), s);
    forall k
      ensures !Holds(w.tree, PathOf(s), s, k)
    {
      if Holds(w.tree, PathOf(s), s, k) { RowIsLive(w, PathOf(s), s, k); }
    }
    forall p, x, k
      ensures Holds(w'.tree, p, x, k) <==>
        Holds(w.tree, p, x, k) || (Accepts(t, q) && p == PathOf(s) && x == s && k == q)
    {
      AddRow(w.tree, s, q, p, x, k);
    }
    forall p, x, k | Holds(w'.tree, p, x, k)
      ensures Live(w', x) && p == PathOf(x)
    {
      if x != s { assert Live(w, x); }
    }
    forall c', t' | c' in w'.clients && t' in w'.clients[c'].subMap
      ensures Indexed(w', c', t')
    {
      if c' != c || t' != t { assert Indexed(w, c', t'); }
    }
  }

  lemma SubscribeOneKeepsAgreement(w: World, c: nat, t: Bytes, q: Byte)
    requires Agreement(w) && c in w.clients
    ensures Agreement(Put(w, c, SubscribeOne(Select(w, c), c, t, q)))
  {
    PutSelect(w, c);
    if !ParseFilter(t).BadShare? {
      if t in w.clients[c].subMap {
        var v1 := DropOld(Select(w, c), t);
        DropKeepsAgreement(w, c, t, w.clients[c].session);
        var w1 := Put(w, c, v1);
        assert v1.(session := w.clients[c].session) == v1;
        assert Select(w1, c) == v1;
        AddKeepsAgreement(w1, c, t, q);
        PutPut(w, c, v1, SubscribeOne(v1, c, t, q));
        assert DropOld(v1, t) == v1;
      } else {
        AddKeepsAgreement(w, c, t, q);
      }
    }
  }

  lemma PutSelect(w: World, c: nat)
    requires c in w.clients
    ensures Put(w, c, Select(w, c)) == w
  {
    assert w.clients[c := w.clients[c]] == w.clients;
  }

  lemma PutPut(w: World, c: nat, v1: State, v2: State)
    ensures Put(Put(w, c, v1), c, v2) == Put(w, c, v2)
  {
  }

  /** One filter more of a packet that client c's view already reflects. */
  lemma NextFilterKeepsAgreement(w: World, c: nat, topics: seq<Bytes>, qoss: seq<Byte>, n: nat)
    requires GoodTree(w.tree) && c in w.clients && 0 < n <= |topics| == |qoss|
    requires Agreement(Put(w, c, SubscribeSome(Select(w, c), c, topics, qoss, n - 1)))
    ensures Agreement(Put(w, c, SubscribeSome(Select(w, c), c, topics, qoss, n)))
  {
    var v := SubscribeSome(Select(w, c), c, topics, qoss, n - 1);
    SubscribeOneKeepsAgreement(Put(w, c, v), c, topics[n - 1], qoss[n - 1]);
    assert Select(Put(w, c, v), c) == v;
    PutPut(w, c, v, SubscribeOne(v, c, topics[n - 1], qoss[n - 1]));
  }

  /** A complete SUBSCRIBE packet keeps the agreement. */
  lemma {:induction false} SubscribeKeepsAgreement(w: World, c: nat, topics: seq<Bytes>, qoss: seq<Byte>, n: nat)
    requires Agreement(w) && c in w.clients && n <= |topics| == |qoss|
    ensures Agreement(Put(w, c, SubscribeSome(Select(w, c), c, topics, qoss, n)))
  {
    if n == 0 {
      PutSelect(w, c);
    } else {
      SubscribeKeepsAgreement(w, c, topics, qoss, n - 1);
      NextFilterKeepsAgreement(w, c, topics, qoss, n);
    }
  }

  /** A complete UNSUBSCRIBE packet keeps the agreement. */
  lemma {:induction false} UnsubscribeKeepsAgreement(w: World, c: nat, topics: seq<Bytes>, n: nat)
    requires Agreement(w) && c in w.clients && n <= |topics|
    ensures Agreement(Put(w, c, UnsubscribeSome(Select(w, c), topics, n)))
  {
    if n == 0 {
      PutSelect(w, c);
    } else {
      UnsubscribeKeepsAgreement(w, c, topics, n - 1);
      var v := UnsubscribeSome(Select(w, c), topics, n - 1);
      var w1 := Put(w, c, v);
      var t := topics[n - 1];
      assert Select(w1, c) == v;
      if t in v.subMap {
        DropKeepsAgreement(w1, c, t, v.session - {t});
      }
      PutPut(w, c, v, UnsubscribeOne(v, t));
      PutSelect(w1, c);
    }
  }

  // ---------------------------------------------------------------------
  // Runs
  // ---------------------------------------------------------------------

  datatype Op =
    | Connect(c: nat, session: map<Bytes, Byte>)
    | Subscribe(c: nat, topics: seq<Bytes>, qoss: seq<Byte>)
    | Unsubscribe(c: nat, topics: seq<Bytes>)

  /** A connection starts with an empty subMap and its own session, which may list old topics;
      packets come from connected clients. */
  ghost predicate Enabled(w: World, op: Op) {
    match op
    case Connect(c, _) => c !in w.clients
    case Subscribe(c, topics, qoss) => c in w.clients && |topics| == |qoss|
    case Unsubscribe(c, _) => c in w.clients
  }

  ghost function Step(w: World, op: Op): World
    requires GoodTree(w.tree) && Enabled(w, op)
  {
    match op
    case Connect(c, session) => w.(clients := w.clients[c := ClientView(map[], session)])
    case Subscribe(c, topics, qoss) => Put(w, c, SubscribeSome(Select(w, c), c, topics, qoss, |topics|))
    case Unsubscribe(c, topics) => Put(w, c, UnsubscribeSome(Select(w, c), topics, |topics|))
  }

  /** Steps are defined on good trees; that every tree of a run is good is part of the agreement. */
  ghost predicate IsRun(ws: seq<World>, ops: seq<Op>) {
    && |ws| == |ops| + 1
    && ws[0] == World(Leaf(NO_ENTRY), map[], 0)
    && forall i :: 0 <= i < |ops| ==>
         Enabled(ws[i], ops[i]) && (GoodTree(ws[i].tree) ==> ws[i + 1] == Step(ws[i], ops[i]))
  }

  lemma InitialAgreement()
    ensures Agreement(World(Leaf(NO_ENTRY), map[], 0))
  {
    LeafGood();
    forall p, s, q
      ensures !Holds(Leaf(NO_ENTRY), p, s, q)
    {
      LeafTable(NO_ENTRY, p);
    }
  }

  lemma ConnectKeepsAgreement(w: World, c: nat, session: map<Bytes, Byte>)
    requires Agreement(w) && c !in w.clients
    ensures Agreement(Step(w, Connect(c, session)))
  {
    var w' := Step(w, Connect(c, session));
    forall p, s, q | Holds(w'.tree, p, s, q)
      ensures Live(w', s) && p == PathOf(s)
    {
      assert Live(w, s);
    }
    forall c', t' | c' in w'.clients && t' in w'.clients[c'].subMap
      ensures Indexed(w', c', t')
    {
      assert Indexed(w, c', t');
    }
  }

  /** In every state of every run the client views and the index agree. */
  lemma {:induction false} RunsKeepAgreement(ws: seq<World>, ops: seq<Op>, i: nat)
    requires IsRun(ws, ops) && i < |ws|
    ensures Agreement(ws[i])
  {
    if i == 0 {
      InitialAgreement();
    } else {
      RunsKeepAgreement(ws, ops, i - 1);
      var w := ws[i - 1];
      match ops[i - 1]
      case Connect(c, session) =>
        ConnectKeepsAgreement(w, c, session);
        assert ws[i] == Step(w, ops[i - 1]);
      case Subscribe(c, topics, qoss) =>
        SubscribeKeepsAgreement(w, c, topics, qoss, |topics|);
        assert ws[i] == Step(w, ops[i - 1]);
      case Unsubscribe(c, topics) =>
        UnsubscribeKeepsAgreement(w, c, topics, |topics|);
        assert ws[i] == Step(w, ops[i - 1]);
    }
  }

  // ---------------------------------------------------------------------
  // No leaks over whole runs
  // ---------------------------------------------------------------------

  /** What a caller can check before a filter is subscribed: it is well formed, or refused before
      the tree is touched, or the levels that can be read from it have a node already. */
  ghost predicate LeakFree(v: State, t: Bytes, q: Byte)
    requires GoodTree(v.tree)
  {
    || ParseFilter(t).BadShare? || !ValidQos(q) || WellFormed(ParseFilter(t).topic)
    || Has(DropOld(v, t).tree, Tokenize(ParseFilter(t).topic).levels)
  }

  lemma DropOldTidy(v: State, t: Bytes)
    requires GoodTree(v.tree) && Tidy(v.tree, Idle)
    ensures Tidy(DropOld(v, t).tree, Idle)
  {
    if t in v.subMap {
      var s := v.subMap[t];
      RemoveStaysTidy(v.tree, Tokenize(s.topic), Some(s));
    }
  }

  /** One filter of a SUBSCRIBE packet leaves a bare node behind exactly when it is not leak free. */
  lemma SubscribeOneTidyIff(v: State, client: nat, t: Bytes, q: Byte)
    requires GoodTree(v.tree) && Tidy(v.tree, Idle)
    ensures Tidy(SubscribeOne(v, client, t, q).tree, Idle) <==> LeakFree(v, t, q)
  {
    if !ParseFilter(t).BadShare? {
      DropOldTidy(v, t);
      var v1, s := DropOld(v, t), NewSubscription(v.nextSub, client, t, q);
      TokenizeSpec(s.topic);
      InsertTidyIff(v1.tree, Tokenize(s.topic), q, s);
    }
  }

  /** The tree is tidy after each of the first n filters of a packet. */
  ghost predicate TidyPacket(v: State, client: nat, topics: seq<Bytes>, qoss: seq<Byte>, n: nat)
    requires GoodTree(v.tree) && n <= |topics| == |qoss|
  {
    && (n > 0 ==> TidyPacket(v, client, topics, qoss, n - 1))
    && Tidy(SubscribeSome(v, client, topics, qoss, n).tree, Idle)
  }

  /** Each of the first n filters is leak free in the state it meets. */
  ghost predicate LeakFreePacket(v: State, client: nat, topics: seq<Bytes>, qoss: seq<Byte>, n: nat)
    requires GoodTree(v.tree) && n <= |topics| == |qoss|
  {
    n > 0 ==>
      && LeakFreePacket(v, client, topics, qoss, n - 1)
      && LeakFree(SubscribeSome(v, client, topics, qoss, n - 1), topics[n - 1], qoss[n - 1])
  }

  lemma {:induction false} SubscribeTidyIff(v: State, client: nat, topics: seq<Bytes>, qoss: seq<Byte>, n: nat)
    requires GoodTree(v.tree) && Tidy(v.tree, Idle) && n <= |topics| == |qoss|
    ensures TidyPacket(v, client, topics, qoss, n) <==> LeakFreePacket(v, client, topics, qoss, n)
  {
    if n > 0 {
      SubscribeTidyIff(v, client, topics, qoss, n - 1);
      if TidyPacket(v, client, topics, qoss, n - 1) {
        SubscribeOneTidyIff(SubscribeSome(v, client, topics, qoss, n - 1), client, topics[n - 1], qoss[n - 1]);
      }
    }
  }

  lemma {:induction false} UnsubscribeStaysTidy(v: State, topics: seq<Bytes>, n: nat)
    requires GoodTree(v.tree) && Tidy(v.tree, Idle) && n <= |topics|
    ensures Tidy(UnsubscribeSome(v, topics, n).tree, Idle)
  {
    if n > 0 {
      UnsubscribeStaysTidy(v, topics, n - 1);
      DropOldTidy(UnsubscribeSome(v, topics, n - 1), topics[n - 1]);
    }
  }

  /** The tree stays tidy through the packet, filter by filter. */
  ghost predicate TidyStep(w: World, op: Op)
    requires GoodTree(w.tree) && Enabled(w, op)
  {
    op.Subscribe? ==> TidyPacket(Select(w, op.c), op.c, op.topics, op.qoss, |op.topics|)
  }

  ghost predicate LeakFreeStep(w: World, op: Op)
    requires GoodTree(w.tree) && Enabled(w, op)
  {
    op.Subscribe? ==> LeakFreePacket(Select(w, op.c), op.c, op.topics, op.qoss, |op.topics|)
  }

  lemma StepTidyIff(w: World, op: Op)
    requires GoodTree(w.tree) && Tidy(w.tree, Idle) && Enabled(w, op)
    ensures TidyStep(w, op) <==> LeakFreeStep(w, op)
    ensures TidyStep(w, op) ==> Tidy(Step(w, op).tree, Idle)
  {
    match op
    case Connect(_, _) =>
    case Subscribe(c, topics, qoss) => SubscribeTidyIff(Select(w, c), c, topics, qoss, |topics|);
    case Unsubscribe(c, topics) => UnsubscribeStaysTidy(Select(w, c), topics, |topics|);
  }

  /** The first n packets of a run keep the tree tidy, filter by filter. */
  ghost predicate TidyRun(ws: seq<World>, ops: seq<Op>, n: nat)
    requires n <= |ops| < |ws|
  {
    && Tidy(ws[n].tree, Idle)
    && (n > 0 ==>
          && TidyRun(ws, ops, n - 1)
          && (GoodTree(ws[n - 1].tree) && Enabled(ws[n - 1], ops[n - 1]) ==> TidyStep(ws[n - 1], ops[n - 1])))
  }

  ghost predicate LeakFreeRun(ws: seq<World>, ops: seq<Op>, n: nat)
    requires n <= |ops| < |ws|
  {
    n > 0 ==>
      && LeakFreeRun(ws, ops, n - 1)
      && (GoodTree(ws[n - 1].tree) && Enabled(ws[n - 1], ops[n - 1]) ==> LeakFreeStep(ws[n - 1], ops[n - 1]))
  }

  /** A run keeps the tree tidy at every filter exactly when every filter was leak free in the
      state it met. */
  lemma {:induction false} RunsTidyIff(ws: seq<World>, ops: seq<Op>, n: nat)
    requires IsRun(ws, ops) && n <= |ops|
    ensures TidyRun(ws, ops, n) <==> LeakFreeRun(ws, ops, n)
  {
    if n == 0 {
      forall q
        ensures Has(ws[0].tree, q) ==> q == []
      {
        LeafTable(NO_ENTRY, q);
      }
    } else {
      RunsTidyIff(ws, ops, n - 1);
      RunsKeepAgreement(ws, ops, n - 1);
      assert Enabled(ws[n - 1], ops[n - 1]) && ws[n] == Step(ws[n - 1], ops[n - 1]);
      if TidyRun(ws, ops, n - 1) {
        StepTidyIff(ws[n - 1], ops[n - 1]);
      }
    }
  }

  /** Once all subMaps are empty the tree is a bare root again exactly when it is tidy. */
  lemma EmptyBareRootIff(ws: seq<World>, ops: seq<Op>, i: nat)
    requires IsRun(ws, ops) && i < |ws|
    requires forall c :: c in ws[i].clients ==> ws[i].clients[c].subMap == map[]
    ensures ws[i].tree.kids == map[] <==> Tidy(ws[i].tree, Idle)
  {
    RunsKeepAgreement(ws, ops, i);
    NoLiveNoEntries(ws[i]);
    if Tidy(ws[i].tree, Idle) {
      NoEntriesBareRoot(ws[i].tree);
    }
    if ws[i].tree.kids == map[] {
      forall q
        ensures Has(ws[i].tree, q) ==> q == []
      {
      }
    }
  }

  lemma NoLiveNoEntries(w: World)
    requires Agreement(w) && forall c :: c in w.clients ==> w.clients[c].subMap == map[]
    ensures forall p :: Has(w.tree, p) ==> SubsAt(w.tree, p) == []
  {
    forall p
      ensures SubsAt(w.tree, p) == []
    {
      var subs := SubsAt(w.tree, p);
      if subs != [] { HoldsSubs(w.tree, p, subs[0]); }
    }
  }

  const LEAKY: Bytes := [97, 47, 98, 35] // "a/b#"

  lemma LeakyTokens()
    ensures Tokenize(LEAKY) == Tokens([[97]], false)
    ensures ParseFilter(LEAKY) == Plain(LEAKY) && !WellFormed(LEAKY)
  {
    assert LEAKY[..1] == [97] && LEAKY[2..] == [98, 35];
    assert FirstSep(LEAKY) == 1;
    assert FirstSep([98, 35]) == 2;
    var rest: Bytes := [98, 35];
    assert rest[..2] == rest && rest[1] == HASH;
    assert !LevelOk(rest);
    assert Tokenize(rest) == Tokens([], false);
    assert [[97]] + [] == [[97 as Byte]];
    TokenizeSpec(LEAKY);
  }

  /** The leak happens: one SUBSCRIBE packet with the filter `a/b#` is refused and leaves a bare
      node at `a`. */
  lemma RefusedFilterLeaks(ws: seq<World>, c: nat)
    requires IsRun(ws, [Connect(c, map[]), Subscribe(c, [LEAKY], [0])])
    ensures !Accepts(LEAKY, 0) && c in ws[2].clients && ws[2].clients[c].subMap == map[]
    ensures Has(ws[2].tree, [[97]]) && !Tidy(ws[2].tree, Idle)
  {
    var ops := [Connect(c, map[]), Subscribe(c, [LEAKY], [0])];
    LeakyTokens();
    RunsKeepAgreement(ws, ops, 0);
    RunsKeepAgreement(ws, ops, 1);
    assert Enabled(ws[1], ops[1]);
    var v := Select(ws[1], c);
    assert v.tree == Leaf(NO_ENTRY) && v.subMap == map[];
    forall p
      ensures Has(v.tree, p) ==> p == []
    {
      LeafTable(NO_ENTRY, p);
    }
    assert SubscribeSome(v, c, [LEAKY], [0], 0) == v;
    assert SubscribeSome(v, c, [LEAKY], [0], 1) == SubscribeOne(v, c, LEAKY, 0);
    SubscribeOneTidyIff(v, c, LEAKY, 0);
    WriteTable(v.tree, [[97]], NO_ENTRY, None, [[97]]);
  }

  /** With one live client per session, SUBSCRIBE and UNSUBSCRIBE keep every subMap filter listed
      in the session with its QoS. */
  lemma {:induction false} PacketsKeepSessionCover(
      v: State, client: nat, topics: seq<Bytes>, qoss: seq<Byte>, n: nat)
    requires GoodTree(v.tree) && SessionCovers(ClientView(v.subMap, v.session))
    requires n <= |topics| == |qoss|
    ensures var v' := SubscribeSome(v, client, topics, qoss, n); SessionCovers(ClientView(v'.subMap, v'.session))
    ensures var v' := UnsubscribeSome(v, topics, n); SessionCovers(ClientView(v'.subMap, v'.session))
  {
    if n > 0 {
      PacketsKeepSessionCover(v, client, topics, qoss, n - 1);
    }
  }

  /** In every state of every run the session of each client covers its subMap. */
  lemma {:induction false} RunsKeepSessionCover(ws: seq<World>, ops: seq<Op>, i: nat, c: nat)
    requires IsRun(ws, ops) && i < |ws| && c in ws[i].clients
    ensures SessionCovers(ws[i].clients[c])
  {
    if i > 0 {
      RunsKeepAgreement(ws, ops, i - 1);
      var w, op := ws[i - 1], ops[i - 1];
      assert Enabled(w, op) && ws[i] == Step(w, op);
      if c in w.clients {
        RunsKeepSessionCover(ws, ops, i - 1, c);
        if c == op.c {
          match op
          case Subscribe(_, topics, qoss) => PacketsKeepSessionCover(Select(w, c), c, topics, qoss, |topics|);
          case Unsubscribe(_, topics) =>
            PacketsKeepSessionCover(Select(w, c), c, topics, seq(|topics|, _ => 0), |topics|);
        }
      }
    }
  }

  // ---------------------------------------------------------------------
  // Delivery: what a publication is handed to
  // ---------------------------------------------------------------------

  ghost function SharedCount(d: seq<Subscription>): nat {
    if d == [] then 0
    else SharedCount(d[..|d| - 1]) + if d[|d| - 1].share then 1 else 0
  }

  /** The calls of `publish` made for a message: one per hit that is not shared, and one for a
      single hit picked among all shared ones. */
  ghost predicate FanOut(t: STree, topic: Path, d: seq<Subscription>) {
    && (forall s: Subscription :: !s.share ==> multiset(d)[s] == |Hits(t, s, topic)|)
    && (forall s: Subscription :: s.share && s in d ==> |Hits(t, s, topic)| > 0)
    && SharedCount(d) == if exists s: Subscription :: s.share && |Hits(t, s, topic)| > 0 then 1 else 0
  }

  /** The subscription is live and its filter matches. */
  ghost predicate Wanted(w: World, s: Subscription, topic: Path) {
    Live(w, s) && Matches(PathOf(s), topic)
  }

  lemma HitCount(w: World, s: Subscription, topic: Path)
    requires Agreement(w)
    ensures |Hits(w.tree, s, topic)| == if Wanted(w, s, topic) then 1 else 0
  {
    var H := Hits(w.tree, s, topic);
    forall p
      ensures p in H <==> p == PathOf(s) && Wanted(w, s, topic)
    {
      InHits(w.tree, s, topic, p);
      HoldsSubs(w.tree, p, s);
      if Wanted(w, s, topic) && p == PathOf(s) {
        assert Indexed(w, s.client, KeyOf(s));
      }
    }
    OneHome(H, PathOf(s), Wanted(w, s, topic));
  }

  /** End to end: in a state where the views agree, in particular after any run, a message is
      handed to every matching non-shared subMap entry of every client once, to exactly one
      matching shared entry if there is any, and to nothing else. */
  lemma Delivery(w: World, topic: Path, d: seq<Subscription>)
    requires Agreement(w) && FanOut(w.tree, topic, d)
    ensures forall s: Subscription :: !s.share ==> multiset(d)[s] == if Wanted(w, s, topic) then 1 else 0
    ensures forall s :: s in d ==> Wanted(w, s, topic)
    ensures SharedCount(d) == if exists s: Subscription :: s.share && Wanted(w, s, topic) then 1 else 0
  {
    forall s
      ensures |Hits(w.tree, s, topic)| == if Wanted(w, s, topic) then 1 else 0
    {
      HitCount(w, s, topic);
    }
    forall s | s in d
      ensures Wanted(w, s, topic)
    {
      assert multiset(d)[s] > 0;
    }
  }

  /** Runs and delivery together. */
  lemma DeliveryAfterAnyRun(ws: seq<World>, ops: seq<Op>, topic: Bytes, d: seq<Subscription>)
    requires IsRun(ws, ops) && WellFormed(topic)
    requires FanOut(ws[|ops|].tree, Tokenize(topic).levels, d)
    ensures var w := ws[|ops|];
      && (forall c, t :: c in w.clients && t in w.clients[c].subMap ==>
            var s := w.clients[c].subMap[t];
            && WellFormed(s.topic)
            && (!s.share ==> multiset(d)[s] == if Matches(LevelsOf(s.topic), LevelsOf(topic)) then 1 else 0)
            && (s in d ==> Matches(LevelsOf(s.topic), LevelsOf(topic))))
      && (forall s :: s in d ==> Live(w, s))
      && (SharedCount(d) == if exists s: Subscription :: s.share && Wanted(w, s, LevelsOf(topic)) then 1 else 0)
  {
    var w := ws[|ops|];
    RunsKeepAgreement(ws, ops, |ops|);
    TokenizeSpec(topic);
    Delivery(w, LevelsOf(topic), d);
    forall c, t | c in w.clients && t in w.clients[c].subMap
      ensures var s := w.clients[c].subMap[t];
        && WellFormed(s.topic)
        && (!s.share ==> multiset(d)[s] == if Matches(LevelsOf(s.topic), LevelsOf(topic)) then 1 else 0)
        && (s in d ==> Matches(LevelsOf(s.topic), LevelsOf(topic)))
    {
      assert Indexed(w, c, t);
      var s := w.clients[c].subMap[t];
      TokenizeSpec(s.topic);
      assert Wanted(w, s, LevelsOf(topic)) <==> Matches(LevelsOf(s.topic), LevelsOf(topic));
    }
  }

  lemma {:induction false} SharedUnique(d: seq<Subscription>)
    ensures SharedCount(d) == 0 ==> forall s :: s in d ==> !s.share
    ensures SharedCount(d) == 1 ==> exists s :: s in d && s.share
    ensures SharedCount(d) <= 1 ==> forall x, y :: x in d && y in d && x.share && y.share ==> x == y
  {
    if d != [] {
      var n := |d| - 1;
      SharedUnique(d[..n]);
      assert d == d[..n] + [d[n]];
      assert forall s :: s in d <==> s in d[..n] || s == d[n];
    }
  }

  /** A shared subscription of section 4.8.2 of MQTT Version 5.0: share name and filter. */
  ghost function GroupOf(s: Subscription): (Bytes, Bytes) {
    (s.groupName, s.topic)
  }

  /** Section 4.8.2 asks for one delivery per shared subscription. The code serves every matching
      shared subscription exactly when at most one of them matches. */
  lemma EveryGroupServedIff(w: World, topic: Path, d: seq<Subscription>)
    requires Agreement(w) && FanOut(w.tree, topic, d)
    ensures (forall s: Subscription :: s.share && Wanted(w, s, topic) ==>
               exists x :: x in d && x.share && GroupOf(x) == GroupOf(s))
       <==> (forall s: Subscription, s': Subscription ::
               s.share && s'.share && Wanted(w, s, topic) && Wanted(w, s', topic) ==> GroupOf(s) == GroupOf(s'))
  {
    Delivery(w, topic, d);
    SharedUnique(d);
  }

  function SharedFilter(group: Byte): Bytes {
    SHARE_PREFIX + [group, SEP, 120] // "$share/<group>/x"
  }

  lemma SharedFilterParses(group: Byte)
    requires GroupByte(group)
    ensures ParseFilter(SharedFilter(group)) == Shared([group], [120])
    ensures Accepts(SharedFilter(group), 0) && Tokenize([120]) == Tokens([[120]], true)
  {
    var t := SharedFilter(group);
    var body := t[|SHARE_PREFIX|..];
    assert body == [group, SEP, 120];
    assert FirstSep(body) == 1;
    assert body[..1] == [group] && body[2..] == [120];
    var x: Bytes := [120];
    assert FirstSep(x) == 1 && x[..1] == x;
    assert Tokenize([]) == Tokens([], true) && [x] + [] == [x];
    TokenizeSpec(x);
  }

  lemma AcceptedOne(v: State, c: nat, t: Bytes, q: Byte)
    requires GoodTree(v.tree) && Accepts(t, q)
    ensures SubscribeOne(v, c, t, q).subMap == v.subMap[t := NewSubscription(v.nextSub, c, t, q)]
    ensures SubscribeSome(v, c, [t], [q], 1) == SubscribeOne(v, c, t, q)
  {
    assert SubscribeSome(v, c, [t], [q], 0) == v;
    assert (v.subMap - {t})[t := NewSubscription(v.nextSub, c, t, q)]
        == v.subMap[t := NewSubscription(v.nextSub, c, t, q)];
  }

  /** What one SUBSCRIBE packet with one shared filter on `x` leaves in the client's subMap. */
  lemma SharedSubscribed(w: World, c: nat, group: Byte)
    requires Agreement(w) && c in w.clients && GroupByte(group)
    ensures var w' := Step(w, Subscribe(c, [SharedFilter(group)], [0]));
      && Agreement(w') && w'.clients == w.clients[c := w'.clients[c]]
      && w'.clients[c].subMap == w.clients[c].subMap[SharedFilter(group) :=
           Subscription(w.nextSub, c, [120], 0, true, [group])]
  {
    var t := SharedFilter(group);
    SharedFilterParses(group);
    SubscribeKeepsAgreement(w, c, [t], [0], 1);
    AcceptedOne(Select(w, c), c, t, 0);
  }

  lemma SharedWanted(w: World, group: Byte, s: Subscription)
    requires GroupByte(group) && s == Subscription(s.id, s.client, [120], 0, true, [group])
    requires s.client in w.clients && SharedFilter(group) in w.clients[s.client].subMap
    requires w.clients[s.client].subMap[SharedFilter(group)] == s
    ensures Wanted(w, s, LevelsOf([120]))
  {
    SharedFilterParses(group);
    TokenizeSpec([120]);
    KeyOfNew(s.id, s.client, SharedFilter(group), 0);
    assert Matches(LevelsOf([120]), LevelsOf([120]));
  }

  lemma TwoGroups(w: World, topic: Path, d: seq<Subscription>, s0: Subscription, s1: Subscription)
    requires Agreement(w) && FanOut(w.tree, topic, d)
    requires s0.share && s1.share && Wanted(w, s0, topic) && Wanted(w, s1, topic) && GroupOf(s0) != GroupOf(s1)
    ensures exists s: Subscription :: s.share && Wanted(w, s, topic)
              && forall x :: x in d && x.share ==> GroupOf(x) != GroupOf(s)
  {
    EveryGroupServedIff(w, topic, d);
  }

  /** It happens: clients 0 and 1 subscribe `$share/g/x` and `$share/h/x`; whatever the random pick,
      a message on `x` leaves one of the two groups without a delivery. */
  lemma OneGroupUnserved(ws: seq<World>, d: seq<Subscription>)
    requires IsRun(ws, [Connect(0, map[]), Connect(1, map[]),
                        Subscribe(0, [SharedFilter(103)], [0]), Subscribe(1, [SharedFilter(104)], [0])])
    requires FanOut(ws[4].tree, LevelsOf([120]), d)
    ensures exists s: Subscription :: s.share && Wanted(ws[4], s, LevelsOf([120]))
              && forall x :: x in d && x.share ==> GroupOf(x) != GroupOf(s)
  {
    var ops := [Connect(0, map[]), Connect(1, map[]),
                Subscribe(0, [SharedFilter(103)], [0]), Subscribe(1, [SharedFilter(104)], [0])];
    RunsKeepAgreement(ws, ops, 0);
    RunsKeepAgreement(ws, ops, 1);
    RunsKeepAgreement(ws, ops, 2);
    RunsKeepAgreement(ws, ops, 3);
    RunsKeepAgreement(ws, ops, 4);
    assert ws[1] == Step(ws[0], ops[0]) && ws[2] == Step(ws[1], ops[1]);
    assert ws[3] == Step(ws[2], ops[2]) && ws[4] == Step(ws[3], ops[3]);
    SharedSubscribed(ws[2], 0, 103);
    SharedSubscribed(ws[3], 1, 104);
    var w, topic := ws[4], LevelsOf([120]);
    var s0 := Subscription(ws[2].nextSub, 0, [120], 0, true, [103]);
    var s1 := Subscription(ws[3].nextSub, 1, [120], 0, true, [104]);
    SharedWanted(w, 103, s0);
    SharedWanted(w, 104, s1);
    TwoGroups(w, topic, d, s0, s1);
  }
}

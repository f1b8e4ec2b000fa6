/** Exactly which nodes the subscription tree has after any run (insert and remove in
    broker/persistence/topics/memtopics.go): those on the way to a subscription, and those left by
    malformed filters that no removal has passed since. */
module LeakedNodes {
  import opened Basics
  import opened TopicLevels
  import opened Trie
  import opened SubscriptionTree
  import opened MemTopicsProvider
  import opened Subscriptions

  // ---------------------------------------------------------------------
  // One tree
  // ---------------------------------------------------------------------

  /** The node at p is on the way to a subscriber, or to one of the given paths. */
  ghost predicate Held(t: STree, tips: set<Path>, p: Path) {
    exists q :: p <= q && Holding(t, tips, q)
  }

  ghost predicate Holding(t: STree, tips: set<Path>, q: Path) {
    q in tips || !Idle(At(t, q, NO_ENTRY))
  }

  /** The tree consists of the root and what is held. */
  ghost predicate HeldBy(t: STree, tips: set<Path>) {
    forall p :: Has(t, p) <==> p == [] || Held(t, tips, p)
  }

  /** What a removal along p leaves of the tips. */
  ghost function Unpassed(tips: set<Path>, p: Path): set<Path> {
    set q | q in tips && !(q <= p)
  }

  lemma {:induction false} HasPrefix(t: STree, p: Path, q: Path)
    requires Has(t, p) && q <= p
    ensures Has(t, q)
    decreases |q|
  {
    if q != [] {
      assert p == [p[0]] + p[1..] && q == [q[0]] + q[1..];
      PrefixCons(p[0], q[1..], p[1..]);
      HasPrefix(t.kids[p[0]], p[1..], q[1..]);
    }
  }

  lemma InsertHeld(t: STree, tips: set<Path>, toks: Tokens, q: Byte, s: Subscription)
    requires GoodTree(t) && SharpLast(toks.levels) && HeldBy(t, tips)
    ensures HeldBy(Insert(t, toks, q, s), if toks.ok then tips else tips + {toks.levels})
  {
    var t', tips' := Insert(t, toks, q, s), if toks.ok then tips else tips + {toks.levels};
    var l := toks.levels;
    InsertTable(t, toks, q, s);
    GoodAt(t, l);
    PutSubSpec(At(t, l, NO_ENTRY), q, s);
    assert s in PutSub(At(t, l, NO_ENTRY), q, s).subs;
    forall r
      ensures Holding(t', tips', r) <==> Holding(t, tips, r) || r == l
    {
    }
    forall p
      ensures Has(t', p) <==> p == [] || Held(t', tips', p)
    {
      WriteTable(t, l, NO_ENTRY, if toks.ok then Some(PutSub(At(t, l, NO_ENTRY), q, s)) else None, p);
      assert Has(t, p) <==> p == [] || Held(t, tips, p);
      if p <= l { assert Holding(t', tips', l); }
      if r :| p <= r && Holding(t, tips, r) { assert Holding(t', tips', r); }
    }
  }

  /** A node off the path stays, and whatever held it still does. */
  lemma OffPathHeld(t: STree, tips: set<Path>, p: Path, e: Entry, q: Path)
    requires HeldBy(t, tips) && Has(t, p) && Has(t, q) && !(q <= p)
    ensures Held(Erase(t, p, e, Idle), Unpassed(tips, p), q)
  {
    var k :| q <= k && Holding(t, tips, k);
    if k <= p { PrefixTrans(q, k, p); }
    assert Held(t, tips, k);
    EraseTable(t, p, e, Idle, k);
    assert Holding(Erase(t, p, e, Idle), Unpassed(tips, p), k);
  }

  /** A node on the path that is not doomed is held by something below it. */
  lemma OnPathHeld(t: STree, tips: set<Path>, p: Path, e: Entry, q: Path)
    requires HeldBy(t, tips) && Has(t, p) && q != [] && q <= p && !Doomed(t, p, e, Idle, q)
    ensures Held(Erase(t, p, e, Idle), Unpassed(tips, p), q)
  {
    var t', tips' := Erase(t, p, e, Idle), Unpassed(tips, p);
    if r :| Has(t, r) && q <= r && !(r <= p) {
      OffPathHeld(t, tips, p, e, r);
      var k :| r <= k && Holding(t', tips', k);
      PrefixTrans(q, r, k);
    } else {
      var r :| q <= r && r <= p && !Idle(Written(t, p, e, r));
      HasPrefix(t, p, r);
      EraseTable(t, p, e, Idle, r);
      assert Holding(t', tips', r);
    }
  }

  lemma HoldingStays(t: STree, tips: set<Path>, p: Path, e: Entry, k: Path)
    requires HeldBy(t, tips) && Has(t, p) && Holding(Erase(t, p, e, Idle), Unpassed(tips, p), k)
    ensures Has(Erase(t, p, e, Idle), k)
  {
    EraseTable(t, p, e, Idle, k);
    if k in Unpassed(tips, p) {
      assert Holding(t, tips, k);
      assert Held(t, tips, k);
    }
  }

  lemma EraseHeld(t: STree, tips: set<Path>, p: Path, e: Entry)
    requires HeldBy(t, tips) && Has(t, p)
    ensures HeldBy(Erase(t, p, e, Idle), Unpassed(tips, p))
  {
    var t', tips' := Erase(t, p, e, Idle), Unpassed(tips, p);
    forall q
      ensures Has(t', q) <==> q == [] || Held(t', tips', q)
    {
      EraseTable(t, p, e, Idle, q);
      if Has(t', q) && q != [] {
        if q <= p { OnPathHeld(t, tips, p, e, q); } else { OffPathHeld(t, tips, p, e, q); }
      }
      if k :| q <= k && Holding(t', tips', k) {
        HoldingStays(t, tips, p, e, k);
        HasPrefix(t', k, q);
      }
    }
  }

  // ---------------------------------------------------------------------
  // Filters, packets and runs
  // ---------------------------------------------------------------------

  /** Dropping an old subscription is a removal along its path. */
  ghost function TipsDropped(tips: set<Path>, v: State, t: Bytes): set<Path> {
    if t in v.subMap then Unpassed(tips, PathOf(v.subMap[t])) else tips
  }

  /** A malformed filter that reaches the index leaves the node of its last readable level. */
  ghost function TipsSubscribed(tips: set<Path>, v: State, t: Bytes, q: Byte): set<Path> {
    if ParseFilter(t).BadShare? then tips
    else
      var topic := ParseFilter(t).topic;
      TipsDropped(tips, v, t) + if ValidQos(q) && !WellFormed(topic) then {Tokenize(topic).levels} else {}
  }

  ghost function TipsOfPacket(tips: set<Path>, v: State, c: nat, topics: seq<Bytes>, qoss: seq<Byte>, n: nat): set<Path>
    requires GoodTree(v.tree) && n <= |topics| == |qoss|
  {
    if n == 0 then tips
    else TipsSubscribed(TipsOfPacket(tips, v, c, topics, qoss, n - 1),
                        SubscribeSome(v, c, topics, qoss, n - 1), topics[n - 1], qoss[n - 1])
  }

  ghost function TipsOfUnsubscribe(tips: set<Path>, v: State, topics: seq<Bytes>, n: nat): set<Path>
    requires GoodTree(v.tree) && n <= |topics|
  {
    if n == 0 then tips
    else TipsDropped(TipsOfUnsubscribe(tips, v, topics, n - 1), UnsubscribeSome(v, topics, n - 1), topics[n - 1])
  }

  /** The paths left by malformed filters in the first n packets that no removal has passed since. */
  ghost function Tips(ws: seq<World>, ops: seq<Op>, n: nat): set<Path>
    requires IsRun(ws, ops) && n <= |ops|
  {
    if n == 0 then {} else
      RunsKeepAgreement(ws, ops, n - 1);
      assert Enabled(ws[n - 1], ops[n - 1]);
      var tips := Tips(ws, ops, n - 1);
      match ops[n - 1]
      case Connect(_, _) => tips
      case Subscribe(c, topics, qoss) => TipsOfPacket(tips, Select(ws[n - 1], c), c, topics, qoss, |topics|)
      case Unsubscribe(c, topics) => TipsOfUnsubscribe(tips, Select(ws[n - 1], c), topics, |topics|)
  }

  lemma DropHeld(w: World, c: nat, t: Bytes, tips: set<Path>)
    requires Agreement(w) && c in w.clients && HeldBy(w.tree, tips)
    ensures var v := Select(w, c); HeldBy(DropOld(v, t).tree, TipsDropped(tips, v, t))
  {
    if t in w.clients[c].subMap {
      assert Indexed(w, c, t);
      var s := w.clients[c].subMap[t];
      var e := At(w.tree, PathOf(s), NO_ENTRY);
      TokenizeSpec(s.topic);
      RemoveTable(w.tree, Tokenize(s.topic), Some(s));
      EraseHeld(w.tree, tips, PathOf(s), DropSub(e, s));
    }
  }

  lemma SubscribeOneHeld(w: World, c: nat, t: Bytes, q: Byte, tips: set<Path>)
    requires Agreement(w) && c in w.clients && HeldBy(w.tree, tips)
    ensures var v := Select(w, c); HeldBy(SubscribeOne(v, c, t, q).tree, TipsSubscribed(tips, v, t, q))
  {
    if !ParseFilter(t).BadShare? {
      var v := Select(w, c);
      var topic := ParseFilter(t).topic;
      DropHeld(w, c, t, tips);
      assert TipsDropped(tips, v, t) + {} == TipsDropped(tips, v, t);
      if ValidQos(q) {
        TokenizeSpec(topic);
        TokensSharpLast(topic);
        InsertHeld(DropOld(v, t).tree, TipsDropped(tips, v, t), Tokenize(topic), q,
                   NewSubscription(v.nextSub, c, t, q));
      }
    }
  }

  lemma NextSubscribeHeld(w: World, c: nat, topics: seq<Bytes>, qoss: seq<Byte>, n: nat, tips: set<Path>)
    requires GoodTree(w.tree) && c in w.clients && 0 < n <= |topics| == |qoss|
    requires Agreement(Put(w, c, SubscribeSome(Select(w, c), c, topics, qoss, n - 1)))
    requires HeldBy(SubscribeSome(Select(w, c), c, topics, qoss, n - 1).tree,
                    TipsOfPacket(tips, Select(w, c), c, topics, qoss, n - 1))
    ensures HeldBy(SubscribeSome(Select(w, c), c, topics, qoss, n).tree,
                   TipsOfPacket(tips, Select(w, c), c, topics, qoss, n))
  {
    var v := SubscribeSome(Select(w, c), c, topics, qoss, n - 1);
    assert Select(Put(w, c, v), c) == v;
    SubscribeOneHeld(Put(w, c, v), c, topics[n - 1], qoss[n - 1],
                     TipsOfPacket(tips, Select(w, c), c, topics, qoss, n - 1));
  }

  lemma {:induction false} SubscribeHeld(w: World, c: nat, topics: seq<Bytes>, qoss: seq<Byte>, n: nat, tips: set<Path>)
    requires Agreement(w) && c in w.clients && HeldBy(w.tree, tips) && n <= |topics| == |qoss|
    ensures HeldBy(SubscribeSome(Select(w, c), c, topics, qoss, n).tree,
                   TipsOfPacket(tips, Select(w, c), c, topics, qoss, n))
  {
    if n > 0 {
      SubscribeHeld(w, c, topics, qoss, n - 1, tips);
      SubscribeKeepsAgreement(w, c, topics, qoss, n - 1);
      NextSubscribeHeld(w, c, topics, qoss, n, tips);
    }
  }

  lemma NextUnsubscribeHeld(w: World, c: nat, topics: seq<Bytes>, n: nat, tips: set<Path>)
    requires GoodTree(w.tree) && c in w.clients && 0 < n <= |topics|
    requires Agreement(Put(w, c, UnsubscribeSome(Select(w, c), topics, n - 1)))
    requires HeldBy(UnsubscribeSome(Select(w, c), topics, n - 1).tree,
                    TipsOfUnsubscribe(tips, Select(w, c), topics, n - 1))
    ensures HeldBy(UnsubscribeSome(Select(w, c), topics, n).tree, TipsOfUnsubscribe(tips, Select(w, c), topics, n))
  {
    var v := UnsubscribeSome(Select(w, c), topics, n - 1);
    assert Select(Put(w, c, v), c) == v;
    DropHeld(Put(w, c, v), c, topics[n - 1], TipsOfUnsubscribe(tips, Select(w, c), topics, n - 1));
  }

  lemma {:induction false} UnsubscribeHeld(w: World, c: nat, topics: seq<Bytes>, n: nat, tips: set<Path>)
    requires Agreement(w) && c in w.clients && HeldBy(w.tree, tips) && n <= |topics|
    ensures HeldBy(UnsubscribeSome(Select(w, c), topics, n).tree, TipsOfUnsubscribe(tips, Select(w, c), topics, n))
  {
    if n > 0 {
      UnsubscribeHeld(w, c, topics, n - 1, tips);
      UnsubscribeKeepsAgreement(w, c, topics, n - 1);
      NextUnsubscribeHeld(w, c, topics, n, tips);
    }
  }

  lemma {:induction false} RunsHeld(ws: seq<World>, ops: seq<Op>, n: nat)
    requires IsRun(ws, ops) && n <= |ops|
    ensures HeldBy(ws[n].tree, Tips(ws, ops, n))
  {
    if n == 0 {
      forall p
        ensures Has(ws[0].tree, p) <==> p == [] || Held(ws[0].tree, {}, p)
      {
        LeafTable(NO_ENTRY, p);
        forall q
          ensures !Holding(ws[0].tree, {}, q)
        {
          LeafTable(NO_ENTRY, q);
        }
      }
    } else {
      RunsHeld(ws, ops, n - 1);
      RunsKeepAgreement(ws, ops, n - 1);
      var w, tips := ws[n - 1], Tips(ws, ops, n - 1);
      assert Enabled(w, ops[n - 1]) && ws[n] == Step(w, ops[n - 1]);
      match ops[n - 1]
      case Connect(_, _) =>
      case Subscribe(c, topics, qoss) => SubscribeHeld(w, c, topics, qoss, |topics|, tips);
      case Unsubscribe(c, topics) => UnsubscribeHeld(w, c, topics, |topics|, tips);
    }
  }

  /** Some client is subscribed to a filter below p. */
  ghost predicate Leads(w: World, p: Path) {
    exists s :: Live(w, s) && p <= PathOf(s)
  }

  lemma LiveHolds(w: World, q: Path)
    requires Agreement(w)
    ensures !Idle(At(w.tree, q, NO_ENTRY)) <==> exists s :: Live(w, s) && PathOf(s) == q
  {
    var e := At(w.tree, q, NO_ENTRY);
    GoodAt(w.tree, q);
    if !Idle(e) {
      assert Holds(w.tree, q, e.subs[0], QosOf(e, e.subs[0]));
    }
    if s :| Live(w, s) && PathOf(s) == q {
      assert Indexed(w, s.client, KeyOf(s));
    }
  }

  /** One of the tips is at p or below. */
  ghost predicate TipBelow(tips: set<Path>, p: Path) {
    exists q :: q in tips && p <= q
  }

  lemma NodesOf(w: World, tips: set<Path>, p: Path)
    requires Agreement(w) && HeldBy(w.tree, tips)
    ensures Has(w.tree, p) <==> p == [] || Leads(w, p) || TipBelow(tips, p)
  {
    if q :| p <= q && Holding(w.tree, tips, q) {
      LiveHolds(w, q);
    }
    if s :| Live(w, s) && p <= PathOf(s) {
      LiveHolds(w, PathOf(s));
      assert Holding(w.tree, tips, PathOf(s));
    }
    if q :| q in tips && p <= q {
      assert Holding(w.tree, tips, q);
    }
  }

  /** After any run the tree has exactly the nodes on the way to a filter somebody is subscribed to, or
      to the last readable level of a malformed filter since which no removal came by. */
  lemma NodesIff(ws: seq<World>, ops: seq<Op>, n: nat, p: Path)
    requires IsRun(ws, ops) && n <= |ops|
    ensures Has(ws[n].tree, p) <==> p == [] || Leads(ws[n], p) || TipBelow(Tips(ws, ops, n), p)
  {
    RunsHeld(ws, ops, n);
    RunsKeepAgreement(ws, ops, n);
    NodesOf(ws[n], Tips(ws, ops, n), p);
  }

  /** The node at p is bare: it has neither subscribers nor children. */
  ghost predicate BareAt(t: STree, p: Path) {
    Has(t, p) && Bare(Get(t, p).value, Idle)
  }

  lemma ChildBelow(t: STree, p: Path, r: Path)
    requires Has(t, r) && p <= r && p != r
    ensures Has(t, p) && Get(t, p).value.kids != map[]
    decreases |p|
  {
    HasPrefix(t, r, p);
    if p != [] {
      assert r == [r[0]] + r[1..] && p == [p[0]] + p[1..];
      PrefixCons(r[0], p[1..], r[1..]);
      ChildBelow(t.kids[r[0]], p[1..], r[1..]);
    }
  }

  lemma BelowChild(t: STree, p: Path) returns (k: Level)
    requires Has(t, p) && Get(t, p).value.kids != map[]
    ensures Has(t, p + [k])
    decreases |p|
  {
    if p == [] {
      k :| k in t.kids;
      GetCons(t, k, []);
      assert [] + [k] == [k] + [];
    } else {
      k := BelowChild(t.kids[p[0]], p[1..]);
      GetCons(t, p[0], p[1..] + [k]);
      assert p + [k] == [p[0]] + (p[1..] + [k]);
    }
  }

  lemma BareHasNothingBelow(w: World, tips: set<Path>, p: Path)
    requires Agreement(w) && HeldBy(w.tree, tips) && p != [] && BareAt(w.tree, p)
    ensures p in tips && !Leads(w, p) && forall q :: q in tips && p <= q ==> q == p
  {
    forall q | p <= q && Has(w.tree, q)
      ensures q == p
    {
      if p != q { ChildBelow(w.tree, p, q); }
    }
    if s :| Live(w, s) && p <= PathOf(s) {
      LiveHolds(w, PathOf(s));
    }
    forall q | q in tips && p <= q
      ensures q == p
    {
      assert q <= q && Holding(w.tree, tips, q);
      assert Held(w.tree, tips, q);
    }
    NodesOf(w, tips, p);
  }

  lemma NothingBelowBare(w: World, tips: set<Path>, p: Path)
    requires Agreement(w) && HeldBy(w.tree, tips)
    requires p in tips && !Leads(w, p) && forall q :: q in tips && p <= q ==> q == p
    ensures BareAt(w.tree, p)
  {
    NodesOf(w, tips, p);
    LiveHolds(w, p);
    if Get(w.tree, p).value.kids != map[] {
      var k := BelowChild(w.tree, p);
      NodesOf(w, tips, p + [k]);
      if q :| q in tips && p + [k] <= q {
        PrefixTrans(p, p + [k], q);
      }
      if s :| Live(w, s) && p + [k] <= PathOf(s) {
        PrefixTrans(p, p + [k], PathOf(s));
      }
    }
  }

  /** The bare nodes a run leaves behind are exactly the last readable levels of malformed filters that
      no removal has passed since, no subscription leads through, and no other such path extends. */
  lemma BareIff(ws: seq<World>, ops: seq<Op>, n: nat, p: Path)
    requires IsRun(ws, ops) && n <= |ops| && p != []
    ensures var tips := Tips(ws, ops, n);
      BareAt(ws[n].tree, p) <==>
        p in tips && !Leads(ws[n], p) && forall q :: q in tips && p <= q ==> q == p
  {
    var w, tips := ws[n], Tips(ws, ops, n);
    RunsHeld(ws, ops, n);
    RunsKeepAgreement(ws, ops, n);
    if BareAt(w.tree, p) {
      BareHasNothingBelow(w, tips, p);
    } else if p in tips && !Leads(w, p) && forall q :: q in tips && p <= q ==> q == p {
      NothingBelowBare(w, tips, p);
    }
  }
}

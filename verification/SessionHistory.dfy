/** What a client's session lists and its subMap does not (broker/subscribe.go,
    broker/unsubscribe.go), as a function of the packets the client sent, in any run of any number
    of clients. */
module SessionHistory {
  import opened Basics
  import opened TopicLevels
  import opened SubscriptionTree
  import opened Subscriptions

  /** The filters of a client's packets, one by one. */
  datatype FilterOp = SubscribeTo(t: Bytes, q: Byte) | UnsubscribeFrom(t: Bytes)

  ghost function Apply(v: State, client: nat, f: FilterOp): (v': State)
    requires GoodTree(v.tree)
    ensures GoodTree(v'.tree)
  {
    match f
    case SubscribeTo(t, q) => SubscribeOne(v, client, t, q)
    case UnsubscribeFrom(t) => UnsubscribeOne(v, t)
  }

  // ---------------------------------------------------------------------
  // One filter after the other
  // ---------------------------------------------------------------------

  predicate Accepted(f: FilterOp, t: Bytes) {
    f.SubscribeTo? && f.t == t && Accepts(t, f.q)
  }

  /** The filter parses and the index refuses it, after the old subscription was dropped. */
  predicate Refused(f: FilterOp, t: Bytes) {
    f.SubscribeTo? && f.t == t && !ParseFilter(t).BadShare? && !Accepts(t, f.q)
  }

  /** No subscription to t is accepted from step i on. */
  ghost predicate NotAcceptedSince(fs: seq<FilterOp>, t: Bytes, i: nat) {
    forall j :: i <= j < |fs| ==> !Accepted(fs[j], t)
  }

  /** The subscription accepted at step j is neither dropped nor refused before step n. */
  ghost predicate LastsUntil(fs: seq<FilterOp>, t: Bytes, j: nat, n: nat)
    requires j < n <= |fs|
  {
    Accepted(fs[j], t) && forall k :: j < k < n ==> fs[k] != UnsubscribeFrom(t) && !Refused(fs[k], t)
  }

  /** The client is subscribed to t before step n. */
  ghost predicate SubscribedBefore(fs: seq<FilterOp>, t: Bytes, n: nat)
    requires n <= |fs|
  {
    exists j: nat :: j < n && LastsUntil(fs, t, j, n)
  }

  /** A subscription to t was refused while the client was subscribed, and none was accepted since. */
  ghost predicate LeftByRefusal(fs: seq<FilterOp>, t: Bytes) {
    exists i: nat :: i < |fs| && Refused(fs[i], t) && SubscribedBefore(fs, t, i) && NotAcceptedSince(fs, t, i + 1)
  }

  /** The session lists the filter and the subMap does not. */
  ghost predicate Orphan(v: ClientView, t: Bytes) {
    t in v.session && t !in v.subMap
  }

  /** Where t is listed, for a client that connected with the session `start` and sent fs since. */
  ghost predicate TracedAt(v: ClientView, start: map<Bytes, Byte>, fs: seq<FilterOp>, t: Bytes) {
    && (t in v.subMap <==> SubscribedBefore(fs, t, |fs|))
    && (Orphan(v, t) <==> (t in start && NotAcceptedSince(fs, t, 0)) || LeftByRefusal(fs, t))
  }

  ghost predicate Traced(v: ClientView, start: map<Bytes, Byte>, fs: seq<FilterOp>) {
    SessionCovers(v) && forall t :: TracedAt(v, start, fs, t)
  }

  ghost function ViewOf(v: State): ClientView {
    ClientView(v.subMap, v.session)
  }

  lemma LastsUntilPrefix(fs': seq<FilterOp>, fs: seq<FilterOp>, t: Bytes, j: nat, n: nat)
    requires j < n <= |fs| && fs <= fs'
    ensures LastsUntil(fs', t, j, n) <==> LastsUntil(fs, t, j, n)
  {
    assert forall k :: 0 <= k < |fs| ==> fs[k] == fs'[k];
    if LastsUntil(fs, t, j, n) {
      forall k | j < k < n
        ensures fs'[k] != UnsubscribeFrom(t) && !Refused(fs'[k], t)
      {
        assert fs'[k] == fs[k];
      }
    }
  }

  lemma SubscribedOneMore(fs: seq<FilterOp>, f: FilterOp, t: Bytes)
    ensures forall n :: 0 <= n <= |fs| ==> (SubscribedBefore(fs + [f], t, n) <==> SubscribedBefore(fs, t, n))
    ensures SubscribedBefore(fs + [f], t, |fs| + 1) <==>
      Accepted(f, t) || (SubscribedBefore(fs, t, |fs|) && f != UnsubscribeFrom(t) && !Refused(f, t))
  {
    var fs' := fs + [f];
    assert forall k :: 0 <= k < |fs| ==> fs'[k] == fs[k];
    forall j: nat, n: nat | j < n <= |fs|
      ensures LastsUntil(fs', t, j, n) <==> LastsUntil(fs, t, j, n)
    {
      LastsUntilPrefix(fs', fs, t, j, n);
    }
    forall n | 0 <= n <= |fs|
      ensures SubscribedBefore(fs', t, n) <==> SubscribedBefore(fs, t, n)
    {
      if j: nat :| j < n && LastsUntil(fs', t, j, n) { assert LastsUntil(fs, t, j, n); }
      if j: nat :| j < n && LastsUntil(fs, t, j, n) { assert LastsUntil(fs', t, j, n); }
    }
    if Accepted(f, t) {
      assert LastsUntil(fs', t, |fs|, |fs| + 1);
    }
    if j: nat :| j < |fs'| && LastsUntil(fs', t, j, |fs'|) {
      if j < |fs| { assert LastsUntil(fs, t, j, |fs|) && fs'[|fs|] == f; }
    }
    if j: nat :| j < |fs| && LastsUntil(fs, t, j, |fs|) && f != UnsubscribeFrom(t) && !Refused(f, t) {
      assert LastsUntil(fs', t, j, |fs| + 1);
    }
  }

  lemma LeftOneMore(fs: seq<FilterOp>, f: FilterOp, t: Bytes)
    ensures LeftByRefusal(fs + [f], t) <==>
      (LeftByRefusal(fs, t) && !Accepted(f, t)) || (Refused(f, t) && SubscribedBefore(fs, t, |fs|))
    ensures forall i :: 0 <= i <= |fs| ==>
      (NotAcceptedSince(fs + [f], t, i) <==> NotAcceptedSince(fs, t, i) && !Accepted(f, t))
  {
    var fs' := fs + [f];
    SubscribedOneMore(fs, f, t);
    forall i | 0 <= i <= |fs|
      ensures NotAcceptedSince(fs', t, i) <==> NotAcceptedSince(fs, t, i) && !Accepted(f, t)
    {
      assert fs'[|fs|] == f;
      assert forall j :: 0 <= j < |fs| ==> fs[j] == fs'[j];
      if NotAcceptedSince(fs, t, i) && !Accepted(f, t) {
        forall j | i <= j < |fs'|
          ensures !Accepted(fs'[j], t)
        {
          if j < |fs| { assert fs'[j] == fs[j]; }
        }
      }
    }
    if LeftByRefusal(fs', t) {
      var i: nat :| i < |fs'| && Refused(fs'[i], t) && SubscribedBefore(fs', t, i) && NotAcceptedSince(fs', t, i + 1);
      if i < |fs| { assert Refused(fs[i], t) && SubscribedBefore(fs, t, i) && NotAcceptedSince(fs, t, i + 1); }
    }
    if LeftByRefusal(fs, t) && !Accepted(f, t) {
      var i: nat :| i < |fs| && Refused(fs[i], t) && SubscribedBefore(fs, t, i) && NotAcceptedSince(fs, t, i + 1);
      assert Refused(fs'[i], t) && SubscribedBefore(fs', t, i) && NotAcceptedSince(fs', t, i + 1);
    }
    if Refused(f, t) && SubscribedBefore(fs, t, |fs|) {
      assert Refused(fs'[|fs|], t) && SubscribedBefore(fs', t, |fs|) && NotAcceptedSince(fs', t, |fs| + 1);
    }
  }

  lemma TraceStart(start: map<Bytes, Byte>)
    ensures Traced(ClientView(map[], start), start, [])
  {
  }

  /** What one filter does to the listing of t. */
  lemma ListedStep(v: State, client: nat, f: FilterOp, t: Bytes)
    requires GoodTree(v.tree) && SessionCovers(ViewOf(v))
    ensures var v' := Apply(v, client, f);
      && SessionCovers(ViewOf(v'))
      && (t in v'.subMap <==> Accepted(f, t) || (t in v.subMap && f != UnsubscribeFrom(t) && !Refused(f, t)))
      && (Orphan(ViewOf(v'), t) <==>
            (Orphan(ViewOf(v), t) && !Accepted(f, t)) || (t in v.subMap && Refused(f, t)))
  {
  }

  lemma TraceStep(v: State, client: nat, start: map<Bytes, Byte>, fs: seq<FilterOp>, f: FilterOp)
    requires GoodTree(v.tree) && Traced(ViewOf(v), start, fs)
    ensures Traced(ViewOf(Apply(v, client, f)), start, fs + [f])
  {
    var v' := Apply(v, client, f);
    forall t
      ensures TracedAt(ViewOf(v'), start, fs + [f], t)
    {
      assert TracedAt(ViewOf(v), start, fs, t);
      ListedStep(v, client, f, t);
      SubscribedOneMore(fs, f, t);
      LeftOneMore(fs, f, t);
    }
    ListedStep(v, client, f, []);
  }

  // ---------------------------------------------------------------------
  // Packets and runs
  // ---------------------------------------------------------------------

  function Subscribes(topics: seq<Bytes>, qoss: seq<Byte>, n: nat): seq<FilterOp>
    requires n <= |topics| == |qoss|
  {
    if n == 0 then [] else Subscribes(topics, qoss, n - 1) + [SubscribeTo(topics[n - 1], qoss[n - 1])]
  }

  function Unsubscribes(topics: seq<Bytes>, n: nat): seq<FilterOp>
    requires n <= |topics|
  {
    if n == 0 then [] else Unsubscribes(topics, n - 1) + [UnsubscribeFrom(topics[n - 1])]
  }

  lemma {:induction false} TraceSubscribe(v: State, client: nat, start: map<Bytes, Byte>, fs: seq<FilterOp>,
                                          topics: seq<Bytes>, qoss: seq<Byte>, n: nat)
    requires GoodTree(v.tree) && Traced(ViewOf(v), start, fs) && n <= |topics| == |qoss|
    ensures Traced(ViewOf(SubscribeSome(v, client, topics, qoss, n)), start, fs + Subscribes(topics, qoss, n))
  {
    if n == 0 {
      assert fs + [] == fs;
    } else {
      TraceSubscribe(v, client, start, fs, topics, qoss, n - 1);
      var f := SubscribeTo(topics[n - 1], qoss[n - 1]);
      TraceStep(SubscribeSome(v, client, topics, qoss, n - 1), client, start, fs + Subscribes(topics, qoss, n - 1), f);
      assert fs + Subscribes(topics, qoss, n) == fs + Subscribes(topics, qoss, n - 1) + [f];
    }
  }

  lemma {:induction false} TraceUnsubscribe(v: State, client: nat, start: map<Bytes, Byte>, fs: seq<FilterOp>,
                                            topics: seq<Bytes>, n: nat)
    requires GoodTree(v.tree) && Traced(ViewOf(v), start, fs) && n <= |topics|
    ensures Traced(ViewOf(UnsubscribeSome(v, topics, n)), start, fs + Unsubscribes(topics, n))
  {
    if n == 0 {
      assert fs + [] == fs;
    } else {
      TraceUnsubscribe(v, client, start, fs, topics, n - 1);
      var f := UnsubscribeFrom(topics[n - 1]);
      TraceStep(UnsubscribeSome(v, topics, n - 1), client, start, fs + Unsubscribes(topics, n - 1), f);
      assert fs + Unsubscribes(topics, n) == fs + Unsubscribes(topics, n - 1) + [f];
    }
  }

  /** Client c's part of a run: the session it connected with, and the filters it sent since. */
  datatype Trace = Trace(start: map<Bytes, Byte>, fs: seq<FilterOp>)

  ghost function TraceOf(ws: seq<World>, ops: seq<Op>, c: nat, n: nat): Trace
    requires IsRun(ws, ops) && n <= |ops|
  {
    if n == 0 then Trace(map[], []) else
      var r := TraceOf(ws, ops, c, n - 1);
      assert Enabled(ws[n - 1], ops[n - 1]);
      if ops[n - 1].c != c then r
      else match ops[n - 1]
        case Connect(_, session) => Trace(session, [])
        case Subscribe(_, topics, qoss) => r.(fs := r.fs + Subscribes(topics, qoss, |topics|))
        case Unsubscribe(_, topics) => r.(fs := r.fs + Unsubscribes(topics, |topics|))
  }

  lemma {:induction false} RunsAreTraced(ws: seq<World>, ops: seq<Op>, c: nat, n: nat)
    requires IsRun(ws, ops) && n <= |ops| && c in ws[n].clients
    ensures var r := TraceOf(ws, ops, c, n); Traced(ws[n].clients[c], r.start, r.fs)
  {
    if n > 0 {
      RunsKeepAgreement(ws, ops, n - 1);
      var w, op := ws[n - 1], ops[n - 1];
      assert Enabled(w, op) && ws[n] == Step(w, op);
      if op.c == c && op.Connect? {
        TraceStart(op.session);
      } else {
        RunsAreTraced(ws, ops, c, n - 1);
        var r := TraceOf(ws, ops, c, n - 1);
        if op.c == c {
          assert ViewOf(Select(w, c)) == w.clients[c];
          match op
          case Subscribe(_, topics, qoss) => TraceSubscribe(Select(w, c), c, r.start, r.fs, topics, qoss, |topics|);
          case Unsubscribe(_, topics) => TraceUnsubscribe(Select(w, c), c, r.start, r.fs, topics, |topics|);
        }
      }
    }
  }

  /** In every state of every run, whatever the other clients send in between: the subMap lists the
      filters whose last subscription was accepted and lasts, and the session lists a filter beyond
      those exactly when it did so on connect, or a re-subscription was refused, and no subscription
      was accepted since. */
  lemma OrphanIff(ws: seq<World>, ops: seq<Op>, c: nat, n: nat, t: Bytes)
    requires IsRun(ws, ops) && n <= |ops| && c in ws[n].clients
    ensures var r := TraceOf(ws, ops, c, n);
      && (t in ws[n].clients[c].subMap <==> SubscribedBefore(r.fs, t, |r.fs|))
      && (Orphan(ws[n].clients[c], t) <==> (t in r.start && NotAcceptedSince(r.fs, t, 0)) || LeftByRefusal(r.fs, t))
  {
    RunsAreTraced(ws, ops, c, n);
    var r := TraceOf(ws, ops, c, n);
    assert TracedAt(ws[n].clients[c], r.start, r.fs, t);
  }

  /** Session and subMap of a client list the same filters exactly when no filter is left over from
      the connect or by a refusal. */
  lemma SessionExactIff(ws: seq<World>, ops: seq<Op>, c: nat, n: nat)
    requires IsRun(ws, ops) && n <= |ops| && c in ws[n].clients
    ensures var v, r := ws[n].clients[c], TraceOf(ws, ops, c, n);
      v.session.Keys == v.subMap.Keys <==>
      forall t :: !(t in r.start && NotAcceptedSince(r.fs, t, 0)) && !LeftByRefusal(r.fs, t)
  {
    RunsAreTraced(ws, ops, c, n);
    var v, r := ws[n].clients[c], TraceOf(ws, ops, c, n);
    assert forall t :: TracedAt(v, r.start, r.fs, t);
    if forall t :: !(t in r.start && NotAcceptedSince(r.fs, t, 0)) && !LeftByRefusal(r.fs, t) {
      forall t
        ensures t in v.session.Keys <==> t in v.subMap.Keys
      {
        assert TracedAt(v, r.start, r.fs, t);
      }
    }
    if v.session.Keys == v.subMap.Keys {
      forall t
        ensures !(t in r.start && NotAcceptedSince(r.fs, t, 0)) && !LeftByRefusal(r.fs, t)
      {
        assert TracedAt(v, r.start, r.fs, t);
        assert t in v.session.Keys <==> t in v.subMap.Keys;
      }
    }
  }

  /** It happens: a client subscribes `a`, then again with an invalid QoS; the session still lists
      `a` and the subMap does not. */
  lemma RefusalLeavesOrphan(ws: seq<World>, c: nat)
    requires IsRun(ws, [Connect(c, map[]), Subscribe(c, [TOPIC_A], [0]), Subscribe(c, [TOPIC_A], [3])])
    ensures c in ws[3].clients && Orphan(ws[3].clients[c], TOPIC_A)
  {
    var ops := [Connect(c, map[]), Subscribe(c, [TOPIC_A], [0]), Subscribe(c, [TOPIC_A], [3])];
    PlainTopic(97);
    RunsKeepAgreement(ws, ops, 0);
    RunsKeepAgreement(ws, ops, 1);
    RunsKeepAgreement(ws, ops, 2);
    assert ws[1] == Step(ws[0], ops[0]) && ws[2] == Step(ws[1], ops[1]) && ws[3] == Step(ws[2], ops[2]);
    OrphanIff(ws, ops, c, 3, TOPIC_A);
    TraceOfTwo(ws, ops, c);
    var fs := TraceOf(ws, ops, c, 3).fs;
    assert LastsUntil(fs, TOPIC_A, 0, 1);
    assert Refused(fs[1], TOPIC_A) && SubscribedBefore(fs, TOPIC_A, 1) && NotAcceptedSince(fs, TOPIC_A, 2);
  }

  lemma TraceOfTwo(ws: seq<World>, ops: seq<Op>, c: nat)
    requires IsRun(ws, ops)
    requires ops == [Connect(c, map[]), Subscribe(c, [TOPIC_A], [0]), Subscribe(c, [TOPIC_A], [3])]
    ensures TraceOf(ws, ops, c, 3) == Trace(map[], [SubscribeTo(TOPIC_A, 0), SubscribeTo(TOPIC_A, 3)])
  {
    assert Subscribes([TOPIC_A], [0], 0) == [] && Subscribes([TOPIC_A], [3], 0) == [];
    assert TraceOf(ws, ops, c, 1) == Trace(map[], []);
    assert TraceOf(ws, ops, c, 2) == Trace(map[], [SubscribeTo(TOPIC_A, 0)]);
  }

  // ---------------------------------------------------------------------
  // Two connections on one session
  // ---------------------------------------------------------------------

  /** The QoS of the last accepted subscription to t among the first n filters of a packet. */
  function LastAccepted(topics: seq<Bytes>, qoss: seq<Byte>, t: Bytes, n: nat): Option<Byte>
    requires n <= |topics| == |qoss|
  {
    if n == 0 then None
    else if topics[n - 1] == t && Accepts(t, qoss[n - 1]) then Some(qoss[n - 1])
    else LastAccepted(topics, qoss, t, n - 1)
  }

  lemma {:induction false} SessionAfterSubscribe(v: State, client: nat, topics: seq<Bytes>, qoss: seq<Byte>, t: Bytes,
                                                 n: nat)
    requires GoodTree(v.tree) && n <= |topics| == |qoss|
    ensures var session, q := SubscribeSome(v, client, topics, qoss, n).session, LastAccepted(topics, qoss, t, n);
      if q.Some? then t in session && session[t] == q.value
      else (t in session <==> t in v.session) && (t in session ==> session[t] == v.session[t])
  {
    if n > 0 {
      SessionAfterSubscribe(v, client, topics, qoss, t, n - 1);
    }
  }

  lemma {:induction false} SessionAfterUnsubscribe(v: State, topics: seq<Bytes>, t: Bytes, n: nat)
    requires GoodTree(v.tree) && n <= |topics|
    ensures var v' := UnsubscribeSome(v, topics, n);
      && (t in v'.subMap <==> t in v.subMap && t !in topics[..n])
      && (t in v'.session <==> t in v.session && !(t in v.subMap && t in topics[..n]))
      && (t in v'.session ==> v'.session[t] == v.session[t])
  {
    if n > 0 {
      SessionAfterUnsubscribe(v, topics, t, n - 1);
      assert topics[..n] == topics[..n - 1] + [topics[n - 1]];
    }
  }

  /** A SUBSCRIBE packet of one connection keeps the session covering the subMap of another
      connection that shares it exactly when no filter of that subMap was accepted last with another
      QoS. */
  lemma MateSubscribeIff(v: State, client: nat, topics: seq<Bytes>, qoss: seq<Byte>, mate: map<Bytes, Subscription>)
    requires GoodTree(v.tree) && |topics| == |qoss| && SessionCovers(ClientView(mate, v.session))
    ensures SessionCovers(ClientView(mate, SubscribeSome(v, client, topics, qoss, |topics|).session)) <==>
      forall t :: t in mate ==> LastAccepted(topics, qoss, t, |topics|) in [None, Some(mate[t].qos)]
  {
    forall t | t in mate
      ensures var session := SubscribeSome(v, client, topics, qoss, |topics|).session;
        (t in session && session[t] == mate[t].qos) <==>
        LastAccepted(topics, qoss, t, |topics|) in [None, Some(mate[t].qos)]
    {
      SessionAfterSubscribe(v, client, topics, qoss, t, |topics|);
    }
  }

  /** An UNSUBSCRIBE packet does so exactly when it drops no filter that both are subscribed to. */
  lemma MateUnsubscribeIff(v: State, topics: seq<Bytes>, mate: map<Bytes, Subscription>)
    requires GoodTree(v.tree) && SessionCovers(ClientView(mate, v.session))
    ensures SessionCovers(ClientView(mate, UnsubscribeSome(v, topics, |topics|).session)) <==>
      forall t :: t in mate ==> !(t in topics && t in v.subMap)
  {
    forall t | t in mate
      ensures var session := UnsubscribeSome(v, topics, |topics|).session;
        (t in session && session[t] == mate[t].qos) <==> !(t in topics && t in v.subMap)
    {
      SessionAfterUnsubscribe(v, topics, t, |topics|);
      assert topics[..|topics|] == topics;
    }
  }

  /** It happens: two connections that share a session subscribe `a`, one unsubscribes it, and the
      other is still subscribed to a filter that its session does not list any more. */
  lemma SharedSessionUncovered(v: State)
    requires GoodTree(v.tree) && v.subMap == map[] && v.session == map[]
    ensures var first := SubscribeOne(v, 0, TOPIC_A, 0);
      var second := SubscribeOne(first.(subMap := map[]), 1, TOPIC_A, 0);
      && SessionCovers(ClientView(first.subMap, second.session))
      && !SessionCovers(ClientView(first.subMap, UnsubscribeOne(second, TOPIC_A).session))
  {
    PlainTopic(97);
    assert TOPIC_A in SubscribeOne(v, 0, TOPIC_A, 0).subMap;
  }
}

/** Outgoing publications of one client (publish and retryDelivery in broker/comm.go, the
    acknowledgement branches of ProcessMessage in broker/client.go), over a clock in seconds. */
module Outbox {
  import opened Basics
  import opened Packets

  const RETRY_INTERVAL: nat := 20

  datatype Status = AwaitingAck | AwaitingComp

  datatype Element = Element(status: Status, packet: PublishPacket, timestamp: nat)

  /** The state of one connection: the inflight table, when the armed retry timer falls due, and
      the packets written so far. */
  datatype Link = Link(open: bool, inflight: map<nat, Element>, timer: Option<nat>, out: seq<Packet>)

  function Sent(s: Link, p: Packet): Link {
    if s.open then s.(out := s.out + [p]) else s
  }

  function Ensured(s: Link, interval: nat, now: nat): Link {
    if s.timer.Some? then s else s.(timer := Some(now + interval))
  }

  /** One call of publish. */
  function Published(s: Link, p: PublishPacket, now: nat): Link {
    if p.qos == 0 then Sent(s, Publish(p))
    else if p.qos == 1 then
      var s1 := s.(inflight := s.inflight[p.messageId := Element(AwaitingAck, p, now)]);
      Ensured(Sent(s1, Publish(p)), RETRY_INTERVAL, now)
    else s
  }

  function Forgotten(s: Link, id: nat): Link {
    s.(inflight := s.inflight - {id})
  }

  function Received(s: Link, id: nat, now: nat): Link {
    var s1 := if id in s.inflight && s.inflight[id].status == AwaitingAck
              then s.(inflight := s.inflight[id := s.inflight[id].(status := AwaitingComp, timestamp := now)])
              else s;
    Sent(s1, Pubrel(id))
  }

  function Age(e: Element, now: nat): int {
    now - e.timestamp
  }

  predicate IsDue(e: Element, now: nat) {
    Age(e, now) >= RETRY_INTERVAL
  }

  /** What is left of the retry interval; a clock that went back counts as age 0. */
  function Rest(e: Element, now: nat): int {
    RETRY_INTERVAL - if Age(e, now) < 0 then 0 else Age(e, now)
  }

  /** What a retry sends for an element: the publication again, or PUBREL once it was received. */
  function Resend(e: Element): Packet {
    if e.status == AwaitingAck then Publish(e.packet) else Pubrel(e.packet.messageId)
  }

  function Touched(inflight: map<nat, Element>, now: nat): map<nat, Element> {
    map k | k in inflight :: if IsDue(inflight[k], now) then inflight[k].(timestamp := now) else inflight[k]
  }

  ghost function DueIds(inflight: map<nat, Element>, now: nat): set<nat> {
    set k | k in inflight && IsDue(inflight[k], now)
  }

  /** The ids in some order, each once. */
  ghost predicate Enumerates(order: seq<nat>, ids: set<nat>) {
    && (forall k :: k in order <==> k in ids)
    && (forall i, j :: 0 <= i < j < |order| ==> order[i] != order[j])
  }

  ghost function Resends(inflight: map<nat, Element>, order: seq<nat>): seq<Packet>
    requires forall k :: k in order ==> k in inflight
  {
    seq(|order|, i requires 0 <= i < |order| => Resend(inflight[order[i]]))
  }

  /** The interval retryDelivery arms: what is left of the retry interval for one of the elements
      that are not due, whichever is met first, or a whole interval when all are due. */
  ghost predicate ArmedBy(inflight: map<nat, Element>, now: nat, interval: nat) {
    if DueIds(inflight, now) == inflight.Keys then interval == RETRY_INTERVAL
    else exists k :: k in inflight && !IsDue(inflight[k], now) && interval == Rest(inflight[k], now)
  }

  /** One run of retryDelivery, for some order of the table. */
  ghost predicate Retried(s: Link, now: nat, s': Link) {
    if !s.open || s.inflight == map[] then s' == s.(timer := None)
    else
      && s'.open
      && s'.inflight == Touched(s.inflight, now)
      && (exists order :: Enumerates(order, DueIds(s.inflight, now)) && s'.out == s.out + Resends(s.inflight, order))
      && s'.timer.Some? && s'.timer.value >= now && ArmedBy(s.inflight, now, s'.timer.value - now)
  }

  /** The elements that are 20 seconds past their last transmission and whose retransmission is x: the
      publication before PUBREC, a PUBREL with its id after. */
  ghost function Again(inflight: map<nat, Element>, now: nat, x: Packet): set<nat> {
    set k | k in inflight && now - inflight[k].timestamp >= 20 && x ==
      match inflight[k].status
      case AwaitingAck => Publish(inflight[k].packet)
      case AwaitingComp => Pubrel(inflight[k].packet.messageId)
  }

  /** The timer falls due when some element that is not due yet gets 20 seconds old, and in 20 seconds when
      there is none. A timestamp ahead of the clock counts as now. */
  ghost predicate ArmedForYoung(inflight: map<nat, Element>, now: nat, timer: Option<nat>) {
    if forall k :: k in inflight ==> now - inflight[k].timestamp >= 20 then timer == Some(now + 20)
    else exists k :: k in inflight && now - inflight[k].timestamp < 20
           && timer == Some(20 + if inflight[k].timestamp <= now then inflight[k].timestamp else now)
  }

  ghost function ResentAs(inflight: map<nat, Element>, ids: set<nat>, x: Packet): set<nat>
    requires ids <= inflight.Keys
  {
    set k | k in ids && Resend(inflight[k]) == x
  }

  lemma EnumeratesFront(order: seq<nat>, ids: set<nat>)
    requires Enumerates(order, ids) && order != []
    ensures var n := |order| - 1; order[n] in ids && Enumerates(order[..n], ids - {order[n]})
  {
    var n := |order| - 1;
    forall k
      ensures k in order[..n] <==> k in ids - {order[n]}
    {
      if k in ids && k != order[n] {
        var i :| 0 <= i < |order| && order[i] == k;
        assert order[..n][i] == k;
      }
    }
  }

  lemma OneMoreResend(inflight: map<nat, Element>, order: seq<nat>)
    requires order != [] && forall k :: k in order ==> k in inflight
    ensures var n := |order| - 1;
      Resends(inflight, order) == Resends(inflight, order[..n]) + [Resend(inflight[order[n]])]
  {
  }

  lemma OneMoreId(inflight: map<nat, Element>, ids: set<nat>, k: nat, x: Packet)
    requires k in ids && ids <= inflight.Keys
    ensures |ResentAs(inflight, ids, x)| ==
            |ResentAs(inflight, ids - {k}, x)| + if Resend(inflight[k]) == x then 1 else 0
  {
    var rest := ResentAs(inflight, ids - {k}, x);
    assert ResentAs(inflight, ids, x) == if Resend(inflight[k]) == x then rest + {k} else rest;
  }

  lemma {:induction false} ResendCounts(inflight: map<nat, Element>, order: seq<nat>, ids: set<nat>, x: Packet)
    requires Enumerates(order, ids) && ids <= inflight.Keys
    ensures multiset(Resends(inflight, order))[x] == |ResentAs(inflight, ids, x)|
    decreases |order|
  {
    if order == [] {
      assert ResentAs(inflight, ids, x) == {};
    } else {
      var n := |order| - 1;
      var last := order[n];
      EnumeratesFront(order, ids);
      ResendCounts(inflight, order[..n], ids - {last}, x);
      OneMoreResend(inflight, order);
      OneMoreId(inflight, ids, last, x);
    }
  }

  /** What a retransmission of the due elements, in any order, puts on the wire. */
  lemma ResendsAgain(inflight: map<nat, Element>, order: seq<nat>, now: nat, x: Packet)
    requires Enumerates(order, DueIds(inflight, now))
    ensures multiset(Resends(inflight, order))[x] == |Again(inflight, now, x)|
  {
    ResendCounts(inflight, order, DueIds(inflight, now), x);
    assert Again(inflight, now, x) == ResentAs(inflight, DueIds(inflight, now), x);
  }

  lemma ArmsForYoung(inflight: map<nat, Element>, now: nat, interval: nat)
    requires ArmedBy(inflight, now, interval)
    ensures ArmedForYoung(inflight, now, Some(now + interval))
  {
    if DueIds(inflight, now) == inflight.Keys {
      forall k | k in inflight
        ensures now - inflight[k].timestamp >= 20
      {
        assert k in DueIds(inflight, now);
      }
    }
  }

  /** What a run of retryDelivery writes and arms. */
  lemma RetrySpec(s: Link, now: nat)
    ensures forall s', x :: Retried(s, now, s') ==>
      multiset(s'.out)[x] == multiset(s.out)[x] + if s.open then |Again(s.inflight, now, x)| else 0
    ensures forall s' :: Retried(s, now, s') && s.open && s.inflight != map[] ==>
      ArmedForYoung(s.inflight, now, s'.timer)
  {
    forall s', x | Retried(s, now, s')
      ensures multiset(s'.out)[x] == multiset(s.out)[x] + if s.open then |Again(s.inflight, now, x)| else 0
    {
      if s.open && s.inflight != map[] {
        var order :| Enumerates(order, DueIds(s.inflight, now)) && s'.out == s.out + Resends(s.inflight, order);
        ResendsAgain(s.inflight, order, now, x);
      } else {
        assert s.inflight == map[] ==> Again(s.inflight, now, x) == {};
      }
    }
    forall s' | Retried(s, now, s') && s.open && s.inflight != map[]
      ensures ArmedForYoung(s.inflight, now, s'.timer)
    {
      ArmsForYoung(s.inflight, now, s'.timer.value - now);
    }
  }

  class ClientOutbox {
    var open: bool
    var inflight: map<nat, Element>
    var retryTimer: Option<nat>
    var out: seq<Packet>

    ghost function State(): Link
      reads this
    {
      Link(open, inflight, retryTimer, out)
    }

    constructor ()
      ensures State() == Link(true, map[], None, [])
    {
      open, inflight, retryTimer, out := true, map[], None, [];
    }

    method WritePacket(p: Packet)
      modifies this`out
      ensures State() == Sent(old(State()), p)
    {
      if open {
        out := out + [p];
      }
    }

    method EnsureRetryTimer(interval: nat, now: nat)
      modifies this`retryTimer
      ensures State() == Ensured(old(State()), interval, now)
      ensures retryTimer == if old(retryTimer).Some? then old(retryTimer) else Some(now + interval)
    {
      if retryTimer.Some? {
        return;
      }
      retryTimer := Some(now + interval);
    }

    method PublishTo(p: PublishPacket, now: nat)
      modifies this
      ensures State() == Published(old(State()), p, now)
      ensures retryTimer == if p.qos == 1 && old(retryTimer).None? then Some(now + 20) else old(retryTimer)
    {
      if p.qos == 0 {
        WritePacket(Publish(p));
      } else if p.qos == 1 {
        inflight := inflight[p.messageId := Element(AwaitingAck, p, now)];
        WritePacket(Publish(p));
        EnsureRetryTimer(RETRY_INTERVAL, now);
      }
    }

    method PubackIn(id: nat)
      modifies this`inflight
      ensures State() == Forgotten(old(State()), id)
    {
      if id in inflight {
        inflight := inflight - {id};
      } else {
        assert inflight - {id} == inflight;
      }
    }

    method PubrecIn(id: nat, now: nat)
      modifies this
      ensures State() == Received(old(State()), id, now)
      ensures out == old(out) + if open then [Pubrel(id)] else []
    {
      if id in inflight && inflight[id].status == AwaitingAck {
        inflight := inflight[id := inflight[id].(status := AwaitingComp, timestamp := now)];
      }
      WritePacket(Pubrel(id));
    }

    method PubcompIn(id: nat)
      modifies this`inflight
      ensures State() == Forgotten(old(State()), id)
    {
      inflight := inflight - {id};
    }

    method Close()
      modifies this`open
      ensures State() == old(State()).(open := false)
    {
      open := false;
    }

    /** One element of the snapshot: resend it when it is due, else arm the timer for its rest. */
    method RetryElement(k: nat, e: Element, now: nat)
      modifies this
      ensures State() == RetriedOne(old(State()), k, e, now)
    {
      var age := now - e.timestamp;
      if age >= RETRY_INTERVAL {
        if e.status == AwaitingAck {
          WritePacket(Publish(e.packet));
        } else {
          WritePacket(Pubrel(e.packet.messageId));
        }
        inflight := inflight[k := e.(timestamp := now)];
      } else {
        if age < 0 {
          age := 0;
        }
        EnsureRetryTimer(RETRY_INTERVAL - age, now);
      }
    }

    /** The fired retry timer: forget it, go through a snapshot of the table in any order, resend
        what is due, and arm the timer again. */
    method RetryDelivery(now: nat)
      modifies this
      ensures Retried(old(State()), now, State())
      ensures old(open && inflight != map[]) ==> ArmedForYoung(old(inflight), now, retryTimer)
      ensures forall x :: multiset(out)[x] == multiset(old(out))[x] + if open then |Again(old(inflight), now, x)| else 0
    {
      RetrySpec(State(), now);
      retryTimer := None;
      if !open || |inflight| == 0 {
        return;
      }
      ghost var s := old(State());
      var snapshot := inflight;
      var todo := snapshot.Keys;
      ghost var order: seq<nat>, done: set<nat> := [], {};
      while todo != {}
        invariant done !! todo && done + todo == snapshot.Keys
        invariant Progress(s, now, done, order, State())
      {
        var k :| k in todo;
        RetryOneMore(s, now, done, order, State(), k);
        RetryElement(k, snapshot[k], now);
        order := if IsDue(snapshot[k], now) then order + [k] else order;
        MoveOne(snapshot.Keys, done, todo, k);
        done := done + {k};
        todo := todo - {k};
      }
      RetryFinish(s, now, done, order, State());
      EnsureRetryTimer(RETRY_INTERVAL, now);
    }
  }

  function RetriedOne(s: Link, k: nat, e: Element, now: nat): Link {
    if IsDue(e, now) then
      Sent(s, Resend(e)).(inflight := s.inflight[k := e.(timestamp := now)])
    else Ensured(s, Rest(e, now), now)
  }

  /** The state st of retryDelivery, started in s, when the elements in `done` were handled. */
  ghost predicate Progress(s: Link, now: nat, done: set<nat>, order: seq<nat>, st: Link) {
    && s.open && st.open && done <= s.inflight.Keys
    && st.inflight == (map k | k in s.inflight ::
                         if k in done && IsDue(s.inflight[k], now) then s.inflight[k].(timestamp := now)
                         else s.inflight[k])
    && Enumerates(order, done * DueIds(s.inflight, now))
    && st.out == s.out + Resends(s.inflight, order)
    && ArmedSoFar(s.inflight, done, now, st.timer)
  }

  /** The timer is armed exactly when an element that is not due was met, with that element's rest. */
  ghost predicate ArmedSoFar(inflight: map<nat, Element>, done: set<nat>, now: nat, timer: Option<nat>)
    requires done <= inflight.Keys
  {
    if forall k :: k in done ==> IsDue(inflight[k], now) then timer.None?
    else
      && timer.Some? && timer.value >= now
      && exists k :: k in done && !IsDue(inflight[k], now) && timer.value - now == Rest(inflight[k], now)
  }

  lemma RetryOneMore(s: Link, now: nat, done: set<nat>, order: seq<nat>, st: Link, k: nat)
    requires Progress(s, now, done, order, st) && k in s.inflight && k !in done
    ensures Progress(s, now, done + {k}, if IsDue(s.inflight[k], now) then order + [k] else order,
                     RetriedOne(st, k, s.inflight[k], now))
  {
    if IsDue(s.inflight[k], now) {
      ExtendOrder(s.inflight, order, done, now, k);
      assert (s.out + Resends(s.inflight, order)) + [Resend(s.inflight[k])]
          == s.out + (Resends(s.inflight, order) + [Resend(s.inflight[k])]);
    } else {
      assert done * DueIds(s.inflight, now) == (done + {k}) * DueIds(s.inflight, now);
    }
    ArmOneMore(s.inflight, done, now, st.timer, k);
  }

  lemma ArmOneMore(inflight: map<nat, Element>, done: set<nat>, now: nat, timer: Option<nat>, k: nat)
    requires done <= inflight.Keys && k in inflight
    requires ArmedSoFar(inflight, done, now, timer)
    ensures ArmedSoFar(inflight, done + {k}, now,
      if IsDue(inflight[k], now) || timer.Some? then timer else Some(now + Rest(inflight[k], now)))
  {
    if timer.Some? {
      var j :| j in done && !IsDue(inflight[j], now) && timer.value - now == Rest(inflight[j], now);
      assert j in done + {k};
    } else if !IsDue(inflight[k], now) {
      assert k in done + {k};
    }
  }

  lemma RetryFinish(s: Link, now: nat, done: set<nat>, order: seq<nat>, st: Link)
    requires Progress(s, now, done, order, st) && done == s.inflight.Keys && s.inflight != map[]
    ensures Retried(s, now, Ensured(st, RETRY_INTERVAL, now))
  {
    assert done * DueIds(s.inflight, now) == DueIds(s.inflight, now);
    assert st.inflight == Touched(s.inflight, now);
    if forall k :: k in done ==> IsDue(s.inflight[k], now) {
      assert DueIds(s.inflight, now) == s.inflight.Keys;
    } else {
      var k :| k in done && !IsDue(s.inflight[k], now);
      assert k !in DueIds(s.inflight, now);
    }
  }

  lemma ExtendOrder(inflight: map<nat, Element>, order: seq<nat>, done: set<nat>, now: nat, k: nat)
    requires k in inflight && k !in done && IsDue(inflight[k], now)
    requires Enumerates(order, done * DueIds(inflight, now))
    ensures Enumerates(order + [k], (done + {k}) * DueIds(inflight, now))
    ensures Resends(inflight, order + [k]) == Resends(inflight, order) + [Resend(inflight[k])]
  {
    assert forall j :: j in order + [k] <==> j in order || j == k;
    assert forall i :: 0 <= i < |order| ==> order[i] in order && (order + [k])[i] == order[i];
  }
}

/** Whole runs of one client's outgoing publications, with any number of retry timers pending at a
    time: the inflight table as a function of the history, and the two-sided bound on
    retransmission. */
module OutboxRuns {
  import opened Basics
  import opened Packets
  import opened Outbox

  /** A connection and when its pending timers fall due. `link.timer` is the one the retryTimer field
      names; others stay pending when the field is reset or overwritten. */
  datatype State = State(link: Link, pending: multiset<nat>)

  /** Arm: a thread that found the field nil starts a timer after another thread did so. */
  datatype Event =
    | PublishOut(p: PublishPacket)
    | PubackIn(id: nat)
    | PubrecIn(id: nat)
    | PubcompIn(id: nat)
    | TimerFires(due: nat)
    | Arm(interval: nat)
    | CloseConnection

  /** A step that changes the connection and arms a timer if it finds none. */
  ghost predicate Becomes(s: State, link: Link, s': State) {
    && s'.link == link
    && s'.pending == if link.timer.Some? && link.timer != s.link.timer then s.pending + multiset{link.timer.value}
                     else s.pending
  }

  /** One run of retryDelivery beside other threads: a timer is armed at its end, by itself or by a
      thread that came in between. */
  ghost predicate RetriedBeside(s: Link, now: nat, s': Link) {
    if !s.open || s.inflight == map[] then s' == s.(timer := None)
    else
      && s'.open
      && s'.inflight == Touched(s.inflight, now)
      && (exists order :: Enumerates(order, DueIds(s.inflight, now)) && s'.out == s.out + Resends(s.inflight, order))
      && s'.timer.Some? && now < s'.timer.value <= now + RETRY_INTERVAL
  }

  /** What retryDelivery does on its own is one case of it. */
  lemma RetriedAlone(s: Link, now: nat, s': Link)
    requires Retried(s, now, s')
    ensures RetriedBeside(s, now, s')
  {
  }

  ghost predicate Fired(s: State, due: nat, now: nat, s': State) {
    && due in s.pending
    && RetriedBeside(s.link, now, s'.link)
    && s'.pending == (s.pending - multiset{due})
                     + if s'.link.timer.Some? then multiset{s'.link.timer.value} else multiset{}
  }

  ghost predicate Step(s: State, e: Event, now: nat, s': State) {
    match e
    case PublishOut(p) => Becomes(s, Published(s.link, p, now), s')
    case PubackIn(id) => Becomes(s, Forgotten(s.link, id), s')
    case PubrecIn(id) => Becomes(s, Received(s.link, id, now), s')
    case PubcompIn(id) => Becomes(s, Forgotten(s.link, id), s')
    case TimerFires(due) => Fired(s, due, now, s')
    case Arm(interval) =>
      && 0 < interval <= RETRY_INTERVAL
      && s' == State(s.link.(timer := Some(now + interval)), s.pending + multiset{now + interval})
    case CloseConnection => Becomes(s, s.link.(open := false), s')
  }

  /** Timers fire when due: no event happens after the due time of a pending timer, and it fires at
      that time. */
  ghost predicate Timely(s: State, e: Event, now: nat) {
    && (forall due :: due in s.pending ==> now <= due)
    && (e.TimerFires? ==> e.due == now)
  }

  /** The event starts a QoS 1 delivery with this id. */
  predicate Delivers(e: Event, id: nat) {
    e.PublishOut? && e.p.qos == 1 && e.p.messageId == id
  }

  /** The event ends an earlier delivery with this id: it is acknowledged, or replaced. */
  predicate Ends(e: Event, id: nat) {
    Delivers(e, id) || e == PubackIn(id) || e == PubcompIn(id)
  }

  /** What one event does to the element of an id. */
  ghost predicate Moves(s: Link, e: Event, now: nat, s': Link, id: nat) {
    if Delivers(e, id) then id in s'.inflight && s'.inflight[id] == Element(AwaitingAck, e.p, now)
    else
      && (id in s'.inflight <==> id in s.inflight && !Ends(e, id))
      && (id in s'.inflight ==>
            && s'.inflight[id].packet == s.inflight[id].packet
            && (s'.inflight[id].status == AwaitingComp <==> s.inflight[id].status == AwaitingComp || e == PubrecIn(id))
            && s'.inflight[id].timestamp == if Stamps(s, e, now, id) then now else s.inflight[id].timestamp)
  }

  /** The element is transmitted again by this event: by the first PUBREC, or by a timer at 20 seconds. */
  ghost predicate Stamps(s: Link, e: Event, now: nat, id: nat)
    requires id in s.inflight
  {
    || (e == PubrecIn(id) && s.inflight[id].status == AwaitingAck)
    || (e.TimerFires? && s.open && now - s.inflight[id].timestamp >= 20)
  }

  /** How often an event writes the packet x. */
  ghost function Writes(s: Link, e: Event, now: nat, x: Packet): nat {
    if !s.open then 0
    else match e
      case PublishOut(p) => if p.qos <= 1 && x == Publish(p) then 1 else 0
      case PubrecIn(id) => if x == Pubrel(id) then 1 else 0
      case TimerFires(_) => |Again(s.inflight, now, x)|
      case _ => 0
  }

  /** Nothing is taken back from the wire, and each event writes what it should, in some order. */
  lemma StepWrites(s: State, e: Event, now: nat, s': State, x: Packet)
    requires Step(s, e, now, s')
    ensures s.link.out <= s'.link.out
    ensures multiset(s'.link.out)[x] == multiset(s.link.out)[x] + Writes(s.link, e, now, x)
  {
    if e.TimerFires? && s.link.open {
      if s.link.inflight != map[] {
        var order :| Enumerates(order, DueIds(s.link.inflight, now))
          && s'.link.out == s.link.out + Resends(s.link.inflight, order);
        ResendsAgain(s.link.inflight, order, now, x);
      } else {
        assert Again(s.link.inflight, now, x) == {};
      }
    }
  }

  lemma RetryMoves(s: Link, due: nat, now: nat, s': Link, id: nat)
    requires RetriedBeside(s, now, s')
    ensures Moves(s, TimerFires(due), now, s', id)
  {
    assert id in Touched(s.inflight, now) <==> id in s.inflight;
  }

  lemma HandlerMoves(s: Link, e: Event, now: nat, id: nat)
    ensures e.PublishOut? ==> Moves(s, e, now, Published(s, e.p, now), id)
    ensures e.PubackIn? || e.PubcompIn? ==> Moves(s, e, now, Forgotten(s, e.id), id)
    ensures e.PubrecIn? ==> Moves(s, e, now, Received(s, e.id, now), id)
  {
  }

  lemma TableStep(s: State, e: Event, now: nat, s': State, id: nat)
    requires Step(s, e, now, s')
    ensures Moves(s.link, e, now, s'.link, id)
  {
    match e
    case TimerFires(due) => RetryMoves(s.link, due, now, s'.link, id);
    case _ => HandlerMoves(s.link, e, now, id);
  }

  /** When this timer fires, every element that is in flight now is younger than twice the interval. */
  ghost predicate InReach(s: State, due: nat) {
    forall k :: k in s.link.inflight ==> due - s.link.inflight[k].timestamp < 2 * RETRY_INTERVAL
  }

  ghost predicate ArmedBefore(s: State, t: nat) {
    exists due :: due in s.pending && due <= t
  }

  /** Every pending timer is at most the interval ahead, the field names one of them, it does so
      whenever something is in flight, and some pending timer then comes in reach of all of it. */
  ghost predicate OnTime(s: State, now: nat) {
    && (forall k :: k in s.link.inflight ==> s.link.inflight[k].timestamp <= now)
    && (forall due :: due in s.pending ==> due <= now + RETRY_INTERVAL)
    && (s.link.timer.Some? ==> s.link.timer.value in s.pending)
    && (s.link.inflight != map[] ==> s.link.timer.Some? && exists due :: due in s.pending && InReach(s, due))
  }

  datatype Run = Run(ss: seq<State>, es: seq<Event>, at: seq<nat>) {

    ghost predicate Valid() {
      && |ss| == |es| + 1 && |at| == |es|
      && ss[0] == State(Link(true, map[], None, []), multiset{})
      && (forall i, j :: 0 <= i < j < |at| ==> at[i] <= at[j])
      && forall i :: 0 <= i < |es| ==> Step(ss[i], es[i], at[i], ss[i + 1])
    }

    ghost predicate Prompt()
      requires |ss| == |es| + 1 && |at| == |es|
    {
      forall i :: 0 <= i < |es| ==> Timely(ss[i], es[i], at[i])
    }

    /** Event i is the delivery that is still outstanding for the id after n events. */
    ghost predicate Outstanding(i: nat, n: nat, id: nat)
      requires n <= |es|
    {
      && i < n && Delivers(es[i], id)
      && forall j :: i < j < n ==> !Ends(es[j], id)
    }

    ghost predicate Acknowledged(i: nat, n: nat, id: nat)
      requires n <= |es|
    {
      exists j :: i < j < n && es[j] == PubrecIn(id)
    }

    /** The table is the history: an id is in flight exactly when its last QoS 1 delivery was
        followed by no PUBACK or PUBCOMP; the element holds the packet of that delivery, whose id
        is the key, and awaits PUBCOMP exactly when a PUBREC came after that delivery. */
    lemma {:induction false} InflightIsHistory(n: nat, id: nat)
      requires Valid() && n <= |es|
      ensures id in ss[n].link.inflight <==> exists i: nat :: Outstanding(i, n, id)
      ensures forall i: nat :: Outstanding(i, n, id) ==>
        && ss[n].link.inflight[id].packet == es[i].p && es[i].p.messageId == id
        && (ss[n].link.inflight[id].status == AwaitingComp <==> Acknowledged(i, n, id))
    {
      if n > 0 {
        InflightIsHistory(n - 1, id);
        TableStep(ss[n - 1], es[n - 1], at[n - 1], ss[n], id);
        HistoryStep(n, id);
        var m := n - 1;
        if Delivers(es[m], id) {
          assert Outstanding(m, n, id);
        } else if id in ss[n].link.inflight {
          var i: nat :| Outstanding(i, m, id);
          assert Outstanding(i, n, id);
        }
      }
    }

    /** What one more event does to the outstanding delivery of an id. */
    lemma HistoryStep(n: nat, id: nat)
      requires 0 < n <= |es|
      ensures Delivers(es[n - 1], id) ==> forall i: nat :: Outstanding(i, n, id) <==> i == n - 1
      ensures !Acknowledged(n - 1, n, id)
      ensures Ends(es[n - 1], id) && !Delivers(es[n - 1], id) ==> forall i: nat :: !Outstanding(i, n, id)
      ensures !Ends(es[n - 1], id) ==> forall i: nat :: Outstanding(i, n, id) <==> Outstanding(i, n - 1, id)
      ensures forall i: nat :: i < n - 1 ==>
        (Acknowledged(i, n, id) <==> Acknowledged(i, n - 1, id) || es[n - 1] == PubrecIn(id))
    {
      forall i: nat | Outstanding(i, n, id) && Ends(es[n - 1], id)
        ensures i == n - 1
      {
      }
      forall i: nat | i < n - 1
        ensures Acknowledged(i, n, id) <==> Acknowledged(i, n - 1, id) || es[n - 1] == PubrecIn(id)
      {
        if Acknowledged(i, n - 1, id) {
          var j :| i < j < n - 1 && es[j] == PubrecIn(id);
          assert i < j < n && es[j] == PubrecIn(id);
        }
      }
    }

    /** A retry resends the right packet: the outstanding publication before PUBREC, and a PUBREL
        with its id after. */
    lemma RetryResendsHistory(n: nat, id: nat, i: nat)
      requires Valid() && n <= |es| && Outstanding(i, n, id)
      ensures id in ss[n].link.inflight
      ensures Resend(ss[n].link.inflight[id]) ==
        if Acknowledged(i, n, id) then Packet.Pubrel(id) else Packet.Publish(es[i].p)
    {
      InflightIsHistory(n, id);
    }

    /** While the connection is open the table is on time. */
    lemma {:induction false} StaysOnTime(n: nat)
      requires Valid() && Prompt() && n < |es| && ss[n].link.open
      ensures OnTime(ss[n], at[n])
      ensures ss[n + 1].link.open ==> OnTime(ss[n + 1], at[n])
    {
      assert Timely(ss[n], es[n], at[n]) && Step(ss[n], es[n], at[n], ss[n + 1]);
      if n > 0 {
        assert Step(ss[n - 1], es[n - 1], at[n - 1], ss[n]);
        StaysOnTime(n - 1);
      }
      OnTimeStep(ss[n], es[n], at[n], ss[n + 1]);
    }

    /** No other thread interferes with event k: no extra timer is started, and a retry arms the timer for
        what it met, as retryDelivery on its own does. */
    ghost predicate Undisturbed(k: nat)
      requires |ss| == |es| + 1 && |at| == |es| && k < |es|
    {
      && !es[k].Arm?
      && (es[k].TimerFires? && ss[k].link.open && ss[k].link.inflight != map[] ==>
            ArmedForYoung(ss[k].link.inflight, at[k], ss[k + 1].link.timer))
    }

    /** The id was transmitted by event n, is still in flight before event m, was not transmitted in between,
        and was alone in the table whenever a timer fired. */
    ghost predicate AloneSince(n: nat, m: nat, id: nat)
      requires |ss| == |es| + 1 && |at| == |es| && m <= |es|
    {
      && n < m
      && (forall k :: n <= k < m ==> ss[k].link.open && Undisturbed(k))
      && (forall k :: n < k <= m ==> id in ss[k].link.inflight && ss[k].link.inflight[id].timestamp == at[n])
      && forall k :: n < k < m && es[k].TimerFires? ==> ss[k].link.inflight.Keys == {id}
    }

    lemma {:induction false} TimerForAlone(n: nat, k: nat, id: nat)
      requires Valid() && Prompt() && n <= k < |es| - 1 && AloneSince(n, k + 1, id) && ss[k + 1].link.open
      ensures ss[k + 1].link.timer.Some? && ss[k + 1].link.timer.value <= at[n] + 20
      decreases k
    {
      if n == k {
        StaysOnTime(k);
      } else {
        TimerForAlone(n, k - 1, id);
        TimerAt(k, id, at[n]);
      }
    }

    lemma TimerAt(k: nat, id: nat, t: nat)
      requires Valid() && k < |es| && Undisturbed(k) && ss[k].link.open
      requires id in ss[k].link.inflight && ss[k].link.inflight[id].timestamp == t
      requires id in ss[k + 1].link.inflight && ss[k + 1].link.inflight[id].timestamp == t
      requires es[k].TimerFires? ==> ss[k].link.inflight.Keys == {id}
      requires ss[k].link.timer.Some? && ss[k].link.timer.value <= t + 20
      ensures ss[k + 1].link.timer.Some? && ss[k + 1].link.timer.value <= t + 20
    {
      TimerStep(ss[k], es[k], at[k], ss[k + 1], id, t);
    }

    /** With no interference and timers firing when due, an element that is alone in the table whenever a
        timer fires is transmitted again exactly 20 seconds after its last transmission: nothing happens
        later than that before it, and the firing at that time transmits it. */
    lemma LoneOnSchedule(n: nat, m: nat, id: nat)
      requires Valid() && Prompt() && m < |es| && AloneSince(n, m, id) && ss[m].link.open
      ensures at[m] <= at[n] + 20
      ensures es[m].TimerFires? && at[m] == at[n] + 20 ==> Stamps(ss[m].link, es[m], at[m], id)
      ensures es[m].TimerFires? && Stamps(ss[m].link, es[m], at[m], id) ==> at[m] == at[n] + 20
    {
      TimerForAlone(n, m - 1, id);
      StaysOnTime(m);
      assert Timely(ss[m], es[m], at[m]);
    }

    /** The two-sided bound, however many timers are pending: on an open connection whose timers fire
        when due, an element is never 40 seconds past its last transmission, each retry resends it
        between 20 and 40 seconds after, and as long as anything is in flight a timer is pending
        that falls due within 20 seconds. */
    lemma RetransmissionBound(n: nat)
      requires Valid() && Prompt() && n < |es| && ss[n].link.open
      ensures forall k :: k in ss[n].link.inflight ==> 0 <= Age(ss[n].link.inflight[k], at[n]) < 40
      ensures es[n].TimerFires? ==> forall k :: k in ss[n].link.inflight ==>
        (k in DueIds(ss[n].link.inflight, at[n]) <==> 20 <= Age(ss[n].link.inflight[k], at[n]) < 40)
      ensures ss[n + 1].link.open && ss[n + 1].link.inflight != map[] ==> ArmedBefore(ss[n + 1], at[n] + 20)
    {
      StaysOnTime(n);
      assert Timely(ss[n], es[n], at[n]) && Step(ss[n], es[n], at[n], ss[n + 1]);
    }
  }

  /** An event that does not transmit the element again leaves a timer for it. */
  lemma TimerStep(s: State, e: Event, now: nat, s': State, id: nat, t: nat)
    requires Step(s, e, now, s') && !e.Arm? && s.link.open
    requires id in s.link.inflight && s.link.inflight[id].timestamp == t
    requires id in s'.link.inflight && s'.link.inflight[id].timestamp == t
    requires e.TimerFires? ==>
      s.link.inflight.Keys == {id} && ArmedForYoung(s.link.inflight, now, s'.link.timer)
    requires s.link.timer.Some? && s.link.timer.value <= t + 20
    ensures s'.link.timer.Some? && s'.link.timer.value <= t + 20
  {
    match e
    case TimerFires(due) =>
      RetryMoves(s.link, due, now, s'.link, id);
    case _ =>
  }

  lemma OnTimeStep(s: State, e: Event, now: nat, s': State)
    requires OnTime(s, now) && Timely(s, e, now) && Step(s, e, now, s') && s.link.open
    ensures s'.link.open ==> OnTime(s', now)
  {
    match e
    case TimerFires(due) => if s.link.inflight != map[] { FiredInReach(s, due, now, s'); }
    case PublishOut(p) => PublishedInReach(s, p, now, s');
    case _ => KeptInReach(s, e, now, s');
  }

  lemma FiredInReach(s: State, due: nat, now: nat, s': State)
    requires OnTime(s, now) && Fired(s, due, now, s') && s.link.open && s.link.inflight != map[]
    ensures OnTime(s', now)
  {
    var d := s'.link.timer.value;
    assert d in s'.pending;
    forall k | k in s'.link.inflight
      ensures s'.link.inflight[k].timestamp <= now && d - s'.link.inflight[k].timestamp < 2 * RETRY_INTERVAL
    {
      assert k in s.link.inflight;
    }
    assert InReach(s', d);
  }

  lemma PublishedInReach(s: State, p: PublishPacket, now: nat, s': State)
    requires OnTime(s, now) && Becomes(s, Published(s.link, p, now), s')
    ensures OnTime(s', now)
  {
    if s.link.inflight != map[] {
      var due :| due in s.pending && InReach(s, due);
      assert due in s'.pending && InReach(s', due);
    } else if s'.link.inflight != map[] {
      assert s'.link.timer.value in s'.pending && InReach(s', s'.link.timer.value);
    }
  }

  lemma KeptInReach(s: State, e: Event, now: nat, s': State)
    requires OnTime(s, now) && Step(s, e, now, s') && !e.TimerFires? && !e.PublishOut?
    ensures OnTime(s', now)
  {
    if s'.link.inflight != map[] {
      assert s.link.inflight != map[];
      var due :| due in s.pending && InReach(s, due);
      assert due in s'.pending && InReach(s', due);
    }
  }
}

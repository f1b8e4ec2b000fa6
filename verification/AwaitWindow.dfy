/** The receive window for QoS 2 publications (registerPublishPacketId, isAwaitingFull,
    expireAwaitingRel and pubRel in broker/client.go), over a clock that is finer than the whole
    seconds the code records. */
module AwaitWindow {

  /** Clock ticks per second (time.Time counts nanoseconds). */
  const TICKS: nat := 1_000_000_000
  const AWAIT_REL_TIMEOUT: nat := 20

  /** time.Now().Unix(): whole seconds, truncated. */
  function Unix(t: nat): nat {
    t / TICKS
  }

  function Due(t: nat): nat {
    t + AWAIT_REL_TIMEOUT * TICKS
  }

  /** `since`: the registration time of every awaited packet id; `timers`: when the pending
      time.AfterFunc calls of expireAwaitingRel fall due; `limit`: maxAwaitingRel. */
  datatype Window = Window(since: map<nat, nat>, timers: multiset<nat>, limit: int)

  /** The window takes no more ids; a limit of 0 means no limit. */
  predicate Full(w: Window) {
    w.limit != 0 && |w.since| >= w.limit
  }

  predicate Registers(w: Window, id: nat) {
    !Full(w) && id !in w.since
  }

  function Registered(w: Window, id: nat, now: nat): Window {
    if Registers(w, id) then w.(since := w.since[id := now], timers := w.timers + multiset{Due(now)}) else w
  }

  function Released(w: Window, id: nat): Window {
    w.(since := w.since - {id})
  }

  predicate Expires(w: Window, id: nat, now: nat) {
    id in w.since && Unix(now) - Unix(w.since[id]) >= AWAIT_REL_TIMEOUT
  }

  function Expired(w: Window, now: nat): Window {
    w.(since := map id | id in w.since && !Expires(w, id, now) :: w.since[id])
  }

  datatype Event = PublishQos2(id: nat) | PubrelIn(id: nat) | Fire(due: nat)

  /** A timer fires at its due time or later. */
  predicate Enabled(w: Window, e: Event, now: nat) {
    e.Fire? ==> e.due in w.timers && e.due <= now
  }

  function Step(w: Window, e: Event, now: nat): Window {
    match e
    case PublishQos2(id) => Registered(w, id, now)
    case PubrelIn(id) => Released(w, id)
    case Fire(due) => Expired(w.(timers := w.timers - multiset{due}), now)
  }

  /** The whole seconds the code records. */
  function Stamps(since: map<nat, nat>): map<nat, nat> {
    map id | id in since :: Unix(since[id])
  }

  class AwaitingRel {
    var awaitingRel: map<nat, nat>
    const maxAwaitingRel: int

    /** The exact registration times, and the timers the runtime holds. */
    ghost var window: Window

    ghost predicate Valid()
      reads this
    {
      && window.limit == maxAwaitingRel
      && awaitingRel == Stamps(window.since)
    }

    constructor (limit: int)
      ensures Valid() && window == Window(map[], multiset{}, limit)
    {
      awaitingRel := map[];
      maxAwaitingRel := limit;
      window := Window(map[], multiset{}, limit);
    }

    method IsAwaitingFull() returns (full: bool)
      requires Valid()
      ensures full <==> maxAwaitingRel != 0 && |window.since| >= maxAwaitingRel
    {
      assert awaitingRel.Keys == window.since.Keys;
      assert |awaitingRel| == |awaitingRel.Keys| && |window.since| == |window.since.Keys|;
      if maxAwaitingRel == 0 {
        return false;
      }
      if |awaitingRel| < maxAwaitingRel {
        return false;
      }
      return true;
    }

    method RegisterPublishPacketId(id: nat, now: nat) returns (ok: bool)
      requires Valid()
      modifies this
      ensures Valid()
      ensures ok <==> id !in old(window).since && (maxAwaitingRel == 0 || |old(window).since| < maxAwaitingRel)
      ensures window.since == if ok then old(window).since[id := now] else old(window).since
      ensures window == Registered(old(window), id, now)
    {
      var full := IsAwaitingFull();
      if full {
        return false;
      }
      if id in awaitingRel {
        return false;
      }
      awaitingRel := awaitingRel[id := Unix(now)];
      window := Registered(window, id, now);
      return true;
    }

    /** One fired timer: every entry that is 20 whole seconds old goes, in any order. */
    method ExpireAwaitingRel(ghost due: nat, now: nat)
      requires Valid() && Enabled(window, Fire(due), now)
      modifies this
      ensures Valid()
      ensures window == Step(old(window), Fire(due), now)
    {
      if |awaitingRel| == 0 {
        window := Step(window, Fire(due), now);
        return;
      }
      var todo := awaitingRel.Keys;
      ghost var all := awaitingRel;
      while todo != {}
        invariant todo <= all.Keys
        invariant window == old(window)
        invariant awaitingRel == map id | id in all && (id in todo || !Expires(window, id, now)) :: all[id]
      {
        var id :| id in todo;
        if Unix(now) - awaitingRel[id] >= AWAIT_REL_TIMEOUT {
          awaitingRel := awaitingRel - {id};
        }
        todo := todo - {id};
      }
      window := Step(window, Fire(due), now);
    }

    method PubRel(id: nat) returns (ok: bool)
      requires Valid()
      modifies this
      ensures Valid()
      ensures ok <==> id in old(window).since
      ensures forall k :: k in window.since <==> k in old(window).since && k != id
      ensures forall k :: k in window.since ==> window.since[k] == old(window).since[k]
      ensures window == Released(old(window), id)
    {
      if id in awaitingRel {
        awaitingRel := awaitingRel - {id};
        window := Released(window, id);
        return true;
      }
      assert window.since - {id} == window.since;
      return false;
    }
  }

  // ---------------------------------------------------------------------
  // Runs
  // ---------------------------------------------------------------------

  /** The event routes a publication with this id: its registration succeeded. */
  predicate Routes(w: Window, e: Event, id: nat) {
    e == PublishQos2(id) && Registers(w, id)
  }

  /** The event takes the id out of the window. */
  predicate Removes(w: Window, e: Event, now: nat, id: nat) {
    id in w.since && id !in Step(w, e, now).since
  }

  /** Every entry has a pending timer set by its own registration. */
  ghost predicate Covers(w: Window) {
    forall id :: id in w.since ==> Due(w.since[id]) in w.timers
  }

  lemma CoverStep(w: Window, e: Event, now: nat)
    requires Covers(w) && Enabled(w, e, now)
    ensures Covers(Step(w, e, now))
  {
    var w' := Step(w, e, now);
    forall id | id in w'.since
      ensures Due(w'.since[id]) in w'.timers
    {
      if e.Fire? {
        if Due(w.since[id]) == e.due { DueExpires(w.since[id], now); }
      } else if id in w.since {
        assert Due(w.since[id]) in w.timers;
      }
    }
  }

  lemma LimitStep(w: Window, e: Event, now: nat)
    requires w.limit > 0 && |w.since| <= w.limit
    ensures |Step(w, e, now).since| <= w.limit
  {
    var w' := Step(w, e, now);
    assert |w'.since| == |w'.since.Keys| && |w.since| == |w.since.Keys|;
    if !e.PublishQos2? {
      Smaller(w'.since.Keys, w.since.Keys);
    } else if Registers(w, e.id) {
      assert w'.since.Keys == w.since.Keys + {e.id};
    }
  }

  datatype Run = Run(ws: seq<Window>, es: seq<Event>, at: seq<nat>) {
    ghost predicate Valid() {
      && |ws| == |es| + 1 && |at| == |es|
      && ws[0].since == map[] && ws[0].timers == multiset{}
      && (forall i, j :: 0 <= i < j < |at| ==> at[i] <= at[j])
      && forall i :: 0 <= i < |es| ==> Enabled(ws[i], es[i], at[i]) && ws[i + 1] == Step(ws[i], es[i], at[i])
    }

    ghost function Routings(id: nat, n: nat): nat
      requires Valid() && n <= |es|
    {
      if n == 0 then 0 else Routings(id, n - 1) + if Routes(ws[n - 1], es[n - 1], id) then 1 else 0
    }

    ghost function Removals(id: nat, n: nat): nat
      requires Valid() && n <= |es|
    {
      if n == 0 then 0 else Removals(id, n - 1) + if Removes(ws[n - 1], es[n - 1], at[n - 1], id) then 1 else 0
    }

    /** Conservation: every routing of an id is matched by a removal, except the one whose entry is
        still in the window. */
    lemma {:induction false} Balance(id: nat, n: nat)
      requires Valid() && n <= |es|
      ensures Routings(id, n) - Removals(id, n) == if id in ws[n].since then 1 else 0
    {
      if n > 0 {
        Balance(id, n - 1);
        assert ws[n] == Step(ws[n - 1], es[n - 1], at[n - 1]);
      }
    }

    /** Event i took the id into the window: a PUBLISH with an id that is not in it, while it has room. */
    ghost predicate Took(i: nat, id: nat)
      requires |ws| == |es| + 1 && i < |es|
    {
      && es[i] == PublishQos2(id) && id !in ws[i].since
      && (ws[i].limit == 0 || |ws[i].since| < ws[i].limit)
    }

    /** Event k ends what event i took: a PUBREL with that id, or a timer that fires 20 counted seconds
        later or more. */
    ghost predicate EndedBy(k: nat, i: nat, id: nat)
      requires |at| == |es| && k < |es| && i < |es|
    {
      es[k] == PubrelIn(id) || (es[k].Fire? && Unix(at[k]) - Unix(at[i]) >= 20)
    }

    /** Event i took the id, and nothing ended that in the first n events. */
    ghost predicate Standing(i: nat, n: nat, id: nat)
      requires |ws| == |es| + 1 && |at| == |es| && n <= |es|
    {
      i < n && Took(i, id) && forall k :: i < k < n ==> !EndedBy(k, i, id)
    }

    /** The window is the history: an id is in it, with the time it was taken, exactly when some event
        took it and neither a PUBREL of that id nor a timer of that age came since. */
    lemma {:induction false} WindowIsHistory(n: nat, id: nat)
      requires Valid() && n <= |es|
      ensures id in ws[n].since <==> exists i: nat :: Standing(i, n, id)
      ensures forall i: nat :: Standing(i, n, id) ==> ws[n].since[id] == at[i]
    {
      if n > 0 {
        var m := n - 1;
        WindowIsHistory(m, id);
        assert Enabled(ws[m], es[m], at[m]) && ws[n] == Step(ws[m], es[m], at[m]);
        MovesOne(ws[m], es[m], at[m], id);
        HistoryStep(n, id);
        if Took(m, id) {
          assert Standing(m, n, id);
        } else if id in ws[n].since {
          var i: nat :| Standing(i, m, id);
          assert Standing(i, n, id);
        }
      }
    }

    lemma HistoryStep(n: nat, id: nat)
      requires Valid() && 0 < n <= |es|
      ensures Standing(n - 1, n, id) <==> Took(n - 1, id)
      ensures forall i: nat :: i < n - 1 ==> (Standing(i, n, id) <==> Standing(i, n - 1, id) && !EndedBy(n - 1, i, id))
    {
    }

    /** At most once (section 4.3.3 of MQTT Version 3.1.1): when an id came into the window by event i and
        comes into it again by event j, a PUBREL with that id lies in between, or a timer that fired 20
        counted seconds after event i or later. */
    lemma AtMostOnce(id: nat, i: nat, j: nat)
      requires Valid() && i < j < |es|
      requires id !in ws[i].since && id in ws[i + 1].since
      requires id !in ws[j].since && id in ws[j + 1].since
      ensures exists k :: i < k < j && EndedBy(k, i, id)
    {
      WindowIsHistory(i, id);
      WindowIsHistory(i + 1, id);
      WindowIsHistory(j, id);
      HistoryStep(i + 1, id);
      assert Standing(i, i + 1, id);
      assert !Standing(i, j, id);
    }

    /** Every entry is covered by the timer of its own registration, and a positive limit is never
        exceeded. */
    lemma {:induction false} Covered(n: nat)
      requires Valid() && n <= |es|
      ensures Covers(ws[n]) && ws[n].limit == ws[0].limit
      ensures ws[0].limit > 0 ==> |ws[n].since| <= ws[0].limit
    {
      if n > 0 {
        Covered(n - 1);
        assert Enabled(ws[n - 1], es[n - 1], at[n - 1]);
        CoverStep(ws[n - 1], es[n - 1], at[n - 1]);
        if ws[0].limit > 0 {
          LimitStep(ws[n - 1], es[n - 1], at[n - 1]);
        }
      }
    }

    /** Every timer fires at the time it is due. */
    ghost predicate OnTime()
      requires |at| == |es|
    {
      forall i :: 0 <= i < |es| && es[i].Fire? ==> at[i] == es[i].due
    }

    /** Some event before n registered an id at this time. */
    ghost predicate RegisteredAt(n: nat, t: nat)
      requires |ws| == |es| + 1 && |at| == |es| && n <= |es|
    {
      exists i, id :: 0 <= i < n && Routes(ws[i], es[i], id) && at[i] == t
    }

    /** Every pending timer was set by a registration. */
    lemma {:induction false} TimerOrigin(n: nat, due: nat)
      requires Valid() && n <= |es| && due in ws[n].timers
      ensures exists t :: due == Due(t) && RegisteredAt(n, t)
    {
      var e, w := es[n - 1], ws[n - 1];
      assert ws[n] == Step(w, e, at[n - 1]);
      if due in w.timers {
        TimerOrigin(n - 1, due);
        var t :| due == Due(t) && RegisteredAt(n - 1, t);
        assert RegisteredAt(n, t);
      } else {
        assert Routes(w, e, e.id);
        assert due == Due(at[n - 1]) && RegisteredAt(n, at[n - 1]);
      }
    }

    /** With timers on time, a timer is pending until it is due. */
    lemma {:induction false} PendingUntilDue(i: nat, id: nat, n: nat)
      requires Valid() && OnTime() && i < n <= |es| && Routes(ws[i], es[i], id) && at[n - 1] < Due(at[i])
      ensures Due(at[i]) in ws[n].timers
    {
      assert ws[n] == Step(ws[n - 1], es[n - 1], at[n - 1]);
      if i < n - 1 {
        assert at[n - 2] <= at[n - 1];
        PendingUntilDue(i, id, n - 1);
      }
    }

    /** A registration can be cut short exactly when another one was made earlier in the same
        counted second: its timer is then pending, and will take the new entry along. */
    lemma AtRiskIff(n: nat, id: nat)
      requires Valid() && OnTime() && n < |es| && Routes(ws[n], es[n], id)
      ensures id in ws[n + 1].since
      ensures AtRisk(ws[n + 1], id) <==> RegisteredJustBefore(n)
    {
      assert ws[n + 1] == Step(ws[n], es[n], at[n]);
      if AtRisk(ws[n + 1], id) {
        RiskHasOrigin(n, id);
      }
      if RegisteredJustBefore(n) {
        OriginIsRisk(n, id);
      }
    }

    /** An id was registered before event n, in the same counted second but at an earlier time. */
    ghost predicate RegisteredJustBefore(n: nat)
      requires |ws| == |es| + 1 && |at| == |es| && n < |es|
    {
      exists t :: t < at[n] && Unix(t) == Unix(at[n]) && RegisteredAt(n, t)
    }

    lemma RiskHasOrigin(n: nat, id: nat)
      requires Valid() && n < |es| && Routes(ws[n], es[n], id)
      requires id in ws[n + 1].since && AtRisk(ws[n + 1], id)
      ensures RegisteredJustBefore(n)
    {
      var w := ws[n + 1];
      assert w == Step(ws[n], es[n], at[n]);
      var due :| due in w.timers && Undercuts(w, due, id);
      assert due in ws[n].timers;
      TimerOrigin(n, due);
      var t :| due == Due(t) && RegisteredAt(n, t);
      DueShift(t, at[n]);
    }

    lemma OriginIsRisk(n: nat, id: nat)
      requires Valid() && OnTime() && n < |es| && Routes(ws[n], es[n], id)
      requires id in ws[n + 1].since && RegisteredJustBefore(n)
      ensures AtRisk(ws[n + 1], id)
    {
      var w := ws[n + 1];
      assert w == Step(ws[n], es[n], at[n]);
      var t :| t < at[n] && Unix(t) == Unix(at[n]) && RegisteredAt(n, t);
      var i, id' :| 0 <= i < n && Routes(ws[i], es[i], id') && at[i] == t;
      DueShift(t, at[n]);
      assert at[n - 1] <= at[n] < Due(t);
      PendingUntilDue(i, id', n);
      assert Due(t) in w.timers && Undercuts(w, Due(t), id);
    }

    /** Timers fire at the time they are due, and none is passed over. */
    ghost predicate Punctual()
      requires |ws| == |es| + 1 && |at| == |es|
    {
      OnTime() && forall i, due :: 0 <= i < |es| && due in ws[i].timers ==> at[i] <= due
    }

    lemma {:induction false} SinceKept(id: nat, i: nat, n: nat)
      requires Valid() && i < n <= |es| && Routes(ws[i], es[i], id)
      requires forall k :: i < k < n ==> !Removes(ws[k], es[k], at[k], id)
      ensures id in ws[n].since && ws[n].since[id] == at[i]
    {
      assert ws[n] == Step(ws[n - 1], es[n - 1], at[n - 1]);
      if i < n - 1 {
        SinceKept(id, i, n - 1);
        assert !Removes(ws[n - 1], es[n - 1], at[n - 1], id);
      }
    }

    lemma {:induction false} PendingOrFired(due: nat, i: nat, n: nat)
      requires Valid() && i <= n <= |es| && due in ws[i].timers
      ensures due in ws[n].timers || exists m :: i <= m < n && es[m] == Fire(due)
    {
      if i < n {
        PendingOrFired(due, i, n - 1);
        assert ws[n] == Step(ws[n - 1], es[n - 1], at[n - 1]);
      }
    }

    /** With punctual timers, the expiry of an entry comes before its full 20 seconds exactly when
        another registration was made before it in the same counted second. */
    lemma EarlyExpiryIff(i: nat, n: nat, id: nat)
      requires Valid() && Punctual() && i < n < |es|
      requires Routes(ws[i], es[i], id) && es[n].Fire? && Removes(ws[n], es[n], at[n], id)
      requires forall k :: i < k < n ==> !Removes(ws[k], es[k], at[k], id)
      ensures at[n] - at[i] < AWAIT_REL_TIMEOUT * TICKS <==> RegisteredJustBefore(i)
    {
      SinceKept(id, i, n);
      FiresEarlyIff(ws[n], es[n].due, id);
      if Undercuts(ws[n], es[n].due, id) {
        EarlyHasOrigin(i, n, id);
      }
      if RegisteredJustBefore(i) {
        OriginIsEarly(i, n, id);
      }
    }

    lemma EarlyHasOrigin(i: nat, n: nat, id: nat)
      requires Valid() && i < n < |es| && es[n].Fire?
      requires id in ws[n].since && ws[n].since[id] == at[i] && Undercuts(ws[n], es[n].due, id)
      ensures RegisteredJustBefore(i)
    {
      assert Enabled(ws[n], es[n], at[n]);
      TimerOrigin(n, es[n].due);
      var t :| es[n].due == Due(t) && RegisteredAt(n, t);
      DueShift(t, at[i]);
      var j, id' :| 0 <= j < n && Routes(ws[j], es[j], id') && at[j] == t;
      assert j < i;
      assert RegisteredAt(i, t);
    }

    lemma OriginIsEarly(i: nat, n: nat, id: nat)
      requires Valid() && Punctual() && i < n < |es| && Routes(ws[i], es[i], id)
      requires forall k :: i < k < n ==> !Removes(ws[k], es[k], at[k], id)
      requires RegisteredJustBefore(i)
      ensures at[n] < Due(at[i])
    {
      SinceKept(id, i, i + 1);
      OriginIsRisk(i, id);
      var due :| due in ws[i + 1].timers && Undercuts(ws[i + 1], due, id);
      PendingOrFired(due, i + 1, n);
      if due !in ws[n].timers {
        var m :| i + 1 <= m < n && es[m] == Fire(due);
        SinceKept(id, i, m);
        FiresEarlyIff(ws[m], due, id);
      }
    }

    /** With punctual timers no entry is in the window 20 seconds after its registration. */
    lemma GoneAfter20(n: nat, id: nat)
      requires Valid() && Punctual() && n < |es| && id in ws[n].since
      ensures at[n] <= ws[n].since[id] + 20 * TICKS
    {
      Covered(n);
    }

    /** The covering timer removes its entry whenever it fires, so an entry is gone 20 seconds after
        its registration when timers fire on time. */
    lemma CoveringTimerExpires(n: nat, id: nat, now: nat)
      requires Valid() && n <= |es| && id in ws[n].since && now >= Due(ws[n].since[id])
      ensures Enabled(ws[n], Fire(Due(ws[n].since[id])), now)
      ensures Removes(ws[n], Fire(Due(ws[n].since[id])), now, id)
    {
      Covered(n);
      DueExpires(ws[n].since[id], now);
    }
  }

  /** What one event does to one id. */
  lemma MovesOne(w: Window, e: Event, now: nat, id: nat)
    requires Enabled(w, e, now)
    ensures var w' := Step(w, e, now);
      if e == PublishQos2(id) && id !in w.since && (w.limit == 0 || |w.since| < w.limit) then
        id in w'.since && w'.since[id] == now
      else
        && (id in w'.since <==>
              id in w.since && e != PubrelIn(id) && !(e.Fire? && Unix(now) - Unix(w.since[id]) >= 20))
        && (id in w'.since ==> w'.since[id] == w.since[id])
  {
  }

  lemma DueShift(t: nat, t': nat)
    ensures Due(t) < Due(t') && Unix(Due(t)) == Unix(Due(t')) <==> t < t' && Unix(t) == Unix(t')
    ensures Unix(t) == Unix(t') ==> t' < Due(t)
  {
    assert Due(t) / TICKS == t / TICKS + AWAIT_REL_TIMEOUT && Due(t') / TICKS == t' / TICKS + AWAIT_REL_TIMEOUT;
  }

  /** The timer falls due before the entry's own, in the same counted second. */
  predicate Undercuts(w: Window, due: nat, id: nat)
    requires id in w.since
  {
    due < Due(w.since[id]) && Unix(due) == Unix(Due(w.since[id]))
  }

  /** A pending timer will remove the entry before its full 20 seconds. */
  ghost predicate AtRisk(w: Window, id: nat)
    requires id in w.since
  {
    exists due :: due in w.timers && Undercuts(w, due, id)
  }

  /** A timer that fires on time removes an entry early exactly when it undercuts it, which can be
      read off the window before the firing. */
  lemma FiresEarlyIff(w: Window, due: nat, id: nat)
    requires id in w.since
    ensures Removes(w, Fire(due), due, id) && due - w.since[id] < AWAIT_REL_TIMEOUT * TICKS <==> Undercuts(w, due, id)
  {
    var s := w.since[id];
    assert Due(s) / TICKS == s / TICKS + AWAIT_REL_TIMEOUT;
    if Removes(w, Fire(due), due, id) && due < Due(s) {
      assert Unix(due) <= Unix(Due(s));
    }
  }

  lemma DueExpires(t: nat, now: nat)
    requires now >= Due(t)
    ensures Unix(now) - Unix(t) >= AWAIT_REL_TIMEOUT
  {
    assert Due(t) / TICKS == t / TICKS + AWAIT_REL_TIMEOUT;
  }

  lemma Smaller<T>(a: set<T>, b: set<T>)
    requires a <= b
    ensures |a| <= |b|
  {
    assert |b| == |a| + |b - a| by { assert a + (b - a) == b; }
  }

  /** An expiry, by whichever timer, removes an entry only after 20 counted seconds, hence more
      than 19 real ones; it comes before the full 20 exactly when the counted age is 20 and the
      firing is earlier within its second than the registration was, however late timers fire. */
  lemma ExpiryAge(w: Window, id: nat, due: nat, now: nat)
    requires Removes(w, Fire(due), now, id)
    ensures now - w.since[id] > 19 * TICKS
    ensures now - w.since[id] < AWAIT_REL_TIMEOUT * TICKS <==>
      Unix(now) - Unix(w.since[id]) == AWAIT_REL_TIMEOUT && now % TICKS < w.since[id] % TICKS
  {
    var s := w.since[id];
    assert s == Unix(s) * TICKS + s % TICKS && now == Unix(now) * TICKS + now % TICKS;
  }

  /** The early case happens: an id registered at the start of a second, released, and registered
      again late in that second goes with the older timer. */
  lemma OlderTimerCanBeEarly(id: nat, r: Run)
    requires r.es == [PublishQos2(id), PubrelIn(id), PublishQos2(id), Fire(Due(0))]
    requires r.at == [0, 0, TICKS - 1, Due(0)] && |r.ws| == 5
    requires r.ws[0] == Window(map[], multiset{}, 0)
    requires forall i :: 0 <= i < 4 ==> r.ws[i + 1] == Step(r.ws[i], r.es[i], r.at[i])
    ensures r.Valid()
    ensures Removes(r.ws[3], r.es[3], r.at[3], id) && r.ws[3].since[id] == TICKS - 1
    ensures r.at[3] - r.ws[3].since[id] < AWAIT_REL_TIMEOUT * TICKS
  {
    assert r.ws[1].since == map[id := 0];
    assert r.ws[2].since == map[];
    assert r.ws[3].since == map[id := TICKS - 1];
    assert r.ws[3].timers == multiset{Due(0), Due(TICKS - 1)};
  }
}

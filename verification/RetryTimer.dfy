/** The race between publishers and the self-rearming retry timer (publish, ensureRetryTimer,
    resetRetryTimer and retryDelivery in broker/comm.go), one step per access to shared state.
    Any number of publishers and of fired retryDelivery calls run at the same time. */
module RetryTimer {
  import opened Basics

  /** Where a publisher is inside publish. */
  datatype Publisher =
    | Inserted            // the element is in the table
    | Wrote               // the packet was written
    | SawNoTimer          // ensureRetryTimer read a nil field
    | StartedP(t: nat)    // the timer runs, the field is not assigned yet

  /** Where a fired timer is inside retryDelivery; `last` marks the final ensureRetryTimer. */
  datatype Delivery =
    | Fired
    | Clearing            // resetRetryTimer read a field that is not nil
    | Snapshotting        // after resetRetryTimer
    | Resending           // in the loop over the snapshot
    | SawNone(last: bool)
    | StartedD(t: nat, last: bool)

  /** The holder of retryTimerLock. Starting a timer and assigning the field happen under it, and
      so does clearing the field; the checks for nil do not. */
  datatype Lock = Free | ByPublisher(p: nat) | ByDelivery(d: nat)

  /** `timers`: running timers; `field`: the retryTimer field; `next`: the next fresh timer. */
  datatype State = State(
    open: bool,
    inflight: set<nat>,
    field: Option<nat>,
    lock: Lock,
    timers: set<nat>,
    publishers: map<nat, Publisher>,
    deliveries: map<nat, Delivery>,
    next: nat)

  const INITIAL := State(true, {}, None, Free, {}, map[], map[], 0)

  datatype Event =
    | Insert(p: nat, id: nat)
    | Write(p: nat)
    | CheckP(p: nat)
    | StartP(p: nat)
    | AssignP(p: nat)
    | Fire(t: nat)
    | ResetCheck(d: nat)
    | ResetClear(d: nat)
    | Snapshot(d: nat)
    | CheckD(d: nat, last: bool)
    | StartD(d: nat)
    | AssignD(d: nat)
    | Acknowledge(id: nat)
    | CloseConnection

  predicate PublisherAt(s: State, p: nat, pc: Publisher) {
    p in s.publishers && s.publishers[p] == pc
  }

  predicate DeliveryAt(s: State, d: nat, pc: Delivery) {
    d in s.deliveries && s.deliveries[d] == pc
  }

  predicate Enabled(s: State, e: Event) {
    match e
    case Insert(p, _) => p !in s.publishers
    case Write(p) => PublisherAt(s, p, Inserted)
    case CheckP(p) => PublisherAt(s, p, Wrote)
    case StartP(p) => PublisherAt(s, p, SawNoTimer) && s.lock == Free
    case AssignP(p) => p in s.publishers && s.publishers[p].StartedP?
    case Fire(t) => t in s.timers
    case ResetCheck(d) => DeliveryAt(s, d, Fired)
    case ResetClear(d) => DeliveryAt(s, d, Clearing) && s.lock == Free
    case Snapshot(d) => DeliveryAt(s, d, Snapshotting)
    case CheckD(d, _) => DeliveryAt(s, d, Resending)
    case StartD(d) => d in s.deliveries && s.deliveries[d].SawNone? && s.lock == Free
    case AssignD(d) => d in s.deliveries && s.deliveries[d].StartedD?
    case Acknowledge(_) => true
    case CloseConnection => true
  }

  function Step(s: State, e: Event): State
    requires Enabled(s, e)
  {
    match e
    case Insert(p, id) => s.(inflight := s.inflight + {id}, publishers := s.publishers[p := Inserted])
    case Write(p) => s.(publishers := s.publishers[p := Wrote])
    case CheckP(p) =>
      if s.field.Some? then s.(publishers := s.publishers - {p})
      else s.(publishers := s.publishers[p := SawNoTimer])
    case StartP(p) =>
      s.(lock := ByPublisher(p), timers := s.timers + {s.next},
         publishers := s.publishers[p := StartedP(s.next)], next := s.next + 1)
    case AssignP(p) =>
      s.(lock := Free, field := Some(s.publishers[p].t), publishers := s.publishers - {p})
    case Fire(t) => s.(timers := s.timers - {t}, deliveries := s.deliveries[t := Fired])
    case ResetCheck(d) =>
      s.(deliveries := s.deliveries[d := if s.field.None? then Snapshotting else Clearing])
    case ResetClear(d) => s.(field := None, deliveries := s.deliveries[d := Snapshotting])
    case Snapshot(d) =>
      if !s.open || s.inflight == {} then s.(deliveries := s.deliveries - {d})
      else s.(deliveries := s.deliveries[d := Resending])
    case CheckD(d, last) =>
      if s.field.Some? then Leave(s, d, last)
      else s.(deliveries := s.deliveries[d := SawNone(last)])
    case StartD(d) =>
      s.(lock := ByDelivery(d), timers := s.timers + {s.next},
         deliveries := s.deliveries[d := StartedD(s.next, s.deliveries[d].last)], next := s.next + 1)
    case AssignD(d) =>
      Leave(s.(lock := Free, field := Some(s.deliveries[d].t)), d, s.deliveries[d].last)
    case Acknowledge(id) => s.(inflight := s.inflight - {id})
    case CloseConnection => s.(open := false)
  }

  /** ensureRetryTimer returns: into the loop, or out of retryDelivery. */
  function Leave(s: State, d: nat, last: bool): State {
    if last then s.(deliveries := s.deliveries - {d}) else s.(deliveries := s.deliveries[d := Resending])
  }

  /** States reached from s, one per event. */
  ghost predicate Continues(s: State, ss: seq<State>, es: seq<Event>) {
    && |ss| == |es| + 1
    && ss[0] == s
    && forall i :: 0 <= i < |es| ==> Enabled(ss[i], es[i]) && ss[i + 1] == Step(ss[i], es[i])
  }

  ghost predicate IsRun(ss: seq<State>, es: seq<Event>) {
    Continues(INITIAL, ss, es)
  }

  /** Retransmission is still going to happen. */
  predicate Safe(s: State) {
    s.open && s.inflight != {} ==> s.timers != {} || s.publishers != map[] || s.deliveries != map[]
  }

  predicate HasNotReset(s: State, d: nat) {
    DeliveryAt(s, d, Fired) || DeliveryAt(s, d, Clearing)
  }

  /** The timer neither runs nor is its retryDelivery still going to reset the field. */
  predicate Dead(s: State, t: nat) {
    t !in s.timers && !HasNotReset(s, t)
  }

  predicate DeadField(s: State) {
    s.field.Some? && Dead(s, s.field.value)
  }

  /** The step records a timer that is dead already. */
  predicate LateAssign(s: State, e: Event) {
    match e
    case AssignP(p) => PublisherStarted(s, p) && Dead(s, s.publishers[p].t)
    case AssignD(d) => DeliveryStarted(s, d) && Dead(s, s.deliveries[d].t)
    case _ => false
  }

  predicate PublisherStarted(s: State, p: nat) {
    p in s.publishers && s.publishers[p].StartedP?
  }

  predicate DeliveryStarted(s: State, d: nat) {
    d in s.deliveries && s.deliveries[d].StartedD?
  }

  /** What every step keeps: timers are used once, and the lock is held exactly by the thread
      between starting a timer and assigning the field. */
  ghost predicate Consistent(s: State) {
    && (forall t :: t in s.timers || t in s.deliveries ==> t < s.next)
    && s.timers !! s.deliveries.Keys
    && (forall p :: PublisherStarted(s, p) <==> s.lock == ByPublisher(p))
    && (forall d :: DeliveryStarted(s, d) <==> s.lock == ByDelivery(d))
  }

  lemma StepConsistent(s: State, e: Event)
    requires Consistent(s) && Enabled(s, e)
    ensures Consistent(Step(s, e))
  {
    var s' := Step(s, e);
    assert e.AssignP? ==> PublisherStarted(s, e.p);
    assert e.AssignD? ==> DeliveryStarted(s, e.d);
    forall p
      ensures PublisherStarted(s', p) <==> s'.lock == ByPublisher(p)
    {
      assert PublisherStarted(s, p) <==> s.lock == ByPublisher(p);
    }
    forall d
      ensures DeliveryStarted(s', d) <==> s'.lock == ByDelivery(d)
    {
      assert DeliveryStarted(s, d) <==> s.lock == ByDelivery(d);
    }
  }

  /** From a state whose field is not dead, the field dies exactly by a late assignment. */
  lemma StepDiesIff(s: State, e: Event)
    requires Consistent(s) && Enabled(s, e) && !DeadField(s)
    ensures DeadField(Step(s, e)) <==> LateAssign(s, e)
  {
  }

  lemma {:induction false} RunConsistent(ss: seq<State>, es: seq<Event>, i: nat)
    requires IsRun(ss, es) && i < |ss|
    ensures Consistent(ss[i])
  {
    if i > 0 {
      RunConsistent(ss, es, i - 1);
      StepConsistent(ss[i - 1], es[i - 1]);
    }
  }

  lemma {:induction false} AliveWithoutLate(ss: seq<State>, es: seq<Event>, i: nat)
    requires IsRun(ss, es) && i < |ss|
    requires forall j :: 0 <= j < i ==> !LateAssign(ss[j], es[j])
    ensures !DeadField(ss[i])
  {
    if i > 0 {
      AliveWithoutLate(ss, es, i - 1);
      RunConsistent(ss, es, i - 1);
      StepDiesIff(ss[i - 1], es[i - 1]);
    }
  }

  /** The field is alive throughout a run exactly when no assignment in it came late. */
  lemma NeverDeadIff(ss: seq<State>, es: seq<Event>)
    requires IsRun(ss, es)
    ensures (forall i :: 0 <= i < |ss| ==> !DeadField(ss[i])) <==>
            (forall i :: 0 <= i < |es| ==> !LateAssign(ss[i], es[i]))
  {
    if forall i :: 0 <= i < |ss| ==> !DeadField(ss[i]) {
      forall i | 0 <= i < |es|
        ensures !LateAssign(ss[i], es[i])
      {
        RunConsistent(ss, es, i);
        StepDiesIff(ss[i], es[i]);
        assert !DeadField(ss[i + 1]);
      }
    }
    if forall i :: 0 <= i < |es| ==> !LateAssign(ss[i], es[i]) {
      forall i | 0 <= i < |ss|
        ensures !DeadField(ss[i])
      {
        AliveWithoutLate(ss, es, i);
      }
    }
  }

  lemma StepSafeOrDead(s: State, e: Event)
    requires Enabled(s, e) && (Safe(s) || DeadField(s))
    ensures Safe(Step(s, e)) || DeadField(Step(s, e))
  {
    var s' := Step(s, e);
    match e
    case Fire(t) => assert t in s'.deliveries;
    case Insert(p, _) => assert p in s'.publishers;
    case Write(p) => assert p in s'.publishers;
    case CheckP(p) => if s.field.None? { assert p in s'.publishers; }
    case StartP(p) => assert p in s'.publishers;
    case ResetCheck(d) => assert d in s'.deliveries;
    case ResetClear(d) => assert d in s'.deliveries;
    case Snapshot(d) => if s.open && s.inflight != {} { assert d in s'.deliveries; }
    case CheckD(d, last) =>
      if s.field.None? { assert d in s'.deliveries; }
      else if HasNotReset(s, s.field.value) { assert s.field.value in s'.deliveries; }
    case StartD(d) => assert d in s'.deliveries;
    case AssignD(d) => if HasNotReset(s', s'.field.value) { assert s'.field.value in s'.deliveries; }
    case AssignP(p) => if HasNotReset(s', s'.field.value) { assert s'.field.value in s'.deliveries; }
    case _ =>
  }

  lemma {:induction false} LostOnlyByDeadField(ss: seq<State>, es: seq<Event>, i: nat)
    requires IsRun(ss, es) && i < |ss|
    ensures Safe(ss[i]) || DeadField(ss[i])
  {
    if i > 0 {
      LostOnlyByDeadField(ss, es, i - 1);
      StepSafeOrDead(ss[i - 1], es[i - 1]);
    }
  }

  /** The retry timer is never lost in a run without a late assignment: as long as the connection
      is open and something is in flight, a timer runs, a publisher is between its insertion and
      the end of its ensureRetryTimer, or a fired retryDelivery is unfinished. */
  lemma TimerNeverLost(ss: seq<State>, es: seq<Event>, i: nat)
    requires IsRun(ss, es) && i < |ss|
    requires forall j :: 0 <= j < i ==> !LateAssign(ss[j], es[j])
    ensures Safe(ss[i])
  {
    AliveWithoutLate(ss, es, i);
    LostOnlyByDeadField(ss, es, i);
  }

  // ---------------------------------------------------------------------
  // When the loss is for good
  // ---------------------------------------------------------------------

  /** The field names a dead timer, no timer runs, and nobody is left who would clear the field or
      start a timer. */
  ghost predicate Stuck(s: State) {
    && DeadField(s) && s.timers == {}
    && (forall p :: p in s.publishers ==> !s.publishers[p].SawNoTimer?)
    && (forall d :: d in s.deliveries ==> !HasNotReset(s, d) && !s.deliveries[d].SawNone?)
  }

  lemma StepStuck(s: State, e: Event)
    requires Stuck(s) && Enabled(s, e)
    ensures Stuck(Step(s, e))
  {
  }

  lemma {:induction false} StuckForever(s: State, ss: seq<State>, es: seq<Event>, i: nat)
    requires Stuck(s) && Continues(s, ss, es) && i < |ss|
    ensures Stuck(ss[i])
  {
    if i > 0 {
      StuckForever(s, ss, es, i - 1);
      StepStuck(ss[i - 1], es[i - 1]);
    }
  }

  /** Every state of a run in which retransmission is lost is stuck. */
  lemma UnsafeIsStuck(ss: seq<State>, es: seq<Event>, i: nat)
    requires IsRun(ss, es) && i < |ss| && !Safe(ss[i])
    ensures Stuck(ss[i])
  {
    LostOnlyByDeadField(ss, es, i);
  }

  /** Some continuation starts a timer, or one runs already. */
  ghost predicate Recovers(s: State) {
    exists ss: seq<State>, es :: Continues(s, ss, es) && ss[|es|].timers != {}
  }

  lemma RecoversNow(s: State)
    requires s.timers != {}
    ensures Recovers(s)
  {
    var ss, es: seq<Event> := [s], [];
    assert Continues(s, ss, es) && ss[|es|].timers != {};
  }

  lemma RecoversAfter(s: State, e: Event)
    requires Enabled(s, e) && Recovers(Step(s, e))
    ensures Recovers(s)
  {
    var ss: seq<State>, es :| Continues(Step(s, e), ss, es) && ss[|es|].timers != {};
    var ss', es' := [s] + ss, [e] + es;
    forall i | 0 <= i < |es'|
      ensures Enabled(ss'[i], es'[i]) && ss'[i + 1] == Step(ss'[i], es'[i])
    {
      if i > 0 { assert ss'[i] == ss[i - 1] && es'[i] == es[i - 1] && ss'[i + 1] == ss[i]; }
    }
    assert Continues(s, ss', es') && ss'[|es'|] == ss[|es|];
  }

  /** The step by which the holder of the lock lets it go. */
  function Release(s: State): Event
    requires s.lock != Free
  {
    if s.lock.ByPublisher? then AssignP(s.lock.p) else AssignD(s.lock.d)
  }

  lemma ReleaseFrees(s: State)
    requires Consistent(s) && s.lock != Free
    ensures Enabled(s, Release(s))
    ensures var s' := Step(s, Release(s)); Consistent(s') && s'.lock == Free && s'.timers == s.timers
  {
    assert s.lock.ByPublisher? ==> PublisherStarted(s, s.lock.p);
    assert s.lock.ByDelivery? ==> DeliveryStarted(s, s.lock.d);
    StepConsistent(s, Release(s));
  }

  /** A thread saw a nil field and will start a timer. */
  ghost predicate HasStarter(s: State) {
    || (exists p :: p in s.publishers && s.publishers[p].SawNoTimer?)
    || (exists d :: d in s.deliveries && s.deliveries[d].SawNone?)
  }

  lemma StarterRecovers(s: State)
    requires Consistent(s) && HasStarter(s)
    ensures Recovers(s)
  {
    if s.lock != Free {
      ReleaseFrees(s);
      var s' := Step(s, Release(s));
      if p :| p in s.publishers && s.publishers[p].SawNoTimer? {
        assert p in s'.publishers;
      } else {
        var d :| d in s.deliveries && s.deliveries[d].SawNone?;
        assert d in s'.deliveries;
      }
      FreeStarterRecovers(s');
      RecoversAfter(s, Release(s));
    } else {
      FreeStarterRecovers(s);
    }
  }

  lemma FreeStarterRecovers(s: State)
    requires s.lock == Free && HasStarter(s)
    ensures Recovers(s)
  {
    var e: Event;
    if p :| p in s.publishers && s.publishers[p].SawNoTimer? {
      e := StartP(p);
    } else {
      var d :| d in s.deliveries && s.deliveries[d].SawNone?;
      e := StartD(d);
    }
    assert s.next in Step(s, e).timers;
    RecoversNow(Step(s, e));
    RecoversAfter(s, e);
  }

  lemma {:induction false} FreshNat(used: set<nat>) returns (n: nat)
    ensures n !in used && forall m :: m in used ==> m < n
    decreases |used|
  {
    if used == {} {
      n := 0;
    } else {
      var m :| m in used;
      var k := FreshNat(used - {m});
      n := if m < k then k else m + 1;
      assert forall x :: x in used ==> x == m || x in used - {m};
    }
  }

  /** With a nil field the next publisher starts a timer. */
  lemma NilFieldRecovers(s: State)
    requires Consistent(s) && s.field == None
    ensures Recovers(s)
  {
    var p := FreshNat(s.publishers.Keys);
    var s1 := Step(s, Insert(p, 0));
    var s2 := Step(s1, Write(p));
    var s3 := Step(s2, CheckP(p));
    StepConsistent(s, Insert(p, 0));
    StepConsistent(s1, Write(p));
    StepConsistent(s2, CheckP(p));
    assert p in s3.publishers && s3.publishers[p].SawNoTimer?;
    StarterRecovers(s3);
    RecoversAfter(s2, CheckP(p));
    RecoversAfter(s1, Write(p));
    RecoversAfter(s, Insert(p, 0));
  }

  /** A retryDelivery that has not reset the field will clear it. */
  lemma ClearerRecovers(s: State, d: nat)
    requires Consistent(s) && HasNotReset(s, d)
    ensures Recovers(s)
  {
    if s.lock != Free {
      ReleaseFrees(s);
      FreeClearerRecovers(Step(s, Release(s)), d);
      RecoversAfter(s, Release(s));
    } else {
      FreeClearerRecovers(s, d);
    }
  }

  lemma FreeClearerRecovers(s: State, d: nat)
    requires Consistent(s) && HasNotReset(s, d) && s.lock == Free
    ensures Recovers(s)
  {
    if s.deliveries[d] == Fired {
      var s1 := Step(s, ResetCheck(d));
      StepConsistent(s, ResetCheck(d));
      if s1.field == None {
        NilFieldRecovers(s1);
      } else {
        ClearRecovers(s1, d);
      }
      RecoversAfter(s, ResetCheck(d));
    } else {
      ClearRecovers(s, d);
    }
  }

  lemma ClearRecovers(s: State, d: nat)
    requires Consistent(s) && DeliveryAt(s, d, Clearing) && s.lock == Free
    ensures Recovers(s)
  {
    StepConsistent(s, ResetClear(d));
    NilFieldRecovers(Step(s, ResetClear(d)));
    RecoversAfter(s, ResetClear(d));
  }

  /** Exactly the stuck states are beyond recovery: no continuation ever runs a timer again. */
  lemma StuckIff(s: State)
    requires Consistent(s)
    ensures Stuck(s) <==> !Recovers(s)
  {
    if Stuck(s) {
      forall ss: seq<State>, es | Continues(s, ss, es)
        ensures ss[|es|].timers == {}
      {
        StuckForever(s, ss, es, |es|);
      }
    } else if s.timers != {} {
      RecoversNow(s);
    } else if s.field == None {
      NilFieldRecovers(s);
    } else if HasStarter(s) {
      StarterRecovers(s);
    } else if HasNotReset(s, s.field.value) {
      ClearerRecovers(s, s.field.value);
    } else {
      var d :| d in s.deliveries && HasNotReset(s, d);
      ClearerRecovers(s, d);
    }
  }

  /** In the states of a run: retransmission is lost only where nothing can bring it back. */
  lemma LossIsPermanent(ss: seq<State>, es: seq<Event>, i: nat)
    requires IsRun(ss, es) && i < |ss|
    ensures Stuck(ss[i]) <==> !Recovers(ss[i])
    ensures !Safe(ss[i]) ==> Stuck(ss[i])
    ensures forall j :: i <= j < |ss| && Stuck(ss[i]) ==> Stuck(ss[j])
  {
    RunConsistent(ss, es, i);
    StuckIff(ss[i]);
    if !Safe(ss[i]) {
      UnsafeIsStuck(ss, es, i);
    }
    if Stuck(ss[i]) {
      forall j | i <= j < |ss|
        ensures Stuck(ss[j])
      {
        assert Continues(ss[i], ss[i..], es[i..]);
        StuckForever(ss[i], ss[i..], es[i..], j - i);
      }
    }
  }

  // ---------------------------------------------------------------------
  // It happens
  // ---------------------------------------------------------------------

  function LateEvents(p: nat, q: nat, id: nat): seq<Event> {
    [Insert(p, id), Write(p), CheckP(p), StartP(p), Fire(0), ResetCheck(0), Acknowledge(id),
     Snapshot(0), AssignP(p), Insert(q, id), Write(q), CheckP(q)]
  }

  function LateStates(p: nat, q: nat, id: nat): seq<State> {
    [INITIAL,
     State(true, {id}, None, Free, {}, map[p := Inserted], map[], 0),
     State(true, {id}, None, Free, {}, map[p := Wrote], map[], 0),
     State(true, {id}, None, Free, {}, map[p := SawNoTimer], map[], 0),
     State(true, {id}, None, ByPublisher(p), {0}, map[p := StartedP(0)], map[], 1),
     State(true, {id}, None, ByPublisher(p), {}, map[p := StartedP(0)], map[0 := Fired], 1),
     State(true, {id}, None, ByPublisher(p), {}, map[p := StartedP(0)], map[0 := Snapshotting], 1),
     State(true, {}, None, ByPublisher(p), {}, map[p := StartedP(0)], map[0 := Snapshotting], 1),
     State(true, {}, None, ByPublisher(p), {}, map[p := StartedP(0)], map[], 1),
     State(true, {}, Some(0), Free, {}, map[], map[], 1),
     State(true, {id}, Some(0), Free, {}, map[q := Inserted], map[], 1),
     State(true, {id}, Some(0), Free, {}, map[q := Wrote], map[], 1),
     State(true, {id}, Some(0), Free, {}, map[], map[], 1)]
  }

  lemma LateStep(p: nat, q: nat, id: nat, i: nat)
    requires i < 12
    ensures var s, e := LateStates(p, q, id)[i], LateEvents(p, q, id)[i];
      Enabled(s, e) && Step(s, e) == LateStates(p, q, id)[i + 1]
  {
  }

  /** A timer that fires before it is recorded finds the field nil, ends on an empty table, and is
      recorded afterwards; the next publisher trusts the field, and nothing will ever retransmit
      its element. */
  lemma LostWhenRecordedLate(p: nat, q: nat, id: nat)
    ensures IsRun(LateStates(p, q, id), LateEvents(p, q, id))
    ensures LateAssign(LateStates(p, q, id)[8], LateEvents(p, q, id)[8])
    ensures !Safe(LateStates(p, q, id)[12]) && !Recovers(LateStates(p, q, id)[12])
  {
    forall i | 0 <= i < 12
      ensures Enabled(LateStates(p, q, id)[i], LateEvents(p, q, id)[i])
      ensures Step(LateStates(p, q, id)[i], LateEvents(p, q, id)[i]) == LateStates(p, q, id)[i + 1]
    {
      LateStep(p, q, id, i);
    }
    LossIsPermanent(LateStates(p, q, id), LateEvents(p, q, id), 12);
  }
}

/** The subscription tree as a value: a trie of topic filters with the subscribers of each
    filter (snode in broker/persistence/topics/memtopics.go). */
module SubscriptionTree {
  import opened Basics
  import opened TopicLevels
  import opened TopicMatch
  import opened Trie

  /** A subscription record. The broker hands out pointers to freshly allocated records and
      compares them by address; `id` is that address. */
  datatype Subscription = Subscription(
    id: nat, client: nat, topic: Bytes, qos: Byte, share: bool, groupName: Bytes)

  /** The two parallel slices of a node. */
  datatype Entry = Entry(subs: seq<Subscription>, qos: seq<Byte>)

  const NO_ENTRY := Entry([], [])

  type STree = Tree<Entry>

  ghost predicate NoDup(s: seq<Subscription>) {
    forall i, j :: 0 <= i < j < |s| ==> s[i] != s[j]
  }

  ghost predicate GoodEntry(e: Entry) {
    |e.subs| == |e.qos| && NoDup(e.subs)
  }

  /** The structural invariant of every reachable subscription tree. */
  ghost predicate GoodTree(t: STree) {
    forall p :: Has(t, p) ==> GoodEntry(Get(t, p).value.val) && SharpLast(p)
  }

  /** The flat table: what is subscribed at a filter path. */
  ghost function SubsAt(t: STree, p: Path): seq<Subscription> {
    At(t, p, NO_ENTRY).subs
  }

  ghost function IndexOf(s: seq<Subscription>, x: Subscription): (i: nat)
    requires x in s
    ensures i < |s| && s[i] == x
  {
    if s[0] == x then 0 else 1 + IndexOf(s[1..], x)
  }

  ghost function PutSub(e: Entry, q: Byte, s: Subscription): Entry
    requires GoodEntry(e)
  {
    if s in e.subs then e.(qos := e.qos[IndexOf(e.subs, s) := q])
    else Entry(e.subs + [s], e.qos + [q])
  }

  ghost function Without<T>(s: seq<T>, i: nat): seq<T>
    requires i < |s|
  {
    s[..i] + s[i + 1..]
  }

  ghost function DropSub(e: Entry, s: Subscription): Entry
    requires GoodEntry(e) && s in e.subs
  {
    var i := IndexOf(e.subs, s);
    Entry(Without(e.subs, i), Without(e.qos, i))
  }

  ghost predicate Idle(e: Entry) {
    e.subs == []
  }

  lemma IndexUnique(s: seq<Subscription>, i: nat)
    requires NoDup(s) && i < |s|
    ensures IndexOf(s, s[i]) == i
  {
  }

  /** Where the j-th of the remaining subscribers was before. */
  ghost function Shifted(i: nat, j: nat): nat {
    if j < i then j else j + 1
  }

  lemma DropSubAt(e: Entry, s: Subscription, j: nat)
    requires GoodEntry(e) && s in e.subs && j < |e.subs| - 1
    ensures var d, k := DropSub(e, s), Shifted(IndexOf(e.subs, s), j);
      d.subs[j] == e.subs[k] && d.qos[j] == e.qos[k] && d.subs[j] != s
  {
    IndexUnique(e.subs, Shifted(IndexOf(e.subs, s), j));
  }

  lemma DropSubGood(e: Entry, s: Subscription)
    requires GoodEntry(e) && s in e.subs
    ensures GoodEntry(DropSub(e, s))
  {
    var d := DropSub(e, s);
    forall i, j | 0 <= i < j < |d.subs|
      ensures d.subs[i] != d.subs[j]
    {
      DropSubAt(e, s, i);
      DropSubAt(e, s, j);
    }
  }

  lemma DropSubOne(e: Entry, s: Subscription, x: Subscription)
    requires GoodEntry(e) && s in e.subs
    ensures GoodEntry(DropSub(e, s))
    ensures x in DropSub(e, s).subs <==> x in e.subs && x != s
    ensures x in DropSub(e, s).subs ==> QosOf(DropSub(e, s), x) == QosOf(e, x)
  {
    DropSubGood(e, s);
    var d, i := DropSub(e, s), IndexOf(e.subs, s);
    if x in d.subs {
      var j := IndexOf(d.subs, x);
      DropSubAt(e, s, j);
      IndexUnique(e.subs, Shifted(i, j));
    }
    if x in e.subs && x != s {
      var k := IndexOf(e.subs, x);
      DropSubAt(e, s, if k < i then k else k - 1);
    }
  }

  /** Dropping removes that subscriber and keeps the others with their QoS. */
  lemma DropSubSpec(e: Entry, s: Subscription)
    requires GoodEntry(e) && s in e.subs
    ensures GoodEntry(DropSub(e, s))
    ensures forall x :: x in DropSub(e, s).subs <==> x in e.subs && x != s
    ensures forall x :: x in DropSub(e, s).subs ==> QosOf(DropSub(e, s), x) == QosOf(e, x)
  {
    DropSubGood(e, s);
    forall x
      ensures x in DropSub(e, s).subs <==> x in e.subs && x != s
      ensures x in DropSub(e, s).subs ==> QosOf(DropSub(e, s), x) == QosOf(e, x)
    {
      DropSubOne(e, s, x);
    }
  }

  ghost function QosOf(e: Entry, s: Subscription): Byte
    requires GoodEntry(e) && s in e.subs
  {
    e.qos[IndexOf(e.subs, s)]
  }

  lemma PutSubSpec(e: Entry, q: Byte, s: Subscription)
    requires GoodEntry(e)
    ensures GoodEntry(PutSub(e, q, s))
    ensures forall x :: x in PutSub(e, q, s).subs <==> x in e.subs || x == s
    ensures QosOf(PutSub(e, q, s), s) == q
    ensures forall x :: x in e.subs && x != s ==> QosOf(PutSub(e, q, s), x) == QosOf(e, x)
  {
    var d := PutSub(e, q, s);
    if s !in e.subs {
      assert d.subs[|e.subs|] == s;
      IndexUnique(d.subs, |e.subs|);
      forall x | x in e.subs
        ensures x in d.subs && QosOf(d, x) == QosOf(e, x)
      {
        var j := IndexOf(e.subs, x);
        assert d.subs[j] == x;
        IndexUnique(d.subs, j);
      }
    }
  }

  // ---------------------------------------------------------------------
  // sinsert and sremove as functions of the tree
  // ---------------------------------------------------------------------

  ghost function Insert(t: STree, toks: Tokens, q: Byte, s: Subscription): STree
    requires GoodTree(t)
  {
    GoodAt(t, toks.levels);
    Write(t, toks.levels, NO_ENTRY,
          if toks.ok then Some(PutSub(At(t, toks.levels, NO_ENTRY), q, s)) else None)
  }

  /** The new tree, or None when the call fails. `who` is None for "every subscriber". */
  ghost function Remove(t: STree, toks: Tokens, who: Option<Subscription>): Option<STree>
    requires GoodTree(t)
  {
    GoodAt(t, toks.levels);
    var e := At(t, toks.levels, NO_ENTRY);
    if !toks.ok || !Has(t, toks.levels) then None
    else if who.None? then Some(Erase(t, toks.levels, NO_ENTRY, Idle))
    else if who.value in e.subs then Some(Erase(t, toks.levels, DropSub(e, who.value), Idle))
    else None
  }

  lemma GoodAt(t: STree, p: Path)
    requires GoodTree(t)
    ensures GoodEntry(At(t, p, NO_ENTRY))
  {
  }

  lemma GoodKid(t: STree, k: Level)
    requires GoodTree(t) && k in t.kids
    ensures GoodTree(t.kids[k])
    ensures k == MWC ==> t.kids[k].kids == map[]
  {
    var kid := t.kids[k];
    forall p | Has(kid, p)
      ensures GoodEntry(Get(kid, p).value.val) && SharpLast(p)
    {
      GetCons(t, k, p);
      var kp := [k] + p;
      assert Has(t, kp);
      forall i | 0 <= i < |p| && p[i] == MWC
        ensures i == |p| - 1
      {
        assert kp[i + 1] == MWC;
      }
    }
    if k == MWC {
      forall j | j in kid.kids
        ensures false
      {
        GetCons(kid, j, []);
        GetCons(t, k, [j] + []);
        assert ([k] + ([j] + []))[0] == MWC;
        assert Has(t, [k] + ([j] + []));
      }
      assert kid.kids.Keys == {};
    }
  }

  lemma LeafGood()
    ensures GoodTree(Leaf(NO_ENTRY))
  {
    forall p | Has(Leaf(NO_ENTRY), p)
      ensures p == []
    {
      LeafTable(NO_ENTRY, p);
    }
  }

  lemma InsertStep(t: STree, k: Level, rest: Tokens, q: Byte, s: Subscription)
    requires GoodTree(t)
    ensures GoodTree(KidOrLeaf(t, k, NO_ENTRY))
    ensures Insert(t, Tokens([k] + rest.levels, rest.ok), q, s) ==
      SetKid(t, k, Insert(KidOrLeaf(t, k, NO_ENTRY), rest, q, s))
  {
    assert ([k] + rest.levels)[1..] == rest.levels;
    LeafGood();
    LeafTable(NO_ENTRY, rest.levels);
    if k in t.kids {
      GoodKid(t, k);
    }
    GetCons(t, k, rest.levels);
  }

  lemma RemoveStep(t: STree, k: Level, rest: Tokens, who: Option<Subscription>)
    requires GoodTree(t)
    ensures k in t.kids ==> GoodTree(t.kids[k])
    ensures Remove(t, Tokens([k] + rest.levels, rest.ok), who) ==
      if k !in t.kids || Remove(t.kids[k], rest, who).None? then None
      else Some(Pruned(SetKid(t, k, Remove(t.kids[k], rest, who).value), k, Idle))
  {
    assert ([k] + rest.levels)[1..] == rest.levels;
    if k in t.kids {
      GoodKid(t, k);
      if Remove(t.kids[k], rest, who).Some? {
        var t' := SetKid(t, k, Remove(t.kids[k], rest, who).value);
        assert t'.kids - {k} == t.kids - {k};
      }
    }
    GetCons(t, k, rest.levels);
  }

  // ---------------------------------------------------------------------
  // Updates of the tree are updates of the flat table
  // ---------------------------------------------------------------------

  lemma SharpLastPrefix(p: Path, q: Path)
    requires SharpLast(p) && q <= p
    ensures SharpLast(q)
  {
    assert forall i :: 0 <= i < |q| ==> q[i] == p[i];
  }

  /** A successful insertion updates the one entry (path, subscriber) and a failed one changes
      no entry; either way the tree stays good. */
  lemma InsertTable(t: STree, toks: Tokens, q: Byte, s: Subscription)
    requires GoodTree(t) && SharpLast(toks.levels)
    ensures GoodTree(Insert(t, toks, q, s))
    ensures forall p :: GoodEntry(At(t, p, NO_ENTRY))
    ensures forall p ::
      At(Insert(t, toks, q, s), p, NO_ENTRY) ==
      if toks.ok && p == toks.levels then PutSub(At(t, p, NO_ENTRY), q, s) else At(t, p, NO_ENTRY)
  {
    var t' := Insert(t, toks, q, s);
    var e := At(t, toks.levels, NO_ENTRY);
    GoodAt(t, toks.levels);
    PutSubSpec(e, q, s);
    var w := if toks.ok then Some(PutSub(e, q, s)) else None;
    forall p
      ensures GoodEntry(At(t, p, NO_ENTRY))
      ensures At(t', p, NO_ENTRY) ==
        if toks.ok && p == toks.levels then PutSub(At(t, p, NO_ENTRY), q, s) else At(t, p, NO_ENTRY)
      ensures Has(t', p) ==> GoodEntry(Get(t', p).value.val) && SharpLast(p)
    {
      GoodAt(t, p);
      WriteTable(t, toks.levels, NO_ENTRY, w, p);
      if Has(t', p) && !Has(t, p) {
        SharpLastPrefix(toks.levels, p);
      }
    }
  }

  /** Removal fails exactly when the filter is malformed, unknown, or not subscribed by `who`;
      a successful one deletes that entry (all entries at the path for None) and no other. */
  lemma RemoveTable(t: STree, toks: Tokens, who: Option<Subscription>)
    requires GoodTree(t)
    ensures Remove(t, toks, who).Some? <==>
      toks.ok && Has(t, toks.levels) && (who.Some? ==> who.value in SubsAt(t, toks.levels))
    ensures Remove(t, toks, who).Some? ==>
      var t' := Remove(t, toks, who).value;
      && GoodTree(t')
      && (forall p :: GoodEntry(At(t, p, NO_ENTRY)))
      && (forall p :: p != toks.levels ==> At(t', p, NO_ENTRY) == At(t, p, NO_ENTRY))
      && At(t', toks.levels, NO_ENTRY) ==
         if who.None? then NO_ENTRY else DropSub(At(t, toks.levels, NO_ENTRY), who.value)
  {
    var p := toks.levels;
    if Remove(t, toks, who).Some? {
      var t' := Remove(t, toks, who).value;
      GoodAt(t, p);
      var e := At(t, p, NO_ENTRY);
      if who.Some? { DropSubSpec(e, who.value); }
      var v := if who.None? then NO_ENTRY else DropSub(e, who.value);
      forall q
        ensures GoodEntry(At(t, q, NO_ENTRY))
        ensures At(t', q, NO_ENTRY) == if q == p then v else At(t, q, NO_ENTRY)
        ensures Has(t', q) ==> GoodEntry(Get(t', q).value.val) && SharpLast(q)
      {
        GoodAt(t, q);
        EraseTable(t, p, v, Idle, q);
        if Doomed(t, p, v, Idle, q) {
          assert Idle(Written(t, p, v, q));
          if q == p { IdleGood(v); } else if Has(t, q) { IdleGood(At(t, q, NO_ENTRY)); }
        }
      }
    }
  }

  lemma IdleGood(e: Entry)
    requires Idle(e) && GoodEntry(e)
    ensures e == NO_ENTRY
  {
  }

  // ---------------------------------------------------------------------
  // No leaks
  // ---------------------------------------------------------------------

  /** An insertion leaves a childless node without subscribers behind exactly when the filter is
      malformed and its readable levels had no node yet; a removal never does. */
  lemma InsertTidyIff(t: STree, toks: Tokens, q: Byte, s: Subscription)
    requires GoodTree(t) && Tidy(t, Idle)
    ensures Tidy(Insert(t, toks, q, s), Idle) <==> toks.ok || Has(t, toks.levels)
  {
    GoodAt(t, toks.levels);
    var e := At(t, toks.levels, NO_ENTRY);
    if toks.ok {
      PutSubSpec(e, q, s);
      assert s in PutSub(e, q, s).subs;
      TidyWrite(t, toks.levels, NO_ENTRY, PutSub(e, q, s), Idle);
    } else {
      TidyWriteNothing(t, toks.levels, NO_ENTRY, Idle);
    }
  }

  lemma RemoveStaysTidy(t: STree, toks: Tokens, who: Option<Subscription>)
    requires GoodTree(t) && Tidy(t, Idle)
    ensures Remove(t, toks, who).Some? ==> Tidy(Remove(t, toks, who).value, Idle)
  {
    GoodAt(t, toks.levels);
    var e := At(t, toks.levels, NO_ENTRY);
    if Remove(t, toks, who).Some? {
      TidyErase(t, toks.levels, if who.None? then NO_ENTRY else DropSub(e, who.value), Idle);
    }
  }

  /** Subscribing a fresh subscriber and unsubscribing it gives back the identical tree exactly
      when no node on the filter's path was a leftover without subscribers and children. */
  lemma SubscribeThenUnsubscribe(t: STree, toks: Tokens, q: Byte, s: Subscription)
    requires GoodTree(t) && toks.ok && SharpLast(toks.levels)
    requires s !in SubsAt(t, toks.levels)
    ensures GoodTree(Insert(t, toks, q, s))
    ensures Remove(Insert(t, toks, q, s), toks, Some(s)) == Some(t) <==> TidyOn(t, Idle, toks.levels)
    ensures Tidy(t, Idle) ==> TidyOn(t, Idle, toks.levels)
  {
    var p := toks.levels;
    InsertTable(t, toks, q, s);
    GoodAt(t, p);
    var e := At(t, p, NO_ENTRY);
    var e' := PutSub(e, q, s);
    PutSubSpec(e, q, s);
    assert e'.subs[|e.subs|] == s;
    IndexUnique(e'.subs, |e.subs|);
    assert DropSub(e', s) == e;
    WriteThenErase(t, p, NO_ENTRY, e', Idle);
  }

  /** With every entry gone a tidy tree is a bare root; a failed subscription is what breaks
      tidiness. */
  lemma NoEntriesBareRoot(t: STree)
    requires Tidy(t, Idle)
    ensures (forall p :: Has(t, p) ==> SubsAt(t, p) == []) ==> t.kids == map[]
  {
    if forall p :: Has(t, p) ==> SubsAt(t, p) == [] {
      forall p | Has(t, p)
        ensures Idle(Get(t, p).value.val)
      {
        assert SubsAt(t, p) == [];
      }
      TidyAllDead(t, Idle);
    }
  }

  // ---------------------------------------------------------------------
  // Matching: the paths at which a subscriber is found by a topic
  // ---------------------------------------------------------------------

  ghost function Hits(t: STree, s: Subscription, topic: Path): set<Path> {
    set p | p in Paths(t) && s in SubsAt(t, p) && Matches(p, topic)
  }

  lemma InHits(t: STree, s: Subscription, topic: Path, p: Path)
    ensures p in Hits(t, s, topic) <==> Has(t, p) && s in SubsAt(t, p) && Matches(p, topic)
  {
    PathsHas(t, p);
  }

  /** The child that a topic level leads to holds the hits that start with its name. */
  lemma HitsBelow(t: STree, s: Subscription, topic: Path, k: Level, p: Path)
    requires k in t.kids && topic != []
    requires k != MWC && (k == SWC || k == topic[0])
    ensures [k] + p in Hits(t, s, topic) <==> p in Hits(t.kids[k], s, topic[1..])
  {
    InHits(t, s, topic, [k] + p);
    InHits(t.kids[k], s, topic[1..], p);
    GetCons(t, k, p);
    MatchesCons(k, p, topic);
  }

  lemma HitsSharp(t: STree, s: Subscription, topic: Path, p: Path)
    requires GoodTree(t) && MWC in t.kids
    ensures [MWC] + p in Hits(t, s, topic) <==> p == [] && s in t.kids[MWC].val.subs
  {
    InHits(t, s, topic, [MWC] + p);
    GetCons(t, MWC, p);
    GoodKid(t, MWC);
    MatchesCons(MWC, p, topic);
  }

  lemma HitsOther(t: STree, s: Subscription, topic: Path, k: Level, p: Path)
    requires topic != []
    requires k != MWC && k != SWC && k != topic[0]
    ensures [k] + p !in Hits(t, s, topic)
  {
    MatchesCons(k, p, topic);
    assert !Matches([k] + p, topic);
  }

  /** What the walk collects at the child k, as paths below that child. */
  ghost function Below(t: STree, s: Subscription, topic: Path, k: Level): set<Path>
    requires k in t.kids && topic != []
  {
    if k == MWC then (if s in t.kids[k].val.subs then {[]} else {})
    else if k == SWC || k == topic[0] then Hits(t.kids[k], s, topic[1..])
    else {}
  }

  /** The result contains what was found under the first levels in `done`. */
  ghost predicate Collected(t: STree, topic: Path, done: set<Level>,
                            subs0: seq<Subscription>, subs: seq<Subscription>)
  {
    forall s :: multiset(subs)[s] == multiset(subs0)[s] + |Via(Hits(t, s, topic), done)|
  }

  ghost predicate FoundBelow(t: STree, topic: Path, k: Level,
                             before: seq<Subscription>, after: seq<Subscription>)
    requires k in t.kids && topic != []
  {
    forall s :: multiset(after)[s] == multiset(before)[s] + |Below(t, s, topic, k)|
  }

  lemma CollectOneMore(t: STree, topic: Path, done: set<Level>, k: Level,
                       subs0: seq<Subscription>, before: seq<Subscription>, after: seq<Subscription>)
    requires GoodTree(t) && k in t.kids && k !in done && topic != []
    requires Collected(t, topic, done, subs0, before)
    requires FoundBelow(t, topic, k, before, after)
    ensures Collected(t, topic, done + {k}, subs0, after)
  {
    forall s
      ensures multiset(after)[s] == multiset(subs0)[s] + |Via(Hits(t, s, topic), done + {k})|
    {
      forall p
        ensures [k] + p in Hits(t, s, topic) <==> p in Below(t, s, topic, k)
      {
        if k == MWC {
          HitsSharp(t, s, topic, p);
        } else if k == SWC || k == topic[0] {
          HitsBelow(t, s, topic, k, p);
        } else {
          HitsOther(t, s, topic, k, p);
        }
      }
      ViaOneMore(Hits(t, s, topic), done, k, Below(t, s, topic, k));
    }
  }

  lemma CollectedAll(t: STree, topic: Path, done: set<Level>,
                     subs0: seq<Subscription>, subs: seq<Subscription>)
    requires done == t.kids.Keys && topic != []
    requires Collected(t, topic, done, subs0, subs)
    ensures forall s :: multiset(subs)[s] == multiset(subs0)[s] + |Hits(t, s, topic)|
  {
    forall s
      ensures multiset(subs)[s] == multiset(subs0)[s] + |Hits(t, s, topic)|
    {
      forall p | p in Hits(t, s, topic)
        ensures p != [] && p[0] in done
      {
        InHits(t, s, topic, p);
        assert !Matches([], topic);
        HitsFirst(t, s, topic, p);
      }
      ViaAll(Hits(t, s, topic), done);
    }
  }

  lemma HitsFirst(t: STree, s: Subscription, topic: Path, p: Path)
    requires p in Hits(t, s, topic) && p != []
    ensures p[0] in t.kids
  {
    InHits(t, s, topic, p);
  }

  lemma InHitsEnd(t: STree, s: Subscription, p: Path)
    requires GoodTree(t)
    ensures p in Hits(t, s, []) <==>
      || (p == [] && s in t.val.subs)
      || (p == [MWC] && MWC in t.kids && s in t.kids[MWC].val.subs)
  {
    InHits(t, s, [], p);
    if p != [] {
      var k, r := p[0], p[1..];
      assert p == [k] + r;
      MatchesCons(k, r, []);
      GetCons(t, k, r);
      if k == MWC && k in t.kids {
        HitsSharp(t, s, [], r);
      }
    }
  }

  /** At the end of the topic a node contributes its own subscribers and those of its '#' child. */
  lemma HitsEnd(t: STree, s: Subscription)
    requires GoodTree(t)
    ensures |Hits(t, s, [])| == (if s in t.val.subs then 1 else 0)
                              + (if MWC in t.kids && s in t.kids[MWC].val.subs then 1 else 0)
  {
    forall p {:trigger p in Hits(t, s, [])}
      ensures p in Hits(t, s, []) <==>
        || (p == [] && s in t.val.subs)
        || (p == [MWC] && MWC in t.kids && s in t.kids[MWC].val.subs)
    {
      InHitsEnd(t, s, p);
    }
    AtMostTwo(Hits(t, s, []), s in t.val.subs, MWC in t.kids && s in t.kids[MWC].val.subs);
  }

  lemma AtMostTwo(H: set<Path>, own: bool, sharp: bool)
    requires forall p :: p in H <==> (p == [] && own) || (p == [MWC] && sharp)
    ensures |H| == (if own then 1 else 0) + (if sharp then 1 else 0)
  {
    var a: set<Path> := if own then {[]} else {};
    var b: set<Path> := if sharp then {[MWC]} else {};
    assert H == a + b && a !! b;
  }

  /** A walk with a malformed topic fails exactly when some node is reached where the next
      level cannot be read. */
  ghost predicate WalkFails(t: STree, toks: Tokens) {
    !toks.ok && exists p :: Has(t, p) && |p| == |toks.levels| && Agree(p, toks.levels, |p|)
  }

  ghost predicate ChildFails(t: STree, j: Level, k: Level, rest: Tokens)
    requires j in t.kids
  {
    j != MWC && (j == SWC || j == k) && WalkFails(t.kids[j], rest)
  }

  lemma WalkFailsStep(t: STree, k: Level, rest: Tokens)
    requires GoodTree(t) && (!rest.ok ==> MWC != k && MWC !in rest.levels)
    ensures WalkFails(t, Tokens([k] + rest.levels, rest.ok)) <==>
      exists j :: j in t.kids && ChildFails(t, j, k, rest)
  {
    var ls := [k] + rest.levels;
    assert ls[1..] == rest.levels;
    if WalkFails(t, Tokens(ls, rest.ok)) {
      var p :| Has(t, p) && |p| == |ls| && Agree(p, ls, |p|);
      assert p == [p[0]] + p[1..];
      GetCons(t, p[0], p[1..]);
      AgreeCons(p[0], p[1..], ls, |p| - 1);
      assert Has(t.kids[p[0]], p[1..]);
      assert ChildFails(t, p[0], k, rest);
    }
    if j :| j in t.kids && ChildFails(t, j, k, rest) {
      var p :| Has(t.kids[j], p) && |p| == |rest.levels| && Agree(p, rest.levels, |p|);
      GetCons(t, j, p);
      AgreeCons(j, p, ls, |p|);
      assert Has(t, [j] + p);
    }
  }

  /** How often a subscriber is listed at one node. */
  lemma {:induction false} NoDupCount(s: seq<Subscription>, x: Subscription)
    requires NoDup(s)
    ensures multiset(s)[x] == if x in s then 1 else 0
  {
    if s != [] {
      var n := |s| - 1;
      NoDupCount(s[..n], x);
      assert s == s[..n] + [s[n]];
    }
  }
}

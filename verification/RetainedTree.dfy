/** The tree of retained messages as a value (rnode in broker/persistence/topics/memtopics.go). */
module RetainedTree {
  import opened Basics
  import opened TopicLevels
  import opened TopicMatch
  import opened Trie
  import opened Packets

  type Message = Option<PublishPacket>
  type RTree = Tree<Message>

  /** The flat table: the message retained at a topic path. */
  ghost function MsgAt(t: RTree, p: Path): Message {
    At(t, p, None)
  }

  ghost predicate AnyMessage(m: Message) {
    true
  }

  // ---------------------------------------------------------------------
  // rinsertOrUpdate and rremove as functions of the tree
  // ---------------------------------------------------------------------

  ghost function RInsert(t: RTree, toks: Tokens, m: PublishPacket): RTree {
    Write(t, toks.levels, None, if toks.ok then Some(Some(m)) else None)
  }

  ghost function RRemove(t: RTree, toks: Tokens): Option<RTree> {
    if toks.ok && Has(t, toks.levels) then Some(Erase(t, toks.levels, None, AnyMessage)) else None
  }

  lemma RInsertStep(t: RTree, k: Level, rest: Tokens, m: PublishPacket)
    ensures RInsert(t, Tokens([k] + rest.levels, rest.ok), m) ==
      SetKid(t, k, RInsert(KidOrLeaf(t, k, None), rest, m))
  {
    assert ([k] + rest.levels)[1..] == rest.levels;
  }

  lemma RRemoveStep(t: RTree, k: Level, rest: Tokens)
    ensures RRemove(t, Tokens([k] + rest.levels, rest.ok)) ==
      if k !in t.kids || RRemove(t.kids[k], rest).None? then None
      else Some(Pruned(SetKid(t, k, RRemove(t.kids[k], rest).value), k, AnyMessage))
  {
    assert ([k] + rest.levels)[1..] == rest.levels;
    GetCons(t, k, rest.levels);
    if k in t.kids && RRemove(t.kids[k], rest).Some? {
      var t' := SetKid(t, k, RRemove(t.kids[k], rest).value);
      assert t'.kids - {k} == t.kids - {k};
    }
  }

  // ---------------------------------------------------------------------
  // Updates of the tree are updates of the flat table, almost
  // ---------------------------------------------------------------------

  /** Retaining a message changes its own topic only, and nothing when the topic is malformed. */
  lemma RInsertTable(t: RTree, toks: Tokens, m: PublishPacket, q: Path)
    ensures MsgAt(RInsert(t, toks, m), q) == if toks.ok && q == toks.levels then Some(m) else MsgAt(t, q)
  {
    WriteTable(t, toks.levels, None, if toks.ok then Some(Some(m)) else None, q);
  }

  /** A non-root node on the path to p below which the tree has nothing off that path. */
  ghost predicate Cut(t: RTree, p: Path, q: Path) {
    && q != [] && q <= p
    && forall r :: Has(t, r) && q <= r ==> r <= p
  }

  /** Clearing a topic, exactly: the message at the topic goes, and with it the messages of the
      strict non-root ancestors whose tree descendants all lie on the path to the topic. */
  lemma RRemoveTable(t: RTree, toks: Tokens, q: Path)
    ensures RRemove(t, toks).Some? <==> toks.ok && Has(t, toks.levels)
    ensures RRemove(t, toks).Some? ==>
      var t' := RRemove(t, toks).value;
      && MsgAt(t', q) == (if q == toks.levels || Cut(t, toks.levels, q) then None else MsgAt(t, q))
      && (Has(t', q) <==> Has(t, q) && !Cut(t, toks.levels, q))
  {
    if toks.ok && Has(t, toks.levels) {
      EraseTable(t, toks.levels, None, AnyMessage, q);
      assert Doomed(t, toks.levels, None, AnyMessage, q) <==> Cut(t, toks.levels, q);
    }
  }

  /** Every topic that is not a level-prefix of the cleared one keeps its message. */
  lemma ClearingSparesOthers(t: RTree, toks: Tokens, q: Path)
    requires RRemove(t, toks).Some? && !(q <= toks.levels)
    ensures MsgAt(RRemove(t, toks).value, q) == MsgAt(t, q)
  {
    RRemoveTable(t, toks, q);
  }

  /** A message that clearing p would take along with the one at p. */
  ghost predicate Endangered(t: RTree, p: Path, q: Path) {
    q != p && Cut(t, p, q) && MsgAt(t, q).Some?
  }

  /** Section 3.3.1.3 of MQTT Version 3.1.1 asks that clearing a topic removes that topic's
      message only. The code does so exactly when no ancestor with a message is cut off. */
  lemma ClearsOnlyItsTopicIff(t: RTree, toks: Tokens)
    requires RRemove(t, toks).Some?
    ensures (forall q :: q != toks.levels ==> MsgAt(RRemove(t, toks).value, q) == MsgAt(t, q))
       <==> !exists q :: Endangered(t, toks.levels, q)
  {
    var t' := RRemove(t, toks).value;
    var p := toks.levels;
    forall q
      ensures q != p ==> (MsgAt(t', q) == MsgAt(t, q) <==> !Endangered(t, p, q))
    {
      RRemoveTable(t, toks, q);
    }
  }

  /** With messages at `a` and `a/b`, clearing `a/b` loses the message at `a` too. */
  lemma ClearingLosesParent(a: Level, b: Level, m1: PublishPacket, m2: PublishPacket)
    ensures var t := RInsert(RInsert(Leaf(None), Tokens([a], true), m1), Tokens([a, b], true), m2);
      && MsgAt(t, [a]) == Some(m1) && MsgAt(t, [a, b]) == Some(m2)
      && RRemove(t, Tokens([a, b], true)).Some?
      && MsgAt(RRemove(t, Tokens([a, b], true)).value, [a]) == None
  {
    var t1 := RInsert(Leaf(None), Tokens([a], true), m1);
    var t := RInsert(t1, Tokens([a, b], true), m2);
    RInsertTable(t1, Tokens([a, b], true), m2, [a]);
    RInsertTable(Leaf(None), Tokens([a], true), m1, [a]);
    RInsertTable(t1, Tokens([a, b], true), m2, [a, b]);
    RRemoveTable(t, Tokens([a, b], true), [a]);
    forall r | Has(t, r) && [a] <= r
      ensures r <= [a, b]
    {
      WriteTable(t1, [a, b], None, Some(Some(m2)), r);
      WriteTable(Leaf(None), [a], None, Some(Some(m1)), r);
      LeafTable<Message>(None, r);
    }
    assert [a] <= [a, b];
    assert Cut(t, [a, b], [a]);
  }

  // ---------------------------------------------------------------------
  // Matching: the topics at which a message is found by a filter
  // ---------------------------------------------------------------------

  ghost function Hits(t: RTree, filter: Path, m: PublishPacket): set<Path> {
    set p | p in Paths(t) && MsgAt(t, p) == Some(m) && Matches(filter, p)
  }

  lemma InHits(t: RTree, filter: Path, m: PublishPacket, p: Path)
    ensures p in Hits(t, filter, m) <==> Has(t, p) && MsgAt(t, p) == Some(m) && Matches(filter, p)
  {
    PathsHas(t, p);
  }

  /** The filter that remains below a child: all of it after '#', its tail otherwise. */
  ghost function FilterBelow(filter: Path): Path
    requires filter != []
  {
    if filter[0] == MWC then filter else filter[1..]
  }

  lemma HitsBelow(t: RTree, filter: Path, m: PublishPacket, k: Level, p: Path)
    requires filter != [] && SharpLast(filter) && k in t.kids
    requires filter[0] == MWC || filter[0] == SWC || filter[0] == k
    ensures [k] + p in Hits(t, filter, m) <==> p in Hits(t.kids[k], FilterBelow(filter), m)
  {
    InHits(t, filter, m, [k] + p);
    InHits(t.kids[k], FilterBelow(filter), m, p);
    GetCons(t, k, p);
    assert filter == [filter[0]] + filter[1..];
    MatchesCons(filter[0], filter[1..], [k] + p);
    assert ([k] + p)[1..] == p;
    if filter[0] == MWC {
      MatchesCons(filter[0], filter[1..], p);
    }
  }

  lemma HitsFirst(t: RTree, filter: Path, m: PublishPacket, p: Path)
    requires p in Hits(t, filter, m) && p != [] && filter != [] && SharpLast(filter)
    ensures p[0] in t.kids && (filter[0] == MWC || filter[0] == SWC || filter[0] == p[0])
  {
    InHits(t, filter, m, p);
    assert filter == [filter[0]] + filter[1..];
    MatchesCons(filter[0], filter[1..], p);
  }

  /** The node itself is found by the empty filter and by '#' only. */
  lemma HitsHere(t: RTree, filter: Path, m: PublishPacket)
    requires SharpLast(filter)
    ensures [] in Hits(t, filter, m) <==> t.val == Some(m) && (filter == [] || filter[0] == MWC)
    ensures filter == [] ==> |Hits(t, filter, m)| == if t.val == Some(m) then 1 else 0
  {
    InHits(t, filter, m, []);
    if filter != [] {
      assert filter == [filter[0]] + filter[1..];
      MatchesCons(filter[0], filter[1..], []);
    } else {
      forall p | p in Hits(t, [], m)
        ensures p == []
      {
        InHits(t, [], m, p);
      }
      OnlyEmpty(Hits(t, [], m), t.val == Some(m));
    }
  }

  lemma OnlyEmpty(H: set<Path>, own: bool)
    requires forall p :: p in H <==> p == [] && own
    ensures |H| == if own then 1 else 0
  {
    assert H == if own then {[]} else {};
  }

  /** The list contains what was found under the first levels in `done`. */
  ghost predicate Collected(t: RTree, filter: Path, done: set<Level>,
                            msgs0: seq<PublishPacket>, msgs: seq<PublishPacket>)
  {
    forall m :: multiset(msgs)[m] == multiset(msgs0)[m] + |Via(Hits(t, filter, m), done)|
  }

  /** The list grew by exactly the hits of the filter in the tree. */
  ghost predicate Found(t: RTree, filter: Path, msgs0: seq<PublishPacket>, msgs: seq<PublishPacket>) {
    forall m :: multiset(msgs)[m] == multiset(msgs0)[m] + |Hits(t, filter, m)|
  }

  lemma CollectOneMore(t: RTree, filter: Path, done: set<Level>, k: Level,
                       msgs0: seq<PublishPacket>, before: seq<PublishPacket>, after: seq<PublishPacket>)
    requires filter != [] && SharpLast(filter) && k in t.kids && k !in done
    requires filter[0] == MWC || filter[0] == SWC || filter[0] == k
    requires Collected(t, filter, done, msgs0, before)
    requires Found(t.kids[k], FilterBelow(filter), before, after)
    ensures Collected(t, filter, done + {k}, msgs0, after)
  {
    forall m
      ensures multiset(after)[m] == multiset(msgs0)[m] + |Via(Hits(t, filter, m), done + {k})|
    {
      forall p
        ensures [k] + p in Hits(t, filter, m) <==> p in Hits(t.kids[k], FilterBelow(filter), m)
      {
        HitsBelow(t, filter, m, k, p);
      }
      ViaOneMore(Hits(t, filter, m), done, k, Hits(t.kids[k], FilterBelow(filter), m));
    }
  }

  /** All children that the filter leads to are visited; for '#' the node's own message is there. */
  lemma CollectedAll(t: RTree, filter: Path, done: set<Level>,
                     msgs0: seq<PublishPacket>, start: seq<PublishPacket>, msgs: seq<PublishPacket>)
    requires filter != [] && SharpLast(filter)
    requires done <= t.kids.Keys
    requires forall k :: k in t.kids && (filter[0] == MWC || filter[0] == SWC || filter[0] == k) ==> k in done
    requires start == if filter[0] == MWC && t.val.Some? then msgs0 + [t.val.value] else msgs0
    requires Collected(t, filter, done, start, msgs)
    ensures Found(t, filter, msgs0, msgs)
  {
    forall m
      ensures multiset(msgs)[m] == multiset(msgs0)[m] + |Hits(t, filter, m)|
    {
      forall p | p in Hits(t, filter, m) && p != []
        ensures p[0] in done
      {
        HitsFirst(t, filter, m, p);
      }
      ViaAll(Hits(t, filter, m), done);
      HitsHere(t, filter, m);
    }
  }

  /** A walk with a malformed filter fails exactly when some node is reached where the next
      level cannot be read. */
  ghost predicate WalkFails(t: RTree, toks: Tokens) {
    !toks.ok && exists p :: Has(t, p) && |p| == |toks.levels| && Agree(toks.levels, p, |p|)
  }

  ghost predicate ChildFails(t: RTree, j: Level, k: Level, rest: Tokens)
    requires j in t.kids
  {
    (k == SWC || j == k) && WalkFails(t.kids[j], rest)
  }

  lemma WalkFailsStep(t: RTree, k: Level, rest: Tokens)
    ensures WalkFails(t, Tokens([k] + rest.levels, rest.ok)) <==>
      exists j :: j in t.kids && ChildFails(t, j, k, rest)
  {
    var ls := [k] + rest.levels;
    if WalkFails(t, Tokens(ls, rest.ok)) {
      var p :| Has(t, p) && |p| == |ls| && Agree(ls, p, |p|);
      assert p == [p[0]] + p[1..];
      GetCons(t, p[0], p[1..]);
      AgreeCons(k, rest.levels, p, |p| - 1);
      assert Has(t.kids[p[0]], p[1..]);
      assert ChildFails(t, p[0], k, rest);
    }
    if j :| j in t.kids && ChildFails(t, j, k, rest) {
      var p :| Has(t.kids[j], p) && |p| == |rest.levels| && Agree(rest.levels, p, |p|);
      GetCons(t, j, p);
      assert ([j] + p)[1..] == p;
      AgreeCons(k, rest.levels, [j] + p, |p|);
      assert Has(t, [j] + p);
    }
  }
}

/** The mutable subscription trie (snode in broker/persistence/topics/memtopics.go). */
module SubscriptionNode {
  import opened Basics
  import opened TopicLevels
  import opened TopicMatch
  import opened Trie
  import opened SubscriptionTree

  /** The two result slices grew together, and every new entry carries the published QoS. */
  ghost predicate Tagged(q: Byte, subs0: seq<Subscription>, qoss0: seq<Byte>,
                         subs: seq<Subscription>, qoss: seq<Byte>)
  {
    && subs0 <= subs && qoss0 <= qoss
    && |qoss| - |qoss0| == |subs| - |subs0|
    && forall i :: |qoss0| <= i < |qoss| ==> qoss[i] == q
  }

  lemma TaggedTrans(q: Byte, subs0: seq<Subscription>, qoss0: seq<Byte>, subs1: seq<Subscription>,
                    qoss1: seq<Byte>, subs2: seq<Subscription>, qoss2: seq<Byte>)
    requires Tagged(q, subs0, qoss0, subs1, qoss1) && Tagged(q, subs1, qoss1, subs2, qoss2)
    ensures Tagged(q, subs0, qoss0, subs2, qoss2)
  {
    assert forall i :: 0 <= i < |qoss1| ==> qoss2[i] == qoss1[i];
  }

  /** The state of the walk over the children when those in `done` were visited. */
  ghost predicate Visited(t: STree, level: Level, rest: Tokens, done: set<Level>, q: Byte,
                          subs0: seq<Subscription>, qoss0: seq<Byte>, subs: seq<Subscription>, qoss: seq<Byte>)
    requires done <= t.kids.Keys
  {
    && Collected(t, [level] + rest.levels, done, subs0, subs)
    && Tagged(q, subs0, qoss0, subs, qoss)
    && forall k :: k in done ==> !ChildFails(t, k, level, rest)
  }

  lemma VisitOneMore(t: STree, level: Level, rest: Tokens, done: set<Level>, k: Level, q: Byte,
                     subs0: seq<Subscription>, qoss0: seq<Byte>, subs1: seq<Subscription>, qoss1: seq<Byte>,
                     ok: bool, subs2: seq<Subscription>, qoss2: seq<Byte>)
    requires GoodTree(t) && done <= t.kids.Keys && k in t.kids && k !in done
    requires Visited(t, level, rest, done, q, subs0, qoss0, subs1, qoss1)
    requires ok <==> !ChildFails(t, k, level, rest)
    requires ok ==> FoundBelow(t, [level] + rest.levels, k, subs1, subs2)
    requires Tagged(q, subs1, qoss1, subs2, qoss2)
    ensures Tagged(q, subs0, qoss0, subs2, qoss2)
    ensures ok ==> Visited(t, level, rest, done + {k}, q, subs0, qoss0, subs2, qoss2)
  {
    TaggedTrans(q, subs0, qoss0, subs1, qoss1, subs2, qoss2);
    if ok {
      CollectOneMore(t, [level] + rest.levels, done, k, subs0, subs1, subs2);
    }
  }

  class SNode {
    var subs: seq<Subscription>
    var qos: seq<Byte>
    var snodes: map<Level, SNode>

    /** The nodes of this subtree, and the value the subtree stands for. */
    ghost var Repr: set<SNode>
    ghost var tree: STree

    ghost predicate Valid()
      reads this, Repr
      decreases Repr
    {
      && this in Repr
      && (forall k :: k in snodes ==> Owns(snodes[k]) && snodes[k].Valid())
      && (forall j, k :: j in snodes && k in snodes && j != k ==> snodes[j].Repr !! snodes[k].Repr)
      && tree.val == Entry(subs, qos)
      && tree.kids == map k | k in snodes :: snodes[k].tree
    }

    ghost predicate Owns(n: SNode)
      reads this, Repr
    {
      n in Repr && n.Repr <= Repr && this !in n.Repr && this in Repr
    }

    constructor ()
      ensures Valid() && Repr == {this}
      ensures tree == Leaf(NO_ENTRY)
    {
      subs, qos, snodes := [], [], map[];
      Repr, tree := {this}, Leaf(NO_ENTRY);
    }

    /** Write the two slices of this node; the rest of the subtree stays. */
    method SetEntry(e: Entry)
      requires Valid()
      modifies this
      ensures Valid() && Repr == old(Repr)
      ensures tree == old(tree).(val := e)
    {
      subs, qos := e.subs, e.qos;
      tree := tree.(val := e);
      ChildrenKept();
    }

    /** The position of a subscriber, or the number of subscribers when it is not listed. */
    method Find(sub: Subscription) returns (i: nat)
      requires NoDup(subs)
      ensures if sub in subs then i == IndexOf(subs, sub) else i == |subs|
    {
      i := 0;
      while i < |subs|
        invariant i <= |subs|
        invariant forall j :: 0 <= j < i ==> subs[j] != sub
      {
        if subs[i] == sub {
          IndexUnique(subs, i);
          return;
        }
        i := i + 1;
      }
    }

    /** The last level: update the subscriber's QoS or append the subscriber. */
    method SInsertHere(q: Byte, sub: Subscription)
      requires Valid() && GoodEntry(tree.val)
      modifies this
      ensures Valid() && Repr == old(Repr)
      ensures tree == old(tree).(val := PutSub(old(tree).val, q, sub))
    {
      var i := Find(sub);
      if i < |subs| {
        SetEntry(Entry(subs, qos[i := q]));
      } else {
        SetEntry(Entry(subs + [sub], qos + [q]));
      }
    }

    /** The child for a level, made if it is missing. */
    method Child(level: Level) returns (n: SNode)
      requires Valid()
      modifies this
      ensures Valid() && fresh(Repr - old(Repr))
      ensures level in snodes && snodes[level] == n
      ensures n.tree == KidOrLeaf(old(tree), level, NO_ENTRY)
      ensures tree == SetKid(old(tree), level, n.tree)
    {
      if level in snodes {
        n := snodes[level];
        SetSameKid(tree, level);
      } else {
        n := new SNode();
        Adopt(level, n);
      }
    }

    method Adopt(level: Level, n: SNode)
      requires Valid() && n.Valid() && n.Repr == {n} && n !in Repr && level !in snodes
      modifies this
      ensures Valid() && Repr == old(Repr) + {n}
      ensures snodes == old(snodes)[level := n]
      ensures tree == SetKid(old(tree), level, n.tree)
    {
      snodes := snodes[level := n];
      Repr := Repr + {n};
      tree := tree.(kids := tree.kids[level := n.tree]);
    }

    /** Valid, except that the child at `level` may have changed behind this node's back. */
    ghost predicate Stale(level: Level)
      reads this, Repr, snodes.Values, set k, o | k in snodes && o in snodes[k].Repr :: o
    {
      && this in Repr && level in snodes
      && this !in snodes[level].Repr && snodes[level].Valid()
      && (forall k :: k in snodes && k != level ==> Owns(snodes[k]) && snodes[k].Valid())
      && (forall j, k :: j in snodes && k in snodes && j != k ==> snodes[j].Repr !! snodes[k].Repr)
      && tree.val == Entry(subs, qos)
      && tree.kids.Keys == snodes.Keys
      && (forall k :: k in snodes && k != level ==> tree.kids[k] == snodes[k].tree)
    }

    /** Take the child's nodes over into this subtree. */
    ghost method Absorb(level: Level)
      requires Stale(level)
      modifies this`Repr
      ensures Stale(level) && Owns(snodes[level]) && Repr == old(Repr) + snodes[level].Repr
    {
      Repr := Repr + snodes[level].Repr;
    }

    /** Take the child's value over into the value of this subtree. */
    ghost method Relabel(level: Level)
      requires Stale(level) && Owns(snodes[level])
      modifies this`tree
      ensures Valid() && tree == SetKid(old(tree), level, snodes[level].tree)
    {
      tree := SetKid(tree, level, snodes[level].tree);
      ChildrenKept();
      KidTrees();
    }

    /** A change of this node's own value leaves its children as they are. */
    twostate lemma ChildrenKept()
      requires old(forall k :: k in snodes ==> Owns(snodes[k]) && snodes[k].Valid())
      requires snodes == old(snodes) && Repr == old(Repr) && unchanged(Repr - {this})
      ensures forall k :: k in snodes ==> Owns(snodes[k]) && snodes[k].Valid()
    {
    }

    lemma KidTrees()
      requires tree.kids.Keys == snodes.Keys && forall k :: k in snodes ==> tree.kids[k] == snodes[k].tree
      ensures tree.kids == map k | k in snodes :: snodes[k].tree
    {
    }

    ghost method Refresh(level: Level)
      requires Stale(level)
      modifies this`Repr, this`tree
      ensures Valid() && Repr == old(Repr) + snodes[level].Repr
      ensures tree == SetKid(old(tree), level, snodes[level].tree)
    {
      Absorb(level);
      Relabel(level);
    }

    method SInsert(topic: Bytes, q: Byte, sub: Subscription) returns (ok: bool)
      requires Valid() && GoodTree(tree)
      modifies Repr
      ensures Valid() && fresh(Repr - old(Repr))
      ensures ok == Tokenize(topic).ok
      ensures tree == Insert(old(tree), Tokenize(topic), q, sub)
      decreases |topic|, 1
    {
      if |topic| == 0 {
        GoodAt(tree, []);
        SInsertHere(q, sub);
        return true;
      }
      var next := NextTopicLevel(topic);
      if next.Fail? {
        return false;
      }
      InsertStep(tree, next.level, Tokenize(next.rem), q, sub);
      ok := SInsertDown(next.level, next.rem, q, sub);
    }

    /** The child for a level, made if it is missing, and the rest of the filter below it. */
    method SInsertDown(level: Level, rem: Bytes, q: Byte, sub: Subscription) returns (ok: bool)
      requires Valid() && GoodTree(KidOrLeaf(tree, level, NO_ENTRY))
      modifies Repr
      ensures Valid() && fresh(Repr - old(Repr))
      ensures ok == Tokenize(rem).ok
      ensures tree == SetKid(old(tree), level, Insert(KidOrLeaf(old(tree), level, NO_ENTRY), Tokenize(rem), q, sub))
      decreases |rem|, 3
    {
      ghost var kids := tree.kids;
      var n := Child(level);
      ghost var kid := n.tree;
      ok := SInsertBelow(level, rem, q, sub);
      Overwrite(kids, level, kid, Insert(kid, Tokenize(rem), q, sub));
    }

    method SInsertBelow(level: Level, rem: Bytes, q: Byte, sub: Subscription) returns (ok: bool)
      requires Valid() && level in snodes && GoodTree(snodes[level].tree)
      modifies Repr
      ensures Valid() && fresh(Repr - old(Repr))
      ensures ok == Tokenize(rem).ok
      ensures tree == SetKid(old(tree), level, Insert(old(snodes[level].tree), Tokenize(rem), q, sub))
      decreases |rem|, 2
    {
      var n := snodes[level];
      ok := n.SInsert(rem, q, sub);
      Refresh(level);
      assert Repr - old(Repr) <= n.Repr - old(n.Repr);
    }

    /** The last level: drop one subscriber, or all of them for None. */
    method SRemoveHere(sub: Option<Subscription>) returns (ok: bool)
      requires Valid() && GoodEntry(tree.val)
      modifies this
      ensures Valid() && Repr == old(Repr)
      ensures ok == (sub.Some? ==> sub.value in old(tree).val.subs)
      ensures tree == if !ok then old(tree) else old(tree).(val :=
        if sub.None? then NO_ENTRY else DropSub(old(tree).val, sub.value))
    {
      if sub.None? {
        SetEntry(NO_ENTRY);
        return true;
      }
      var i := Find(sub.value);
      if i < |subs| {
        SetEntry(Entry(subs[..i] + subs[i + 1..], qos[..i] + qos[i + 1..]));
        return true;
      }
      return false;
    }

    method DropChild(level: Level)
      requires Valid() && level in snodes
      modifies this
      ensures Valid() && Repr == old(Repr)
      ensures tree == old(tree).(kids := old(tree).kids - {level})
    {
      snodes := snodes - {level};
      tree := tree.(kids := tree.kids - {level});
    }

    /** Drop a child that has neither subscribers nor children. */
    method Prune(level: Level)
      requires Valid() && level in snodes
      modifies this
      ensures Valid() && Repr == old(Repr)
      ensures tree == Pruned(old(tree), level, Idle)
    {
      var n := snodes[level];
      assert n.tree.kids.Keys == n.snodes.Keys;
      if |n.subs| == 0 && |n.snodes| == 0 {
        assert n.tree.kids == map[];
        DropChild(level);
      }
    }

    method SRemove(topic: Bytes, sub: Option<Subscription>) returns (ok: bool)
      requires Valid() && GoodTree(tree)
      modifies Repr
      ensures Valid() && Repr == old(Repr)
      ensures ok == Remove(old(tree), Tokenize(topic), sub).Some?
      ensures tree == if ok then Remove(old(tree), Tokenize(topic), sub).value else old(tree)
      decreases |topic|, 1
    {
      if |topic| == 0 {
        GoodAt(tree, []);
        ok := SRemoveHere(sub);
        return;
      }
      var next := NextTopicLevel(topic);
      if next.Fail? {
        return false;
      }
      RemoveStep(tree, next.level, Tokenize(next.rem), sub);
      if next.level !in snodes {
        return false;
      }
      ok := SRemoveBelow(next.level, next.rem, sub);
    }

    method SRemoveBelow(level: Level, rem: Bytes, sub: Option<Subscription>) returns (ok: bool)
      requires Valid() && level in snodes && GoodTree(snodes[level].tree)
      modifies Repr
      ensures Valid() && Repr == old(Repr)
      ensures ok == Remove(old(snodes[level].tree), Tokenize(rem), sub).Some?
      ensures tree == if !ok then old(tree) else
        Pruned(SetKid(old(tree), level, Remove(old(snodes[level].tree), Tokenize(rem), sub).value), level, Idle)
      decreases |rem|, 2
    {
      var n := snodes[level];
      ghost var t := tree;
      SetSameKid(t, level);
      ok := n.SRemove(rem, sub);
      Refresh(level);
      assert tree == SetKid(t, level, n.tree);
      assert Repr == old(Repr);
      if ok {
        Prune(level);
      }
    }

    /** Append every subscriber of this node to the result slices. */
    method MatchQos(q: Byte, subs0: seq<Subscription>, qoss0: seq<Byte>)
      returns (subs': seq<Subscription>, qoss': seq<Byte>)
      requires Valid()
      ensures subs' == subs0 + tree.val.subs
      ensures Tagged(q, subs0, qoss0, subs', qoss')
    {
      subs', qoss' := subs0, qoss0;
      var i := 0;
      while i < |subs|
        invariant 0 <= i <= |subs|
        invariant subs' == subs0 + subs[..i]
        invariant Tagged(q, subs0, qoss0, subs', qoss')
      {
        subs' := subs' + [subs[i]];
        qoss' := qoss' + [q];
        i := i + 1;
      }
      assert subs[..i] == subs;
    }

    /** The subscribers whose filter matches the topic, each once per matching filter, in the
        order in which the walk meets them. */
    method SMatch(topic: Bytes, q: Byte, subs0: seq<Subscription>, qoss0: seq<Byte>)
      returns (ok: bool, subs': seq<Subscription>, qoss': seq<Byte>)
      requires Valid() && GoodTree(tree)
      ensures ok <==> !WalkFails(tree, Tokenize(topic))
      ensures ok ==> forall s :: multiset(subs')[s] ==
                                 multiset(subs0)[s] + |Hits(tree, s, Tokenize(topic).levels)|
      ensures Tagged(q, subs0, qoss0, subs', qoss')
      decreases |topic|, 1
    {
      if |topic| == 0 {
        subs', qoss' := SMatchHere(q, subs0, qoss0);
        return true, subs', qoss';
      }
      var next := NextTopicLevel(topic);
      if next.Fail? {
        assert WalkFails(tree, Tokenize(topic)) by {
          assert Has(tree, []) && Agree([], [], 0);
        }
        return false, subs0, qoss0;
      }
      TokensSharpLast(topic);
      ok, subs', qoss' := SMatchBelow(next.level, next.rem, q, subs0, qoss0);
    }

    /** The end of the topic: this node's subscribers and those of its '#' child. */
    method SMatchHere(q: Byte, subs0: seq<Subscription>, qoss0: seq<Byte>)
      returns (subs': seq<Subscription>, qoss': seq<Byte>)
      requires Valid() && GoodTree(tree)
      ensures forall s :: multiset(subs')[s] == multiset(subs0)[s] + |Hits(tree, s, [])|
      ensures Tagged(q, subs0, qoss0, subs', qoss')
    {
      subs', qoss' := MatchQos(q, subs0, qoss0);
      ghost var sharp := [];
      if MWC in snodes {
        sharp := snodes[MWC].tree.val.subs;
        subs', qoss' := snodes[MWC].MatchQos(q, subs', qoss');
      }
      forall s
        ensures multiset(subs')[s] == multiset(subs0)[s] + |Hits(tree, s, [])|
      {
        HitsEnd(tree, s);
        GoodAt(tree, []);
        NoDupCount(tree.val.subs, s);
        if MWC in tree.kids {
          GoodKid(tree, MWC);
          GoodAt(tree.kids[MWC], []);
        }
        NoDupCount(sharp, s);
      }
    }

    /** The children, in any order: '#' contributes its subscribers, '+' and the level itself are
        searched with the rest of the topic. */
    method SMatchBelow(level: Level, rem: Bytes, q: Byte, subs0: seq<Subscription>, qoss0: seq<Byte>)
      returns (ok: bool, subs': seq<Subscription>, qoss': seq<Byte>)
      requires Valid() && GoodTree(tree)
      requires !Tokenize(rem).ok ==> level != MWC && MWC !in Tokenize(rem).levels
      ensures ok <==> !WalkFails(tree, Tokens([level] + Tokenize(rem).levels, Tokenize(rem).ok))
      ensures ok ==> forall s :: multiset(subs')[s] ==
                                 multiset(subs0)[s] + |Hits(tree, s, [level] + Tokenize(rem).levels)|
      ensures Tagged(q, subs0, qoss0, subs', qoss')
      decreases |rem|, 3
    {
      ghost var rest := Tokenize(rem);
      WalkFailsStep(tree, level, rest);
      subs', qoss' := subs0, qoss0;
      var todo := snodes.Keys;
      ghost var done: set<Level> := {};
      while todo != {}
        invariant done !! todo && done + todo == snodes.Keys
        invariant Visited(tree, level, rest, done, q, subs0, qoss0, subs', qoss')
      {
        var k :| k in todo;
        ghost var before, qbefore := subs', qoss';
        ok, subs', qoss' := SMatchChild(k, level, rem, q, subs', qoss');
        VisitOneMore(tree, level, rest, done, k, q, subs0, qoss0, before, qbefore, ok, subs', qoss');
        if !ok {
          return;
        }
        MoveOne(snodes.Keys, done, todo, k);
        done := done + {k};
        todo := todo - {k};
      }
      CollectedAll(tree, [level] + rest.levels, done, subs0, subs');
      return true, subs', qoss';
    }

    method SMatchChild(k: Level, level: Level, rem: Bytes, q: Byte, subs0: seq<Subscription>, qoss0: seq<Byte>)
      returns (ok: bool, subs': seq<Subscription>, qoss': seq<Byte>)
      requires Valid() && GoodTree(tree) && k in snodes
      ensures ok <==> !ChildFails(tree, k, level, Tokenize(rem))
      ensures ok ==> FoundBelow(tree, [level] + Tokenize(rem).levels, k, subs0, subs')
      ensures Tagged(q, subs0, qoss0, subs', qoss')
      decreases |rem|, 2
    {
      GoodKid(tree, k);
      assert ([level] + Tokenize(rem).levels)[1..] == Tokenize(rem).levels;
      if k == MWC {
        GoodAt(tree.kids[k], []);
        subs', qoss' := snodes[k].MatchQos(q, subs0, qoss0);
        forall s
          ensures multiset(subs')[s] == multiset(subs0)[s] + |Below(tree, s, [level] + Tokenize(rem).levels, k)|
        {
          NoDupCount(tree.kids[k].val.subs, s);
        }
        return true, subs', qoss';
      } else if k == SWC || k == level {
        ok, subs', qoss' := snodes[k].SMatch(rem, q, subs0, qoss0);
      } else {
        return true, subs0, qoss0;
      }
    }
  }
}

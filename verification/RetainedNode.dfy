/** The mutable trie of retained messages (rnode in broker/persistence/topics/memtopics.go). */
module RetainedNode {
  import opened Basics
  import opened TopicLevels
  import opened TopicMatch
  import opened Trie
  import opened Packets
  import opened RetainedTree

  class RNode {
    var msg: Message
    var rnodes: map<Level, RNode>

    /** The nodes of this subtree, and the value the subtree stands for. */
    ghost var Repr: set<RNode>
    ghost var tree: RTree

    ghost predicate Valid()
      reads this, Repr
      decreases Repr
    {
      && this in Repr
      && (forall k :: k in rnodes ==> Owns(rnodes[k]) && rnodes[k].Valid())
      && (forall j, k :: j in rnodes && k in rnodes && j != k ==> rnodes[j].Repr !! rnodes[k].Repr)
      && tree.val == msg
      && tree.kids == map k | k in rnodes :: rnodes[k].tree
    }

    ghost predicate Owns(n: RNode)
      reads this, Repr
    {
      n in Repr && n.Repr <= Repr && this !in n.Repr && this in Repr
    }

    constructor ()
      ensures Valid() && Repr == {this}
      ensures tree == Leaf(None)
    {
      msg, rnodes := None, map[];
      Repr, tree := {this}, Leaf(None);
    }

    /** Write the message of this node; the rest of the subtree stays. */
    method SetMessage(m: Message)
      requires Valid()
      modifies this
      ensures Valid() && Repr == old(Repr)
      ensures tree == old(tree).(val := m)
    {
      msg := m;
      tree := tree.(val := m);
      ChildrenKept();
    }

    /** The child for a level, made if it is missing. */
    method Child(level: Level) returns (n: RNode)
      requires Valid()
      modifies this
      ensures Valid() && fresh(Repr - old(Repr))
      ensures level in rnodes && rnodes[level] == n
      ensures n.tree == KidOrLeaf(old(tree), level, None)
      ensures tree == SetKid(old(tree), level, n.tree)
    {
      if level in rnodes {
        n := rnodes[level];
        SetSameKid(tree, level);
      } else {
        n := new RNode();
        Adopt(level, n);
      }
    }

    method Adopt(level: Level, n: RNode)
      requires Valid() && n.Valid() && n.Repr == {n} && n !in Repr && level !in rnodes
      modifies this
      ensures Valid() && Repr == old(Repr) + {n}
      ensures rnodes == old(rnodes)[level := n]
      ensures tree == SetKid(old(tree), level, n.tree)
    {
      rnodes := rnodes[level := n];
      Repr := Repr + {n};
      tree := tree.(kids := tree.kids[level := n.tree]);
    }

    /** Valid, except that the child at `level` may have changed behind this node's back. */
    ghost predicate Stale(level: Level)
      reads this, Repr, rnodes.Values, set k, o | k in rnodes && o in rnodes[k].Repr :: o
    {
      && this in Repr && level in rnodes
      && this !in rnodes[level].Repr && rnodes[level].Valid()
      && (forall k :: k in rnodes && k != level ==> Owns(rnodes[k]) && rnodes[k].Valid())
      && (forall j, k :: j in rnodes && k in rnodes && j != k ==> rnodes[j].Repr !! rnodes[k].Repr)
      && tree.val == msg
      && tree.kids.Keys == rnodes.Keys
      && (forall k :: k in rnodes && k != level ==> tree.kids[k] == rnodes[k].tree)
    }

    /** Take the child's nodes over into this subtree. */
    ghost method Absorb(level: Level)
      requires Stale(level)
      modifies this`Repr
      ensures Stale(level) && Owns(rnodes[level]) && Repr == old(Repr) + rnodes[level].Repr
    {
      Repr := Repr + rnodes[level].Repr;
    }

    /** Take the child's value over into the value of this subtree. */
    ghost method Relabel(level: Level)
      requires Stale(level) && Owns(rnodes[level])
      modifies this`tree
      ensures Valid() && tree == SetKid(old(tree), level, rnodes[level].tree)
    {
      tree := SetKid(tree, level, rnodes[level].tree);
      ChildrenKept();
      KidTrees();
    }

    /** A change of this node's own value leaves its children as they are. */
    twostate lemma ChildrenKept()
      requires old(forall k :: k in rnodes ==> Owns(rnodes[k]) && rnodes[k].Valid())
      requires rnodes == old(rnodes) && Repr == old(Repr) && unchanged(Repr - {this})
      ensures forall k :: k in rnodes ==> Owns(rnodes[k]) && rnodes[k].Valid()
    {
    }

    lemma KidTrees()
      requires tree.kids.Keys == rnodes.Keys && forall k :: k in rnodes ==> tree.kids[k] == rnodes[k].tree
      ensures tree.kids == map k | k in rnodes :: rnodes[k].tree
    {
    }

    ghost method Refresh(level: Level)
      requires Stale(level)
      modifies this`Repr, this`tree
      ensures Valid() && Repr == old(Repr) + rnodes[level].Repr
      ensures tree == SetKid(old(tree), level, rnodes[level].tree)
    {
      Absorb(level);
      Relabel(level);
    }

    method RInsertOrUpdate(topic: Bytes, m: PublishPacket) returns (ok: bool)
      requires Valid()
      modifies Repr
      ensures Valid() && fresh(Repr - old(Repr))
      ensures ok == Tokenize(topic).ok
      ensures tree == RInsert(old(tree), Tokenize(topic), m)
      decreases |topic|, 1
    {
      if |topic| == 0 {
        SetMessage(Some(m));
        return true;
      }
      var next := NextTopicLevel(topic);
      if next.Fail? {
        return false;
      }
      ghost var kids := tree.kids;
      RInsertStep(tree, next.level, Tokenize(next.rem), m);
      var n := Child(next.level);
      ghost var kid := n.tree;
      ok := RInsertBelow(next.level, next.rem, m);
      Overwrite(kids, next.level, kid, RInsert(kid, Tokenize(next.rem), m));
    }

    method RInsertBelow(level: Level, rem: Bytes, m: PublishPacket) returns (ok: bool)
      requires Valid() && level in rnodes
      modifies Repr
      ensures Valid() && fresh(Repr - old(Repr))
      ensures ok == Tokenize(rem).ok
      ensures tree == SetKid(old(tree), level, RInsert(old(rnodes[level].tree), Tokenize(rem), m))
      decreases |rem|, 2
    {
      var n := rnodes[level];
      ok := n.RInsertOrUpdate(rem, m);
      Refresh(level);
      assert Repr - old(Repr) <= n.Repr - old(n.Repr);
    }

    method DropChild(level: Level)
      requires Valid() && level in rnodes
      modifies this
      ensures Valid() && Repr == old(Repr)
      ensures tree == old(tree).(kids := old(tree).kids - {level})
    {
      rnodes := rnodes - {level};
      tree := tree.(kids := tree.kids - {level});
    }

    /** Drop a child that has no children, whether or not it still holds a message. */
    method Prune(level: Level)
      requires Valid() && level in rnodes
      modifies this
      ensures Valid() && Repr == old(Repr)
      ensures tree == Pruned(old(tree), level, AnyMessage)
    {
      var n := rnodes[level];
      assert n.tree.kids.Keys == n.rnodes.Keys;
      if |n.rnodes| == 0 {
        assert n.tree.kids == map[];
        DropChild(level);
      }
    }

    method RRemove(topic: Bytes) returns (ok: bool)
      requires Valid()
      modifies Repr
      ensures Valid() && Repr == old(Repr)
      ensures ok == RetainedTree.RRemove(old(tree), Tokenize(topic)).Some?
      ensures tree == if ok then RetainedTree.RRemove(old(tree), Tokenize(topic)).value else old(tree)
      decreases |topic|, 1
    {
      if |topic| == 0 {
        SetMessage(None);
        return true;
      }
      var next := NextTopicLevel(topic);
      if next.Fail? {
        return false;
      }
      RRemoveStep(tree, next.level, Tokenize(next.rem));
      if next.level !in rnodes {
        return false;
      }
      ok := RRemoveBelow(next.level, next.rem);
    }

    method RRemoveBelow(level: Level, rem: Bytes) returns (ok: bool)
      requires Valid() && level in rnodes
      modifies Repr
      ensures Valid() && Repr == old(Repr)
      ensures ok == RetainedTree.RRemove(old(rnodes[level].tree), Tokenize(rem)).Some?
      ensures tree == if !ok then old(tree) else
        Pruned(SetKid(old(tree), level, RetainedTree.RRemove(old(rnodes[level].tree), Tokenize(rem)).value),
               level, AnyMessage)
      decreases |rem|, 2
    {
      var n := rnodes[level];
      ghost var t := tree;
      SetSameKid(t, level);
      ok := n.RRemove(rem);
      Refresh(level);
      assert tree == SetKid(t, level, n.tree);
      assert Repr == old(Repr);
      if ok {
        Prune(level);
      }
    }

    /** The retained messages whose topic the filter matches, each once, in the order in which
        the walk meets them. */
    method RMatch(topic: Bytes, msgs0: seq<PublishPacket>) returns (ok: bool, msgs: seq<PublishPacket>)
      requires Valid()
      ensures ok <==> !WalkFails(tree, Tokenize(topic))
      ensures ok ==> Found(tree, Tokenize(topic).levels, msgs0, msgs)
      ensures msgs0 <= msgs
      decreases |topic|, 1
    {
      msgs := msgs0;
      TokensSharpLast(topic);
      if |topic| == 0 {
        if msg.Some? {
          msgs := msgs + [msg.value];
        }
        forall m
          ensures multiset(msgs)[m] == multiset(msgs0)[m] + |Hits(tree, [], m)|
        {
          HitsHere(tree, [], m);
        }
        return true, msgs;
      }
      var next := NextTopicLevel(topic);
      if next.Fail? {
        assert WalkFails(tree, Tokenize(topic)) by {
          assert Has(tree, []) && Agree([], [], 0);
        }
        return false, msgs;
      }
      if next.level == MWC {
        assert Tokenize(topic) == Tokens([MWC], true) by {
          assert Tokenize(topic).levels[0] == MWC;
        }
        msgs := AllRetained(msgs);
        return true, msgs;
      }
      ok, msgs := RMatchBelow(next.level, next.rem, msgs);
    }

    /** The children that a level other than '#' leads to: all of them for '+', else the one of
        that name. */
    method RMatchBelow(level: Level, rem: Bytes, msgs0: seq<PublishPacket>)
      returns (ok: bool, msgs: seq<PublishPacket>)
      requires Valid() && level != MWC && SharpLast([level] + Tokenize(rem).levels)
      ensures ok <==> !WalkFails(tree, Tokens([level] + Tokenize(rem).levels, Tokenize(rem).ok))
      ensures ok ==> Found(tree, [level] + Tokenize(rem).levels, msgs0, msgs)
      ensures msgs0 <= msgs
      decreases |rem|, 2
    {
      ghost var rest := Tokenize(rem);
      ghost var filter := [level] + rest.levels;
      assert filter[1..] == rest.levels;
      WalkFailsStep(tree, level, rest);
      msgs := msgs0;
      var todo := if level == SWC then rnodes.Keys else if level in rnodes then {level} else {};
      ghost var all := todo;
      ghost var done: set<Level> := {};
      while todo != {}
        invariant done !! todo && done + todo == all
        invariant Collected(tree, filter, done, msgs0, msgs)
        invariant forall k :: k in done ==> !ChildFails(tree, k, level, rest)
        invariant msgs0 <= msgs
      {
        var k :| k in todo;
        ghost var before := msgs;
        ok, msgs := rnodes[k].RMatch(rem, msgs);
        if !ok {
          assert ChildFails(tree, k, level, rest);
          return;
        }
        CollectOneMore(tree, filter, done, k, msgs0, before, msgs);
        MoveOne(all, done, todo, k);
        done := done + {k};
        todo := todo - {k};
      }
      CollectedAll(tree, filter, done, msgs0, msgs0, msgs);
      return true, msgs;
    }

    /** Every message in this subtree: what the filter '#' matches here. */
    method AllRetained(msgs0: seq<PublishPacket>) returns (msgs: seq<PublishPacket>)
      requires Valid()
      ensures Found(tree, [MWC], msgs0, msgs)
      ensures msgs0 <= msgs
      decreases Repr
    {
      msgs := msgs0;
      if msg.Some? {
        msgs := msgs + [msg.value];
      }
      ghost var start, filter: Path := msgs, [MWC];
      var todo := rnodes.Keys;
      ghost var done: set<Level> := {};
      while todo != {}
        invariant done !! todo && done + todo == rnodes.Keys
        invariant Collected(tree, filter, done, start, msgs)
        invariant msgs0 <= msgs
      {
        var k :| k in todo;
        ghost var before := msgs;
        assert rnodes[k].Repr <= Repr - {this};
        msgs := rnodes[k].AllRetained(msgs);
        CollectOneMore(tree, filter, done, k, start, before, msgs);
        MoveOne(rnodes.Keys, done, todo, k);
        done := done + {k};
        todo := todo - {k};
      }
      CollectedAll(tree, filter, done, msgs0, start, msgs);
    }
  }
}

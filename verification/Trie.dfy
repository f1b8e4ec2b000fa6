/** A trie over topic levels as a value: the shape both the subscription tree and the tree of
    retained messages have, with the two updates the broker performs on them
    (broker/persistence/topics/memtopics.go). */
module Trie {
  import opened Basics
  import opened TopicLevels

  datatype Tree<V> = Tree(val: V, kids: map<Level, Tree<V>>)

  ghost function Leaf<V>(v: V): Tree<V> {
    Tree(v, map[])
  }

  /** The node at a path, if there is one. */
  ghost function Get<V>(t: Tree<V>, p: Path): Option<Tree<V>>
    decreases |p|
  {
    if p == [] then Some(t)
    else if p[0] in t.kids then Get(t.kids[p[0]], p[1..])
    else None
  }

  ghost predicate Has<V>(t: Tree<V>, p: Path) {
    Get(t, p).Some?
  }

  /** The trie read as a flat table: the value at a path, `d` where there is no node. */
  ghost function At<V>(t: Tree<V>, p: Path, d: V): V {
    if Has(t, p) then Get(t, p).value.val else d
  }

  lemma GetCons<V>(t: Tree<V>, k: Level, p: Path)
    ensures Get(t, [k] + p) == if k in t.kids then Get(t.kids[k], p) else None
  {
    assert ([k] + p)[1..] == p;
  }

  /** The child at a level, or a fresh leaf when it is missing. */
  ghost function KidOrLeaf<V>(t: Tree<V>, k: Level, d: V): Tree<V> {
    if k in t.kids then t.kids[k] else Leaf(d)
  }

  ghost function SetKid<V>(t: Tree<V>, k: Level, kid: Tree<V>): Tree<V> {
    t.(kids := t.kids[k := kid])
  }

  lemma SetSameKid<V>(t: Tree<V>, k: Level)
    requires k in t.kids
    ensures SetKid(t, k, t.kids[k]) == t
  {
    assert t.kids[k := t.kids[k]] == t.kids;
  }

  ghost predicate Bare<V>(n: Tree<V>, dead: V -> bool) {
    n.kids == map[] && dead(n.val)
  }

  /** The tree without the child at k if that child is bare. */
  ghost function Pruned<V>(t: Tree<V>, k: Level, dead: V -> bool): Tree<V>
    requires k in t.kids
  {
    if Bare(t.kids[k], dead) then t.(kids := t.kids - {k}) else t
  }

  /** The finitely many paths that have a node. */
  ghost function Paths<V>(t: Tree<V>): set<Path> {
    {[]} + set k, p | k in t.kids && p in Paths(t.kids[k]) :: [k] + p
  }

  lemma {:induction false} PathsHas<V>(t: Tree<V>, p: Path)
    ensures p in Paths(t) <==> Has(t, p)
    decreases |p|
  {
    if p != [] {
      assert p == [p[0]] + p[1..];
      if p[0] in t.kids {
        PathsHas(t.kids[p[0]], p[1..]);
        assert Has(t, p) == Has(t.kids[p[0]], p[1..]);
      }
      if p in Paths(t) {
        var k, q :| k in t.kids && q in Paths(t.kids[k]) && [k] + q == p;
        assert p[0] == k && p[1..] == q;
      }
    }
  }

  // ---------------------------------------------------------------------
  // Insertion: make the nodes on the path, then maybe write the last one
  // ---------------------------------------------------------------------

  ghost function Write<V>(t: Tree<V>, p: Path, d: V, w: Option<V>): Tree<V>
    decreases |p|
  {
    if p == [] then (if w.Some? then t.(val := w.value) else t)
    else
      var kid := KidOrLeaf(t, p[0], d);
      SetKid(t, p[0], Write(kid, p[1..], d, w))
  }

  /** Writing changes the table at its own path only, and not at all when nothing is written;
      it adds nodes only on that path. */
  lemma {:induction false} WriteTable<V>(t: Tree<V>, p: Path, d: V, w: Option<V>, q: Path)
    ensures At(Write(t, p, d, w), q, d) == if q == p && w.Some? then w.value else At(t, q, d)
    ensures Has(Write(t, p, d, w), q) <==> Has(t, q) || q <= p
    decreases |p|
  {
    if p != [] && q != [] && p[0] == q[0] {
      var kid := KidOrLeaf(t, p[0], d);
      WriteTable(kid, p[1..], d, w, q[1..]);
      assert p == [p[0]] + p[1..] && q == [q[0]] + q[1..];
      GetCons(t, q[0], q[1..]);
      GetCons(Write(t, p, d, w), q[0], q[1..]);
      if p[0] !in t.kids {
        LeafTable(d, q[1..]);
      }
    }
  }

  lemma LeafTable<V>(d: V, q: Path)
    ensures At(Leaf(d), q, d) == d
    ensures Has(Leaf(d), q) <==> q == []
  {
  }

  // ---------------------------------------------------------------------
  // Removal: write the last node, then prune dead childless nodes upwards
  // ---------------------------------------------------------------------

  ghost function Erase<V>(t: Tree<V>, p: Path, v: V, dead: V -> bool): Tree<V>
    requires Has(t, p)
    decreases |p|
  {
    if p == [] then t.(val := v)
    else
      var kid := Erase(t.kids[p[0]], p[1..], v, dead);
      if Bare(kid, dead) then t.(kids := t.kids - {p[0]}) else SetKid(t, p[0], kid)
  }

  /** The value at a path just after the last node was written and before any pruning. */
  ghost function Written<V>(t: Tree<V>, p: Path, v: V, r: Path): V {
    if r == p then v else At(t, r, v)
  }

  /** A non-root node on the path is pruned when all nodes below it lie on the path too and
      every value from it down to the end of the path is dead. */
  ghost predicate Doomed<V>(t: Tree<V>, p: Path, v: V, dead: V -> bool, q: Path) {
    && q != [] && q <= p
    && (forall r :: Has(t, r) && q <= r ==> r <= p)
    && (forall r :: q <= r && r <= p ==> dead(Written(t, p, v, r)))
  }

  lemma PrefixCons(k: Level, a: Path, b: Path)
    ensures [k] + a <= [k] + b <==> a <= b
    ensures [k] + a == [k] + b <==> a == b
  {
    assert ([k] + a)[1..] == a && ([k] + b)[1..] == b;
    if a <= b {
      assert forall i :: 0 <= i < |a| ==> a[i] == b[i];
    }
  }

  lemma DoomedBelow<V>(t: Tree<V>, k: Level, p: Path, v: V, dead: V -> bool, q: Path)
    requires k in t.kids && q != []
    ensures Doomed(t, [k] + p, v, dead, [k] + q) <==> Doomed(t.kids[k], p, v, dead, q)
  {
    var kid := t.kids[k];
    PrefixCons(k, q, p);
    if Doomed(t, [k] + p, v, dead, [k] + q) {
      forall r | Has(kid, r) && q <= r
        ensures r <= p
      {
        GetCons(t, k, r);
        PrefixCons(k, q, r);
        PrefixCons(k, r, p);
        assert Has(t, [k] + r);
      }
      forall r | q <= r && r <= p
        ensures dead(Written(kid, p, v, r))
      {
        GetCons(t, k, r);
        PrefixCons(k, q, r);
        PrefixCons(k, r, p);
        assert dead(Written(t, [k] + p, v, [k] + r));
      }
    }
    if Doomed(kid, p, v, dead, q) {
      forall r | Has(t, r) && [k] + q <= r
        ensures r <= [k] + p
      {
        var r' := r[1..];
        assert r[0] == ([k] + q)[0];
        assert r == [k] + r';
        GetCons(t, k, r');
        PrefixCons(k, q, r');
        PrefixCons(k, r', p);
        assert Has(kid, r') && q <= r';
      }
      forall r | [k] + q <= r && r <= [k] + p
        ensures dead(Written(t, [k] + p, v, r))
      {
        var r' := r[1..];
        assert r[0] == ([k] + q)[0];
        assert r == [k] + r';
        GetCons(t, k, r');
        PrefixCons(k, q, r');
        PrefixCons(k, r', p);
        assert q <= r' && dead(Written(kid, p, v, r'));
      }
    }
  }

  /** The first node on the path is pruned exactly when the recursive call left it bare. */
  lemma DoomedHere<V>(t: Tree<V>, k: Level, p: Path, v: V, dead: V -> bool)
    requires k in t.kids && Has(t.kids[k], p)
    requires forall j :: var e := Erase(t.kids[k], p, v, dead);
      j in e.kids <==> j in t.kids[k].kids && !Doomed(t.kids[k], p, v, dead, [j])
    requires Erase(t.kids[k], p, v, dead).val == Written(t.kids[k], p, v, [])
    ensures Doomed(t, [k] + p, v, dead, [k]) <==> Bare(Erase(t.kids[k], p, v, dead), dead)
  {
    var kid := t.kids[k];
    assert [k] + [] == [k];
    GetCons(t, k, []);
    PrefixCons(k, [], p);
    assert Written(t, [k] + p, v, [k]) == Written(kid, p, v, []);
    if Doomed(t, [k] + p, v, dead, [k]) {
      assert dead(Written(t, [k] + p, v, [k]));
      forall j | j in kid.kids
        ensures Doomed(kid, p, v, dead, [j])
      {
        DoomedKid(t, k, p, v, dead, j);
      }
    }
    if Bare(Erase(kid, p, v, dead), dead) {
      KidsDoomed(t, k, p, v, dead);
    }
  }

  lemma DoomedKid<V>(t: Tree<V>, k: Level, p: Path, v: V, dead: V -> bool, j: Level)
    requires k in t.kids && j in t.kids[k].kids
    requires Doomed(t, [k] + p, v, dead, [k])
    ensures Doomed(t.kids[k], p, v, dead, [j])
  {
    GetCons(t.kids[k], j, []);
    assert [j] + [] == [j];
    GetCons(t, k, [j]);
    assert Has(t, [k] + [j]);
    PrefixCons(k, [j], p);
    DoomedBelow(t, k, p, v, dead, [j]);
    DoomedDown(t, [k] + p, v, dead, [k], [k] + [j]);
  }

  lemma KidsDoomed<V>(t: Tree<V>, k: Level, p: Path, v: V, dead: V -> bool)
    requires k in t.kids && Has(t.kids[k], p)
    requires forall j :: j in t.kids[k].kids ==> Doomed(t.kids[k], p, v, dead, [j])
    requires dead(Written(t.kids[k], p, v, []))
    ensures Doomed(t, [k] + p, v, dead, [k])
  {
    var kid := t.kids[k];
    forall r | Has(t, r) && [k] <= r
      ensures r <= [k] + p
    {
      var r' := r[1..];
      assert r == [k] + r';
      GetCons(t, k, r');
      PrefixCons(k, r', p);
      if r' != [] {
        assert Doomed(kid, p, v, dead, [r'[0]]);
        assert Has(kid, r') && [r'[0]] <= r';
      }
    }
    forall r | [k] <= r && r <= [k] + p
      ensures dead(Written(t, [k] + p, v, r))
    {
      var r' := r[1..];
      assert r == [k] + r';
      GetCons(t, k, r');
      PrefixCons(k, r', p);
      if r' != [] {
        assert p[0] == r'[0] && [r'[0]] <= r';
        HasHead(kid, p);
        assert dead(Written(kid, p, v, r'));
      }
    }
  }

  lemma HasHead<V>(t: Tree<V>, p: Path)
    requires Has(t, p) && p != []
    ensures p[0] in t.kids
  {
  }

  lemma DoomedDown<V>(t: Tree<V>, p: Path, v: V, dead: V -> bool, q: Path, q': Path)
    requires Doomed(t, p, v, dead, q) && q <= q' && q' <= p
    ensures Doomed(t, p, v, dead, q')
  {
    forall r | Has(t, r) && q' <= r
      ensures r <= p
    {
      PrefixTrans(q, q', r);
    }
    forall r | q' <= r && r <= p
      ensures dead(Written(t, p, v, r))
    {
      PrefixTrans(q, q', r);
    }
  }

  lemma PrefixTrans(a: Path, b: Path, c: Path)
    requires a <= b && b <= c
    ensures a <= c
  {
    assert forall i :: 0 <= i < |a| ==> a[i] == b[i] == c[i];
  }

  /** Removal, exactly: the nodes that go are the doomed ones, every node that stays keeps its
      value, except the one at the end of the path, which gets the new one. */
  lemma {:induction false} EraseTable<V>(t: Tree<V>, p: Path, v: V, dead: V -> bool, q: Path)
    requires Has(t, p)
    ensures var e := Erase(t, p, v, dead);
      && (Has(e, q) <==> Has(t, q) && !Doomed(t, p, v, dead, q))
      && (Has(e, q) ==> Get(e, q).value.val == Written(t, p, v, q))
    decreases |p|, |q|
  {
    if p == [] {
      if q != [] {
        assert Get(t.(val := v), q) == Get(t, q);
      }
    } else if q == [] {
    } else if q[0] != p[0] {
      assert !(q <= p);
      assert Get(Erase(t, p, v, dead), q) == Get(t, q);
    } else {
      var k, p', q' := p[0], p[1..], q[1..];
      assert p == [k] + p' && q == [k] + q';
      var kid := t.kids[k];
      var e := Erase(kid, p', v, dead);
      GetCons(t, k, p');
      GetCons(t, k, q');
      GetCons(Erase(t, p, v, dead), k, q');
      EraseTable(kid, p', v, dead, q');
      EraseTable(kid, p', v, dead, []);
      forall j
        ensures j in e.kids <==> j in kid.kids && !Doomed(kid, p', v, dead, [j])
      {
        EraseTable(kid, p', v, dead, [j]);
        GetCons(kid, j, []);
        GetCons(e, j, []);
        assert [j] + [] == [j];
      }
      DoomedHere(t, k, p', v, dead);
      if q' == [] {
        assert q == [k];
      } else {
        DoomedBelow(t, k, p', v, dead, q');
        if Bare(e, dead) {
          assert !Has(e, q');
        }
      }
    }
  }

  // ---------------------------------------------------------------------
  // No leaks
  // ---------------------------------------------------------------------

  /** No node but the root is childless with a dead value. */
  ghost predicate Tidy<V>(t: Tree<V>, dead: V -> bool) {
    forall q :: q != [] && Has(t, q) ==> !Bare(Get(t, q).value, dead)
  }

  ghost predicate TidyOn<V>(t: Tree<V>, dead: V -> bool, p: Path) {
    forall q :: q != [] && q <= p && Has(t, q) ==> !Bare(Get(t, q).value, dead)
  }

  lemma TidyKids<V>(t: Tree<V>, dead: V -> bool)
    ensures Tidy(t, dead) <==> forall k :: k in t.kids ==> !Bare(t.kids[k], dead) && Tidy(t.kids[k], dead)
  {
    if Tidy(t, dead) {
      forall k | k in t.kids
        ensures !Bare(t.kids[k], dead) && Tidy(t.kids[k], dead)
      {
        GetCons(t, k, []);
        assert Has(t, [k] + []);
        forall q | q != [] && Has(t.kids[k], q)
          ensures !Bare(Get(t.kids[k], q).value, dead)
        {
          GetCons(t, k, q);
          assert Has(t, [k] + q);
        }
      }
    }
    if forall k :: k in t.kids ==> !Bare(t.kids[k], dead) && Tidy(t.kids[k], dead) {
      forall q | q != [] && Has(t, q)
        ensures !Bare(Get(t, q).value, dead)
      {
        assert q[1..] != [] ==> Has(t.kids[q[0]], q[1..]);
      }
    }
  }

  lemma TidyOnKid<V>(t: Tree<V>, dead: V -> bool, k: Level, p: Path)
    requires k in t.kids
    ensures TidyOn(t, dead, [k] + p) <==> !Bare(t.kids[k], dead) && TidyOn(t.kids[k], dead, p)
  {
    if TidyOn(t, dead, [k] + p) {
      GetCons(t, k, []);
      assert Has(t, [k] + []);
      forall q | q != [] && q <= p && Has(t.kids[k], q)
        ensures !Bare(Get(t.kids[k], q).value, dead)
      {
        GetCons(t, k, q);
        PrefixCons(k, q, p);
        assert Has(t, [k] + q);
      }
    }
    if !Bare(t.kids[k], dead) && TidyOn(t.kids[k], dead, p) {
      forall q | q != [] && q <= [k] + p && Has(t, q)
        ensures !Bare(Get(t, q).value, dead)
      {
        var q' := q[1..];
        assert q == [k] + q';
        GetCons(t, k, q');
        PrefixCons(k, q', p);
        assert q' != [] ==> Has(t.kids[k], q');
      }
    }
  }

  lemma {:induction false} TidyWrite<V>(t: Tree<V>, p: Path, d: V, v: V, dead: V -> bool)
    requires Tidy(t, dead) && !dead(v)
    ensures Tidy(Write(t, p, d, Some(v)), dead)
    decreases |p|
  {
    TidyKids(t, dead);
    TidyKids(Write(t, p, d, Some(v)), dead);
    if p != [] {
      var kid := KidOrLeaf(t, p[0], d);
      TidyKids(kid, dead);
      TidyWrite(kid, p[1..], d, v, dead);
    }
  }

  /** Making the nodes of a path and writing nothing leaves a bare node behind exactly when the
      last of them was not there before. */
  lemma {:induction false} TidyWriteNothing<V>(t: Tree<V>, p: Path, d: V, dead: V -> bool)
    requires Tidy(t, dead) && dead(d)
    ensures Tidy(Write(t, p, d, None), dead) <==> Has(t, p)
    decreases |p|
  {
    if p != [] {
      var k, p' := p[0], p[1..];
      var kid := KidOrLeaf(t, k, d);
      TidyKids(t, dead);
      TidyKids(kid, dead);
      TidyKids(Write(t, p, d, None), dead);
      TidyWriteNothing(kid, p', d, dead);
      var t' := Write(t, p, d, None);
      assert k in t'.kids && t'.kids[k] == Write(kid, p', d, None);
      if k !in t.kids {
        LeafTable(d, p');
        assert p' == [] ==> Bare(t'.kids[k], dead);
      }
    }
  }

  lemma {:induction false} TidyErase<V>(t: Tree<V>, p: Path, v: V, dead: V -> bool)
    requires Tidy(t, dead) && Has(t, p)
    ensures Tidy(Erase(t, p, v, dead), dead)
    decreases |p|
  {
    TidyKids(t, dead);
    TidyKids(Erase(t, p, v, dead), dead);
    if p != [] {
      TidyErase(t.kids[p[0]], p[1..], v, dead);
    }
  }

  ghost predicate AllDead<V>(t: Tree<V>, dead: V -> bool) {
    forall q :: Has(t, q) ==> dead(Get(t, q).value.val)
  }

  lemma AllDeadKid<V>(t: Tree<V>, dead: V -> bool, k: Level)
    requires AllDead(t, dead) && k in t.kids
    ensures AllDead(t.kids[k], dead) && dead(t.kids[k].val)
  {
    forall q | Has(t.kids[k], q)
      ensures dead(Get(t.kids[k], q).value.val)
    {
      GetCons(t, k, q);
      assert Has(t, [k] + q);
    }
    assert Has(t.kids[k], []);
  }

  lemma TidyKid<V>(t: Tree<V>, dead: V -> bool, k: Level)
    requires Tidy(t, dead) && k in t.kids
    ensures Tidy(t.kids[k], dead)
  {
    TidyKids(t, dead);
  }

  /** A tidy tree whose values are all dead is a bare root. */
  lemma {:induction false} TidyAllDead<V>(t: Tree<V>, dead: V -> bool)
    requires Tidy(t, dead) && AllDead(t, dead)
    ensures t.kids == map[]
    decreases t
  {
    forall k | k in t.kids
      ensures Bare(t.kids[k], dead)
    {
      AllDeadKid(t, dead, k);
      TidyKid(t, dead, k);
      TidyAllDead(t.kids[k], dead);
    }
    TidyKids(t, dead);
    assert t.kids.Keys == {};
  }

  /** Writing a value and then erasing it restores the identical tree exactly when no node that
      was already on the path is bare. */
  lemma {:induction false} WriteThenErase<V>(t: Tree<V>, p: Path, d: V, v: V, dead: V -> bool)
    requires dead(d)
    ensures Has(Write(t, p, d, Some(v)), p)
    ensures Erase(Write(t, p, d, Some(v)), p, At(t, p, d), dead) == t <==> TidyOn(t, dead, p)
    decreases |p|
  {
    WriteTable(t, p, d, Some(v), p);
    if p != [] {
      var k, p' := p[0], p[1..];
      assert p == [k] + p';
      var kid := KidOrLeaf(t, k, d);
      WriteThenErase(kid, p', d, v, dead);
      GetCons(t, k, p');
      if k in t.kids {
        TidyOnKid(t, dead, k, p');
        var back := Erase(Write(t, p, d, Some(v)), p, At(t, p, d), dead);
        if TidyOn(t, dead, p) {
          assert t.kids[k := t.kids[k]] == t.kids;
        } else if k in back.kids {
          assert back.kids[k] != t.kids[k];
        }
      } else {
        LeafTable(d, p');
        assert TidyOn(Leaf(d), dead, p');
        assert t.kids[k := Leaf(d)] - {k} == t.kids;
      }
    }
  }
}

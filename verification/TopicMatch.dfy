/** The wildcard relation between a filter and a topic, level by level
    (section 4.7.1 of MQTT Version 3.1.1), and counting of sets of paths. */
module TopicMatch {
  import opened TopicLevels

  /** The first n levels agree: equal names, or '+' in the filter. */
  ghost predicate Agree(filter: Path, topic: Path, n: nat)
    requires n <= |filter| && n <= |topic|
  {
    forall i :: 0 <= i < n ==> filter[i] == SWC || filter[i] == topic[i]
  }

  /** A filter ending in '#' matches its parent level and everything below it; any other filter
      matches topics with the same number of levels. */
  ghost predicate Matches(filter: Path, topic: Path) {
    if filter != [] && filter[|filter| - 1] == MWC
    then |filter| - 1 <= |topic| && Agree(filter, topic, |filter| - 1)
    else |filter| == |topic| && Agree(filter, topic, |filter|)
  }

  /** One level of the relation, read from the left. */
  lemma MatchesCons(k: Level, filter: Path, topic: Path)
    ensures Matches([k] + filter, topic) <==>
      || (k == MWC && filter == [])
      || (topic != [] && (k == SWC || k == topic[0]) && Matches(filter, topic[1..]))
  {
    var f := [k] + filter;
    assert f[1..] == filter;
    if topic != [] {
      forall n: nat | n <= |filter| && n < |topic|
        ensures Agree(f, topic, n + 1) <==> (k == SWC || k == topic[0]) && Agree(filter, topic[1..], n)
      {
        AgreeCons(k, filter, topic, n);
      }
      if filter != [] {
        assert f[|f| - 1] == filter[|filter| - 1];
      }
    }
  }

  lemma AgreeCons(k: Level, filter: Path, topic: Path, n: nat)
    requires n <= |filter| && n < |topic|
    ensures Agree([k] + filter, topic, n + 1) <==> (k == SWC || k == topic[0]) && Agree(filter, topic[1..], n)
  {
    var f := [k] + filter;
    assert f[0] == k;
    if Agree(f, topic, n + 1) {
      forall i | 0 <= i < n
        ensures filter[i] == SWC || filter[i] == topic[1..][i]
      {
        assert f[i + 1] == filter[i];
      }
    }
    if (k == SWC || k == topic[0]) && Agree(filter, topic[1..], n) {
      forall i | 0 <= i < n + 1
        ensures f[i] == SWC || f[i] == topic[i]
      {
        if i > 0 { assert filter[i - 1] == SWC || filter[i - 1] == topic[1..][i - 1]; }
      }
    }
  }

  /** Without empty pieces the code's relation is the one on plain splits. */
  lemma PlainSplitsMatch(filter: Bytes, topic: Bytes)
    requires WellFormed(filter) && WellFormed(topic) && [] !in Split(filter) && [] !in Split(topic)
    ensures Matches(LevelsOf(filter), LevelsOf(topic)) <==> Matches(Split(filter), Split(topic))
  {
    TokenizeSpec(filter);
    TokenizeSpec(topic);
    JoinTokenize(filter);
    JoinTokenize(topic);
  }

  /** With one it need not be: the filter `a//b` matches the topic `a/x/b`. */
  lemma EmptyLevelMatchesAny()
    ensures var filter, topic := [97] + [47] + ([] + [47] + [98]), [97] + [47] + ([120] + [47] + [98]);
      && WellFormed(filter) && WellFormed(topic)
      && Matches(LevelsOf(filter), LevelsOf(topic)) && !Matches(Split(filter), Split(topic))
  {
    SplitOne([98]);
    SplitCons([], [98]);
    SplitCons([120], [98]);
    SplitCons([97], [] + [47] + [98]);
    SplitCons([97], [120] + [47] + [98]);
    var filter: Bytes, topic: Bytes := [97] + [47] + ([] + [47] + [98]), [97] + [47] + ([120] + [47] + [98]);
    assert Split(filter) == [[97], [], [98]] && Split(topic) == [[97], [120], [98]];
    assert LevelsOf(filter) == [[97], SWC, [98]] && LevelsOf(topic) == [[97], [120], [98]];
    assert Split(filter)[1] != Split(topic)[1];
  }

  /** The bytes of the wildcards: `#` matches the level before it, `+` any one level and not fewer. */
  lemma WildcardBytes(l: Level, k: Level)
    requires 47 !in l && 35 !in l && 43 !in l && l != [] && 47 !in k && k != []
    ensures Matches(LevelsOf([43]), LevelsOf(l))
    ensures Matches(LevelsOf(l + [47] + [35]), LevelsOf(l))
    ensures Matches(LevelsOf([43] + [47] + l), LevelsOf(k + [47] + l))
    ensures !Matches(LevelsOf([43] + [47] + l), LevelsOf(k))
  {
    WildcardSplits(l);
    SplitOne(k);
    SplitCons(k, l);
    assert LevelsOf(k) == [k] && LevelsOf(k + [47] + l) == [k, l];
  }

  /** A wildcard is accepted as a whole level, and `#` only at the end; `a/` has the levels of `a`. */
  lemma WildcardPlaces(l: Level)
    requires 47 !in l && 35 !in l && 43 !in l && l != []
    ensures WellFormed([43]) && WellFormed(l + [47] + [35]) && WellFormed([43] + [47] + l)
    ensures !WellFormed(l + [43]) && !WellFormed(l + [35]) && !WellFormed([35] + [47] + l)
    ensures LevelsOf(l + [47] + []) == LevelsOf(l) == [l]
  {
    WildcardSplits(l);
    SpoiltEnd(l, 43);
    SpoiltEnd(l, 35);
    assert !PieceOk(Split(l + [43]), 0) && !PieceOk(Split(l + [35]), 0) && !PieceOk(Split([35] + [47] + l), 0);
  }

  lemma WildcardSplits(l: Level)
    requires 47 !in l && l != []
    ensures Split([43]) == [[43]] && Split(l) == [l] && Split(l + [43]) == [l + [43]] && Split(l + [35]) == [l + [35]]
    ensures Split(l + [47] + [35]) == [l] + [[35]] && Split(l + [47] + []) == [l] + [[]]
    ensures Split([43] + [47] + l) == [[43]] + [l] && Split([35] + [47] + l) == [[35]] + [l]
  {
    SplitOne([43]);
    SplitOne([35]);
    SplitOne([]);
    SplitOne(l);
    SplitOne(l + [43]);
    SplitOne(l + [35]);
    SplitCons(l, [35]);
    SplitCons(l, []);
    SplitCons([43], l);
    SplitCons([35], l);
  }

  /** A wildcard byte after other bytes spoils the level. */
  lemma SpoiltEnd(l: Level, b: Byte)
    requires l != [] && (b == 43 || b == 35)
    ensures !LevelOk(l + [b])
  {
    assert (l + [b])[|l|] == b && |l + [b]| > 1;
  }

  lemma SplitOne(piece: Bytes)
    requires SEP !in piece
    ensures Split(piece) == [piece]
  {
  }

  lemma SplitCons(piece: Bytes, rest: Bytes)
    requires SEP !in piece
    ensures Split(piece + [SEP] + rest) == [piece] + Split(rest)
  {
    var t := piece + [SEP] + rest;
    assert t[|piece|] == SEP;
    assert forall i :: 0 <= i < |piece| ==> t[i] == piece[i];
    assert FirstSep(t) == |piece|;
    assert t[..|piece|] == piece && t[|piece| + 1..] == rest;
  }

  // ---------------------------------------------------------------------
  // Counting paths by their first level
  // ---------------------------------------------------------------------

  /** The members of H that start with one of the given levels. */
  ghost function Via(H: set<Path>, first: set<Level>): set<Path> {
    set p | p in H && p != [] && p[0] in first
  }

  ghost function Prefixed(k: Level, ps: set<Path>): set<Path> {
    set p | p in ps :: [k] + p
  }

  lemma {:induction false} PrefixedCount(k: Level, ps: set<Path>)
    ensures |Prefixed(k, ps)| == |ps|
    decreases |ps|
  {
    if ps != {} {
      var p :| p in ps;
      PrefixedCount(k, ps - {p});
      assert Prefixed(k, ps) == Prefixed(k, ps - {p}) + {[k] + p};
      forall q | q in ps - {p}
        ensures [k] + q != [k] + p
      {
        assert ([k] + q)[1..] == q && ([k] + p)[1..] == p;
      }
    }
  }

  /** Visiting one more first level adds exactly the paths found below it. */
  lemma ViaOneMore(H: set<Path>, done: set<Level>, k: Level, below: set<Path>)
    requires k !in done
    requires forall p :: [k] + p in H <==> p in below
    ensures |Via(H, done + {k})| == |Via(H, done)| + |below|
  {
    PrefixedCount(k, below);
    forall p | p in Via(H, done + {k})
      ensures p in Via(H, done) + Prefixed(k, below)
    {
      if p[0] == k { assert p == [k] + p[1..]; }
    }
    assert Via(H, done + {k}) == Via(H, done) + Prefixed(k, below);
  }

  /** Once every first level is visited, only the empty path can be missing. */
  lemma ViaAll(H: set<Path>, all: set<Level>)
    requires forall p :: p in H && p != [] ==> p[0] in all
    ensures |H| == |Via(H, all)| + (if [] in H then 1 else 0)
  {
    if [] in H {
      assert H == Via(H, all) + {[]};
    } else {
      assert H == Via(H, all);
    }
  }
}

/** The byte-level tokenizer of topic names and topic filters
    (broker/persistence/topics/memtopics.go, nextTopicLevel) and its closed-form specification. */
module TopicLevels {

  newtype Byte = x: int | 0 <= x < 256

  type Bytes = seq<Byte>
  type Level = Bytes
  type Path = seq<Level>

  const SEP: Byte := 47   // '/'
  const HASH: Byte := 35  // '#'
  const PLUS: Byte := 43  // '+'

  /** The multi-level and the single-level wildcard, as whole levels. */
  const MWC: Level := [HASH]
  const SWC: Level := [PLUS]

  // ---------------------------------------------------------------------
  // Specification: split on '/', check every piece, name the empty ones '+'
  // ---------------------------------------------------------------------

  /** Index of the first separator, or the length when there is none. */
  function FirstSep(t: Bytes): (k: nat)
    ensures k <= |t|
    ensures k < |t| ==> t[k] == SEP
    ensures forall i :: 0 <= i < k ==> t[i] != SEP
  {
    if t == [] || t[0] == SEP then 0 else 1 + FirstSep(t[1..])
  }

  function Split(t: Bytes): (pieces: seq<Bytes>)
    ensures |pieces| > 0
    decreases |t|
  {
    var k := FirstSep(t);
    if k == |t| then [t] else [t[..k]] + Split(t[k + 1..])
  }

  function Join(ls: Path): Bytes {
    if |ls| == 0 then []
    else if |ls| == 1 then ls[0]
    else ls[0] + [SEP] + Join(ls[1..])
  }

  predicate HasWildcard(l: Bytes) {
    HASH in l || PLUS in l
  }

  /** A wildcard character must occupy its whole level. */
  predicate LevelOk(l: Bytes) {
    l == MWC || l == SWC || !HasWildcard(l)
  }

  /** The i-th piece is acceptable where it stands: '#' may only be the last piece. */
  predicate PieceOk(pieces: seq<Bytes>, i: nat)
    requires i < |pieces|
  {
    LevelOk(pieces[i]) && (i + 1 < |pieces| ==> pieces[i] != MWC)
  }

  predicate WellFormed(t: Bytes) {
    forall i :: 0 <= i < |Split(t)| ==> PieceOk(Split(t), i)
  }

  /** The code stores an empty level under the name '+'. */
  function Named(piece: Bytes): Level {
    if piece == [] then SWC else piece
  }

  /** The number of levels: a trailing empty piece is dropped. */
  function LevelCount(pieces: seq<Bytes>): (n: nat)
    requires |pieces| > 0
  {
    if pieces[|pieces| - 1] == [] then |pieces| - 1 else |pieces|
  }

  function LevelsOf(t: Bytes): Path {
    seq(LevelCount(Split(t)), i requires 0 <= i < |Split(t)| => Named(Split(t)[i]))
  }

  // ---------------------------------------------------------------------
  // The code: one level at a time
  // ---------------------------------------------------------------------

  datatype Next = Fail | Next(level: Level, rem: Bytes)

  /** What one call of nextTopicLevel answers. */
  function NextLevel(t: Bytes): Next {
    var k := FirstSep(t);
    if !LevelOk(t[..k]) || (k < |t| && t[..k] == MWC) then Fail
    else if k == |t| then Next(t, [])
    else Next(Named(t[..k]), t[k + 1..])
  }

  datatype ScanState = Chr | Mwc | Swc

  /** What the state variable of nextTopicLevel remembers of the bytes read so far. */
  ghost predicate Scanned(s: ScanState, l: Bytes) {
    match s
    case Chr => !HasWildcard(l)
    case Mwc => l == MWC
    case Swc => l == SWC
  }

  /** A wildcard that does not fill its level spoils the level, whatever follows. */
  lemma SpoiltLevel(t: Bytes, i: nat)
    requires 0 < i < |t|
    requires forall j :: 0 <= j <= i ==> t[j] != SEP
    requires t[i] == HASH || t[i] == PLUS || t[0] == HASH || t[0] == PLUS
    ensures !LevelOk(t[..FirstSep(t)])
  {
    var l := t[..FirstSep(t)];
    assert l[i] == t[i] && l[0] == t[0];
    assert l[i] in l && l[0] in l;
  }

  method NextTopicLevel(topic: Bytes) returns (r: Next)
    ensures r == NextLevel(topic)
  {
    var s := Chr;
    var i := 0;
    while i < |topic|
      invariant 0 <= i <= |topic|
      invariant forall j :: 0 <= j < i ==> topic[j] != SEP
      invariant Scanned(s, topic[..i])
    {
      var c := topic[i];
      assert topic[..i + 1] == topic[..i] + [c];
      if c == SEP {
        if s == Mwc {
          return Fail;
        }
        if i == 0 {
          return Next(SWC, topic[i + 1..]);
        }
        return Next(topic[..i], topic[i + 1..]);
      } else if c == HASH {
        if i != 0 {
          SpoiltLevel(topic, i);
          return Fail;
        }
        s := Mwc;
      } else if c == PLUS {
        if i != 0 {
          SpoiltLevel(topic, i);
          return Fail;
        }
        s := Swc;
      } else {
        if s == Mwc || s == Swc {
          assert topic[0] == topic[..i][0];
          SpoiltLevel(topic, i);
          return Fail;
        }
        s := Chr;
      }
      i := i + 1;
    }
    assert topic[..i] == topic;
    return Next(topic, []);
  }

  /** The levels a trie operation sees: those read before the end or before the first error. */
  datatype Tokens = Tokens(levels: Path, ok: bool)

  function Tokenize(t: Bytes): Tokens
    decreases |t|
  {
    if t == [] then Tokens([], true)
    else match NextLevel(t)
      case Fail => Tokens([], false)
      case Next(level, rem) =>
        var rest := Tokenize(rem);
        Tokens([level] + rest.levels, rest.ok)
  }

  // ---------------------------------------------------------------------
  // The iterated tokenizer meets the specification
  // ---------------------------------------------------------------------

  /** `toks` reads the pieces from the left: every level read is an acceptable piece under its
      name; success means that at most a trailing empty piece is left, failure that the next
      piece is unacceptable. */
  ghost predicate Reads(pieces: seq<Bytes>, toks: Tokens)
    requires |pieces| > 0
  {
    var n := |toks.levels|;
    && n <= |pieces|
    && (forall i :: 0 <= i < n ==> PieceOk(pieces, i) && toks.levels[i] == Named(pieces[i]))
    && (if toks.ok then n == LevelCount(pieces) else n < |pieces| && !PieceOk(pieces, n))
  }

  lemma PieceShift(piece: Bytes, pieces: seq<Bytes>, i: nat)
    requires 0 < i <= |pieces|
    ensures PieceOk([piece] + pieces, i) == PieceOk(pieces, i - 1)
    ensures ([piece] + pieces)[i] == pieces[i - 1]
  {
  }

  lemma ReadsOneMore(piece: Bytes, pieces: seq<Bytes>, toks: Tokens)
    requires |pieces| > 0 && Reads(pieces, toks)
    requires LevelOk(piece) && piece != MWC
    ensures Reads([piece] + pieces, Tokens([Named(piece)] + toks.levels, toks.ok))
  {
    var all := [piece] + pieces;
    var ls := [Named(piece)] + toks.levels;
    forall i | 0 <= i < |ls|
      ensures PieceOk(all, i) && ls[i] == Named(all[i])
    {
      if i > 0 {
        PieceShift(piece, pieces, i);
        assert PieceOk(pieces, i - 1) && ls[i] == toks.levels[i - 1];
      }
    }
    if toks.ok {
      assert all[|all| - 1] == pieces[|pieces| - 1];
    } else {
      PieceShift(piece, pieces, |ls|);
    }
  }

  lemma {:induction false} TokenizeReads(t: Bytes)
    ensures Reads(Split(t), Tokenize(t))
    decreases |t|
  {
    var k := FirstSep(t);
    if k == |t| {
      assert t[..k] == t;
      if t != [] && LevelOk(t) {
        assert Tokenize([]).levels == [];
      }
    } else if !NextLevel(t).Fail? {
      TokenizeReads(t[k + 1..]);
      ReadsOneMore(t[..k], Split(t[k + 1..]), Tokenize(t[k + 1..]));
    } else {
      var sp := Split(t);
      assert sp[0] == t[..k] && |sp| > 1;
      assert !PieceOk(sp, 0);
    }
  }

  /** Iterating nextTopicLevel succeeds exactly on well-formed input, and then yields the split
      with a trailing empty piece dropped and the other empty pieces named '+'. On malformed
      input it yields the levels before the first unacceptable piece. */
  lemma TokenizeSpec(t: Bytes)
    ensures Tokenize(t).ok <==> WellFormed(t)
    ensures Tokenize(t).ok ==> Tokenize(t).levels == LevelsOf(t)
    ensures Reads(Split(t), Tokenize(t))
  {
    TokenizeReads(t);
    var sp := Split(t);
    if Tokenize(t).ok {
      forall i | 0 <= i < |sp|
        ensures PieceOk(sp, i)
      {
        if i == |Tokenize(t).levels| { assert sp[i] == []; }
      }
    }
  }

  /** '#' only ever occurs as the last level of a successfully read filter. */
  ghost predicate SharpLast(p: Path) {
    forall i :: 0 <= i < |p| && p[i] == MWC ==> i == |p| - 1
  }

  lemma TokensSharpLast(t: Bytes)
    ensures SharpLast(Tokenize(t).levels)
    ensures !Tokenize(t).ok ==> MWC !in Tokenize(t).levels
  {
    TokenizeSpec(t);
    var ls, sp := Tokenize(t).levels, Split(t);
    forall i | 0 <= i < |ls| && ls[i] == MWC
      ensures i == |ls| - 1 && Tokenize(t).ok
    {
      assert PieceOk(sp, i) && sp[i] == MWC;
    }
  }

  // ---------------------------------------------------------------------
  // Joining and tokenizing undo each other
  // ---------------------------------------------------------------------

  ghost predicate PlainLevels(ls: Path) {
    && SharpLast(ls)
    && forall i :: 0 <= i < |ls| ==> ls[i] != [] && SEP !in ls[i] && LevelOk(ls[i])
  }

  lemma FirstSepOf(l: Bytes, rest: Bytes)
    requires SEP !in l
    ensures FirstSep(l) == |l|
    ensures FirstSep(l + [SEP] + rest) == |l|
  {
    var t := l + [SEP] + rest;
    assert forall i :: 0 <= i < |l| ==> t[i] == l[i] && l[i] in l;
    assert t[|l|] == SEP;
  }

  lemma {:induction false} TokenizeJoin(ls: Path)
    requires PlainLevels(ls)
    ensures Tokenize(Join(ls)) == Tokens(ls, true)
  {
    if |ls| == 1 {
      FirstSepOf(ls[0], []);
      assert ls[0][..|ls[0]|] == ls[0];
      assert Tokenize([]) == Tokens([], true);
      assert [ls[0]] + [] == ls;
    } else if |ls| > 1 {
      var t := Join(ls);
      FirstSepOf(ls[0], Join(ls[1..]));
      var k := |ls[0]|;
      assert t[..k] == ls[0] && t[k + 1..] == Join(ls[1..]);
      assert PlainLevels(ls[1..]);
      TokenizeJoin(ls[1..]);
      assert [ls[0]] + ls[1..] == ls;
    }
  }

  lemma JoinCons(l: Bytes, ls: Path)
    requires |ls| > 0
    ensures Join([l] + ls) == l + [SEP] + Join(ls)
  {
    assert ([l] + ls)[1..] == ls;
  }

  lemma CutAt(t: Bytes, k: nat)
    requires k < |t|
    ensures t[..k] + [t[k]] + t[k + 1..] == t
  {
  }

  lemma {:induction false} JoinSplit(t: Bytes)
    ensures Join(Split(t)) == t
    decreases |t|
  {
    var k := FirstSep(t);
    if k < |t| {
      var rem := t[k + 1..];
      JoinSplit(rem);
      JoinCons(t[..k], Split(rem));
      CutAt(t, k);
    }
  }

  /** The levels of a well-formed topic are its split exactly when no piece is empty, and
      then joining the levels gives the topic back. */
  lemma JoinTokenize(t: Bytes)
    requires WellFormed(t)
    ensures Tokenize(t).levels == Split(t) <==> [] !in Split(t)
    ensures [] !in Split(t) ==> Join(Tokenize(t).levels) == t
  {
    TokenizeSpec(t);
    JoinSplit(t);
    var sp := Split(t);
    if [] !in sp {
      assert forall i :: 0 <= i < |sp| ==> sp[i] in sp;
      assert LevelsOf(t) == sp;
    } else {
      var i :| 0 <= i < |sp| && sp[i] == [];
      assert i < |Tokenize(t).levels| ==> Tokenize(t).levels[i] == SWC;
    }
  }
}

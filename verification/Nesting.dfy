/** When are all interleavings of well-nested words well nested? */
module Nesting {
  import opened Base
  import opened Tasks
  import opened Events
  import opened Levels
  import H = Hierarchy

  /** The one end event that closes a start event. */
  function EndOf(o: Event): (e: Event)
    requires Opens(o)
    ensures IsEnd(e) && forall x :: Closes(o, x) <==> x == e
  {
    match o
    case WorkflowStart(n, _) => WorkflowEnd(n)
    case TaskStart(n, _) => TaskEnd(n)
    case ActivityStart(a) => ActivityEnd(a)
    case Request(p, k) => Response(p, k)
  }

  /** Every start event of `v` is closed by every end event of `w`. */
  ghost predicate Agree(v: Word, w: Word) {
    forall o, e :: o in v && e in w && Opens(o) && IsEnd(e) ==> Closes(o, e)
  }

  ghost predicate Compatible(words: seq<Word>) {
    forall i, j :: 0 <= i < |words| && 0 <= j < |words| && i != j ==> Agree(words[i], words[j])
  }

  ghost predicate AllNested(words: seq<Word>) {
    forall i :: 0 <= i < |words| ==> Nested(words[i])
  }

  // ---- Starts and ends of one word ----

  lemma {:induction false} EndHasStart(open: Word, w: Word, e: Event) returns (o: Event)
    requires Scan(open, w).Some? && e in w && IsEnd(e)
    requires forall i :: 0 <= i < |open| ==> Opens(open[i])
    ensures o in open + w && Opens(o) && Closes(o, e)
    decreases |w|
  {
    if w[0] == e {
      o := open[|open| - 1];
    } else {
      var next := if Opens(w[0]) then open + [w[0]] else if w[0].ResetError? then open else open[..|open| - 1];
      o := EndHasStart(next, w[1..], e);
    }
  }

  lemma {:induction false} StartHasEnd(open: Word, w: Word, o: Event)
    requires Scan(open, w) == Some([]) && o in open + w && Opens(o)
    ensures EndOf(o) in w
    decreases |w|
  {
    if w != [] {
      var next := if Opens(w[0]) then open + [w[0]] else if w[0].ResetError? then open else open[..|open| - 1];
      if o in next + w[1..] {
        StartHasEnd(next, w[1..], o);
      } else {
        assert open == next + [open[|open| - 1]];
        assert w[0] == EndOf(o);
      }
    }
  }

  /** Without an end event nothing starts either. */
  lemma {:induction false} SilentIsReset(open: Word, w: Word)
    requires Scan(open, w) == Some([]) && forall e :: e in w ==> !IsEnd(e)
    ensures open == [] && forall e :: e in w ==> e.ResetError?
    decreases |w|
  {
    if w != [] {
      assert w[0] in w;
      SilentIsReset(if Opens(w[0]) then open + [w[0]] else open, w[1..]);
    }
  }

  ghost predicate Sounds(w: Word) {
    exists e :: e in w && IsEnd(e)
  }

  // ---- Compatible words ----

  /** Among words that only report resets a nested word stays nested. */
  lemma {:induction false} OneSounds(words: seq<Word>, i: nat, open: Word, w: Word)
    requires IsShuffle(words, w) && i < |words| && Scan(open, words[i]) == Some([])
    requires forall k :: 0 <= k < |words| && k != i ==> forall e :: e in words[k] ==> e.ResetError?
    ensures Scan(open, w) == Some([])
    decreases |w|
  {
    if w != [] {
      var k: nat :| TakesFrom(words, w[0], k) && IsShuffle(words[k := words[k][1..]], w[1..]);
      var rest := words[k := words[k][1..]];
      if k == i {
        var next := if Opens(w[0]) then open + [w[0]] else if w[0].ResetError? then open else open[..|open| - 1];
        assert Scan(next, words[i][1..]) == Some([]);
        OneSounds(rest, i, next, w[1..]);
      } else {
        assert w[0] in words[k];
        OneSounds(rest, i, open, w[1..]);
      }
    }
  }

  /** When all start events are closed by one and the same end event, only their number counts. */
  lemma {:induction false} UniformScan(open: Word, w: Word, e: Event)
    requires Height(|open|, w, EveryLayer).Some?
    requires forall o :: o in open + w && Opens(o) ==> Closes(o, e)
    requires forall x :: x in w && IsEnd(x) ==> x == e
    requires forall i :: 0 <= i < |open| ==> Opens(open[i])
    ensures Scan(open, w).Some? && |Scan(open, w).value| == Height(|open|, w, EveryLayer).value
    decreases |w|
  {
    if w != [] {
      var next := if Opens(w[0]) then open + [w[0]] else if w[0].ResetError? then open else open[..|open| - 1];
      assert open != [] ==> open[|open| - 1] in open + w;
      assert forall o :: o in next + w[1..] ==> o in open + w;
      UniformScan(next, w[1..], e);
    }
  }

  lemma {:induction false} ShuffleMembers(words: seq<Word>, w: Word, x: Event)
    requires IsShuffle(words, w)
    ensures x in w <==> exists i :: 0 <= i < |words| && x in words[i]
    decreases |w|
  {
    if w != [] {
      var k: nat :| TakesFrom(words, w[0], k) && IsShuffle(words[k := words[k][1..]], w[1..]);
      var rest := words[k := words[k][1..]];
      ShuffleMembers(rest, w[1..], x);
      if x in w {
        if x == w[0] {
          assert x in words[k];
        } else {
          var i :| 0 <= i < |rest| && x in rest[i];
          assert x in words[i];
        }
      }
      if i :| 0 <= i < |words| && x in words[i] && x != w[0] {
        assert x in rest[i];
      }
    }
  }

  /** Two sounding words that are compatible close everything with one end event. */
  lemma SameEnd(words: seq<Word>, i: nat, j: nat) returns (e: Event)
    requires AllNested(words) && Compatible(words) && i < |words| && j < |words| && i != j
    requires Sounds(words[i]) && Sounds(words[j])
    ensures forall k, o :: 0 <= k < |words| && o in words[k] && Opens(o) ==> Closes(o, e)
    ensures forall k, x :: 0 <= k < |words| && x in words[k] && IsEnd(x) ==> x == e
  {
    var d :| d in words[i] && IsEnd(d);
    e :| e in words[j] && IsEnd(e);
    var p := EndHasStart([], words[i], d);
    var o := EndHasStart([], words[j], e);
    assert Agree(words[i], words[j]) && Agree(words[j], words[i]);
    assert Closes(p, e) && EndOf(p) == e && Closes(o, d) && EndOf(o) == d == e;
    forall k, x | 0 <= k < |words| && x in words[k] && IsEnd(x)
      ensures x == e
    {
      if k != i {
        assert Agree(words[i], words[k]);
      } else {
        assert Agree(words[j], words[k]);
      }
    }
    forall k, y | 0 <= k < |words| && y in words[k] && Opens(y)
      ensures Closes(y, e)
    {
      if k != j {
        assert Agree(words[k], words[j]);
      } else {
        assert Agree(words[k], words[i]);
      }
    }
  }

  lemma CompatibleIsNested(words: seq<Word>, w: Word)
    requires AllNested(words) && Compatible(words) && IsShuffle(words, w)
    ensures Nested(w)
  {
    if i, j :| 0 <= i < |words| && 0 <= j < |words| && i != j && Sounds(words[i]) && Sounds(words[j]) {
      var e := SameEnd(words, i, j);
      UniformIsNested(words, w, e);
    } else if words == [] {
      assert w == [];
    } else {
      var i := if n: nat :| n < |words| && Sounds(words[n]) then n else 0;
      forall k | 0 <= k < |words| && k != i
        ensures forall e :: e in words[k] ==> e.ResetError?
      {
        SilentIsReset([], words[k]);
      }
      OneSounds(words, i, [], w);
    }
  }

  lemma UniformIsNested(words: seq<Word>, w: Word, e: Event)
    requires AllNested(words) && IsShuffle(words, w)
    requires forall k, o :: 0 <= k < |words| && o in words[k] && Opens(o) ==> Closes(o, e)
    requires forall k, x :: 0 <= k < |words| && x in words[k] && IsEnd(x) ==> x == e
    ensures Nested(w)
  {
    var hs: seq<nat> := seq(|words|, k => 0);
    forall k | 0 <= k < |words|
      ensures Height(hs[k], words[k], EveryLayer) == Some(0)
    {
      ScanHeight([], words[k], EveryLayer);
    }
    SumZero(hs);
    ShuffleHeight(words, hs, w, EveryLayer);
    forall x | x in w
      ensures exists k :: 0 <= k < |words| && x in words[k]
    {
      ShuffleMembers(words, w, x);
    }
    UniformScan([], w, e);
  }

  // ---- Words that are not compatible ----

  lemma ShuffleMore(words: seq<Word>, i: nat, x: Event, w: Word)
    requires i < |words| && IsShuffle(words, w)
    ensures IsShuffle(words[i := [x] + words[i]], [x] + w)
  {
    var more := words[i := [x] + words[i]];
    assert ([x] + words[i])[1..] == words[i] && ([x] + w)[1..] == w;
    assert TakesFrom(more, ([x] + w)[0], i);
    assert more[i := more[i][1..]] == words;
  }

  /** Events that one word has in front of the others are read first. */
  lemma {:induction false} ShufflePrepend(words: seq<Word>, i: nat, v: Word, w: Word)
    requires i < |words| && IsShuffle(words, w)
    ensures IsShuffle(words[i := v + words[i]], v + w)
    decreases |v|
  {
    if v == [] {
      assert v + words[i] == words[i] && v + w == w;
      assert words[i := v + words[i]] == words;
    } else {
      var mid := words[i := v[1..] + words[i]];
      ShufflePrepend(words, i, v[1..], w);
      ShuffleMore(mid, i, v[0], v[1..] + w);
      assert [v[0]] + mid[i] == v + words[i] && [v[0]] + (v[1..] + w) == v + w;
      assert mid[i := [v[0]] + mid[i]] == words[i := v + words[i]];
    }
  }

  /** Reading the first k events of one word first. */
  lemma ShuffleTake(words: seq<Word>, i: nat, k: nat, w: Word)
    requires i < |words| && k <= |words[i]| && IsShuffle(words[i := words[i][k..]], w)
    ensures IsShuffle(words, words[i][..k] + w)
  {
    var rest := words[i := words[i][k..]];
    ShufflePrepend(rest, i, words[i][..k], w);
    assert words[i][..k] + rest[i] == words[i];
    assert rest[i := words[i]] == words;
  }

  lemma {:induction false} SomeShuffle(words: seq<Word>, n: nat) returns (w: Word)
    requires n <= |words| && forall k :: n <= k < |words| ==> words[k] == []
    ensures IsShuffle(words, w)
    decreases n
  {
    w := [];
    if n > 0 {
      var i := n - 1;
      var rest := words[i := []];
      var v := SomeShuffle(rest, i);
      assert words[i][|words[i]|..] == [];
      ShuffleTake(words, i, |words[i]|, v);
      w := words[i][..|words[i]|] + v;
    }
  }

  /** A start event followed by an end event that does not close it is not nested. */
  lemma MismatchIsNotNested(u: Word, v: Word, o: Event, e: Event, z: Word)
    requires Scan([], u).Some? && Scan([], v).Some? && Opens(o) && IsEnd(e) && !Closes(o, e)
    ensures !Nested(u + (v + [o] + ([e] + z)))
  {
    var s, t := Scan([], u).value, Scan([], v).value;
    var rest := [o] + ([e] + z);
    ScanFrame(s, [], v);
    assert s + [] == s;
    assert rest[1..] == [e] + z && (s + t + [o])[|s + t|] == o;
    assert Scan(s + t, rest) == Scan(s + t + [o], [e] + z) == None;
    ScanAppend(s, v, rest);
    ScanAppend([], u, v + rest);
    assert v + [o] + ([e] + z) == v + rest;
  }

  /** Read one word up to before the end event, the other one up to and with the start event,
      and then the end event. */
  lemma Crossing(words: seq<Word>, i: nat, j: nat, o: Event, e: Event) returns (w: Word)
    requires AllNested(words) && i < |words| && j < |words| && i != j
    requires o in words[i] && e in words[j] && Opens(o) && IsEnd(e) && !Closes(o, e)
    ensures IsShuffle(words, w) && !Nested(w)
  {
    var a :| 0 <= a < |words[i]| && words[i][a] == o;
    var b :| 0 <= b < |words[j]| && words[j][b] == e;
    var w1 := words[j := words[j][b..]];
    var w2 := w1[i := w1[i][a + 1..]];
    var w3 := w2[j := w2[j][1..]];
    var z := SomeShuffle(w3, |w3|);
    ShuffleTake(w2, j, 1, z);
    assert w2[j][..1] == [e];
    ShuffleTake(w1, i, a + 1, [e] + z);
    var u, v := words[j][..b], words[i][..a];
    assert w1[i][..a + 1] == v + [o];
    ShuffleTake(words, j, b, v + [o] + ([e] + z));
    w := u + (v + [o] + ([e] + z));
    H.ScanPrefix([], words[j], b);
    H.ScanPrefix([], words[i], a);
    MismatchIsNotNested(u, v, o, e, z);
  }

  /** All interleavings of well-nested words are well nested if and only if every start event
      of one is closed by every end event of another. */
  lemma ShufflesAreNested(words: seq<Word>)
    requires AllNested(words)
    ensures Compatible(words) <==> forall w :: IsShuffle(words, w) ==> Nested(w)
  {
    if Compatible(words) {
      forall w | IsShuffle(words, w)
        ensures Nested(w)
      {
        CompatibleIsNested(words, w);
      }
    } else {
      var i, j :| 0 <= i < |words| && 0 <= j < |words| && i != j && !Agree(words[i], words[j]);
      var o, e :| o in words[i] && e in words[j] && Opens(o) && IsEnd(e) && !Closes(o, e);
      var w := Crossing(words, i, j, o, e);
    }
  }
}

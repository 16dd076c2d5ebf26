/**
 * The word-level diff shown between an original text and its enhanced
 * version.  Both texts are split into words at runs of whitespace; two
 * cursors walk the word lists, emitting a span per step: words equal up to
 * case are kept, and on a mismatch the next three enhanced words, then the
 * next three original words, are searched for a word to resynchronise on;
 * failing both, the pair is shown as a removal followed by an addition.
 */
module DiffViewer {
  import opened Wrappers
  import opened Text
  import opened Lists

  /** One rendered span.  A kept pair remembers both words; it shows the
      enhanced one. */
  datatype Span = Same(original: string, enhanced: string) | Added(enhanced: string) | Removed(original: string)

  /** The word a span displays. */
  function Shown(s: Span): string {
    match s
    case Same(_, e) => e
    case Added(e) => e
    case Removed(o) => o
  }

  /** Two words are the same for the diff when they agree after `toLowerCase`. */
  predicate WordsMatch(a: string, b: string) {
    Lower(a) == Lower(b)
  }

  function Min(a: int, b: int): int {
    if a <= b then a else b
  }

  // ------------------------------------------------------ reading a diff

  /** The original words a list of spans accounts for, in order. */
  function OriginalSide(spans: seq<Span>): seq<string> {
    if spans == [] then []
    else (if spans[0].Added? then [] else [spans[0].original]) + OriginalSide(spans[1..])
  }

  /** The words a list of spans displays outside removals, in order. */
  function EnhancedSide(spans: seq<Span>): seq<string> {
    if spans == [] then []
    else (if spans[0].Removed? then [] else [Shown(spans[0])]) + EnhancedSide(spans[1..])
  }

  function SameCount(spans: seq<Span>): nat {
    if spans == [] then 0
    else (if spans[0].Same? then 1 else 0) + SameCount(spans[1..])
  }

  /** Every kept span pairs two words that match. */
  predicate SamesMatch(spans: seq<Span>) {
    forall k :: 0 <= k < |spans| && spans[k].Same? ==> WordsMatch(spans[k].original, spans[k].enhanced)
  }

  lemma {:induction false} SidesAppend(a: seq<Span>, b: seq<Span>)
    ensures OriginalSide(a + b) == OriginalSide(a) + OriginalSide(b)
    ensures EnhancedSide(a + b) == EnhancedSide(a) + EnhancedSide(b)
    ensures SameCount(a + b) == SameCount(a) + SameCount(b)
  {
    if a == [] {
      assert a + b == b;
    } else {
      assert (a + b)[0] == a[0];
      assert (a + b)[1..] == a[1..] + b;
      SidesAppend(a[1..], b);
      var x := a[0];
      ConcatAssoc(if x.Added? then [] else [x.original], OriginalSide(a[1..]), OriginalSide(b));
      ConcatAssoc(if x.Removed? then [] else [Shown(x)], EnhancedSide(a[1..]), EnhancedSide(b));
    }
  }

  /** A kept span accounts for a word on each side, any other span for one. */
  lemma {:induction false} SidesLength(spans: seq<Span>)
    ensures |OriginalSide(spans)| + |EnhancedSide(spans)| == |spans| + SameCount(spans)
    ensures SameCount(spans) <= |OriginalSide(spans)| && SameCount(spans) <= |EnhancedSide(spans)|
  {
    if spans != [] {
      SidesLength(spans[1..]);
    }
  }

  // ------------------------------------------------------- the algorithm

  /** Enhanced words `e[a..b]`, each shown as added. */
  function AddedRun(e: seq<string>, a: nat, b: nat): seq<Span>
    requires a <= b <= |e|
    decreases b - a
  {
    if a == b then [] else [Added(e[a])] + AddedRun(e, a + 1, b)
  }

  /** Original words `o[a..b]`, each shown as removed. */
  function RemovedRun(o: seq<string>, a: nat, b: nat): seq<Span>
    requires a <= b <= |o|
    decreases b - a
  {
    if a == b then [] else [Removed(o[a])] + RemovedRun(o, a + 1, b)
  }

  lemma {:induction false} AddedRunSnoc(e: seq<string>, a: nat, b: nat)
    requires a <= b < |e|
    ensures AddedRun(e, a, b + 1) == AddedRun(e, a, b) + [Added(e[b])]
    decreases b - a
  {
    if a < b {
      AddedRunSnoc(e, a + 1, b);
    }
  }

  lemma {:induction false} RemovedRunSnoc(o: seq<string>, a: nat, b: nat)
    requires a <= b < |o|
    ensures RemovedRun(o, a, b + 1) == RemovedRun(o, a, b) + [Removed(o[b])]
    decreases b - a
  {
    if a < b {
      RemovedRunSnoc(o, a + 1, b);
    }
  }

  /** A run of additions accounts for exactly the words it adds. */
  lemma {:induction false} AddedRunSides(e: seq<string>, a: nat, b: nat)
    requires a <= b <= |e|
    ensures OriginalSide(AddedRun(e, a, b)) == [] && EnhancedSide(AddedRun(e, a, b)) == e[a..b]
    ensures SameCount(AddedRun(e, a, b)) == 0 && |AddedRun(e, a, b)| == b - a && SamesMatch(AddedRun(e, a, b))
    decreases b - a
  {
    if a < b {
      AddedRunSides(e, a + 1, b);
      assert e[a..b] == [e[a]] + e[a + 1..b];
    }
  }

  /** A run of removals accounts for exactly the words it removes. */
  lemma {:induction false} RemovedRunSides(o: seq<string>, a: nat, b: nat)
    requires a <= b <= |o|
    ensures OriginalSide(RemovedRun(o, a, b)) == o[a..b] && EnhancedSide(RemovedRun(o, a, b)) == []
    ensures SameCount(RemovedRun(o, a, b)) == 0 && |RemovedRun(o, a, b)| == b - a && SamesMatch(RemovedRun(o, a, b))
    decreases b - a
  {
    if a < b {
      RemovedRunSides(o, a + 1, b);
      assert o[a..b] == [o[a]] + o[a + 1..b];
    }
  }

  /** The first index in `[from, limit)` whose word matches `w`. */
  function FirstMatch(w: string, words: seq<string>, from: nat, limit: nat): (r: Option<nat>)
    requires limit <= |words|
    ensures r.Some? ==> from <= r.value < limit && WordsMatch(w, words[r.value])
    ensures r.Some? ==> forall t :: from <= t < r.value ==> !WordsMatch(w, words[t])
    ensures r.None? ==> forall t :: from <= t < limit ==> !WordsMatch(w, words[t])
    decreases limit - from
  {
    if from >= limit then None
    else if WordsMatch(w, words[from]) then Some(from)
    else FirstMatch(w, words, from + 1, limit)
  }

  /** Where `o[i]` next occurs among the three enhanced words after `e[j]`. */
  function EnhancedHit(o: seq<string>, e: seq<string>, i: nat, j: nat): Option<nat>
    requires i < |o| && j < |e|
  {
    FirstMatch(o[i], e, j + 1, Min(j + 4, |e|))
  }

  /** Where `e[j]` next occurs among the three original words after `o[i]`. */
  function OriginalHit(o: seq<string>, e: seq<string>, i: nat, j: nat): Option<nat>
    requires i < |o| && j < |e|
  {
    FirstMatch(e[j], o, i + 1, Min(i + 4, |o|))
  }

  /** One pass of the walk: the spans it emits and where the cursors end. */
  datatype Move = Move(spans: seq<Span>, i: nat, j: nat)

  /** The pass from cursors `i` and `j`, at least one side not exhausted: one
      side exhausted emits the other side's word; words matching are kept;
      otherwise a match among the next three enhanced words is taken first,
      then one among the next three original words, with the words skipped
      shown as added or removed; failing both, the pair is replaced. */
  function StepAt(o: seq<string>, e: seq<string>, i: nat, j: nat): (m: Move)
    requires i <= |o| && j <= |e| && (i < |o| || j < |e|)
    ensures i <= m.i <= |o| && j <= m.j <= |e| && i + j < m.i + m.j
  {
    if i == |o| then Move([Added(e[j])], i, j + 1)
    else if j == |e| then Move([Removed(o[i])], i + 1, j)
    else if WordsMatch(o[i], e[j]) then Move([Same(o[i], e[j])], i + 1, j + 1)
    else if EnhancedHit(o, e, i, j).Some? then
      var k := EnhancedHit(o, e, i, j).value;
      Move(AddedRun(e, j, k), i, k)
    else if OriginalHit(o, e, i, j).Some? then
      var k := OriginalHit(o, e, i, j).value;
      Move(RemovedRun(o, i, k), k, j)
    else Move([Removed(o[i]), Added(e[j])], i + 1, j + 1)
  }

  /** The spans the walk emits from cursors `i` and `j` to the end. */
  function DiffFrom(o: seq<string>, e: seq<string>, i: nat, j: nat): seq<Span>
    requires i <= |o| && j <= |e|
    decreases |o| - i + |e| - j
  {
    if i == |o| && j == |e| then []
    else
      var m := StepAt(o, e, i, j);
      m.spans + DiffFrom(o, e, m.i, m.j)
  }

  /** The diff of two word lists: its kept and removed spans spell out the
      original list, its kept and added spans the enhanced list, and every kept
      span pairs two words equal up to case. */
  function Diff(o: seq<string>, e: seq<string>): (r: seq<Span>)
    ensures OriginalSide(r) == o && EnhancedSide(r) == e
    ensures SamesMatch(r)
  {
    DiffSides(o, e, 0, 0);
    KeptWordsMatch(o, e, 0, 0);
    DiffFrom(o, e, 0, 0)
  }

  /** `renderDiff`: the two-cursor walk, with its lookahead loops. */
  method RenderDiff(originalWords: seq<string>, enhancedWords: seq<string>) returns (result: seq<Span>)
    ensures result == Diff(originalWords, enhancedWords)
    ensures OriginalSide(result) == originalWords && EnhancedSide(result) == enhancedWords
    ensures |result| + SameCount(result) == |originalWords| + |enhancedWords|
  {
    var o, e := originalWords, enhancedWords;
    var i: nat, j: nat := 0, 0;
    result := [];
    while i < |o| || j < |e|
      invariant i <= |o| && j <= |e|
      invariant result + DiffFrom(o, e, i, j) == Diff(o, e)
      decreases |o| - i + |e| - j
    {
      ghost var before, i0, j0 := result, i, j;
      if i >= |o| {
        result := result + [Added(e[j])];
        j := j + 1;
      } else if j >= |e| {
        result := result + [Removed(o[i])];
        i := i + 1;
      } else if WordsMatch(o[i], e[j]) {
        result := result + [Same(o[i], e[j])];
        i, j := i + 1, j + 1;
      } else {
        result, i, j := Resynchronise(o, e, i, j, result);
      }
      assert StepAt(o, e, i0, j0) == Move(result[|before|..], i, j);
      ConcatAssoc(before, result[|before|..], DiffFrom(o, e, i, j));
    }
    DiffSides(o, e, 0, 0);
    SidesLength(result);
  }

  /** The mismatch branch of the walk: look ahead in the enhanced words, then
      in the original words, else replace the pair. */
  method Resynchronise(o: seq<string>, e: seq<string>, i0: nat, j0: nat, before: seq<Span>)
    returns (result: seq<Span>, i: nat, j: nat)
    requires i0 < |o| && j0 < |e| && !WordsMatch(o[i0], e[j0])
    ensures result == before + StepAt(o, e, i0, j0).spans
    ensures i == StepAt(o, e, i0, j0).i && j == StepAt(o, e, i0, j0).j
  {
    result, i, j := before, i0, j0;
    var foundMatch := false;
    // Look ahead in the enhanced words.
    var k := j + 1;
    while k < j + 4 && k < |e|
      invariant j0 + 1 <= k <= Min(j0 + 4, |e|) && j == j0
      invariant forall t :: j0 + 1 <= t < k ==> !WordsMatch(o[i], e[t])
    {
      if WordsMatch(o[i], e[k]) {
        var l := j;
        while l < k
          invariant j <= l <= k && result == before + AddedRun(e, j, l)
        {
          AddedRunSnoc(e, j, l);
          result := result + [Added(e[l])];
          l := l + 1;
        }
        j := k;
        foundMatch := true;
        break;
      }
      k := k + 1;
    }
    if foundMatch {
      assert EnhancedHit(o, e, i0, j0) == Some(j);
      return;
    }
    assert EnhancedHit(o, e, i0, j0) == None;
    // Look ahead in the original words.
    k := i + 1;
    while k < i + 4 && k < |o|
      invariant i0 + 1 <= k <= Min(i0 + 4, |o|) && i == i0
      invariant forall t :: i0 + 1 <= t < k ==> !WordsMatch(o[t], e[j])
    {
      if WordsMatch(o[k], e[j]) {
        var l := i;
        while l < k
          invariant i <= l <= k && result == before + RemovedRun(o, i, l)
        {
          RemovedRunSnoc(o, i, l);
          result := result + [Removed(o[l])];
          l := l + 1;
        }
        i := k;
        foundMatch := true;
        break;
      }
      k := k + 1;
    }
    if foundMatch {
      assert OriginalHit(o, e, i0, j0) == Some(i);
      return;
    }
    assert OriginalHit(o, e, i0, j0) == None;
    // No match in either window: a replacement.
    result := result + [Removed(o[i]), Added(e[j])];
    i, j := i + 1, j + 1;
  }

  /** The component: both texts split at whitespace runs, then diffed. */
  method View(original: string, enhanced: string) returns (spans: seq<Span>)
    ensures spans == Diff(Words(original), Words(enhanced))
    ensures OriginalSide(spans) == Words(original) && EnhancedSide(spans) == Words(enhanced)
  {
    spans := RenderDiff(Words(original), Words(enhanced));
  }

  // ------------------------------------------------------------ properties

  /** The spans from cursors `i` and `j` account for exactly the remaining
      original words (through kept and removed spans) and exactly the
      remaining enhanced words (through kept and added spans), in order. */
  lemma {:induction false} DiffSides(o: seq<string>, e: seq<string>, i: nat, j: nat)
    requires i <= |o| && j <= |e|
    ensures OriginalSide(DiffFrom(o, e, i, j)) == o[i..]
    ensures EnhancedSide(DiffFrom(o, e, i, j)) == e[j..]
    decreases |o| - i + |e| - j
  {
    if i < |o| || j < |e| {
      var m := StepAt(o, e, i, j);
      DiffSides(o, e, m.i, m.j);
      StepSides(o, e, i, j);
      SidesAppend(m.spans, DiffFrom(o, e, m.i, m.j));
      SliceAt(o, i, m.i);
      SliceAt(e, j, m.j);
    }
  }

  /** One pass accounts for exactly the words its cursors move over, and
      keeps only matching words. */
  lemma StepSides(o: seq<string>, e: seq<string>, i: nat, j: nat)
    requires i <= |o| && j <= |e| && (i < |o| || j < |e|)
    ensures var m := StepAt(o, e, i, j);
      OriginalSide(m.spans) == o[i..m.i] && EnhancedSide(m.spans) == e[j..m.j] && SamesMatch(m.spans)
  {
    var m := StepAt(o, e, i, j);
    if i == |o| || j == |e| || WordsMatch(o[i], e[j]) {
    } else if EnhancedHit(o, e, i, j).Some? {
      AddedRunSides(e, j, m.j);
    } else if OriginalHit(o, e, i, j).Some? {
      RemovedRunSides(o, i, m.i);
    } else {
      ReplacementSides(o[i], e[j]);
      assert o[i..m.i] == [o[i]] && e[j..m.j] == [e[j]];
    }
  }

  lemma ReplacementSides(x: string, y: string)
    ensures OriginalSide([Removed(x), Added(y)]) == [x] && EnhancedSide([Removed(x), Added(y)]) == [y]
    ensures SamesMatch([Removed(x), Added(y)])
  {
    assert [Removed(x), Added(y)][1..] == [Added(y)];
    assert [Added(y)][1..] == [];
    assert OriginalSide([Added(y)]) == [] && EnhancedSide([Added(y)]) == [y];
  }

  /** There are as many spans as words on both sides minus the kept pairs,
      so never more than all words together and never fewer than the longer
      side. */
  lemma SpanCount(o: seq<string>, e: seq<string>)
    ensures |Diff(o, e)| + SameCount(Diff(o, e)) == |o| + |e|
    ensures |Diff(o, e)| <= |o| + |e|
    ensures |o| <= |Diff(o, e)| && |e| <= |Diff(o, e)|
  {
    DiffSides(o, e, 0, 0);
    SidesLength(Diff(o, e));
  }

  /** Every kept span pairs words equal up to case. */
  lemma {:induction false} KeptWordsMatch(o: seq<string>, e: seq<string>, i: nat, j: nat)
    requires i <= |o| && j <= |e|
    ensures SamesMatch(DiffFrom(o, e, i, j))
    decreases |o| - i + |e| - j
  {
    if i < |o| || j < |e| {
      var m := StepAt(o, e, i, j);
      KeptWordsMatch(o, e, m.i, m.j);
      StepSides(o, e, i, j);
    }
  }

  /** On a mismatch, when an enhanced word among the next three matches the
      current original word and no earlier one does, the words before it are
      shown as added and the match is kept next, even if the original window
      also holds a match. */
  lemma EnhancedWindowFirst(o: seq<string>, e: seq<string>, i: nat, j: nat, k: nat)
    requires i < |o| && j < k < |e| && k < j + 4
    requires WordsMatch(o[i], e[k]) && forall t :: j <= t < k ==> !WordsMatch(o[i], e[t])
    ensures DiffFrom(o, e, i, j) == AddedRun(e, j, k) + ([Same(o[i], e[k])] + DiffFrom(o, e, i + 1, k + 1))
  {
    assert EnhancedHit(o, e, i, j) == Some(k);
  }

  /** On a mismatch with no match among the next three enhanced words, when
      an original word among the next three matches the current enhanced
      word and no earlier one does, the words before it are shown as removed
      and the match is kept next. */
  lemma OriginalWindowNext(o: seq<string>, e: seq<string>, i: nat, j: nat, k: nat)
    requires i < k < |o| && k < i + 4 && j < |e|
    requires forall t :: j <= t < Min(j + 4, |e|) ==> !WordsMatch(o[i], e[t])
    requires WordsMatch(o[k], e[j]) && forall t :: i <= t < k ==> !WordsMatch(o[t], e[j])
    ensures DiffFrom(o, e, i, j) == RemovedRun(o, i, k) + ([Same(o[k], e[j])] + DiffFrom(o, e, k + 1, j + 1))
  {
    assert EnhancedHit(o, e, i, j) == None;
    assert OriginalHit(o, e, i, j) == Some(k);
    assert StepAt(o, e, k, j) == Move([Same(o[k], e[j])], k + 1, j + 1);
  }

  /** With no match in either window, the current pair is shown as one
      removal followed by one addition, and both cursors advance by one. */
  lemma NoMatchReplaces(o: seq<string>, e: seq<string>, i: nat, j: nat)
    requires i < |o| && j < |e|
    requires forall t :: j <= t < Min(j + 4, |e|) ==> !WordsMatch(o[i], e[t])
    requires forall t :: i <= t < Min(i + 4, |o|) ==> !WordsMatch(o[t], e[j])
    ensures DiffFrom(o, e, i, j) == [Removed(o[i]), Added(e[j])] + DiffFrom(o, e, i + 1, j + 1)
  {
    assert EnhancedHit(o, e, i, j) == None;
  }

  /** Matching words under the cursors are kept and both cursors advance. */
  lemma MatchKept(o: seq<string>, e: seq<string>, i: nat, j: nat)
    requires i < |o| && j < |e| && WordsMatch(o[i], e[j])
    ensures DiffFrom(o, e, i, j) == [Same(o[i], e[j])] + DiffFrom(o, e, i + 1, j + 1)
  {
    assert StepAt(o, e, i, j) == Move([Same(o[i], e[j])], i + 1, j + 1);
  }

  /** Word pairs from index `i` on, each shown as kept. */
  function KeptPairs(o: seq<string>, e: seq<string>, i: nat): seq<Span>
    requires |o| == |e| && i <= |o|
    decreases |o| - i
  {
    if i == |o| then [] else [Same(o[i], e[i])] + KeptPairs(o, e, i + 1)
  }

  lemma {:induction false} KeptPairsAt(o: seq<string>, e: seq<string>, i: nat)
    requires |o| == |e| && i <= |o|
    ensures |KeptPairs(o, e, i)| == |o| - i
    ensures forall t :: 0 <= t < |o| - i ==> KeptPairs(o, e, i)[t] == Same(o[i + t], e[i + t])
    decreases |o| - i
  {
    if i < |o| {
      KeptPairsAt(o, e, i + 1);
      var r := KeptPairs(o, e, i);
      forall t | 0 <= t < |o| - i ensures r[t] == Same(o[i + t], e[i + t]) {
        if t > 0 {
          assert r[t] == KeptPairs(o, e, i + 1)[t - 1];
        }
      }
    }
  }

  /** Word lists that agree word by word up to case are shown as kept pairs
      only, one per word. */
  lemma {:induction false} MatchingWordsAllKept(o: seq<string>, e: seq<string>, i: nat)
    requires |o| == |e| && i <= |o|
    requires forall t :: 0 <= t < |o| ==> WordsMatch(o[t], e[t])
    ensures DiffFrom(o, e, i, i) == KeptPairs(o, e, i)
    decreases |o| - i
  {
    if i < |o| {
      MatchingWordsAllKept(o, e, i + 1);
      MatchKept(o, e, i, i);
    }
  }

  /** A text diffed against itself shows every word as kept, displaying
      that word. */
  lemma IdenticalAllKept(w: seq<string>)
    ensures |Diff(w, w)| == |w|
    ensures forall t :: 0 <= t < |w| ==> Diff(w, w)[t] == Same(w[t], w[t]) && Shown(Diff(w, w)[t]) == w[t]
  {
    MatchingWordsAllKept(w, w, 0);
    KeptPairsAt(w, w, 0);
  }

  /** Splitting an empty text gives one empty word, so two empty texts are
      shown as a single kept empty word rather than as nothing. */
  lemma EmptyTextsOneSpan()
    ensures Diff(Words(""), Words("")) == [Same("", "")]
  {
    assert Words("") == [""];
  }
}

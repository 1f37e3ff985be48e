/**
 * Span-based secret redaction (shared/redaction.py): merging spans and applying them to a
 * window of a text. Text is a sequence of code points, lone surrogates included, as in Python.
 */
module Redaction {
  import opened Basics
  import opened Sorting

  type CodePoint = c: int | 0 <= c < 0x11_0000

  type Text = seq<CodePoint>

  /** Three asterisks. */
  const REDACTED: Text := [42, 42, 42]

  datatype Span = Span(start: int, end: int)

  /** Python's ordering of integer pairs. */
  predicate SpanLe(a: Span, b: Span) {
    a.start < b.start || (a.start == b.start && a.end <= b.end)
  }

  function NonEmptySpans(spans: seq<Span>): seq<Span> {
    if spans == [] then []
    else (if spans[0].end > spans[0].start then [spans[0]] else []) + NonEmptySpans(spans[1..])
  }

  // ----- What spans mean: the set of positions they hide -----

  ghost predicate Covered(spans: seq<Span>, p: int) {
    exists i :: 0 <= i < |spans| && spans[i].start <= p < spans[i].end
  }

  ghost function Positions(spans: seq<Span>): iset<int> {
    iset p | Covered(spans, p)
  }

  /** Non-empty spans, ascending, with at least one free position between neighbours. */
  ghost predicate Separated(m: seq<Span>) {
    && (forall i :: 0 <= i < |m| ==> m[i].start < m[i].end)
    && (forall i, j :: 0 <= i < j < |m| ==> m[i].end < m[j].start)
  }

  lemma PositionsAppend(a: seq<Span>, b: seq<Span>)
    ensures Positions(a + b) == Positions(a) + Positions(b)
  {
    forall p ensures Covered(a + b, p) <==> Covered(a, p) || Covered(b, p) {
      if Covered(a, p) {
        var i :| 0 <= i < |a| && a[i].start <= p < a[i].end;
        assert (a + b)[i].start <= p < (a + b)[i].end;
      }
      if Covered(b, p) {
        var i :| 0 <= i < |b| && b[i].start <= p < b[i].end;
        assert (a + b)[|a| + i].start <= p < (a + b)[|a| + i].end;
      }
    }
  }

  lemma {:induction false} NonEmptySpansCover(spans: seq<Span>)
    ensures Positions(NonEmptySpans(spans)) == Positions(spans)
    ensures forall s :: s in NonEmptySpans(spans) ==> s.start < s.end
  {
    if spans != [] {
      NonEmptySpansCover(spans[1..]);
      PositionsAppend([spans[0]], spans[1..]);
      assert spans == [spans[0]] + spans[1..];
      if spans[0].end > spans[0].start {
        PositionsAppend([spans[0]], NonEmptySpans(spans[1..]));
      } else {
        assert Positions([spans[0]]) == iset{};
        assert NonEmptySpans(spans) == NonEmptySpans(spans[1..]);
      }
    }
  }

  lemma SameElementsCover(a: seq<Span>, b: seq<Span>)
    requires multiset(a) == multiset(b)
    ensures Positions(a) == Positions(b)
  {
    forall p ensures Covered(a, p) <==> Covered(b, p) {
      if Covered(a, p) {
        var i :| 0 <= i < |a| && a[i].start <= p < a[i].end;
        assert a[i] in multiset(b);
      }
      if Covered(b, p) {
        var i :| 0 <= i < |b| && b[i].start <= p < b[i].end;
        assert b[i] in multiset(a);
      }
    }
  }

  function Fuse(last: Span, span: Span): Span {
    Span(last.start, Max(last.end, span.end))
  }

  lemma FusedPositions(last: Span, span: Span)
    requires last.start <= span.start <= last.end && span.start < span.end
    ensures Positions([Fuse(last, span)]) == Positions([last]) + Positions([span])
  {
    forall p ensures Covered([Fuse(last, span)], p) <==> Covered([last], p) || Covered([span], p) {
      SingleCovered(Fuse(last, span), p);
      SingleCovered(last, p);
      SingleCovered(span, p);
    }
  }

  lemma SingleCovered(s: Span, p: int)
    ensures Covered([s], p) <==> s.start <= p < s.end
  {
    assert [s][0] == s;
  }

  /** Fusing a later span into the last one keeps the cover separated and adds its positions. */
  lemma FuseStep(front: seq<Span>, last: Span, span: Span)
    requires Separated(front + [last])
    requires last.start <= span.start <= last.end && span.start < span.end
    ensures Separated(front + [Fuse(last, span)])
    ensures Positions(front + [Fuse(last, span)]) == Positions(front + [last]) + Positions([span])
  {
    var before, next := front + [last], front + [Fuse(last, span)];
    forall i, j | 0 <= i < j < |next| ensures next[i].end < next[j].start {
      assert before[i].end < before[j].start;
      assert next[i] == before[i];
    }
    assert forall i :: 0 <= i < |front| ==> next[i] == before[i];
    assert before[|front|] == last;
    PositionsAppend(front, [last]);
    PositionsAppend(front, [Fuse(last, span)]);
    FusedPositions(last, span);
  }

  /** The filtered and sorted input of the merge loop. */
  lemma SortedCandidates(spans: seq<Span>)
    ensures var sorted := Sort(NonEmptySpans(spans), SpanLe);
            && Positions(sorted) == Positions(spans)
            && (forall s :: s in sorted ==> s.start < s.end)
            && (forall i, j :: 0 <= i < j < |sorted| ==> sorted[i].start <= sorted[j].start)
  {
    var candidates := NonEmptySpans(spans);
    var sorted := Sort(candidates, SpanLe);
    SortSorts(candidates, SpanLe);
    NonEmptySpansCover(spans);
    SameElementsCover(sorted, candidates);
    forall s | s in sorted ensures s.start < s.end {
      assert s in multiset(sorted);
      assert s in candidates;
    }
    forall i, j | 0 <= i < j < |sorted| ensures sorted[i].start <= sorted[j].start {
      assert SpanLe(sorted[i], sorted[j]);
    }
  }

  /** `merged` covers the first `k` of the sorted spans. */
  ghost predicate MergedUpto(sorted: seq<Span>, k: nat, merged: seq<Span>)
    requires k <= |sorted|
  {
    && Separated(merged) && Positions(merged) == Positions(sorted[..k])
    && (merged != [] ==> k > 0 && merged[|merged| - 1].start <= sorted[k - 1].start)
  }

  function WithSpan(merged: seq<Span>, span: Span): seq<Span> {
    if merged != [] && span.start <= merged[|merged| - 1].end
    then merged[..|merged| - 1] + [Fuse(merged[|merged| - 1], span)]
    else merged + [span]
  }

  lemma MergeStep(sorted: seq<Span>, k: nat, merged: seq<Span>)
    requires k < |sorted| && MergedUpto(sorted, k, merged) && sorted[k].start < sorted[k].end
    requires forall i, j :: 0 <= i < j < |sorted| ==> sorted[i].start <= sorted[j].start
    ensures MergedUpto(sorted, k + 1, WithSpan(merged, sorted[k]))
  {
    var span := sorted[k];
    assert sorted[..k + 1] == sorted[..k] + [span];
    PositionsAppend(sorted[..k], [span]);
    if merged != [] && span.start <= merged[|merged| - 1].end {
      var front, last := merged[..|merged| - 1], merged[|merged| - 1];
      assert merged == front + [last];
      FuseStep(front, last, span);
    } else {
      PositionsAppend(merged, [span]);
    }
  }

  /** Sorted cover of `spans`, overlapping or touching spans fused. */
  method MergeSpans(spans: seq<Span>) returns (merged: seq<Span>)
    ensures Separated(merged)
    ensures Positions(merged) == Positions(spans)
  {
    var sorted := Sort(NonEmptySpans(spans), SpanLe);
    SortedCandidates(spans);
    merged := [];
    assert Positions(merged) == iset{};
    for k := 0 to |sorted|
      invariant MergedUpto(sorted, k, merged)
    {
      var span := sorted[k];
      assert span in sorted;
      MergeStep(sorted, k, merged);
      if merged != [] && span.start <= merged[|merged| - 1].end {
        merged := merged[..|merged| - 1] + [Fuse(merged[|merged| - 1], span)];
      } else {
        merged := merged + [span];
      }
    }
    assert sorted[..|sorted|] == sorted;
  }

  lemma SeparatedTail(m: seq<Span>, p: int)
    requires Separated(m) && m != []
    ensures Separated(m[1..])
    ensures Covered(m[1..], p) <==> Covered(m, p) && p >= m[0].end
  {
    assert forall i :: 0 <= i < |m| - 1 ==> m[1..][i] == m[i + 1];
    if Covered(m[1..], p) {
      var i :| 0 <= i < |m| - 1 && m[1..][i].start <= p < m[1..][i].end;
      assert m[i + 1].start <= p < m[i + 1].end && m[0].end < m[i + 1].start;
    }
    if Covered(m, p) && p >= m[0].end {
      var i :| 0 <= i < |m| && m[i].start <= p < m[i].end;
      assert m[1..][i - 1] == m[i];
    }
  }

  /**
   * A separated cover is determined by the positions it covers. With the contract of `MergeSpans`
   * this makes merging idempotent and independent of the order, nesting and splitting of its input.
   */
  lemma {:induction false} MergedCoverIsUnique(a: seq<Span>, b: seq<Span>)
    requires Separated(a) && Separated(b) && Positions(a) == Positions(b)
    ensures a == b
  {
    assert forall p :: Covered(a, p) <==> p in Positions(a);
    assert forall p :: Covered(b, p) <==> p in Positions(b);
    if a == [] {
      EmptyCover(b);
    } else {
      assert Covered(a, a[0].start);
      assert b != [] && Covered(b, b[0].start);
      assert a[0].start == b[0].start by {
        FirstStartIsLeast(a, b[0].start);
        FirstStartIsLeast(b, a[0].start);
      }
      FirstGap(a);
      FirstGap(b);
      assert a[0].end == b[0].end;
      forall p ensures Covered(a[1..], p) <==> Covered(b[1..], p) {
        SeparatedTail(a, p);
        SeparatedTail(b, p);
      }
      SeparatedTail(a, 0);
      SeparatedTail(b, 0);
      MergedCoverIsUnique(a[1..], b[1..]);
      assert a == [a[0]] + a[1..] && b == [b[0]] + b[1..];
    }
  }

  lemma EmptyCover(m: seq<Span>)
    requires Separated(m)
    ensures m != [] ==> exists p :: Covered(m, p)
  {
    if m != [] {
      assert Covered(m, m[0].start);
    }
  }

  lemma FirstGap(m: seq<Span>)
    requires Separated(m) && m != []
    ensures !Covered(m, m[0].end)
    ensures forall p :: m[0].start <= p < m[0].end ==> Covered(m, p)
  {
  }

  lemma FirstStartIsLeast(m: seq<Span>, p: int)
    requires Separated(m) && Covered(m, p)
    ensures m[0].start <= p
  {
    var i :| 0 <= i < |m| && m[i].start <= p < m[i].end;
    if i > 0 {
      assert m[0].end < m[i].start;
    }
  }

  // ----- What redacted text means: position by position -----

  /** The rendering of position `i` of a window that starts at stream position `offset`. */
  ghost function Glyph(w: Text, hidden: iset<int>, offset: int, i: nat): Text
    requires i < |w|
  {
    if offset + i !in hidden then [w[i]]
    else if i == 0 || offset + i - 1 !in hidden then REDACTED
    else []
  }

  /**
   * The first `n` positions of the window: each maximal hidden run inside it becomes one marker,
   * every other character is kept.
   */
  ghost function Rendered(w: Text, hidden: iset<int>, offset: int, n: nat): Text
    requires n <= |w|
  {
    if n == 0 then [] else Rendered(w, hidden, offset, n - 1) + Glyph(w, hidden, offset, n - 1)
  }

  ghost function Redact(w: Text, hidden: iset<int>, offset: int): Text {
    Rendered(w, hidden, offset, |w|)
  }

  lemma {:induction false} RenderedPlain(w: Text, hidden: iset<int>, offset: int, a: nat, b: nat)
    requires a <= b <= |w|
    requires forall p :: offset + a <= p < offset + b ==> p !in hidden
    ensures Rendered(w, hidden, offset, b) == Rendered(w, hidden, offset, a) + w[a..b]
  {
    if a < b {
      RenderedPlain(w, hidden, offset, a, b - 1);
      assert w[a..b] == w[a..b - 1] + [w[b - 1]];
    }
  }

  lemma {:induction false} RenderedRun(w: Text, hidden: iset<int>, offset: int, a: nat, b: nat)
    requires a < b <= |w|
    requires forall p :: offset + a <= p < offset + b ==> p in hidden
    requires a == 0 || offset + a - 1 !in hidden
    ensures Rendered(w, hidden, offset, b) == Rendered(w, hidden, offset, a) + REDACTED
  {
    if a + 1 < b {
      RenderedRun(w, hidden, offset, a, b - 1);
    }
  }

  /** Between the spans before `k` and span `k` nothing is hidden. */
  lemma FreeBefore(m: seq<Span>, k: nat, from: int)
    requires Separated(m) && k < |m|
    requires forall i :: 0 <= i < k ==> m[i].end <= from
    ensures forall p :: from <= p < m[k].start ==> !Covered(m, p)
  {
  }

  /** The spans before `k` are dealt with, and the window is rendered up to `cursor`. */
  ghost predicate AppliedUpto(text: Text, m: seq<Span>, offset: int, k: nat, cursor: int, r: Text)
    requires k <= |m|
  {
    && 0 <= cursor <= |text|
    && r == Rendered(text, Positions(m), offset, cursor)
    && (k < |m| ==> cursor == 0 || offset + cursor < m[k].start || cursor == |text|)
    && (cursor < |text| ==> forall i :: 0 <= i < k ==> m[i].end <= offset + cursor || m[i].start >= offset + |text|)
  }

  lemma ApplyOne(text: Text, m: seq<Span>, offset: int, k: nat, cursor: int, r: Text)
    requires Separated(m) && k < |m| && AppliedUpto(text, m, offset, k, cursor, r)
    requires cursor < Min(m[k].end - offset, |text|) && Max(m[k].start - offset, 0) < Min(m[k].end - offset, |text|)
    ensures cursor <= Max(m[k].start - offset, cursor) <= |text|
    ensures AppliedUpto(text, m, offset, k + 1, Min(m[k].end - offset, |text|),
                        r + text[cursor..Max(Max(m[k].start - offset, 0), cursor)] + REDACTED)
  {
    var start, end := Max(m[k].start - offset, 0), Min(m[k].end - offset, |text|);
    var hidden := Positions(m);
    assert forall i :: 0 <= i < k ==> m[i].end < m[k].start;
    FreeBefore(m, k, offset + cursor);
    RenderedPlain(text, hidden, offset, cursor, start);
    assert forall p :: offset + start <= p < offset + end ==> Covered(m, p);
    if start > 0 {
      FreeBefore(m, k, m[k].start - 1);
    }
    RenderedRun(text, hidden, offset, start, end);
  }

  lemma ApplyRest(text: Text, m: seq<Span>, offset: int, cursor: int, r: Text)
    requires Separated(m) && AppliedUpto(text, m, offset, |m|, cursor, r)
    ensures r + text[cursor..] == Redact(text, Positions(m), offset)
  {
    forall p | offset + cursor <= p < offset + |text| ensures p !in Positions(m) {
    }
    RenderedPlain(text, Positions(m), offset, cursor, |text|);
  }

  /** Replace each merged span, clipped to the window, by the marker. */
  method ApplySpans(text: Text, spans: seq<Span>, offset: int) returns (r: Text)
    ensures r == Redact(text, Positions(spans), offset)
  {
    r := [];
    var cursor := 0;
    var merged := MergeSpans(spans);
    for k := 0 to |merged|
      invariant AppliedUpto(text, merged, offset, k, cursor, r)
    {
      var start, end := Max(merged[k].start - offset, 0), Min(merged[k].end - offset, |text|);
      if !(end <= cursor || start >= end) {
        ApplyOne(text, merged, offset, k, cursor, r);
        r := r + text[cursor..Max(start, cursor)] + REDACTED;
        cursor := end;
      }
    }
    ApplyRest(text, merged, offset, cursor, r);
    r := r + text[cursor..];
  }
}

/**
 * The redaction contract of the bounded tail (shared/pi_events_scan.py, "Redaction (#755)"):
 * what leaves the buffer is judged against the whole stream, not against what the buffer kept.
 */
module StderrTailProofs {
  import opened Basics
  import opened Redaction
  import opened Utf8
  import opened StderrTail

  ghost predicate Occurs(literal: Text, text: Text, at: int) {
    0 <= at <= |text| - |literal| && text[at..at + |literal|] == literal
  }

  /** The positions that belong to some occurrence of a registered literal. */
  ghost function SecretPositions(text: Text, literals: set<Text>): iset<int> {
    iset p | Secret(text, literals, p)
  }

  ghost predicate Secret(text: Text, literals: set<Text>, p: int) {
    exists literal, at :: literal in literals && Occurs(literal, text, at) && at <= p < at + |literal|
  }

  ghost predicate ReportsAll(f: SecretSpans, literals: set<Text>) {
    forall text :: f(text).Some? ==> SecretPositions(text, literals) <= Positions(f(text).value)
  }

  ghost predicate ReportsExactly(f: SecretSpans, literals: set<Text>) {
    forall text :: f(text).Some? ==> SecretPositions(text, literals) == Positions(f(text).value)
  }

  ghost predicate NoLongerThan(literals: set<Text>, n: nat) {
    forall literal :: literal in literals ==> |literal| <= n
  }

  ghost function Shift(hidden: iset<int>, d: int): iset<int> {
    iset p | Moved(hidden, d, p)
  }

  ghost predicate Moved(hidden: iset<int>, d: int, p: int) {
    p - d in hidden
  }

  /** Rendering a window depends only on positions relative to it. */
  lemma {:induction false} RenderedShift(w: Text, hidden: iset<int>, offset: int, d: int, n: nat)
    requires n <= |w|
    ensures Rendered(w, Shift(hidden, d), offset + d, n) == Rendered(w, hidden, offset, n)
  {
    if n > 0 {
      RenderedShift(w, hidden, offset, d, n - 1);
    }
  }

  /** Where the retained text starts in the stream. */
  function Base(stream: Text, margin: nat): nat {
    |stream| - |Last(stream, Keep(margin))|
  }

  /**
   * The lookback argument: an occurrence that reaches the window, in a stream that was trimmed,
   * cannot have lost its head to the trim.
   */
  lemma OccurrenceIsWhole(stream: Text, margin: nat, literal: Text, at: int, p: int)
    requires Occurs(literal, stream, at) && |literal| <= margin + 1
    requires at <= p < at + |literal| && Base(stream, margin) + WindowStart(stream, margin) <= p
    ensures Occurs(literal, Last(stream, Keep(margin)), at - Base(stream, margin))
  {
    var text, base := Last(stream, Keep(margin)), Base(stream, margin);
    assert base <= at;
    assert text[at - base..at - base + |literal|] == stream[at..at + |literal|];
  }

  lemma RetainedOccurrence(stream: Text, margin: nat, literal: Text, at: int)
    requires Occurs(literal, Last(stream, Keep(margin)), at)
    ensures Occurs(literal, stream, at + Base(stream, margin))
  {
    var text, base := Last(stream, Keep(margin)), Base(stream, margin);
    assert text[at..at + |literal|] == stream[at + base..at + base + |literal|];
  }

  lemma SecretsReachingTheWindow(stream: Text, margin: nat, literals: set<Text>, p: int)
    requires NoLongerThan(literals, margin + 1)
    requires Base(stream, margin) + WindowStart(stream, margin) <= p
    requires p in SecretPositions(stream, literals)
    ensures p - Base(stream, margin) in SecretPositions(Last(stream, Keep(margin)), literals)
  {
    var literal, at :| literal in literals && Occurs(literal, stream, at) && at <= p < at + |literal|;
    OccurrenceIsWhole(stream, margin, literal, at, p);
  }

  lemma RetainedSecrets(stream: Text, margin: nat, literals: set<Text>, p: int)
    requires p in SecretPositions(Last(stream, Keep(margin)), literals)
    ensures p + Base(stream, margin) in SecretPositions(stream, literals)
  {
    var literal, at :| literal in literals && Occurs(literal, Last(stream, Keep(margin)), at)
        && at <= p < at + |literal|;
    RetainedOccurrence(stream, margin, literal, at);
    assert Occurs(literal, stream, at + Base(stream, margin));
  }

  /** The stream position the emitted window starts at, and the positions it hides. */
  ghost function From(stream: Text, margin: nat, spans: seq<Span>): (r: nat)
    ensures r <= |stream|
    ensures r <= Max(|stream| - TAIL, 0)
  {
    Base(stream, margin) + RunStart(Positions(spans), WindowStart(stream, margin))
  }

  ghost function Hidden(stream: Text, margin: nat, spans: seq<Span>): iset<int> {
    Shift(Positions(spans), Base(stream, margin))
  }

  /** The window opens `TAIL` characters before the end, or earlier at the start of a hidden run through there. */
  ghost predicate OpensAt(stream: Text, from: int, hidden: iset<int>) {
    var last := Max(|stream| - TAIL, 0);
    && 0 <= from <= last && (forall p :: from <= p < last ==> p in hidden)
    && (from < last ==> last in hidden)
  }

  lemma FromOpens(stream: Text, margin: nat, spans: seq<Span>)
    ensures OpensAt(stream, From(stream, margin, spans), Hidden(stream, margin, spans))
    ensures Base(stream, margin) == Max(|stream| - Keep(margin), 0)
  {
    var base, hidden, window := Base(stream, margin), Positions(spans), WindowStart(stream, margin);
    assert base + window == Max(|stream| - TAIL, 0);
    assert forall q :: q in hidden <==> Moved(hidden, base, q + base);
  }

  lemma WindowUnfolded(text: Text, window: nat, f: SecretSpans)
    requires window <= |text| && text != [] && f(text).Some?
    ensures var start := RunStart(Positions(f(text).value), window);
            WindowOf(text, window, Some(f)) == FinalCut(Emitted(text, Positions(f(text).value), start), start > 0)
  {
  }

  /** The window rendered in buffer coordinates and in stream coordinates. */
  lemma EmittedInStream(stream: Text, base: nat, hidden: iset<int>, start: nat)
    requires base + start <= |stream|
    ensures Emitted(stream[base..], hidden, start) ==
            Encode(Redact(stream[base + start..], Shift(hidden, base), base + start))
  {
    var window := stream[base + start..];
    assert stream[base..][start..] == window;
    RenderedShift(window, hidden, start, base, |window|);
  }

  /** The bytes emitted before the final cut, in stream coordinates. */
  ghost function EmittedFromStream(stream: Text, margin: nat, spans: seq<Span>): seq<Byte> {
    var from := From(stream, margin, spans);
    Encode(Redact(stream[from..], Hidden(stream, margin, spans), from))
  }

  lemma LastFromBase(stream: Text, margin: nat)
    ensures Base(stream, margin) <= |stream| && Last(stream, Keep(margin)) == stream[Base(stream, margin)..]
  {
  }

  lemma EmittedAt(stream: Text, margin: nat, hidden: iset<int>, start: nat, from: nat, shifted: iset<int>)
    requires start <= |Last(stream, Keep(margin))|
    requires from == Base(stream, margin) + start && shifted == Shift(hidden, Base(stream, margin))
    ensures from <= |stream|
    ensures Emitted(Last(stream, Keep(margin)), hidden, start) == Encode(Redact(stream[from..], shifted, from))
  {
    LastFromBase(stream, margin);
    EmittedInStream(stream, Base(stream, margin), hidden, start);
  }

  lemma EmittedMatches(stream: Text, margin: nat, spans: seq<Span>, start: nat)
    requires start == RunStart(Positions(spans), WindowStart(stream, margin))
    ensures Emitted(Last(stream, Keep(margin)), Positions(spans), start) == EmittedFromStream(stream, margin, spans)
  {
    EmittedAt(stream, margin, Positions(spans), start, From(stream, margin, spans), Hidden(stream, margin, spans));
  }

  lemma WindowInStream(stream: Text, margin: nat, f: SecretSpans) returns (cut: bool)
    requires stream != [] && f(Last(stream, Keep(margin))).Some?
    ensures TailOf(stream, margin, Some(f)) ==
            FinalCut(EmittedFromStream(stream, margin, f(Last(stream, Keep(margin))).value), cut)
    ensures cut <==> From(stream, margin, f(Last(stream, Keep(margin))).value) > Base(stream, margin)
  {
    var text := Last(stream, Keep(margin));
    var start := RunStart(Positions(f(text).value), WindowStart(stream, margin));
    cut := start > 0;
    EmittedMatches(stream, margin, f(text).value, start);
    WindowUnfolded(text, WindowStart(stream, margin), f);
  }

  /** `tail` is where `data` is cut; `clipped` says that characters before it were left out. */
  ghost predicate IsCutOf(tail: seq<Byte>, data: seq<Byte>, clipped: bool, lo: int, hi: int) {
    CutAt(data, clipped, lo, hi) && tail == data[lo..hi]
  }

  /**
   * No secret escapes. The output is the end of the encoding of the stream from `from` on, with every
   * position of every occurrence in the WHOLE stream hidden. The window covers at least the last
   * `TAIL` characters, more only to open at the start of a hidden run, and is cut where `CutAt` says.
   * One character more than the documented bound on literals is still safe.
   */
  lemma NoSecretEscapes(stream: Text, margin: nat, literals: set<Text>, f: SecretSpans)
    returns (from: nat, hidden: iset<int>, lo: nat, hi: nat)
    requires NoLongerThan(literals, margin + 1) && ReportsAll(f, literals)
    requires stream != [] && f(Last(stream, Keep(margin))).Some?
    ensures OpensAt(stream, from, hidden)
    ensures hidden == Shift(Positions(f(Last(stream, Keep(margin))).value), Max(|stream| - Keep(margin), 0))
    ensures forall p :: p >= from && p in SecretPositions(stream, literals) ==> p in hidden
    ensures IsCutOf(TailOf(stream, margin, Some(f)), Encode(Redact(stream[from..], hidden, from)),
                    from > Max(|stream| - Keep(margin), 0), lo, hi)
    ensures hi - lo <= TAIL
  {
    var text, base := Last(stream, Keep(margin)), Base(stream, margin);
    var spans := f(text).value;
    from, hidden := From(stream, margin, spans), Hidden(stream, margin, spans);
    forall p | p >= from && p in SecretPositions(stream, literals) ensures p in hidden {
      if p >= base + WindowStart(stream, margin) {
        SecretsReachingTheWindow(stream, margin, literals, p);
      }
    }
    FromOpens(stream, margin, spans);
    var cut := WindowInStream(stream, margin, f);
    lo, hi := FinalCutIsSlice(EmittedFromStream(stream, margin, spans), cut);
  }

  /** Without a redactor the last `TAIL` characters are encoded as they are and cut in the same way. */
  lemma PlainTail(stream: Text, margin: nat) returns (lo: nat, hi: nat)
    ensures var from := Max(|stream| - TAIL, 0);
            IsCutOf(TailOf(stream, margin, None), Encode(stream[from..]),
                    from > Max(|stream| - Keep(margin), 0), lo, hi)
  {
    var from := Max(|stream| - TAIL, 0);
    var base, window := Base(stream, margin), WindowStart(stream, margin);
    LastFromBase(stream, margin);
    assert base + window == from;
    if stream == [] {
      assert stream[from..] == [];
      lo, hi := FinalCutIsSlice([], false);
    } else {
      assert stream[from..] == Last(stream, Keep(margin))[window..];
      WindowOfPlain(Last(stream, Keep(margin)), window);
      lo, hi := FinalCutIsSlice(Encode(stream[from..]), window > 0);
    }
  }

  lemma WindowOfPlain(text: Text, window: nat)
    requires window <= |text| && text != []
    ensures WindowOf(text, window, None) == FinalCut(Encode(text[window..]), window > 0)
  {
    var hidden := Positions([]);
    assert hidden == iset{};
    assert RunStart(hidden, window) == window;
    RedactNothing(text[window..], window);
  }

  lemma FirstOfWindow(window: Text, hidden: iset<int>, offset: int)
    requires window != []
    ensures Rendered(window, hidden, offset, 1) == Glyph(window, hidden, offset, 0)
  {
    assert Rendered(window, hidden, offset, 0) == [];
  }

  lemma FirstGlyphInRun(stream: Text, all: iset<int>, hidden: iset<int>, from: nat)
    requires from < |stream| && from in hidden && RunStart(all, from) < from
    ensures Rendered(stream, all, 0, from + 1) ==
            Rendered(stream, all, 0, RunStart(all, from)) + Glyph(stream[from..], hidden, from, 0)
  {
    RenderedRun(stream, all, 0, RunStart(all, from), from + 1);
  }

  lemma FirstGlyphAlone(stream: Text, all: iset<int>, hidden: iset<int>, from: nat)
    requires from < |stream| && (from in all <==> from in hidden) && RunStart(all, from) == from
    ensures Rendered(stream, all, 0, from + 1) ==
            Rendered(stream, all, 0, from) + Glyph(stream[from..], hidden, from, 0)
  {
    assert Glyph(stream, all, 0, from) == Glyph(stream[from..], hidden, from, 0);
  }

  /** The first position of the window opens the same run, or is the same character. */
  lemma FirstGlyph(stream: Text, all: iset<int>, hidden: iset<int>, from: nat)
    requires from < |stream| && (from in all <==> from in hidden)
    ensures Rendered(stream, all, 0, from + 1) ==
            Rendered(stream, all, 0, RunStart(all, from)) + Rendered(stream[from..], hidden, from, 1)
  {
    FirstOfWindow(stream[from..], hidden, from);
    if RunStart(all, from) < from {
      FirstGlyphInRun(stream, all, hidden, from);
    } else {
      FirstGlyphAlone(stream, all, hidden, from);
    }
  }

  lemma GlyphAgrees(stream: Text, all: iset<int>, hidden: iset<int>, from: nat, i: nat)
    requires from < i < |stream|
    requires forall q :: from <= q ==> (q in all <==> q in hidden)
    ensures Glyph(stream, all, 0, i) == Glyph(stream[from..], hidden, from, i - from)
  {
    assert stream[from..][i - from] == stream[i];
  }

  lemma RenderedOneMore(w: Text, hidden: iset<int>, offset: int, n: nat)
    requires 0 < n <= |w|
    ensures Rendered(w, hidden, offset, n) == Rendered(w, hidden, offset, n - 1) + Glyph(w, hidden, offset, n - 1)
  {
  }

  /** Two hidden sets that agree from `from` on render the same window. */
  lemma {:induction false} SuffixOfRedaction(stream: Text, all: iset<int>, hidden: iset<int>, from: nat, n: nat)
    requires from < n <= |stream|
    requires forall q :: from <= q ==> (q in all <==> q in hidden)
    ensures Rendered(stream, all, 0, n) ==
            Rendered(stream, all, 0, RunStart(all, from)) + Rendered(stream[from..], hidden, from, n - from)
  {
    if n == from + 1 {
      FirstGlyph(stream, all, hidden, from);
    } else {
      SuffixOfRedaction(stream, all, hidden, from, n - 1);
      GlyphAgrees(stream, all, hidden, from, n - 1);
      RenderedOneMore(stream, all, 0, n);
      RenderedOneMore(stream[from..], hidden, from, n - from);
      Reassociate(Rendered(stream, all, 0, RunStart(all, from)),
                  Rendered(stream[from..], hidden, from, n - 1 - from),
                  Glyph(stream, all, 0, n - 1));
    }
  }

  /** In the whole stream and in the buffer alike, the same positions from `from` on are secret. */
  lemma HiddenIsSecret(stream: Text, margin: nat, literals: set<Text>, spans: seq<Span>, q: int)
    requires NoLongerThan(literals, margin + 1)
    requires SecretPositions(Last(stream, Keep(margin)), literals) == Positions(spans)
    requires From(stream, margin, spans) <= q
    ensures q in SecretPositions(stream, literals) <==> q in Hidden(stream, margin, spans)
  {
    var base := Base(stream, margin);
    if q in Hidden(stream, margin, spans) {
      RetainedSecrets(stream, margin, literals, q - base);
    }
    if q in SecretPositions(stream, literals) && q >= base + WindowStart(stream, margin) {
      SecretsReachingTheWindow(stream, margin, literals, q);
    }
  }

  lemma WholeRedactionSplits(stream: Text, all: iset<int>, hidden: iset<int>, from: nat)
    requires from < |stream|
    requires forall q :: from <= q ==> (q in all <==> q in hidden)
    ensures Encode(Redact(stream, all, 0)) ==
            Encode(Rendered(stream, all, 0, RunStart(all, from))) + Encode(Redact(stream[from..], hidden, from))
  {
    RedactionSplits(stream, all, hidden, from);
    EncodeAppend(Rendered(stream, all, 0, RunStart(all, from)), Redact(stream[from..], hidden, from));
  }

  lemma RedactionSplits(stream: Text, all: iset<int>, hidden: iset<int>, from: nat)
    requires from < |stream|
    requires forall q :: from <= q ==> (q in all <==> q in hidden)
    ensures Redact(stream, all, 0) ==
            Rendered(stream, all, 0, RunStart(all, from)) + Redact(stream[from..], hidden, from)
  {
    assert |stream[from..]| == |stream| - from;
    SuffixOfRedaction(stream, all, hidden, from, |stream|);
  }

  /** What the buffer emits ends the encoding of the whole stream's redaction. */
  lemma EmittedEndsWholeRedaction(stream: Text, margin: nat, literals: set<Text>, spans: seq<Span>)
    returns (front: seq<Byte>)
    requires NoLongerThan(literals, margin + 1) && stream != []
    requires SecretPositions(Last(stream, Keep(margin)), literals) == Positions(spans)
    ensures Encode(Redact(stream, SecretPositions(stream, literals), 0)) ==
            front + EmittedFromStream(stream, margin, spans)
  {
    var from, hidden := From(stream, margin, spans), Hidden(stream, margin, spans);
    var all := SecretPositions(stream, literals);
    forall q | from <= q ensures q in all <==> q in hidden {
      HiddenIsSecret(stream, margin, literals, spans, q);
    }
    front := Encode(Rendered(stream, all, 0, RunStart(all, from)));
    WholeRedactionSplits(stream, all, hidden, from);
  }

  /**
   * Exactness: with a redactor that reports precisely the literal occurrences, the output is a
   * stretch of the redaction of the whole stream, so trimming, widening and clipping change nothing
   * but where the text is cut.
   */
  lemma TailIsSliceOfWholeRedaction(stream: Text, margin: nat, literals: set<Text>, f: SecretSpans)
    returns (from: nat, front: seq<Byte>, back: seq<Byte>, lo: nat, hi: nat)
    requires NoLongerThan(literals, margin + 1) && ReportsExactly(f, literals)
    requires stream != [] && f(Last(stream, Keep(margin))).Some?
    ensures OpensAt(stream, from, SecretPositions(stream, literals))
    ensures Encode(Redact(stream, SecretPositions(stream, literals), 0)) == front + back
    ensures back == Encode(Redact(stream[from..], SecretPositions(stream, literals), from))
    ensures IsCutOf(TailOf(stream, margin, Some(f)), back, from > Max(|stream| - Keep(margin), 0), lo, hi)
  {
    var spans := f(Last(stream, Keep(margin))).value;
    from := From(stream, margin, spans);
    front := EmittedEndsWholeRedaction(stream, margin, literals, spans);
    back := EmittedFromStream(stream, margin, spans);
    var cut := WindowInStream(stream, margin, f);
    lo, hi := FinalCutIsSlice(back, cut);
    FromOpens(stream, margin, spans);
    BackIsSecret(stream, margin, literals, spans);
  }

  /** From the window on, the buffer hides exactly what is secret in the whole stream. */
  lemma BackIsSecret(stream: Text, margin: nat, literals: set<Text>, spans: seq<Span>)
    requires NoLongerThan(literals, margin + 1)
    requires SecretPositions(Last(stream, Keep(margin)), literals) == Positions(spans)
    ensures var from, all := From(stream, margin, spans), SecretPositions(stream, literals);
            && OpensAt(stream, from, all)
            && EmittedFromStream(stream, margin, spans) == Encode(Redact(stream[from..], all, from))
  {
    var from, all := From(stream, margin, spans), SecretPositions(stream, literals);
    var hidden := Hidden(stream, margin, spans);
    forall q | from <= q ensures q in all <==> q in hidden {
      HiddenIsSecret(stream, margin, literals, spans, q);
    }
    FromOpens(stream, margin, spans);
    SameWindow(stream, all, hidden, from);
  }

  /** Sets that agree from the window on open it in the same place and render it alike. */
  lemma SameWindow(stream: Text, all: iset<int>, hidden: iset<int>, from: nat)
    requires from <= |stream| && OpensAt(stream, from, hidden)
    requires forall q :: from <= q ==> (q in all <==> q in hidden)
    ensures OpensAt(stream, from, all)
    ensures Encode(Redact(stream[from..], all, from)) == Encode(Redact(stream[from..], hidden, from))
  {
    SameRendering(stream[from..], all, hidden, from, |stream[from..]|);
  }

  /** Rendering looks at the positions of the window only. */
  lemma {:induction false} SameRendering(w: Text, all: iset<int>, hidden: iset<int>, offset: nat, n: nat)
    requires n <= |w| && forall q :: offset <= q ==> (q in all <==> q in hidden)
    ensures Rendered(w, all, offset, n) == Rendered(w, hidden, offset, n)
  {
    if n > 0 {
      SameRendering(w, all, hidden, offset, n - 1);
    }
  }

  // ----- The bound is sharp: two characters more and a secret's last character leaks -----

  /** `n` copies of `c`. */
  function Repeat(c: CodePoint, n: nat): (r: Text)
    ensures |r| == n && forall i :: 0 <= i < n ==> r[i] == c
  {
    seq(n, _ => c)
  }

  lemma {:induction false} EncodeAscii(t: Text)
    requires forall i :: 0 <= i < |t| ==> t[i] < 0x80
    ensures |Encode(t)| == |t| && forall i :: 0 <= i < |t| ==> Encode(t)[i] == t[i]
  {
    if t != [] {
      EncodeAscii(t[..|t| - 1]);
    }
  }

  lemma IndexOfAbsent(data: seq<Byte>, b: Byte)
    requires forall i :: 0 <= i < |data| ==> data[i] != b
    ensures IndexOf(data, b) == -1
  {
    FirstIndex(data, b);
  }

  /** The buffer keeps one `A` too few to recognise the literal, one `A` lands in the window. */
  lemma RetainedOfSharp(margin: nat)
    ensures var stream := Repeat(65, margin + 2) + Repeat(66, TAIL - 1);
            Last(stream, Keep(margin)) == Repeat(65, margin + 1) + Repeat(66, TAIL - 1)
  {
  }

  lemma NoSecretInRetained(margin: nat)
    ensures SecretPositions(Repeat(65, margin + 1) + Repeat(66, TAIL - 1), {Repeat(65, margin + 2)}) == iset{}
  {
    var literal, text := Repeat(65, margin + 2), Repeat(65, margin + 1) + Repeat(66, TAIL - 1);
    forall at ensures !Occurs(literal, text, at) {
      if 0 <= at <= |text| - |literal| {
        assert text[at..at + |literal|][margin + 1] != literal[margin + 1];
      }
    }
  }

  /**
   * For every margin, a stream, and a literal of `margin + 2` characters: the exact redactor lets
   * the literal's last character through as the first byte of the tail.
   */
  lemma LongerLiteralLeaks(margin: nat, f: SecretSpans)
    requires ReportsExactly(f, {Repeat(65, margin + 2)})
    requires f(Repeat(65, margin + 1) + Repeat(66, TAIL - 1)).Some?
    ensures var stream, literal := Repeat(65, margin + 2) + Repeat(66, TAIL - 1), Repeat(65, margin + 2);
            && margin + 1 in SecretPositions(stream, {literal})
            && TailOf(stream, margin, Some(f)) == Encode(stream[margin + 1..])
            && |TailOf(stream, margin, Some(f))| > 0 && TailOf(stream, margin, Some(f))[0] == 65
  {
    var stream, literal := Repeat(65, margin + 2) + Repeat(66, TAIL - 1), Repeat(65, margin + 2);
    assert stream[0..0 + |literal|] == literal;
    assert Occurs(literal, stream, 0);
    assert Secret(stream, {literal}, margin + 1);
    var text := Last(stream, Keep(margin));
    RetainedOfSharp(margin);
    NoSecretInRetained(margin);
    var hidden := Positions(f(text).value);
    assert hidden == iset{};
    WindowUnfolded(text, margin, f);
    assert RunStart(hidden, margin) == margin;
    PlainWindow(text[margin..], margin, margin > 0);
    assert text[margin..] == stream[margin + 1..];
    assert stream[margin + 1..] == [65] + Repeat(66, TAIL - 1);
    EncodeAscii(text[margin..]);
  }

  lemma RedactNothing(w: Text, start: nat)
    ensures Redact(w, iset{}, start) == w
  {
    RenderedPlain(w, iset{}, start, 0, |w|);
    assert Rendered(w, iset{}, start, 0) == [] && w[0..|w|] == w;
  }

  lemma CutNothing(data: seq<Byte>, cut: bool)
    requires |data| <= TAIL
    requires forall i :: 0 <= i < |data| ==> data[i] !in {10, 32, 9}
    ensures FinalCut(data, cut) == data
  {
    IndexOfAbsent(data, 10);
    IndexOfAbsent(data, 32);
    IndexOfAbsent(data, 9);
    assert WithoutFinalNewline(data) == data;
    assert Last(data, TAIL) == data;
  }

  lemma PlainWindow(w: Text, start: nat, cut: bool)
    requires w == [65] + Repeat(66, TAIL - 1)
    ensures FinalCut(Encode(Redact(w, iset{}, start)), cut) == Encode(w)
  {
    RedactNothing(w, start);
    EncodeAscii(w);
    forall i | 0 <= i < |w| ensures Encode(w)[i] !in {10, 32, 9} {
      assert w[i] == 65 || w[i] == 66;
    }
    CutNothing(Encode(w), cut);
  }
}

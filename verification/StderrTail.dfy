/** UTF-8 with errors="replace": a lone surrogate becomes a question mark. */
module Utf8 {
  import opened Redaction

  type Byte = b: int | 0 <= b < 256

  function EncodePoint(c: CodePoint): (r: seq<Byte>)
    ensures 1 <= |r| <= 4
  {
    if c < 0x80 then [c]
    else if c < 0x800 then [0xC0 + c / 64, 0x80 + c % 64]
    else if 0xD800 <= c < 0xE000 then [0x3F]
    else if c < 0x1_0000 then [0xE0 + c / 4096, 0x80 + c / 64 % 64, 0x80 + c % 64]
    else [0xF0 + c / 0x4_0000, 0x80 + c / 4096 % 64, 0x80 + c / 64 % 64, 0x80 + c % 64]
  }

  ghost predicate Continues(b: int) {
    0x80 <= b < 0xC0
  }

  ghost predicate Pair(c: int, a: int, b: int) {
    0xC2 <= a <= 0xDF && Continues(b) && c == (a - 0xC0) * 64 + (b - 0x80)
  }

  ghost predicate Triple(c: int, a: int, b: int, d: int) {
    0xE0 <= a <= 0xEF && Continues(b) && Continues(d) && c == (a - 0xE0) * 4096 + (b - 0x80) * 64 + (d - 0x80)
  }

  ghost predicate Quadruple(c: int, a: int, b: int, d: int, e: int) {
    && 0xF0 <= a <= 0xF4 && Continues(b) && Continues(d) && Continues(e)
    && c == (a - 0xF0) * 0x4_0000 + (b - 0x80) * 4096 + (d - 0x80) * 64 + (e - 0x80)
  }

  lemma Split(c: nat)
    ensures c == c / 64 * 64 + c % 64
    ensures c / 64 == c / 4096 * 64 + c / 64 % 64
    ensures c / 4096 == c / 0x4_0000 * 64 + c / 4096 % 64
  {
    assert c / 64 / 64 == c / 4096 && c / 4096 / 64 == c / 0x4_0000;
  }

  /** The shortest form that gives the character back, and a question mark for a surrogate. */
  lemma EncodePointIs(c: CodePoint)
    ensures var r := EncodePoint(c);
            if 0xD800 <= c <= 0xDFFF then r == [0x3F]
            else if c <= 0x7F then r == [c]
            else if c <= 0x7FF then |r| == 2 && Pair(c, r[0], r[1])
            else if c <= 0xFFFF then |r| == 3 && Triple(c, r[0], r[1], r[2])
            else |r| == 4 && Quadruple(c, r[0], r[1], r[2], r[3])
  {
    Split(c);
  }

  function Encode(t: Text): seq<Byte> {
    if t == [] then [] else Encode(t[..|t| - 1]) + EncodePoint(t[|t| - 1])
  }

  lemma EncodeSnoc(t: Text, c: CodePoint)
    ensures Encode(t + [c]) == Encode(t) + EncodePoint(c)
  {
    assert (t + [c])[..|t|] == t;
  }

  lemma Reassociate<T>(a: seq<T>, b: seq<T>, c: seq<T>)
    ensures (a + b) + c == a + (b + c)
  {
  }

  lemma {:induction false} EncodeAppend(a: Text, b: Text)
    ensures Encode(a + b) == Encode(a) + Encode(b)
  {
    if b == [] {
      assert a + b == a;
    } else {
      var front, last := b[..|b| - 1], b[|b| - 1];
      EncodeAppend(a, front);
      EncodeSnoc(a + front, last);
      assert a + front + [last] == a + b;
      Reassociate(Encode(a), Encode(front), EncodePoint(last));
    }
  }
}

/** Bounded, redact-once stderr tail (shared/stderr_tail.py). */
module StderrTail {
  import opened Basics
  import opened Redaction
  import opened Utf8

  const TAIL: nat := 8 * 1024

  /** A redactor's span function; `None` stands for a raised exception. */
  type SecretSpans = Text -> Option<seq<Span>>

  ghost predicate InText(spans: seq<Span>, text: Text) {
    forall s :: s in spans ==> 0 <= s.start && s.end <= |text|
  }

  /** Span functions report positions of the text they were given. */
  ghost predicate ReportsPositions(f: SecretSpans) {
    forall text :: f(text).Some? ==> InText(f(text).value, text)
  }

  function Last<T>(s: seq<T>, n: nat): (r: seq<T>)
    ensures |r| == Min(|s|, n)
  {
    s[Max(|s| - n, 0)..]
  }

  function Join(parts: seq<Text>): Text {
    if parts == [] then [] else Join(parts[..|parts| - 1]) + parts[|parts| - 1]
  }

  // ----- The cut after redaction -----

  /** The first index of `b`, or -1, as `bytes.find`. */
  function IndexOf(data: seq<Byte>, b: Byte): (i: int)
    ensures -1 <= i < |data|
  {
    if data == [] then -1
    else if data[0] == b then 0
    else if IndexOf(data[1..], b) == -1 then -1 else IndexOf(data[1..], b) + 1
  }

  /** After a cut, drop the leading partial line, or else the leading partial token. */
  function DropLeadingPartial(data: seq<Byte>): seq<Byte> {
    if IndexOf(data, 10) != -1 then data[IndexOf(data, 10) + 1..]
    else if IndexOf(data, 32) != -1 then data[IndexOf(data, 32) + 1..]
    else if IndexOf(data, 9) != -1 then data[IndexOf(data, 9) + 1..]
    else data
  }

  function WithoutFinalNewline(data: seq<Byte>): seq<Byte> {
    if data != [] && data[|data| - 1] == 10 then data[..|data| - 1] else data
  }

  /** Drop one trailing newline, keep the last `TAIL` bytes, and drop what a cut left partial. */
  function FinalCut(data: seq<Byte>, cut: bool): seq<Byte> {
    var body := WithoutFinalNewline(data);
    if |body| > TAIL || cut then DropLeadingPartial(Last(body, TAIL)) else body
  }

  /** `b` is nowhere in `data[from..end]`. */
  ghost predicate Absent(data: seq<Byte>, b: Byte, from: int, end: int) {
    forall i :: 0 <= from <= i < end <= |data| ==> data[i] != b
  }

  /** `lo` comes right after the first `b` from `base` on. */
  ghost predicate AfterFirst(data: seq<Byte>, b: Byte, base: int, lo: int, end: int) {
    0 <= base < lo <= end <= |data| && data[lo - 1] == b && Absent(data, b, base, lo - 1)
  }

  /**
   * `lo` comes after the first newline of `data[base..end]`; if there is none, after the first space;
   * if there is none either, after the first tab; and is `base` if there is nothing to stop at.
   */
  ghost predicate WholeFrom(data: seq<Byte>, base: int, lo: int, end: int) {
    || AfterFirst(data, 10, base, lo, end)
    || (Absent(data, 10, base, end) && AfterFirst(data, 32, base, lo, end))
    || (Absent(data, 10, base, end) && Absent(data, 32, base, end) && AfterFirst(data, 9, base, lo, end))
    || (Absent(data, 10, base, end) && Absent(data, 32, base, end) && Absent(data, 9, base, end) && lo == base)
  }

  /**
   * The stretch of `data` that is returned: up to its very end, but for one final newline; all of it
   * if nothing is cut; otherwise its last `TAIL` bytes from the first whole line or token on.
   */
  ghost predicate CutAt(data: seq<Byte>, clipped: bool, lo: int, hi: int) {
    && 0 <= lo <= hi
    && hi == (if |data| > 0 && data[|data| - 1] == 10 then |data| - 1 else |data|)
    && (hi <= TAIL && !clipped ==> lo == 0)
    && (hi > TAIL || clipped ==> WholeFrom(data, if hi > TAIL then hi - TAIL else 0, lo, hi))
  }

  lemma {:induction false} FirstIndex(data: seq<Byte>, b: Byte)
    ensures IndexOf(data, b) == -1 ==> Absent(data, b, 0, |data|)
    ensures IndexOf(data, b) != -1 ==> AfterFirst(data, b, 0, IndexOf(data, b) + 1, |data|)
  {
    if data != [] && data[0] != b {
      FirstIndex(data[1..], b);
      assert data == [data[0]] + data[1..];
    }
  }

  ghost predicate FoundAt(data: seq<Byte>, b: Byte, base: int, end: int, i: int) {
    if i == -1 then Absent(data, b, base, end) else AfterFirst(data, b, base, base + i + 1, end)
  }

  /** The first `b` of a stretch of a longer text. */
  lemma FirstIndexWithin(data: seq<Byte>, b: Byte, base: nat, end: nat)
    requires base <= end <= |data|
    ensures FoundAt(data, b, base, end, IndexOf(data[base..end], b))
  {
    var kept := data[base..end];
    FirstIndex(kept, b);
    forall k | base <= k < end ensures data[k] == kept[k - base] {
    }
  }

  lemma SliceOfSlice<T>(s: seq<T>, base: nat, end: nat, n: nat)
    requires base <= end <= |s| && n <= end - base
    ensures s[base..end][n..] == s[base + n..end]
  {
  }

  lemma FirstBoundary(data: seq<Byte>, base: int, end: int, newline: int, space: int, tab: int)
    requires FoundAt(data, 10, base, end, newline) && FoundAt(data, 32, base, end, space)
    requires FoundAt(data, 9, base, end, tab)
    ensures WholeFrom(data, base, base + Dropped(newline, space, tab), end)
  {
  }

  function Dropped(newline: int, space: int, tab: int): int {
    if newline != -1 then newline + 1 else if space != -1 then space + 1 else if tab != -1 then tab + 1 else 0
  }

  lemma DroppedOf(data: seq<Byte>) returns (n: nat)
    ensures n == Dropped(IndexOf(data, 10), IndexOf(data, 32), IndexOf(data, 9)) <= |data|
    ensures DropLeadingPartial(data) == data[n..]
  {
    n := Dropped(IndexOf(data, 10), IndexOf(data, 32), IndexOf(data, 9));
  }

  lemma DropLeadingPartialDrops(data: seq<Byte>, base: nat, end: nat) returns (lo: nat)
    requires base <= end <= |data|
    ensures lo <= end && DropLeadingPartial(data[base..end]) == data[lo..end]
    ensures WholeFrom(data, base, lo, end)
  {
    var kept := data[base..end];
    FirstIndexWithin(data, 10, base, end);
    FirstIndexWithin(data, 32, base, end);
    FirstIndexWithin(data, 9, base, end);
    FirstBoundary(data, base, end, IndexOf(kept, 10), IndexOf(kept, 32), IndexOf(kept, 9));
    var n := DroppedOf(kept);
    SliceOfSlice(data, base, end, n);
    lo := base + n;
  }

  /** The final cut keeps one contiguous stretch, and which one. */
  lemma FinalCutIsSlice(data: seq<Byte>, cut: bool) returns (lo: nat, hi: nat)
    ensures lo <= hi <= |data| && hi - lo <= TAIL && FinalCut(data, cut) == data[lo..hi]
    ensures CutAt(data, cut, lo, hi)
  {
    var body := WithoutFinalNewline(data);
    hi := |body|;
    assert body == data[..hi];
    if hi > TAIL || cut {
      var base := Max(hi - TAIL, 0);
      assert Last(body, TAIL) == data[base..hi];
      lo := DropLeadingPartialDrops(data, base, hi);
    } else {
      lo := 0;
    }
  }

  /** There is only one such stretch. */
  lemma CutAtIsUnique(data: seq<Byte>, clipped: bool, lo: int, hi: int, lo': int, hi': int)
    requires CutAt(data, clipped, lo, hi) && CutAt(data, clipped, lo', hi')
    ensures lo == lo' && hi == hi'
  {
    if hi > TAIL || clipped {
      var base := if hi > TAIL then hi - TAIL else 0;
      assert WholeFrom(data, base, lo, hi) && WholeFrom(data, base, lo', hi);
    }
  }

  // ----- What `finish` returns, as a function of the whole stream -----

  /** Where the maximal hidden run that reaches `p` begins; `p` itself when nothing straddles it. */
  ghost function RunStart(hidden: iset<int>, p: nat): (s: nat)
    ensures s <= p
    ensures forall q :: s <= q < p ==> q in hidden
    ensures s < p ==> p in hidden
    ensures s > 0 && s in hidden ==> s - 1 !in hidden
  {
    if p > 0 && p in hidden && p - 1 in hidden then RunStart(hidden, p - 1) else p
  }

  function Keep(margin: nat): nat {
    TAIL + margin
  }

  /** Where the emitted window opens in the retained text, before widening. */
  function WindowStart(stream: Text, margin: nat): (r: nat)
    ensures r <= |Last(stream, Keep(margin))|
  {
    Max(if |stream| > Keep(margin) then margin else 0, |Last(stream, Keep(margin))| - TAIL)
  }

  ghost function Emitted(text: Text, hidden: iset<int>, start: nat): seq<Byte>
    requires start <= |text|
  {
    Encode(Redact(text[start..], hidden, start))
  }

  /** Redact `text` once, emit it from `window` widened back over a straddling span, and cut. */
  ghost function WindowOf(text: Text, window: nat, f: Option<SecretSpans>): seq<Byte>
    requires window <= |text|
  {
    var reported := if f.None? then Some([]) else f.value(text);
    if text == [] || reported.None? then []
    else
      var hidden := Positions(reported.value);
      var start := RunStart(hidden, window);
      FinalCut(Emitted(text, hidden, start), start > 0)
  }

  ghost function TailOf(stream: Text, margin: nat, f: Option<SecretSpans>): seq<Byte> {
    WindowOf(Last(stream, Keep(margin)), WindowStart(stream, margin), f)
  }

  /** The span that straddles `p`, if any, begins where the hidden run through `p` begins. */
  lemma RunStartOfMerged(m: seq<Span>, p: nat)
    requires Separated(m) && forall s :: s in m ==> 0 <= s.start
    ensures forall i :: 0 <= i < |m| && m[i].start < p < m[i].end ==> RunStart(Positions(m), p) == m[i].start
    ensures (forall i :: 0 <= i < |m| ==> !(m[i].start < p < m[i].end)) ==> RunStart(Positions(m), p) == p
  {
    var hidden := Positions(m);
    var s := RunStart(hidden, p);
    assert p in hidden ==> Covered(m, p);
    forall i | 0 <= i < |m| && m[i].start < p < m[i].end ensures s == m[i].start {
      assert forall q :: m[i].start <= q < m[i].end ==> Covered(m, q);
      FreeBeforeStart(m, i);
    }
    forall i | 0 <= i < |m| && m[i].start == p ensures p - 1 !in hidden {
      FreeBeforeStart(m, i);
    }
  }

  lemma FreeBeforeStart(m: seq<Span>, i: nat)
    requires Separated(m) && i < |m|
    ensures m[i].start - 1 !in Positions(m)
  {
  }

  /** Widen the window start back over a span straddling it. */
  method Widen(spans: seq<Span>, window: nat) returns (start: nat)
    requires Separated(spans) && forall s :: s in spans ==> 0 <= s.start
    ensures start == RunStart(Positions(spans), window)
  {
    start := window;
    RunStartOfMerged(spans, window);
    for k := 0 to |spans|
      invariant start == if exists i :: 0 <= i < k && spans[i].start < window < spans[i].end
                         then RunStart(Positions(spans), window) else window
      invariant k < |spans| && start != window ==> start < spans[k].start
    {
      if spans[k].start < start < spans[k].end {
        start := spans[k].start;
      }
    }
  }

  method CutTail(encoded: seq<Byte>, clipped: bool) returns (data: seq<Byte>)
    ensures data == FinalCut(encoded, clipped)
    ensures exists lo, hi :: CutAt(encoded, clipped, lo, hi) && data == encoded[lo..hi]
  {
    ghost var lo, hi := FinalCutIsSlice(encoded, clipped);
    var cut := clipped;
    data := encoded;
    if data != [] && data[|data| - 1] == 10 {
      data := data[..|data| - 1];
    }
    if |data| > TAIL {
      data, cut := data[|data| - TAIL..], true;
    }
    if cut {
      data := DropLeadingPartial(data);
    }
  }

  /** Raw keep-the-tail buffer. `stream` is everything ever appended. */
  class StderrTail {
    const margin: nat
    var parts: seq<Text>
    var chars: nat
    var trimmed: bool
    ghost var stream: Text

    ghost predicate Valid()
      reads this
    {
      && chars == |Join(parts)| <= 2 * Keep(margin)
      && Join(parts) == Last(stream, chars)
      && (trimmed ==> Keep(margin) <= chars && Keep(margin) < |stream|)
      && (!trimmed ==> chars == |stream|)
    }

    constructor (margin: nat)
      ensures Valid() && this.margin == margin && stream == []
    {
      this.margin := margin;
      parts, chars, trimmed, stream := [], 0, false, [];
    }

    method Append(text: Text)
      requires Valid()
      modifies this
      ensures Valid() && stream == old(stream) + text
    {
      parts := parts + [text];
      chars := chars + |text|;
      stream := stream + text;
      assert parts[..|parts| - 1] == old(parts);
      assert Join(parts) == Last(stream, chars);
      if chars > 2 * Keep(margin) {
        Trim();
      }
    }

    method Trim()
      requires chars == |Join(parts)| > Keep(margin)
      requires Join(parts) == Last(stream, chars) && chars <= |stream|
      modifies this
      ensures Valid() && stream == old(stream) && trimmed && chars == Keep(margin)
    {
      var text := Last(Join(parts), Keep(margin));
      parts, chars, trimmed := [text], |text|, true;
      assert Join([text]) == text by {
        assert Join([text][..0]) == [];
      }
    }

    /**
     * Redact once and cut. However the stream was chunked, the buffer then holds exactly its last
     * `TAIL + margin` characters, and the result is a function of the stream alone.
     */
    method Finish(secretSpans: Option<SecretSpans>) returns (data: seq<Byte>)
      requires Valid()
      requires secretSpans.Some? ==> ReportsPositions(secretSpans.value)
      modifies this
      ensures Valid() && stream == old(stream)
      ensures Join(parts) == Last(stream, Keep(margin))
      ensures data == TailOf(stream, margin, secretSpans)
    {
      if chars > Keep(margin) {
        Trim();
      }
      assert trimmed <==> |stream| > Keep(margin);
      var text := Join(parts);
      assert text == Last(stream, Keep(margin));
      if text == [] {
        assert TailOf(stream, margin, secretSpans) == [];
        return [];
      }
      assert Max(if trimmed then margin else 0, |text| - TAIL) == WindowStart(stream, margin);
      data := EmitWindow(text, Max(if trimmed then margin else 0, |text| - TAIL), secretSpans);
    }
  }

  /** The redacting half of `finish`. */
  method EmitWindow(text: Text, window: nat, secretSpans: Option<SecretSpans>) returns (data: seq<Byte>)
    requires window <= |text| && text != []
    requires secretSpans.Some? ==> ReportsPositions(secretSpans.value)
    ensures data == WindowOf(text, window, secretSpans)
  {
    var reported := Some([]);
    if secretSpans.Some? {
      reported := secretSpans.value(text);
      if reported.None? {
        return [];
      }
    }
    var spans := MergeSpans(reported.value);
    MergedInText(reported.value, spans, text);
    var start := Widen(spans, window);
    var redacted := ApplySpans(text[start..], spans, start);
    data := CutTail(Encode(redacted), start > 0);
  }

  lemma MergedInText(spans: seq<Span>, m: seq<Span>, text: Text)
    requires InText(spans, text) && Separated(m) && Positions(m) == Positions(spans)
    ensures InText(m, text)
  {
    forall s | s in m ensures 0 <= s.start && s.end <= |text| {
      var i :| 0 <= i < |m| && m[i] == s;
      assert Covered(m, s.start) && Covered(m, s.end - 1);
      assert s.start in Positions(spans) && s.end - 1 in Positions(spans);
    }
  }
}

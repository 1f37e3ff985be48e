/**
 * What leaves the Worker after the events scan: with one snapshot of the registry, every occurrence of
 * every registered literal is hidden on each of the scan's output faces (shared/pi_events_scan.py,
 * worker/upload/prepare.py).
 */
module EventsSecrecy {
  import opened Basics
  import opened EventsScan
  import opened Redaction
  import opened SecretRegistry
  import opened StderrTailProofs
  import opened Utf8
  import J = JsonRedaction
  import S = StderrTail

  /** `out` is `text` with at least every position of every occurrence of a literal replaced. */
  ghost predicate HidesWith(text: Text, out: Text, literals: set<Text>, hidden: iset<int>) {
    SecretPositions(text, literals) <= hidden && out == Redact(text, hidden, 0)
  }

  ghost predicate Hides(text: Text, out: Text, literals: set<Text>) {
    exists hidden :: HidesWith(text, out, literals, hidden)
  }

  lemma RedactHides(redactor: Redactor, text: Text, literals: set<Text>)
    requires Protects(redactor, literals) && redactor.redact(text).Some?
    ensures Hides(text, redactor.redact(text).value, literals)
  {
    if text == [] {
      assert HidesWith(text, [], literals, SecretPositions(text, literals));
    } else {
      assert HidesWith(text, redactor.redact(text).value, literals, Positions(redactor.spans(text).value));
    }
  }

  // ----- The rewritten file -----

  /** The same value with each of its strings, keys included, hidden. */
  ghost predicate HiddenValue(v: J.Json, out: J.Json, literals: set<Text>) {
    && J.Shape(out) == J.Shape(v) && |J.Strings(out)| == |J.Strings(v)|
    && forall i :: 0 <= i < |J.Strings(v)| ==> Hides(J.Strings(v)[i], J.Strings(out)[i], literals)
  }

  lemma {:induction false} RedactedAllAt(strings: seq<Text>, red: J.Redactor, i: nat)
    requires J.Readable(strings, red) && i < |strings|
    ensures |J.RedactedAll(strings, red)| == |strings| && J.RedactedAll(strings, red)[i] == red(strings[i]).value
  {
  }

  lemma RedactedIsHidden(redactor: Redactor, v: J.Json, literals: set<Text>)
    requires Protects(redactor, literals) && J.RedactJson(v, redactor.redact).Some?
    ensures HiddenValue(v, J.RedactJson(v, redactor.redact).value, literals)
  {
    J.RedactsEveryString(v, redactor.redact);
    var strings := J.Strings(v);
    if strings != [] {
      RedactedAllAt(strings, redactor.redact, 0);
    }
    forall i | 0 <= i < |strings|
      ensures Hides(strings[i], J.Strings(J.RedactJson(v, redactor.redact).value)[i], literals)
    {
      RedactedAllAt(strings, redactor.redact, i);
      RedactHides(redactor, strings[i], literals);
    }
  }

  /**
   * A line of the file: a relevant event written out with its strings hidden, or the event's own line
   * where hiding them changes none.
   */
  ghost predicate LineHides(codec: Codec, raw: Text, out: Text, v: J.Json, literals: set<Text>) {
    var line := codec.strip(raw);
    && codec.parse(line).Event? && HiddenValue(codec.parse(line).event, v, literals)
    && (out == codec.dump(v) || (out == line && v == codec.parse(line).event))
  }

  ghost predicate SomeLineHides(codec: Codec, lines: seq<Text>, out: Text, literals: set<Text>) {
    exists i, v :: 0 <= i < |lines| && LineHides(codec, lines[i], out, v, literals)
  }

  ghost predicate FileHides(codec: Codec, lines: seq<Text>, kept: seq<Text>, literals: set<Text>) {
    forall k :: 0 <= k < |kept| ==> SomeLineHides(codec, lines, kept[k], literals)
  }

  lemma OutputHides(codec: Codec, redactor: Redactor, lines: seq<Text>, writing: nat -> bool, literals: set<Text>)
    requires Protects(redactor, literals)
    ensures FileHides(codec, lines, Output(codec, Some(redactor), lines, writing), literals)
  {
    var kept := Output(codec, Some(redactor), lines, writing);
    forall k | 0 <= k < |kept| ensures SomeLineHides(codec, lines, kept[k], literals) {
      var i := OutputIsRedacted(codec, redactor, lines, writing, k);
      var event := codec.parse(codec.strip(lines[i])).event;
      RedactedIsHidden(redactor, event, literals);
      assert LineHides(codec, lines[i], kept[k], J.RedactJson(event, redactor.redact).value, literals);
    }
  }

  // ----- The attribution, the tail and the sink -----

  ghost predicate ErrorHides(error: Option<Text>, out: Option<Text>, literals: set<Text>) {
    match out
    case None => error.None?
    case Some(text) => error.Some? && (text == REDACTION_FAILED || Hides(error.value, text, literals))
  }

  lemma AttributionHides(redactor: Redactor, error: Option<Text>, literals: set<Text>)
    requires Protects(redactor, literals)
    ensures ErrorHides(error, Attribution(Some(redactor), error), literals)
  {
    if error.Some? && redactor.redact(error.value).Some? {
      RedactHides(redactor, error.value, literals);
    }
  }

  ghost predicate SliceHides(
    stream: Text, tail: seq<Byte>, literals: set<Text>, from: nat, hidden: iset<int>, lo: nat, hi: nat)
  {
    && from <= |stream| && (forall p :: p >= from && p in SecretPositions(stream, literals) ==> p in hidden)
    && lo <= hi <= |Encode(Redact(stream[from..], hidden, from))|
    && tail == Encode(Redact(stream[from..], hidden, from))[lo..hi]
  }

  /** The tail is empty, or a stretch of the stream's encoding with every occurrence in the whole stream hidden. */
  ghost predicate TailHides(stream: Text, tail: seq<Byte>, literals: set<Text>) {
    tail == [] || exists from, hidden, lo, hi :: SliceHides(stream, tail, literals, from, hidden, lo, hi)
  }

  lemma TailIsHidden(codec: Codec, redactor: Redactor, lines: seq<Text>, literals: set<Text>)
    requires Protects(redactor, literals)
    ensures TailHides(Stray(codec, lines), Tail(codec, Some(redactor), lines), literals)
  {
    var stream, margin := Stray(codec, lines), Margin(Some(redactor));
    var text := S.Last(stream, S.Keep(margin));
    if stream != [] && redactor.spans(text).Some? {
      var from, hidden, lo, hi := NoSecretEscapes(stream, margin, literals, redactor.spans);
      assert SliceHides(stream, Tail(codec, Some(redactor), lines), literals, from, hidden, lo, hi);
    }
  }

  // ----- The scan as the upload lane calls it -----

  /** Nothing of the raw stream but what is hidden: the file, the attribution and the tail. */
  ghost predicate Hidden(
    codec: Codec, lines: seq<Text>, events: Option<Content>, r: Result, literals: set<Text>)
    requires r.Result?
  {
    && (events.Some? && events.value.Rewritten? ==> FileHides(codec, lines, events.value.kept, literals))
    && (r.modelError.None? || ErrorHides(ModelError(codec, lines), r.modelError, literals))
    && TailHides(Stray(codec, lines), r.tail, literals)
  }

  /** Raw text is in the file. */
  predicate RawSurvives(events: Option<Content>) {
    events.Some? && events.value.Raw? && events.value.size > 0
  }

  /** The sink is as it was, or holds a hidden tail. */
  ghost predicate SinkHides(
    codec: Codec, lines: seq<Text>, before: Option<seq<Byte>>, after: Option<seq<Byte>>, literals: set<Text>)
  {
    after == before || (after.Some? && TailHides(Stray(codec, lines), after.value, literals))
  }

  function LinesOf(events: Option<Content>): seq<Text> {
    if events.Some? && events.value.Raw? then events.value.lines else []
  }

  /**
   * The scan with one snapshot and the guard after it. Whichever operations fail: if the result is
   * built, no raw text is in the run directory, and the file, the attribution, the tail and the sink
   * hide every occurrence of every literal.
   */
  method ScanForUpload(dir: EventsDir, codec: Codec, redactor: Redactor, faults: Faults, ghost literals: set<Text>)
    returns (built: bool, r: Result)
    requires S.ReportsPositions(redactor.spans) && Protects(redactor, literals)
    requires dir.events.Some? ==> dir.events.value.Raw?
    modifies dir
    ensures built ==> r.Result? && !RawSurvives(dir.events)
    ensures built ==> Hidden(codec, LinesOf(old(dir.events)), dir.events, r, literals)
    ensures built ==> SinkHides(codec, LinesOf(old(dir.events)), old(dir.sink), dir.sink, literals)
  {
    ghost var lines := LinesOf(dir.events);
    OutputHides(codec, redactor, lines, faults.writing, literals);
    AttributionHides(redactor, ModelError(codec, lines), literals);
    TailIsHidden(codec, redactor, lines, literals);
    r := dir.ScanAndCompress(codec, Some(redactor), true, faults);
    built := r.Result? && !(r.original == 0 && RawSurvives(dir.events));
  }
}

/** The scan that compresses an agent's events file, and the states it leaves the file in (shared/pi_events_scan.py). */
module EventsScan {
  import opened Basics
  import opened Redaction
  import opened Utf8
  import J = JsonRedaction
  import S = StderrTail

  const REDACT_WINDOW_MARGIN: nat := 512

  /** "model error (redaction failed)" */
  const REDACTION_FAILED: Text := [
    109, 111, 100, 101, 108, 32, 101, 114, 114, 111, 114, 32, 40, 114, 101, 100, 97, 99, 116, 105, 111, 110, 32,
    102, 97, 105, 108, 101, 100, 41]

  /** One immutable snapshot of the secret registry. */
  datatype Redactor = Redactor(spans: S.SecretSpans, redact: J.Redactor, maxChars: nat)

  datatype Parsed = NotAnObject | Event(event: J.Json) | Raises

  /** The parts of JSON and of the event vocabulary the scan relies on. */
  datatype Codec = Codec(
    strip: Text -> Text, parse: Text -> Parsed,
    dump: J.Json -> Text, writable: Text -> bool,
    relevant: J.Json -> bool, fold: (J.Json, Option<Text>) -> Option<Text>)

  /** Which operation fails, for every operation of a run; per line where it is per line. */
  datatype Faults = Faults(
    opening: bool, reading: nat -> bool, observing: nat -> bool, writing: nat -> bool, syncing: bool,
    persisting: bool, replacing: bool, unlinking: bool, truncating: bool, measuring: bool)

  datatype Content = Raw(lines: seq<Text>, size: nat) | Rewritten(kept: seq<Text>) | Truncated

  /** The fields the caller gets, or an exception that escapes. */
  datatype Result =
    | Result(modelError: Option<Text>, original: nat, tail: seq<Byte>)
    | Escaped

  const NOTHING := Result(None, 0, [])

  // ----- What one pass over the lines computes -----

  /** The line to write for a relevant event; `None` drops it. */
  function KeptLine(codec: Codec, redactor: Option<Redactor>, event: J.Json, line: Text): Option<Text> {
    var redacted := if redactor.None? then Some(event) else J.RedactJson(event, redactor.value.redact);
    if redacted.None? then None
    else
      var out := if redacted.value == event then line else codec.dump(redacted.value);
      if codec.writable(out) then Some(out) else None
  }

  function LineOutput(codec: Codec, redactor: Option<Redactor>, raw: Text, failing: bool): seq<Text> {
    var line := codec.strip(raw);
    match codec.parse(line)
    case Event(event) =>
      if !codec.relevant(event) || failing then []
      else
        var kept := KeptLine(codec, redactor, event, line);
        if kept.None? then [] else [kept.value]
    case _ => []
  }

  function LineStray(codec: Codec, raw: Text): Text {
    if codec.parse(codec.strip(raw)).NotAnObject? then raw else []
  }

  function Output(codec: Codec, redactor: Option<Redactor>, lines: seq<Text>, writing: nat -> bool): seq<Text> {
    if lines == [] then []
    else
      var n := |lines| - 1;
      Output(codec, redactor, lines[..n], writing) + LineOutput(codec, redactor, lines[n], writing(n))
  }

  /** Everything that is not a JSON object, verbatim and in order. */
  function Stray(codec: Codec, lines: seq<Text>): Text {
    if lines == [] then [] else Stray(codec, lines[..|lines| - 1]) + LineStray(codec, lines[|lines| - 1])
  }

  function LineFold(codec: Codec, raw: Text, before: Option<Text>): Option<Text> {
    match codec.parse(codec.strip(raw))
    case Event(event) => codec.fold(event, before)
    case _ => before
  }

  function ModelError(codec: Codec, lines: seq<Text>): Option<Text> {
    if lines == [] then None
    else LineFold(codec, lines[|lines| - 1], ModelError(codec, lines[..|lines| - 1]))
  }

  /** Some line makes the whole scan fail. */
  predicate LineFails(codec: Codec, lines: seq<Text>, faults: Faults, i: nat)
    requires i < |lines|
  {
    var parsed := codec.parse(codec.strip(lines[i]));
    faults.reading(i) || parsed.Raises? || (parsed.Event? && faults.observing(i))
  }

  /** The line can be read, parsing it does not raise, and an observer lets an event through. */
  ghost predicate LineOk(codec: Codec, lines: seq<Text>, faults: Faults, i: nat)
    requires i < |lines|
  {
    && !faults.reading(i) && !codec.parse(codec.strip(lines[i])).Raises?
    && (codec.parse(codec.strip(lines[i])).Event? ==> !faults.observing(i))
  }

  /** So do the first `n` lines. */
  ghost predicate LinesOk(codec: Codec, lines: seq<Text>, faults: Faults, n: nat)
    requires n <= |lines|
  {
    forall i: nat :: i < n ==> LineOk(codec, lines, faults, i)
  }

  lemma NextLineOk(codec: Codec, lines: seq<Text>, faults: Faults, n: nat)
    requires n < |lines| && LinesOk(codec, lines, faults, n)
    ensures LinesOk(codec, lines, faults, n + 1) <==> !LineFails(codec, lines, faults, n)
    ensures LineFails(codec, lines, faults, n) ==> !LinesOk(codec, lines, faults, |lines|)
  {
    assert LineFails(codec, lines, faults, n) <==> !LineOk(codec, lines, faults, n);
  }

  /** The documented lookback, or the longest literal if that is longer. */
  function Margin(redactor: Option<Redactor>): (r: nat)
    ensures 512 <= r && (redactor.Some? ==> redactor.value.maxChars <= r)
    ensures r == 512 || (redactor.Some? && r == redactor.value.maxChars)
  {
    Max(REDACT_WINDOW_MARGIN, if redactor.None? then 0 else redactor.value.maxChars)
  }

  function Spans(redactor: Option<Redactor>): Option<S.SecretSpans> {
    if redactor.None? then None else Some(redactor.value.spans)
  }

  ghost function Tail(codec: Codec, redactor: Option<Redactor>, lines: seq<Text>): seq<Byte> {
    S.TailOf(Stray(codec, lines), Margin(redactor), Spans(redactor))
  }

  /** The attribution that leaves the scan: redacted, or a fixed text when that fails. */
  function Attribution(redactor: Option<Redactor>, error: Option<Text>): Option<Text> {
    if error.None? || error.value == [] || redactor.None? then error
    else if redactor.value.redact(error.value).None? then Some(REDACTION_FAILED)
    else redactor.value.redact(error.value)
  }

  // ----- The directory -----

  /** What a kill at some point would leave behind. */
  datatype View = View(events: Option<Content>, sink: Option<seq<Byte>>)

  class EventsDir {
    var events: Option<Content>
    var staging: Option<seq<Text>>
    var sink: Option<seq<Byte>>
    ghost var trail: seq<View>

    /** Note what is on disk now. */
    method Mark()
      modifies `trail
      ensures trail == old(trail) + [View(events, sink)]
    {
      trail := trail + [View(events, sink)];
    }

    /** One line that goes through: fold, capture or write. */
    method TakeLine(
      codec: Codec, redactor: Option<Redactor>, raw: Text, failing: bool, before: Option<Text>, stderr: S.StderrTail)
      returns (after: Option<Text>)
      requires stderr.Valid() && staging.Some? && !codec.parse(codec.strip(raw)).Raises?
      modifies `staging, stderr
      ensures stderr.Valid() && stderr.stream == old(stderr.stream) + LineStray(codec, raw)
      ensures staging == Some(old(staging.value) + LineOutput(codec, redactor, raw, failing))
      ensures after == LineFold(codec, raw, before)
    {
      var line := codec.strip(raw);
      after := before;
      var parsed := codec.parse(line);
      if parsed.Event? {
        after := codec.fold(parsed.event, before);
        staging := Some(staging.value + LineOutput(codec, redactor, raw, failing));
        assert stderr.stream + [] == stderr.stream;
      } else {
        stderr.Append(raw);
        assert staging.value + [] == staging.value;
      }
    }

    /** The line loop: fold the error state, capture strays, write kept events to the staging file. */
    method ReadLines(codec: Codec, redactor: Option<Redactor>, lines: seq<Text>, faults: Faults)
      returns (ok: bool, modelError: Option<Text>, stderr: S.StderrTail)
      modifies `staging
      ensures fresh(stderr) && stderr.Valid() && stderr.margin == Margin(redactor)
      ensures ok <==> LinesOk(codec, lines, faults, |lines|)
      ensures ok ==> staging == Some(Output(codec, redactor, lines, faults.writing))
      ensures ok ==> stderr.stream == Stray(codec, lines) && modelError == ModelError(codec, lines)
    {
      stderr := new S.StderrTail(Margin(redactor));
      modelError := None;
      staging := Some([]);
      for i := 0 to |lines|
        invariant fresh(stderr) && stderr.Valid() && stderr.margin == Margin(redactor)
        invariant LinesOk(codec, lines, faults, i)
        invariant Upto(codec, redactor, lines, faults.writing, i, staging, stderr.stream, modelError)
      {
        NextLineOk(codec, lines, faults, i);
        if LineFails(codec, lines, faults, i) {
          return false, modelError, stderr;
        }
        OneMoreLine(codec, redactor, lines, faults.writing, i, staging, stderr.stream, modelError);
        modelError := TakeLine(codec, redactor, lines[i], faults.writing(i), modelError, stderr);
      }
      assert lines[..|lines|] == lines;
      ok := true;
    }

    /** The one arm every internal failure ends in: clear the staging file, destroy the raw text. */
    method FailWhole(redactor: Option<Redactor>, faults: Faults)
      modifies this
      ensures sink == old(sink)
      ensures events == if redactor.Some? && !faults.truncating then Some(Truncated) else old(events)
      ensures staging == if faults.unlinking then old(staging) else None
      ensures trail == old(trail) + [View(events, sink)]
    {
      if !faults.unlinking {
        staging := None;
      }
      if redactor.Some? && !faults.truncating {
        events := Some(Truncated);
      }
      Mark();
    }

    /** Make the tail durable before the rewrite; an unwritable sink is only logged. */
    method PersistTail(wantSink: bool, tail: seq<Byte>, faults: Faults)
      modifies `sink, `trail
      ensures sink == if wantSink && tail != [] && !faults.persisting then Some(tail) else old(sink)
      ensures trail == old(trail) + [View(events, sink)]
    {
      if wantSink && tail != [] && !faults.persisting {
        sink := Some(tail);
      }
      Mark();
    }

    /** Swap the finished staging file in. */
    method Replace(faults: Faults) returns (ok: bool)
      requires staging.Some?
      modifies this
      ensures ok == !faults.replacing && sink == old(sink)
      ensures ok ==> events == Some(Rewritten(old(staging.value))) && staging.None?
      ensures !ok ==> events == old(events) && staging == old(staging)
      ensures trail == old(trail) + [View(events, sink)]
    {
      ok := !faults.replacing;
      if ok {
        events, staging := Some(Rewritten(staging.value)), None;
      }
      Mark();
    }

    /** The pass itself: a complete staging file, the attribution and the tail, or a failure. */
    method Gather(codec: Codec, redactor: Option<Redactor>, lines: seq<Text>, faults: Faults)
      returns (ok: bool, modelError: Option<Text>, tail: seq<Byte>)
      requires redactor.Some? ==> S.ReportsPositions(redactor.value.spans)
      modifies `staging
      ensures ok <==> Gathers(codec, lines, faults)
      ensures ok ==>
                modelError == Attribution(redactor, ModelError(codec, lines)) && tail == Tail(codec, redactor, lines)
      ensures ok ==> staging == Some(Output(codec, redactor, lines, faults.writing))
    {
      if faults.opening {
        return false, None, [];
      }
      var read, error, stderr := ReadLines(codec, redactor, lines, faults);
      if !read || faults.syncing {
        return false, None, [];
      }
      modelError := Attribution(redactor, error);
      tail := stderr.Finish(Spans(redactor));
      ok := true;
    }

    /**
     * The pass over a nonempty file up to the swap; on a failure nothing but the staging file and the sink has
     * changed.
     */
    method Rewrite(codec: Codec, redactor: Option<Redactor>, lines: seq<Text>, wantSink: bool, faults: Faults)
      returns (ok: bool, modelError: Option<Text>, tail: seq<Byte>)
      requires redactor.Some? ==> S.ReportsPositions(redactor.value.spans)
      modifies this
      ensures ok <==> Succeeds(codec, lines, faults)
      ensures ok ==>
                modelError == Attribution(redactor, ModelError(codec, lines)) && tail == Tail(codec, redactor, lines)
      ensures ok ==> events == Some(Rewritten(Output(codec, redactor, lines, faults.writing))) && staging.None?
      ensures ok ==> sink == SinkAfter(old(sink), wantSink, faults, tail)
      ensures !ok ==> events == old(events)
      ensures !ok ==> sink == SinkOnFailure(codec, redactor, lines, wantSink, faults, old(sink))
      ensures ok ==> trail == old(trail) + [View(old(events), sink), View(events, sink)]
    {
      ok, modelError, tail := Gather(codec, redactor, lines, faults);
      if !ok {
        return;
      }
      PersistTail(wantSink, tail, faults);
      ok := Replace(faults);
    }

    /** A nonempty file: rewritten, or what a whole-scan failure leaves. */
    method ScanNonempty(codec: Codec, redactor: Option<Redactor>, wantSink: bool, faults: Faults) returns (r: Result)
      requires redactor.Some? ==> S.ReportsPositions(redactor.value.spans)
      requires Scans(events) && trail == [View(events, sink)]
      modifies this
      ensures Succeeds(codec, old(events).value.lines, faults) ==>
                && Rewrote(codec, redactor, old(events).value, wantSink, faults, old(sink), r)
                && (wantSink && !faults.persisting ==>
                      AlwaysRecoverable(trail, old(events), Tail(codec, redactor, old(events).value.lines)))
      ensures !Succeeds(codec, old(events).value.lines, faults) ==>
                FailedWhole(codec, redactor, old(events), wantSink, faults, old(sink), r)
    {
      ghost var before, sinkBefore := events, sink;
      var raw := events.value;
      var ok, modelError, tail := Rewrite(codec, redactor, raw.lines, wantSink, faults);
      if ok {
        r := Report(codec, redactor, raw, wantSink, faults, modelError, tail, sinkBefore);
      } else {
        r := GiveUp(codec, redactor, wantSink, faults, before, sinkBefore);
      }
    }

    /** What the caller gets for a rewritten file; the last stat may raise. */
    method Report(
      codec: Codec, redactor: Option<Redactor>, raw: Content, wantSink: bool, faults: Faults, modelError: Option<Text>,
      tail: seq<Byte>, ghost sinkBefore: Option<seq<Byte>>)
      returns (r: Result)
      requires raw.Raw? && staging.None? && tail == Tail(codec, redactor, raw.lines)
      requires modelError == Attribution(redactor, ModelError(codec, raw.lines))
      requires events == Some(Rewritten(Output(codec, redactor, raw.lines, faults.writing)))
      requires sink == SinkAfter(sinkBefore, wantSink, faults, tail)
      requires trail == [View(Some(raw), sinkBefore), View(Some(raw), sink), View(events, sink)]
      ensures Rewrote(codec, redactor, raw, wantSink, faults, sinkBefore, r)
      ensures wantSink && !faults.persisting ==>
                AlwaysRecoverable(trail, Some(raw), Tail(codec, redactor, raw.lines))
    {
      r := if faults.measuring then Escaped else Result(modelError, raw.size, tail);
      if wantSink && !faults.persisting {
        RecoverableAtBoth(trail, Some(raw), sinkBefore, events, sink, tail);
      }
    }

    /** The failure arm. */
    method GiveUp(
      codec: Codec, redactor: Option<Redactor>, wantSink: bool, faults: Faults, ghost eventsBefore: Option<Content>,
      ghost sinkBefore: Option<seq<Byte>>)
      returns (r: Result)
      requires Scans(eventsBefore) && events == eventsBefore
      requires sink == SinkOnFailure(codec, redactor, eventsBefore.value.lines, wantSink, faults, sinkBefore)
      modifies this
      ensures FailedWhole(codec, redactor, eventsBefore, wantSink, faults, sinkBefore, r)
    {
      FailWhole(redactor, faults);
      r := NOTHING;
    }

    /** The file holds exactly the kept lines, and the caller gets its facts unless the last stat raises. */
    ghost predicate Rewrote(
      codec: Codec, redactor: Option<Redactor>, raw: Content, wantSink: bool, faults: Faults,
      sinkBefore: Option<seq<Byte>>, r: Result)
      requires raw.Raw?
      reads this
    {
      && events == Some(Rewritten(Output(codec, redactor, raw.lines, faults.writing))) && staging.None?
      && sink == SinkAfter(sinkBefore, wantSink, faults, Tail(codec, redactor, raw.lines))
      && r == (if faults.measuring then Escaped
               else Result(Attribution(redactor, ModelError(codec, raw.lines)), raw.size,
                   Tail(codec, redactor, raw.lines)))
    }

    /** Nothing is returned; the raw text is destroyed when a redactor was promised and truncation works. */
    ghost predicate FailedWhole(
      codec: Codec, redactor: Option<Redactor>, eventsBefore: Option<Content>, wantSink: bool, faults: Faults,
      sinkBefore: Option<seq<Byte>>, r: Result)
      requires Scans(eventsBefore)
      reads this
    {
      && sink == SinkOnFailure(codec, redactor, eventsBefore.value.lines, wantSink, faults, sinkBefore)
      && r == NOTHING && (!faults.unlinking ==> staging.None?)
      && events == if redactor.Some? && !faults.truncating then Some(Truncated) else eventsBefore
    }

    /**
     * The whole scan, whichever operations fail. The file is left absent, empty, fully rewritten,
     * or raw only without a redactor or when the truncation itself failed; a positive original size
     * comes back only when it was rewritten. When nothing raises, at every kill point the raw file or
     * the persisted tail is there.
     */
    method ScanAndCompress(codec: Codec, redactor: Option<Redactor>, wantSink: bool, faults: Faults) returns (r: Result)
      requires redactor.Some? ==> S.ReportsPositions(redactor.value.spans)
      requires events.Some? ==> events.value.Raw?
      modifies this
      ensures !Scans(old(events)) ==>
                r == NOTHING && events == old(events) && staging == old(staging) && sink == old(sink)
      ensures Scans(old(events)) && Succeeds(codec, old(events).value.lines, faults) ==>
                && Rewrote(codec, redactor, old(events).value, wantSink, faults, old(sink), r)
                && (wantSink && !faults.persisting ==>
                      AlwaysRecoverable(trail, old(events), Tail(codec, redactor, old(events).value.lines)))
      ensures Scans(old(events)) && !Succeeds(codec, old(events).value.lines, faults) ==>
                FailedWhole(codec, redactor, old(events), wantSink, faults, old(sink), r)
      ensures r.Result? && r.original > 0 ==> events.Some? && events.value.Rewritten?
    {
      trail := [];
      Mark();
      if events.None? || events.value.size == 0 {
        return NOTHING;
      }
      r := ScanNonempty(codec, redactor, wantSink, faults);
    }
  }

  predicate Scans(events: Option<Content>) {
    events.Some? && events.value.Raw? && events.value.size > 0
  }

  /** The pass over the lines goes through. */
  ghost predicate Gathers(codec: Codec, lines: seq<Text>, faults: Faults) {
    !faults.opening && LinesOk(codec, lines, faults, |lines|) && !faults.syncing
  }

  /** No operation the scan depends on fails. */
  ghost predicate Succeeds(codec: Codec, lines: seq<Text>, faults: Faults) {
    Gathers(codec, lines, faults) && !faults.replacing
  }

  /** When the swap fails the tail has been persisted already; before that the sink is untouched. */
  ghost function SinkOnFailure(
    codec: Codec, redactor: Option<Redactor>, lines: seq<Text>, wantSink: bool, faults: Faults, sink: Option<seq<Byte>>)
    : Option<seq<Byte>>
  {
    if Gathers(codec, lines, faults) then SinkAfter(sink, wantSink, faults, Tail(codec, redactor, lines)) else sink
  }

  function SinkAfter(sink: Option<seq<Byte>>, wantSink: bool, faults: Faults, tail: seq<Byte>): Option<seq<Byte>> {
    if wantSink && tail != [] && !faults.persisting then Some(tail) else sink
  }

  /** At every kill point either the raw file or the persisted tail is there, unless there is no tail to lose. */
  ghost predicate AlwaysRecoverable(trail: seq<View>, raw: Option<Content>, tail: seq<Byte>) {
    forall i :: 0 <= i < |trail| ==> trail[i].events == raw || tail == [] || trail[i].sink == Some(tail)
  }

  lemma RecoverableAtBoth(
    trail: seq<View>, raw: Option<Content>, sinkBefore: Option<seq<Byte>>, events: Option<Content>,
    sink: Option<seq<Byte>>, tail: seq<Byte>)
    requires trail == [View(raw, sinkBefore), View(raw, sink), View(events, sink)]
    requires tail != [] ==> sink == Some(tail)
    ensures AlwaysRecoverable(trail, raw, tail)
  {
  }

  // ----- What reaches the rewritten file -----

  /** The line is a relevant event's own line that redaction leaves alone, or a redacted event written out. */
  ghost predicate Clean(codec: Codec, redactor: Redactor, raw: Text, out: Text) {
    var line := codec.strip(raw);
    && codec.parse(line).Event? && codec.relevant(codec.parse(line).event) && codec.writable(out)
    && var redacted := J.RedactJson(codec.parse(line).event, redactor.redact);
    && redacted.Some?
    && if redacted.value == codec.parse(line).event then out == line else out == codec.dump(redacted.value)
  }

  /** Every line of the rewritten file comes from one line of the raw file, redacted. */
  lemma {:induction false} OutputIsRedacted(
    codec: Codec, redactor: Redactor, lines: seq<Text>, writing: nat -> bool, k: nat) returns (i: nat)
    requires k < |Output(codec, Some(redactor), lines, writing)|
    ensures i < |lines| && !writing(i)
            && Clean(codec, redactor, lines[i], Output(codec, Some(redactor), lines, writing)[k])
  {
    var n := |lines| - 1;
    var before := Output(codec, Some(redactor), lines[..n], writing);
    if k < |before| {
      i := OutputIsRedacted(codec, redactor, lines[..n], writing, k);
    } else {
      i := n;
    }
  }

  // ----- Nothing is lost -----

  /**
   * What a line is written as: a relevant event that can be redacted and written, as its own line if
   * redaction leaves it alone or there is no redactor, otherwise as the redacted event.
   */
  ghost predicate WrittenAs(codec: Codec, redactor: Option<Redactor>, raw: Text, failing: bool, out: Text) {
    var line := codec.strip(raw);
    && !failing && codec.parse(line).Event? && codec.relevant(codec.parse(line).event) && codec.writable(out)
    && (redactor.None? ==> out == line)
    && (redactor.Some? ==>
          var redacted := J.RedactJson(codec.parse(line).event, redactor.value.redact);
          && redacted.Some?
          && out == if redacted.value == codec.parse(line).event then line else codec.dump(redacted.value))
  }

  /** No form of the line can be written. */
  ghost predicate Unwritten(codec: Codec, redactor: Option<Redactor>, raw: Text, failing: bool) {
    forall out :: !WrittenAs(codec, redactor, raw, failing, out)
  }

  lemma LineOutputIs(codec: Codec, redactor: Option<Redactor>, raw: Text, failing: bool)
    ensures var out := LineOutput(codec, redactor, raw, failing);
            if out == [] then Unwritten(codec, redactor, raw, failing)
            else |out| == 1 && WrittenAs(codec, redactor, raw, failing, out[0])
  {
  }

  ghost predicate Ascending(at: seq<nat>, n: nat) {
    && (forall k :: 0 <= k < |at| ==> at[k] < n)
    && (forall j, k :: 0 <= j < k < |at| ==> at[j] < at[k])
  }

  lemma AscendingSnoc(at: seq<nat>, n: nat)
    requires Ascending(at, n)
    ensures Ascending(at, n + 1) && Ascending(at + [n], n + 1)
  {
  }

  /** The lines `at` are written, in this order, as `kept`, and no other of the lines can be. */
  ghost predicate Accounts(codec: Codec, redactor: Option<Redactor>, lines: seq<Text>, writing: nat -> bool,
      at: seq<nat>, kept: seq<Text>)
  {
    && |at| == |kept| && Ascending(at, |lines|)
    && (forall k :: 0 <= k < |at| ==> WrittenAs(codec, redactor, lines[at[k]], writing(at[k]), kept[k]))
    && (forall i: nat :: i < |lines| && i !in at ==> Unwritten(codec, redactor, lines[i], writing(i)))
  }

  lemma AccountsSnoc(codec: Codec, redactor: Option<Redactor>, lines: seq<Text>, writing: nat -> bool,
      at: seq<nat>, kept: seq<Text>)
    requires lines != [] && Accounts(codec, redactor, lines[..|lines| - 1], writing, at, kept)
    ensures var n := |lines| - 1;
            var out := LineOutput(codec, redactor, lines[n], writing(n));
            Accounts(codec, redactor, lines, writing, at + (if out == [] then [] else [n]), kept + out)
  {
    var n := |lines| - 1;
    LineOutputIs(codec, redactor, lines[n], writing(n));
    AscendingSnoc(at, n);
    assert forall i: nat :: i < n ==> lines[..n][i] == lines[i];
    if LineOutput(codec, redactor, lines[n], writing(n)) == [] {
      assert at + [] == at && kept + [] == kept;
    }
  }

  /** The rewritten file holds every line that can be written, and no other, in the order of the lines. */
  lemma {:induction false} OutputIsComplete(
    codec: Codec, redactor: Option<Redactor>, lines: seq<Text>, writing: nat -> bool) returns (at: seq<nat>)
    ensures Accounts(codec, redactor, lines, writing, at, Output(codec, redactor, lines, writing))
  {
    at := [];
    if lines != [] {
      var n := |lines| - 1;
      at := OutputIsComplete(codec, redactor, lines[..n], writing);
      AccountsSnoc(codec, redactor, lines, writing, at, Output(codec, redactor, lines[..n], writing));
      at := at + if LineOutput(codec, redactor, lines[n], writing(n)) == [] then [] else [n];
    }
  }

  /** `parts` are the lines `at`, and those are the ones that are no objects. */
  ghost predicate StrayParts(codec: Codec, lines: seq<Text>, at: seq<nat>, parts: seq<Text>) {
    && |at| == |parts| && Ascending(at, |lines|)
    && (forall k :: 0 <= k < |at| ==> parts[k] == lines[at[k]])
    && (forall i: nat :: i < |lines| ==> (i in at <==> codec.parse(codec.strip(lines[i])).NotAnObject?))
  }

  lemma StrayPartsSnoc(codec: Codec, lines: seq<Text>, at: seq<nat>, parts: seq<Text>)
    requires lines != [] && StrayParts(codec, lines[..|lines| - 1], at, parts)
    ensures var n := |lines| - 1;
            if codec.parse(codec.strip(lines[n])).NotAnObject?
            then StrayParts(codec, lines, at + [n], parts + [lines[n]])
            else StrayParts(codec, lines, at, parts)
  {
    var n := |lines| - 1;
    AscendingSnoc(at, n);
    assert forall i: nat :: i < n ==> lines[..n][i] == lines[i];
  }

  lemma JoinSnoc(parts: seq<Text>, part: Text)
    ensures S.Join(parts + [part]) == S.Join(parts) + part
  {
    assert (parts + [part])[..|parts|] == parts;
  }

  /** The stray stream is the lines that are no objects, verbatim and in order, put together. */
  lemma {:induction false} StrayIsVerbatim(codec: Codec, lines: seq<Text>) returns (at: seq<nat>, parts: seq<Text>)
    ensures StrayParts(codec, lines, at, parts) && Stray(codec, lines) == S.Join(parts)
  {
    at, parts := [], [];
    if lines != [] {
      var n := |lines| - 1;
      at, parts := StrayIsVerbatim(codec, lines[..n]);
      StrayPartsSnoc(codec, lines, at, parts);
      if codec.parse(codec.strip(lines[n])).NotAnObject? {
        JoinSnoc(parts, lines[n]);
        at, parts := at + [n], parts + [lines[n]];
      }
    }
  }

  /** The error state is folded at every event: it is what the last event made of the state before it. */
  lemma {:induction false} LastEventDecides(codec: Codec, lines: seq<Text>, i: nat)
    requires i <= |lines| && forall j :: i <= j < |lines| ==> !codec.parse(codec.strip(lines[j])).Event?
    ensures i == 0 ==> ModelError(codec, lines) == None
    ensures i > 0 && codec.parse(codec.strip(lines[i - 1])).Event? ==>
              ModelError(codec, lines) ==
              codec.fold(codec.parse(codec.strip(lines[i - 1])).event, ModelError(codec, lines[..i - 1]))
  {
    if i < |lines| {
      var n := |lines| - 1;
      LastEventDecides(codec, lines[..n], i);
      assert i > 0 ==> lines[..n][..i - 1] == lines[..i - 1];
    }
  }

  /** The attribution is never lost: it is the redacted error, or the fixed text where redaction fails. */
  lemma AttributionIsKept(redactor: Option<Redactor>, error: Option<Text>)
    ensures Attribution(redactor, error).Some? <==> error.Some?
    ensures redactor.None? ==> Attribution(redactor, error) == error
    ensures redactor.Some? && error.Some? && error.value != [] ==>
              var redacted := redactor.value.redact(error.value);
              Attribution(redactor, error) == if redacted.Some? then redacted else Some(REDACTION_FAILED)
  {
  }

  /** The first `n` lines have been worked in. */
  ghost predicate Upto(
    codec: Codec, redactor: Option<Redactor>, lines: seq<Text>, writing: nat -> bool, n: nat,
    staging: Option<seq<Text>>, stream: Text, modelError: Option<Text>)
    requires n <= |lines|
  {
    && staging == Some(Output(codec, redactor, lines[..n], writing))
    && stream == Stray(codec, lines[..n]) && modelError == ModelError(codec, lines[..n])
  }

  lemma OneMoreLine(
    codec: Codec, redactor: Option<Redactor>, lines: seq<Text>, writing: nat -> bool, n: nat,
    staging: Option<seq<Text>>, stream: Text, modelError: Option<Text>)
    requires n < |lines| && Upto(codec, redactor, lines, writing, n, staging, stream, modelError)
    ensures Upto(codec, redactor, lines, writing, n + 1,
                 Some(staging.value + LineOutput(codec, redactor, lines[n], writing(n))),
                 stream + LineStray(codec, lines[n]), LineFold(codec, lines[n], modelError))
  {
    assert lines[..n + 1][..n] == lines[..n];
  }
}

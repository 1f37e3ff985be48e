/**
 * The registry's snapshot (worker/upload/secret_registry.py, `secret_snapshot`): one list of literals
 * behind the span function, the redactor and the lookback length alike.
 */
module SecretRegistry {
  import opened Basics
  import opened EventsScan
  import opened Redaction
  import opened StderrTailProofs
  import S = StderrTail

  /** Where `value` occurs in `text` from `from` on, overlaps included. */
  function LiteralSpans(value: Text, text: Text, from: nat): seq<Span>
    decreases |text| + 1 - from
  {
    if from + |value| > |text| then []
    else (if text[from..from + |value|] == value then [Span(from, from + |value|)] else [])
         + LiteralSpans(value, text, from + 1)
  }

  function AllLiteralSpans(values: seq<Text>, text: Text): seq<Span> {
    if values == [] then []
    else AllLiteralSpans(values[..|values| - 1], text) + LiteralSpans(values[|values| - 1], text, 0)
  }

  /** `text.find(value, start)`. */
  method Find(value: Text, text: Text, start: nat) returns (index: int)
    ensures index == -1 || (start <= index && Occurs(value, text, index))
    ensures forall at :: start <= at && (index == -1 || at < index) ==> !Occurs(value, text, at)
  {
    index := start;
    while index + |value| <= |text|
      invariant start <= index
      invariant forall at :: start <= at < index ==> !Occurs(value, text, at)
      decreases |text| - index
    {
      if text[index..index + |value|] == value {
        return;
      }
      index := index + 1;
    }
    index := -1;
  }

  lemma {:induction false} NothingBetween(value: Text, text: Text, from: nat, next: nat)
    requires from <= next && forall at: int :: from <= at < next ==> !Occurs(value, text, at)
    ensures LiteralSpans(value, text, from) == LiteralSpans(value, text, next)
    decreases next - from
  {
    if from < next {
      NothingBetween(value, text, from + 1, next);
      assert !Occurs(value, text, from);
    }
  }

  /** The loop over one literal. */
  method SpansOf(value: Text, text: Text) returns (spans: seq<Span>)
    ensures spans == LiteralSpans(value, text, 0)
  {
    spans := [];
    var start: nat := 0;
    while true
      invariant 0 <= start <= |text| + 1
      invariant spans + LiteralSpans(value, text, start) == LiteralSpans(value, text, 0)
      decreases |text| + 1 - start
    {
      var index := Find(value, text, start);
      if index == -1 {
        NothingBetween(value, text, start, |text| + 1);
        return;
      }
      NothingBetween(value, text, start, index);
      spans := spans + [Span(index, index + |value|)];
      start := index + 1;
    }
  }

  /** `_value_spans`: the literals, and then what the shape rules report. */
  method ValueSpans(values: seq<Text>, shapes: seq<Span>, text: Text) returns (spans: seq<Span>)
    ensures spans == AllLiteralSpans(values, text) + shapes
  {
    spans := [];
    for k := 0 to |values|
      invariant spans == AllLiteralSpans(values[..k], text)
    {
      assert values[..k + 1][..k] == values[..k];
      var more := SpansOf(values[k], text);
      spans := spans + more;
    }
    assert values[..|values|] == values;
    spans := spans + shapes;
  }

  // ----- They are exactly the occurrences -----

  ghost predicate HasFrom(value: Text, text: Text, from: int, p: int) {
    exists at :: from <= at && Occurs(value, text, at) && at <= p < at + |value|
  }

  lemma {:induction false} LiteralSpansCover(value: Text, text: Text, from: nat, p: int)
    ensures Covered(LiteralSpans(value, text, from), p) <==> HasFrom(value, text, from, p)
    decreases |text| + 1 - from
  {
    if from + |value| <= |text| {
      LiteralSpansCover(value, text, from + 1, p);
      var here := if text[from..from + |value|] == value then [Span(from, from + |value|)] else [];
      PositionsAppend(here, LiteralSpans(value, text, from + 1));
      assert Covered(LiteralSpans(value, text, from), p) <==> p in Positions(LiteralSpans(value, text, from));
      OneMoreOccurrence(value, text, from, p);
      if here != [] {
        SingleCovered(here[0], p);
      }
    }
  }

  lemma OneMoreOccurrence(value: Text, text: Text, from: nat, p: int)
    ensures HasFrom(value, text, from, p) <==>
            HasFrom(value, text, from + 1, p) || (Occurs(value, text, from) && from <= p < from + |value|)
  {
  }

  ghost function Literals(values: seq<Text>): set<Text> {
    set value | value in values
  }

  lemma {:induction false} AllLiteralSpansCover(values: seq<Text>, text: Text)
    ensures Positions(AllLiteralSpans(values, text)) == SecretPositions(text, Literals(values))
  {
    if values == [] {
      assert AllLiteralSpans(values, text) == [];
    } else {
      var init, last := values[..|values| - 1], values[|values| - 1];
      AllLiteralSpansCover(init, text);
      PositionsAppend(AllLiteralSpans(init, text), LiteralSpans(last, text, 0));
      assert Literals(values) == Literals(init) + {last} by {
        assert values == init + [last];
      }
      forall p ensures p in Positions(AllLiteralSpans(values, text)) <==> p in SecretPositions(text, Literals(values)) {
        LiteralSpansCover(last, text, 0, p);
        OneMoreLiteral(text, Literals(init), last, p);
      }
    }
  }

  lemma OneMoreLiteral(text: Text, literals: set<Text>, last: Text, p: int)
    ensures Secret(text, literals + {last}, p) <==> Secret(text, literals, p) || HasFrom(last, text, 0, p)
  {
    if Secret(text, literals + {last}, p) {
      var literal, at :| literal in literals + {last} && Occurs(literal, text, at) && at <= p < at + |literal|;
    }
    if HasFrom(last, text, 0, p) {
      var at :| 0 <= at && Occurs(last, text, at) && at <= p < at + |last|;
      assert last in literals + {last};
    }
    if Secret(text, literals, p) {
      var literal, at :| literal in literals && Occurs(literal, text, at) && at <= p < at + |literal|;
      assert literal in literals + {last};
    }
  }

  // ----- One snapshot -----

  /** The longest literal's length. */
  function MaxChars(values: seq<Text>): nat {
    if values == [] then 0 else Max(MaxChars(values[..|values| - 1]), |values[|values| - 1]|)
  }

  lemma {:induction false} NoneLonger(values: seq<Text>, value: Text)
    requires value in values
    ensures |value| <= MaxChars(values)
  {
    var init, last := values[..|values| - 1], values[|values| - 1];
    assert values == init + [last];
    if value != last {
      NoneLonger(init, value);
    }
  }

  lemma {:induction false} LongestIsThere(values: seq<Text>)
    requires values != []
    ensures exists value :: value in values && |value| == MaxChars(values)
  {
    var init, last := values[..|values| - 1], values[|values| - 1];
    assert values == init + [last];
    if init != [] {
      LongestIsThere(init);
      var value :| value in init && |value| == MaxChars(init);
      assert value in values;
    }
    assert last in values;
  }

  /** `SecretRedactor.redact`: nothing for the empty text, else every reported span replaced. */
  ghost function RedactedBy(spans: S.SecretSpans, text: Text): Option<Text> {
    if text == [] then Some(text)
    else if spans(text).None? then None
    else Some(Redact(text, Positions(spans(text).value), 0))
  }

  /** The redactor replaces what its span function reports. */
  ghost predicate Coherent(redactor: Redactor) {
    forall text :: redactor.redact(text) == RedactedBy(redactor.spans, text)
  }

  method RedactText(spans: S.SecretSpans, text: Text) returns (r: Option<Text>)
    ensures r == RedactedBy(spans, text)
  {
    if text == [] {
      return Some(text);
    }
    var reported := spans(text);
    if reported.None? {
      return None;
    }
    var out := ApplySpans(text, reported.value, 0);
    r := Some(out);
  }

  ghost function Snapshot(values: seq<Text>, shapes: Text -> seq<Span>): Redactor {
    var spans := text => Some(AllLiteralSpans(values, text) + shapes(text));
    Redactor(spans, text => RedactedBy(spans, text), MaxChars(values))
  }

  /** What the scan needs of a redactor to hide these literals. */
  ghost predicate Protects(redactor: Redactor, literals: set<Text>) {
    && Coherent(redactor) && ReportsAll(redactor.spans, literals) && NoLongerThan(literals, redactor.maxChars)
  }

  /** One read of the registry gives all of it for every registered literal. */
  lemma SnapshotProtects(values: seq<Text>, shapes: Text -> seq<Span>)
    ensures Protects(Snapshot(values, shapes), Literals(values))
  {
    var redactor := Snapshot(values, shapes);
    forall text | redactor.spans(text).Some?
      ensures SecretPositions(text, Literals(values)) <= Positions(redactor.spans(text).value)
    {
      AllLiteralSpansCover(values, text);
      PositionsAppend(AllLiteralSpans(values, text), shapes(text));
    }
    forall value | value in Literals(values) ensures |value| <= redactor.maxChars {
      NoneLonger(values, value);
    }
  }

  /** And no more: what is reported is the literals' occurrences and what the shape rules report. */
  lemma SnapshotReportsNoMore(values: seq<Text>, shapes: Text -> seq<Span>, text: Text)
    ensures Snapshot(values, shapes).spans(text).Some?
    ensures Positions(Snapshot(values, shapes).spans(text).value) ==
            SecretPositions(text, Literals(values)) + Positions(shapes(text))
  {
    AllLiteralSpansCover(values, text);
    PositionsAppend(AllLiteralSpans(values, text), shapes(text));
  }
}

/** Redacting the string keys and values of a JSON value (shared/redaction.py, `redact_json`). */
module JsonRedaction {
  import opened Basics
  import opened Redaction

  /** A parsed JSON value; `Leaf` is a number, a boolean or null. */
  datatype Json = Str(text: Text) | Leaf(literal: Text) | List(items: Items) | Object(fields: Fields)

  datatype Items = NoItems | Item(head: Json, tail: Items)

  /** An object's entries in key order. */
  datatype Fields = NoFields | Field(key: Text, value: Json, rest: Fields)

  /** Redact one text; `None` stands for a raised exception. */
  type Redactor = Text -> Option<Text>

  /** Raised exceptions and key collisions both give `None`: the caller drops the event. */
  function RedactJson(v: Json, red: Redactor): Option<Json> {
    match v
    case Str(text) => if red(text).None? then None else Some(Str(red(text).value))
    case Leaf(_) => Some(v)
    case List(items) =>
      var r := RedactItems(items, red);
      if r.None? then None else Some(List(r.value))
    case Object(fields) =>
      var r := RedactFields(fields, red, {});
      if r.None? then None else Some(Object(r.value))
  }

  function RedactItems(items: Items, red: Redactor): Option<Items> {
    match items
    case NoItems => Some(NoItems)
    case Item(head, tail) =>
      var h := RedactJson(head, red);
      if h.None? then None
      else
        var t := RedactItems(tail, red);
        if t.None? then None else Some(Item(h.value, t.value))
  }

  /** `seen` holds the rewritten keys of the entries before. */
  function RedactFields(fields: Fields, red: Redactor, seen: set<Text>): Option<Fields> {
    match fields
    case NoFields => Some(NoFields)
    case Field(key, value, rest) =>
      if red(key).None? || red(key).value in seen then None
      else
        var v := RedactJson(value, red);
        if v.None? then None
        else
          var r := RedactFields(rest, red, seen + {red(key).value});
          if r.None? then None else Some(Field(red(key).value, v.value, r.value))
  }

  // ----- What a value is made of -----

  /** All strings, keys before their values, in order. */
  function Strings(v: Json): seq<Text> {
    match v
    case Str(text) => [text]
    case Leaf(_) => []
    case List(items) => ItemStrings(items)
    case Object(fields) => FieldStrings(fields)
  }

  function ItemStrings(items: Items): seq<Text> {
    match items
    case NoItems => []
    case Item(head, tail) => Strings(head) + ItemStrings(tail)
  }

  function FieldStrings(fields: Fields): seq<Text> {
    match fields
    case NoFields => []
    case Field(key, value, rest) => [key] + Strings(value) + FieldStrings(rest)
  }

  /** The value with every string emptied: nesting, order and non-string leaves. */
  function Shape(v: Json): Json {
    match v
    case Str(_) => Str([])
    case Leaf(_) => v
    case List(items) => List(ItemShape(items))
    case Object(fields) => Object(FieldShape(fields))
  }

  function ItemShape(items: Items): Items {
    match items
    case NoItems => NoItems
    case Item(head, tail) => Item(Shape(head), ItemShape(tail))
  }

  function FieldShape(fields: Fields): Fields {
    match fields
    case NoFields => NoFields
    case Field(_, value, rest) => Field([], Shape(value), FieldShape(rest))
  }

  function Keys(fields: Fields): seq<Text> {
    match fields
    case NoFields => []
    case Field(key, _, rest) => [key] + Keys(rest)
  }

  /** Every string can be redacted. */
  predicate Readable(strings: seq<Text>, red: Redactor) {
    forall i :: 0 <= i < |strings| ==> red(strings[i]).Some?
  }

  predicate Distinct(keys: seq<Text>, red: Redactor) {
    forall i, j :: 0 <= i < j < |keys| ==> red(keys[i]) != red(keys[j])
  }

  /** In no object do two keys redact to the same text. */
  predicate NoCollision(v: Json, red: Redactor) {
    match v
    case Str(_) => true
    case Leaf(_) => true
    case List(items) => NoItemCollision(items, red)
    case Object(fields) => Distinct(Keys(fields), red) && NoFieldCollision(fields, red)
  }

  predicate NoItemCollision(items: Items, red: Redactor) {
    match items
    case NoItems => true
    case Item(head, tail) => NoCollision(head, red) && NoItemCollision(tail, red)
  }

  predicate NoFieldCollision(fields: Fields, red: Redactor) {
    match fields
    case NoFields => true
    case Field(_, value, rest) => NoCollision(value, red) && NoFieldCollision(rest, red)
  }

  // ----- When it succeeds -----

  lemma ReadableConcat(a: seq<Text>, b: seq<Text>, red: Redactor)
    ensures Readable(a + b, red) <==> Readable(a, red) && Readable(b, red)
  {
    var c := a + b;
    if Readable(c, red) {
      assert forall i :: 0 <= i < |a| ==> c[i] == a[i];
      assert forall i :: 0 <= i < |b| ==> c[|a| + i] == b[i];
    }
  }

  lemma DistinctCons(key: Text, keys: seq<Text>, red: Redactor)
    ensures Distinct([key] + keys, red) <==>
            Distinct(keys, red) && forall i :: 0 <= i < |keys| ==> red(keys[i]) != red(key)
  {
    var all := [key] + keys;
    assert forall i :: 0 <= i < |keys| ==> all[i + 1] == keys[i];
    if Distinct(all, red) {
      forall i, j | 0 <= i < j < |keys| ensures red(keys[i]) != red(keys[j]) {
        assert all[i + 1] == keys[i] && all[j + 1] == keys[j];
      }
      forall i | 0 <= i < |keys| ensures red(keys[i]) != red(key) {
        assert all[i + 1] == keys[i] && all[0] == key;
      }
    }
  }

  /** Redaction goes through exactly when every string can be redacted and no two keys of an object collide. */
  lemma {:induction false} SucceedsIff(v: Json, red: Redactor)
    ensures RedactJson(v, red).Some? <==> Readable(Strings(v), red) && NoCollision(v, red)
  {
    match v
    case Str(text) =>
      assert Strings(v)[0] == text;
    case Leaf(_) =>
    case List(items) => ItemsSucceedIff(items, red);
    case Object(fields) =>
      FieldsSucceedIff(fields, red, {});
      assert Avoids(Keys(fields), red, {});
  }

  lemma {:induction false} ItemsSucceedIff(items: Items, red: Redactor)
    ensures RedactItems(items, red).Some? <==> Readable(ItemStrings(items), red) && NoItemCollision(items, red)
  {
    match items
    case NoItems =>
    case Item(head, tail) =>
      SucceedsIff(head, red);
      ItemsSucceedIff(tail, red);
      ReadableConcat(Strings(head), ItemStrings(tail), red);
  }

  predicate Avoids(keys: seq<Text>, red: Redactor, seen: set<Text>) {
    forall i :: 0 <= i < |keys| && red(keys[i]).Some? ==> red(keys[i]).value !in seen
  }

  lemma AvoidsCons(key: Text, keys: seq<Text>, red: Redactor, seen: set<Text>)
    requires red(key).Some?
    ensures Avoids([key] + keys, red, seen) <==> red(key).value !in seen && Avoids(keys, red, seen)
    ensures Avoids(keys, red, seen + {red(key).value}) <==>
            Avoids(keys, red, seen) && forall i :: 0 <= i < |keys| ==> red(keys[i]) != red(key)
  {
    var all := [key] + keys;
    assert all[0] == key && forall i :: 0 <= i < |keys| ==> all[i + 1] == keys[i];
    if Avoids(all, red, seen) {
      forall i | 0 <= i < |keys| && red(keys[i]).Some? ensures red(keys[i]).value !in seen {
        assert all[i + 1] == keys[i];
      }
    }
  }

  lemma {:induction false} FieldsSucceedIff(fields: Fields, red: Redactor, seen: set<Text>)
    ensures RedactFields(fields, red, seen).Some? <==>
            && Readable(FieldStrings(fields), red) && NoFieldCollision(fields, red)
            && Distinct(Keys(fields), red) && Avoids(Keys(fields), red, seen)
  {
    match fields
    case NoFields =>
    case Field(key, value, rest) =>
      ReadableConcat([key], Strings(value), red);
      ReadableConcat([key] + Strings(value), FieldStrings(rest), red);
      assert Readable([key], red) <==> red(key).Some? by {
        assert [key][0] == key;
      }
      DistinctCons(key, Keys(rest), red);
      SucceedsIff(value, red);
      if red(key).Some? {
        FieldsSucceedIff(rest, red, seen + {red(key).value});
        AvoidsCons(key, Keys(rest), red, seen);
      }
  }

  // ----- What it returns -----

  function RedactedAll(strings: seq<Text>, red: Redactor): seq<Text>
    requires Readable(strings, red)
  {
    seq(|strings|, i requires 0 <= i < |strings| => red(strings[i]).value)
  }

  lemma RedactedConcat(a: seq<Text>, b: seq<Text>, red: Redactor)
    requires Readable(a, red) && Readable(b, red)
    ensures Readable(a + b, red) && RedactedAll(a + b, red) == RedactedAll(a, red) + RedactedAll(b, red)
  {
    ReadableConcat(a, b, red);
  }

  /**
   * The result has the input's shape - order, nesting and leaves - and its strings are the input's
   * strings redacted one by one, keys included.
   */
  lemma {:induction false} RedactsEveryString(v: Json, red: Redactor)
    requires RedactJson(v, red).Some?
    ensures Readable(Strings(v), red)
    ensures Shape(RedactJson(v, red).value) == Shape(v)
    ensures Strings(RedactJson(v, red).value) == RedactedAll(Strings(v), red)
  {
    match v
    case Str(_) =>
    case Leaf(_) =>
    case List(items) => RedactsItemStrings(items, red);
    case Object(fields) => RedactsFieldStrings(fields, red, {});
  }

  lemma {:induction false} RedactsItemStrings(items: Items, red: Redactor)
    requires RedactItems(items, red).Some?
    ensures Readable(ItemStrings(items), red)
    ensures ItemShape(RedactItems(items, red).value) == ItemShape(items)
    ensures ItemStrings(RedactItems(items, red).value) == RedactedAll(ItemStrings(items), red)
  {
    match items
    case NoItems =>
    case Item(head, tail) =>
      RedactsEveryString(head, red);
      RedactsItemStrings(tail, red);
      RedactedConcat(Strings(head), ItemStrings(tail), red);
  }

  lemma {:induction false} RedactsFieldStrings(fields: Fields, red: Redactor, seen: set<Text>)
    requires RedactFields(fields, red, seen).Some?
    ensures Readable(FieldStrings(fields), red)
    ensures FieldShape(RedactFields(fields, red, seen).value) == FieldShape(fields)
    ensures FieldStrings(RedactFields(fields, red, seen).value) == RedactedAll(FieldStrings(fields), red)
  {
    match fields
    case NoFields =>
    case Field(key, value, rest) =>
      RedactsEveryString(value, red);
      RedactsFieldStrings(rest, red, seen + {red(key).value});
      assert Readable([key], red) && RedactedAll([key], red) == [red(key).value];
      RedactedConcat([key], Strings(value), red);
      RedactedConcat([key] + Strings(value), FieldStrings(rest), red);
  }

  lemma {:induction false} SameShapeSameCount(a: Json, b: Json)
    requires Shape(a) == Shape(b)
    ensures |Strings(a)| == |Strings(b)|
  {
    match a
    case Str(_) =>
    case Leaf(_) =>
    case List(items) => SameItemCount(items, b.items);
    case Object(fields) => SameFieldCount(fields, b.fields);
  }

  lemma {:induction false} SameItemCount(a: Items, b: Items)
    requires ItemShape(a) == ItemShape(b)
    ensures |ItemStrings(a)| == |ItemStrings(b)|
  {
    match a
    case NoItems =>
    case Item(head, tail) =>
      SameShapeSameCount(head, b.head);
      SameItemCount(tail, b.tail);
  }

  lemma {:induction false} SameFieldCount(a: Fields, b: Fields)
    requires FieldShape(a) == FieldShape(b)
    ensures |FieldStrings(a)| == |FieldStrings(b)|
  {
    match a
    case NoFields =>
    case Field(_, value, rest) =>
      SameShapeSameCount(value, b.value);
      SameFieldCount(rest, b.rest);
  }

  lemma SplitEqual(a: seq<Text>, b: seq<Text>, c: seq<Text>, d: seq<Text>)
    requires |a| == |c| && a + b == c + d
    ensures a == c && b == d
  {
    assert a == (a + b)[..|a|] && c == (c + d)[..|c|];
    assert b == (a + b)[|a|..] && d == (c + d)[|c|..];
  }

  /** A value is determined by its shape and its strings, so the lemma above fixes the result. */
  lemma {:induction false} ShapeAndStringsDetermine(a: Json, b: Json)
    requires Shape(a) == Shape(b) && Strings(a) == Strings(b)
    ensures a == b
  {
    match a
    case Str(text) =>
      assert Strings(a)[0] == Strings(b)[0];
    case Leaf(_) =>
    case List(items) => ItemsDetermined(items, b.items);
    case Object(fields) => FieldsDetermined(fields, b.fields);
  }

  lemma {:induction false} ItemsDetermined(a: Items, b: Items)
    requires ItemShape(a) == ItemShape(b) && ItemStrings(a) == ItemStrings(b)
    ensures a == b
  {
    match a
    case NoItems =>
    case Item(head, tail) =>
      SameShapeSameCount(head, b.head);
      SplitEqual(Strings(head), ItemStrings(tail), Strings(b.head), ItemStrings(b.tail));
      ShapeAndStringsDetermine(head, b.head);
      ItemsDetermined(tail, b.tail);
  }

  lemma {:induction false} FieldsDetermined(a: Fields, b: Fields)
    requires FieldShape(a) == FieldShape(b) && FieldStrings(a) == FieldStrings(b)
    ensures a == b
  {
    match a
    case NoFields =>
    case Field(key, value, rest) =>
      SameShapeSameCount(value, b.value);
      SplitEqual([key] + Strings(value), FieldStrings(rest), [b.key] + Strings(b.value), FieldStrings(b.rest));
      SplitEqual([key], Strings(value), [b.key], Strings(b.value));
      assert [key][0] == [b.key][0];
      ShapeAndStringsDetermine(value, b.value);
      FieldsDetermined(rest, b.rest);
  }

  /** The event line is kept as it is exactly when redaction changes none of its strings. */
  lemma UnchangedIff(v: Json, red: Redactor)
    requires RedactJson(v, red).Some?
    ensures RedactJson(v, red).value == v <==>
            forall i :: 0 <= i < |Strings(v)| ==> red(Strings(v)[i]) == Some(Strings(v)[i])
  {
    RedactsEveryString(v, red);
    var s, r := Strings(v), RedactedAll(Strings(v), red);
    assert forall i :: 0 <= i < |s| ==> r[i] == red(s[i]).value;
    if forall i :: 0 <= i < |s| ==> red(s[i]) == Some(s[i]) {
      assert r == s;
      ShapeAndStringsDetermine(RedactJson(v, red).value, v);
    }
  }
}

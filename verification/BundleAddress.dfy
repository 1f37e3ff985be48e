/** The pre-hash text of a bundle manifest (shared/material_bundle.py, `bundle_address`). */
module BundleAddress {
  import opened Sorting

  datatype Entry = Entry(address: string, path: string)

  datatype Text = Text(text: string) | EmptyManifest | ControlCharacter

  predicate IsControl(c: char) {
    c as int < 0x20 || c as int == 0x7F
  }

  predicate HasControl(s: string) {
    exists i :: 0 <= i < |s| && IsControl(s[i])
  }

  predicate Clean(e: Entry) {
    !HasControl(e.address) && !HasControl(e.path)
  }

  predicate AllClean(entries: seq<Entry>) {
    forall i :: 0 <= i < |entries| ==> Clean(entries[i])
  }

  /** Python's order on strings: by code point, a proper prefix first. */
  predicate TextLe(a: string, b: string) {
    a == [] || (b != [] && (a[0] < b[0] || (a[0] == b[0] && TextLe(a[1..], b[1..]))))
  }

  function Line(e: Entry): string {
    e.address + "\t" + e.path
  }

  function Lines(entries: seq<Entry>): (r: seq<string>)
    ensures |r| == |entries|
  {
    if entries == [] then [] else [Line(entries[0])] + Lines(entries[1..])
  }

  function Join(lines: seq<string>): string
    requires lines != []
  {
    if |lines| == 1 then lines[0] else lines[0] + "\n" + Join(lines[1..])
  }

  /** What `bundle_address` hashes, or why it refuses the manifest. */
  function ManifestText(entries: seq<Entry>): Text {
    if entries == [] then EmptyManifest
    else if !AllClean(entries) then ControlCharacter
    else
      assert |Sort(Lines(entries), TextLe)| > 0 by { SortKeepsLength(Lines(entries)); }
      Text(Join(Sort(Lines(entries), TextLe)))
  }

  lemma SortKeepsLength(lines: seq<string>)
    ensures |Sort(lines, TextLe)| == |lines|
  {
    TextOrder();
    SortSorts(lines, TextLe);
    assert |multiset(Sort(lines, TextLe))| == |multiset(lines)|;
  }

  /** A prefix of the other, or smaller at the first character in which they differ. */
  lemma {:induction false} TextLeIff(a: string, b: string)
    ensures TextLe(a, b) <==> a <= b || exists i :: FirstDifference(a, b, i) && a[i] < b[i]
  {
    if a != [] && b != [] && a[0] == b[0] {
      TextLeIff(a[1..], b[1..]);
      assert a == [a[0]] + a[1..] && b == [b[0]] + b[1..];
      if i :| FirstDifference(a[1..], b[1..], i) && a[1..][i] < b[1..][i] {
        assert a[..i + 1] == [a[0]] + a[1..][..i] && b[..i + 1] == [b[0]] + b[1..][..i];
        assert FirstDifference(a, b, i + 1);
      }
      if i :| FirstDifference(a, b, i) && a[i] < b[i] {
        assert a[1..][..i - 1] == a[..i][1..] && b[1..][..i - 1] == b[..i][1..];
        assert FirstDifference(a[1..], b[1..], i - 1);
      }
    } else if a != [] && b != [] && a[0] < b[0] {
      assert FirstDifference(a, b, 0);
    }
  }

  predicate FirstDifference(a: string, b: string, i: int) {
    0 <= i < |a| && i < |b| && a[i] != b[i] && a[..i] == b[..i]
  }

  // ----- The order is total -----

  lemma {:induction false} TextLeTotal(a: string, b: string)
    ensures TextLe(a, b) || TextLe(b, a)
  {
    if a != [] && b != [] && a[0] == b[0] {
      TextLeTotal(a[1..], b[1..]);
    }
  }

  lemma {:induction false} TextLeAntisymmetric(a: string, b: string)
    requires TextLe(a, b) && TextLe(b, a)
    ensures a == b
  {
    if a != [] && b != [] {
      TextLeAntisymmetric(a[1..], b[1..]);
      assert a == [a[0]] + a[1..] && b == [b[0]] + b[1..];
    }
  }

  lemma {:induction false} TextLeTransitive(a: string, b: string, c: string)
    requires TextLe(a, b) && TextLe(b, c)
    ensures TextLe(a, c)
  {
    if a != [] && a[0] == b[0] && b[0] == c[0] {
      TextLeTransitive(a[1..], b[1..], c[1..]);
    }
  }

  lemma TextOrder()
    ensures TotalOrder<string>(TextLe)
  {
    forall a: string, b: string ensures TextLe(a, b) || TextLe(b, a) {
      TextLeTotal(a, b);
    }
    forall a: string, b: string | TextLe(a, b) && TextLe(b, a) ensures a == b {
      TextLeAntisymmetric(a, b);
    }
    forall a: string, b: string, c: string | TextLe(a, b) && TextLe(b, c) ensures TextLe(a, c) {
      TextLeTransitive(a, b, c);
    }
  }

  // ----- Separators -----

  predicate Free(s: string, c: char) {
    forall i :: 0 <= i < |s| ==> s[i] != c
  }

  /** A text splits at its first separator in one way only. */
  lemma FirstSeparator(a: string, b: string, c: char, x: string, y: string)
    requires Free(a, c) && Free(b, c) && a + [c] + x == b + [c] + y
    ensures a == b && x == y
  {
    var s, t := a + [c] + x, b + [c] + y;
    assert s[|a|] == c && t[|b|] == c;
    assert forall i :: 0 <= i < |a| ==> s[i] == a[i];
    assert forall i :: 0 <= i < |b| ==> t[i] == b[i];
    assert |a| == |b|;
    assert a == s[..|a|] && b == t[..|b|];
    assert x == s[|a| + 1..] && y == t[|b| + 1..];
  }

  lemma LineIsInjective(e: Entry, f: Entry)
    requires Clean(e) && Clean(f) && Line(e) == Line(f)
    ensures e == f
  {
    FirstSeparator(e.address, f.address, '\t', e.path, f.path);
  }

  lemma LineHasNoNewline(e: Entry)
    requires Clean(e)
    ensures Free(Line(e), '\n')
  {
    var s := Line(e);
    forall i | 0 <= i < |s| ensures s[i] != '\n' {
      if i < |e.address| {
        assert s[i] == e.address[i];
      } else if i > |e.address| {
        assert s[i] == e.path[i - |e.address| - 1];
      }
    }
  }

  predicate AllFree(lines: seq<string>) {
    forall i :: 0 <= i < |lines| ==> Free(lines[i], '\n')
  }

  lemma JoinHasNewline(lines: seq<string>)
    requires |lines| > 1
    ensures !Free(Join(lines), '\n')
  {
    var s := lines[0] + "\n" + Join(lines[1..]);
    assert s[|lines[0]|] == '\n';
  }

  /** Joining lines that hold no newline can be undone. */
  lemma {:induction false} JoinIsInjective(a: seq<string>, b: seq<string>)
    requires a != [] && b != [] && AllFree(a) && AllFree(b) && Join(a) == Join(b)
    ensures a == b
  {
    if |a| == 1 || |b| == 1 {
      if |a| > 1 {
        JoinHasNewline(a);
      } else if |b| > 1 {
        JoinHasNewline(b);
      }
    } else {
      FirstSeparator(a[0], b[0], '\n', Join(a[1..]), Join(b[1..]));
      JoinIsInjective(a[1..], b[1..]);
      assert a == [a[0]] + a[1..] && b == [b[0]] + b[1..];
    }
  }

  // ----- The text is a function of the multiset, and determines it -----

  lemma {:induction false} LineCount(entries: seq<Entry>, e: Entry)
    requires AllClean(entries) && Clean(e)
    ensures multiset(Lines(entries))[Line(e)] == multiset(entries)[e]
  {
    if entries != [] {
      var rest := entries[1..];
      assert entries == [entries[0]] + rest;
      assert Lines(entries) == [Line(entries[0])] + Lines(rest);
      LineCount(rest, e);
      if Line(entries[0]) == Line(e) {
        LineIsInjective(entries[0], e);
      }
    }
  }

  lemma {:induction false} LinesComeFromEntries(entries: seq<Entry>, line: string)
    requires AllClean(entries) && line in Lines(entries)
    ensures exists e :: e in entries && Clean(e) && Line(e) == line
  {
    if line == Line(entries[0]) {
      assert entries[0] in entries;
    } else {
      LinesComeFromEntries(entries[1..], line);
    }
  }

  lemma SameLines(a: seq<Entry>, b: seq<Entry>)
    requires AllClean(a) && AllClean(b)
    ensures multiset(Lines(a)) == multiset(Lines(b)) <==> multiset(a) == multiset(b)
  {
    if multiset(a) == multiset(b) {
      forall line ensures multiset(Lines(a))[line] == multiset(Lines(b))[line] {
        if line in Lines(a) {
          LinesComeFromEntries(a, line);
          var e :| Clean(e) && Line(e) == line;
          LineCount(a, e);
          LineCount(b, e);
        } else if line in Lines(b) {
          LinesComeFromEntries(b, line);
          var e :| Clean(e) && Line(e) == line;
          LineCount(a, e);
          LineCount(b, e);
        }
      }
    }
    if multiset(Lines(a)) == multiset(Lines(b)) {
      forall e ensures multiset(a)[e] == multiset(b)[e] {
        if e in a || e in b {
          LineCount(a, e);
          LineCount(b, e);
        }
      }
    }
  }

  lemma {:induction false} LinesAreFree(entries: seq<Entry>)
    requires AllClean(entries)
    ensures AllFree(Lines(entries))
  {
    if entries != [] {
      LineHasNoNewline(entries[0]);
      LinesAreFree(entries[1..]);
    }
  }

  lemma SortedAreFree(entries: seq<Entry>)
    requires AllClean(entries)
    ensures AllFree(Sort(Lines(entries), TextLe))
  {
    var lines := Lines(entries);
    TextOrder();
    SortSorts(lines, TextLe);
    LinesAreFree(entries);
    var sorted := Sort(lines, TextLe);
    forall i | 0 <= i < |sorted| ensures Free(sorted[i], '\n') {
      assert sorted[i] in multiset(lines);
      var j :| 0 <= j < |lines| && lines[j] == sorted[i];
    }
  }

  /** Two manifests hash the same text exactly when they hold the same (address, path) pairs. */
  lemma TextIdentifiesManifest(a: seq<Entry>, b: seq<Entry>)
    requires ManifestText(a).Text?
    ensures ManifestText(a) == ManifestText(b) <==> multiset(a) == multiset(b)
  {
    if multiset(a) == multiset(b) {
      SameMultisetSameGuards(a, b);
    }
    if ManifestText(b).Text? {
      SameLines(a, b);
      TextOrder();
      SortIsCanonical(Lines(a), Lines(b), TextLe);
      SortKeepsLength(Lines(a));
      SortKeepsLength(Lines(b));
      SortedAreFree(a);
      SortedAreFree(b);
      if ManifestText(a) == ManifestText(b) {
        JoinIsInjective(Sort(Lines(a), TextLe), Sort(Lines(b), TextLe));
      }
    }
  }

  lemma SameMultisetSameGuards(a: seq<Entry>, b: seq<Entry>)
    requires multiset(a) == multiset(b)
    ensures a == [] <==> b == []
    ensures AllClean(a) <==> AllClean(b)
  {
    assert |a| == |multiset(a)| == |multiset(b)| == |b|;
    forall i | 0 <= i < |a| ensures a[i] in b {
      assert a[i] in multiset(b);
    }
    forall i | 0 <= i < |b| ensures b[i] in a {
      assert b[i] in multiset(a);
    }
  }

  /** The same text for two different manifests, with the control-character check left out. */
  predicate Collide(a: seq<Entry>, b: seq<Entry>) {
    && Sort(Lines(a), TextLe) != [] && Sort(Lines(b), TextLe) != []
    && Join(Sort(Lines(a), TextLe)) == Join(Sort(Lines(b), TextLe))
    && multiset(a) != multiset(b)
  }

  lemma ControlCharactersWouldCollide()
    ensures exists a: seq<Entry>, b: seq<Entry> :: Collide(a, b)
  {
    var a := [Entry("x", "y\nz\tw")];
    var b := [Entry("x", "y"), Entry("z", "w")];
    var first, second := "x\ty", "z\tw";
    assert Line(a[0]) == first + "\n" + second;
    assert a[1..] == [] && Lines(a) == [Line(a[0])];
    assert Line(b[0]) == first && Line(b[1]) == second;
    assert Lines(b[1..]) == [second];
    assert Lines(b) == [first, second];
    assert Sort([second], TextLe) == [second];
    assert Sort(Lines(b), TextLe) == [first, second];
    assert b[0] in multiset(b) && b[0] !in multiset(a);
    assert Collide(a, b);
  }
}

/**
 * Bundles as their callers see them: the cache machine with the addresses that are really computed,
 * and what a tree at a manifest's address holds (shared/material_bundle.py, shared/material_cache.py).
 */
module BundleTrees {
  import opened Basics
  import opened CacheMachine
  import opened CacheRuns
  import opened CacheSafety
  import BundleAddress

  // ----- Names and paths -----

  function Decimal(n: nat): string
    decreases n
  {
    if n < 10 then ["0123456789"[n]] else Decimal(n / 10) + ["0123456789"[n % 10]]
  }

  predicate IsDigit(c: char) {
    '0' <= c <= '9'
  }

  lemma {:induction false} DecimalDigits(n: nat)
    ensures Decimal(n) != [] && forall i :: 0 <= i < |Decimal(n)| ==> IsDigit(Decimal(n)[i])
    decreases n
  {
    if n >= 10 {
      DecimalDigits(n / 10);
    }
  }

  lemma LastDigit(n: nat)
    ensures Decimal(n) != [] && Decimal(n)[|Decimal(n)| - 1] == "0123456789"[n % 10]
    ensures n >= 10 ==> Decimal(n)[..|Decimal(n)| - 1] == Decimal(n / 10) != []
    ensures n < 10 ==> |Decimal(n)| == 1
  {
    if n >= 10 {
      DecimalDigits(n / 10);
    }
  }

  /** A number is recovered from its digits. */
  lemma {:induction false} DecimalIsInjective(m: nat, n: nat)
    requires Decimal(m) == Decimal(n)
    ensures m == n
    decreases m
  {
    LastDigit(m);
    LastDigit(n);
    if m >= 10 && n >= 10 {
      DecimalIsInjective(m / 10, n / 10);
    }
  }

  /** `material_cache_address`: the content hash, or the upload's id with its generation. */
  function AddressText(a: Address): string {
    match a
    case Hash(digest) => digest
    case Upload(id, None) => id
    case Upload(id, Some(generation)) => id + "-v2g" + Number(generation)
  }

  function Number(n: int): string {
    if n < 0 then "-" + Decimal(-n) else Decimal(n)
  }

  lemma NumberIsInjective(m: int, n: int)
    requires Number(m) == Number(n)
    ensures m == n
  {
    NumberIsPlain(m);
    NumberIsPlain(n);
    if m < 0 {
      assert Decimal(-m) == Number(m)[1..] == Number(n)[1..] == Decimal(-n);
      DecimalIsInjective(-m, -n);
    } else {
      DecimalIsInjective(m, n);
    }
  }

  lemma NumberIsPlain(n: int)
    ensures Number(n) != [] && (Number(n)[0] == '-' <==> n < 0) && 'g' !in Number(n)
  {
    DecimalDigits(if n < 0 then -n else n);
  }

  lemma SameEnding(p: string, q: string, x: string, y: string)
    requires p + x == q + y && |x| == |y|
    ensures p == q && x == y
  {
    assert |p| == |q|;
    assert p == (p + x)[..|p|] && q == (q + y)[..|q|];
    assert x == (p + x)[|p|..] && y == (q + y)[|q|..];
  }

  /** What follows the suffix in the shorter reading starts within what follows it in the longer one. */
  lemma SuffixReadTwice(p: string, q: string, x: string, y: string)
    requires p + "-v2g" + x == q + "-v2g" + y && |x| < |y|
    ensures 'g' in y
  {
    var s, t := p + "-v2g" + x, q + "-v2g" + y;
    var k := |p| - |q| - 1;
    assert s[|p| + 3] == 'g' && t[|p| + 3] == y[k];
  }

  /** The text of an upload with a generation determines both. */
  lemma GenerationIsRecovered(id: string, id': string, m: int, n: int)
    requires id + "-v2g" + Number(m) == id' + "-v2g" + Number(n)
    ensures id == id' && m == n
  {
    NumberIsPlain(m);
    NumberIsPlain(n);
    if |Number(m)| < |Number(n)| {
      SuffixReadTwice(id, id', Number(m), Number(n));
    } else if |Number(n)| < |Number(m)| {
      SuffixReadTwice(id', id, Number(n), Number(m));
    }
    SameEnding(id + "-v2g", id' + "-v2g", Number(m), Number(n));
    SameEnding(id, id', "-v2g", "-v2g");
    NumberIsInjective(m, n);
  }

  /** A member's name before any generation is added. */
  function Name(a: Address): string {
    if a.Hash? then a.digest else a.id
  }

  predicate Generated(a: Address) {
    a.Upload? && a.generation.Some?
  }

  /** `x`, which has no generation, is named like upload `y` with one, or is a digest that is `y`'s id. */
  predicate Mistakable(x: Address, y: Address) {
    && !Generated(x) && y.Upload?
    && if Generated(y) then y.id + "-v2g" <= Name(x) else x.Hash? && x.digest == y.id
  }

  /**
   * One text, one member: two generations of one upload never share a text, nor do a generation and
   * none; only a name that looks like another id with a generation can be mistaken for it.
   */
  lemma AddressTextIsInjective(x: Address, y: Address)
    requires !Mistakable(x, y) && !Mistakable(y, x) && AddressText(x) == AddressText(y)
    ensures x == y
  {
    GeneratedText(x);
    GeneratedText(y);
    if Generated(x) && Generated(y) {
      GenerationIsRecovered(x.id, y.id, x.generation.value, y.generation.value);
    }
  }

  lemma GeneratedText(a: Address)
    ensures if Generated(a) then a.id + "-v2g" <= AddressText(a) else AddressText(a) == Name(a)
  {
  }

  lemma GenerationsApart(id: string, one: Option<int>, other: Option<int>)
    requires one != other
    ensures AddressText(Upload(id, one)) != AddressText(Upload(id, other))
  {
    if AddressText(Upload(id, one)) == AddressText(Upload(id, other)) {
      AddressTextIsInjective(Upload(id, one), Upload(id, other));
    }
  }

  /** The pieces of a path between slashes. */
  function Segments(path: string): (r: seq<string>)
    ensures r != []
  {
    if path == "" then [""]
    else
      var rest := Segments(path[1..]);
      if path[0] == '/' then [""] + rest else [[path[0]] + rest[0]] + rest[1..]
  }

  predicate SafePath(path: string) {
    && path != "" && path[0] != '/' && '\\' !in path && !BundleAddress.HasControl(path)
    && forall i :: 0 <= i < |Segments(path)| ==> Segments(path)[i] !in ["", ".", ".."]
  }

  /** `path[i..j]` is what stands between two neighbouring slashes, or between one and an end. */
  ghost predicate IsPiece(path: string, i: int, j: int) {
    && 0 <= i <= j <= |path| && '/' !in path[i..j]
    && (i > 0 ==> path[i - 1] == '/') && (j < |path| ==> path[j] == '/')
  }

  lemma LaterPiece(path: string, i: nat, j: nat)
    requires IsPiece(path, i, j) && i > 0
    ensures IsPiece(path[1..], i - 1, j - 1) && path[1..][i - 1..j - 1] == path[i..j]
    ensures i == 1 ==> path[0] == '/'
  {
    assert path[1..][i - 1..j - 1] == path[i..j];
  }

  lemma FirstPiece(path: string, j: nat)
    requires IsPiece(path, 0, j) && j > 0
    ensures IsPiece(path[1..], 0, j - 1) && path[0] != '/' && path[0..j] == [path[0]] + path[1..][0..j - 1]
  {
    assert path[0] in path[0..j];
    assert path[1..][0..j - 1] == path[0..j][1..];
  }

  lemma {:induction false} PieceIsSegment(path: string, i: nat, j: nat) returns (k: nat)
    requires IsPiece(path, i, j)
    ensures k < |Segments(path)| && Segments(path)[k] == path[i..j] && (i == 0 <==> k == 0)
  {
    k := 0;
    if path != "" {
      if i > 0 {
        LaterPiece(path, i, j);
        k := PieceIsSegment(path[1..], i - 1, j - 1);
        k := if path[0] == '/' then k + 1 else k;
      } else if j > 0 {
        FirstPiece(path, j);
        k := PieceIsSegment(path[1..], 0, j - 1);
      }
    }
  }

  lemma {:induction false} SegmentIsPiece(path: string, k: nat) returns (i: nat, j: nat)
    requires k < |Segments(path)|
    ensures IsPiece(path, i, j) && path[i..j] == Segments(path)[k] && (k == 0 <==> i == 0)
  {
    if path == "" {
      i, j := 0, 0;
    } else if path[0] == '/' && k == 0 {
      i, j := 0, 0;
    } else {
      var rest := path[1..];
      i, j := SegmentIsPiece(rest, if path[0] == '/' then k - 1 else k);
      assert rest[i..j] == path[i + 1..j + 1];
      if path[0] != '/' && k == 0 {
        assert path[0..j + 1] == [path[0]] + rest[0..j];
        j := j + 1;
      } else {
        i, j := i + 1, j + 1;
      }
    }
  }

  /**
   * The paths that are refused: empty or absolute ones, any with a backslash or a control character,
   * and any with nothing, `.` or `..` between slashes.
   */
  lemma UnsafePathIff(path: string)
    ensures !SafePath(path) <==>
            || path == "" || path[0] == '/'
            || (exists i :: 0 <= i < |path| && (path[i] == '\\' || path[i] as int < 32 || path[i] as int == 127))
            || exists i, j :: IsPiece(path, i, j) && path[i..j] in ["", ".", ".."]
  {
    if i, j :| IsPiece(path, i, j) && path[i..j] in ["", ".", ".."] {
      var k := PieceIsSegment(path, i, j);
    }
    if k :| 0 <= k < |Segments(path)| && Segments(path)[k] in ["", ".", ".."] {
      var i, j := SegmentIsPiece(path, k);
    }
  }

  function Entries(manifest: seq<Line>): seq<BundleAddress.Entry> {
    seq(|manifest|, i requires 0 <= i < |manifest| =>
      BundleAddress.Entry(AddressText(manifest[i].member), manifest[i].rel))
  }

  /** `bundle_address`. */
  function BundleHash(digest: string -> string, manifest: seq<Line>): Option<Address> {
    match BundleAddress.ManifestText(Entries(manifest))
    case Text(text) => Some(Hash(digest(text)))
    case _ => None
  }

  predicate Printable(s: string) {
    forall i :: 0 <= i < |s| ==> s[i] as int >= 32 && s[i] as int != 127
  }

  lemma PrintableIff(s: string)
    ensures Printable(s) <==> !BundleAddress.HasControl(s)
  {
  }

  /** A manifest has an address, the hash of some text, unless it is empty or a control character is in it. */
  lemma AddressedIff(digest: string -> string, manifest: seq<Line>)
    ensures BundleHash(digest, manifest).Some? <==>
            && manifest != []
            && forall i :: 0 <= i < |manifest| ==>
                 Printable(AddressText(manifest[i].member)) && Printable(manifest[i].rel)
    ensures BundleHash(digest, manifest).Some? ==>
              exists text :: BundleHash(digest, manifest).value == Hash(digest(text))
  {
    var entries := Entries(manifest);
    forall i | 0 <= i < |manifest|
      ensures BundleAddress.Clean(entries[i]) <==>
              Printable(AddressText(manifest[i].member)) && Printable(manifest[i].rel)
    {
      PrintableIff(AddressText(manifest[i].member));
      PrintableIff(manifest[i].rel);
    }
  }

  /** The machine with these two hash functions. */
  function HashWorld(sha: Bytes -> string, digest: string -> string): World {
    World(sha, manifest => BundleHash(digest, manifest), SafePath)
  }

  // ----- One address, one set of lines -----

  /** No member of one is named like a generation of a member of the other, and the texts do not collide. */
  ghost predicate NoCollision(digest: string -> string, a: seq<Line>, b: seq<Line>) {
    && (forall i, j :: 0 <= i < |a| && 0 <= j < |b| ==>
          !Mistakable(a[i].member, b[j].member) && !Mistakable(b[j].member, a[i].member))
    && TextsApart(digest, BundleAddress.ManifestText(Entries(a)), BundleAddress.ManifestText(Entries(b)))
  }

  predicate TextsApart(digest: string -> string, a: BundleAddress.Text, b: BundleAddress.Text) {
    a.Text? && b.Text? && digest(a.text) == digest(b.text) ==> a == b
  }

  predicate Within(a: seq<Line>, b: seq<Line>) {
    forall i :: 0 <= i < |a| ==> a[i] in b
  }

  lemma SameEntriesWithin(digest: string -> string, a: seq<Line>, b: seq<Line>)
    requires multiset(Entries(a)) == multiset(Entries(b)) && NoCollision(digest, a, b)
    ensures Within(a, b)
  {
    forall i | 0 <= i < |a| ensures a[i] in b {
      assert Entries(a)[i] in multiset(Entries(b));
      var j :| 0 <= j < |b| && Entries(b)[j] == Entries(a)[i];
      AddressTextIsInjective(a[i].member, b[j].member);
      assert a[i] == b[j];
    }
  }

  lemma NoCollisionBack(digest: string -> string, a: seq<Line>, b: seq<Line>)
    requires NoCollision(digest, a, b)
    ensures NoCollision(digest, b, a)
  {
  }

  /** Two manifests without a collision have one address exactly when they hold the same lines equally often. */
  lemma AddressIdentifiesManifest(digest: string -> string, a: seq<Line>, b: seq<Line>)
    requires NoCollision(digest, a, b) && BundleHash(digest, a).Some?
    ensures BundleHash(digest, a) == BundleHash(digest, b) <==> multiset(Entries(a)) == multiset(Entries(b))
    ensures BundleHash(digest, a) == BundleHash(digest, b) ==> Within(a, b) && Within(b, a)
  {
    BundleAddress.TextIdentifiesManifest(Entries(a), Entries(b));
    if BundleHash(digest, a) == BundleHash(digest, b) {
      SameEntriesWithin(digest, a, b);
      NoCollisionBack(digest, a, b);
      SameEntriesWithin(digest, b, a);
    }
  }

  lemma PathsWithin(a: seq<Line>, b: seq<Line>)
    requires Within(a, b)
    ensures Paths(a, |a|) <= Paths(b, |b|)
  {
    forall rel | rel in Paths(a, |a|) ensures rel in Paths(b, |b|) {
      var i :| 0 <= i < |a| && a[i].rel == rel;
      var j :| 0 <= j < |b| && b[j] == a[i];
    }
  }

  lemma MembersHashWithin(w: World, bytes: map<Inode, Bytes>, a: seq<Line>, b: seq<Line>, links: map<string, Inode>)
    requires Within(a, b) && MembersHash(w, bytes, b, |b|, links)
    ensures MembersHash(w, bytes, a, |a|, links)
  {
    forall i | 0 <= i < |a| && a[i].rel in links && links[a[i].rel] in bytes
      ensures DigestOk(w, a[i].member, bytes[links[a[i].rel]])
    {
      var j :| 0 <= j < |b| && b[j] == a[i];
    }
  }

  /** A tree at the manifest's address: the manifest's members, and complete exactly if it was not torn. */
  ghost predicate Serves(w: World, digest: string -> string, s: State, a: Address, manifest: seq<Line>) {
    && HasTree(s, Final(a)) && a in s.landed
    && (NoCollision(digest, s.landed[a].manifest, manifest) ==>
          && MembersHash(w, s.bytes, manifest, |manifest|, s.fs[Final(a)].links)
          && (Complete(w, s.bytes, manifest, s.fs[Final(a)].links) <==> !s.landed[a].torn))
  }

  lemma LandingServes(
    sha: Bytes -> string, digest: string -> string, s: State, a: Address, manifest: seq<Line>)
    requires HasTree(s, Final(a)) && LandingOk(HashWorld(sha, digest), s, a) && BundleHash(digest, manifest) == Some(a)
    ensures Serves(HashWorld(sha, digest), digest, s, a, manifest)
  {
    var w := HashWorld(sha, digest);
    var built := s.landed[a].manifest;
    assert w.bundle(built) == BundleHash(digest, built);
    if NoCollision(digest, built, manifest) {
      AddressIdentifiesManifest(digest, built, manifest);
      PathsWithin(built, manifest);
      PathsWithin(manifest, built);
      MembersHashWithin(w, s.bytes, manifest, built, s.fs[Final(a)].links);
    }
  }

  /**
   * In every run, a directory at the address of a manifest holds only that manifest's members, each
   * with its own bytes, and all of them if and only if it was not torn.
   */
  lemma TreeServesItsManifest(
    sha: Bytes -> string, digest: string -> string, steps: seq<Step>, a: Address, manifest: seq<Line>)
    requires Runs(HashWorld(sha, digest), EMPTY, steps) && AllProper(steps)
    requires BundleHash(digest, manifest) == Some(a) && HasTree(After(HashWorld(sha, digest), EMPTY, steps), Final(a))
    ensures Serves(HashWorld(sha, digest), digest, After(HashWorld(sha, digest), EMPTY, steps), a, manifest)
  {
    var w := HashWorld(sha, digest);
    RunKeepsInv(w, EMPTY, steps);
    LandingServes(sha, digest, After(w, EMPTY, steps), a, manifest);
  }
}

/** Size-rotated log files (worker/executor_log.py), with characters as bytes. */
module ExecutorLog {

  /** `files[0]` is the current file, `files[k]` the backup `.k`. */
  type Files = map<nat, string>

  /** The files from number `n` down to the current one, oldest text first. */
  function Backlog(files: Files, n: nat): string {
    (if n in files then files[n] else "") + if n == 0 then "" else Backlog(files, n - 1)
  }

  predicate Suffix(a: string, b: string) {
    |a| <= |b| && a == b[|b| - |a|..]
  }

  lemma SuffixTransitive(a: string, b: string, c: string)
    requires Suffix(a, b) && Suffix(b, c)
    ensures Suffix(a, c)
  {
    assert a == c[|c| - |b|..][|b| - |a|..];
  }

  lemma SuffixAppend(a: string, b: string, tail: string)
    requires Suffix(a, b)
    ensures Suffix(a + tail, b + tail)
  {
  }

  predicate Numbered(files: Files, backups: nat) {
    forall k :: k in files ==> k <= backups
  }

  predicate Bounded(files: Files, limit: nat) {
    forall k :: k in files ==> |files[k]| <= limit
  }

  function Moved(files: Files, from: nat, to: nat): Files
    requires from in files && from != to
  {
    files[to := files[from]] - {from}
  }

  lemma {:induction false} BacklogBelow(a: Files, b: Files, n: nat)
    requires forall k :: 0 <= k <= n ==> (k in a <==> k in b) && (k in a ==> a[k] == b[k])
    ensures Backlog(a, n) == Backlog(b, n)
  {
    if n > 0 {
      BacklogBelow(a, b, n - 1);
    }
  }

  /** The text of the files below number `n`. */
  function Below(files: Files, n: nat): string {
    if n == 0 then "" else Backlog(files, n - 1)
  }

  function Text(files: Files, n: nat): string {
    if n in files then files[n] else ""
  }

  lemma MovedBelow(files: Files, i: nat)
    requires i in files
    ensures Below(Moved(files, i, i + 1), i) == Below(files, i)
  {
    if i > 0 {
      BacklogBelow(files, Moved(files, i, i + 1), i - 1);
    }
  }

  /** Moving file `i` up one: what the two numbers held, before and after. */
  lemma MovedAtTop(files: Files, i: nat)
    requires i in files
    ensures Backlog(files, i + 1) == Text(files, i + 1) + (files[i] + Below(files, i))
    ensures Backlog(Moved(files, i, i + 1), i + 1) == files[i] + Below(files, i)
  {
    var moved := Moved(files, i, i + 1);
    MovedBelow(files, i);
    assert Backlog(files, i) == files[i] + Below(files, i);
    assert Backlog(moved, i) == "" + Below(moved, i);
    assert "" + Below(moved, i) == Below(moved, i);
  }

  /** Into a free number nothing is lost. */
  lemma {:induction false} ShiftWithinKeepsAll(files: Files, i: nat, n: nat)
    requires i in files && i < n && i + 1 !in files
    ensures Backlog(Moved(files, i, i + 1), n) == Backlog(files, n)
    decreases n
  {
    if i + 1 == n {
      MovedAtTop(files, i);
      assert "" + (files[i] + Below(files, i)) == files[i] + Below(files, i);
    } else {
      ShiftWithinKeepsAll(files, i, n - 1);
      assert Text(Moved(files, i, i + 1), n) == Text(files, n);
    }
  }

  /**
   * Moving a file up by one number, into a free one or over the last: what is left is the same text,
   * or the same text without the oldest file.
   */
  lemma ShiftKeepsSuffix(files: Files, i: nat, n: nat)
    requires i in files && i < n && (i + 1 !in files || i + 1 == n)
    ensures Suffix(Backlog(Moved(files, i, i + 1), n), Backlog(files, n))
    ensures |Backlog(Moved(files, i, i + 1), n)| == |Backlog(files, n)| - if i + 1 in files then |files[i + 1]| else 0
  {
    if i + 1 == n {
      MovedAtTop(files, i);
    } else {
      ShiftWithinKeepsAll(files, i, n);
    }
  }

  lemma {:induction false} BacklogAppends(files: Files, line: string, n: nat)
    ensures Backlog(files[0 := (if 0 in files then files[0] else "") + line], n) == Backlog(files, n) + line
  {
    if n > 0 {
      BacklogAppends(files, line, n - 1);
    }
  }

  /** The files hold a suffix of `written`, in numbers up to the last backup, none above the limit. */
  ghost predicate Kept(files: Files, backups: nat, limit: nat, written: string) {
    Numbered(files, backups) && Bounded(files, limit) && Suffix(Backlog(files, backups), written)
  }

  lemma ShiftKeeps(files: Files, i: nat, backups: nat, limit: nat, written: string)
    requires Kept(files, backups, limit, written) && i in files && i < backups && (i + 1 !in files || i + 1 == backups)
    ensures Kept(Moved(files, i, i + 1), backups, limit, written)
  {
    ShiftKeepsSuffix(files, i, backups);
    SuffixTransitive(Backlog(Moved(files, i, i + 1), backups), Backlog(files, backups), written);
  }

  lemma OpenKeeps(files: Files, backups: nat, limit: nat, written: string)
    requires Kept(files, backups, limit, written)
    ensures 0 !in files ==> Kept(files[0 := ""], backups, limit, written)
  {
    BacklogAppends(files, "", backups);
    assert "" + "" == "";
    assert Backlog(files, backups) + "" == Backlog(files, backups);
  }

  /** The files once numbers `index` down to 1 have been moved up, highest first. */
  function Shifted(files: Files, index: nat): Files
    decreases index
  {
    if index == 0 then files
    else Shifted(if index in files then Moved(files, index, index + 1) else files, index - 1)
  }

  /** What `_rotate` leaves: everything one number up, the last one overwritten, and an empty current file. */
  function Rotated(files: Files, backups: nat): Files
    requires 1 <= backups
  {
    var shifted := Shifted(files, backups - 1);
    (if 0 in shifted then Moved(shifted, 0, 1) else shifted)[0 := ""]
  }

  /** Where the file of number `k` comes from once numbers up to `index` have been moved. */
  function Source(files: Files, index: nat, k: nat): nat {
    if 2 <= k <= index + 1 && k - 1 in files then k - 1 else k
  }

  /**
   * Number by number: each file from 1 to `index` is one up, and `index` + 1 survives only where nothing replaces it.
   */
  lemma {:induction false} ShiftedMoves(files: Files, index: nat, k: nat)
    ensures k in Shifted(files, index) <==>
            if k == 0 || k > index then Source(files, index, k) in files else k >= 2 && k - 1 in files
    ensures k in Shifted(files, index) ==>
        Source(files, index, k) in files && Shifted(files, index)[k] == files[Source(files, index, k)]
    decreases index
  {
    if index > 0 {
      var next := if index in files then Moved(files, index, index + 1) else files;
      ShiftedMoves(next, index - 1, k);
    }
  }

  /**
   * A rotation by number: `.1` is the old current file, `.k` the old `.k-1`, and the last survives only a gap before
   * it.
   */
  lemma RotatedByNumber(files: Files, backups: nat, k: nat)
    requires 1 <= backups && 0 in files && Numbered(files, backups)
    ensures Rotated(files, backups)[0] == ""
    ensures 1 <= k <= backups ==>
              (k in Rotated(files, backups) <==> k - 1 in files || (k == backups && k in files))
              && (k - 1 in files ==> Rotated(files, backups)[k] == files[k - 1])
  {
    ShiftedMoves(files, backups - 1, 0);
    ShiftedMoves(files, backups - 1, k);
  }

  lemma {:induction false} ShiftedSize(files: Files, index: nat, n: nat)
    requires index < n && (index + 1 !in files || index + 1 == n)
    ensures |Backlog(Shifted(files, index), n)| ==
            |Backlog(files, n)| - if 0 < index && index + 1 in files && index in files then |files[index + 1]| else 0
    ensures 0 in files ==> 0 in Shifted(files, index) && Shifted(files, index)[0] == files[0]
    ensures 0 < index ==> 1 !in Shifted(files, index)
    ensures index == 0 ==> Shifted(files, index) == files
    decreases index
  {
    if index > 0 {
      if index in files {
        ShiftKeepsSuffix(files, index, n);
        ShiftedSize(Moved(files, index, index + 1), index - 1, n);
      } else {
        ShiftedSize(files, index - 1, n);
      }
    }
  }

  /** A rotation loses the last backup, and that only when the one before it takes its place. */
  lemma RotationDropsOnlyTheOldest(files: Files, backups: nat)
    requires 1 <= backups && 0 in files
    ensures |Backlog(Rotated(files, backups), backups)| ==
            |Backlog(files, backups)| - if backups in files && backups - 1 in files then |files[backups]| else 0
  {
    var shifted := Shifted(files, backups - 1);
    ShiftedSize(files, backups - 1, backups);
    ShiftKeepsSuffix(shifted, 0, backups);
    BacklogAppends(Moved(shifted, 0, 1), "", backups);
    assert "" + "" == "";
  }

  /** The files after one line is appended, rotated first when it does not fit. */
  function Appended(files: Files, line: string, maxBytes: nat, backups: nat): Files
    requires 1 <= backups
  {
    var current := if 0 in files then files[0] else "";
    var ready := files[0 := current];
    var room := if |current| + |line| >= maxBytes then Rotated(ready, backups) else ready;
    room[0 := (if |current| + |line| >= maxBytes then "" else current) + line + "\n"]
  }

  /** The renames that the backups from `from` to the last but one call for go through. */
  ghost predicate RenamesGo(files: Files, from: nat, backups: nat, failing: nat -> bool) {
    forall k: nat :: from <= k < backups && k in files ==> !failing(k)
  }

  /** The line fits into the current file. */
  predicate HasRoom(files: Files, line: string, maxBytes: nat) {
    |Text(files, 0)| + |line| < maxBytes
  }

  /** A line that does not fit starts a new file, and every older one moves up. */
  lemma FullFileIsRotated(files: Files, line: string, maxBytes: nat, backups: nat, k: nat)
    requires 1 <= backups && Numbered(files, backups) && !HasRoom(files, line, maxBytes)
    ensures var after := Appended(files, line, maxBytes, backups);
            && 0 in after && after[0] == line + "\n" && 1 in after && after[1] == Text(files, 0)
            && (2 <= k <= backups ==> (k in after <==> k - 1 in files || (k == backups && k in files)))
            && (2 <= k <= backups && k - 1 in files ==> after[k] == files[k - 1])
  {
    var ready := files[0 := Text(files, 0)];
    RotatedByNumber(ready, backups, 1);
    RotatedByNumber(ready, backups, k);
    assert "" + line + "\n" == line + "\n";
  }

  class ExecutorLogSink {
    const maxBytes: nat
    const backups: nat
    var files: Files
    var isOpen: bool
    var broken: bool
    var closed: bool
    /** Everything ever written, the text found at the start included, and the longest line. */
    ghost var written: string
    ghost var longest: nat

    ghost function Limit(): nat
      reads this
    {
      if maxBytes >= longest + 1 then maxBytes else longest + 1
    }

    ghost predicate Valid()
      reads this
    {
      && 1 <= backups && Kept(files, backups, Limit(), written)
      && (isOpen ==> 0 in files)
    }

    /** Whatever files are there, in any numbering without a number above the last backup. */
    constructor (maxBytes: nat, backups: nat, found: Files, ghost longest: nat)
      requires 1 <= backups && Numbered(found, backups)
      requires Bounded(found, if maxBytes >= longest + 1 then maxBytes else longest + 1)
      ensures Valid() && this.maxBytes == maxBytes && this.backups == backups && files == found
      ensures written == Backlog(found, backups) && !broken && !closed
    {
      this.maxBytes, this.backups, files := maxBytes, backups, found;
      isOpen, broken, closed := false, false, false;
      written, this.longest := Backlog(found, backups), longest;
    }

    /** Shift the backups up by one, the current file to `.1`; stop at the first failing rename. */
    method Rotate(failing: nat -> bool) returns (ok: bool)
      requires Valid() && isOpen
      modifies `files, `isOpen
      ensures Valid() && ok == isOpen
      ensures ok ==> files == Rotated(old(files), backups)
      ensures ok <==> RenamesGo(old(files), 0, backups, failing)
    {
      isOpen := false;
      ok := ShiftBackups(failing);
      if !ok || failing(0) {
        return false;
      }
      ShiftKeeps(files, 0, backups, Limit(), written);
      files := Moved(files, 0, 1);
      OpenKeeps(files, backups, Limit(), written);
      files := files[0 := ""];
      isOpen := true;
    }

    /** `.1`, `.2`, ... up by one, highest first. */
    method ShiftBackups(failing: nat -> bool) returns (ok: bool)
      requires Valid() && !isOpen && 0 in files
      modifies `files
      ensures Valid() && 0 in files
      ensures ok ==> files == Shifted(old(files), backups - 1) && (1 in files ==> backups == 1)
      ensures ok <==> RenamesGo(old(files), 1, backups, failing)
    {
      ghost var before := files;
      var index := backups - 1;
      while index > 0
        invariant 0 <= index < backups && 0 in files && files[0] == before[0]
        invariant Kept(files, backups, Limit(), written)
        invariant Shifted(files, index) == Shifted(before, backups - 1)
        invariant index + 1 < backups ==> index + 1 !in files
        invariant forall k: nat :: 1 <= k <= index ==> (k in files <==> k in before)
        invariant RenamesGo(before, index + 1, backups, failing)
        modifies `files
      {
        if index in files {
          if failing(index) {
            return false;
          }
          ShiftKeeps(files, index, backups, Limit(), written);
          files := Moved(files, index, index + 1);
        }
        index := index - 1;
      }
      ok := true;
    }

    /**
     * Append one line. After `Close` it is dropped; the first failure mutes the sink and reports
     * once. The files always hold a suffix of everything written, at most `backups` + 1 of them.
     */
    method Write(line: string, failing: nat -> bool) returns (reported: bool)
      requires Valid()
      modifies this
      ensures Valid()
      ensures old(broken) || old(closed) ==>
              files == old(files) && written == old(written) && !reported && broken == old(broken)
      ensures closed == old(closed)
      ensures !old(broken) && !old(closed) ==> broken == reported
      ensures !old(broken) && !old(closed) && !broken ==> written == old(written) + line + "\n" && isOpen
      ensures !old(broken) && !old(closed) && !broken ==> files == Appended(old(files), line, maxBytes, backups)
      ensures !old(broken) && !old(closed) && HasRoom(old(files), line, maxBytes) ==>
                !reported && files == old(files)[0 := Text(old(files), 0) + line + "\n"]
      ensures reported ==> written == old(written)
      ensures reported <==>
              && !old(broken) && !old(closed) && !HasRoom(old(files), line, maxBytes)
              && !RenamesGo(old(files)[0 := Text(old(files), 0)], 0, backups, failing)
    {
      reported := false;
      if broken || closed {
        return;
      }
      if !isOpen {
        OpenKeeps(files, backups, Limit(), written);
        files := if 0 in files then files else files[0 := ""];
        isOpen := true;
      }
      ghost var ready := files;
      assert ready == old(files)[0 := if 0 in old(files) then old(files)[0] else ""];
      var full := |files[0]| + |line| >= maxBytes;
      if full {
        var ok := Rotate(failing);
        if !ok {
          broken := true;
          return true;
        }
      }
      assert files == if full then Rotated(ready, backups) else ready;
      Emit(line);
    }

    method Emit(line: string)
      requires Valid() && isOpen && (|files[0]| + |line| < maxBytes || files[0] == "")
      modifies `files, `written, `longest
      ensures Valid() && written == old(written) + line + "\n"
      ensures files == old(files)[0 := old(files)[0] + line + "\n"]
    {
      BacklogAppends(files, line + "\n", backups);
      SuffixAppend(Backlog(files, backups), written, line + "\n");
      files := files[0 := files[0] + (line + "\n")];
      written := written + line + "\n";
      longest := if longest >= |line| then longest else |line|;
      assert old(written) + (line + "\n") == written;
      assert old(files)[0] + (line + "\n") == old(files)[0] + line + "\n";
    }

    method Close()
      requires Valid()
      modifies this
      ensures Valid() && closed && !isOpen && files == old(files) && written == old(written) && broken == old(broken)
    {
      closed, isOpen := true, false;
    }

    method Resume()
      requires Valid()
      modifies `closed
      ensures Valid() && !closed
    {
      closed := false;
    }
  }

  function UpTo(n: nat): (r: set<nat>)
    ensures |r| == n + 1
    ensures forall k :: k in r <==> 0 <= k <= n
  {
    if n == 0 then {0} else UpTo(n - 1) + {n}
  }

  /** At most `backups` + 1 files. */
  lemma AtMostBackupsPlusOne(files: Files, backups: nat)
    requires Numbered(files, backups)
    ensures |files| <= backups + 1
  {
    assert files.Keys <= UpTo(backups);
    SubsetSmaller(files.Keys, UpTo(backups));
    assert |files| == |files.Keys|;
  }

  lemma {:induction false} SubsetSmaller(a: set<nat>, b: set<nat>)
    requires a <= b
    ensures |a| <= |b|
    decreases a
  {
    if a != {} {
      var x :| x in a;
      SubsetSmaller(a - {x}, b - {x});
    }
  }
}

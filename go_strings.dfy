/** The part of Go's `strings` package the session core relies on:
    `Index`, `Contains`, `HasPrefix` and `Split` with a non-empty separator.
    Strings are sequences of characters; the separators the core uses are
    whole UTF-8 sequences, so cutting at characters and cutting at bytes agree. */
module GoStrings {

  datatype Option<+T> = None | Some(value: T)

  /** `p` occurs in `s` starting at index `i`. */
  predicate OccursAt(s: string, p: string, i: nat) {
    i + |p| <= |s| && s[i..i + |p|] == p
  }

  /** The leftmost occurrence of `p` in `s` at or after index `k`. */
  function IndexFrom(s: string, p: string, k: nat): (r: Option<nat>)
    requires k <= |s|
    ensures r.Some? ==> k <= r.value <= |s| && OccursAt(s, p, r.value)
    ensures forall j: nat :: k <= j && (r.None? || j < r.value) ==> !OccursAt(s, p, j)
    decreases |s| - k
  {
    if OccursAt(s, p, k) then Some(k)
    else if k == |s| then None
    else IndexFrom(s, p, k + 1)
  }

  /** Go's `strings.Index`: the leftmost occurrence, `None` for Go's -1. */
  function IndexOf(s: string, p: string): Option<nat> {
    IndexFrom(s, p, 0)
  }

  /** Go's `strings.Contains`. */
  predicate Contains(s: string, p: string) {
    IndexOf(s, p).Some?
  }

  /** Go's `strings.HasPrefix`. */
  predicate HasPrefix(s: string, p: string) {
    |p| <= |s| && s[..|p|] == p
  }

  /** Go's `strings.Split(s, sep)` for a non-empty `sep`: the pieces between
      the non-overlapping occurrences of `sep`, found left to right. There is
      always one more piece than occurrences, so `Split("", sep) == [""]`. */
  function Split(s: string, sep: string): (r: seq<string>)
    requires |sep| > 0
    ensures |r| >= 1
    decreases |s|
  {
    var idx := IndexOf(s, sep);
    if idx.None? then [s] else [s[..idx.value]] + Split(s[idx.value + |sep|..], sep)
  }

  /** Go's `strings.Join`, the inverse of `Split`. */
  function Join(parts: seq<string>, sep: string): string
    requires |parts| >= 1
  {
    if |parts| == 1 then parts[0] else parts[0] + sep + Join(parts[1..], sep)
  }

  /** `Contains` means there is an occurrence somewhere. */
  lemma {:induction false} ContainsIff(s: string, p: string)
    ensures Contains(s, p) <==> exists i: nat :: OccursAt(s, p, i)
  {
    if !Contains(s, p) {
      forall i: nat ensures !OccursAt(s, p, i) {
      }
    }
  }

  /** A prefix of `s` that lies before every occurrence of `p` in `s`
      contains no occurrence of `p` itself. */
  lemma {:induction false} NoOccurrenceBefore(s: string, p: string, n: nat)
    requires n <= |s| && |p| > 0
    requires forall j: nat :: j < n ==> !OccursAt(s, p, j)
    ensures !Contains(s[..n], p)
  {
    if Contains(s[..n], p) {
      var j := IndexOf(s[..n], p).value;
      assert s[..n][j..j + |p|] == s[j..j + |p|];
      assert OccursAt(s, p, j);
      assert false;
    }
  }

  /** Splitting and joining again gives back the original string. */
  lemma {:induction false} SplitJoin(s: string, sep: string)
    requires |sep| > 0
    ensures Join(Split(s, sep), sep) == s
    decreases |s|
  {
    var idx := IndexOf(s, sep);
    if idx.Some? {
      var i := idx.value;
      var rest := s[i + |sep|..];
      SplitJoin(rest, sep);
      SplitUnfold(s, sep, i);
      JoinCons(s[..i], Split(rest, sep), sep);
      assert s == s[..i] + sep + rest;
    }
  }

  /** One step of `Split`: the text before the leftmost separator, then the
      pieces of what follows it. */
  lemma {:induction false} SplitUnfold(s: string, sep: string, i: nat)
    requires |sep| > 0 && IndexOf(s, sep) == Some(i)

    ensures Split(s, sep) == [s[..i]] + Split(s[i + |sep|..], sep)
  {
  }

  lemma {:induction false} JoinCons(a: string, t: seq<string>, sep: string)
    requires |t| >= 1
    ensures Join([a] + t, sep) == a + sep + Join(t, sep)
  {
    assert ([a] + t)[1..] == t;
  }

  /** No piece produced by `Split` contains the separator. */
  lemma {:induction false} SplitPiecesFree(s: string, sep: string)
    requires |sep| > 0
    ensures forall k :: 0 <= k < |Split(s, sep)| ==> !Contains(Split(s, sep)[k], sep)
    decreases |s|
  {
    match IndexOf(s, sep)
    case None =>
    case Some(i) =>
      var rest := s[i + |sep|..];
      SplitPiecesFree(rest, sep);
      NoOccurrenceBefore(s, sep, i);
      assert Split(s, sep) == [s[..i]] + Split(rest, sep);
  }

  /** A piece of `s` ending at `n` is cut there: `n` is the end of `s` or the
      start of a separator. */
  predicate PieceEnds(s: string, sep: string, n: nat) {
    n == |s| || OccursAt(s, sep, n)
  }

  /** An occurrence in a suffix of `s` is an occurrence in `s`, shifted. */
  lemma {:induction false} OccursShift(s: string, p: string, k: nat, j: nat)
    requires k <= |s|
    ensures OccursAt(s[k..], p, j) <==> OccursAt(s, p, k + j)
  {
    if k + j + |p| <= |s| {
      assert s[k..][j..j + |p|] == s[k + j..k + j + |p|];
    }
  }

  /** The first piece of `Split` is the text before the leftmost separator,
      or all of `s` when there is none; the other pieces are those of the text
      after that separator. */
  lemma {:induction false} SplitFirst(s: string, sep: string)
    requires |sep| > 0
    ensures var r := Split(s, sep);
      && |r[0]| <= |s| && r[0] == s[..|r[0]|]
      && (forall j: nat :: j < |r[0]| ==> !OccursAt(s, sep, j))
      && (|r| == 1 <==> !Contains(s, sep))
      && (|r| == 1 ==> r[0] == s)
      && (|r| > 1 ==> IndexOf(s, sep) == Some(|r[0]|))
  {
    var idx := IndexOf(s, sep);
    if idx.Some? {
      var i := idx.value;
      SplitUnfold(s, sep, i);
      var r := Split(s, sep);
      assert r[0] == s[..i];
    }
  }

  /** The first two pieces of `Split`: when there is a separator, the first
      piece, the separator and the second piece form a prefix of `s`; the first
      piece ends at the leftmost separator and the second runs up to the next
      separator or to the end of `s`. */
  lemma {:induction false} SplitHead(s: string, sep: string)
    requires |sep| > 0
    ensures var r := Split(s, sep);
      |r| > 1 ==>
        && |r[0]| + |sep| + |r[1]| <= |s|
        && s[..|r[0]| + |sep| + |r[1]|] == r[0] + sep + r[1]
        && (forall j: nat :: |r[0]| + |sep| <= j < |r[0]| + |sep| + |r[1]| ==> !OccursAt(s, sep, j))
        && PieceEnds(s, sep, |r[0]| + |sep| + |r[1]|)
  {
    var r := Split(s, sep);
    SplitFirst(s, sep);
    if |r| > 1 {
      var k := |r[0]| + |sep|;
      var rest := s[k..];
      SplitUnfold(s, sep, |r[0]|);
      SplitFirst(rest, sep);
      var tail := Split(rest, sep);
      var b := r[1];
      assert b == tail[0];
      var last := |tail| == 1;
      assert last ==> b == rest;
      assert !last ==> OccursAt(rest, sep, |b|);
      SecondPiece(s, sep, r[0], b, last);
      assert PieceEnds(s, sep, |r[0]| + |sep| + |r[1]|);
    }
  }

  /** The facts `SplitHead` needs, stated over the pieces alone. */
  lemma {:induction false} SecondPiece(s: string, sep: string, a: string, b: string, last: bool)
    requires |a| + |sep| <= |s| && s[..|a| + |sep|] == a + sep
    requires |b| <= |s| - |a| - |sep| && s[|a| + |sep|..][..|b|] == b
    requires forall j: nat {:trigger OccursAt(s[|a| + |sep|..], sep, j)} :: j < |b| ==> !OccursAt(s[|a| + |sep|..], sep, j)
    requires last ==> b == s[|a| + |sep|..]
    requires !last ==> OccursAt(s[|a| + |sep|..], sep, |b|)
    ensures |a| + |sep| + |b| <= |s| && s[..|a| + |sep| + |b|] == a + sep + b
    ensures forall j: nat :: |a| + |sep| <= j < |a| + |sep| + |b| ==> !OccursAt(s, sep, j)
    ensures PieceEnds(s, sep, |a| + |sep| + |b|)
  {
    var k := |a| + |sep|;
    assert s[..k + |b|] == s[..k] + s[k..][..|b|];
    forall j: nat | k <= j < k + |b|
      ensures !OccursAt(s, sep, j)
    {
      OccursShift(s, sep, k, j - k);
    }
    if !last {
      OccursShift(s, sep, k, |b|);
    }
  }

  /** Splitting on a single character gives one piece more than the number of
      times that character occurs. */
  lemma {:induction false} SplitCountChar(s: string, c: char)
    ensures |Split(s, [c])| == multiset(s)[c] + 1
    decreases |s|
  {
    match IndexOf(s, [c])
    case None =>
      CharAbsent(s, c, |s|);
      assert s[..|s|] == s;
    case Some(i) =>
      var rest := s[i + 1..];
      SplitCountChar(rest, c);
      CharAbsent(s, c, i);
      assert Split(s, [c]) == [s[..i]] + Split(rest, [c]);
      assert s[i..i + 1] == [c];
      assert s == s[..i] + [c] + rest;
      assert multiset(s) == multiset(s[..i]) + multiset([c]) + multiset(rest);
  }

  /** A character with no occurrence among the first `n` positions is absent
      from `s[..n]`. */
  lemma {:induction false} CharAbsent(s: string, c: char, n: nat)
    requires n <= |s|
    requires forall j: nat :: j < n ==> !OccursAt(s, [c], j)
    ensures multiset(s[..n])[c] == 0
  {
    forall j | 0 <= j < n ensures s[..n][j] != c {
      assert !OccursAt(s, [c], j);
      assert s[j..j + 1] == [s[j]];
    }
    assert c !in s[..n];
  }
}

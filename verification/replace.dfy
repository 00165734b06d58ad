/**
  Replacing every occurrence of a literal pattern, as `string.Replace` and a
  `Regex.Replace` whose pattern has no special characters do it: matches are
  found left to right, do not overlap, and the inserted text is not searched
  again.
*/
module TextReplace {

  /** `pat` occurs in `s` at position `k`. */
  predicate OccursAt(s: string, pat: string, k: nat) {
    k + |pat| <= |s| && s[k..k + |pat|] == pat
  }

  predicate Occurs(s: string, pat: string) {
    exists k: nat :: k <= |s| && OccursAt(s, pat, k)
  }

  /** Every occurrence of `pat` in `s`, leftmost first, replaced by `rep`. */
  function ReplaceAll(s: string, pat: string, rep: string): string
    requires pat != []
    decreases |s|
  {
    if |s| < |pat| then s
    else if s[..|pat|] == pat then rep + ReplaceAll(s[|pat|..], pat, rep)
    else [s[0]] + ReplaceAll(s[1..], pat, rep)
  }

  /**
    No proper suffix of `pat` is also a prefix of it, so two occurrences can
    never overlap, and an occurrence cannot start inside text placed just
    before another one.
  */
  predicate Borderless(pat: string) {
    forall m :: 0 < m < |pat| ==> pat[m..] != pat[..|pat| - m]
  }

  /** Text in which the pattern does not occur is left as it is. */
  lemma {:induction false} ReplaceAbsent(s: string, pat: string, rep: string)
    requires pat != [] && !Occurs(s, pat)
    ensures ReplaceAll(s, pat, rep) == s
    decreases |s|
  {
    if |s| >= |pat| {
      assert !OccursAt(s, pat, 0);
      AbsentFromTail(s, pat);
      ReplaceAbsent(s[1..], pat, rep);
    }
  }

  /**
    When the pattern does not occur in `a`, the first occurrence in
    `a + pat + b` is the one right after `a`: it is replaced and `a` is kept.
  */
  lemma {:induction false} ReplaceFirst(a: string, b: string, pat: string, rep: string)
    requires pat != [] && Borderless(pat) && !Occurs(a, pat)
    ensures ReplaceAll(a + pat + b, pat, rep) == a + rep + ReplaceAll(b, pat, rep)
    decreases |a|
  {
    var t := a + pat + b;
    if a == [] {
      assert t == pat + b;
      ReplaceHit(t, pat, rep);
      assert t[|pat|..] == b;
    } else {
      NoOccurrenceAtStart(a, b, pat);
      ReplaceSkip(t, pat, rep);
      assert t[1..] == a[1..] + pat + b;
      AbsentFromTail(a, pat);
      ReplaceFirst(a[1..], b, pat, rep);
      var tail := ReplaceAll(b, pat, rep);
      assert [a[0]] + (a[1..] + rep + tail) == ([a[0]] + a[1..]) + rep + tail;
      assert [a[0]] + a[1..] == a;
    }
  }

  /** An occurrence at the start is replaced and the search resumes after it. */
  lemma ReplaceHit(s: string, pat: string, rep: string)
    requires pat != [] && |s| >= |pat| && s[..|pat|] == pat
    ensures ReplaceAll(s, pat, rep) == rep + ReplaceAll(s[|pat|..], pat, rep)
  {
  }

  /** Without an occurrence at the start, the first character is kept. */
  lemma ReplaceSkip(s: string, pat: string, rep: string)
    requires pat != [] && |s| >= |pat| && s[..|pat|] != pat
    ensures ReplaceAll(s, pat, rep) == [s[0]] + ReplaceAll(s[1..], pat, rep)
  {
  }

  /** A borderless pattern that does not occur in a non-empty `a` does not start `a + pat + b`. */
  lemma NoOccurrenceAtStart(a: string, b: string, pat: string)
    requires a != [] && Borderless(pat) && !Occurs(a, pat)
    ensures |a + pat + b| >= |pat| && (a + pat + b)[..|pat|] != pat
  {
    var t := a + pat + b;
    if |a| >= |pat| {
      assert !OccursAt(a, pat, 0);
      assert t[..|pat|] == a[..|pat|];
    } else {
      var m := |a|;
      assert t[..|pat|] == a + pat[..|pat| - m];
      assert pat[m..] != pat[..|pat| - m];
    }
  }

  lemma AbsentFromTail(a: string, pat: string)
    requires a != [] && !Occurs(a, pat)
    ensures !Occurs(a[1..], pat)
  {
    forall k: nat
      ensures !OccursAt(a[1..], pat, k)
    {
      if OccursAt(a[1..], pat, k) {
        assert a[1..][k..k + |pat|] == a[k + 1..k + 1 + |pat|];
        assert OccursAt(a, pat, k + 1);
      }
    }
  }

  /** The pieces of a text between the occurrences of `sep`, put back together around `sep`. */
  function Join(parts: seq<string>, sep: string): string
    requires |parts| >= 1
  {
    if |parts| == 1 then parts[0] else parts[0] + sep + Join(parts[1..], sep)
  }

  /**
    Every occurrence of the pattern is replaced and nothing else changes: text
    made of pieces without the pattern, joined by the pattern, becomes the
    same pieces joined by the replacement.
  */
  lemma {:induction false} ReplaceJoin(parts: seq<string>, pat: string, rep: string)
    requires |parts| >= 1 && pat != [] && Borderless(pat)
    requires forall i :: 0 <= i < |parts| ==> !Occurs(parts[i], pat)
    ensures ReplaceAll(Join(parts, pat), pat, rep) == Join(parts, rep)
  {
    if |parts| == 1 {
      ReplaceAbsent(parts[0], pat, rep);
    } else {
      ReplaceFirst(parts[0], Join(parts[1..], pat), pat, rep);
      ReplaceJoin(parts[1..], pat, rep);
    }
  }

  /**
    The pieces of `s` between the occurrences of `pat`, found left to right
    without overlap as `ReplaceAll` finds them.
  */
  function Pieces(s: string, pat: string): (parts: seq<string>)
    requires pat != []
    ensures |parts| >= 1
    decreases |s|
  {
    if |s| < |pat| then [s]
    else if s[..|pat|] == pat then [""] + Pieces(s[|pat|..], pat)
    else
      var rest := Pieces(s[1..], pat);
      [[s[0]] + rest[0]] + rest[1..]
  }

  /** The pieces joined by the pattern give the text back. */
  lemma {:induction false} JoinPieces(s: string, pat: string)
    requires pat != []
    ensures Join(Pieces(s, pat), pat) == s
    decreases |s|
  {
    if |s| >= |pat| {
      if s[..|pat|] == pat {
        JoinPieces(s[|pat|..], pat);
        JoinEmptyHead(Pieces(s[|pat|..], pat), pat);
        assert s == s[..|pat|] + s[|pat|..];
      } else {
        JoinPieces(s[1..], pat);
        JoinExtendHead([s[0]], Pieces(s[1..], pat), pat);
        assert s == [s[0]] + s[1..];
      }
    }
  }

  lemma JoinEmptyHead(rest: seq<string>, sep: string)
    requires |rest| >= 1
    ensures Join([""] + rest, sep) == sep + Join(rest, sep)
  {
    assert ([""] + rest)[1..] == rest;
  }

  lemma JoinExtendHead(x: string, rest: seq<string>, sep: string)
    requires |rest| >= 1
    ensures Join([x + rest[0]] + rest[1..], sep) == x + Join(rest, sep)
  {
    var parts := [x + rest[0]] + rest[1..];
    if |rest| > 1 {
      assert parts[1..] == rest[1..];
      assert (x + rest[0]) + sep + Join(rest[1..], sep) == x + (rest[0] + sep + Join(rest[1..], sep));
    }
  }

  /** The first piece is where the text starts. */
  lemma FirstPiecePrefix(s: string, pat: string)
    requires pat != []
    ensures Pieces(s, pat)[0] <= s
  {
    JoinPieces(s, pat);
    var parts := Pieces(s, pat);
    if |parts| > 1 {
      assert Join(parts, pat) == parts[0] + (pat + Join(parts[1..], pat));
    }
  }

  /** No piece holds the pattern. */
  lemma {:induction false} PiecesClean(s: string, pat: string)
    requires pat != []
    ensures forall i :: 0 <= i < |Pieces(s, pat)| ==> !Occurs(Pieces(s, pat)[i], pat)
    decreases |s|
  {
    var parts := Pieces(s, pat);
    if |s| < |pat| {
      assert parts == [s];
    } else if s[..|pat|] == pat {
      PiecesClean(s[|pat|..], pat);
      var rest := Pieces(s[|pat|..], pat);
      assert parts == [""] + rest;
      forall i | 0 <= i < |parts|
        ensures !Occurs(parts[i], pat)
      {
        if i > 0 {
          assert parts[i] == rest[i - 1];
        }
      }
    } else {
      PiecesClean(s[1..], pat);
      var rest := Pieces(s[1..], pat);
      FirstPiecePrefix(s[1..], pat);
      ConsAbsent(s, rest[0], pat);
      forall i | 0 <= i < |parts|
        ensures !Occurs(parts[i], pat)
      {
        if i > 0 {
          assert parts[i] == rest[i];
        }
      }
    }
  }

  /**
    A first character at which the pattern does not start, in front of text
    without the pattern, makes text without the pattern.
  */
  lemma ConsAbsent(s: string, r: string, pat: string)
    requires pat != [] && |s| >= |pat| && s[..|pat|] != pat
    requires r <= s[1..] && !Occurs(r, pat)
    ensures !Occurs([s[0]] + r, pat)
  {
    var a := [s[0]] + r;
    forall k: nat | k <= |a|
      ensures !OccursAt(a, pat, k)
    {
      if k == 0 {
        if |pat| <= |a| {
          assert a[..|pat|] == s[..|pat|];
        }
      } else if OccursAt(a, pat, k) {
        assert a[k..k + |pat|] == r[k - 1..k - 1 + |pat|];
        assert OccursAt(r, pat, k - 1);
      }
    }
  }

  /** With a one-character pattern, the first character is replaced or kept on its own. */
  lemma ReplaceCharCons(first: char, rest: string, c: char, rep: string)
    ensures ReplaceAll([first] + rest, [c], rep) == (if first == c then rep else [first]) + ReplaceAll(rest, [c], rep)
  {
    var s := [first] + rest;
    assert s[..1] == [first] && s[1..] == rest;
  }

  /** With a one-character pattern, replacing distributes over concatenation. */
  lemma {:induction false} ReplaceCharConcat(x: string, y: string, c: char, rep: string)
    ensures ReplaceAll(x + y, [c], rep) == ReplaceAll(x, [c], rep) + ReplaceAll(y, [c], rep)
    decreases |x|
  {
    if x == [] {
      assert x + y == y;
    } else {
      assert x + y == [x[0]] + (x[1..] + y);
      assert x == [x[0]] + x[1..];
      ReplaceCharCons(x[0], x[1..] + y, c, rep);
      ReplaceCharConcat(x[1..], y, c, rep);
      ReplaceCharCons(x[0], x[1..], c, rep);
      var first := if x[0] == c then rep else [x[0]];
      var rx, ry := ReplaceAll(x[1..], [c], rep), ReplaceAll(y, [c], rep);
      assert first + (rx + ry) == (first + rx) + ry;
    }
  }
}

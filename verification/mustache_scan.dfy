/**
  The two patterns of the Mustache renderer, matched by hand.

  A variable tag is `{{`, the shortest run of characters other than a line
  feed, then `}}`. A section is `{{#name}}` or `{{^name}}`, where the name is a
  non-empty run of letters, digits, `_` and `.`, then the shortest body (which
  may span lines) up to `{{/name}}` with the same name. Both are searched
  leftmost first, as a regular-expression engine does.

  The scanners' own contracts keep to bounds; what they find (the first
  occurrence, the leftmost match, the trimmed text) is stated by the lemmas
  next to them.
*/
module MustacheScan {
  import opened Wrappers

  // ---------------------------------------------------------------------------
  // String.Trim

  /** char.IsWhiteSpace: the Unicode separators and the control characters U+0009 to U+000D and U+0085. */
  predicate IsWhiteSpace(c: char) {
    c == ' ' || '\t' <= c <= '\r' || c == '\U{85}' || c == '\U{A0}' || c == '\U{1680}' ||
    '\U{2000}' <= c <= '\U{200A}' || c == '\U{2028}' || c == '\U{2029}' || c == '\U{202F}' ||
    c == '\U{205F}' || c == '\U{3000}'
  }

  predicate AllWhiteSpace(s: string) {
    s == [] || (IsWhiteSpace(s[0]) && AllWhiteSpace(s[1..]))
  }

  lemma {:induction false} WhiteSpaceConcat(a: string, b: string)
    requires AllWhiteSpace(a) && AllWhiteSpace(b)
    ensures AllWhiteSpace(a + b)
  {
    if a != [] {
      assert (a + b)[0] == a[0];
      assert (a + b)[1..] == a[1..] + b;
      WhiteSpaceConcat(a[1..], b);
    } else {
      assert a + b == b;
    }
  }

  /** A white-space character followed by white space. */
  lemma WhiteSpacePrefixCons(s: string, n: nat)
    requires 1 <= n <= |s| && IsWhiteSpace(s[0]) && AllWhiteSpace(s[1..][..n - 1])
    ensures AllWhiteSpace(s[..n])
  {
    assert s[..n][1..] == s[1..][..n - 1];
  }

  /** White space followed by a white-space character. */
  lemma WhiteSpaceSuffixSnoc(s: string, k: nat)
    requires k < |s| && IsWhiteSpace(s[|s| - 1]) && AllWhiteSpace(s[..|s| - 1][k..])
    ensures AllWhiteSpace(s[k..])
  {
    assert s[k..] == s[..|s| - 1][k..] + [s[|s| - 1]];
    WhiteSpaceConcat(s[..|s| - 1][k..], [s[|s| - 1]]);
  }

  /** How many white-space characters `s` starts with. */
  function LeadingWhiteSpace(s: string): (n: nat)
    ensures n <= |s|
  {
    if s != [] && IsWhiteSpace(s[0]) then 1 + LeadingWhiteSpace(s[1..]) else 0
  }

  /** String.TrimStart: the leading white space removed. */
  function TrimStart(s: string): string {
    s[LeadingWhiteSpace(s)..]
  }

  /** The leading run is white space, and the character after it is not. */
  lemma {:induction false} LeadingWhiteSpaceSpec(s: string)
    ensures AllWhiteSpace(s[..LeadingWhiteSpace(s)])
    ensures LeadingWhiteSpace(s) == |s| || !IsWhiteSpace(s[LeadingWhiteSpace(s)])
  {
    if s != [] && IsWhiteSpace(s[0]) {
      LeadingWhiteSpaceSpec(s[1..]);
      WhiteSpacePrefixCons(s, LeadingWhiteSpace(s));
    } else {
      assert s[..0] == [];
    }
  }

  /** How many white-space characters `s` ends with. */
  function TrailingWhiteSpace(s: string): (n: nat)
    ensures n <= |s|
  {
    if s != [] && IsWhiteSpace(s[|s| - 1]) then 1 + TrailingWhiteSpace(s[..|s| - 1]) else 0
  }

  /** String.TrimEnd: the trailing white space removed. */
  function TrimEnd(s: string): string {
    s[..|s| - TrailingWhiteSpace(s)]
  }

  /** The trailing run is white space, and the character before it is not. */
  lemma {:induction false} TrailingWhiteSpaceSpec(s: string)
    ensures AllWhiteSpace(s[|s| - TrailingWhiteSpace(s)..])
    ensures TrailingWhiteSpace(s) == |s| || !IsWhiteSpace(s[|s| - TrailingWhiteSpace(s) - 1])
  {
    if s != [] && IsWhiteSpace(s[|s| - 1]) {
      var s' := s[..|s| - 1];
      TrailingWhiteSpaceSpec(s');
      WhiteSpaceSuffixSnoc(s, |s| - TrailingWhiteSpace(s));
    } else {
      assert s[|s|..] == [];
    }
  }

  /** String.Trim: white space removed from both ends. */
  function Trim(s: string): string {
    TrimEnd(TrimStart(s))
  }

  /** `r` is `s` without the white space of `s[..i]` and of what follows `r`. */
  predicate Trimmed(s: string, r: string, i: int) {
    0 <= i <= |s| - |r| && r == s[i..i + |r|] && AllWhiteSpace(s[..i]) && AllWhiteSpace(s[i + |r|..])
  }

  /**
    What Trim removes is white space at the two ends, and what it leaves
    neither starts nor ends with white space.
  */
  lemma TrimSpec(s: string)
    ensures exists i :: Trimmed(s, Trim(s), i)
    ensures Trim(s) == [] || (!IsWhiteSpace(Trim(s)[0]) && !IsWhiteSpace(Trim(s)[|Trim(s)| - 1]))
  {
    var l := LeadingWhiteSpace(s);
    var t := TrimStart(s);
    var r := Trim(s);
    LeadingWhiteSpaceSpec(s);
    TrailingWhiteSpaceSpec(t);
    assert s[l + |r|..] == t[|r|..];
    assert Trimmed(s, r, l);
    if r != [] {
      assert r[0] == s[l];
      assert r[|r| - 1] == t[|t| - TrailingWhiteSpace(t) - 1];
    }
  }

  /** Trimming twice is trimming once. */
  lemma TrimIdempotent(s: string)
    ensures Trim(Trim(s)) == Trim(s)
  {
    var r := Trim(s);
    TrimSpec(s);
    assert LeadingWhiteSpace(r) == 0;
    assert r[0..] == r;
    assert TrailingWhiteSpace(r) == 0;
  }

  // ---------------------------------------------------------------------------
  // Variable tags: {{(.*?)}}

  predicate Closes(t: string, k: int) {
    0 <= k && k + 1 < |t| && t[k] == '}' && t[k + 1] == '}'
  }

  /** The first `}}` at or after `j`, provided no line feed comes before it. */
  function TagClose(t: string, j: nat): (r: Option<nat>)
    decreases |t| - j
    ensures r.Some? ==> j <= r.value && Closes(t, r.value)
  {
    if j + 1 >= |t| then None
    else if t[j] == '}' && t[j + 1] == '}' then Some(j)
    else if t[j] == '\n' then None
    else TagClose(t, j + 1)
  }

  /**
    The lazy `.*?` of the tag pattern: the tag closes at the first `}}`, with no
    line feed before it, and there is no tag when a line feed comes before
    every `}}`.
  */
  lemma {:induction false} TagCloseSpec(t: string, j: nat)
    decreases |t| - j
    ensures var r := TagClose(t, j);
      r.Some? ==>
        && '\n' !in t[j..r.value]
        && forall k :: j <= k < r.value ==> !Closes(t, k)
    ensures TagClose(t, j).None? ==> forall k :: j <= k && Closes(t, k) ==> '\n' in t[j..k]
  {
    if j + 1 < |t| && !(t[j] == '}' && t[j + 1] == '}') && t[j] != '\n' {
      TagCloseSpec(t, j + 1);
      var r := TagClose(t, j + 1);
      assert r.Some? ==> t[j..r.value] == [t[j]] + t[j + 1..r.value];
      assert forall k :: j + 1 <= k <= |t| ==> t[j..k] == [t[j]] + t[j + 1..k];
    }
  }

  /** A variable tag at the start of `t`: the index of its closing `}}`. */
  function TagAt(t: string): (r: Option<nat>)
    ensures r.Some? ==> 2 <= r.value && |t| >= 2 && t[0] == '{' && t[1] == '{' && Closes(t, r.value)
  {
    if |t| >= 2 && t[0] == '{' && t[1] == '{' then TagClose(t, 2) else None
  }

  /**
    A tag at the start of `t` is `{{`, content without a line feed, and the
    first `}}` after it; there is none when `t` does not start with `{{` or a
    line feed comes before every `}}`.
  */
  lemma TagAtSpec(t: string)
    ensures var r := TagAt(t);
      r.Some? ==> t[..2] == "{{" && '\n' !in t[2..r.value] && forall k :: 2 <= k < r.value ==> !Closes(t, k)
    ensures TagAt(t).None? ==>
      !(|t| >= 2 && t[0] == '{' && t[1] == '{') || forall k :: 2 <= k && Closes(t, k) ==> '\n' in t[2..k]
  {
    if |t| >= 2 && t[0] == '{' && t[1] == '{' {
      TagCloseSpec(t, 2);
    }
  }

  /** Content in which no `}}` starts and which does not end with `}`: every `}` is followed by another character. */
  predicate NoTagEnd(content: string) {
    forall k :: 0 <= k < |content| && content[k] == '}' ==> k + 1 < |content| && content[k + 1] != '}'
  }

  /** A tag whose content has no line feed and no `}}`, and does not end with `}`, is matched exactly up to its own `}}`. */
  lemma TagAtShape(content: string, rest: string)
    requires '\n' !in content && NoTagEnd(content)
    ensures TagAt("{{" + content + "}}" + rest) == Some(|content| + 2)
  {
    var t := "{{" + content + "}}" + rest;
    var e := |content| + 2;
    assert t[2..e] == content;
    assert forall k :: 2 <= k < e ==> t[k] == content[k - 2];
    assert Closes(t, e);
    forall k | 2 <= k < e
      ensures !Closes(t, k)
    {
      if t[k] == '}' {
        assert content[k - 2] == '}';
        assert t[k + 1] == content[k - 1];
      }
    }
    TagCloseSpec(t, 2);
  }

  /** Text that does not open a tag. */
  lemma NoTagAt(t: string)
    requires t != [] && t[0] != '{'
    ensures TagAt(t).None?
  {
  }

  // ---------------------------------------------------------------------------
  // Sections: {{[#^]([A-Za-z0-9_\.]+)}}(.*?){{/\1}}, single-line mode

  predicate IsNameChar(c: char) {
    'A' <= c <= 'Z' || 'a' <= c <= 'z' || '0' <= c <= '9' || c == '_' || c == '.'
  }

  /** The end of the run of name characters starting at `j`. */
  function NameEnd(t: string, j: nat): (e: nat)
    requires j <= |t|
    decreases |t| - j
    ensures j <= e <= |t| && (e == |t| || !IsNameChar(t[e]))
  {
    if j < |t| && IsNameChar(t[j]) then NameEnd(t, j + 1) else j
  }

  /** The run NameEnd stops at is made of name characters only. */
  lemma {:induction false} NameEndSpec(t: string, j: nat)
    requires j <= |t|
    decreases |t| - j
    ensures forall k :: j <= k < NameEnd(t, j) ==> IsNameChar(t[k])
  {
    if j < |t| && IsNameChar(t[j]) {
      NameEndSpec(t, j + 1);
    }
  }

  predicate StartsAt(t: string, pat: string, k: nat) {
    k + |pat| <= |t| && t[k..k + |pat|] == pat
  }

  /** The first occurrence of `pat` at or after `k`. */
  function FindFrom(t: string, pat: string, k: nat): (r: Option<nat>)
    decreases |t| - k
    ensures r.Some? ==> k <= r.value && r.value + |pat| <= |t|
  {
    if k + |pat| > |t| then None
    else if t[k..k + |pat|] == pat then Some(k)
    else FindFrom(t, pat, k + 1)
  }

  /** FindFrom finds an occurrence and no earlier one; when it finds none there is none. */
  lemma {:induction false} FindFromSpec(t: string, pat: string, k: nat)
    decreases |t| - k
    ensures var r := FindFrom(t, pat, k);
      r.Some? ==> StartsAt(t, pat, r.value) && forall q :: k <= q < r.value ==> !StartsAt(t, pat, q)
    ensures FindFrom(t, pat, k).None? ==> forall q :: k <= q ==> !StartsAt(t, pat, q)
  {
    if k + |pat| <= |t| && t[k..k + |pat|] != pat {
      FindFromSpec(t, pat, k + 1);
    }
  }

  function CloseTag(name: string): string {
    "{{/" + name + "}}"
  }

  /** A matched section: where it starts and ends, whether it is inverted, its name and body. */
  datatype Section = Section(start: nat, inverted: bool, name: string, bodyStart: nat, bodyEnd: nat, end: nat)

  /** The positions of a section lie in order inside the text. */
  predicate WithinText(t: string, s: Section) {
    s.start + 5 < s.bodyStart <= s.bodyEnd < s.end <= |t|
  }

  /** The section the pattern matches when it starts at `p`, if any. */
  function SectionAt(t: string, p: nat): (r: Option<Section>)
    ensures r.Some? ==> r.value.start == p && WithinText(t, r.value)
  {
    if p + 3 <= |t| && t[p] == '{' && t[p + 1] == '{' && (t[p + 2] == '#' || t[p + 2] == '^') then
      var n := NameEnd(t, p + 3);
      if n > p + 3 && StartsAt(t, "}}", n) then
        var name := t[p + 3..n];
        match FindFrom(t, CloseTag(name), n + 2)
        case None => None
        case Some(k) => Some(Section(p, t[p + 2] == '^', name, n + 2, k, k + |name| + 5))
      else None
    else None
  }

  /** What a match at `p` is made of: the opening tag, the name run, and the first close tag after it. */
  lemma SectionAtParts(t: string, p: nat)
    requires SectionAt(t, p).Some?
    ensures var s := SectionAt(t, p).value; var n := s.bodyStart - 2;
      && p + 3 < n && n + 2 <= |t|
      && t[p] == '{' && t[p + 1] == '{' && (t[p + 2] == '#' || t[p + 2] == '^')
      && s.inverted == (t[p + 2] == '^')
      && n == NameEnd(t, p + 3) && s.name == t[p + 3..n] && t[n..n + 2] == "}}"
      && FindFrom(t, CloseTag(s.name), n + 2) == Some(s.bodyEnd)
      && s.end == s.bodyEnd + |s.name| + 5
  {
  }

  /** A matched section is the text `{{#name}}` or `{{^name}}`, a body, and `{{/name}}`. */
  lemma SectionAtShape(t: string, p: nat)
    requires SectionAt(t, p).Some?
    ensures var s := SectionAt(t, p).value;
      t[p..s.end] == "{{" + [if s.inverted then '^' else '#'] + s.name + "}}" + t[s.bodyStart..s.bodyEnd] + CloseTag(s.name)
  {
    var s := SectionAt(t, p).value;
    SectionAtParts(t, p);
    var n, close := s.bodyStart - 2, CloseTag(s.name);
    FindFromSpec(t, close, n + 2);
    assert |close| == |s.name| + 5;
    assert t[s.bodyEnd..s.end] == close;
    var c := if s.inverted then '^' else '#';
    assert t[p + 2] == c;
    ShapeFromParts(t, p, n, s.bodyEnd, s.end, s.name, c);
  }

  lemma ShapeFromParts(t: string, p: nat, n: nat, k: nat, e: nat, name: string, c: char)
    requires p + 3 <= n && n + 2 <= k && k + |name| + 5 == e <= |t|
    requires t[p] == '{' && t[p + 1] == '{' && t[p + 2] == c
    requires t[p + 3..n] == name && t[n..n + 2] == "}}" && t[k..e] == CloseTag(name)
    ensures t[p..e] == "{{" + [c] + name + "}}" + t[n + 2..k] + CloseTag(name)
  {
    assert t[p..p + 3] == "{{" + [c];
    SliceSplit(t, p, p + 3, n);
    SliceSplit(t, p, n, n + 2);
    SliceSplit(t, p, n + 2, k);
    SliceSplit(t, p, k, e);
  }

  /**
    The name of a matched section is a non-empty run of name characters, and
    its body ends at the first close tag with that name.
  */
  lemma SectionAtName(t: string, p: nat)
    requires SectionAt(t, p).Some?
    ensures var s := SectionAt(t, p).value;
      && s.name != [] && (forall i :: 0 <= i < |s.name| ==> IsNameChar(s.name[i]))
      && forall q :: s.bodyStart <= q < s.bodyEnd ==> !StartsAt(t, CloseTag(s.name), q)
  {
    var s := SectionAt(t, p).value;
    SectionAtParts(t, p);
    NameRun(t, p + 3, s.name);
    FirstClose(t, CloseTag(s.name), s.bodyStart, s.bodyEnd);
  }

  /** The run NameEnd stops at, taken as a name, is made of name characters. */
  lemma NameRun(t: string, j: nat, name: string)
    requires j <= |t| && name == t[j..NameEnd(t, j)]
    ensures forall i :: 0 <= i < |name| ==> IsNameChar(name[i])
  {
    NameEndSpec(t, j);
    forall i | 0 <= i < |name|
      ensures IsNameChar(name[i])
    {
      assert name[i] == t[j + i];
    }
  }

  /** No occurrence of `pat` starts between `k` and the one FindFrom returns. */
  lemma FirstClose(t: string, pat: string, k: nat, found: nat)
    requires FindFrom(t, pat, k) == Some(found)
    ensures forall q :: k <= q < found ==> !StartsAt(t, pat, q)
  {
    FindFromSpec(t, pat, k);
  }

  lemma SliceSplit(t: string, a: nat, b: nat, c: nat)
    requires a <= b <= c <= |t|
    ensures t[a..c] == t[a..b] + t[b..c]
  {
  }

  /** The leftmost section at or after `p`. */
  function SectionFrom(t: string, p: nat): (r: Option<Section>)
    decreases |t| - p
    ensures r.Some? ==> p <= r.value.start && WithinText(t, r.value)
  {
    if p >= |t| then None
    else if SectionAt(t, p).Some? then SectionAt(t, p)
    else SectionFrom(t, p + 1)
  }

  lemma {:induction false} SectionFromLeftmost(t: string, p: nat)
    decreases |t| - p
    ensures var r := SectionFrom(t, p);
      r.Some? ==> SectionAt(t, r.value.start) == r && forall q :: p <= q < r.value.start ==> SectionAt(t, q).None?
    ensures SectionFrom(t, p).None? ==> forall q :: p <= q ==> SectionAt(t, q).None?
  {
    if p >= |t| {
      forall q | p <= q
        ensures SectionAt(t, q).None?
      {
        assert q + 3 > |t|;
      }
    } else if SectionAt(t, p).Some? {
      assert SectionFrom(t, p) == SectionAt(t, p);
    } else {
      SectionFromLeftmost(t, p + 1);
      assert SectionFrom(t, p) == SectionFrom(t, p + 1);
    }
  }

  /** The leftmost section of `t`, as the first of the pattern's matches. */
  function FindSection(t: string): (r: Option<Section>)
    ensures r.Some? ==> WithinText(t, r.value)
  {
    SectionFrom(t, 0)
  }

  /**
    FindSection finds a match of the pattern and no match starts before it;
    when it finds none the pattern matches nowhere.
  */
  lemma FindSectionLeftmost(t: string)
    ensures var r := FindSection(t);
      r.Some? ==> SectionAt(t, r.value.start) == r && forall q :: 0 <= q < r.value.start ==> SectionAt(t, q).None?
    ensures FindSection(t).None? ==> forall q :: SectionAt(t, q).None?
  {
    SectionFromLeftmost(t, 0);
  }
}

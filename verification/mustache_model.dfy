/**
  The data a Mustache template is rendered against, and how the renderer finds
  a value in it.

  The renderer reads models by reflection. Here a model value says outright
  what reflection would find: whether it is null, a bool, a string, an
  enumerable (with its items), or any other object, together with its public
  instance properties and fields and what its ToString() returns.
*/
module MustacheModel {
  import opened Wrappers

  datatype MemberKind = Property | Field

  /** A public instance property or field: its declared name, its kind and its current value. */
  datatype Member = Member(name: string, kind: MemberKind, value: Value)

  datatype Value =
    | Null
    | Bool(b: bool)
    | Str(s: string)
      /** a non-string IEnumerable: the items it enumerates, its own members, its ToString() */
    | List(items: seq<Value>, members: seq<Member>, shown: string)
      /** any other object: its members and its ToString() */
    | Obj(members: seq<Member>, shown: string)

  /** ToString() of a non-null value; a bool prints as "True" or "False". */
  function Show(v: Value): string
    requires !v.Null?
  {
    match v
    case Bool(b) => if b then "True" else "False"
    case Str(s) => s
    case List(_, _, shown) => shown
    case Obj(_, shown) => shown
  }

  /** The members reflection sees; those of bool and string are not part of this model. */
  function Members(v: Value): seq<Member> {
    match v
    case List(_, members, _) => members
    case Obj(members, _) => members
    case _ => []
  }

  // ---------------------------------------------------------------------------
  // Case-insensitive names

  function LowerChar(c: char): char {
    if 'A' <= c <= 'Z' then (c as int + 32) as char else c
  }

  function Lower(s: string): (r: string)
    ensures |r| == |s| && forall i :: 0 <= i < |s| ==> r[i] == LowerChar(s[i])
  {
    seq(|s|, i requires 0 <= i < |s| => LowerChar(s[i]))
  }

  /** A name matches a path segment when they are equal ignoring case. */
  predicate SameName(name: string, part: string) {
    Lower(name) == Lower(part)
  }

  predicate Matches(m: Member, kind: MemberKind, part: string) {
    m.kind == kind && SameName(m.name, part)
  }

  /** The first member of the given kind whose name matches `part`, ignoring case. */
  function FindMember(members: seq<Member>, kind: MemberKind, part: string): Option<Value> {
    if members == [] then None
    else if Matches(members[0], kind, part) then Some(members[0].value)
    else FindMember(members[1..], kind, part)
  }

  /**
    FindMember finds nothing exactly when no member matches, and otherwise the
    value of the first member that matches.
  */
  lemma {:induction false} FindMemberSpec(members: seq<Member>, kind: MemberKind, part: string)
    ensures FindMember(members, kind, part).None? <==> forall i :: 0 <= i < |members| ==> !Matches(members[i], kind, part)
    ensures FindMember(members, kind, part).Some? ==>
      exists i :: (0 <= i < |members| && Matches(members[i], kind, part) &&
                   members[i].value == FindMember(members, kind, part).value &&
                   forall j :: 0 <= j < i ==> !Matches(members[j], kind, part))
  {
    if members != [] && !Matches(members[0], kind, part) {
      FindMemberSpec(members[1..], kind, part);
      assert forall i :: 1 <= i < |members| ==> members[i] == members[1..][i - 1];
      if FindMember(members, kind, part).Some? {
        var k :| 0 <= k < |members[1..]| && Matches(members[1..][k], kind, part) &&
          members[1..][k].value == FindMember(members, kind, part).value &&
          forall j :: 0 <= j < k ==> !Matches(members[1..][j], kind, part);
        assert Matches(members[k + 1], kind, part);
      }
    }
  }

  /** One step of a path: a property with that name if there is one, otherwise a field. */
  function Lookup(v: Value, part: string): Option<Value> {
    match FindMember(Members(v), Property, part)
    case Some(p) => Some(p)
    case None => FindMember(Members(v), Field, part)
  }

  // ---------------------------------------------------------------------------
  // Dotted paths

  /** String.Split('.'): the segments between dots, empty ones included. */
  function Split(s: string): (parts: seq<string>)
    ensures |parts| >= 1
  {
    if s == [] then [""]
    else
      var rest := Split(s[1..]);
      if s[0] == '.' then [""] + rest
      else [[s[0]] + rest[0]] + rest[1..]
  }

  /** No segment holds a dot. */
  lemma {:induction false} SplitSegments(s: string)
    ensures forall i :: 0 <= i < |Split(s)| ==> '.' !in Split(s)[i]
  {
    if s != [] {
      SplitSegments(s[1..]);
      var rest := Split(s[1..]);
      if s[0] != '.' {
        assert '.' !in [s[0]] + rest[0];
      }
    }
  }

  /** The segments put back together with dots. */
  function Join(parts: seq<string>): string
    requires |parts| >= 1
  {
    if |parts| == 1 then parts[0] else parts[0] + "." + Join(parts[1..])
  }

  lemma {:induction false} JoinSplit(s: string)
    ensures Join(Split(s)) == s
  {
    if s != [] {
      JoinSplit(s[1..]);
      var rest := Split(s[1..]);
      if s[0] != '.' && |rest| > 1 {
        assert ([[s[0]] + rest[0]] + rest[1..])[1..] == rest[1..];
      }
    }
  }

  /** Splitting at a dot splits the two sides separately. */
  lemma {:induction false} SplitDot(a: string, b: string)
    ensures Split(a + "." + b) == Split(a) + Split(b)
  {
    if a == [] {
      assert a + "." + b == "." + b;
      assert ("." + b)[1..] == b;
    } else {
      assert (a + "." + b)[1..] == a[1..] + "." + b;
      SplitDot(a[1..], b);
    }
  }

  /** Keys equal ignoring case split into segments that are equal ignoring case. */
  lemma {:induction false} SplitLower(k1: string, k2: string)
    requires Lower(k1) == Lower(k2)
    ensures |Split(k1)| == |Split(k2)|
    ensures forall i :: 0 <= i < |Split(k1)| ==> SameName(Split(k1)[i], Split(k2)[i])
  {
    assert |k1| == |Lower(k1)| == |Lower(k2)| == |k2|;
    if k1 != [] {
      LowerTail(k1);
      LowerTail(k2);
      SplitLower(k1[1..], k2[1..]);
      var r1, r2 := Split(k1[1..]), Split(k2[1..]);
      if k1[0] == '.' {
        assert k2[0] == '.';
        SegmentsPrepend("", "", r1, r2);
      } else {
        assert k2[0] != '.';
        SegmentsCons(k1[0], k2[0], r1, r2);
      }
    }
  }

  lemma LowerTail(k: string)
    requires k != []
    ensures Lower(k)[0] == LowerChar(k[0]) && Lower(k[1..]) == Lower(k)[1..]
  {
  }

  lemma LowerCons(c: char, s: string)
    ensures Lower([c] + s) == [LowerChar(c)] + Lower(s)
  {
  }

  /** Segment lists equal ignoring case stay so when one more such segment goes in front. */
  lemma SegmentsPrepend(a1: string, a2: string, r1: seq<string>, r2: seq<string>)
    requires SameName(a1, a2) && |r1| == |r2|
    requires forall i :: 0 <= i < |r1| ==> SameName(r1[i], r2[i])
    ensures forall i :: 0 <= i < |r1| + 1 ==> SameName(([a1] + r1)[i], ([a2] + r2)[i])
  {
    forall i | 0 <= i < |r1| + 1
      ensures SameName(([a1] + r1)[i], ([a2] + r2)[i])
    {
      if i > 0 {
        assert ([a1] + r1)[i] == r1[i - 1] && ([a2] + r2)[i] == r2[i - 1];
      }
    }
  }

  /** Characters equal ignoring case, put in front of the first segments, keep the lists equal ignoring case. */
  lemma SegmentsCons(c1: char, c2: char, r1: seq<string>, r2: seq<string>)
    requires LowerChar(c1) == LowerChar(c2) && |r1| == |r2| >= 1
    requires forall i :: 0 <= i < |r1| ==> SameName(r1[i], r2[i])
    ensures forall i :: 0 <= i < |r1| ==>
      SameName(([[c1] + r1[0]] + r1[1..])[i], ([[c2] + r2[0]] + r2[1..])[i])
  {
    LowerCons(c1, r1[0]);
    LowerCons(c2, r2[0]);
    assert SameName(r1[0], r2[0]);
    SegmentsPrepend([c1] + r1[0], [c2] + r2[0], r1[1..], r2[1..]);
  }

  /** Follows the path from `cur`; a null on the way, or a missing member, gives null. */
  function Walk(cur: Value, parts: seq<string>): Value
    decreases |parts|
  {
    if parts == [] then cur
    else if cur.Null? then Null
    else
      match Lookup(cur, parts[0])
      case None => Null
      case Some(next) => Walk(next, parts[1..])
  }

  /** The value a dotted key names in a model; null when the model is null or the path does not resolve. */
  function Resolve(model: Value, key: string): Value {
    if model.Null? then Null else Walk(model, Split(key))
  }

  lemma {:induction false} WalkConcat(cur: Value, p: seq<string>, q: seq<string>)
    requires q != []
    ensures Walk(cur, p + q) == Walk(Walk(cur, p), q)
    decreases |p|
  {
    if p == [] {
      assert p + q == q;
    } else if !cur.Null? {
      assert (p + q)[0] == p[0];
      assert (p + q)[1..] == p[1..] + q;
      match Lookup(cur, p[0])
      case None =>
      case Some(next) => WalkConcat(next, p[1..], q);
    }
  }

  /** `a.b` resolves `b` inside whatever `a` resolves to. */
  lemma ResolveDotted(model: Value, a: string, b: string)
    ensures Resolve(model, a + "." + b) ==
      if Resolve(model, a).Null? then Null else Resolve(Resolve(model, a), b)
  {
    if !model.Null? {
      SplitDot(a, b);
      WalkConcat(model, Split(a), Split(b));
    }
  }

  lemma {:induction false} WalkIgnoresCase(cur: Value, p: seq<string>, q: seq<string>)
    requires |p| == |q| && forall i :: 0 <= i < |p| ==> SameName(p[i], q[i])
    ensures Walk(cur, p) == Walk(cur, q)
    decreases |p|
  {
    if p != [] && !cur.Null? {
      assert Lookup(cur, p[0]) == Lookup(cur, q[0]) by {
        var ms := Members(cur);
        assert forall i, kind :: 0 <= i < |ms| ==> (Matches(ms[i], kind, p[0]) <==> Matches(ms[i], kind, q[0]));
        FindMemberIgnoresCase(ms, Property, p[0], q[0]);
        FindMemberIgnoresCase(ms, Field, p[0], q[0]);
      }
      match Lookup(cur, p[0])
      case None =>
      case Some(next) => WalkIgnoresCase(next, p[1..], q[1..]);
    }
  }

  lemma {:induction false} FindMemberIgnoresCase(ms: seq<Member>, kind: MemberKind, a: string, b: string)
    requires SameName(a, b)
    ensures FindMember(ms, kind, a) == FindMember(ms, kind, b)
  {
    if ms != [] {
      FindMemberIgnoresCase(ms[1..], kind, a, b);
    }
  }

  /** Member lookup ignores case: keys that differ only in letter case resolve alike. */
  lemma ResolveIgnoresCase(model: Value, k1: string, k2: string)
    requires Lower(k1) == Lower(k2)
    ensures Resolve(model, k1) == Resolve(model, k2)
  {
    SplitLower(k1, k2);
    WalkIgnoresCase(model, Split(k1), Split(k2));
  }

  /**
    The first property whose name matches is the step taken, whatever fields
    of that name there are, before or after it.
  */
  lemma PropertyBeforeField(v: Value, part: string, i: nat)
    requires i < |Members(v)| && Matches(Members(v)[i], Property, part)
    requires forall j :: 0 <= j < i ==> !Matches(Members(v)[j], Property, part)
    ensures Lookup(v, part) == Some(Members(v)[i].value)
  {
    var ms := Members(v);
    var r := FindMember(ms, Property, part);
    FindMemberSpec(ms, Property, part);
    if r.Some? {
      var k :| 0 <= k < |ms| && Matches(ms[k], Property, part) && ms[k].value == r.value &&
        forall j :: 0 <= j < k ==> !Matches(ms[j], Property, part);
      assert k == i;
    }
  }

  /** ResolveModelValue: steps `current` through the segments of the key. */
  method ResolveModelValue(model: Value, key: string) returns (r: Value)
    ensures r == Resolve(model, key)
  {
    if model.Null? {
      return Null;
    }
    var parts := Split(key);
    var current := model;
    var i := 0;
    while i < |parts|
      invariant 0 <= i <= |parts|
      invariant Walk(current, parts[i..]) == Resolve(model, key)
    {
      if current.Null? {
        return Null;
      }
      var prop := FindMember(Members(current), Property, parts[i]);
      if prop.Some? {
        current := prop.value;
        i := i + 1;
        continue;
      }
      var field := FindMember(Members(current), Field, parts[i]);
      if field.Some? {
        current := field.value;
        i := i + 1;
        continue;
      }
      return Null;
    }
    return current;
  }

  /** LookupValue: the text of a variable tag's value. */
  function LookupValue(model: Value, key: string): (r: string)
    ensures model.Null? ==> r == ""
    ensures !model.Null? && key == "." ==> r == Show(model)
    ensures key != "." && Resolve(model, key).Null? ==> r == ""
    ensures key != "." && !Resolve(model, key).Null? ==> r == Show(Resolve(model, key))
  {
    if model.Null? then ""
    else if key == "." then Show(model)
    else
      var v := Resolve(model, key);
      if v.Null? then "" else Show(v)
  }
}

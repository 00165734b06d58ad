/**
  The settings marshaler of the HTML-to-PDF converter, as a pure specification.

  `ApplyConfig` walks the properties of a settings object and `Apply` turns one
  keyed property into flat (key, value) setter calls for wkhtmltopdf. Reflection
  is replaced by an explicit list of fields: each field carries the key of its
  `WkHtml` attribute (when that attribute is the property's first one) and its
  value. `Flatten` is the ordered list of (key, value) pairs the walk emits.
*/
module Marshal {
  import opened Wrappers

  /** A property value as the walk sees it. */
  datatype Value =
    | Null
    | Bool(b: bool)
      /** a double, already formatted with "0.##" in the invariant culture */
    | Num(formatted: string)
      /** a Dictionary<string, string> in enumeration order */
    | Map(pairs: seq<Pair>)
      /** any other value, by its ToString() */
    | Other(shown: string)
      /** an ISettings object: its own properties, and its ToString() */
    | Nested(fields: seq<Field>, shown: string)

  /** A dictionary entry; either side may be null. */
  datatype Pair = Pair(key: Option<string>, value: Option<string>)

  /** A property: the key of its leading WkHtml attribute, if any, and its value. */
  datatype Field = Field(key: Option<string>, value: Value)

  /** One setter call: a key and a value (the append directive passes null). */
  datatype Setting = Setting(name: string, value: Option<string>)

  // ---------------------------------------------------------------------------
  // Decimal rendering of the map index (string.Format of an int)

  function DigitChar(d: nat): (c: char)
    requires d < 10
    ensures '0' <= c <= '9' && (c - '0') as int == d
  {
    ('0' as int + d) as char
  }

  predicate AllDigits(s: string) {
    forall i :: 0 <= i < |s| ==> '0' <= s[i] <= '9'
  }

  function NatToString(n: nat): (s: string)
    ensures |s| >= 1 && AllDigits(s)
    decreases n
  {
    if n < 10 then [DigitChar(n)] else NatToString(n / 10) + [DigitChar(n % 10)]
  }

  /** The reading of a digit string; the inverse of NatToString. */
  function ParseNat(s: string): nat
    requires AllDigits(s)
  {
    if s == [] then 0 else 10 * ParseNat(s[..|s| - 1]) + (s[|s| - 1] - '0') as int
  }

  lemma {:induction false} ParseNatToString(n: nat)
    ensures ParseNat(NatToString(n)) == n
    decreases n
  {
    if n >= 10 {
      var s := NatToString(n);
      assert s[..|s| - 1] == NatToString(n / 10);
      ParseNatToString(n / 10);
    }
  }

  lemma NatToStringInjective(i: nat, j: nat)
    requires NatToString(i) == NatToString(j)
    ensures i == j
  {
    ParseNatToString(i);
    ParseNatToString(j);
  }

  // ---------------------------------------------------------------------------
  // Apply: one keyed value

  function BoolText(b: bool): string {
    if b then "true" else "false"
  }

  predicate Complete(p: Pair) {
    p.key.Some? && p.value.Some?
  }

  /** The dictionary entries that are emitted: those with a key and a value, in order. */
  function Present(pairs: seq<Pair>): (r: seq<(string, string)>)
    ensures |r| <= |pairs|
  {
    if pairs == [] then []
    else
      var init, last := pairs[..|pairs| - 1], pairs[|pairs| - 1];
      if Complete(last) then Present(init) + [(last.key.value, last.value.value)] else Present(init)
  }

  function AppendName(name: string): string {
    name + ".append"
  }

  function IndexedName(name: string, index: nat): string {
    name + "[" + NatToString(index) + "]"
  }

  function EntryText(key: string, value: string): string {
    key + "\n" + value
  }

  /** The two settings of the `index`-th complete pair: an append directive, then `name[index]`. */
  function MapEntry(name: string, index: nat, key: string, value: string): seq<Setting> {
    [Setting(AppendName(name), None), Setting(IndexedName(name, index), Some(EntryText(key, value)))]
  }

  /** The setter calls of a map-valued property: the wkhtmltopdf list-append convention. */
  function MapSettings(name: string, pairs: seq<Pair>): seq<Setting>
  {
    if pairs == [] then []
    else
      var init, last := pairs[..|pairs| - 1], pairs[|pairs| - 1];
      MapSettings(name, init) +
        if Complete(last) then MapEntry(name, |Present(init)|, last.key.value, last.value.value) else []
  }

  /**
    Map encoding: for the k-th entry that has both a key and a value, an append
    directive followed by `name[k]` = key + "\n" + value; nothing else.
  */
  lemma {:induction false} MapSettingsShape(name: string, pairs: seq<Pair>)
    ensures |MapSettings(name, pairs)| == 2 * |Present(pairs)|
    ensures forall j :: 0 <= j < |Present(pairs)| ==>
      MapSettings(name, pairs)[2 * j] == Setting(AppendName(name), None) &&
      MapSettings(name, pairs)[2 * j + 1] ==
        Setting(IndexedName(name, j), Some(EntryText(Present(pairs)[j].0, Present(pairs)[j].1)))
  {
    if pairs != [] {
      MapSettingsShape(name, pairs[..|pairs| - 1]);
    }
  }

  /** One more pair: a complete one adds its two settings, numbered by the complete pairs before it. */
  lemma MapSettingsSnoc(name: string, pairs: seq<Pair>, i: nat)
    requires i < |pairs|
    ensures MapSettings(name, pairs[..i + 1]) == MapSettings(name, pairs[..i]) +
      if Complete(pairs[i]) then MapEntry(name, |Present(pairs[..i])|, pairs[i].key.value, pairs[i].value.value) else []
    ensures |Present(pairs[..i + 1])| == |Present(pairs[..i])| + if Complete(pairs[i]) then 1 else 0
  {
    assert pairs[..i + 1][..i] == pairs[..i];
  }

  /** Two entries of one map never share an index key. */
  lemma IndexedNamesDistinct(name: string, i: nat, j: nat)
    requires i != j
    ensures IndexedName(name, i) != IndexedName(name, j)
  {
    if IndexedName(name, i) == IndexedName(name, j) {
      var a, b := NatToString(i), NatToString(j);
      assert name + "[" + a + "]" == name + "[" + b + "]";
      assert |a| == |b|;
      assert a == (name + "[" + a + "]")[|name| + 1..|name| + 1 + |a|];
      assert b == (name + "[" + b + "]")[|name| + 1..|name| + 1 + |b|];
      NatToStringInjective(i, j);
    }
  }

  /** What `Apply` emits for a non-null value under key `name`. */
  function Emit(name: string, v: Value): seq<Setting>
    requires !v.Null?
  {
    match v
    case Bool(b) => [Setting(name, Some(BoolText(b)))]
    case Num(f) => [Setting(name, Some(f))]
    case Other(s) => [Setting(name, Some(s))]
    case Nested(_, s) => [Setting(name, Some(s))]
    case Map(pairs) => MapSettings(name, pairs)
  }

  /**
    A scalar becomes one setting under its own key (booleans as "true" or
    "false", numbers as formatted, any other value, a keyed settings object
    included, as its ToString() text); a dictionary becomes two settings per
    complete entry; every name emitted starts with the key.
  */
  lemma EmitShape(name: string, v: Value)
    requires !v.Null?
    ensures var r := Emit(name, v);
      && (!v.Map? ==> |r| == 1 && r[0].name == name && r[0].value.Some?)
      && (v.Bool? ==> r[0].value.value == (if v.b then "true" else "false"))
      && (v.Num? ==> r[0].value.value == v.formatted)
      && (v.Other? || v.Nested? ==> r[0].value == Some(v.shown))
      && (v.Map? ==> |r| == 2 * |Present(v.pairs)|)
      && (forall s :: s in r ==> name <= s.name)
  {
    if v.Map? {
      MapSettingsShape(name, v.pairs);
      MapNamesExtendKey(name, v.pairs);
    }
  }

  lemma {:induction false} MapNamesExtendKey(name: string, pairs: seq<Pair>)
    ensures forall s :: s in MapSettings(name, pairs) ==> name <= s.name
  {
    if pairs != [] {
      MapNamesExtendKey(name, pairs[..|pairs| - 1]);
    }
  }

  // ---------------------------------------------------------------------------
  // ApplyConfig: the walk over the fields

  /** What one property contributes to the walk. */
  function FieldSettings(f: Field): seq<Setting>
    decreases f
  {
    if f.value.Null? then []
    else if f.key.Some? then Emit(f.key.value, f.value)
    else if f.value.Nested? then Flatten(f.value.fields)
    else []
  }

  /** The ordered (key, value) pairs that walking a non-null settings object emits. */
  function Flatten(fields: seq<Field>): seq<Setting>
    decreases fields
  {
    if fields == [] then [] else FieldSettings(fields[0]) + Flatten(fields[1..])
  }

  /** The number of properties in a settings tree, nested ones included. */
  function Size(fields: seq<Field>): nat
    decreases fields
  {
    if fields == [] then 0 else FieldSize(fields[0]) + Size(fields[1..])
  }

  function FieldSize(f: Field): nat
    decreases f
  {
    1 + if f.value.Nested? then Size(f.value.fields) else 0
  }

  lemma {:induction false} FieldSizeBound(fields: seq<Field>, i: nat)
    requires i < |fields|
    ensures FieldSize(fields[i]) <= Size(fields)
  {
    if i > 0 {
      FieldSizeBound(fields[1..], i - 1);
    }
  }

  lemma {:induction false} FlattenConcat(a: seq<Field>, b: seq<Field>)
    ensures Flatten(a + b) == Flatten(a) + Flatten(b)
  {
    if a == [] {
      assert a + b == b;
    } else {
      assert (a + b)[0] == a[0];
      assert (a + b)[1..] == a[1..] + b;
      FlattenConcat(a[1..], b);
    }
  }

  /**
    A property whose value is null, and an unkeyed property that is not a nested
    settings object, emit nothing: the walk is as if the property were absent.
  */
  lemma SilentFieldVanishes(a: seq<Field>, f: Field, b: seq<Field>)
    requires f.value.Null? || (f.key.None? && !f.value.Nested?)
    ensures Flatten(a + [f] + b) == Flatten(a + b)
  {
    FlattenConcat(a + [f], b);
    FlattenConcat(a, [f]);
    FlattenConcat(a, b);
  }

  /**
    An unkeyed nested settings object is walked in place with the same rules:
    the result is as if its fields were listed where it stands.
  */
  lemma NestedFieldInlined(a: seq<Field>, inner: seq<Field>, shown: string, b: seq<Field>)
    ensures Flatten(a + [Field(None, Nested(inner, shown))] + b) == Flatten(a + inner + b)
  {
    var f := Field(None, Nested(inner, shown));
    FlattenConcat(a + [f], b);
    FlattenConcat(a, [f]);
    FlattenConcat(a + inner, b);
    FlattenConcat(a, inner);
  }

  /** A keyed property emits exactly what Apply emits for its value, where it stands. */
  lemma KeyedFieldApplied(a: seq<Field>, key: string, v: Value, b: seq<Field>)
    requires !v.Null?
    ensures Flatten(a + [Field(Some(key), v)] + b) == Flatten(a) + Emit(key, v) + Flatten(b)
  {
    FlattenConcat(a + [Field(Some(key), v)], b);
    FlattenConcat(a, [Field(Some(key), v)]);
  }
}

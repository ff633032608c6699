/**
 The shared template behind the string/enum helpers of the `enums` package.

 Every enum family (EncodingType, IndexedValueType, Severity) pairs two static
 "shorthand" tables, PascalCase name to number and number to PascalCase name,
 with the canonical SCREAMING_CASE table generated from the protobuf schema.
 This module models one family as a `Tables` value, defines the two helpers
 (`FromString` and `Shorthand`) once over it, and proves their properties once;
 the per-family modules instantiate it with their literal tables.
 */
module EnumHelpers {

  /** Go's `int32`: the representation of every generated enum type. */
  newtype int32 = x: int | -0x8000_0000 <= x < 0x8000_0000

  datatype Option<T> = None | Some(value: T)

  /** The one error `FromString` can return: the input string was neither a
      canonical nor a shorthand name of the family. The message text built by
      the source is not modelled; the error keeps what it is built from. */
  datatype EnumError = InvalidEnumString(input: string, enumName: string)

  /** The static tables of one enum family.
      `shorthandValue` is `<Enum>_shorthandValue`, `shorthandName` is
      `<Enum>_shorthandName`, and `enumName` the family's Go type name. */
  datatype Tables = Tables(
    enumName: string,
    shorthandValue: map<string, int32>,
    shorthandName: map<int32, string>)

  /** `fwd` and `bwd` undo each other on their whole domains. */
  ghost predicate ExactInverses<K, V>(fwd: map<K, V>, bwd: map<V, K>) {
    && (forall k :: k in fwd ==> fwd[k] in bwd && bwd[fwd[k]] == k)
    && (forall v :: v in bwd ==> bwd[v] in fwd && fwd[bwd[v]] == v)
  }

  /** The keys of `m` are exactly the numbers `0 .. n-1`. */
  ghost predicate CoversRange<V>(m: map<int32, V>, n: nat) {
    forall v: int32 :: v in m <==> 0 <= v as int < n
  }

  /** The assumption the round trip rests on: where a canonical name is also a
      shorthand name, both tables give it the same number. Disjoint key sets
      (SCREAMING_CASE against PascalCase) are the usual way to meet it. */
  ghost predicate Compatible(canonical: map<string, int32>, shorthandValue: map<string, int32>) {
    forall s :: s in canonical && s in shorthandValue ==> canonical[s] == shorthandValue[s]
  }

  /** The family's shorthand tables are the inverse pair the source declares. */
  ghost predicate WellFormed(t: Tables) {
    ExactInverses(t.shorthandValue, t.shorthandName)
  }

  /** `<Enum>FromString`: the canonical table is consulted first, then the
      shorthand table; a string found in neither yields value 0 and an error. */
  function FromString(t: Tables, canonical: map<string, int32>, s: string): (r: (int32, Option<EnumError>))
    ensures r.1 == None <==> s in canonical || s in t.shorthandValue
    ensures s in canonical ==> r.0 == canonical[s]
    ensures s !in canonical && s in t.shorthandValue ==> r.0 == t.shorthandValue[s]
    ensures r.1 != None ==> r.0 == 0 && r.1 == Some(InvalidEnumString(s, t.enumName))
  {
    if s in canonical then
      (canonical[s], None)
    else if s in t.shorthandValue then
      (t.shorthandValue[s], None)
    else
      (0, Some(InvalidEnumString(s, t.enumName)))
  }

  /** `<Enum>.Shorthand()`: the PascalCase name of a registered value, and
      `("", false)` for a value the shorthand table does not know. */
  function Shorthand(t: Tables, e: int32): (r: (string, bool))
    ensures r.1 <==> e in t.shorthandName
    ensures r.1 ==> r.0 == t.shorthandName[e]
    ensures !r.1 ==> r.0 == ""
  {
    if e in t.shorthandName then (t.shorthandName[e], true) else ("", false)
  }

  /** Inverse tables have the same number of entries. */
  lemma {:induction false} InversesSameSize<K, V>(fwd: map<K, V>, bwd: map<V, K>)
    requires ExactInverses(fwd, bwd)
    ensures |fwd| == |bwd|
    decreases |fwd|
  {
    if |fwd| == 0 {
      assert fwd.Keys == {};
      assert bwd.Keys == {};
    } else {
      var k :| k in fwd;
      var v := fwd[k];
      var fwd', bwd' := fwd - {k}, bwd - {v};
      forall k' | k' in fwd'
        ensures fwd'[k'] in bwd' && bwd'[fwd'[k']] == k'
      {
        assert bwd[fwd[k']] == k' != k == bwd[v];
      }
      forall v' | v' in bwd'
        ensures bwd'[v'] in fwd' && fwd'[bwd'[v']] == v'
      {
        assert fwd[bwd[v']] == v' != v == fwd[k];
      }
      InversesSameSize(fwd', bwd');
      assert fwd'.Keys == fwd.Keys - {k};
      assert bwd'.Keys == bwd.Keys - {v};
    }
  }

  /** A table whose keys are exactly `0 .. n-1` has `n` entries. */
  lemma {:induction false} RangeSize<V>(m: map<int32, V>, n: nat)
    requires n <= 0x8000_0000
    requires CoversRange(m, n)
    ensures |m| == n
  {
    if n == 0 {
      assert m.Keys == {};
    } else {
      var top := (n - 1) as int32;
      var m' := m - {top};
      assert top in m;
      assert CoversRange(m', n - 1);
      RangeSize(m', n - 1);
      assert m'.Keys == m.Keys - {top};
    }
  }

  /** Two registered values never share a shorthand name. */
  lemma ShorthandInjective(t: Tables, e1: int32, e2: int32)
    requires WellFormed(t)
    requires Shorthand(t, e1).1 && Shorthand(t, e2).1
    requires Shorthand(t, e1).0 == Shorthand(t, e2).0
    ensures e1 == e2
  {
    assert t.shorthandValue[t.shorthandName[e1]] == e1;
    assert t.shorthandValue[t.shorthandName[e2]] == e2;
  }

  /** Print then parse: the shorthand name of a registered value parses back
      to that value without error, whatever canonical table is in force, as
      long as it is compatible with the shorthand table. */
  lemma ShorthandThenParse(t: Tables, canonical: map<string, int32>, e: int32)
    requires WellFormed(t)
    requires Compatible(canonical, t.shorthandValue)
    requires Shorthand(t, e).1
    ensures FromString(t, canonical, Shorthand(t, e).0) == (e, None)
  {
    var s := t.shorthandName[e];
    assert s in t.shorthandValue && t.shorthandValue[s] == e;
  }

  /** Parse then print: a shorthand name parses to a value whose shorthand is
      that same name. */
  lemma ParseThenShorthand(t: Tables, canonical: map<string, int32>, s: string)
    requires WellFormed(t)
    requires Compatible(canonical, t.shorthandValue)
    requires s in t.shorthandValue
    ensures FromString(t, canonical, s).1 == None
    ensures Shorthand(t, FromString(t, canonical, s).0) == (s, true)
  {
    var v := t.shorthandValue[s];
    assert v in t.shorthandName && t.shorthandName[v] == s;
  }

  /** If every canonical value is a registered value, anything `FromString`
      accepts has a shorthand name. */
  lemma ParsedValueHasShorthand(t: Tables, canonical: map<string, int32>, s: string)
    requires WellFormed(t)
    requires canonical.Values <= t.shorthandName.Keys
    requires FromString(t, canonical, s).1 == None
    ensures Shorthand(t, FromString(t, canonical, s).0).1
  {
    if s in canonical {
      assert canonical[s] in canonical.Values;
    } else {
      assert t.shorthandName[t.shorthandValue[s]] == s;
    }
  }
}

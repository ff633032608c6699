/**
 The EncodingType family: payload encodings, with the shorthand names
 "Unspecified", "Proto3" and "Json" for the values 0, 1 and 2.
 */
module EncodingTypeHelpers {
  import opened EnumHelpers

  /** `EncodingType_shorthandValue`. */
  const ShorthandValue: map<string, int32> := map[
    "Unspecified" := 0,
    "Proto3" := 1,
    "Json" := 2
  ]

  /** `EncodingType_shorthandName`. */
  const ShorthandName: map<int32, string> := map[
    0 := "Unspecified",
    1 := "Proto3",
    2 := "Json"
  ]

  const Family: Tables := Tables("EncodingType", ShorthandValue, ShorthandName)

  /** The generated Go enum type: any `int32`, registered or not. */
  newtype EncodingType = int32 {

    /** The PascalCase name of a registered value; `("", false)` for any other
        `int32`, such as `EncodingType(-1)`. */
    function Shorthand(): (r: (string, bool))
      ensures r.1 <==> 0 <= this as int < 3
      ensures r.1 ==> r.0 == ShorthandName[this as int32] && r.0 != ""
      ensures !r.1 ==> r.0 == ""
    {
      EnumHelpers.Shorthand(Family, this as int32)
    }
  }

  /** `EncodingTypeFromString`, with the generated `EncodingType_value` table
      passed in as `canonical`. */
  function EncodingTypeFromString(canonical: map<string, int32>, s: string): (r: (EncodingType, Option<EnumError>))
    ensures r.1 == None <==> s in canonical || s in ShorthandValue
    ensures s in canonical ==> r == (canonical[s] as EncodingType, None)
    ensures s !in canonical && s in ShorthandValue ==> r == (ShorthandValue[s] as EncodingType, None)
    ensures Compatible(canonical, ShorthandValue) && s in ShorthandValue ==> r == (ShorthandValue[s] as EncodingType, None)
    ensures r.1 != None ==> r == (0, Some(InvalidEnumString(s, "EncodingType")))
  {
    var (v, err) := EnumHelpers.FromString(Family, canonical, s);
    (v as EncodingType, err)
  }

  /** The two shorthand tables are exact inverses of the same size. */
  lemma TablesAreInverse()
    ensures WellFormed(Family)
    ensures |ShorthandValue| == |ShorthandName|
  {
    forall v | v in ShorthandName
      ensures ShorthandName[v] in ShorthandValue && ShorthandValue[ShorthandName[v]] == v
    {
    }
    forall s | s in ShorthandValue
      ensures ShorthandValue[s] in ShorthandName && ShorthandName[ShorthandValue[s]] == s
    {
    }
    InversesSameSize(ShorthandValue, ShorthandName);
  }

  /** The registered values are exactly 0 .. 2, and 0 is "Unspecified". */
  lemma TablesCoverRange()
    ensures CoversRange(ShorthandName, 3)
    ensures |ShorthandName| == 3 && |ShorthandValue| == 3
    ensures ShorthandName[0] == "Unspecified"
  {
    RangeSize(ShorthandName, 3);
    TablesAreInverse();
  }

  /** Print then parse: a value with a shorthand name is recovered from it. */
  lemma ShorthandRoundTrip(canonical: map<string, int32>, e: EncodingType)
    requires Compatible(canonical, ShorthandValue)
    requires e.Shorthand().1
    ensures EncodingTypeFromString(canonical, e.Shorthand().0) == (e, None)
  {
    TablesAreInverse();
    ShorthandThenParse(Family, canonical, e as int32);
  }

  /** Parse then print: a shorthand name comes back from the value it names. */
  lemma ParseRoundTrip(canonical: map<string, int32>, s: string)
    requires Compatible(canonical, ShorthandValue)
    requires s in ShorthandValue
    ensures EncodingTypeFromString(canonical, s).1 == None
    ensures EncodingTypeFromString(canonical, s).0.Shorthand() == (s, true)
  {
    TablesAreInverse();
    ParseThenShorthand(Family, canonical, s);
  }

  /** The canonical table takes priority: a canonical table that maps the
      shorthand name "Proto3" elsewhere overrides the shorthand table, so the
      round trip needs its compatibility assumption. */
  lemma CanonicalShadowsShorthand()
    ensures (1 as EncodingType).Shorthand() == ("Proto3", true)
    ensures EncodingTypeFromString(map["Proto3" := 2], "Proto3") == (2, None)
  {
  }

  /** Examples of both helpers. The `-1` case is the one the source's doc
      comment on `Shorthand` gives. */
  lemma Examples(canonical: map<string, int32>)
    requires "Proto3" !in canonical && "bogus" !in canonical
    ensures EncodingTypeFromString(canonical, "Proto3") == (1, None)
    ensures EncodingTypeFromString(canonical, "bogus") == (0, Some(InvalidEnumString("bogus", "EncodingType")))
    ensures (1 as EncodingType).Shorthand() == ("Proto3", true)
    ensures (-1 as EncodingType).Shorthand() == ("", false)
    ensures (999 as EncodingType).Shorthand() == ("", false)
  {
  }
}

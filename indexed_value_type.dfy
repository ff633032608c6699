/**
 The IndexedValueType family: the types of search attributes, with the
 shorthand names "Unspecified", "Text", "Keyword", "Int", "Double", "Bool",
 "Datetime" and "KeywordList" for the values 0 to 7.
 */
module IndexedValueTypeHelpers {
  import opened EnumHelpers

  /** `IndexedValueType_shorthandValue`. */
  const ShorthandValue: map<string, int32> := map[
    "Unspecified" := 0,
    "Text" := 1,
    "Keyword" := 2,
    "Int" := 3,
    "Double" := 4,
    "Bool" := 5,
    "Datetime" := 6,
    "KeywordList" := 7
  ]

  /** `IndexedValueType_shorthandName`. */
  const ShorthandName: map<int32, string> := map[
    0 := "Unspecified",
    1 := "Text",
    2 := "Keyword",
    3 := "Int",
    4 := "Double",
    5 := "Bool",
    6 := "Datetime",
    7 := "KeywordList"
  ]

  const Family: Tables := Tables("IndexedValueType", ShorthandValue, ShorthandName)

  /** The generated Go enum type: any `int32`, registered or not. */
  newtype IndexedValueType = int32 {

    /** The PascalCase name of a registered value; `("", false)` for any other
        `int32`, such as `IndexedValueType(-1)`. */
    function Shorthand(): (r: (string, bool))
      ensures r.1 <==> 0 <= this as int < 8
      ensures r.1 ==> r.0 == ShorthandName[this as int32] && r.0 != ""
      ensures !r.1 ==> r.0 == ""
    {
      EnumHelpers.Shorthand(Family, this as int32)
    }
  }

  /** `IndexedValueTypeFromString`, with the generated `IndexedValueType_value` table
      passed in as `canonical`. */
  function IndexedValueTypeFromString(canonical: map<string, int32>, s: string): (r: (IndexedValueType, Option<EnumError>))
    ensures r.1 == None <==> s in canonical || s in ShorthandValue
    ensures s in canonical ==> r == (canonical[s] as IndexedValueType, None)
    ensures s !in canonical && s in ShorthandValue ==> r == (ShorthandValue[s] as IndexedValueType, None)
    ensures Compatible(canonical, ShorthandValue) && s in ShorthandValue ==> r == (ShorthandValue[s] as IndexedValueType, None)
    ensures r.1 != None ==> r == (0, Some(InvalidEnumString(s, "IndexedValueType")))
  {
    var (v, err) := EnumHelpers.FromString(Family, canonical, s);
    (v as IndexedValueType, err)
  }

  /** The two shorthand tables are exact inverses of the same size. */
  lemma TablesAreInverse()
    ensures WellFormed(Family)
    ensures |ShorthandValue| == |ShorthandName|
  {
    forall v | v in ShorthandName
      ensures ShorthandName[v] in ShorthandValue && ShorthandValue[ShorthandName[v]] == v
    {
    }
    forall s | s in ShorthandValue
      ensures ShorthandValue[s] in ShorthandName && ShorthandName[ShorthandValue[s]] == s
    {
    }
    InversesSameSize(ShorthandValue, ShorthandName);
  }

  /** The registered values are exactly 0 .. 7, and 0 is "Unspecified". */
  lemma TablesCoverRange()
    ensures CoversRange(ShorthandName, 8)
    ensures |ShorthandName| == 8 && |ShorthandValue| == 8
    ensures ShorthandName[0] == "Unspecified"
  {
    RangeSize(ShorthandName, 8);
    TablesAreInverse();
  }

  /** Print then parse: a value with a shorthand name is recovered from it. */
  lemma ShorthandRoundTrip(canonical: map<string, int32>, e: IndexedValueType)
    requires Compatible(canonical, ShorthandValue)
    requires e.Shorthand().1
    ensures IndexedValueTypeFromString(canonical, e.Shorthand().0) == (e, None)
  {
    TablesAreInverse();
    ShorthandThenParse(Family, canonical, e as int32);
  }

  /** Parse then print: a shorthand name comes back from the value it names. */
  lemma ParseRoundTrip(canonical: map<string, int32>, s: string)
    requires Compatible(canonical, ShorthandValue)
    requires s in ShorthandValue
    ensures IndexedValueTypeFromString(canonical, s).1 == None
    ensures IndexedValueTypeFromString(canonical, s).0.Shorthand() == (s, true)
  {
    TablesAreInverse();
    ParseThenShorthand(Family, canonical, s);
  }

  /** Examples of both helpers. The `-1` case is the one the source's doc
      comment on `Shorthand` gives. */
  lemma Examples(canonical: map<string, int32>)
    requires "Keyword" !in canonical && "bogus" !in canonical
    ensures IndexedValueTypeFromString(canonical, "Keyword") == (2, None)
    ensures IndexedValueTypeFromString(canonical, "bogus") == (0, Some(InvalidEnumString("bogus", "IndexedValueType")))
    ensures (2 as IndexedValueType).Shorthand() == ("Keyword", true)
    ensures (-1 as IndexedValueType).Shorthand() == ("", false)
    ensures (8 as IndexedValueType).Shorthand() == ("", false)
  {
  }
}

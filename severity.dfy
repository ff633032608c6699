/**
 The Severity family, with the shorthand names "Unspecified", "High",
 "Medium" and "Low" for the values 0 to 3.
 */
module SeverityHelpers {
  import opened EnumHelpers

  /** `Severity_shorthandValue`. */
  const ShorthandValue: map<string, int32> := map[
    "Unspecified" := 0,
    "High" := 1,
    "Medium" := 2,
    "Low" := 3
  ]

  /** `Severity_shorthandName`. */
  const ShorthandName: map<int32, string> := map[
    0 := "Unspecified",
    1 := "High",
    2 := "Medium",
    3 := "Low"
  ]

  const Family: Tables := Tables("Severity", ShorthandValue, ShorthandName)

  /** The generated Go enum type: any `int32`, registered or not. */
  newtype Severity = int32 {

    /** The PascalCase name of a registered value; `("", false)` for any other
        `int32`, such as `Severity(-1)`. */
    function Shorthand(): (r: (string, bool))
      ensures r.1 <==> 0 <= this as int < 4
      ensures r.1 ==> r.0 == ShorthandName[this as int32] && r.0 != ""
      ensures !r.1 ==> r.0 == ""
    {
      EnumHelpers.Shorthand(Family, this as int32)
    }
  }

  /** `SeverityFromString`, with the generated `Severity_value` table
      passed in as `canonical`. */
  function SeverityFromString(canonical: map<string, int32>, s: string): (r: (Severity, Option<EnumError>))
    ensures r.1 == None <==> s in canonical || s in ShorthandValue
    ensures s in canonical ==> r == (canonical[s] as Severity, None)
    ensures s !in canonical && s in ShorthandValue ==> r == (ShorthandValue[s] as Severity, None)
    ensures Compatible(canonical, ShorthandValue) && s in ShorthandValue ==> r == (ShorthandValue[s] as Severity, None)
    ensures r.1 != None ==> r == (0, Some(InvalidEnumString(s, "Severity")))
  {
    var (v, err) := EnumHelpers.FromString(Family, canonical, s);
    (v as Severity, err)
  }

  /** The two shorthand tables are exact inverses of the same size. */
  lemma TablesAreInverse()
    ensures WellFormed(Family)
    ensures |ShorthandValue| == |ShorthandName|
  {
    forall v | v in ShorthandName
      ensures ShorthandName[v] in ShorthandValue && ShorthandValue[ShorthandName[v]] == v
    {
    }
    forall s | s in ShorthandValue
      ensures ShorthandValue[s] in ShorthandName && ShorthandName[ShorthandValue[s]] == s
    {
    }
    InversesSameSize(ShorthandValue, ShorthandName);
  }

  /** The registered values are exactly 0 .. 3, and 0 is "Unspecified". */
  lemma TablesCoverRange()
    ensures CoversRange(ShorthandName, 4)
    ensures |ShorthandName| == 4 && |ShorthandValue| == 4
    ensures ShorthandName[0] == "Unspecified"
  {
    RangeSize(ShorthandName, 4);
    TablesAreInverse();
  }

  /** Print then parse: a value with a shorthand name is recovered from it. */
  lemma ShorthandRoundTrip(canonical: map<string, int32>, e: Severity)
    requires Compatible(canonical, ShorthandValue)
    requires e.Shorthand().1
    ensures SeverityFromString(canonical, e.Shorthand().0) == (e, None)
  {
    TablesAreInverse();
    ShorthandThenParse(Family, canonical, e as int32);
  }

  /** Parse then print: a shorthand name comes back from the value it names. */
  lemma ParseRoundTrip(canonical: map<string, int32>, s: string)
    requires Compatible(canonical, ShorthandValue)
    requires s in ShorthandValue
    ensures SeverityFromString(canonical, s).1 == None
    ensures SeverityFromString(canonical, s).0.Shorthand() == (s, true)
  {
    TablesAreInverse();
    ParseThenShorthand(Family, canonical, s);
  }

  /** Examples of both helpers. The `-1` case is the one the source's doc
      comment on `Shorthand` gives. */
  lemma Examples(canonical: map<string, int32>)
    requires "High" !in canonical && "bogus" !in canonical
    ensures SeverityFromString(canonical, "High") == (1, None)
    ensures SeverityFromString(canonical, "bogus") == (0, Some(InvalidEnumString("bogus", "Severity")))
    ensures (1 as Severity).Shorthand() == ("High", true)
    ensures (-1 as Severity).Shorthand() == ("", false)
    ensures (4 as Severity).Shorthand() == ("", false)
  {
  }
}

/** The aspect-ratio selector: a two-digit token names a width/height ratio. */
module Aspect {
  /** The token the selector falls back to. */
  const DefaultToken: string := "43"

  /** The tokens the selector recognises. */
  predicate IsKnownToken(token: string)
  {
    token == "43" || token == "32" || token == "45" || token == "11" || token == "34"
  }

  /** Width divided by height for an aspect token; an unrecognised token means 4:3. */
  function ParseAspectRatio(token: string): (r: real)
    ensures r > 0.0
    ensures r in {4.0 / 3.0, 3.0 / 2.0, 4.0 / 5.0, 1.0, 3.0 / 4.0}
    ensures !IsKnownToken(token) ==> r == 4.0 / 3.0
    ensures r > 1.0 <==> token != "45" && token != "11" && token != "34"
    ensures r == 1.0 <==> token == "11"
    ensures IsKnownToken(token) ==>
      r == (token[0] as int - '0' as int) as real / (token[1] as int - '0' as int) as real
  {
    match token
    case "43" => 4.0 / 3.0
    case "32" => 3.0 / 2.0
    case "45" => 4.0 / 5.0
    case "11" => 1.0
    case "34" => 3.0 / 4.0
    case _ => 4.0 / 3.0
  }

  /** Any unrecognised token behaves exactly like the default token. */
  lemma UnknownTokenIsDefault(token: string)
    requires !IsKnownToken(token)
    ensures ParseAspectRatio(token) == ParseAspectRatio(DefaultToken)
  {
  }

  /** Distinct recognised tokens select distinct ratios, so no setting shadows another. */
  lemma KnownTokensDistinct(a: string, b: string)
    requires IsKnownToken(a) && IsKnownToken(b)
    requires ParseAspectRatio(a) == ParseAspectRatio(b)
    ensures a == b
  {
  }
}

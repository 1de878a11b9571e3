/** Identifier grammars (ids.py, enums.py, runtime/artifacts.py). */
module Ids {
  import opened Basics

  datatype RetrievalIntent = Support | Contradiction | Boundary | Alternative | MethodChallenge | NullResult

  datatype QueryKey = QueryKey(claimId: string, intent: RetrievalIntent, ordinal: nat)

  predicate IsDigit(c: char) {
    '0' <= c <= '9'
  }

  predicate AllDigits(s: string) {
    forall i :: 0 <= i < |s| ==> IsDigit(s[i])
  }

  function DigitsValue(s: string): nat
    requires AllDigits(s)
  {
    if s == "" then 0 else 10 * DigitsValue(s[..|s| - 1]) + (s[|s| - 1] as int - '0' as int)
  }

  function IntentOfCode(code: string): Option<RetrievalIntent> {
    if code == "SUP" then Some(Support)
    else if code == "CON" then Some(Contradiction)
    else if code == "BND" then Some(Boundary)
    else if code == "ALT" then Some(Alternative)
    else if code == "MTH" then Some(MethodChallenge)
    else if code == "NUL" then Some(NullResult)
    else None
  }

  /** `parse_query_id`, for identifiers such as `Q-C0001-SUP-01`. */
  function ParseQueryId(s: string): Option<QueryKey> {
    if |s| == 14 && s[0] == 'Q' && s[1] == '-' && s[2] == 'C' && AllDigits(s[3..7]) && s[7] == '-' && s[11] == '-'
       && AllDigits(s[12..14]) && s[12..14] != "00" && IntentOfCode(s[8..11]).Some? then
      Some(QueryKey(s[2..7], IntentOfCode(s[8..11]).value, DigitsValue(s[12..14])))
    else None
  }

  /** The number of a rendered sentence `RS<digits>`. */
  function SentenceNumber(s: string): Option<nat> {
    if |s| > 2 && s[0] == 'R' && s[1] == 'S' && AllDigits(s[2..]) then Some(DigitsValue(s[2..])) else None
  }
}

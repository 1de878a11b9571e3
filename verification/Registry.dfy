/** Allocation of canonical identifiers such as `R0001` (runtime/registry.py). */
module Registry {
  import opened Basics
  import opened Ids

  function Digit(d: nat): char
    requires d < 10
  {
    '0' + d as char
  }

  function Decimal(n: nat): (s: string)
    ensures s != "" && AllDigits(s)
  {
    if n < 10 then [Digit(n)] else Decimal(n / 10) + [Digit(n % 10)]
  }

  /** At least four digits, as the format `04d`. */
  function Padded(n: nat): (s: string)
    ensures s != "" && AllDigits(s)
  {
    Fill(Decimal(n), 4)
  }

  function Fill(s: string, width: nat): (r: string)
    requires s != "" && AllDigits(s)
    ensures r != "" && AllDigits(r)
    decreases width - |s|
  {
    if |s| >= width then s else Fill("0" + s, width)
  }

  lemma DecimalLength(n: nat)
    ensures |Decimal(n)| <= 4 <==> n < 10_000
  {
    assert |Decimal(n)| == if n < 10 then 1 else 1 + |Decimal(n / 10)|;
    assert n >= 10_000 ==> |Decimal(n / 10 / 10 / 10 / 10)| >= 1;
    assert n >= 1_000 ==> |Decimal(n / 10)| == 1 + |Decimal(n / 10 / 10)|;
    assert n >= 1_000 ==> |Decimal(n / 10 / 10)| == 1 + |Decimal(n / 10 / 10 / 10)|;
  }

  lemma {:induction false} FillLength(s: string, width: nat)
    requires s != "" && AllDigits(s)
    ensures |Fill(s, width)| == (if |s| < width then width else |s|) && (|s| >= width ==> Fill(s, width) == s)
    decreases width - |s|
  {
    if |s| < width {
      FillLength("0" + s, width);
    }
  }

  /** Numbers below 10000 are written with four digits, the others as they are. */
  lemma PaddedForm(n: nat)
    ensures if n < 10_000 then |Padded(n)| == 4 else Padded(n) == Decimal(n) && |Padded(n)| > 4
  {
    hide Decimal, Fill;
    DecimalLength(n);
    FillLength(Decimal(n), 4);
  }

  lemma {:induction false} DecimalValue(n: nat)
    ensures DigitsValue(Decimal(n)) == n
  {
    if n >= 10 {
      DecimalValue(n / 10);
      assert Decimal(n)[..|Decimal(n)| - 1] == Decimal(n / 10);
    } else {
      assert Decimal(n)[..0] == "";
    }
  }

  lemma {:induction false} LeadingZero(s: string)
    requires AllDigits(s)
    ensures DigitsValue("0" + s) == DigitsValue(s)
  {
    if s == "" {
      assert ("0" + s)[..0] == "";
    } else {
      LeadingZero(s[..|s| - 1]);
      assert ("0" + s)[..|s|] == "0" + s[..|s| - 1];
    }
  }

  lemma {:induction false} FillValue(s: string, width: nat)
    requires s != "" && AllDigits(s)
    ensures DigitsValue(Fill(s, width)) == DigitsValue(s)
    decreases width - |s|
  {
    if |s| < width {
      FillValue("0" + s, width);
      LeadingZero(s);
    }
  }

  function Name(prefix: char, n: nat): string {
    [prefix] + Padded(n)
  }

  /** The number in an identifier of the kind that `prefix` stands for. */
  function NumberOf(prefix: char, id: string): Option<nat> {
    if |id| > 1 && id[0] == prefix && AllDigits(id[1..]) then Some(DigitsValue(id[1..])) else None
  }

  lemma NumberOfName(prefix: char, n: nat)
    ensures NumberOf(prefix, Name(prefix, n)) == Some(n)
  {
    assert Name(prefix, n)[1..] == Padded(n);
    FillValue(Decimal(n), 4);
    DecimalValue(n);
  }

  /** A sentence identifier is ordered by the number that it spells. */
  lemma SentenceNumberOfName(n: nat)
    ensures SentenceNumber("RS" + Padded(n)) == Some(n)
  {
    assert ("RS" + Padded(n))[2..] == Padded(n);
    FillValue(Decimal(n), 4);
    DecimalValue(n);
  }

  function CodeOf(i: RetrievalIntent): string {
    match i
    case Support => "SUP"
    case Contradiction => "CON"
    case Boundary => "BND"
    case Alternative => "ALT"
    case MethodChallenge => "MTH"
    case NullResult => "NUL"
  }

  /** The identifier of a query: its claim, its intent and its ordinal in two digits. */
  function QueryName(key: QueryKey): string
    requires key.ordinal < 100
  {
    "Q-" + key.claimId + "-" + CodeOf(key.intent) + "-" + [Digit(key.ordinal / 10), Digit(key.ordinal % 10)]
  }

  predicate IsClaimId(id: string) {
    |id| == 5 && id[0] == 'C' && AllDigits(id[1..])
  }

  lemma TwoDigits(n: nat)
    requires n < 100
    ensures var s := [Digit(n / 10), Digit(n % 10)]; AllDigits(s) && DigitsValue(s) == n && (s == "00" <==> n == 0)
  {
    var s := [Digit(n / 10), Digit(n % 10)];
    assert s[..1] == [Digit(n / 10)] && s[..1][..0] == "";
    assert DigitsValue(s[..1]) == n / 10;
    assert DigitsValue(s) == 10 * (n / 10) + n % 10;
    assert s == "00" <==> s[0] == '0' && s[1] == '0';
  }

  lemma CodeParses(i: RetrievalIntent)
    ensures |CodeOf(i)| == 3 && IntentOfCode(CodeOf(i)) == Some(i)
  {
  }

  /** Query identifiers parse back to claim, intent and ordinal. */
  lemma QueryNameParses(key: QueryKey)
    requires IsClaimId(key.claimId) && 1 <= key.ordinal < 100
    ensures ParseQueryId(QueryName(key)) == Some(key)
  {
    hide DigitsValue, Digit, IntentOfCode, CodeOf;
    TwoDigits(key.ordinal);
    CodeParses(key.intent);
    var s := QueryName(key);
    assert s[2..7] == key.claimId && s[3..7] == key.claimId[1..];
    assert s[8..11] == CodeOf(key.intent);
    assert s[12..14] == [Digit(key.ordinal / 10), Digit(key.ordinal % 10)];
  }

  lemma CodeOfParsed(code: string)
    requires IntentOfCode(code).Some?
    ensures CodeOf(IntentOfCode(code).value) == code
  {
  }

  lemma DigitsOfTwo(s: string)
    requires |s| == 2 && AllDigits(s) && s != "00"
    ensures 1 <= DigitsValue(s) < 100 && s == [Digit(DigitsValue(s) / 10), Digit(DigitsValue(s) % 10)]
  {
    var d, e := s[0] as int - '0' as int, s[1] as int - '0' as int;
    assert s[..1] == [s[0]] && s[..1][..0] == "";
    assert DigitsValue(s[..1]) == d;
    assert DigitsValue(s) == 10 * d + e;
    assert s[0] == Digit(d) && s[1] == Digit(e);
    assert s == [s[0], s[1]];
  }

  /** And an identifier that parses is the one its claim, intent and ordinal spell. */
  lemma NameOfParsedQuery(s: string)
    requires ParseQueryId(s).Some?
    ensures var key := ParseQueryId(s).value; IsClaimId(key.claimId) && 1 <= key.ordinal < 100 && QueryName(key) == s
  {
    hide DigitsValue, Digit, IntentOfCode, CodeOf;
    var key := ParseQueryId(s).value;
    CodeOfParsed(s[8..11]);
    DigitsOfTwo(s[12..14]);
    assert key.claimId[1..] == s[3..7];
    assert s == s[..2] + s[2..7] + s[7..8] + s[8..11] + s[11..12] + s[12..14];
    assert s[..2] == "Q-" && s[7..8] == "-" && s[11..12] == "-";
  }

  /** `validate_covers_identifiers` for one kind: no identifier in use has a number above the counter. */
  ghost predicate Covers(prefix: char, counter: nat, ids: set<string>) {
    forall id :: id in ids && NumberOf(prefix, id).Some? ==> NumberOf(prefix, id).value <= counter
  }

  /** `allocate`: the next `count` identifiers. */
  function Allocate(prefix: char, counter: nat, count: nat): (ids: seq<string>)
    ensures |ids| == count
    ensures forall i :: 0 <= i < count ==> ids[i] == Name(prefix, counter + 1 + i)
  {
    seq(count, i requires 0 <= i < count => Name(prefix, counter + 1 + i))
  }

  /** Allocated identifiers are new and differ from each other, and the advanced counter covers them. */
  lemma AllocatedFresh(prefix: char, counter: nat, count: nat, used: set<string>)
    requires Covers(prefix, counter, used)
    ensures NoRepeats(Allocate(prefix, counter, count))
    ensures forall id :: id in Allocate(prefix, counter, count) ==> id !in used
    ensures Covers(prefix, counter + count, used + set id | id in Allocate(prefix, counter, count))
  {
    hide Name, NumberOf;
    var ids := Allocate(prefix, counter, count);
    forall i | 0 <= i < count ensures NumberOf(prefix, ids[i]) == Some(counter + 1 + i) {
      NumberOfName(prefix, counter + 1 + i);
    }
  }
}

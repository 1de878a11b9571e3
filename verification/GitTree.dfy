/** The bytes of a Git tree object and the entries they stand for (library/git_source.py). */
module GitTree {
  import opened Basics
  import opened Utf8

  datatype ObjectFormat = Sha1 | Sha256 {
    function DigestBytes(): nat {
      if Sha1? then 20 else 32
    }
  }

  datatype TreeEntry = TreeEntry(mode: string, name: string, objectId: string)

  /** Why a payload is refused; the last three are the source's PathSecurityError. */
  datatype TreeError = MalformedFraming | TruncatedObjectId | InvalidUtf8 | InvalidPathOrMode | DuplicateComponent

  const TREE_MODE := "40000"

  predicate IsMode(mode: string) {
    mode in {"40000", "100644", "100755", "120000", "160000"}
  }

  predicate ValidName(name: string) {
    name != "" && '/' !in name && '\0' !in name && name !in {".", "..", ".git"}
  }

  // ---------------------------------------------------------------- hexadecimal identifiers

  function HexDigit(n: int): char
    requires 0 <= n < 16
  {
    if n < 10 then ('0' as int + n) as char else ('a' as int + n - 10) as char
  }

  function DigitValue(c: char): Option<nat> {
    if '0' <= c <= '9' then Some(c as int - '0' as int)
    else if 'a' <= c <= 'f' then Some(c as int - 'a' as int + 10)
    else None
  }

  function Hex(b: Bytes): (s: string)
    ensures |s| == 2 * |b|
  {
    if b == [] then "" else [HexDigit(b[0] / 16), HexDigit(b[0] % 16)] + Hex(b[1..])
  }

  predicate IsHex(s: string) {
    |s| % 2 == 0 && forall i :: 0 <= i < |s| ==> DigitValue(s[i]).Some?
  }

  function FromHex(s: string): (b: Bytes)
    requires IsHex(s)
    ensures |s| == 2 * |b|
  {
    if s == "" then []
    else
      assert DigitValue(s[0]).value < 16 && DigitValue(s[1]).value < 16;
      [DigitValue(s[0]).value * 16 + DigitValue(s[1]).value] + FromHex(s[2..])
  }

  lemma {:induction false} FromHexOfHex(b: Bytes)
    ensures IsHex(Hex(b)) && FromHex(Hex(b)) == b
  {
    if b != [] {
      var s := Hex(b);
      FromHexOfHex(b[1..]);
      assert s[2..] == Hex(b[1..]);
      assert forall i :: 2 <= i < |s| ==> s[i] == Hex(b[1..])[i - 2];
      assert DigitValue(s[0]) == Some(b[0] / 16) && DigitValue(s[1]) == Some(b[0] % 16);
    }
  }

  lemma {:induction false} HexOfFromHex(s: string)
    requires IsHex(s)
    ensures Hex(FromHex(s)) == s
  {
    if s != "" {
      HexOfFromHex(s[2..]);
      var hi, lo := DigitValue(s[0]).value, DigitValue(s[1]).value;
      assert FromHex(s)[0] == hi * 16 + lo && FromHex(s)[1..] == FromHex(s[2..]);
      hide DigitValue, HexDigit;
      assert (hi * 16 + lo) / 16 == hi && (hi * 16 + lo) % 16 == lo;
      assert [s[0], s[1]] + s[2..] == s;
    }
  }

  // ---------------------------------------------------------------- parsing

  /** `bytes.find` for one byte. */
  function FindByte(b: Bytes, x: Byte, from: nat): (r: Option<nat>)
    requires from <= |b|
    ensures r.Some? ==> from <= r.value < |b| && b[r.value] == x
    ensures forall k :: from <= k < (if r.Some? then r.value else |b|) ==> b[k] != x
    decreases |b| - from
  {
    if from == |b| then None
    else if b[from] == x then Some(from)
    else FindByte(b, x, from + 1)
  }

  function DecodeAscii(b: Bytes): Option<string> {
    if b == [] then Some("")
    else if b[0] >= 0x80 then None
    else
      match DecodeAscii(b[1..])
      case None => None
      case Some(rest) => Some([b[0] as char] + rest)
  }

  datatype Step = Step(entry: TreeEntry, size: nat)

  /** The entry that `b` starts with and the bytes it takes. */
  function ParseEntry(b: Bytes, format: ObjectFormat): (r: Result<Step, TreeError>)
    ensures r.Ok? ==> 0 < r.value.size <= |b|
  {
    var separator := FindByte(b, 0x20, 0);
    if separator.None? || separator.value == 0 then Err(MalformedFraming)
    else
      var terminator := FindByte(b, 0, separator.value + 1);
      if terminator.None? then Err(MalformedFraming)
      else
        var oidStart := terminator.value + 1;
        var oidEnd := oidStart + format.DigestBytes();
        if oidEnd > |b| then Err(TruncatedObjectId)
        else
          var mode := DecodeAscii(b[..separator.value]);
          var name := Decode(b[separator.value + 1..terminator.value]);
          if mode.None? || name.None? then Err(InvalidUtf8)
          else if !ValidName(name.value) || !IsMode(mode.value) then Err(InvalidPathOrMode)
          else Ok(Step(TreeEntry(mode.value, name.value, Hex(b[oidStart..oidEnd])), oidEnd))
  }

  /** The entries of `b`, none of them named as one of `names`. */
  function ParseEntries(b: Bytes, format: ObjectFormat, names: set<string>): Result<seq<TreeEntry>, TreeError>
    decreases |b|
  {
    if b == [] then Ok([])
    else
      match ParseEntry(b, format)
      case Err(e) => Err(e)
      case Ok(Step(entry, size)) =>
        if entry.name in names then Err(DuplicateComponent)
        else Prepend([entry], ParseEntries(b[size..], format, names + {entry.name}))
  }

  function Prepend(front: seq<TreeEntry>, r: Result<seq<TreeEntry>, TreeError>): Result<seq<TreeEntry>, TreeError> {
    match r
    case Err(e) => Err(e)
    case Ok(rest) => Ok(front + rest)
  }

  lemma PrependTwice(a: seq<TreeEntry>, b: seq<TreeEntry>, r: Result<seq<TreeEntry>, TreeError>)
    ensures Prepend(a, Prepend(b, r)) == Prepend(a + b, r)
  {
    if r.Ok? {
      assert a + (b + r.value) == a + b + r.value;
    }
  }

  function Parsed(payload: Bytes, format: ObjectFormat): Result<seq<TreeEntry>, TreeError> {
    ParseEntries(payload, format, {})
  }

  /** `_parse_tree`: a cursor over the payload, a list of entries and a set of names. */
  method ParseTree(payload: Bytes, format: ObjectFormat) returns (r: Result<seq<TreeEntry>, TreeError>)
    ensures r == Parsed(payload, format)
  {
    hide ParseEntry;
    var entries: seq<TreeEntry> := [];
    var names: set<string> := {};
    var cursor := 0;
    assert payload[0..] == payload;
    assert Parsed(payload, format).Ok? ==> [] + Parsed(payload, format).value == Parsed(payload, format).value;
    while cursor < |payload|
      invariant cursor <= |payload|
      invariant Parsed(payload, format) ==
                Prepend(entries, ParseEntries(payload[cursor..], format, names))
    {
      var rest := payload[cursor..];
      var step := ParseEntry(rest, format);
      if step.Err? {
        return Err(step.error);
      }
      var entry := step.value.entry;
      if entry.name in names {
        return Err(DuplicateComponent);
      }
      assert rest[step.value.size..] == payload[cursor + step.value.size..];
      PrependTwice(entries, [entry],
        ParseEntries(payload[cursor + step.value.size..], format, names + {entry.name}));
      names := names + {entry.name};
      entries := entries + [entry];
      cursor := cursor + step.value.size;
    }
    assert payload[cursor..] == [];
    assert entries + [] == entries;
    r := Ok(entries);
  }

  // ---------------------------------------------------------------- printing

  predicate WellFormedEntry(e: TreeEntry, format: ObjectFormat) {
    IsMode(e.mode) && ValidName(e.name) && IsHex(e.objectId) && |e.objectId| == (if format.Sha1? then 40 else 64)
  }

  ghost predicate WellFormed(es: seq<TreeEntry>, format: ObjectFormat) {
    && (forall i :: 0 <= i < |es| ==> WellFormedEntry(es[i], format))
    && (forall i, j :: 0 <= i < j < |es| ==> es[i].name != es[j].name)
  }

  function PrintEntry(e: TreeEntry): Bytes
    requires IsHex(e.objectId)
  {
    Encode(e.mode) + [0x20] + Encode(e.name) + [0] + FromHex(e.objectId)
  }

  function Print(es: seq<TreeEntry>): Bytes
    requires forall i :: 0 <= i < |es| ==> IsHex(es[i].objectId)
  {
    if es == [] then [] else PrintEntry(es[0]) + Print(es[1..])
  }

  lemma {:induction false} AsciiIsUtf8(b: Bytes)
    requires DecodeAscii(b).Some?
    ensures Encode(DecodeAscii(b).value) == b
  {
    if b != [] {
      AsciiIsUtf8(b[1..]);
    }
  }

  lemma Joined(b: Bytes, sep: nat, term: nat, end: nat)
    requires sep < term < end <= |b| && b[sep] == 0x20 && b[term] == 0
    ensures b[..end] == b[..sep] + [0x20] + b[sep + 1..term] + [0] + b[term + 1..end]
  {
  }

  lemma PrintOfParsedEntry(b: Bytes, format: ObjectFormat)
    requires ParseEntry(b, format).Ok?
    ensures var Step(e, size) := ParseEntry(b, format).value;
            WellFormedEntry(e, format) && PrintEntry(e) == b[..size]
  {
    hide IsMode, ValidName, Hex, Decode, DecodeAscii, FromHex, FindByte, Encode;
    var separator := FindByte(b, 0x20, 0).value;
    var terminator := FindByte(b, 0, separator + 1).value;
    var oid := b[terminator + 1..terminator + 1 + format.DigestBytes()];
    AsciiIsUtf8(b[..separator]);
    EncodeOfDecode(b[separator + 1..terminator]);
    FromHexOfHex(oid);
    Joined(b, separator, terminator, terminator + 1 + format.DigestBytes());
  }

  lemma {:induction false} PrintOfParsedEntries(b: Bytes, format: ObjectFormat, names: set<string>)
    requires ParseEntries(b, format, names).Ok?
    ensures var es := ParseEntries(b, format, names).value;
            && WellFormed(es, format) && Print(es) == b
            && forall i :: 0 <= i < |es| ==> es[i].name !in names
    decreases |b|
  {
    hide ParseEntry, PrintEntry, WellFormedEntry;
    if b != [] {
      var Step(e, size) := ParseEntry(b, format).value;
      PrintOfParsedEntry(b, format);
      PrintOfParsedEntries(b[size..], format, names + {e.name});
      var rest := ParseEntries(b[size..], format, names + {e.name}).value;
      assert ([e] + rest)[1..] == rest;
      assert b == b[..size] + b[size..];
    }
  }

  lemma ModeDigits(mode: string)
    requires IsMode(mode)
    ensures mode != "" && forall i :: 0 <= i < |mode| ==> '0' <= mode[i] <= '9'
  {
  }

  lemma ModeIsAscii(mode: string)
    requires IsMode(mode)
    ensures DecodeAscii(Encode(mode)) == Some(mode) && 0x20 !in Encode(mode) && Encode(mode) != []
  {
    ModeDigits(mode);
    hide IsMode;
    AsciiByte(mode, ' ');
    AsciiText(mode);
  }

  lemma {:induction false} AsciiText(s: string)
    requires forall i :: 0 <= i < |s| ==> s[i] as int < 0x80
    ensures DecodeAscii(Encode(s)) == Some(s)
  {
    if s != "" {
      AsciiText(s[1..]);
      assert Encode(s)[1..] == Encode(s[1..]);
      assert s == [s[0]] + s[1..];
    }
  }

  lemma {:induction false} FindFirst(b: Bytes, x: Byte, from: nat, at: nat)
    requires from <= at < |b| && b[at] == x
    requires forall k :: from <= k < at ==> b[k] != x
    ensures FindByte(b, x, from) == Some(at)
    decreases at - from
  {
    if from < at {
      FindFirst(b, x, from + 1, at);
    }
  }

  /** The fields of an entry are found where its two separators put them. */
  lemma ParseEntryFields(b: Bytes, sep: nat, term: nat, format: ObjectFormat)
    requires 0 < sep < term && term + 1 + format.DigestBytes() <= |b|
    requires b[sep] == 0x20 && forall k :: 0 <= k < sep ==> b[k] != 0x20
    requires b[term] == 0 && forall k :: sep < k < term ==> b[k] != 0
    requires DecodeAscii(b[..sep]).Some? && IsMode(DecodeAscii(b[..sep]).value)
    requires Decode(b[sep + 1..term]).Some? && ValidName(Decode(b[sep + 1..term]).value)
    ensures var end := term + 1 + format.DigestBytes();
            ParseEntry(b, format) == Ok(Step(TreeEntry(DecodeAscii(b[..sep]).value,
              Decode(b[sep + 1..term]).value, Hex(b[term + 1..end])), end))
  {
    FindFirst(b, 0x20, 0, sep);
    FindFirst(b, 0, sep + 1, term);
  }

  /** Five byte strings in a row, and where each of them lies. */
  lemma Slices(a: Bytes, x: Byte, c: Bytes, y: Byte, e: Bytes, rest: Bytes, b: Bytes)
    requires b == a + [x] + c + [y] + e + rest && x !in a && y !in c
    ensures var m, n := |a|, |a| + 1 + |c|;
            && n + 1 + |e| <= |b| && b[m] == x && b[n] == y
            && b[..m] == a && b[m + 1..n] == c && b[n + 1..n + 1 + |e|] == e
            && (forall k :: 0 <= k < m ==> b[k] != x)
            && (forall k :: m < k < n ==> b[k] != y)
  {
    var m, n := |a|, |a| + 1 + |c|;
    assert b[..m] == a && b[m + 1..n] == c && b[n + 1..n + 1 + |e|] == e;
    forall k | 0 <= k < m ensures b[k] != x {
      assert b[k] == a[k];
    }
    forall k | m < k < n ensures b[k] != y {
      assert b[k] == c[k - m - 1];
    }
  }

  lemma ParseOfPrintedEntry(e: TreeEntry, format: ObjectFormat, rest: Bytes)
    requires WellFormedEntry(e, format)
    ensures ParseEntry(PrintEntry(e) + rest, format) == Ok(Step(e, |PrintEntry(e)|))
  {
    hide IsMode, ValidName, Hex, Decode, DecodeAscii, FromHex, ParseEntry, Encode, IsHex;
    var mode, name, oid := Encode(e.mode), Encode(e.name), FromHex(e.objectId);
    var b := PrintEntry(e) + rest;
    ModeIsAscii(e.mode);
    NameBytes(e.name);
    HexOfFromHex(e.objectId);
    Slices(mode, 0x20, name, 0, oid, rest, b);
    ParseEntryFields(b, |mode|, |mode| + 1 + |name|, format);
    assert TreeEntry(e.mode, e.name, e.objectId) == e;
  }

  lemma NameBytes(name: string)
    requires ValidName(name)
    ensures Decode(Encode(name)) == Some(name) && 0 !in Encode(name) && Encode(name) != []
  {
    AsciiByte(name, '\0');
    DecodeOfEncode(name);
  }

  lemma {:induction false} ParseOfPrintedEntries(es: seq<TreeEntry>, format: ObjectFormat, names: set<string>)
    requires WellFormed(es, format) && forall i :: 0 <= i < |es| ==> es[i].name !in names
    ensures ParseEntries(Print(es), format, names) == Ok(es)
  {
    hide ParseEntry, PrintEntry, IsMode, ValidName;
    if es != [] {
      var e, rest := es[0], Print(es[1..]);
      ParseOfPrintedEntry(e, format, rest);
      assert Print(es) == PrintEntry(e) + rest;
      assert (PrintEntry(e) + rest)[|PrintEntry(e)|..] == rest;
      ParseOfPrintedEntries(es[1..], format, names + {e.name});
      assert es == [e] + es[1..];
    }
  }

  /** Printing what was parsed gives back the payload, and what was parsed is well formed. */
  lemma PrintOfParsed(payload: Bytes, format: ObjectFormat)
    requires Parsed(payload, format).Ok?
    ensures var es := Parsed(payload, format).value; WellFormed(es, format) && Print(es) == payload
  {
    PrintOfParsedEntries(payload, format, {});
  }

  /** Parsing a printed list of well-formed entries with distinct names gives back the list. */
  lemma ParsedOfPrint(es: seq<TreeEntry>, format: ObjectFormat)
    requires WellFormed(es, format)
    ensures Parsed(Print(es), format) == Ok(es)
  {
    ParseOfPrintedEntries(es, format, {});
  }

  /** A payload is accepted exactly when it prints some well-formed list of entries. */
  lemma AcceptedExactly(payload: Bytes, format: ObjectFormat)
    ensures Parsed(payload, format).Ok? <==>
            exists es :: WellFormed(es, format) && Print(es) == payload
  {
    if Parsed(payload, format).Ok? {
      PrintOfParsed(payload, format);
    }
    if es :| WellFormed(es, format) && Print(es) == payload {
      ParsedOfPrint(es, format);
    }
  }
}

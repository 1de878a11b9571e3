/** How the assembled section is laid out: every sentence followed by one line feed (runtime/artifacts.py). */
module AssemblyLayout {
  import opened Basics
  import opened Utf8

  const LF: char := '\n'
  const LF_BYTE: Byte := 10

  function BodyText(texts: seq<string>): string {
    if texts == [] then "" else BodyText(texts[..|texts| - 1]) + texts[|texts| - 1] + [LF]
  }

  function Body(texts: seq<string>): Bytes {
    if texts == [] then [] else Body(texts[..|texts| - 1]) + Encode(texts[|texts| - 1]) + [LF_BYTE]
  }

  /** The body is the UTF-8 encoding of the text. */
  lemma {:induction false} BodyEncodesText(texts: seq<string>)
    ensures Body(texts) == Encode(BodyText(texts))
  {
    if texts != [] {
      var n := |texts| - 1;
      BodyEncodesText(texts[..n]);
      EncodeConcat(BodyText(texts[..n]) + texts[n], [LF]);
      EncodeConcat(BodyText(texts[..n]), texts[n]);
    }
  }

  /** A body decodes to its text. */
  lemma BodyDecodes(texts: seq<string>)
    ensures Decode(Body(texts)) == Some(BodyText(texts))
  {
    BodyEncodesText(texts);
    DecodeOfEncode(BodyText(texts));
  }

  datatype Extent = Extent(startCodepoint: nat, endCodepoint: nat, startByte: nat, endByte: nat)

  /** Where sentence `i` lies, in code points and in bytes. */
  function ExtentOf(texts: seq<string>, i: nat): Extent
    requires i < |texts|
  {
    var cp, byte := |BodyText(texts[..i])|, |Body(texts[..i])|;
    Extent(cp, cp + |texts[i]|, byte, byte + |Encode(texts[i])|)
  }

  lemma {:induction false} PrefixOfBody(texts: seq<string>, i: nat)
    requires i <= |texts|
    ensures BodyText(texts[..i]) <= BodyText(texts) && Body(texts[..i]) <= Body(texts)
    decreases |texts| - i
  {
    if i == |texts| {
      assert texts[..i] == texts;
    } else {
      assert texts[..i + 1][..i] == texts[..i];
      PrefixOfBody(texts, i + 1);
    }
  }

  lemma BodyStep(texts: seq<string>, i: nat)
    requires i < |texts|
    ensures BodyText(texts[..i + 1]) == BodyText(texts[..i]) + texts[i] + [LF]
    ensures Body(texts[..i + 1]) == Body(texts[..i]) + Encode(texts[i]) + [LF_BYTE]
  {
    assert texts[..i + 1][..i] == texts[..i];
  }

  /** Each extent slices back exactly its sentence and its encoding, and exactly one line feed follows it. */
  lemma ExtentExact(texts: seq<string>, i: nat)
    requires i < |texts|
    ensures var e := ExtentOf(texts, i);
            && e.endCodepoint < |BodyText(texts)| && e.endByte < |Body(texts)|
            && BodyText(texts)[e.startCodepoint..e.endCodepoint] == texts[i] && BodyText(texts)[e.endCodepoint] == LF
            && Body(texts)[e.startByte..e.endByte] == Encode(texts[i]) && Body(texts)[e.endByte] == LF_BYTE
  {
    hide BodyText, Body, Encode;
    BodyStep(texts, i);
    PrefixOfBody(texts, i + 1);
  }

  /** The extents tile the body: the first starts it, each starts behind the line feed of the one before, and the
      last line feed ends it. */
  lemma ExtentsTile(texts: seq<string>, i: nat)
    requires i < |texts|
    ensures var e := ExtentOf(texts, i);
            && (i == 0 ==> e.startCodepoint == 0 && e.startByte == 0)
            && (i + 1 < |texts| ==>
                  var f := ExtentOf(texts, i + 1); f.startCodepoint == e.endCodepoint + 1 && f.startByte == e.endByte + 1)
            && (i + 1 == |texts| ==> e.endCodepoint + 1 == |BodyText(texts)| && e.endByte + 1 == |Body(texts)|)
  {
    BodyStep(texts, i);
    assert texts[..|texts|] == texts && texts[..0] == [];
  }

  // ---------------------------------------------------------------- splitting

  function Position(s: string, c: char): (i: nat)
    requires c in s
    ensures i < |s| && s[i] == c && forall k :: 0 <= k < i ==> s[k] != c
  {
    if s[0] == c then 0 else 1 + Position(s[1..], c)
  }

  /** `str.split(c)`. */
  function Split(s: string, c: char): seq<string>
    decreases |s|
  {
    if c !in s then [s] else [s[..Position(s, c)]] + Split(s[Position(s, c) + 1..], c)
  }

  lemma PositionAfter(t: string, rest: string, c: char)
    requires c !in t
    ensures c in t + [c] + rest && Position(t + [c] + rest, c) == |t|
  {
    var s := t + [c] + rest;
    assert s[|t|] == c;
    assert forall k :: 0 <= k < |t| ==> s[k] == t[k];
  }

  lemma {:induction false} BodyTextCons(t: string, texts: seq<string>)
    ensures BodyText([t] + texts) == t + [LF] + BodyText(texts)
  {
    var all := [t] + texts;
    if texts == [] {
      assert all[..0] == [] && all == [t];
    } else {
      var n := |texts| - 1;
      BodyTextCons(t, texts[..n]);
      assert all[..|all| - 1] == [t] + texts[..n];
    }
  }

  /** Splitting the text at line feeds recovers the sentences. */
  lemma {:induction false} SplitRecovers(texts: seq<string>)
    requires forall t :: t in texts ==> LF !in t
    ensures Split(BodyText(texts), LF) == texts + [""]
  {
    if texts != [] {
      var t, rest := texts[0], texts[1..];
      assert texts == [t] + rest;
      BodyTextCons(t, rest);
      PositionAfter(t, BodyText(rest), LF);
      SplitRecovers(rest);
      var s := t + [LF] + BodyText(rest);
      assert s[..|t|] == t && s[|t| + 1..] == BodyText(rest);
      assert [t] + (rest + [""]) == texts + [""];
    }
  }

}

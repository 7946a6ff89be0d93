/**
 Base64 with the URL-safe alphabet and no padding (sections 3.2 and 5 of RFC 4648). The
 decoder is the lenient one the cursor uses: line breaks are skipped, unused trailing bits
 are ignored, and any other foreign character or an impossible length is an error.
 */
module Base64Url {
  import opened Keyset

  type Byte = b: int | 0 <= b < 256
  type Index = i: int | 0 <= i < 64

  function CharOf(i: Index): char {
    if i < 26 then ('A' as int + i) as char
    else if i < 52 then ('a' as int + i - 26) as char
    else if i < 62 then ('0' as int + i - 52) as char
    else if i == 62 then '-'
    else '_'
  }

  function IndexOf(c: char): Option<Index> {
    if 'A' <= c <= 'Z' then Some(c as int - 'A' as int)
    else if 'a' <= c <= 'z' then Some(c as int - 'a' as int + 26)
    else if '0' <= c <= '9' then Some(c as int - '0' as int + 52)
    else if c == '-' then Some(62)
    else if c == '_' then Some(63)
    else None
  }

  // The four six-bit groups of three bytes, and the three bytes of four groups.
  function Group0(a: Byte): Index { a / 4 }
  function Group1(a: Byte, b: Byte): Index { a % 4 * 16 + b / 16 }
  function Group2(b: Byte, c: Byte): Index { b % 16 * 4 + c / 64 }
  function Group3(c: Byte): Index { c % 64 }

  function Byte0(p: Index, q: Index): Byte { p * 4 + q / 16 }
  function Byte1(q: Index, r: Index): Byte { q % 16 * 16 + r / 4 }
  function Byte2(r: Index, s: Index): Byte { r % 4 * 64 + s }

  function Pack(bytes: seq<Byte>): (q: seq<Index>)
    ensures q == [] <==> bytes == []
  {
    if bytes == [] then []
    else if |bytes| == 1 then [Group0(bytes[0]), Group1(bytes[0], 0)]
    else if |bytes| == 2 then [Group0(bytes[0]), Group1(bytes[0], bytes[1]), Group2(bytes[1], 0)]
    else
      [Group0(bytes[0]), Group1(bytes[0], bytes[1]), Group2(bytes[1], bytes[2]), Group3(bytes[2])] + Pack(bytes[3..])
  }

  function Spell(q: seq<Index>): string {
    seq(|q|, i requires 0 <= i < |q| => CharOf(q[i]))
  }

  function Encode(bytes: seq<Byte>): (s: string)
    ensures s == "" <==> bytes == []
  {
    Spell(Pack(bytes))
  }

  function Indices(s: string): Option<seq<Index>> {
    if s == "" then Some([])
    else
      var rest := Indices(s[1..]);
      if rest.None? || IndexOf(s[0]).None? then None else Some([IndexOf(s[0]).value] + rest.value)
  }

  function Unpack(q: seq<Index>): Option<seq<Byte>> {
    if q == [] then Some([])
    else if |q| == 1 then None
    else if |q| == 2 then Some([Byte0(q[0], q[1])])
    else if |q| == 3 then Some([Byte0(q[0], q[1]), Byte1(q[1], q[2])])
    else
      var rest := Unpack(q[4..]);
      if rest.None? then None
      else Some([Byte0(q[0], q[1]), Byte1(q[1], q[2]), Byte2(q[2], q[3])] + rest.value)
  }

  function SkipLineBreaks(s: string): string {
    if s == "" then ""
    else (if s[0] == '\r' || s[0] == '\n' then "" else [s[0]]) + SkipLineBreaks(s[1..])
  }

  function Decode(s: string): Option<seq<Byte>> {
    var q := Indices(SkipLineBreaks(s));
    if q.None? then None else Unpack(q.value)
  }

  // ---------------------------------------------------------------------------
  // Round trip
  // ---------------------------------------------------------------------------

  lemma IndexRoundTrip(i: Index)
    ensures IndexOf(CharOf(i)) == Some(i) && CharOf(i) != '\r' && CharOf(i) != '\n'
  {
  }

  lemma {:induction false} SpellingIsRead(q: seq<Index>)
    ensures SkipLineBreaks(Spell(q)) == Spell(q) && Indices(Spell(q)) == Some(q)
  {
    hide CharOf, IndexOf;
    if q != [] {
      SpellingIsRead(q[1..]);
      IndexRoundTrip(q[0]);
      assert Spell(q)[1..] == Spell(q[1..]);
      assert Spell(q) == [CharOf(q[0])] + Spell(q[1..]);
      assert q == [q[0]] + q[1..];
    }
  }

  lemma ThreeBytes(a: Byte, b: Byte, c: Byte)
    ensures Byte0(Group0(a), Group1(a, b)) == a
    ensures Byte1(Group1(a, b), Group2(b, c)) == b
    ensures Byte2(Group2(b, c), Group3(c)) == c
  {
  }

  lemma {:induction false} PackUnpacks(bytes: seq<Byte>)
    ensures Unpack(Pack(bytes)) == Some(bytes)
  {
    hide Group0, Group1, Group2, Group3, Byte0, Byte1, Byte2;
    if |bytes| >= 3 {
      PackUnpacks(bytes[3..]);
      var q := Pack(bytes);
      assert q[4..] == Pack(bytes[3..]);
      assert bytes == [bytes[0], bytes[1], bytes[2]] + bytes[3..];
      ThreeBytes(bytes[0], bytes[1], bytes[2]);
    } else if |bytes| == 2 {
      ThreeBytes(bytes[0], bytes[1], 0);
      assert bytes == [bytes[0], bytes[1]];
    } else if |bytes| == 1 {
      ThreeBytes(bytes[0], 0, 0);
      assert bytes == [bytes[0]];
    }
  }

  /** Decoding gives back exactly the bytes that were encoded. */
  lemma RoundTrip(bytes: seq<Byte>)
    ensures Decode(Encode(bytes)) == Some(bytes)
  {
    SpellingIsRead(Pack(bytes));
    PackUnpacks(bytes);
  }

  /** The examples of section 10 of RFC 4648, unpadded, and the two characters that are URL-safe. */
  lemma KnownEncodings()
    ensures Encode([102]) == "Zg" && Encode([102, 111]) == "Zm8" && Encode([102, 111, 111]) == "Zm9v"
    ensures Encode([251, 255, 191]) == "-_-_"
    ensures Encode([102, 111, 111, 98, 97, 114]) == "Zm9vYmFy"
  {
    assert Pack([98, 97, 114]) == [24, 38, 5, 50];
    assert [102, 111, 111, 98, 97, 114][3..] == [98, 97, 114];
    assert Pack([102, 111, 111, 98, 97, 114]) == [25, 38, 61, 47] + [24, 38, 5, 50];
  }

  // ---------------------------------------------------------------------------
  // What the decoder refuses
  // ---------------------------------------------------------------------------

  predicate InAlphabet(c: char) {
    'A' <= c <= 'Z' || 'a' <= c <= 'z' || '0' <= c <= '9' || c == '-' || c == '_'
  }

  lemma {:induction false} OnlyLineBreaksAreSkipped(s: string)
    ensures forall c :: c in SkipLineBreaks(s) <==> c in s && c != '\r' && c != '\n'
  {
    if s != "" {
      OnlyLineBreaksAreSkipped(s[1..]);
      assert s == [s[0]] + s[1..];
    }
  }

  lemma {:induction false} NothingToSkip(s: string)
    ensures '\r' !in s && '\n' !in s ==> SkipLineBreaks(s) == s
  {
    if s != "" {
      NothingToSkip(s[1..]);
      assert s == [s[0]] + s[1..];
    }
  }

  lemma {:induction false} IndicesIff(s: string)
    ensures Indices(s).Some? <==> forall c | c in s :: InAlphabet(c)
    ensures Indices(s).Some? ==> |Indices(s).value| == |s|
  {
    if s != "" {
      IndicesIff(s[1..]);
      assert forall c :: c in s <==> c == s[0] || c in s[1..];
      assert IndexOf(s[0]).Some? <==> InAlphabet(s[0]);
    }
  }

  lemma {:induction false} UnpackIff(q: seq<Index>)
    ensures Unpack(q).Some? <==> |q| % 4 != 1
  {
    hide Byte0, Byte1, Byte2;
    if |q| >= 4 {
      UnpackIff(q[4..]);
      assert Unpack(q).Some? <==> Unpack(q[4..]).Some?;
      assert |q| == |q[4..]| + 4;
    } else {
      assert |q| % 4 == |q|;
    }
  }

  /** Line breaks aside, text is refused exactly for a character outside the alphabet or a group of one character. */
  lemma RefusedIff(s: string)
    ensures Decode(s).None? <==>
      (exists c :: c in s && c != '\r' && c != '\n' && !InAlphabet(c)) || |SkipLineBreaks(s)| % 4 == 1
  {
    OnlyLineBreaksAreSkipped(s);
    IndicesIff(SkipLineBreaks(s));
    if Indices(SkipLineBreaks(s)).Some? {
      UnpackIff(Indices(SkipLineBreaks(s)).value);
    }
  }
}

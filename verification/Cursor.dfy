/**
 The opaque cursor of the device list: a position in (registered_at, id) order as a
 two-field JSON object, base64url-encoded. Ids are restricted to those JSON writes without
 escapes; only the object's own two-field shape is read back.
 */
module Cursor {
  import opened Keyset
  import opened Decimal
  import opened Rfc3339
  import Base64Url

  datatype Position = Position(at: Time, id: string)

  const ZERO_TIME := Time(1, 1, 1, 0, 0, 0, 0)

  predicate PlainChar(c: char) {
    ' ' <= c <= '~' && c != '"' && c != '\\' && c != '<' && c != '>' && c != '&'
  }

  predicate PlainText(s: string) {
    forall i | 0 <= i < |s| :: PlainChar(s[i])
  }

  predicate Ascii(s: string) {
    forall i | 0 <= i < |s| :: s[i] as int < 128
  }

  function ToBytes(s: string): seq<Base64Url.Byte>
    requires Ascii(s)
  {
    seq(|s|, i requires 0 <= i < |s| => s[i] as int)
  }

  function FromBytes(bytes: seq<Base64Url.Byte>): string {
    seq(|bytes|, i requires 0 <= i < |bytes| => bytes[i] as char)
  }

  const OPEN := "{\"r\":\""
  const MIDDLE := "\",\"i\":\""
  const CLOSE := "\"}"

  /** JSON refuses a year it cannot write with four digits. */
  function Marshal(p: Position): Option<string> {
    if FourDigitYear(p.at) then Some(OPEN + FormatNanos(p.at) + MIDDLE + p.id + CLOSE) else None
  }

  lemma PlainConcat(a: string, b: string)
    requires PlainText(a) && PlainText(b)
    ensures PlainText(a + b)
  {
  }

  lemma DigitsArePlain(n: int, w: nat)
    ensures PlainText(Digits(n, w))
  {
    hide Digits;
  }

  lemma ToSecondsIsPlain(t: Time)
    ensures PlainText(ToSeconds(t))
  {
    DigitsArePlain(t.year, 4);
    DigitsArePlain(t.month, 2);
    DigitsArePlain(t.day, 2);
    DigitsArePlain(t.hour, 2);
    DigitsArePlain(t.minute, 2);
    DigitsArePlain(t.second, 2);
    hide Digits;
  }

  lemma FractionIsPlain(nanos: int)
    ensures PlainText(Fraction(nanos))
  {
    DigitsArePlain(nanos, 9);
    hide Digits;
  }

  lemma TimeTextIsPlain(t: Time)
    ensures PlainText(FormatNanos(t))
  {
    ToSecondsIsPlain(t);
    FractionIsPlain(t.nanos);
    assert PlainText("Z");
    assert FormatNanos(t) == ToSeconds(t) + Fraction(t.nanos) + "Z";
    hide Fraction, ToSeconds, FormatNanos, PlainText;
    PlainConcat(ToSeconds(t), Fraction(t.nanos));
    PlainConcat(ToSeconds(t) + Fraction(t.nanos), "Z");
  }

  lemma PlainIsAscii(s: string)
    requires PlainText(s)
    ensures Ascii(s)
  {
  }

  lemma AsciiConcat(a: string, b: string)
    requires Ascii(a) && Ascii(b)
    ensures Ascii(a + b)
  {
  }

  lemma AsciiPieces(a: string, b: string, c: string, d: string, e: string)
    requires Ascii(a) && Ascii(b) && Ascii(c) && Ascii(d) && Ascii(e)
    ensures Ascii(a + b + c + d + e)
  {
    hide Ascii;
    AsciiConcat(a, b);
    AsciiConcat(a + b, c);
    AsciiConcat(a + b + c, d);
    AsciiConcat(a + b + c + d, e);
  }

  lemma FrameIsAscii()
    ensures Ascii(OPEN) && Ascii(MIDDLE) && Ascii(CLOSE)
  {
  }

  lemma MarshalIsAscii(p: Position)
    requires PlainText(p.id)
    ensures Marshal(p).Some? ==> Ascii(Marshal(p).value)
  {
    hide FormatNanos, PlainText, Ascii;
    TimeTextIsPlain(p.at);
    PlainIsAscii(FormatNanos(p.at));
    PlainIsAscii(p.id);
    FrameIsAscii();
    AsciiPieces(OPEN, FormatNanos(p.at), MIDDLE, p.id, CLOSE);
  }

  /** The marshalling error is dropped, which leaves no bytes to encode. */
  function EncodeCursor(p: Position): string
    requires Valid(p.at) && PlainText(p.id)
  {
    match Marshal(p)
    case None => Base64Url.Encode([])
    case Some(raw) =>
      MarshalIsAscii(p);
      Base64Url.Encode(ToBytes(raw))
  }

  function QuoteAt(s: string, from: nat): (i: nat)
    requires from <= |s|
    ensures from <= i <= |s|
    ensures forall k | from <= k < i :: s[k] != '"'
    ensures i < |s| ==> s[i] == '"'
    decreases |s| - from
  {
    if from == |s| || s[from] == '"' then from else QuoteAt(s, from + 1)
  }

  function Unmarshal(raw: string): Option<(string, string)> {
    if !(OPEN <= raw) then None
    else
      var i := QuoteAt(raw, |OPEN|);
      if !(MIDDLE <= raw[i..]) then None
      else
        var j := QuoteAt(raw, i + |MIDDLE|);
        if raw[j..] != CLOSE then None else Some((raw[|OPEN|..i], raw[i + |MIDDLE|..j]))
  }

  function DecodeCursor(cursor: string): (p: Option<Position>)
    ensures p.Some? ==> Valid(p.value.at) && p.value.id != "" && p.value.at != ZERO_TIME
  {
    var bytes := Base64Url.Decode(cursor);
    if bytes.None? then None
    else
      var fields := Unmarshal(FromBytes(bytes.value));
      if fields.None? then None
      else
        var at := Parse(fields.value.0);
        if at.None? || fields.value.1 == "" || at.value == ZERO_TIME then None
        else Some(Position(at.value, fields.value.1))
  }

  // ---------------------------------------------------------------------------
  // Round trip
  // ---------------------------------------------------------------------------

  lemma BytesRoundTrip(s: string)
    requires Ascii(s)
    ensures FromBytes(ToBytes(s)) == s
  {
  }

  lemma QuoteAfter(s: string, from: nat, text: string, rest: string)
    requires from <= |s| && s[from..] == text + rest && '"' !in text && rest != "" && rest[0] == '"'
    ensures QuoteAt(s, from) == from + |text|
  {
    var i := QuoteAt(s, from);
    assert forall k | 0 <= k < |text| :: s[from + k] == s[from..][k] == text[k];
    assert s[from + |text|] == s[from..][|text|] == rest[0];
  }

  lemma Pieces(a: string, b: string, c: string, d: string, e: string)
    ensures var raw := a + b + c + d + e;
      var i, j := |a| + |b|, |a| + |b| + |c|;
      && raw[|a|..] == b + (c + d + e) && raw[|a|..i] == b
      && raw[i..] == c + (d + e)
      && raw[j..] == d + e && raw[j..j + |d|] == d
      && raw[j + |d|..] == e
  {
  }

  lemma FramedIsRead(text: string, id: string)
    requires '"' !in text && '"' !in id
    ensures Unmarshal(OPEN + text + MIDDLE + id + CLOSE) == Some((text, id))
  {
    var raw := OPEN + text + MIDDLE + id + CLOSE;
    Pieces(OPEN, text, MIDDLE, id, CLOSE);
    hide QuoteAt;
    var i, j := |OPEN| + |text|, |OPEN| + |text| + |MIDDLE| + |id|;
    QuoteAfter(raw, |OPEN|, text, MIDDLE + id + CLOSE);
    QuoteAfter(raw, i + |MIDDLE|, id, CLOSE);
    assert OPEN <= raw && QuoteAt(raw, |OPEN|) == i;
    assert MIDDLE <= raw[i..] && QuoteAt(raw, i + |MIDDLE|) == j;
  }

  lemma CutInFive(s: string, open: string, i: nat, middle: string, j: nat)
    requires |open| <= i && i + |middle| <= j <= |s| && open <= s && middle <= s[i..]
    ensures s == open + s[|open|..i] + middle + s[i + |middle|..j] + s[j..]
  {
    assert s[i..i + |middle|] == s[i..][..|middle|];
    assert s == s[..|open|] + s[|open|..i] + s[i..i + |middle|] + s[i + |middle|..j] + s[j..];
  }

  lemma ReadIsFramed(raw: string)
    requires Unmarshal(raw).Some?
    ensures var (text, id) := Unmarshal(raw).value;
      '"' !in text && '"' !in id && raw == OPEN + text + MIDDLE + id + CLOSE
  {
    var open, middle, close := OPEN, MIDDLE, CLOSE;
    var i := QuoteAt(raw, |open|);
    var j := QuoteAt(raw, i + |middle|);
    CutInFive(raw, open, i, middle, j);
    hide QuoteAt;
    assert Unmarshal(raw) == Some((raw[|open|..i], raw[i + |middle|..j]));
  }

  lemma MarshalledIsRead(p: Position)
    requires PlainText(p.id) && FourDigitYear(p.at)
    ensures Unmarshal(Marshal(p).value) == Some((FormatNanos(p.at), p.id))
  {
    TimeTextIsPlain(p.at);
    FramedIsRead(FormatNanos(p.at), p.id);
  }

  /** Decoding restores the position exactly when it has a year JSON can write, an id, and a time that is set. */
  lemma CursorRoundTripIff(p: Position)
    requires Valid(p.at) && PlainText(p.id)
    ensures DecodeCursor(EncodeCursor(p)) == Some(p) <==> FourDigitYear(p.at) && p.id != "" && p.at != ZERO_TIME
  {
    if FourDigitYear(p.at) {
      var raw := Marshal(p).value;
      MarshalIsAscii(p);
      Base64Url.RoundTrip(ToBytes(raw));
      BytesRoundTrip(raw);
      MarshalledIsRead(p);
      NanosRoundTrip(p.at);
    } else {
      Base64Url.RoundTrip([]);
      assert FromBytes([]) == "";
    }
  }

  /** An encoded cursor is the empty string, which means "no more pages", only for a year JSON cannot write. */
  lemma CursorIsEmptyIff(p: Position)
    requires Valid(p.at) && PlainText(p.id)
    ensures EncodeCursor(p) == "" <==> !FourDigitYear(p.at)
  {
    if FourDigitYear(p.at) {
      MarshalIsAscii(p);
      assert |Marshal(p).value| > 0;
      assert ToBytes(Marshal(p).value) != [];
    }
  }

  /** A row of the year 10000 that is not the last of its page would end the listing there. */
  lemma FarYearEndsTheListing()
    ensures var p := Position(Time(10000, 1, 1, 0, 0, 0, 0), "a");
      Valid(p.at) && PlainText(p.id) && EncodeCursor(p) == "" && DecodeCursor(EncodeCursor(p)) != Some(p)
  {
    CursorIsEmptyIff(Position(Time(10000, 1, 1, 0, 0, 0, 0), "a"));
    CursorRoundTripIff(Position(Time(10000, 1, 1, 0, 0, 0, 0), "a"));
  }

  // ---------------------------------------------------------------------------
  // What is accepted, and what is not
  // ---------------------------------------------------------------------------

  /**
   A cursor is decoded to a position exactly when its bytes are the object of two fields, the first a timestamp that
   reads as the position's time, the second its id, and neither is missing.
   */
  lemma DecodedIff(cursor: string, p: Position)
    ensures DecodeCursor(cursor) == Some(p) <==>
      && Base64Url.Decode(cursor).Some?
      && p.id != "" && '"' !in p.id && p.at != Time(1, 1, 1, 0, 0, 0, 0)
      && exists text ::
        && Parse(text) == Some(p.at) && '"' !in text
        && FromBytes(Base64Url.Decode(cursor).value) == "{\"r\":\"" + text + "\",\"i\":\"" + p.id + "\"}"
  {
    hide Base64Url.Decode, FromBytes, Parse, Unmarshal;
    if Base64Url.Decode(cursor).Some? {
      var raw := FromBytes(Base64Url.Decode(cursor).value);
      if DecodeCursor(cursor) == Some(p) {
        ReadIsFramed(raw);
        var text := Unmarshal(raw).value.0;
        assert Parse(text) == Some(p.at) && raw == OPEN + text + MIDDLE + p.id + CLOSE;
      }
      forall text | Parse(text) == Some(p.at) && '"' !in text && '"' !in p.id
          && raw == "{\"r\":\"" + text + "\",\"i\":\"" + p.id + "\"}"
        ensures Unmarshal(raw) == Some((text, p.id))
      {
        FramedIsRead(text, p.id);
      }
    }
  }

  /** Text that is not base64 for the URL is never a position. */
  lemma ForeignTextIsRefused(cursor: string, i: nat)
    requires i < |cursor|
    requires
      || cursor[i] == '%' || cursor[i] == '+' || cursor[i] == '/' || cursor[i] == '='
      || (|cursor| % 4 == 1 && '\r' !in cursor && '\n' !in cursor)
    ensures DecodeCursor(cursor) == None
  {
    Base64Url.RefusedIff(cursor);
    Base64Url.NothingToSkip(cursor);
    assert cursor[i] in cursor;
    hide Base64Url.Decode;
  }

  /** The object as it is written out, for one position. */
  lemma OneCursor()
    ensures Marshal(Position(Time(2024, 3, 31, 12, 5, 9, 500_000_000), "a"))
      == Some("{\"r\":\"" + "2024-03-31T12:05:09.5Z" + "\",\"i\":\"" + "a" + "\"}")
  {
    LayoutOfOneTime();
    hide FormatNanos;
  }
}

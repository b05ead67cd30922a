/** Base64 with the standard alphabet and `=` padding (section 4 of RFC 4648),
    as Go's base64.StdEncoding encodes and decodes it. Encoded text is kept
    as the bytes of its ASCII characters, which is what the SQL adapter hands
    to its driver. */
module Base64 {
  import opened Types

  const Pad: Byte := 61       // '='
  const CarriageReturn: Byte := 13
  const LineFeed: Byte := 10

  /** A 6-bit value, the unit base64 works in. */
  type Sextet = b: Byte | b < 64

  /** The character of a 6-bit value: A-Z, a-z, 0-9, '+', '/'. */
  function EncodeSextet(v: Sextet): (b: Byte)
  {
    if v < 26 then v + 65        // 'A'..'Z'
    else if v < 52 then v + 71   // 'a'..'z'
    else if v < 62 then v - 4    // '0'..'9'
    else if v == 62 then 43      // '+'
    else 47                      // '/'
  }

  /** The 6-bit value of an alphabet character; None for any other byte. */
  function DecodeSextet(b: Byte): (r: Option<Sextet>)
    ensures r.Some? ==> EncodeSextet(r.value) == b
  {
    if 65 <= b <= 90 then Some(b - 65)
    else if 97 <= b <= 122 then Some(b - 71)
    else if 48 <= b <= 57 then Some(b + 4)
    else if b == 43 then Some(62)
    else if b == 47 then Some(63)
    else None
  }

  predicate InAlphabet(b: Byte)
  {
    DecodeSextet(b).Some?
  }

  /** Every alphabet character decodes back to its value, so the bytes
      DecodeSextet rejects are exactly those outside the alphabet. */
  lemma SextetRoundTrip(v: Sextet)
    ensures DecodeSextet(EncodeSextet(v)) == Some(v)
  {
  }

  /** Three bytes become four characters. */
  function EncodeGroup(x: Byte, y: Byte, z: Byte): seq<Byte>
  {
    [EncodeSextet(x >> 2), EncodeSextet(((x & 3) << 4) | (y >> 4)),
     EncodeSextet(((y & 15) << 2) | (z >> 6)), EncodeSextet(z & 63)]
  }

  /** One trailing byte: two characters and "==". */
  function EncodeOne(x: Byte): seq<Byte>
  {
    [EncodeSextet(x >> 2), EncodeSextet((x & 3) << 4), Pad, Pad]
  }

  /** Two trailing bytes: three characters and "=". */
  function EncodeTwo(x: Byte, y: Byte): seq<Byte>
  {
    [EncodeSextet(x >> 2), EncodeSextet(((x & 3) << 4) | (y >> 4)), EncodeSextet((y & 15) << 2), Pad]
  }

  /** base64.StdEncoding.Encode: whole groups first, then one or two
      trailing bytes padded with '='. */
  function Encode(s: seq<Byte>): (r: seq<Byte>)
    ensures |r| % 4 == 0
    ensures |r| == 0 <==> |s| == 0
    decreases |s|
  {
    if |s| == 0 then []
    else if |s| == 1 then EncodeOne(s[0])
    else if |s| == 2 then EncodeTwo(s[0], s[1])
    else EncodeGroup(s[0], s[1], s[2]) + Encode(s[3..])
  }

  /** The bytes carried by four sextets (the last two may be padding zeros). */
  function DecodeGroup(a: Sextet, b: Sextet, c: Sextet, d: Sextet): seq<Byte>
  {
    [(a << 2) | (b >> 4), ((b & 15) << 4) | (c >> 2), ((c & 3) << 6) | d]
  }

  /** Decoding of newline-free text: whole quanta of four characters, where
      only the last quantum may end in "=" or "=="; the bits a padded quantum
      leaves over are ignored (StdEncoding is not Strict). */
  function DecodeQuanta(s: seq<Byte>): (r: Result<seq<Byte>>)
    ensures r.Ok? ==> |s| % 4 == 0 && 4 * |r.value| <= 3 * |s|
    ensures r.Err? ==> r.error == CorruptInput
    decreases |s|
  {
    if |s| == 0 then Ok([])
    else if |s| < 4 then Err(CorruptInput)
    else
      var a, b, c, d := DecodeSextet(s[0]), DecodeSextet(s[1]), DecodeSextet(s[2]), DecodeSextet(s[3]);
      if a.None? || b.None? then Err(CorruptInput)
      else if c.Some? && d.Some? then
        match DecodeQuanta(s[4..])
        case Err(e) => Err(e)
        case Ok(rest) => Ok(DecodeGroup(a.value, b.value, c.value, d.value) + rest)
      else if |s| > 4 then Err(CorruptInput)
      else if c.Some? && s[3] == Pad then Ok(DecodeGroup(a.value, b.value, c.value, 0)[..2])
      else if s[2] == Pad && s[3] == Pad then Ok(DecodeGroup(a.value, b.value, 0, 0)[..1])
      else Err(CorruptInput)
  }

  /** The text with every '\r' and '\n' dropped: StdEncoding skips them
      wherever they occur. */
  function RemoveNewlines(s: seq<Byte>): (r: seq<Byte>)
    ensures |r| <= |s|
    ensures forall i :: 0 <= i < |r| ==> r[i] != CarriageReturn && r[i] != LineFeed
    decreases |s|
  {
    if |s| == 0 then []
    else if s[0] == CarriageReturn || s[0] == LineFeed then RemoveNewlines(s[1..])
    else [s[0]] + RemoveNewlines(s[1..])
  }

  /** Dropping newlines distributes over concatenation, so the bytes that
      remain keep their order. */
  lemma {:induction false} RemoveNewlinesAppend(a: seq<Byte>, b: seq<Byte>)
    ensures RemoveNewlines(a + b) == RemoveNewlines(a) + RemoveNewlines(b)
    decreases |a|
  {
    if |a| > 0 {
      assert (a + b)[0] == a[0] && (a + b)[1..] == a[1..] + b;
      RemoveNewlinesAppend(a[1..], b);
      if a[0] != CarriageReturn && a[0] != LineFeed {
        assert RemoveNewlines(a + b) == [a[0]] + (RemoveNewlines(a[1..]) + RemoveNewlines(b));
        assert RemoveNewlines(a) == [a[0]] + RemoveNewlines(a[1..]);
      }
    } else {
      assert a + b == b;
    }
  }

  /** Exactly the '\r' and '\n' bytes are dropped: every other byte keeps
      its number of occurrences. */
  lemma {:induction false} RemoveNewlinesKeeps(s: seq<Byte>)
    ensures multiset(RemoveNewlines(s)) == multiset(s)[CarriageReturn := 0][LineFeed := 0]
    decreases |s|
  {
    if |s| > 0 {
      RemoveNewlinesKeeps(s[1..]);
      assert s == [s[0]] + s[1..];
      assert multiset(s) == multiset{s[0]} + multiset(s[1..]);
      DropNewlines(s[0], multiset(s[1..]));
    }
  }

  lemma DropNewlines(x: Byte, m: multiset<Byte>)
    ensures (multiset{x} + m)[CarriageReturn := 0][LineFeed := 0] ==
      if x == CarriageReturn || x == LineFeed then m[CarriageReturn := 0][LineFeed := 0]
      else multiset{x} + m[CarriageReturn := 0][LineFeed := 0]
  {
  }

  /** base64.StdEncoding.Decode: an error, or the whole decoded text. */
  function Decode(s: seq<Byte>): (r: Result<seq<Byte>>)
    ensures r.Ok? ==> 4 * |r.value| <= 3 * |s|
    ensures r.Err? ==> r.error == CorruptInput
    ensures r.Ok? <==> WellFormed(RemoveNewlines(s))
  {
    DecodeQuantaAccepts(RemoveNewlines(s));
    DecodeQuanta(RemoveNewlines(s))
  }

  // ----- properties -----

  /** Encoded length is 4 * ceil(n / 3) (StdEncoding.EncodedLen). */
  lemma {:induction false} EncodeLength(s: seq<Byte>)
    ensures |Encode(s)| == 4 * ((|s| + 2) / 3)
    decreases |s|
  {
    if |s| > 2 {
      EncodeLength(s[3..]);
    }
  }

  /** Every character is in the alphabet, except '=' padding in the last
      two positions. */
  predicate PaddedAlphabet(e: seq<Byte>)
  {
    forall i :: 0 <= i < |e| ==> InAlphabet(e[i]) || (e[i] == Pad && i >= |e| - 2)
  }

  /** Text StdEncoding accepts once newlines are gone: whole quanta of
      alphabet characters, where the last quantum may end in "=" or "==". */
  predicate WellFormed(s: seq<Byte>)
  {
    && |s| % 4 == 0
    && PaddedAlphabet(s)
    && (|s| >= 2 && s[|s| - 2] == Pad ==> s[|s| - 1] == Pad)
  }

  lemma GroupAlphabet(x: Byte, y: Byte, z: Byte)
    ensures forall i :: 0 <= i < 4 ==> InAlphabet(EncodeGroup(x, y, z)[i])
  {
    SextetRoundTrip(x >> 2);
    SextetRoundTrip(((x & 3) << 4) | (y >> 4));
    SextetRoundTrip(((y & 15) << 2) | (z >> 6));
    SextetRoundTrip(z & 63);
  }

  lemma PrefixAlphabet(g: seq<Byte>, t: seq<Byte>)
    requires forall i :: 0 <= i < |g| ==> InAlphabet(g[i])
    requires PaddedAlphabet(t)
    ensures PaddedAlphabet(g + t)
  {
    var e := g + t;
    forall i | 0 <= i < |e|
      ensures InAlphabet(e[i]) || (e[i] == Pad && i >= |e| - 2)
    {
      if i >= |g| {
        assert e[i] == t[i - |g|];
      }
    }
  }

  /** Every encoded character is in the alphabet, except '=' which appears
      only in the last two positions. */
  lemma {:induction false} EncodeAlphabet(s: seq<Byte>)
    ensures PaddedAlphabet(Encode(s))
    decreases |s|
  {
    if |s| > 2 {
      EncodeAlphabet(s[3..]);
      GroupAlphabet(s[0], s[1], s[2]);
      assert Encode(s) == EncodeGroup(s[0], s[1], s[2]) + Encode(s[3..]);
      PrefixAlphabet(EncodeGroup(s[0], s[1], s[2]), Encode(s[3..]));
    } else if |s| == 1 {
      SextetRoundTrip(s[0] >> 2);
      SextetRoundTrip((s[0] & 3) << 4);
    } else if |s| == 2 {
      SextetRoundTrip(s[0] >> 2);
      SextetRoundTrip(((s[0] & 3) << 4) | (s[1] >> 4));
      SextetRoundTrip((s[1] & 15) << 2);
    }
  }

  lemma {:induction false} RemoveNewlinesIdentity(s: seq<Byte>)
    requires forall i :: 0 <= i < |s| ==> s[i] != CarriageReturn && s[i] != LineFeed
    ensures RemoveNewlines(s) == s
    decreases |s|
  {
    if |s| > 0 {
      RemoveNewlinesIdentity(s[1..]);
      assert s == [s[0]] + s[1..];
    }
  }

  lemma GroupRoundTrip(x: Byte, y: Byte, z: Byte)
    ensures DecodeGroup(x >> 2, ((x & 3) << 4) | (y >> 4), ((y & 15) << 2) | (z >> 6), z & 63) == [x, y, z]
  {
  }

  lemma DecodeOneByte(x: Byte)
    ensures DecodeQuanta(Encode([x])) == Ok([x])
  {
    SextetRoundTrip(x >> 2);
    SextetRoundTrip((x & 3) << 4);
    assert DecodeGroup(x >> 2, (x & 3) << 4, 0, 0)[..1] == [x];
  }

  lemma TwoBytesBits(x: Byte, y: Byte)
    ensures DecodeGroup(x >> 2, ((x & 3) << 4) | (y >> 4), (y & 15) << 2, 0)[..2] == [x, y]
  {
  }

  lemma EncodeTwoBytes(x: Byte, y: Byte)
    ensures Encode([x, y]) ==
      [EncodeSextet(x >> 2), EncodeSextet(((x & 3) << 4) | (y >> 4)), EncodeSextet((y & 15) << 2), Pad]
  {
  }

  /** A final quantum with one '=' carries two bytes. */
  lemma DecodeOnePad(a: Sextet, b: Sextet, c: Sextet)
    ensures DecodeQuanta([EncodeSextet(a), EncodeSextet(b), EncodeSextet(c), Pad]) == Ok(DecodeGroup(a, b, c, 0)[..2])
  {
    SextetRoundTrip(a);
    SextetRoundTrip(b);
    SextetRoundTrip(c);
    assert DecodeSextet(Pad).None?;
  }

  lemma DecodeTwoBytes(x: Byte, y: Byte)
    ensures DecodeQuanta(Encode([x, y])) == Ok([x, y])
  {
    EncodeTwoBytes(x, y);
    DecodeOnePad(x >> 2, ((x & 3) << 4) | (y >> 4), (y & 15) << 2);
    TwoBytesBits(x, y);
  }

  /** A whole encoded group in front of well-formed text decodes to its
      three bytes in front of that text's bytes. */
  lemma DecodeGroupPrefix(x: Byte, y: Byte, z: Byte, t: seq<Byte>, u: seq<Byte>)
    requires DecodeQuanta(t) == Ok(u)
    ensures DecodeQuanta(EncodeGroup(x, y, z) + t) == Ok([x, y, z] + u)
  {
    SextetRoundTrip(x >> 2);
    SextetRoundTrip(((x & 3) << 4) | (y >> 4));
    SextetRoundTrip(((y & 15) << 2) | (z >> 6));
    SextetRoundTrip(z & 63);
    GroupRoundTrip(x, y, z);
    var e := EncodeGroup(x, y, z) + t;
    assert e[4..] == t;
  }

  lemma EncodeUnfold(s: seq<Byte>)
    requires |s| > 2
    ensures Encode(s) == EncodeGroup(s[0], s[1], s[2]) + Encode(s[3..])
  {
  }

  lemma SplitThree(s: seq<Byte>)
    requires |s| > 2
    ensures [s[0], s[1], s[2]] + s[3..] == s
  {
  }

  lemma DecodeQuantaStep(s: seq<Byte>)
    requires |s| > 2 && DecodeQuanta(Encode(s[3..])) == Ok(s[3..])
    ensures DecodeQuanta(Encode(s)) == Ok(s)
  {
    var t, u := Encode(s[3..]), s[3..];
    DecodeGroupPrefix(s[0], s[1], s[2], t, u);
    EncodeUnfold(s);
    SplitThree(s);
  }

  lemma {:induction false} DecodeQuantaEncode(s: seq<Byte>)
    ensures DecodeQuanta(Encode(s)) == Ok(s)
    decreases |s|
  {
    if |s| == 1 {
      assert s == [s[0]];
      DecodeOneByte(s[0]);
    } else if |s| == 2 {
      assert s == [s[0], s[1]];
      DecodeTwoBytes(s[0], s[1]);
    } else if |s| > 2 {
      DecodeQuantaEncode(s[3..]);
      DecodeQuantaStep(s);
    }
  }

  /** A text of more than one quantum is well formed exactly when its first
      quantum is four alphabet characters and the rest is well formed. */
  lemma WellFormedSplit(s: seq<Byte>)
    requires |s| > 4
    ensures WellFormed(s) <==>
      InAlphabet(s[0]) && InAlphabet(s[1]) && InAlphabet(s[2]) && InAlphabet(s[3]) && WellFormed(s[4..])
  {
    var t := s[4..];
    if WellFormed(s) {
      assert |s| >= 8;
      assert InAlphabet(s[0]) && InAlphabet(s[1]) && InAlphabet(s[2]) && InAlphabet(s[3]);
      forall j | 0 <= j < |t|
        ensures InAlphabet(t[j]) || (t[j] == Pad && j >= |t| - 2)
      {
        assert t[j] == s[j + 4];
      }
    }
    if InAlphabet(s[0]) && InAlphabet(s[1]) && InAlphabet(s[2]) && InAlphabet(s[3]) && WellFormed(t) {
      forall i | 0 <= i < |s|
        ensures InAlphabet(s[i]) || (s[i] == Pad && i >= |s| - 2)
      {
        if i >= 4 {
          assert s[i] == t[i - 4];
        }
      }
      assert s[|s| - 2] == t[|t| - 2] && s[|s| - 1] == t[|t| - 1];
    }
  }

  /** The last (or only) quantum: "xy==", "xyz=" and "xyzw" decode, any
      other placement of '=' or a non-alphabet byte is corrupt input. */
  lemma LastQuantumAccepts(s: seq<Byte>)
    requires |s| == 4
    ensures DecodeQuanta(s).Ok? <==> WellFormed(s)
  {
    assert DecodeSextet(Pad).None?;
    if WellFormed(s) {
      assert InAlphabet(s[0]) && InAlphabet(s[1]);
      assert InAlphabet(s[2]) || s[2] == Pad;
      assert InAlphabet(s[3]) || s[3] == Pad;
    }
  }

  /** StdEncoding rejects exactly the texts that are not well formed: the
      other half of the round trip. */
  lemma {:induction false} DecodeQuantaAccepts(s: seq<Byte>)
    ensures DecodeQuanta(s).Ok? <==> WellFormed(s)
    decreases |s|
  {
    if |s| == 4 {
      LastQuantumAccepts(s);
    } else if |s| > 4 {
      DecodeQuantaAccepts(s[4..]);
      WellFormedSplit(s);
    }
  }

  /** A known answer that tells StdEncoding from the URL-safe alphabet:
      0xFB 0xFF is "+/8=" (62 and 63 are '+' and '/'). */
  lemma KnownAnswer()
    ensures Encode([0xFB, 0xFF]) == [43, 47, 56, Pad]
    ensures Decode([43, 47, 56, Pad]) == Ok([0xFB, 0xFF])
  {
    DecodeEncode([0xFB, 0xFF]);
  }

  /** decode(encode(x)) == x for every byte sequence, NULs and non-UTF-8
      bytes included. */
  lemma DecodeEncode(s: seq<Byte>)
    ensures Decode(Encode(s)) == Ok(s)
  {
    EncodeAlphabet(s);
    RemoveNewlinesIdentity(Encode(s));
    DecodeQuantaEncode(s);
  }
}

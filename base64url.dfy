/** The `URL_SAFE_NO_PAD` engine of the `base64` crate: the URL and filename
    safe alphabet of section 5 of RFC 4648, no padding written on encode
    (section 3.2), padding refused on decode, and non-zero trailing bits in
    the last symbol refused on decode. Encoding is split into two layers:
    bytes to 6-bit values (sextets), then sextets to alphabet symbols;
    decoding runs the same layers backwards. */
module Base64Url {
  import opened Common

  /** One 6-bit group: the index of a symbol in the alphabet. */
  type Sextet = x: int | 0 <= x < 64

  datatype DecodeError =
    | InvalidByte(offset: nat, symbol: char)        // a character outside the alphabet
    | InvalidLength                                 // a final group of one symbol
    | InvalidLastSymbol(offset: nat, symbol: char)  // the last symbol carries non-zero padding bits

  /** Membership in the URL and filename safe alphabet of RFC 4648 section 5
      (table 2): A-Z, a-z, 0-9, '-' and '_'. */
  predicate IsUrlSafeChar(c: char) {
    'A' <= c <= 'Z' || 'a' <= c <= 'z' || '0' <= c <= '9' || c == '-' || c == '_'
  }

  /** The symbol that stands for sextet `v`. */
  function SymbolOf(v: Sextet): (c: char)
    ensures IsUrlSafeChar(c)
    ensures SymbolValue(c) == Some(v)
  {
    if v < 26 then ('A' as int + v) as char
    else if v < 52 then ('a' as int + (v - 26)) as char
    else if v < 62 then ('0' as int + (v - 52)) as char
    else if v == 62 then '-'
    else '_'
  }

  /** The sextet a symbol stands for, or None for a character outside the alphabet. */
  function SymbolValue(c: char): (r: Option<Sextet>)
    ensures r.Some? <==> IsUrlSafeChar(c)
  {
    if 'A' <= c <= 'Z' then Some(c as int - 'A' as int)
    else if 'a' <= c <= 'z' then Some(c as int - 'a' as int + 26)
    else if '0' <= c <= '9' then Some(c as int - '0' as int + 52)
    else if c == '-' then Some(62)
    else if c == '_' then Some(63)
    else None
  }

  /** SymbolValue reads the alphabet table backwards. */
  lemma SymbolValueInverse(c: char)
    requires IsUrlSafeChar(c)
    ensures SymbolOf(SymbolValue(c).value) == c
  {
  }

  // ---------------------------------------------------------------- bytes <-> sextets

  /** The four sextets of three bytes, most significant bits first. */
  function GroupSextets(b0: U8, b1: U8, b2: U8): seq<Sextet> {
    [b0 / 4, b0 % 4 * 16 + b1 / 16, b1 % 16 * 4 + b2 / 64, b2 % 64]
  }

  /** The three bytes spelled by four sextets. */
  function GroupBytes(v0: Sextet, v1: Sextet, v2: Sextet, v3: Sextet): seq<U8> {
    [v0 * 4 + v1 / 16, v1 % 16 * 16 + v2 / 4, v2 % 4 * 64 + v3]
  }

  /** Bytes to sextets: whole groups of three bytes give four sextets; a final
      one or two bytes are padded with zero bits and give two or three. */
  function ToSextets(bytes: seq<U8>): seq<Sextet>
    decreases |bytes|
  {
    if |bytes| == 0 then []
    else if |bytes| == 1 then GroupSextets(bytes[0], 0, 0)[..2]
    else if |bytes| == 2 then GroupSextets(bytes[0], bytes[1], 0)[..3]
    else GroupSextets(bytes[0], bytes[1], bytes[2]) + ToSextets(bytes[3..])
  }

  /** Sextets to bytes, the inverse of ToSextets. A final group of one sextet
      is an invalid length; a final group of two or three sextets whose
      padding bits are not zero is an invalid last symbol. `offset` is the
      position of `values[0]` in the token, for error reports. */
  function FromSextets(values: seq<Sextet>, offset: nat): Result<seq<U8>, DecodeError>
    decreases |values|
  {
    if |values| == 0 then Ok([])
    else if |values| == 1 then Err(InvalidLength)
    else if |values| == 2 then
      if values[1] % 16 != 0 then Err(InvalidLastSymbol(offset + 1, SymbolOf(values[1])))
      else Ok(GroupBytes(values[0], values[1], 0, 0)[..1])
    else if |values| == 3 then
      if values[2] % 4 != 0 then Err(InvalidLastSymbol(offset + 2, SymbolOf(values[2])))
      else Ok(GroupBytes(values[0], values[1], values[2], 0)[..2])
    else
      match FromSextets(values[4..], offset + 4)
      case Ok(rest) => Ok(GroupBytes(values[0], values[1], values[2], values[3]) + rest)
      case Err(e) => Err(e)
  }

  lemma GroupRoundTrip(b0: U8, b1: U8, b2: U8)
    ensures var g := GroupSextets(b0, b1, b2);
            GroupBytes(g[0], g[1], g[2], g[3]) == [b0, b1, b2]
  {
  }

  lemma GroupCanonical(v0: Sextet, v1: Sextet, v2: Sextet, v3: Sextet)
    ensures var g := GroupBytes(v0, v1, v2, v3);
            GroupSextets(g[0], g[1], g[2]) == [v0, v1, v2, v3]
  {
  }

  /** Encoding n bytes gives ceil(4n/3) sextets, never 1 modulo 4. */
  lemma {:induction false} ToSextetsLength(bytes: seq<U8>)
    ensures |ToSextets(bytes)| == (4 * |bytes| + 2) / 3
    ensures |ToSextets(bytes)| % 4 != 1
    decreases |bytes|
  {
    if |bytes| >= 3 {
      ToSextetsLength(bytes[3..]);
    }
  }

  lemma {:induction false} SextetsRoundTrip(bytes: seq<U8>, offset: nat)
    ensures FromSextets(ToSextets(bytes), offset) == Ok(bytes)
    decreases |bytes|
  {
    if |bytes| == 1 {
      var g := GroupSextets(bytes[0], 0, 0);
      var values := ToSextets(bytes);
      assert values == g[..2] && g[2] == 0 && g[3] == 0;
      GroupRoundTrip(bytes[0], 0, 0);
      assert values[1] % 16 == 0;
      assert FromSextets(values, offset) == Ok(GroupBytes(values[0], values[1], 0, 0)[..1]);
      assert GroupBytes(values[0], values[1], 0, 0)[..1] == bytes;
    } else if |bytes| == 2 {
      var g := GroupSextets(bytes[0], bytes[1], 0);
      var values := ToSextets(bytes);
      assert values == g[..3] && g[3] == 0;
      GroupRoundTrip(bytes[0], bytes[1], 0);
      assert values[2] % 4 == 0;
      assert FromSextets(values, offset) == Ok(GroupBytes(values[0], values[1], values[2], 0)[..2]);
      assert GroupBytes(values[0], values[1], values[2], 0) == [bytes[0], bytes[1], 0];
      assert GroupBytes(values[0], values[1], values[2], 0)[..2] == bytes;
    } else if |bytes| >= 3 {
      var g := GroupSextets(bytes[0], bytes[1], bytes[2]);
      var rest := ToSextets(bytes[3..]);
      SextetsRoundTrip(bytes[3..], offset + 4);
      GroupRoundTrip(bytes[0], bytes[1], bytes[2]);
      ToSextetsLength(bytes[3..]);
      assert (g + rest)[4..] == rest;
      assert bytes == [bytes[0], bytes[1], bytes[2]] + bytes[3..];
    }
  }

  lemma {:induction false} SextetsCanonical(values: seq<Sextet>, offset: nat, bytes: seq<U8>)
    requires FromSextets(values, offset) == Ok(bytes)
    ensures ToSextets(bytes) == values
    decreases |values|
  {
    if |values| == 2 {
      GroupCanonical(values[0], values[1], 0, 0);
    } else if |values| == 3 {
      GroupCanonical(values[0], values[1], values[2], 0);
    } else if |values| >= 4 {
      var rest :| FromSextets(values[4..], offset + 4) == Ok(rest);
      var g := GroupBytes(values[0], values[1], values[2], values[3]);
      assert bytes == g + rest;
      SextetsCanonical(values[4..], offset + 4, rest);
      GroupCanonical(values[0], values[1], values[2], values[3]);
      assert bytes[3..] == rest;
      assert values == values[..4] + values[4..];
    }
  }

  /** A final group of one sextet is refused whatever comes before it. */
  lemma {:induction false} FromSextetsRejectsLength(values: seq<Sextet>, offset: nat)
    requires |values| % 4 == 1
    ensures FromSextets(values, offset).Err?
    decreases |values|
  {
    if |values| > 1 {
      FromSextetsRejectsLength(values[4..], offset + 4);
    }
  }

  // ---------------------------------------------------------------- sextets <-> symbols

  /** Each sextet written as its symbol. */
  function Symbols(values: seq<Sextet>): string {
    seq(|values|, k requires 0 <= k < |values| => SymbolOf(values[k]))
  }

  /** Each symbol read as its sextet; the first character outside the
      alphabet is reported with its position. */
  function SymbolValues(s: string, offset: nat): (r: Result<seq<Sextet>, DecodeError>)
    ensures r.Ok? <==> forall k | 0 <= k < |s| :: IsUrlSafeChar(s[k])
    ensures r.Ok? ==> Symbols(r.value) == s
    ensures r.Err? ==> exists k | 0 <= k < |s| ::
              && (forall j | 0 <= j < k :: IsUrlSafeChar(s[j]))
              && !IsUrlSafeChar(s[k])
              && r.error == InvalidByte(offset + k, s[k])
    decreases |s|
  {
    if |s| == 0 then Ok([])
    else
      match SymbolValue(s[0])
      case None => Err(InvalidByte(offset, s[0]))
      case Some(v) =>
        match SymbolValues(s[1..], offset + 1)
        case Ok(rest) => Ok([v] + rest)
        case Err(e) => Err(e)
  }

  lemma SymbolValuesOfSymbols(values: seq<Sextet>, offset: nat)
    ensures SymbolValues(Symbols(values), offset) == Ok(values)
  {
    var s := Symbols(values);
    var r := SymbolValues(s, offset);
    assert r.Ok?;
    assert Symbols(r.value) == s;
    assert |r.value| == |values|;
    assert r == Ok(r.value);
    forall k | 0 <= k < |values|
      ensures r.value[k] == values[k]
    {
      assert SymbolOf(r.value[k]) == s[k] == SymbolOf(values[k]);
      assert SymbolValue(SymbolOf(r.value[k])) == Some(r.value[k]);
    }
    assert r.value == values;
  }

  // ---------------------------------------------------------------- the engine

  /** `URL_SAFE_NO_PAD.encode(bytes)`: the token uses only the URL and filename
      safe alphabet (so never the padding character '=') and has the unpadded
      length ceil(4n/3) of section 3.2 of RFC 4648. */
  function Encode(bytes: seq<U8>): (token: string)
    ensures forall k | 0 <= k < |token| :: IsUrlSafeChar(token[k]) && token[k] != '='
    ensures |token| == (4 * |bytes| + 2) / 3
  {
    ToSextetsLength(bytes);
    Symbols(ToSextets(bytes))
  }

  /** `URL_SAFE_NO_PAD.decode(token)`. Decoding is canonical: a token that
      decodes at all is the encoding of the bytes it decodes to. */
  function Decode(token: string): (r: Result<seq<U8>, DecodeError>)
    ensures r.Ok? ==> Encode(r.value) == token
  {
    match SymbolValues(token, 0)
    case Err(e) => Err(e)
    case Ok(values) =>
      var bytes := FromSextets(values, 0);
      assert bytes.Ok? ==> Encode(bytes.value) == token by {
        if bytes.Ok? {
          SextetsCanonical(values, 0, bytes.value);
        }
      }
      bytes
  }

  /** Decoding an encoding gives back the bytes. */
  lemma DecodeEncode(bytes: seq<U8>)
    ensures Decode(Encode(bytes)) == Ok(bytes)
  {
    SymbolValuesOfSymbols(ToSextets(bytes), 0);
    SextetsRoundTrip(bytes, 0);
  }

  /** Decoding is canonical: a token decodes to `bytes` exactly when it is
      the encoding of `bytes`. */
  lemma DecodeIsInverse(token: string, bytes: seq<U8>)
    ensures Decode(token) == Ok(bytes) <==> Encode(bytes) == token
  {
    if Encode(bytes) == token {
      DecodeEncode(bytes);
    }
  }

  /** A token with a character outside the alphabet (including '=') is refused. */
  lemma DecodeRejectsForeignChar(token: string, k: nat)
    requires k < |token| && !IsUrlSafeChar(token[k])
    ensures Decode(token).Err?
    ensures Decode(token).error.InvalidByte?
  {
  }

  /** A token whose length is 1 modulo 4 is refused. */
  lemma DecodeRejectsLength(token: string)
    requires |token| % 4 == 1
    ensures Decode(token).Err?
  {
    if SymbolValues(token, 0).Ok? {
      FromSextetsRejectsLength(SymbolValues(token, 0).value, 0);
    }
  }
}

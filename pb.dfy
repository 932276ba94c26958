/** The transform-spec messages (the prost types generated from abi.proto)
    and thumbor/src/pb/mod.rs: the ImageSpec constructor, the token codec
    (protobuf bytes then URL-safe unpadded base64) and the two enum tables.

    The protobuf wire layer (`encode_to_vec`, `ImageSpec::decode`) is
    generated code that is not part of this model; it enters as a
    `WireCodec` value, and every property that needs it to be a faithful
    codec says so with `requires Inverts(wire)`. */
module Pb {
  import opened Common
  import Base64Url

  // ---------------------------------------------------------------- enums

  /** `resize::Resizetype`. */
  datatype ResizeType = Normal | SeamCarve

  /** `resize::SampleFilter`. */
  datatype SampleFilter = Undefined | Nearest | Triangle | CatmullRom | Gaussian | Lanczos3

  /** `filter::Filter`. */
  datatype FilterKind = Unspecified | Oceanic | Islands | Marine

  /** `photon_rs::transform::SamplingFilter`, the library's own enum. */
  datatype SamplingFilter = NearestSampling | TriangleSampling | CatmullRomSampling | GaussianSampling | Lanczos3Sampling

  // ---------------------------------------------------------------- messages

  /** `Resize`: the enum fields hold the raw i32 a prost message stores. */
  datatype ResizeOp = ResizeOp(width: U32, height: U32, rtype: I32, filter: I32)
  datatype CropOp = CropOp(x1: U32, y1: U32, x2: U32, y2: U32)
  datatype ContrastOp = ContrastOp(contrast: F32)
  datatype FilterOp = FilterOp(filter: I32)
  datatype WatermarkOp = WatermarkOp(x: U32, y: U32)

  /** `spec::Data`, the oneof of a Spec. */
  datatype Data =
    | Resize(resize: ResizeOp)
    | Crop(crop: CropOp)
    | Flipv
    | Fliph
    | Contrast(contrast: ContrastOp)
    | Filter(filter: FilterOp)
    | Watermark(watermark: WatermarkOp)

  /** `Spec`: a oneof field may be absent. */
  datatype Spec = Spec(data: Option<Data>)

  /** `ImageSpec`: the ordered list of transforms. */
  datatype ImageSpec = ImageSpec(specs: seq<Spec>)

  // ---------------------------------------------------------------- enum integer codes

  /** `filter::Filter::from_i32`; codes follow the declaration order of the variants. */
  function FilterFromCode(code: I32): (r: Option<FilterKind>)
    ensures r.Some? <==> 0 <= code <= 3
    ensures r == Some(Unspecified) <==> code == 0
  {
    if code == 0 then Some(Unspecified)
    else if code == 1 then Some(Oceanic)
    else if code == 2 then Some(Islands)
    else if code == 3 then Some(Marine)
    else None
  }

  /** `resize::Resizetype::from_i32`. */
  function ResizeTypeFromCode(code: I32): (r: Option<ResizeType>)
    ensures r.Some? <==> 0 <= code <= 1
  {
    if code == 0 then Some(Normal)
    else if code == 1 then Some(SeamCarve)
    else None
  }

  /** `resize::SampleFilter::try_from(i32)`, with the error as None. */
  function SampleFilterFromCode(code: I32): (r: Option<SampleFilter>)
    ensures r.Some? <==> 0 <= code <= 5
  {
    if code == 0 then Some(Undefined)
    else if code == 1 then Some(Nearest)
    else if code == 2 then Some(Triangle)
    else if code == 3 then Some(CatmullRom)
    else if code == 4 then Some(Gaussian)
    else if code == 5 then Some(Lanczos3)
    else None
  }

  // ---------------------------------------------------------------- pb/mod.rs

  /** `ImageSpec::new`. */
  function NewImageSpec(specs: seq<Spec>): (r: ImageSpec)
    ensures r.specs == specs
  {
    ImageSpec(specs)
  }

  /** `filter::Filter::to_str`: the photon_rs preset name of a filter. */
  function ToStr(f: FilterKind): (r: Option<string>)
    ensures r.None? <==> f == Unspecified
    ensures r.Some? ==> r.value in {"oceanic", "islands", "marine"}
  {
    match f
    case Unspecified => None
    case Oceanic => Some("oceanic")
    case Islands => Some("islands")
    case Marine => Some("marine")
  }

  /** The three presets have distinct names. */
  lemma ToStrInjective(f: FilterKind, g: FilterKind)
    requires ToStr(f).Some? && ToStr(f) == ToStr(g)
    ensures f == g
  {
  }

  /** `From<resize::SampleFilter> for SamplingFilter`. */
  function ToSamplingFilter(s: SampleFilter): (r: SamplingFilter)
    ensures r == NearestSampling <==> s == Undefined || s == Nearest
    ensures s != Undefined ==> SamplingFilterName(r) == SampleFilterName(s)
  {
    match s
    case Undefined => NearestSampling
    case Nearest => NearestSampling
    case Triangle => TriangleSampling
    case CatmullRom => CatmullRomSampling
    case Gaussian => GaussianSampling
    case Lanczos3 => Lanczos3Sampling
  }

  /** The variant names of the two filter enums, to compare them by name. */
  function SampleFilterName(s: SampleFilter): string {
    match s
    case Undefined => "Undefined"
    case Nearest => "Nearest"
    case Triangle => "Triangle"
    case CatmullRom => "CatmullRom"
    case Gaussian => "Gaussian"
    case Lanczos3 => "Lanczos3"
  }

  function SamplingFilterName(s: SamplingFilter): string {
    match s
    case NearestSampling => "Nearest"
    case TriangleSampling => "Triangle"
    case CatmullRomSampling => "CatmullRom"
    case GaussianSampling => "Gaussian"
    case Lanczos3Sampling => "Lanczos3"
  }

  /** The map is total but not injective: Undefined and Nearest collide, and
      those are the only two inputs that collide. */
  lemma ToSamplingFilterCollisions(s: SampleFilter, t: SampleFilter)
    ensures s != t && ToSamplingFilter(s) == ToSamplingFilter(t) <==>
            {s, t} == {Undefined, Nearest}
  {
    if {s, t} == {Undefined, Nearest} {
      assert s in {Undefined, Nearest} && t in {Undefined, Nearest};
    }
  }

  // ---------------------------------------------------------------- the token codec

  /** The protobuf wire layer generated by prost: `encode_to_vec` and
      `ImageSpec::decode`, the latter failing with None. */
  datatype WireCodec = WireCodec(encode: ImageSpec -> seq<U8>, decode: seq<U8> -> Option<ImageSpec>)

  /** The wire layer decodes what it encodes. */
  ghost predicate Inverts(wire: WireCodec) {
    forall spec :: wire.decode(wire.encode(spec)) == Some(spec)
  }

  /** The `anyhow::Error` of `TryFrom<&str> for ImageSpec`. */
  datatype TokenError = Base64(cause: Base64Url.DecodeError) | MessageDecode

  /** `From<&ImageSpec> for String`: the token uses only the URL-safe
      alphabet, never the padding character, and is ceil(4n/3) characters
      long for n message bytes. */
  function SpecToToken(wire: WireCodec, spec: ImageSpec): (token: string)
    ensures forall k | 0 <= k < |token| :: Base64Url.IsUrlSafeChar(token[k]) && token[k] != '='
    ensures |token| == (4 * |wire.encode(spec)| + 2) / 3
  {
    Base64Url.Encode(wire.encode(spec))
  }

  /** `TryFrom<&str> for ImageSpec`: base64 first, then the message; the
      first failure is the result. Only encodings are accepted: a token that
      decodes at all is the base64 of message bytes that decode to the
      result. */
  function SpecFromToken(wire: WireCodec, token: string): (r: Result<ImageSpec, TokenError>)
    ensures r.Ok? ==> exists bytes :: Base64Url.Encode(bytes) == token && wire.decode(bytes) == Some(r.value)
  {
    match Base64Url.Decode(token)
    case Err(e) => Err(Base64(e))
    case Ok(bytes) =>
      match wire.decode(bytes)
      case None => Err(MessageDecode)
      case Some(spec) => Ok(spec)
  }

  /** A token made from a spec gives that spec back, with its transforms in
      the same order, whenever the wire layer inverts itself. */
  lemma TokenRoundTrip(wire: WireCodec, specs: seq<Spec>)
    requires Inverts(wire)
    ensures SpecFromToken(wire, SpecToToken(wire, NewImageSpec(specs))) == Ok(NewImageSpec(specs))
    ensures SpecFromToken(wire, SpecToToken(wire, NewImageSpec(specs))).value.specs == specs
  {
    Base64Url.DecodeEncode(wire.encode(NewImageSpec(specs)));
  }

  /** A character outside the URL-safe alphabet is a base64 error. */
  lemma TokenRejectsForeignChar(wire: WireCodec, token: string, k: nat)
    requires k < |token| && !Base64Url.IsUrlSafeChar(token[k])
    ensures SpecFromToken(wire, token).Err?
    ensures SpecFromToken(wire, token).error.Base64?
  {
    Base64Url.DecodeRejectsForeignChar(token, k);
  }

  /** A length of 1 modulo 4 is a base64 error. */
  lemma TokenRejectsLength(wire: WireCodec, token: string)
    requires |token| % 4 == 1
    ensures SpecFromToken(wire, token).Err?
    ensures SpecFromToken(wire, token).error.Base64?
  {
    Base64Url.DecodeRejectsLength(token);
  }

  /** Valid base64 of bytes that are not an ImageSpec message is a message error. */
  lemma TokenRejectsBadMessage(wire: WireCodec, bytes: seq<U8>)
    requires wire.decode(bytes).None?
    ensures SpecFromToken(wire, Base64Url.Encode(bytes)) == Err(MessageDecode)
  {
    Base64Url.DecodeEncode(bytes);
  }
}

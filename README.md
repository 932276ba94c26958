# thumbor / queryer core, modelled in Dafny

This project models three pieces of sequential logic from the repository.

- **The transform-spec token** (`thumbor/src/pb/mod.rs`). An `ImageSpec` is an ordered list of `Spec`s. Each `Spec` holds an optional `spec::Data` variant: Resize, Crop, Flipv, Fliph, Contrast, Filter or Watermark. A spec becomes a URL path token in two steps: protobuf encoding, then base64 with the URL and filename safe alphabet of RFC 4648 section 5, without padding (RFC 4648 section 3.2). `TryFrom<&str>` reverses both steps and returns an error instead of panicking. The file also holds `ImageSpec::new`, `Filter::to_str` and the `SampleFilter` to `SamplingFilter` table.
- **The Photon engine** (`thumbor/src/engine/photon.rs`). `Engine::apply` walks the specs in slice order. It sends each `Crop` to the crop transform, skips a spec with no data, and reaches `todo!()` on every other kind. Each `SpecTransform` impl (Crop, Contrast, Filter, Flipv, Fliph, Resize) is modelled too.
- **The SQL dialect** (`queryer/queryer/src/dialect.rs`). `TryDialect` has the identifier start and part character classes, widened so that a URL lexes as a table name. `example_sql` builds the query that depends on this.

Files:

- `common.dfy`: Rust integer ranges (`U8`, `U32`, `I32`), an opaque `F32`, and `Option`/`Result`.
- `base64url.dfy`: the `URL_SAFE_NO_PAD` engine of the `base64` crate, concrete over byte sequences.
- `pb.dfy`: the message types, the enum code tables, `ImageSpec::new`, `to_str`, the sampling-filter map and the token codec.
- `photon.dfy`: the transforms, the `apply` dispatch as a function over values, and the class `Photon` holding the image, with an `Apply` method that loops over the specs.
- `dialect.dfy`: the two character classes and `example_sql`.

Modelling choices:

- **The protobuf wire layer.** Prost generates this code, and it is not part of this model. It enters as a `WireCodec` value with an `encode` and a `decode` function. Every property that needs decode to undo encode says so with `requires Inverts(wire)`.
- **Images.** Pixel content is uninterpreted. An `Image` is the bytes it was opened from plus the photon_rs calls applied to it since, with their arguments, in order. So "which library call, with which arguments, in which order" can be stated exactly. Nothing is stated about pixels.
- **Panics.** A Rust panic (`todo!()`, or `unwrap` on `None`/`Err`) is a value: `Panic` (`TodoReached`, `UnwrapFailed`), carried in `Step` and `Outcome`. The step that panics stops the run. The image keeps the state left by the steps before it.
- **Integer enum codes.** `from_i32` and `try_from` follow the order in which the source's match arms list the variants: `Unspecified`=0 to `Marine`=3, `Undefined`=0 to `Lanczos3`=5, `Normal`=0 and `SeamCarve`=1. `abi.proto` is not part of this model.
- **No validation in the engine.** `Engine::apply` returns nothing and reports no error: it reaches `todo!()` for six of the seven spec kinds. No transform parameter (crop rectangle, resize size, contrast amount) is range-checked before it is passed to photon_rs.

## Model

| member | source | states |
|---|---|---|
| `Base64Url.SymbolOf` | thumbor/src/pb/mod.rs:20 | every 6-bit value is written as a character of the URL-safe alphabet, and that character decodes back to the same value |
| `Base64Url.SymbolValue` | thumbor/src/pb/mod.rs:29 | a character has a 6-bit value exactly when it is in the URL-safe alphabet (A-Z, a-z, 0-9, `-`, `_`) |
| `Base64Url.SymbolValueInverse` | thumbor/src/pb/mod.rs:29 | reading an alphabet character and writing its value back gives the same character |
| `Base64Url.GroupRoundTrip` | thumbor/src/pb/mod.rs:20 | three bytes split into four sextets are rebuilt exactly from those sextets |
| `Base64Url.GroupCanonical` | thumbor/src/pb/mod.rs:29 | four sextets joined into three bytes split back into the same four sextets |
| `Base64Url.ToSextetsLength` | thumbor/src/pb/mod.rs:20 | n bytes give ceil(4n/3) sextets, a count that is never 1 modulo 4 |
| `Base64Url.SextetsRoundTrip` | thumbor/src/pb/mod.rs:18-20 | decoding the sextets of any byte sequence gives back that byte sequence, including a final group of one or two bytes |
| `Base64Url.SextetsCanonical` | thumbor/src/pb/mod.rs:29 | any sextets that decode successfully are exactly the sextets of the bytes they decode to, so non-zero trailing bits are never accepted |
| `Base64Url.FromSextetsRejectsLength` | thumbor/src/pb/mod.rs:29 | a sextet count of 1 modulo 4 is an error, whatever comes before the last group |
| `Base64Url.SymbolValues` | thumbor/src/pb/mod.rs:29 | reading a token succeeds exactly when every character is in the alphabet, and then writes back to the same token; otherwise the error names the first foreign character and its offset |
| `Base64Url.SymbolValuesOfSymbols` | thumbor/src/pb/mod.rs:29 | reading the symbols of any sextets gives back those sextets |
| `Base64Url.Encode` | thumbor/src/pb/mod.rs:20 | the encoding uses only the URL-safe alphabet, never contains `=`, and has length ceil(4n/3) for n bytes |
| `Base64Url.Decode` | thumbor/src/pb/mod.rs:29 | decoding is canonical: a token that decodes to some bytes is the encoding of those bytes |
| `Base64Url.DecodeEncode` | thumbor/src/pb/mod.rs:18-31 | decoding the encoding of any byte sequence returns Ok with that byte sequence |
| `Base64Url.DecodeIsInverse` | thumbor/src/pb/mod.rs:29 | a token decodes to given bytes if and only if it is the encoding of those bytes |
| `Base64Url.DecodeRejectsForeignChar` | thumbor/src/pb/mod.rs:29 | a token with a character outside the alphabet, `=` included, decodes to an InvalidByte error |
| `Base64Url.DecodeRejectsLength` | thumbor/src/pb/mod.rs:29 | a token whose length is 1 modulo 4 decodes to an error |
| `Pb.FilterFromCode` | thumbor/src/engine/photon.rs:66 | a filter code maps to a variant exactly when it is in 0..3, and to Unspecified exactly for 0 |
| `Pb.ResizeTypeFromCode` | thumbor/src/engine/photon.rs:88 | a resize-type code maps to a variant exactly when it is 0 or 1 |
| `Pb.SampleFilterFromCode` | thumbor/src/engine/photon.rs:93 | a sample-filter code maps to a variant exactly when it is in 0..5 |
| `Pb.NewImageSpec` | thumbor/src/pb/mod.rs:10-12 | the new spec holds exactly the given list, with the same length and order |
| `Pb.ToStr` | thumbor/src/pb/mod.rs:36-43 | the name is None exactly for Unspecified; otherwise it is one of "oceanic", "islands", "marine" |
| `Pb.ToStrInjective` | thumbor/src/pb/mod.rs:36-43 | two filters with the same name are the same filter |
| `Pb.ToSamplingFilter` | thumbor/src/pb/mod.rs:47-57 | the map is total; Nearest is produced exactly for Undefined and Nearest; every variant other than Undefined maps to the filter of the same name |
| `Pb.ToSamplingFilterCollisions` | thumbor/src/pb/mod.rs:47-57 | two different sample filters map to the same photon filter exactly when they are Undefined and Nearest, so the map is not injective |
| `Pb.SpecToToken` | thumbor/src/pb/mod.rs:16-21 | the token uses only the URL-safe alphabet, never contains `=`, and has length ceil(4n/3) for n protobuf bytes |
| `Pb.TokenRoundTrip` | thumbor/src/pb/mod.rs:16-31 | if protobuf decode undoes encode, the token of `ImageSpec::new(specs)` decodes to that spec, with the same specs in the same order |
| `Pb.SpecFromToken` | thumbor/src/pb/mod.rs:25-32 | base64 decoding first, then message decoding; only encodings are accepted: a token that decodes to a spec is the base64 encoding of message bytes that decode to that spec (error paths: TokenRejectsForeignChar, TokenRejectsLength, TokenRejectsBadMessage) |
| `Pb.TokenRejectsForeignChar` | thumbor/src/pb/mod.rs:29 | a token with a character outside the URL-safe alphabet fails at the base64 step |
| `Pb.TokenRejectsLength` | thumbor/src/pb/mod.rs:29 | a token whose length is 1 modulo 4 fails at the base64 step |
| `Pb.TokenRejectsBadMessage` | thumbor/src/pb/mod.rs:30 | valid base64 of bytes that are not an ImageSpec message fails with a message-decode error |
| `PhotonEngine.CropImage` | thumbor/src/engine/photon.rs:51-56 | the crop transform makes one `crop` call with x1, y1, x2, y2 in that order, and keeps the source and every earlier call |
| `PhotonEngine.ContrastImage` | thumbor/src/engine/photon.rs:58-62 | the contrast transform makes one `adjust_contrast` call with the given amount, and keeps the source and every earlier call |
| `PhotonEngine.FilterImage` | thumbor/src/engine/photon.rs:64-72 | the filter transform changes the image exactly for codes 1..3, and then by one preset call (which preset: FilterImageSpec) |
| `PhotonEngine.FlipvImage` | thumbor/src/engine/photon.rs:74-78 | the vertical flip makes one `flipv` call and nothing else |
| `PhotonEngine.FliphImage` | thumbor/src/engine/photon.rs:80-84 | the horizontal flip makes one `fliph` call and nothing else |
| `PhotonEngine.ResizeImage` | thumbor/src/engine/photon.rs:86-102 | when resize does not panic it makes exactly one library call; when it panics is ResizePanics, which call is SeamCarveIgnoresFilter and NormalResizeCall |
| `PhotonEngine.FilterImageSpec` | thumbor/src/engine/photon.rs:64-72 | the filter transform leaves the image unchanged for Unspecified and for unknown codes; otherwise it makes one preset call, named oceanic, islands or marine by the code, so the unwrap of `to_str` never fails |
| `PhotonEngine.ResizePanics` | thumbor/src/engine/photon.rs:86-102 | resize panics exactly when the resize type is unknown, or when the type is Normal and the sample filter is unknown |
| `PhotonEngine.SeamCarveIgnoresFilter` | thumbor/src/engine/photon.rs:96-98 | a SeamCarve resize calls only `seam_carve(width, height)`, and its result does not depend on the filter code |
| `PhotonEngine.NormalResizeCall` | thumbor/src/engine/photon.rs:89-95 | a Normal resize with a known filter calls only `resize(width, height, mapped filter)` |
| `PhotonEngine.Dispatch` | thumbor/src/engine/photon.rs:33-42 | one spec is got through exactly when it is a Crop or has no data; every other kind halts |
| `PhotonEngine.ApplyAll` | thumbor/src/engine/photon.rs:31-44 | the reference fold of apply: the image keeps its source and every call made before, at most one call is added per spec, and a panic index names a spec of the list |
| `PhotonEngine.ApplyCompletes` | thumbor/src/engine/photon.rs:31-44 | with every photon_rs call assumed to return, apply returns exactly when every spec is a Crop or empty; then the only calls made are one crop per Crop spec, with its coordinates, in slice order |
| `PhotonEngine.ApplyPanicsAtFirstUnsupported` | thumbor/src/engine/photon.rs:31-44 | a panic happens at the first spec that is neither Crop nor empty, through `todo!()`, and the image is what the specs before it left |
| `PhotonEngine.PanicIsFinal` | thumbor/src/engine/photon.rs:32-43 | once a prefix of the specs has panicked, the specs after it change nothing |
| `PhotonEngine.ApplySequential` | thumbor/src/engine/photon.rs:32-43 | applying `a + b` is applying `a`, then applying `b` to the image `a` left; panic positions in `b` are shifted by the length of `a` |
| `PhotonEngine.EmptySpecIsNoOp` | thumbor/src/engine/photon.rs:41 | inserting a spec with no data anywhere in the list changes neither the final image nor whether apply completes |
| `PhotonEngine.Photon.constructor` | thumbor/src/engine/photon.rs:19-27 | the engine owns the opened image it is given |
| `PhotonEngine.Photon.Apply` | thumbor/src/engine/photon.rs:31-44 | the loop leaves the image and the outcome that the reference fold `ApplyAll` gives for the image it started with |
| `PhotonEngine.Photon.TransformCrop` | thumbor/src/engine/photon.rs:51-56 | the image becomes the crop of the old image, with x1, y1, x2, y2 passed through unchanged and in that order |
| `PhotonEngine.Photon.TransformContrast` | thumbor/src/engine/photon.rs:58-62 | the image gets exactly one contrast adjustment by the given amount |
| `PhotonEngine.Photon.TransformFilter` | thumbor/src/engine/photon.rs:64-72 | the image becomes the filter transform of the old image (see FilterImageSpec) |
| `PhotonEngine.Photon.TransformFlipv` | thumbor/src/engine/photon.rs:74-78 | the image gets exactly one vertical flip |
| `PhotonEngine.Photon.TransformFliph` | thumbor/src/engine/photon.rs:80-84 | the image gets exactly one horizontal flip |
| `PhotonEngine.Photon.TransformResize` | thumbor/src/engine/photon.rs:86-102 | on a panic the image is unchanged and the panic is reported; otherwise the image is the resized or seam-carved one |
| `Dialect.IsIdentifierStart` | queryer/queryer/src/dialect.rs:9-11 | an identifier starts with an ASCII letter or `_`, never with a space, a control character or a non-ASCII character (the class itself: StartIsPart, PartButNotStart, OutsideBothClasses) |
| `Dialect.IsIdentifierPart` | queryer/queryer/src/dialect.rs:14-19 | an identifier continues with ASCII letters, digits and `: / ? & = - _ .`, never with a space, a control character or a non-ASCII character |
| `Dialect.StartIsPart` | queryer/queryer/src/dialect.rs:9-19 | every identifier-start character is also an identifier-part character |
| `Dialect.PartButNotStart` | queryer/queryer/src/dialect.rs:9-19 | the characters that may continue but not start an identifier are exactly the ASCII digits and `: / ? & = - .` |
| `Dialect.OutsideBothClasses` | queryer/queryer/src/dialect.rs:9-19 | non-ASCII characters, ASCII control characters, the space, `,`, `*`, `(`, `)`, `<`, `>`, `;` and quotes are in neither class |
| `Dialect.ExampleSql` | queryer/queryer/src/dialect.rs:23-32 | the query with the URL substituted; no contract of its own: ExampleUrlIsOneIdentifier, ColonsOfExampleSql and ExampleUrlOccursOnce state what it promises |
| `Dialect.ExampleUrlCharacters` | queryer/queryer/src/dialect.rs:24 | the URL starts with an identifier-start character and all of its characters are identifier parts |
| `Dialect.ExampleUrlIsOneIdentifier` | queryer/queryer/src/dialect.rs:23-31 | in the example query the URL comes right after `FROM ` and is one maximal identifier: the characters on either side of it are not identifier parts |
| `Dialect.NoColonAroundUrl` | queryer/queryer/src/dialect.rs:26-28 | the query template contains no `:` outside the substituted URL |
| `Dialect.ColonsOfExampleUrl` | queryer/queryer/src/dialect.rs:24 | the only `:` of the URL is the one after its scheme, at index 5 |
| `Dialect.ColonsOfExampleSql` | queryer/queryer/src/dialect.rs:23-31 | the only `:` of the example query is the URL's, at 5 past the end of the text before it |
| `Dialect.ExampleUrlOccursOnce` | queryer/queryer/src/dialect.rs:23-31 | the URL occurs in the example query at exactly one position: where `format!` put it |

## Left out

- thumbor/src/main.rs: the axum router, the tokio server, percent-decoding and the HTTP status mapping are I/O.
- httpie/src/main.rs and queryer/queryer/examples/dialect.rs: a CLI stub, and a literal forwarded to sqlparser.
- thumbor/build.rs and the generated `abi.rs`: the protobuf wire format is not modelled. Its encode/decode pair is a parameter, and the round trip is a stated precondition (`Inverts`).
- Pixel semantics of photon_rs (`crop`, `resize`, `seam_carve`, `adjust_contrast`, `filters::filter`, `flipv`, `fliph`): these are foreign library calls. They are recorded as calls, so no fact about pixels (for example, that two flips cancel) is modelled. The `Contrast` amount is an `f32`, kept only as its bit pattern.
- `TryFrom<Bytes> for Photon` / `open_image_from_bytes`: image container decoding is a library call. The constructor takes the opened image.
- `Engine::generate` (a `todo!()`) and `image_to_buf`: image container encoding is delegated to the `image` crate.
- The `WATERMARK` `lazy_static`: global lazy initialisation of an embedded asset. No modelled code path uses it.
- sqlparser's tokenizer and parser: only the dialect predicates are repository code. `IsMaximalIdentifier` states the longest-run lexing rule they rely on.
- Base64Url.DecodeRejectsForeignChar: the crate reports some placements of `=` as `InvalidPadding` rather than `InvalidByte`, and it reports byte offsets in the UTF-8 encoding rather than character indices. The model reports the first foreign character as `InvalidByte` with its character index. When several errors apply, it checks characters first, then the length, then the last symbol. Which error is reported may therefore differ from the crate. That an error is reported does not.
- PhotonEngine.ApplyCompletes: every photon_rs call is assumed to return. The crop coordinates are passed on unchecked, and the library's `crop` may itself panic on an inverted or out-of-bounds rectangle, so a list of Crop specs need not complete in the real program. The same assumption holds for `Photon.Apply` and the other transforms.

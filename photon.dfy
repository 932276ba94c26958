/** thumbor/src/engine/photon.rs: the Photon engine, which owns an image and
    applies a list of transform specs to it in order.

    The pixel work belongs to photon_rs and is left uninterpreted: an Image
    is the source bytes it was opened from together with the photon_rs
    calls applied to it since, in order. Two images are equal exactly when
    they come from the same bytes through the same calls with the same
    arguments. A Rust panic (`todo!()`, a failed `unwrap`) is a Panic value:
    the operation stops there and the image keeps the state left by the
    steps before it. */
module PhotonEngine {
  import opened Common
  import opened Pb

  /** One call into photon_rs, with the arguments it was given. */
  datatype PhotonCall =
    | CropCall(x1: U32, y1: U32, x2: U32, y2: U32)         // transform::crop
    | AdjustContrast(amount: F32)                         // effects::adjust_contrast
    | PresetFilter(name: string)                          // filters::filter
    | FlipV                                               // transform::flipv
    | FlipH                                               // transform::fliph
    | ResizeCall(width: U32, height: U32, filter: SamplingFilter)  // transform::resize
    | SeamCarveCall(width: U32, height: U32)              // transform::seam_carve

  /** A `PhotonImage`: opened from `source`, then transformed by `calls`. */
  datatype Image = Image(source: seq<U8>, calls: seq<PhotonCall>)

  /** Why a step panicked. */
  datatype Panic = TodoReached | UnwrapFailed

  /** The result of one transform step. */
  datatype Step = Continue(image: Image) | Halt(reason: Panic)

  /** How `apply` ended: it returned, or it panicked at spec `index`. */
  datatype Outcome = Completed | Panicked(index: nat, reason: Panic)

  /** The image `apply` leaves and how it ended. */
  datatype Applied = Applied(image: Image, outcome: Outcome)

  /** The image after one more photon_rs call. */
  function Then(img: Image, call: PhotonCall): Image {
    img.(calls := img.calls + [call])
  }

  /** `after` is `before` transformed further by exactly the calls `added`:
      same source, every earlier call kept in place, `added` made last. */
  predicate Extends(before: Image, after: Image, added: seq<PhotonCall>) {
    && after.source == before.source
    && |after.calls| == |before.calls| + |added|
    && after.calls[..|before.calls|] == before.calls
    && after.calls[|before.calls|..] == added
  }

  // ---------------------------------------------------------------- the SpecTransform impls

  /** `SpecTransform<&Crop>`. */
  function CropImage(img: Image, op: CropOp): (r: Image)
    ensures Extends(img, r, [CropCall(op.x1, op.y1, op.x2, op.y2)])
  {
    Then(img, CropCall(op.x1, op.y1, op.x2, op.y2))
  }

  /** `SpecTransform<&Contrast>`. */
  function ContrastImage(img: Image, op: ContrastOp): (r: Image)
    ensures Extends(img, r, [AdjustContrast(op.contrast)])
  {
    Then(img, AdjustContrast(op.contrast))
  }

  /** `SpecTransform<&Filter>`: the `unwrap` of `to_str` is checked here to
      be on a Some. */
  function FilterImage(img: Image, op: FilterOp): (r: Image)
    ensures r == img <==> !(1 <= op.filter <= 3)
    ensures r != img ==> exists name :: Extends(img, r, [PresetFilter(name)])
  {
    match FilterFromCode(op.filter)
    case Some(Unspecified) => img
    case Some(f) => Then(img, PresetFilter(ToStr(f).value))
    case None => img
  }

  /** `SpecTransform<&Flipv>`. */
  function FlipvImage(img: Image): (r: Image)
    ensures Extends(img, r, [FlipV])
  {
    Then(img, FlipV)
  }

  /** `SpecTransform<&Fliph>`. */
  function FliphImage(img: Image): (r: Image)
    ensures Extends(img, r, [FlipH])
  {
    Then(img, FlipH)
  }

  /** `SpecTransform<&Resize>`: the resize type is unwrapped first; the
      sample filter only in the Normal branch, before photon_rs is called. */
  function ResizeImage(img: Image, op: ResizeOp): (r: Step)
    ensures r.Continue? ==> exists call :: Extends(img, r.image, [call])
  {
    match ResizeTypeFromCode(op.rtype)
    case None => Halt(UnwrapFailed)
    case Some(Normal) =>
      (match SampleFilterFromCode(op.filter)
       case None => Halt(UnwrapFailed)
       case Some(f) => Continue(Then(img, ResizeCall(op.width, op.height, ToSamplingFilter(f)))))
    case Some(SeamCarve) => Continue(Then(img, SeamCarveCall(op.width, op.height)))
  }

  /** The filter transform does nothing for Unspecified and for codes outside
      the enum; for the other three codes it calls the preset of that name. */
  lemma FilterImageSpec(img: Image, op: FilterOp)
    ensures !(1 <= op.filter <= 3) ==> FilterImage(img, op) == img
    ensures op.filter == 1 ==> FilterImage(img, op) == Then(img, PresetFilter("oceanic"))
    ensures op.filter == 2 ==> FilterImage(img, op) == Then(img, PresetFilter("islands"))
    ensures op.filter == 3 ==> FilterImage(img, op) == Then(img, PresetFilter("marine"))
  {
  }

  /** Resize panics exactly on an unknown resize type, or on an unknown
      sample filter when the type is Normal. */
  lemma ResizePanics(img: Image, op: ResizeOp)
    ensures ResizeImage(img, op).Halt? <==>
            !(0 <= op.rtype <= 1) || (op.rtype == 0 && !(0 <= op.filter <= 5))
  {
  }

  /** Seam carving ignores the sample filter, whatever its code. */
  lemma SeamCarveIgnoresFilter(img: Image, op: ResizeOp, filter: I32)
    requires op.rtype == 1
    ensures ResizeImage(img, op) == ResizeImage(img, op.(filter := filter))
    ensures ResizeImage(img, op) == Continue(Then(img, SeamCarveCall(op.width, op.height)))
  {
  }

  /** A Normal resize passes width, height and the mapped sample filter to
      `transform::resize`, and calls nothing else. */
  lemma NormalResizeCall(img: Image, op: ResizeOp)
    requires op.rtype == 0 && 0 <= op.filter <= 5
    ensures ResizeImage(img, op) ==
            Continue(Then(img, ResizeCall(op.width, op.height, ToSamplingFilter(SampleFilterFromCode(op.filter).value))))
  {
  }

  // ---------------------------------------------------------------- Engine::apply

  /** A spec that `apply` gets through: a Crop, or no data at all. */
  predicate Supported(spec: Spec) {
    spec.data.None? || spec.data.value.Crop?
  }

  /** The match of `apply` on one spec. */
  function Dispatch(img: Image, spec: Spec): (r: Step)
    ensures r.Continue? <==> Supported(spec)
  {
    match spec.data
    case None => Continue(img)
    case Some(Crop(op)) => Continue(CropImage(img, op))
    case Some(_) => Halt(TodoReached)
  }

  /** `apply` over `specs`, one spec after the other, stopping at a panic.
      The image keeps its source and every call made before; at most one
      call is added per spec; a panic is reported at a spec of the list. */
  function ApplyAll(img: Image, specs: seq<Spec>): (r: Applied)
    ensures r.image.source == img.source
    ensures |img.calls| <= |r.image.calls| <= |img.calls| + |specs|
    ensures r.image.calls[..|img.calls|] == img.calls
    ensures r.outcome.Panicked? ==> r.outcome.index < |specs|
    decreases |specs|
  {
    if |specs| == 0 then Applied(img, Completed)
    else
      var before := ApplyAll(img, specs[..|specs| - 1]);
      if before.outcome.Panicked? then before
      else
        match Dispatch(before.image, specs[|specs| - 1])
        case Continue(next) => Applied(next, Completed)
        case Halt(reason) => Applied(before.image, Panicked(|specs| - 1, reason))
  }

  /** The photon_rs calls a list of Crop-or-empty specs makes, in order. */
  function CropCalls(specs: seq<Spec>): seq<PhotonCall>
    decreases |specs|
  {
    if |specs| == 0 then []
    else
      var last := specs[|specs| - 1];
      CropCalls(specs[..|specs| - 1]) +
        (if last.data.Some? && last.data.value.Crop? then
           var op := last.data.value.crop; [CropCall(op.x1, op.y1, op.x2, op.y2)]
         else [])
  }

  /** `apply` returns exactly when every spec is a Crop or empty; then the
      image has been cropped once per Crop spec, in slice order, and nothing
      else was called. */
  lemma {:induction false} ApplyCompletes(img: Image, specs: seq<Spec>)
    ensures ApplyAll(img, specs).outcome == Completed <==>
            forall i | 0 <= i < |specs| :: Supported(specs[i])
    ensures ApplyAll(img, specs).outcome == Completed ==>
            ApplyAll(img, specs).image == Image(img.source, img.calls + CropCalls(specs))
    decreases |specs|
  {
    if |specs| > 0 {
      var init := specs[..|specs| - 1];
      ApplyCompletes(img, init);
      assert forall i | 0 <= i < |init| :: init[i] == specs[i];
    }
  }

  /** A panic is reached at the first spec that is neither Crop nor empty,
      through `todo!()`, with the image the specs before it left. */
  lemma {:induction false} ApplyPanicsAtFirstUnsupported(img: Image, specs: seq<Spec>)
    requires ApplyAll(img, specs).outcome.Panicked?
    ensures var k := ApplyAll(img, specs).outcome.index;
            && k < |specs|
            && !Supported(specs[k])
            && (forall j | 0 <= j < k :: Supported(specs[j]))
            && ApplyAll(img, specs).outcome.reason == TodoReached
            && ApplyAll(img, specs[..k]) == Applied(ApplyAll(img, specs).image, Completed)
    decreases |specs|
  {
    var init := specs[..|specs| - 1];
    if ApplyAll(img, init).outcome.Panicked? {
      ApplyPanicsAtFirstUnsupported(img, init);
      var k := ApplyAll(img, init).outcome.index;
      assert init[..k] == specs[..k];
    } else {
      ApplyCompletes(img, init);
      assert specs[..|specs| - 1] == init;
    }
  }

  /** Once a prefix has panicked, the rest of the specs are never looked at. */
  lemma {:induction false} PanicIsFinal(img: Image, specs: seq<Spec>, n: nat)
    requires n <= |specs|
    requires ApplyAll(img, specs[..n]).outcome.Panicked?
    ensures ApplyAll(img, specs) == ApplyAll(img, specs[..n])
    decreases |specs| - n
  {
    if n < |specs| {
      assert specs[..n + 1][..n] == specs[..n];
      PanicIsFinal(img, specs, n + 1);
    } else {
      assert specs[..n] == specs;
    }
  }

  /** The outcome of running `specs` after `shift` specs that completed. */
  function Shifted(outcome: Outcome, shift: nat): Outcome {
    match outcome
    case Completed => Completed
    case Panicked(k, reason) => Panicked(k + shift, reason)
  }

  /** Applying `first + second` is applying `first`, then applying `second`
      to the image `first` left: each step acts on its predecessor's image. */
  lemma {:induction false} ApplySequential(img: Image, first: seq<Spec>, second: seq<Spec>)
    ensures ApplyAll(img, first + second) ==
            var mid := ApplyAll(img, first);
            if mid.outcome.Panicked? then mid
            else
              var rest := ApplyAll(mid.image, second);
              Applied(rest.image, Shifted(rest.outcome, |first|))
    decreases |second|
  {
    if |second| == 0 {
      assert first + second == first;
    } else {
      var all := first + second;
      var init := second[..|second| - 1];
      assert all[..|all| - 1] == first + init;
      assert all[|all| - 1] == second[|second| - 1];
      ApplySequential(img, first, init);
      if ApplyAll(img, first).outcome.Panicked? {
        assert all[..|first|] == first;
        PanicIsFinal(img, all, |first|);
      }
    }
  }

  /** A spec without data leaves the image alone, wherever it stands. */
  lemma EmptySpecIsNoOp(img: Image, before: seq<Spec>, after: seq<Spec>)
    ensures ApplyAll(img, before + [Spec(None)] + after).image == ApplyAll(img, before + after).image
    ensures ApplyAll(img, before + [Spec(None)] + after).outcome.Completed? <==>
            ApplyAll(img, before + after).outcome.Completed?
  {
    ApplySequential(img, before + [Spec(None)], after);
    ApplySequential(img, before, [Spec(None)]);
    ApplySequential(img, before, after);
    assert [Spec(None)][..0] == [];
  }

  // ---------------------------------------------------------------- the engine object

  /** `Photon(PhotonImage)`: the engine owns the image it transforms. */
  class Photon {
    var image: Image

    /** Wraps an opened image (`TryFrom<Bytes>` after `open_image_from_bytes`). */
    constructor (image: Image)
      ensures this.image == image
    {
      this.image := image;
    }

    /** `Engine::apply`: the specs in slice order; a Crop is transformed, an
        empty spec skipped, any other kind reaches `todo!()`. */
    method Apply(specs: seq<Spec>) returns (outcome: Outcome)
      modifies this
      ensures Applied(image, outcome) == ApplyAll(old(image), specs)
    {
      var i := 0;
      while i < |specs|
        invariant 0 <= i <= |specs|
        invariant ApplyAll(old(image), specs[..i]) == Applied(image, Completed)
      {
        assert specs[..i + 1][..i] == specs[..i];
        match specs[i].data {
          case Some(Crop(op)) =>
            TransformCrop(op);
          case Some(Contrast(_)) =>
            outcome := Panicked(i, TodoReached);
          case Some(Filter(_)) =>
            outcome := Panicked(i, TodoReached);
          case Some(Fliph) =>
            outcome := Panicked(i, TodoReached);
          case Some(Flipv) =>
            outcome := Panicked(i, TodoReached);
          case Some(Resize(_)) =>
            outcome := Panicked(i, TodoReached);
          case Some(Watermark(_)) =>
            outcome := Panicked(i, TodoReached);
          case None =>
        }
        if !Supported(specs[i]) {
          PanicIsFinal(old(image), specs, i + 1);
          return;
        }
        i := i + 1;
      }
      assert specs[..i] == specs;
      outcome := Completed;
    }

    /** `SpecTransform<&Crop>::transform`: the image becomes
        `crop(image, x1, y1, x2, y2)`, coordinates passed as given. */
    method TransformCrop(op: CropOp)
      modifies this
      ensures image == old(image).(calls := old(image).calls + [CropCall(op.x1, op.y1, op.x2, op.y2)])
    {
      image := CropImage(image, op);
    }

    /** `SpecTransform<&Contrast>::transform`: contrast adjusted in place by the given amount. */
    method TransformContrast(op: ContrastOp)
      modifies this
      ensures image == old(image).(calls := old(image).calls + [AdjustContrast(op.contrast)])
    {
      image := ContrastImage(image, op);
    }

    /** `SpecTransform<&Filter>::transform`. */
    method TransformFilter(op: FilterOp)
      modifies this
      ensures image == FilterImage(old(image), op)
    {
      image := FilterImage(image, op);
    }

    /** `SpecTransform<&Flipv>::transform`: the vertical flip only. */
    method TransformFlipv()
      modifies this
      ensures image == old(image).(calls := old(image).calls + [FlipV])
    {
      image := FlipvImage(image);
    }

    /** `SpecTransform<&Fliph>::transform`: the horizontal flip only. */
    method TransformFliph()
      modifies this
      ensures image == old(image).(calls := old(image).calls + [FlipH])
    {
      image := FliphImage(image);
    }

    /** `SpecTransform<&Resize>::transform`: on a panic the image is left as it was. */
    method TransformResize(op: ResizeOp) returns (panic: Option<Panic>)
      modifies this
      ensures ResizeImage(old(image), op).Continue? ==>
                panic.None? && image == ResizeImage(old(image), op).image
      ensures ResizeImage(old(image), op).Halt? ==>
                panic == Some(ResizeImage(old(image), op).reason) && image == old(image)
    {
      match ResizeImage(image, op)
      case Continue(next) =>
        image := next;
        panic := None;
      case Halt(reason) =>
        panic := Some(reason);
    }
  }
}

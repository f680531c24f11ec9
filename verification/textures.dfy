/**
 * Texture loading: the raw loader's channel-count to upload-format mapping
 * and its zero texture id on decode failure, and the renderer's lazily
 * populated texture slot.
 */
module Textures {
  import opened Wrappers

  datatype PixelFormat = Red | Rgb | Rgba

  /** A decoded image as the image decoder reports it. */
  datatype Image = Image(width: int, height: int, channels: int)

  datatype Wrap = Repeat | ClampToEdge
  datatype Filter = Linear | LinearMipmapLinear

  /** The sampling parameters every texture of the raw loader gets. */
  datatype Sampling = Sampling(wrapS: Wrap, wrapT: Wrap, minFilter: Filter, magFilter: Filter, mipmaps: bool)

  const RawSampling := Sampling(Repeat, Repeat, LinearMipmapLinear, Linear, true)

  /** One `glTexImage2D` upload. */
  datatype Upload = Upload(texture: nat, format: PixelFormat, width: int, height: int, sampling: Sampling)

  /** Upload format for a channel count: 1 is RED, 4 is RGBA, everything else is RGB. */
  function UploadFormat(channels: int): (f: PixelFormat)
    ensures f == Red <==> channels == 1
    ensures f == Rgba <==> channels == 4
    ensures f == Rgb <==> channels != 1 && channels != 4
  {
    if channels == 1 then Red
    else if channels == 3 then Rgb
    else if channels == 4 then Rgba
    else Rgb
  }

  /** Number of channels a format stores per pixel. */
  function FormatChannels(f: PixelFormat): nat {
    match f
    case Red => 1
    case Rgb => 3
    case Rgba => 4
  }

  /** The mapping is faithful exactly for 1, 3 and 4 channels; other counts are misread as RGB. */
  lemma UploadFormatFaithful(channels: int)
    ensures FormatChannels(UploadFormat(channels)) == channels <==> channels in {1, 3, 4}
  {
  }

  /** The result of the raw `loadTexture`: the id it returns and the upload it issued. */
  datatype RawLoad = RawLoad(textureId: nat, upload: Option<Upload>)

  /**
   * The raw loader: on a successful decode it uploads into the texture name
   * `generated` (from glGenTextures, never 0); on failure it returns id 0.
   */
  function LoadTextureRaw(decoded: Option<Image>, generated: nat): (r: RawLoad)
    requires generated != 0
    ensures r.textureId == 0 <==> decoded.None?
    ensures r.upload.Some? <==> decoded.Some?
    ensures decoded.Some? ==>
              && r.textureId == generated
              && r.upload.value.texture == r.textureId
              && r.upload.value.width == decoded.value.width
              && r.upload.value.height == decoded.value.height
              && r.upload.value.format == UploadFormat(decoded.value.channels)
              && r.upload.value.sampling == RawSampling
  {
    match decoded
    case None => RawLoad(0, None)
    case Some(img) =>
      RawLoad(generated, Some(Upload(generated, UploadFormat(img.channels), img.width, img.height, RawSampling)))
  }

  /** A loaded texture asset: a shared pointer to a GL texture id. */
  datatype TextureAsset = TextureAsset(textureId: nat)

  /** The slot after `loadTexture`, and whether the asset loader was invoked. */
  datatype SlotLoad = SlotLoad(slot: Option<TextureAsset>, loaderCalled: bool)

  /**
   * `loadTexture` on the renderer's slot. `loaded` is what the asset loader
   * would return (None for a null pointer); it is consulted only when the
   * slot is empty.
   */
  function LoadIntoSlot(slot: Option<TextureAsset>, loaded: Option<TextureAsset>): (r: SlotLoad)
    ensures r.loaderCalled <==> slot.None?
    ensures slot.Some? ==> r.slot == slot
    ensures slot.None? ==> r.slot == loaded
  {
    if slot.Some? then SlotLoad(slot, false) else SlotLoad(loaded, true)
  }

  /** A second load of a populated slot keeps the same asset and loads nothing. */
  lemma SecondLoadIsNoOp(slot: Option<TextureAsset>, a: Option<TextureAsset>, b: Option<TextureAsset>)
    requires LoadIntoSlot(slot, a).slot.Some?
    ensures LoadIntoSlot(LoadIntoSlot(slot, a).slot, b).slot == LoadIntoSlot(slot, a).slot
    ensures !LoadIntoSlot(LoadIntoSlot(slot, a).slot, b).loaderCalled
  {
  }

  /** The outcome of calling `loadTexture` once per loader answer in `attempts`. */
  datatype Attempts = Attempts(slot: Option<TextureAsset>, loaderCalls: nat)

  function LoadRepeatedly(slot: Option<TextureAsset>, attempts: seq<Option<TextureAsset>>): (r: Attempts)
    decreases |attempts|
  {
    if |attempts| == 0 then Attempts(slot, 0)
    else
      var step := LoadIntoSlot(slot, attempts[0]);
      var rest := LoadRepeatedly(step.slot, attempts[1..]);
      Attempts(rest.slot, rest.loaderCalls + if step.loaderCalled then 1 else 0)
  }

  /** Index of the first successful loader answer, or |attempts| when none succeeds. */
  function FirstSuccess(attempts: seq<Option<TextureAsset>>): (i: nat)
    ensures i <= |attempts|
    ensures forall j :: 0 <= j < i ==> attempts[j].None?
    ensures i < |attempts| ==> attempts[i].Some?
    decreases |attempts|
  {
    if |attempts| == 0 || attempts[0].Some? then 0 else 1 + FirstSuccess(attempts[1..])
  }

  /**
   * The slot is populated at most once: starting empty, it ends holding the
   * first asset the loader managed to produce, and the loader runs until and
   * including that success, never after it. A populated slot never changes.
   */
  lemma {:induction false} SlotPopulatedOnce(slot: Option<TextureAsset>, attempts: seq<Option<TextureAsset>>)
    ensures slot.Some? ==> LoadRepeatedly(slot, attempts) == Attempts(slot, 0)
    ensures slot.None? ==>
              var i := FirstSuccess(attempts);
              && LoadRepeatedly(slot, attempts).slot == (if i < |attempts| then attempts[i] else None)
              && LoadRepeatedly(slot, attempts).loaderCalls == (if i < |attempts| then i + 1 else |attempts|)
    decreases |attempts|
  {
    if |attempts| > 0 {
      var step := LoadIntoSlot(slot, attempts[0]);
      SlotPopulatedOnce(step.slot, attempts[1..]);
      if slot.None? && attempts[0].None? {
        assert FirstSuccess(attempts) == 1 + FirstSuccess(attempts[1..]);
      }
    }
  }
}

/** The encoding-settings logic of cineluck/camera/encoder.py: validation of
    requested settings, derivation of encoding parameters (the tiered
    bits-per-pixel bitrate rule), and the static codec and container
    descriptions.  The hardware probe is an input (`hardwareEncoderAvailable`)
    and the configuration is the two values the encoder reads from it. */
module Encoder {
  import opened Wrappers
  import opened Text

  const SupportedCodecs: seq<string> := ["h264", "h265"]
  const SupportedContainers: seq<string> := ["mkv", "mp4"]

  /** Fallbacks used when the configuration lacks a key. */
  const DefaultFrameRates: seq<int> := [24, 25, 30, 50, 60]
  const DefaultBitrate: int := 20000000

  /** At and above this frame rate the bitrate cap applies and the lowest
      bits-per-pixel tier is used. */
  const HighFrameRate: int := 50
  const MaxHighFrameRateBitrate: int := 50000000

  const MinWidth: int := 640
  const MinHeight: int := 480
  const MaxWidth: int := 4096
  const MaxHeight: int := 2160

  const ValidMessage: string := "Settings are valid"

  /** The "frame_rates" and "default_bitrate" configuration entries, absent
      or present. */
  datatype Config = Config(frameRates: Option<seq<int>>, defaultBitrate: Option<int>)

  function FrameRates(c: Config): seq<int> {
    match c.frameRates
    case Some(rates) => rates
    case None => DefaultFrameRates
  }

  function ConfiguredBitrate(c: Config): int {
    match c.defaultBitrate
    case Some(b) => b
    case None => DefaultBitrate
  }

  datatype EncoderManager = EncoderManager(config: Config, hardwareEncoderAvailable: bool)

  datatype Resolution = Resolution(width: int, height: int)

  datatype EncodingParameters = EncodingParameters(
    codec: string,
    container: string,
    fps: int,
    resolution: Resolution,
    bitrate: int,
    useHardware: bool)

  /** Euclidean division of a natural number brackets it. */
  lemma DivBounds(n: nat, b: int)
    requires b > 0
    ensures 0 <= n / b && (n / b) * b <= n < (n / b) * b + b
  {
  }

  /** Python's `int()` applied to an exact quotient: truncation toward zero. */
  function TruncDiv(a: int, b: int): (q: int)
    requires b > 0
    ensures a >= 0 ==> 0 <= q && q * b <= a < q * b + b
    ensures a < 0 ==> q <= 0 && (-q) * b <= -a < (-q) * b + b
  {
    if a >= 0 then DivBounds(a, b); a / b
    else DivBounds(-a, b); -((-a) / b)
  }

  /** Bits per pixel per frame, in hundredths: 0.15, 0.2 or 0.25. */
  function BppHundredths(fps: int): (bpp: int)
    ensures bpp == 15 || bpp == 20 || bpp == 25
    ensures fps >= HighFrameRate <==> bpp == 15
    ensures 30 <= fps < HighFrameRate <==> bpp == 20
    ensures fps < 30 <==> bpp == 25
  {
    if fps >= 50 then 15 else if fps >= 30 then 20 else 25
  }

  /** `int(pixel_count * fps * bpp)`, computed exactly. */
  function CalculatedBitrate(fps: int, resolution: Resolution): int {
    TruncDiv(resolution.width * resolution.height * fps * BppHundredths(fps), 100)
  }

  function Max(a: int, b: int): (r: int)
    ensures r >= a && r >= b && (r == a || r == b)
  {
    if a >= b then a else b
  }

  /** `get_encoding_parameters`. */
  function GetEncodingParameters(e: EncoderManager, codec: string, container: string, fps: int,
                                 resolution: Resolution): (p: EncodingParameters)
    ensures p.codec == Lower(codec) && p.container == Lower(container)
    ensures p.fps == fps && p.resolution == resolution && p.useHardware == e.hardwareEncoderAvailable
    ensures Lower(codec) != "h265" ==>
              && p.bitrate >= ConfiguredBitrate(e.config)
              && p.bitrate >= CalculatedBitrate(fps, resolution)
              && (p.bitrate == ConfiguredBitrate(e.config) || p.bitrate == CalculatedBitrate(fps, resolution))
  {
    var base := Max(ConfiguredBitrate(e.config), CalculatedBitrate(fps, resolution));
    var bitrate := if Lower(codec) == "h265" then TruncDiv(base * 7, 10) else base;
    EncodingParameters(Lower(codec), Lower(container), fps, resolution, bitrate, e.hardwareEncoderAvailable)
  }

  /** The H.265 bitrate is 70% (truncated) of the H.264 bitrate for the same
      inputs, so never larger when that bitrate is non-negative. */
  lemma H265Discount(e: EncoderManager, h265: string, h264: string, container: string, fps: int,
                     resolution: Resolution)
    requires Lower(h265) == "h265" && Lower(h264) == "h264"
    ensures var slow := GetEncodingParameters(e, h264, container, fps, resolution).bitrate;
      var fast := GetEncodingParameters(e, h265, container, fps, resolution).bitrate;
      && fast == TruncDiv(slow * 7, 10)
      && (slow >= 0 ==> 0 <= fast <= slow)
  {
  }

  /** The bits-per-pixel tiers never increase with the frame rate. */
  lemma BppNonIncreasing(slower: int, faster: int)
    requires slower <= faster
    ensures BppHundredths(faster) <= BppHundredths(slower)
  {
  }

  /** Only the lower-cased codec and container matter. */
  lemma ParametersIgnoreCase(e: EncoderManager, c1: string, c2: string, k1: string, k2: string,
                             fps: int, resolution: Resolution)
    requires Lower(c1) == Lower(c2) && Lower(k1) == Lower(k2)
    ensures GetEncodingParameters(e, c1, k1, fps, resolution) == GetEncodingParameters(e, c2, k2, fps, resolution)
  {
  }

  datatype Verdict = Verdict(valid: bool, message: string)

  /** Settings that pass every check, stated without reference to the order
      in which the checks are made. */
  predicate Acceptable(e: EncoderManager, codec: string, container: string, fps: int, resolution: Resolution) {
    && Lower(codec) in SupportedCodecs
    && Lower(container) in SupportedContainers
    && MinWidth <= resolution.width <= MaxWidth
    && MinHeight <= resolution.height <= MaxHeight
    && fps in FrameRates(e.config)
    && (fps >= HighFrameRate ==>
          GetEncodingParameters(e, codec, container, fps, resolution).bitrate <= MaxHighFrameRateBitrate)
  }

  /** `validate_encoding_settings`: the first failing check, in order codec,
      container, minimum resolution, maximum resolution, frame rate and
      high-frame-rate bitrate, decides the message. */
  function ValidateEncodingSettings(e: EncoderManager, codec: string, container: string, fps: int,
                                    resolution: Resolution): (r: Verdict)
    ensures r.valid <==> Acceptable(e, codec, container, fps, resolution)
    ensures r.valid <==> r.message == ValidMessage
    ensures Lower(codec) !in SupportedCodecs ==> r == Verdict(false, "Unsupported codec: " + codec)
    ensures Lower(codec) in SupportedCodecs && Lower(container) !in SupportedContainers ==>
              r == Verdict(false, "Unsupported container: " + container)
  {
    if Lower(codec) !in SupportedCodecs then
      Verdict(false, "Unsupported codec: " + codec)
    else if Lower(container) !in SupportedContainers then
      Verdict(false, "Unsupported container: " + container)
    else if resolution.width < 640 || resolution.height < 480 then
      Verdict(false, "Resolution too small (minimum 640x480)")
    else if resolution.width > 4096 || resolution.height > 2160 then
      Verdict(false, "Resolution too large (maximum 4096x2160)")
    else if fps !in FrameRates(e.config) then
      Verdict(false, "Unsupported frame rate: " + FormatInt(fps))
    else if fps >= 50 && GetEncodingParameters(e, codec, container, fps, resolution).bitrate > 50000000 then
      Verdict(false, "High frame rate requires SSD storage")
    else
      Verdict(true, ValidMessage)
  }

  /** Past the codec and container checks, the resolution bounds are
      inclusive and a resolution outside them is reported before the frame
      rate is looked at. */
  lemma ResolutionChecks(e: EncoderManager, codec: string, container: string, fps: int, resolution: Resolution)
    requires Lower(codec) in SupportedCodecs && Lower(container) in SupportedContainers
    ensures var r := ValidateEncodingSettings(e, codec, container, fps, resolution);
      && (resolution.width < MinWidth || resolution.height < MinHeight ==>
            r.message == "Resolution too small (minimum 640x480)")
      && (MinWidth <= resolution.width && MinHeight <= resolution.height
          && (resolution.width > MaxWidth || resolution.height > MaxHeight) ==>
            r.message == "Resolution too large (maximum 4096x2160)")
  {
  }

  /** Past the earlier checks, a frame rate outside the configured list is
      rejected; one inside it is rejected only at a high frame rate, and then
      exactly when the derived bitrate exceeds 50 Mbit/s. */
  lemma FrameRateChecks(e: EncoderManager, codec: string, container: string, fps: int, resolution: Resolution)
    requires Lower(codec) in SupportedCodecs && Lower(container) in SupportedContainers
    requires MinWidth <= resolution.width <= MaxWidth && MinHeight <= resolution.height <= MaxHeight
    ensures var r := ValidateEncodingSettings(e, codec, container, fps, resolution);
      && (fps !in FrameRates(e.config) ==> r == Verdict(false, "Unsupported frame rate: " + FormatInt(fps)))
      && (fps in FrameRates(e.config) ==>
            (r.message == "High frame rate requires SSD storage"
             <==> fps >= HighFrameRate
                  && GetEncodingParameters(e, codec, container, fps, resolution).bitrate > MaxHighFrameRateBitrate))
  {
  }

  /** At the largest resolution and 50 frames per second the cap separates
      the codecs: H.264 needs 66,355,200 bit/s and is refused, H.265 needs
      46,448,640 bit/s and is accepted. */
  lemma CapSeparatesCodecsAtUhd50(e: EncoderManager)
    requires e.config == Config(None, None)
    ensures ValidateEncodingSettings(e, "h264", "mkv", 50, Resolution(4096, 2160))
         == Verdict(false, "High frame rate requires SSD storage")
    ensures ValidateEncodingSettings(e, "H265", "mkv", 50, Resolution(4096, 2160)) == Verdict(true, ValidMessage)
  {
    assert CalculatedBitrate(50, Resolution(4096, 2160)) == 66355200;
    H264RefusedAtUhd50(e);
    H265AcceptedAtUhd50(e);
  }

  /** Whatever the resolution, configuration and frame rate, once the other
      checks pass at a high frame rate an H.264 bitrate just above the cap
      (at most 71,428,572 bit/s) is refused while H.265, at 70% of it, is
      accepted. */
  lemma CapSeparatesCodecs(e: EncoderManager, h264: string, h265: string, container: string, fps: int,
                           resolution: Resolution)
    requires Lower(h264) == "h264" && Lower(h265) == "h265" && Lower(container) in SupportedContainers
    requires MinWidth <= resolution.width <= MaxWidth && MinHeight <= resolution.height <= MaxHeight
    requires fps in FrameRates(e.config) && fps >= HighFrameRate
    requires MaxHighFrameRateBitrate < GetEncodingParameters(e, h264, container, fps, resolution).bitrate
             <= 71428572
    ensures ValidateEncodingSettings(e, h264, container, fps, resolution)
         == Verdict(false, "High frame rate requires SSD storage")
    ensures ValidateEncodingSettings(e, h265, container, fps, resolution) == Verdict(true, ValidMessage)
  {
    H265Discount(e, h265, h264, container, fps, resolution);
  }

  lemma H264RefusedAtUhd50(e: EncoderManager)
    requires e.config == Config(None, None)
    requires CalculatedBitrate(50, Resolution(4096, 2160)) == 66355200
    ensures ValidateEncodingSettings(e, "h264", "mkv", 50, Resolution(4096, 2160))
         == Verdict(false, "High frame rate requires SSD storage")
  {
    assert Lower("h264") == "h264" && Lower("mkv") == "mkv";
    assert GetEncodingParameters(e, "h264", "mkv", 50, Resolution(4096, 2160)).bitrate == 66355200;
  }

  lemma H265AcceptedAtUhd50(e: EncoderManager)
    requires e.config == Config(None, None)
    requires CalculatedBitrate(50, Resolution(4096, 2160)) == 66355200
    ensures ValidateEncodingSettings(e, "H265", "mkv", 50, Resolution(4096, 2160)) == Verdict(true, ValidMessage)
  {
    assert Lower("H265") == "h265" && Lower("mkv") == "mkv";
    assert GetEncodingParameters(e, "H265", "mkv", 50, Resolution(4096, 2160)).bitrate == 46448640;
  }

  datatype CodecProfile = CodecProfile(description: string, efficiency: string, compatibility: string)

  datatype CodecInfo = CodecInfo(
    name: string,
    hardwareSupported: bool,
    containerSupport: seq<string>,
    profile: Option<CodecProfile>)

  /** `get_codec_info`. */
  function GetCodecInfo(e: EncoderManager, codec: string): (r: CodecInfo)
    ensures r.name == Upper(codec) && r.hardwareSupported == e.hardwareEncoderAvailable
    ensures r.profile.Some? <==> Lower(codec) in SupportedCodecs
    ensures r.containerSupport == if Lower(codec) in SupportedCodecs then SupportedContainers else []
  {
    var info := CodecInfo(Upper(codec), e.hardwareEncoderAvailable, [], None);
    if Lower(codec) == "h264" then
      info.(containerSupport := ["mkv", "mp4"],
            profile := Some(CodecProfile("H.264 High Profile", "standard", "excellent")))
    else if Lower(codec) == "h265" then
      info.(containerSupport := ["mkv", "mp4"],
            profile := Some(CodecProfile("H.265 Main Profile", "high", "good")))
    else info
  }

  datatype ContainerTraits = ContainerTraits(description: string, crashSafe: bool, streaming: bool)

  datatype ContainerInfo = ContainerInfo(name: string, codecSupport: seq<string>, traits: Option<ContainerTraits>)

  /** `get_container_info`. */
  function GetContainerInfo(container: string): (r: ContainerInfo)
    ensures r.name == Upper(container)
    ensures r.traits.Some? <==> Lower(container) in SupportedContainers
    ensures r.codecSupport == if Lower(container) in SupportedContainers then SupportedCodecs else []
    ensures r.traits.Some? ==> (r.traits.value.crashSafe <==> Lower(container) == "mkv")
    ensures r.traits.Some? ==> (r.traits.value.streaming <==> Lower(container) == "mp4")
  {
    var info := ContainerInfo(Upper(container), [], None);
    if Lower(container) == "mkv" then
      info.(codecSupport := ["h264", "h265"],
            traits := Some(ContainerTraits("Matroska Video (recommended)", true, false)))
    else if Lower(container) == "mp4" then
      info.(codecSupport := ["h264", "h265"],
            traits := Some(ContainerTraits("MPEG-4 Part 14", false, true)))
    else info
  }

  /** The two descriptions and the validator agree on which pairs go
      together: a codec lists a container exactly when the container lists
      the codec, exactly when both pass the validator's first two checks. */
  lemma CompatibilityAgrees(e: EncoderManager, codec: string, container: string)
    ensures Lower(container) in GetCodecInfo(e, codec).containerSupport
        <==> Lower(codec) in SupportedCodecs && Lower(container) in SupportedContainers
    ensures Lower(codec) in GetContainerInfo(container).codecSupport
        <==> Lower(codec) in SupportedCodecs && Lower(container) in SupportedContainers
    ensures Lower(codec) in GetContainerInfo(container).codecSupport
        <==> Lower(container) in GetCodecInfo(e, codec).containerSupport
  {
  }
}

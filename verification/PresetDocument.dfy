/** Export parameters, the preset document that holds them, and what reading it gives. */
module PresetDocument {
  import opened Wrappers
  import opened Text
  import opened PresetXml
  import opened PresetGrammar
  import opened PresetPrinting
  import opened XmlEscape
  import opened PresetNames

  const I32_MIN := -0x8000_0000
  const I32_MAX := 0x7fff_ffff
  const I64_MIN := -0x8000_0000_0000_0000
  const I64_MAX := 0x7fff_ffff_ffff_ffff
  const U64_MAX := 0xffff_ffff_ffff_ffff

  const FILENAME_BYTES: nat := 1024
  const PIX_FMT_BYTES: nat := 64

  // ----- enumerations and their codes -----

  datatype PixelFormat = Invalid | U8 | U10 | U16 | F16 | F32
  {
    function Code(): int {
      match this
      case Invalid => -1 case U8 => 0 case U10 => 1 case U16 => 2 case F16 => 3 case F32 => 4
    }
  }

  function PixelFormatFrom(code: int): PixelFormat {
    match code
    case 0 => PixelFormat.U8 case 1 => PixelFormat.U10 case 2 => PixelFormat.U16
    case 3 => PixelFormat.F16 case 4 => PixelFormat.F32 case _ => PixelFormat.Invalid
  }

  datatype Scaling = Fit | Stretch | Crop
  {
    function Code(): int {
      match this case Fit => 0 case Stretch => 1 case Crop => 2
    }
  }

  function ScalingFrom(code: int): Scaling {
    match code case 0 => Fit case 2 => Crop case _ => Stretch
  }

  datatype SampleFormat =
    Invalid | U8Planar | S16Planar | S32Planar | S64Planar | F32Planar | F64Planar | U8 | S16 | S32 | S64 | F32 | F64
  {
    function Code(): int {
      match this
      case Invalid => -1 case U8Planar => 0 case S16Planar => 1 case S32Planar => 2 case S64Planar => 3
      case F32Planar => 4 case F64Planar => 5 case U8 => 6 case S16 => 7 case S32 => 8 case S64 => 9
      case F32 => 10 case F64 => 11
    }
  }

  function SampleFormatFrom(code: int): SampleFormat {
    match code
    case 0 => U8Planar case 1 => S16Planar case 2 => S32Planar case 3 => S64Planar case 4 => F32Planar
    case 5 => F64Planar case 6 => SampleFormat.U8 case 7 => S16 case 8 => S32 case 9 => S64
    case 10 => SampleFormat.F32 case 11 => F64 case _ => SampleFormat.Invalid
  }

  // ----- the parameters -----

  datatype Video = Video(
    enabled: int, codec: int, width: int, height: int, pixelFormat: PixelFormat, timeBaseNum: int, timeBaseDen: int,
    interlacing: int, aspectNum: int, aspectDen: int, bitRate: int, minBitRate: int, maxBitRate: int, bufferSize: int,
    threads: int, imageSequence: int, scaling: Scaling)

  datatype Audio = Audio(
    enabled: int, codec: int, sampleRate: int, channelLayout: int, sampleFormat: SampleFormat, bitRate: int)

  datatype Subtitles = Subtitles(enabled: int, sidecar: int, sidecarFormat: int, codec: int)

  datatype CustomRange = CustomRange(enabled: int, inNum: int, inDen: int, outNum: int, outDen: int)

  /** What presets do not hold. */
  datatype Unsaved = Unsaved(
    colorTransformOutput: string, exportLengthNum: int, exportLengthDen: int,
    colorPrimaries: int, colorTrc: int, colorSpace: int, colorRange: int)

  /** `filename` and `pixFmt` are the bytes of the fixed arrays. */
  datatype Params = Params(
    filename: string, format: int, video: Video, pixFmt: string, audio: Audio, subtitles: Subtitles, range: CustomRange,
    unsaved: Unsaved)

  // ----- C strings -----

  const NUL := 0 as char

  /** `cstr`: the bytes before the first NUL. */
  function CStr(bytes: string): (s: string)
    ensures |s| <= |bytes| && forall i :: 0 <= i < |s| ==> s[i] != NUL
  {
    if bytes == "" || bytes[0] == NUL then "" else [bytes[0]] + CStr(bytes[1..])
  }

  function Nuls(n: nat): (s: string)
    ensures |s| == n && forall i :: 0 <= i < n ==> s[i] == NUL
  {
    if n == 0 then "" else [NUL] + Nuls(n - 1)
  }

  /** The array after `set_cstr`: the text, cut to size, and NULs. */
  function CBytes(size: nat, text: string): (bytes: string)
    ensures |bytes| == size
  {
    if |text| <= size then text + Nuls(size - |text|) else text[..size]
  }

  method SetCStr(dst: array<char>, text: string)
    modifies dst
    ensures dst[..] == CBytes(dst.Length, text)
  {
    for i := 0 to dst.Length
      invariant forall k :: 0 <= k < i ==> dst[k] == NUL
    {
      dst[i] := NUL;
    }
    var n := if |text| < dst.Length then |text| else dst.Length;
    for i := 0 to n
      invariant forall k :: 0 <= k < dst.Length ==> dst[k] == if k < i then text[k] else NUL
    {
      dst[i] := text[i];
    }
  }

  lemma {:induction false} CStrOfBytes(size: nat, text: string)
    requires |text| <= size && forall i :: 0 <= i < |text| ==> text[i] != NUL
    ensures CStr(CBytes(size, text)) == text
  {
    if text != "" {
      CStrOfBytes(size - 1, text[1..]);
      assert CBytes(size, text)[1..] == CBytes(size - 1, text[1..]);
    }
  }

  // ----- the preset document -----

  /** Where a leaf of the document takes its text from. */
  datatype Section =
    | RootSection(p: Params)
    | VideoSection(v: Video, pixFmt: string)
    | AudioSection(a: Audio)
    | SubtitlesSection(t: Subtitles)

  function Ratio(num: int, den: int): string {
    Printed(num) + "/" + Printed(den)
  }

  function RootText(p: Params, tag: Tag): string {
    match tag
    case Filename => Escape(CStr(p.filename))
    case Format => Printed(p.format)
    case Range => Printed(p.range.enabled)
    case CustomRangeIn => Ratio(p.range.inNum, p.range.inDen)
    case CustomRangeOut => Ratio(p.range.outNum, p.range.outDen)
    case _ => ""
  }

  function VideoText(v: Video, pixFmt: string, tag: Tag): string {
    match tag
    case Codec => Printed(v.codec)
    case Width => Printed(v.width)
    case Height => Printed(v.height)
    case Format => Printed(v.pixelFormat.Code())
    case TimeBase => Ratio(v.timeBaseNum, v.timeBaseDen)
    case Divider => Printed(v.interlacing)
    case PixelAspect => Ratio(v.aspectNum, v.aspectDen)
    case BitRate => Printed(v.bitRate)
    case MinBitRate => Printed(v.minBitRate)
    case MaxBitRate => Printed(v.maxBitRate)
    case BufSize => Printed(v.bufferSize)
    case Threads => Printed(v.threads)
    case PixFmt => Escape(CStr(pixFmt))
    case ImgSeq => Printed(v.imageSequence)
    case VScale => Printed(v.scaling.Code())
    case _ => ""
  }

  function AudioText(a: Audio, tag: Tag): string {
    match tag
    case Codec => Printed(a.codec)
    case SampleRate => Printed(a.sampleRate)
    case ChannelLayout => Printed(a.channelLayout)
    case Format => Printed(a.sampleFormat.Code())
    case BitRate => Printed(a.bitRate)
    case _ => ""
  }

  function SubtitlesText(t: Subtitles, tag: Tag): string {
    match tag
    case Sidecar => Printed(t.sidecar)
    case SidecarFormat => Printed(t.sidecarFormat)
    case Codec => Printed(t.codec)
    case _ => ""
  }

  function LeafText(from: Section, tag: Tag): string {
    match from
    case RootSection(p) => RootText(p, tag)
    case VideoSection(v, pixFmt) => VideoText(v, pixFmt, tag)
    case AudioSection(a) => AudioText(a, tag)
    case SubtitlesSection(t) => SubtitlesText(t, tag)
  }

  const ROOT_ORDER := [Filename, Format, Range, CustomRangeIn, CustomRangeOut]

  const VIDEO_ORDER := [Codec, Width, Height, Format, TimeBase, Divider, PixelAspect, BitRate, MinBitRate, MaxBitRate,
                        BufSize, Threads, PixFmt, ImgSeq, VScale]

  const AUDIO_ORDER := [Codec, SampleRate, ChannelLayout, Format, BitRate]

  const SUBTITLES_ORDER := [Sidecar, SidecarFormat, Codec]

  function Leaf(from: Section, tag: Tag): El {
    El(Name(tag), [], Some(LeafText(from, tag)), [])
  }

  function Leaves(from: Section, order: seq<Tag>): seq<El> {
    if order == [] then [] else [Leaf(from, order[0])] + Leaves(from, order[1..])
  }

  /** A section that is not enabled has no children. */
  function SectionEl(tag: Tag, enabled: int, children: seq<El>): El {
    El(Name(tag), [Attr("enabled", Printed(enabled))], None, if enabled != 0 then children else [])
  }

  function VideoEl(v: Video, pixFmt: string): El {
    SectionEl(VideoTag, v.enabled, Leaves(VideoSection(v, pixFmt), VIDEO_ORDER))
  }

  function AudioEl(a: Audio): El {
    SectionEl(AudioTag, a.enabled, Leaves(AudioSection(a), AUDIO_ORDER))
  }

  function SubtitlesEl(t: Subtitles): El {
    SectionEl(SubtitlesTag, t.enabled, Leaves(SubtitlesSection(t), SUBTITLES_ORDER))
  }

  function RootChildren(p: Params): seq<El> {
    Leaves(RootSection(p), ROOT_ORDER) + [VideoEl(p.video, p.pixFmt), AudioEl(p.audio), SubtitlesEl(p.subtitles)]
  }

  function Tree(p: Params): El {
    El(Name(Export), [Attr("version", "1")], None, RootChildren(p))
  }

  // ----- printing it piece by piece -----

  function LeafString(tag: Tag, text: string): string {
    "<" + Name(tag) + ">" + text + "</" + Name(tag) + ">"
  }

  lemma LeafPrints(from: Section, tag: Tag)
    ensures Print(Leaf(from, tag)) == LeafString(tag, LeafText(from, tag))
  {
    var name := Name(tag);
    assert "<" + name + "" + ">" == "<" + name + ">";
    assert OpenTag(name, []) == "<" + name + ">";
    CloseGroups("<" + name + ">" + LeafText(from, tag), name);
  }

  lemma CloseGroups(before: string, name: string)
    ensures before + "</" + name + ">" == before + CloseTag(name)
  {
  }

  lemma TailOfJoin<T>(a: seq<T>, b: seq<T>)
    requires a != []
    ensures a + b != [] && (a + b)[0] == a[0] && (a + b)[1..] == a[1..] + b
  {
  }

  lemma Associates<T>(a: seq<T>, b: seq<T>, c: seq<T>)
    ensures a + (b + c) == (a + b) + c
  {
  }

  lemma {:induction false} PrintAllJoins(a: seq<El>, b: seq<El>)
    ensures PrintAll(a + b) == PrintAll(a) + PrintAll(b)
  {
    if a == [] {
      assert a + b == b;
    } else {
      TailOfJoin(a, b);
      PrintAllJoins(a[1..], b);
      Associates(Print(a[0]), PrintAll(a[1..]), PrintAll(b));
    }
  }

  lemma {:induction false} LeavesJoin(from: Section, a: seq<Tag>, b: seq<Tag>)
    ensures Leaves(from, a + b) == Leaves(from, a) + Leaves(from, b)
  {
    if a == [] {
      assert a + b == b;
    } else {
      TailOfJoin(a, b);
      LeavesJoin(from, a[1..], b);
      Associates([Leaf(from, a[0])], Leaves(from, a[1..]), Leaves(from, b));
    }
  }

  lemma OneElementPrints(el: El)
    ensures PrintAll([el]) == Print(el)
  {
  }

  /** The first `k` leaves, one after the other. */
  function Wrote(from: Section, order: seq<Tag>, k: nat): string
    requires k <= |order|
  {
    if k == 0 then "" else Wrote(from, order, k - 1) + LeafString(order[k - 1], LeafText(from, order[k - 1]))
  }

  lemma {:induction false} WroteIsPrinted(from: Section, order: seq<Tag>, k: nat)
    requires k <= |order|
    ensures Wrote(from, order, k) == PrintAll(Leaves(from, order[..k]))
  {
    if k > 0 {
      WroteIsPrinted(from, order, k - 1);
      WroteOneMore(from, order, k, order[..k - 1], order[k - 1]);
      TakeOneMore(order, k);
    }
  }

  lemma TakeOneMore(order: seq<Tag>, k: nat)
    requires 0 < k <= |order|
    ensures order[..k] == order[..k - 1] + [order[k - 1]]
  {
  }

  lemma WroteOneMore(from: Section, order: seq<Tag>, k: nat, before: seq<Tag>, tag: Tag)
    requires 0 < k <= |order| && tag == order[k - 1] && Wrote(from, order, k - 1) == PrintAll(Leaves(from, before))
    ensures Wrote(from, order, k) == PrintAll(Leaves(from, before + [tag]))
  {
    OneLeafMore(from, before, tag);
  }

  lemma OneLeafMore(from: Section, before: seq<Tag>, tag: Tag)
    ensures PrintAll(Leaves(from, before + [tag])) ==
      PrintAll(Leaves(from, before)) + LeafString(tag, LeafText(from, tag))
  {
    LeafPrints(from, tag);
    OneElementPrints(Leaf(from, tag));
    OneLeaf(from, tag);
    LeavesJoin(from, before, [tag]);
    PrintAllJoins(Leaves(from, before), [Leaf(from, tag)]);
  }

  lemma OneLeaf(from: Section, tag: Tag)
    ensures Leaves(from, [tag]) == [Leaf(from, tag)]
  {
    assert [tag][1..] == [];
  }

  lemma AllWritten(from: Section, order: seq<Tag>)
    ensures Wrote(from, order, |order|) == PrintAll(Leaves(from, order))
  {
    WroteIsPrinted(from, order, |order|);
    assert order[..|order|] == order;
  }

  /** `push_str` of one formatted leaf, the `k`-th in document order. */
  method Push(s: string, tag: Tag, from: Section, ghost order: seq<Tag>, ghost k: nat) returns (r: string)
    requires k < |order| && order[k] == tag && s == Wrote(from, order, k)
    ensures r == Wrote(from, order, k + 1)
  {
    r := s + LeafString(tag, LeafText(from, tag));
  }

  // ----- reading the document -----

  /** `child`: the first child of that name. */
  function Child(els: seq<El>, name: string): Option<El> {
    if els == [] then None else if els[0].name == name then Some(els[0]) else Child(els[1..], name)
  }

  /** `text`: unescaped, and empty where there is none. */
  function TextIn(el: El): string {
    Unescape(TextOf(el))
  }

  /** The text of the first child of that name. */
  function Lookup(el: El, tag: Tag): Option<string> {
    var c := Child(el.children, Name(tag));
    if c.Some? then Some(TextIn(c.value)) else None
  }

  /** `attr`: the value of the first attribute of that key. */
  function AttrOf(attrs: seq<Attr>, key: string): Option<string> {
    if attrs == [] then None else if attrs[0].key == key then Some(attrs[0].value) else AttrOf(attrs[1..], key)
  }

  /** A trimmed number, 0 when it is none or out of range. */
  function ParseOrZero(s: string, low: int, high: int): int {
    var n := ParseInt(TrimEnd(TrimStart(s)), low, high);
    if n.Some? then n.value else 0
  }

  function ParseI32(s: string): int {
    ParseOrZero(s, I32_MIN, I32_MAX)
  }

  function ParseI64(s: string): int {
    ParseOrZero(s, I64_MIN, I64_MAX)
  }

  /** `parse_bool(..) as i32`. */
  function ParseFlag(s: string): int {
    if ParseI32(s) != 0 then 1 else 0
  }

  /** `as u64` of an `i64`. */
  function AsU64(n: int): int {
    if n < 0 then n + U64_MAX + 1 else n
  }

  // What a field is after loading: parsed where the element is there, as before where not.

  function PickI32(el: El, tag: Tag, before: int): int {
    var t := Lookup(el, tag);
    if t.Some? then ParseI32(t.value) else before
  }

  function PickI64(el: El, tag: Tag, before: int): int {
    var t := Lookup(el, tag);
    if t.Some? then ParseI64(t.value) else before
  }

  function PickFlag(el: El, tag: Tag, before: int): int {
    var t := Lookup(el, tag);
    if t.Some? then ParseFlag(t.value) else before
  }

  function PickBytes(el: El, tag: Tag, before: string): string {
    var t := Lookup(el, tag);
    if t.Some? then CBytes(|before|, t.value) else before
  }

  function PickEnabled(el: El, before: int): int {
    var v := AttrOf(el.attrs, "enabled");
    if v.Some? then ParseFlag(v.value) else before
  }

  /** Numerator and denominator; without a '/' nothing is assigned. */
  function PickRatio(el: El, tag: Tag, before: (int, int)): (int, int) {
    var t := Lookup(el, tag);
    if t.None? then before
    else
      var parts := SplitOnce(t.value, '/');
      if parts.Some? then (ParseI32(parts.value.0), ParseI32(parts.value.1)) else before
  }

  function LoadedPicture(v: Video, el: El): Video {
    var timeBase := PickRatio(el, TimeBase, (v.timeBaseNum, v.timeBaseDen));
    var aspect := PickRatio(el, PixelAspect, (v.aspectNum, v.aspectDen));
    var code := Lookup(el, Format);
    v.(enabled := PickEnabled(el, v.enabled), codec := PickI32(el, Codec, v.codec),
       width := PickI32(el, Width, v.width), height := PickI32(el, Height, v.height),
       pixelFormat := if code.Some? then PixelFormatFrom(ParseI32(code.value)) else v.pixelFormat,
       timeBaseNum := timeBase.0, timeBaseDen := timeBase.1, interlacing := PickI32(el, Divider, v.interlacing),
       aspectNum := aspect.0, aspectDen := aspect.1)
  }

  function LoadedRates(v: Video, el: El): Video {
    var code := Lookup(el, VScale);
    v.(bitRate := PickI64(el, BitRate, v.bitRate), minBitRate := PickI64(el, MinBitRate, v.minBitRate),
       maxBitRate := PickI64(el, MaxBitRate, v.maxBitRate), bufferSize := PickI64(el, BufSize, v.bufferSize),
       threads := PickI32(el, Threads, v.threads), imageSequence := PickFlag(el, ImgSeq, v.imageSequence),
       scaling := if code.Some? then ScalingFrom(ParseI32(code.value)) else v.scaling)
  }

  function LoadedAudio(a: Audio, el: El): Audio {
    var layout, code := Lookup(el, ChannelLayout), Lookup(el, Format);
    Audio(PickEnabled(el, a.enabled), PickI32(el, Codec, a.codec), PickI32(el, SampleRate, a.sampleRate),
          if layout.Some? then AsU64(ParseI64(layout.value)) else a.channelLayout,
          if code.Some? then SampleFormatFrom(ParseI32(code.value)) else a.sampleFormat,
              PickI64(el, BitRate, a.bitRate))
  }

  function LoadedSubtitles(t: Subtitles, el: El): Subtitles {
    Subtitles(PickEnabled(el, t.enabled), PickFlag(el, Sidecar, t.sidecar), PickI32(el, SidecarFormat, t.sidecarFormat),
              PickI32(el, Codec, t.codec))
  }

  /** The parameters after loading the document `root`. The custom range is read and dropped. */
  function Loaded(p: Params, root: El): Params {
    var v, a, t := Child(root.children, Name(VideoTag)), Child(root.children, Name(AudioTag)),
                   Child(root.children, Name(SubtitlesTag));
    p.(filename := PickBytes(root, Filename, p.filename), format := PickI32(root, Format, p.format),
       video := if v.Some? then LoadedRates(LoadedPicture(p.video, v.value), v.value) else p.video,
       pixFmt := if v.Some? then PickBytes(v.value, PixFmt, p.pixFmt) else p.pixFmt,
       audio := if a.Some? then LoadedAudio(p.audio, a.value) else p.audio,
       subtitles := if t.Some? then LoadedSubtitles(p.subtitles, t.value) else p.subtitles)
  }
}

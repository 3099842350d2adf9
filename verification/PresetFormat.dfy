/** The preset format spelled out: the text that is saved, and what is loaded from elements of these names. */
module PresetFormat {
  import opened Wrappers
  import opened Text
  import opened PresetXml
  import opened PresetGrammar
  import opened PresetPrinting
  import opened XmlEscape
  import opened PresetNames
  import opened PresetDocument
  import opened PresetFile
  import opened PresetRoundTrip

  // ----- saving -----

  datatype Field = Field(name: string, text: string)

  function Element(f: Field): string {
    "<" + f.name + ">" + f.text + "</" + f.name + ">"
  }

  function Elements(fields: seq<Field>): string {
    if fields == [] then "" else Element(fields[0]) + Elements(fields[1..])
  }

  /** A section with its fields, or an empty one that says it is not enabled. */
  function SectionText(name: string, enabled: int, fields: seq<Field>): string {
    "<" + name + " enabled=\"" + Printed(enabled) + "\">" + (if enabled != 0 then Elements(fields) else "")
      + "</" + name + ">"
  }

  /** `fields` are the leaves of a section, in document order. */
  ghost predicate AreLeaves(fields: seq<Field>, from: Section, order: seq<Tag>) {
    AreImages(fields, order, LeafField(from))
  }

  ghost predicate AreImages(fields: seq<Field>, order: seq<Tag>, leaf: Tag -> Field) {
    |fields| == |order| && forall k :: 0 <= k < |order| ==> fields[k] == leaf(order[k])
  }

  function LeafField(from: Section): Tag -> Field {
    tag => Field(Name(tag), LeafText(from, tag))
  }

  lemma {:induction false} ElementsArePrinted(fields: seq<Field>, from: Section, order: seq<Tag>)
    requires AreLeaves(fields, from, order)
    ensures Elements(fields) == PrintAll(Leaves(from, order))
  {
    if order != [] {
      RestAreLeaves(fields, from, order);
      ElementsArePrinted(fields[1..], from, order[1..]);
      FirstElementPrints(fields, from, order);
    }
  }

  lemma RestAreLeaves(fields: seq<Field>, from: Section, order: seq<Tag>)
    requires AreLeaves(fields, from, order) && order != []
    ensures AreLeaves(fields[1..], from, order[1..])
  {
  }

  lemma FirstElementPrints(fields: seq<Field>, from: Section, order: seq<Tag>)
    requires AreLeaves(fields, from, order) && order != []
    requires Elements(fields[1..]) == PrintAll(Leaves(from, order[1..]))
    ensures Elements(fields) == PrintAll(Leaves(from, order))
  {
    LeafPrints(from, order[0]);
    assert Leaves(from, order)[0] == Leaf(from, order[0]) && Leaves(from, order)[1..] == Leaves(from, order[1..]);
  }

  lemma SectionIsPrinted(tag: Tag, name: string, enabled: int, fields: seq<Field>, from: Section, order: seq<Tag>)
    requires AreLeaves(fields, from, order) && name == Name(tag)
    ensures Print(SectionEl(tag, enabled, Leaves(from, order))) == SectionText(name, enabled, fields)
  {
    ElementsArePrinted(fields, from, order);
    SectionPrints(tag, enabled, Leaves(from, order), if enabled != 0 then Elements(fields) else "");
  }

  lemma LeavesJoined(f: seq<Field>, g: seq<Field>, from: Section, a: seq<Tag>, b: seq<Tag>)
    requires AreLeaves(f, from, a) && AreLeaves(g, from, b)
    ensures AreLeaves(f + g, from, a + b)
  {
    ImagesJoined(f, g, a, b, LeafField(from));
  }

  lemma ImagesJoined(f: seq<Field>, g: seq<Field>, a: seq<Tag>, b: seq<Tag>, leaf: Tag -> Field)
    requires AreImages(f, a, leaf) && AreImages(g, b, leaf)
    ensures AreImages(f + g, a + b, leaf)
  {
  }

  lemma OneLeafIs(f: Field, from: Section, tag: Tag)
    requires f == Field(Name(tag), LeafText(from, tag))
    ensures AreLeaves([f], from, [tag])
  {
  }

  lemma ThreeLeaves(f: Field, g: Field, h: Field, from: Section, a: Tag, b: Tag, c: Tag)
    requires f == Field(Name(a), LeafText(from, a)) && g == Field(Name(b), LeafText(from, b))
    requires h == Field(Name(c), LeafText(from, c))
    ensures AreLeaves([f, g, h], from, [a, b, c])
  {
  }

  lemma FiveLeaves(e: Field, f: Field, g: Field, h: Field, i: Field, from: Section,
                   a: Tag, b: Tag, c: Tag, d: Tag, x: Tag)
    requires e == Field(Name(a), LeafText(from, a)) && f == Field(Name(b), LeafText(from, b))
    requires g == Field(Name(c), LeafText(from, c)) && h == Field(Name(d), LeafText(from, d))
    requires i == Field(Name(x), LeafText(from, x))
    ensures AreLeaves([e, f, g, h, i], from, [a, b, c, d, x])
  {
    ThreeLeaves(e, f, g, from, a, b, c);
    OneLeafIs(h, from, d);
    OneLeafIs(i, from, x);
    LeavesJoined([h], [i], from, [d], [x]);
    LeavesJoined([e, f, g], [h] + [i], from, [a, b, c], [d] + [x]);
    assert [e, f, g] + ([h] + [i]) == [e, f, g, h, i] && [a, b, c] + ([d] + [x]) == [a, b, c, d, x];
  }

  /** The codes of the enumerations, as presets hold them. */
  lemma PixelFormatCode(f: PixelFormat, code: int)
    requires code == match f case Invalid => -1 case U8 => 0 case U10 => 1 case U16 => 2 case F16 => 3 case F32 => 4
    ensures f.Code() == code && PixelFormatFrom(code) == f
  {
  }

  lemma ScalingCode(s: Scaling, code: int)
    requires code == match s case Fit => 0 case Stretch => 1 case Crop => 2
    ensures s.Code() == code && ScalingFrom(code) == s
  {
  }

  lemma SampleFormatCode(f: SampleFormat, code: int)
    requires code == match f
      case Invalid => -1 case U8Planar => 0 case S16Planar => 1 case S32Planar => 2 case S64Planar => 3
      case F32Planar => 4 case F64Planar => 5 case U8 => 6 case S16 => 7 case S32 => 8 case S64 => 9
      case F32 => 10 case F64 => 11
    ensures f.Code() == code && SampleFormatFrom(code) == f
  {
  }

  /** Codes no enumeration knows. */
  lemma UnknownCodes(code: int)
    ensures code < 0 || code > 4 ==> PixelFormatFrom(code) == PixelFormat.Invalid
    ensures code < 0 || code > 2 ==> ScalingFrom(code) == Stretch
    ensures code < 0 || code > 11 ==> SampleFormatFrom(code) == SampleFormat.Invalid
  {
  }

  // ----- the sections -----

  lemma RootElements(p: Params, fields: seq<Field>)
    requires fields == [
      Field("filename", Escape(CStr(p.filename))),
      Field("format", Printed(p.format)),
      Field("range", Printed(p.range.enabled)),
      Field("customrangein", Printed(p.range.inNum) + "/" + Printed(p.range.inDen)),
      Field("customrangeout", Printed(p.range.outNum) + "/" + Printed(p.range.outDen))]
    ensures PrintAll(Leaves(RootSection(p), ROOT_ORDER)) == Elements(fields)
  {
    FiveLeaves(fields[0], fields[1], fields[2], fields[3], fields[4], RootSection(p), Filename, Format, Range,
        CustomRangeIn, CustomRangeOut);
    ElementsArePrinted(fields, RootSection(p), ROOT_ORDER);
  }

  lemma PictureLeaves(v: Video, pixFmt: string, code: int, fields: seq<Field>)
    requires code == v.pixelFormat.Code()
    requires fields == [
      Field("codec", Printed(v.codec)),
      Field("width", Printed(v.width)),
      Field("height", Printed(v.height)),
      Field("format", Printed(code)),
      Field("timebase", Printed(v.timeBaseNum) + "/" + Printed(v.timeBaseDen))]
    ensures AreLeaves(fields, VideoSection(v, pixFmt), [Codec, Width, Height, Format, TimeBase])
  {
    FiveLeaves(fields[0], fields[1], fields[2], fields[3], fields[4], VideoSection(v, pixFmt), Codec, Width, Height,
        Format, TimeBase);
  }

  lemma RateLeaves(v: Video, pixFmt: string, fields: seq<Field>)
    requires fields == [
      Field("divider", Printed(v.interlacing)),
      Field("pixelaspect", Printed(v.aspectNum) + "/" + Printed(v.aspectDen)),
      Field("bitrate", Printed(v.bitRate)),
      Field("minbitrate", Printed(v.minBitRate)),
      Field("maxbitrate", Printed(v.maxBitRate))]
    ensures AreLeaves(fields, VideoSection(v, pixFmt), [Divider, PixelAspect, BitRate, MinBitRate, MaxBitRate])
  {
    FiveLeaves(fields[0], fields[1], fields[2], fields[3], fields[4], VideoSection(v, pixFmt), Divider, PixelAspect,
        BitRate, MinBitRate, MaxBitRate);
  }

  lemma EncodingLeaves(v: Video, pixFmt: string, code: int, escaped: string, fields: seq<Field>)
    requires code == v.scaling.Code() && escaped == VideoText(v, pixFmt, PixFmt)
    requires fields == [
      Field("bufsize", Printed(v.bufferSize)),
      Field("threads", Printed(v.threads)),
      Field("pixfmt", escaped),
      Field("imgseq", Printed(v.imageSequence)),
      Field("vscale", Printed(code))]
    ensures AreLeaves(fields, VideoSection(v, pixFmt), [BufSize, Threads, PixFmt, ImgSeq, VScale])
  {
    FiveLeaves(fields[0], fields[1], fields[2], fields[3], fields[4], VideoSection(v, pixFmt), BufSize, Threads, PixFmt,
        ImgSeq, VScale);
  }

  lemma PixFmtText(v: Video, pixFmt: string)
    ensures VideoText(v, pixFmt, PixFmt) == Escape(CStr(pixFmt))
  {
  }

  lemma VideoIsPrinted(v: Video, pixFmt: string, picture: seq<Field>, rates: seq<Field>, encoding: seq<Field>)
    requires AreLeaves(picture, VideoSection(v, pixFmt), [Codec, Width, Height, Format, TimeBase])
    requires AreLeaves(rates, VideoSection(v, pixFmt), [Divider, PixelAspect, BitRate, MinBitRate, MaxBitRate])
    requires AreLeaves(encoding, VideoSection(v, pixFmt), [BufSize, Threads, PixFmt, ImgSeq, VScale])
    ensures Print(VideoEl(v, pixFmt)) == SectionText("video", v.enabled, picture + rates + encoding)
  {
    var from := VideoSection(v, pixFmt);
    var a, b, c := [Codec, Width, Height, Format, TimeBase], [Divider, PixelAspect, BitRate, MinBitRate, MaxBitRate],
        [BufSize, Threads, PixFmt, ImgSeq, VScale];
    LeavesJoined(picture, rates, from, a, b);
    LeavesJoined(picture + rates, encoding, from, a + b, c);
    assert a + b + c == VIDEO_ORDER;
    SectionIsPrinted(VideoTag, "video", v.enabled, picture + rates + encoding, from, VIDEO_ORDER);
  }

  lemma VideoSpelled(v: Video, pixFmt: string, format: int, scale: int)
    requires format == match v.pixelFormat
      case Invalid => -1 case U8 => 0 case U10 => 1 case U16 => 2 case F16 => 3 case F32 => 4
    requires scale == match v.scaling case Fit => 0 case Stretch => 1 case Crop => 2
    ensures Print(VideoEl(v, pixFmt)) == SectionText("video", v.enabled, [
        Field("codec", Printed(v.codec)),
        Field("width", Printed(v.width)),
        Field("height", Printed(v.height)),
        Field("format", Printed(format)),
        Field("timebase", Printed(v.timeBaseNum) + "/" + Printed(v.timeBaseDen))]
      + [
        Field("divider", Printed(v.interlacing)),
        Field("pixelaspect", Printed(v.aspectNum) + "/" + Printed(v.aspectDen)),
        Field("bitrate", Printed(v.bitRate)),
        Field("minbitrate", Printed(v.minBitRate)),
        Field("maxbitrate", Printed(v.maxBitRate))]
      + [
        Field("bufsize", Printed(v.bufferSize)),
        Field("threads", Printed(v.threads)),
        Field("pixfmt", Escape(CStr(pixFmt))),
        Field("imgseq", Printed(v.imageSequence)),
        Field("vscale", Printed(scale))])
  {
    var picture := [
      Field("codec", Printed(v.codec)),
      Field("width", Printed(v.width)),
      Field("height", Printed(v.height)),
      Field("format", Printed(format)),
      Field("timebase", Printed(v.timeBaseNum) + "/" + Printed(v.timeBaseDen))];
    var rates := [
      Field("divider", Printed(v.interlacing)),
      Field("pixelaspect", Printed(v.aspectNum) + "/" + Printed(v.aspectDen)),
      Field("bitrate", Printed(v.bitRate)),
      Field("minbitrate", Printed(v.minBitRate)),
      Field("maxbitrate", Printed(v.maxBitRate))];
    var escaped := Escape(CStr(pixFmt));
    var encoding := [
      Field("bufsize", Printed(v.bufferSize)),
      Field("threads", Printed(v.threads)),
      Field("pixfmt", escaped),
      Field("imgseq", Printed(v.imageSequence)),
      Field("vscale", Printed(scale))];
    PixelFormatCode(v.pixelFormat, format);
    ScalingCode(v.scaling, scale);
    PictureLeaves(v, pixFmt, format, picture);
    RateLeaves(v, pixFmt, rates);
    PixFmtText(v, pixFmt);
    EncodingLeaves(v, pixFmt, scale, escaped, encoding);
    VideoIsPrinted(v, pixFmt, picture, rates, encoding);
  }

  lemma AudioLeaves(a: Audio, code: int, fields: seq<Field>)
    requires code == a.sampleFormat.Code()
    requires fields == [
      Field("codec", Printed(a.codec)),
      Field("samplerate", Printed(a.sampleRate)),
      Field("channellayout", Printed(a.channelLayout)),
      Field("format", Printed(code)),
      Field("bitrate", Printed(a.bitRate))]
    ensures AreLeaves(fields, AudioSection(a), [Codec, SampleRate, ChannelLayout, Format, BitRate])
  {
    FiveLeaves(fields[0], fields[1], fields[2], fields[3], fields[4], AudioSection(a), Codec, SampleRate, ChannelLayout,
        Format, BitRate);
  }

  lemma AudioSpelled(a: Audio, format: int)
    requires format == match a.sampleFormat
      case Invalid => -1 case U8Planar => 0 case S16Planar => 1 case S32Planar => 2 case S64Planar => 3
      case F32Planar => 4 case F64Planar => 5 case U8 => 6 case S16 => 7 case S32 => 8 case S64 => 9
      case F32 => 10 case F64 => 11
    ensures Print(AudioEl(a)) == SectionText("audio", a.enabled, [
      Field("codec", Printed(a.codec)),
      Field("samplerate", Printed(a.sampleRate)),
      Field("channellayout", Printed(a.channelLayout)),
      Field("format", Printed(format)),
      Field("bitrate", Printed(a.bitRate))])
  {
    var fields := [
      Field("codec", Printed(a.codec)),
      Field("samplerate", Printed(a.sampleRate)),
      Field("channellayout", Printed(a.channelLayout)),
      Field("format", Printed(format)),
      Field("bitrate", Printed(a.bitRate))];
    SampleFormatCode(a.sampleFormat, format);
    AudioLeaves(a, format, fields);
    SectionIsPrinted(AudioTag, "audio", a.enabled, fields, AudioSection(a), AUDIO_ORDER);
  }

  lemma SubtitlesSpelled(t: Subtitles)
    ensures Print(SubtitlesEl(t)) == SectionText("subtitles", t.enabled, [
      Field("sidecar", Printed(t.sidecar)),
      Field("sidecarformat", Printed(t.sidecarFormat)),
      Field("codec", Printed(t.codec))])
  {
    var fields := [Field("sidecar", Printed(t.sidecar)), Field("sidecarformat", Printed(t.sidecarFormat)),
                   Field("codec", Printed(t.codec))];
    ThreeLeaves(fields[0], fields[1], fields[2], SubtitlesSection(t), Sidecar, SidecarFormat, Codec);
    SectionIsPrinted(SubtitlesTag, "subtitles", t.enabled, fields, SubtitlesSection(t), SUBTITLES_ORDER);
  }

  /**
   * The saved text of any parameters: the root's own fields, then the three sections, each spelled
   * out above.
   */
  lemma SavedText(p: Params, root: seq<Field>, video: seq<Field>, audio: seq<Field>, subtitles: seq<Field>,
                  format: int, scale: int, sampleFormat: int)
    requires format == match p.video.pixelFormat
      case Invalid => -1 case U8 => 0 case U10 => 1 case U16 => 2 case F16 => 3 case F32 => 4
    requires scale == match p.video.scaling case Fit => 0 case Stretch => 1 case Crop => 2
    requires sampleFormat == match p.audio.sampleFormat
      case Invalid => -1 case U8Planar => 0 case S16Planar => 1 case S32Planar => 2 case S64Planar => 3
      case F32Planar => 4 case F64Planar => 5 case U8 => 6 case S16 => 7 case S32 => 8 case S64 => 9
      case F32 => 10 case F64 => 11
    requires root == [
      Field("filename", Escape(CStr(p.filename))),
      Field("format", Printed(p.format)),
      Field("range", Printed(p.range.enabled)),
      Field("customrangein", Printed(p.range.inNum) + "/" + Printed(p.range.inDen)),
      Field("customrangeout", Printed(p.range.outNum) + "/" + Printed(p.range.outDen))]
    requires video == [
        Field("codec", Printed(p.video.codec)),
        Field("width", Printed(p.video.width)),
        Field("height", Printed(p.video.height)),
        Field("format", Printed(format)),
        Field("timebase", Printed(p.video.timeBaseNum) + "/" + Printed(p.video.timeBaseDen))]
      + [
        Field("divider", Printed(p.video.interlacing)),
        Field("pixelaspect", Printed(p.video.aspectNum) + "/" + Printed(p.video.aspectDen)),
        Field("bitrate", Printed(p.video.bitRate)),
        Field("minbitrate", Printed(p.video.minBitRate)),
        Field("maxbitrate", Printed(p.video.maxBitRate))]
      + [
        Field("bufsize", Printed(p.video.bufferSize)),
        Field("threads", Printed(p.video.threads)),
        Field("pixfmt", Escape(CStr(p.pixFmt))),
        Field("imgseq", Printed(p.video.imageSequence)),
        Field("vscale", Printed(scale))]
    requires audio == [
      Field("codec", Printed(p.audio.codec)),
      Field("samplerate", Printed(p.audio.sampleRate)),
      Field("channellayout", Printed(p.audio.channelLayout)),
      Field("format", Printed(sampleFormat)),
      Field("bitrate", Printed(p.audio.bitRate))]
    requires subtitles == [
      Field("sidecar", Printed(p.subtitles.sidecar)),
      Field("sidecarformat", Printed(p.subtitles.sidecarFormat)),
      Field("codec", Printed(p.subtitles.codec))]
    ensures Print(Tree(p)) ==
      "<export version=\"1\">" + Elements(root) + SectionText("video", p.video.enabled, video)
      + SectionText("audio", p.audio.enabled, audio) + SectionText("subtitles", p.subtitles.enabled, subtitles)
      + "</export>"
  {
    RootElements(p, root);
    VideoSpelled(p.video, p.pixFmt, format, scale);
    AudioSpelled(p.audio, sampleFormat);
    SubtitlesSpelled(p.subtitles);
    DocumentPrints(p, Elements(root), SectionText("video", p.video.enabled, video),
        SectionText("audio", p.audio.enabled, audio), SectionText("subtitles", p.subtitles.enabled, subtitles));
  }

  // ----- loading -----

  /** The number in the first child of that name, trimmed, 0 when it is none or out of range; else what was there. */
  function NumberIn(el: El, name: string, low: int, high: int, before: int): int {
    var c := Child(el.children, name);
    if c.None? then before
    else
      var n := ParseInt(TrimEnd(TrimStart(Unescape(TextOf(c.value)))), low, high);
      if n.Some? then n.value else 0
  }

  function I32In(el: El, name: string, before: int): int {
    NumberIn(el, name, -0x8000_0000, 0x7fff_ffff, before)
  }

  function I64In(el: El, name: string, before: int): int {
    NumberIn(el, name, -0x8000_0000_0000_0000, 0x7fff_ffff_ffff_ffff, before)
  }

  /** 1 for a number other than 0. */
  function FlagIn(el: El, name: string, before: int): int {
    if Child(el.children, name).None? then before else if I32In(el, name, 0) != 0 then 1 else 0
  }

  /** The attribute that enables a section. */
  function EnabledIn(el: El, before: int): int {
    var v := AttrOf(el.attrs, "enabled");
    if v.None? then before
    else
      var n := ParseInt(TrimEnd(TrimStart(v.value)), -0x8000_0000, 0x7fff_ffff);
      if n.Some? && n.value != 0 then 1 else 0
  }

  function RatioIn(el: El, name: string, before: (int, int)): (int, int) {
    var c := Child(el.children, name);
    if c.None? || SplitOnce(Unescape(TextOf(c.value)), '/').None? then before
    else
      var parts := SplitOnce(Unescape(TextOf(c.value)), '/').value;
      (ParseI32(parts.0), ParseI32(parts.1))
  }

  /** A text cut to the size of the array, with NULs behind it. */
  function BytesIn(el: El, name: string, before: string): string {
    var c := Child(el.children, name);
    if c.None? then before else CBytes(|before|, Unescape(TextOf(c.value)))
  }

  lemma PicksNumber(el: El, tag: Tag, name: string, before: int)
    requires name == Name(tag)
    ensures PickI32(el, tag, before) == I32In(el, name, before)
    ensures PickI64(el, tag, before) == I64In(el, name, before)
    ensures PickFlag(el, tag, before) == FlagIn(el, name, before)
    ensures Lookup(el, tag).Some? <==> Child(el.children, name).Some?
    ensures Lookup(el, tag).Some? ==> ParseI32(Lookup(el, tag).value) == I32In(el, name, 0)
    ensures Lookup(el, tag).Some? ==> ParseI64(Lookup(el, tag).value) == I64In(el, name, 0)
  {
    PicksCode(el, tag, name);
    PicksI32(el, tag, name, before);
    PicksI64(el, tag, name, before);
    PicksFlag(el, tag, name, before);
  }

  lemma PicksI32(el: El, tag: Tag, name: string, before: int)
    requires name == Name(tag)
    ensures PickI32(el, tag, before) == I32In(el, name, before)
  {
  }

  lemma PicksI64(el: El, tag: Tag, name: string, before: int)
    requires name == Name(tag)
    ensures PickI64(el, tag, before) == I64In(el, name, before)
  {
  }

  lemma PicksFlag(el: El, tag: Tag, name: string, before: int)
    requires name == Name(tag)
    ensures PickFlag(el, tag, before) == FlagIn(el, name, before)
  {
  }

  lemma PicksCode(el: El, tag: Tag, name: string)
    requires name == Name(tag)
    ensures Lookup(el, tag).Some? <==> Child(el.children, name).Some?
    ensures Lookup(el, tag).Some? ==> ParseI32(Lookup(el, tag).value) == I32In(el, name, 0)
    ensures Lookup(el, tag).Some? ==> ParseI64(Lookup(el, tag).value) == I64In(el, name, 0)
  {
  }

  lemma PicksBytes(el: El, tag: Tag, name: string, bytes: string)
    requires name == Name(tag)
    ensures PickBytes(el, tag, bytes) == BytesIn(el, name, bytes)
  {
  }

  lemma PicksText(el: El, tag: Tag, name: string, before: (int, int), bytes: string)
    requires name == Name(tag)
    ensures PickRatio(el, tag, before) == RatioIn(el, name, before)
    ensures PickBytes(el, tag, bytes) == BytesIn(el, name, bytes)
  {
  }

  lemma SizeLoaded(v: Video, el: El)
    ensures var r := LoadedPicture(v, el);
      && r.enabled == EnabledIn(el, v.enabled) && r.codec == I32In(el, "codec", v.codec)
      && r.width == I32In(el, "width", v.width) && r.height == I32In(el, "height", v.height)
  {
    PicksNumber(el, Codec, "codec", v.codec);
    PicksNumber(el, Width, "width", v.width);
    PicksNumber(el, Height, "height", v.height);
  }

  lemma TimingLoaded(v: Video, el: El)
    ensures var r := LoadedPicture(v, el);
      && (r.timeBaseNum, r.timeBaseDen) == RatioIn(el, "timebase", (v.timeBaseNum, v.timeBaseDen))
      && r.interlacing == I32In(el, "divider", v.interlacing)
      && (r.aspectNum, r.aspectDen) == RatioIn(el, "pixelaspect", (v.aspectNum, v.aspectDen))
  {
    PicksText(el, TimeBase, "timebase", (v.timeBaseNum, v.timeBaseDen), "");
    PicksNumber(el, Divider, "divider", v.interlacing);
    PicksText(el, PixelAspect, "pixelaspect", (v.aspectNum, v.aspectDen), "");
  }

  lemma FormatLoaded(v: Video, el: El)
    ensures Child(el.children, "format").None? ==> LoadedPicture(v, el).pixelFormat == v.pixelFormat
    ensures Child(el.children, "format").Some? ==> LoadedPicture(v, el).pixelFormat == match I32In(el, "format", 0)
      case 0 => PixelFormat.U8 case 1 => PixelFormat.U10 case 2 => PixelFormat.U16
      case 3 => PixelFormat.F16 case 4 => PixelFormat.F32 case _ => PixelFormat.Invalid
  {
    PicksNumber(el, Format, "format", 0);
  }

  lemma BitRatesLoaded(v: Video, el: El)
    ensures var r := LoadedRates(v, el);
      && r.bitRate == I64In(el, "bitrate", v.bitRate) && r.minBitRate == I64In(el, "minbitrate", v.minBitRate)
      && r.maxBitRate == I64In(el, "maxbitrate", v.maxBitRate) && r.bufferSize == I64In(el, "bufsize", v.bufferSize)
  {
    PicksNumber(el, BitRate, "bitrate", v.bitRate);
    PicksNumber(el, MinBitRate, "minbitrate", v.minBitRate);
    PicksNumber(el, MaxBitRate, "maxbitrate", v.maxBitRate);
    PicksNumber(el, BufSize, "bufsize", v.bufferSize);
  }

  lemma EncodingLoaded(v: Video, el: El)
    ensures LoadedRates(v, el).threads == I32In(el, "threads", v.threads)
    ensures LoadedRates(v, el).imageSequence == FlagIn(el, "imgseq", v.imageSequence)
    ensures Child(el.children, "vscale").None? ==> LoadedRates(v, el).scaling == v.scaling
    ensures Child(el.children, "vscale").Some? ==> LoadedRates(v, el).scaling == match I32In(el, "vscale", 0)
      case 0 => Fit case 2 => Crop case _ => Stretch
  {
    PicksNumber(el, Threads, "threads", v.threads);
    PicksNumber(el, ImgSeq, "imgseq", v.imageSequence);
    PicksNumber(el, VScale, "vscale", 0);
  }

  lemma AudioLoaded(a: Audio, el: El)
    ensures var r := LoadedAudio(a, el);
      && r.enabled == EnabledIn(el, a.enabled) && r.codec == I32In(el, "codec", a.codec)
      && r.sampleRate == I32In(el, "samplerate", a.sampleRate) && r.bitRate == I64In(el, "bitrate", a.bitRate)
  {
    PicksNumber(el, Codec, "codec", a.codec);
    PicksNumber(el, SampleRate, "samplerate", a.sampleRate);
    PicksNumber(el, BitRate, "bitrate", a.bitRate);
  }

  /** A negative channel layout wraps around 2^64. */
  lemma LayoutLoaded(a: Audio, el: El)
    ensures Child(el.children, "channellayout").None? ==> LoadedAudio(a, el).channelLayout == a.channelLayout
    ensures Child(el.children, "channellayout").Some? ==>
      var n := I64In(el, "channellayout", 0);
      LoadedAudio(a, el).channelLayout == if n < 0 then n + 0x1_0000_0000_0000_0000 else n
  {
    PicksCode(el, ChannelLayout, "channellayout");
  }

  lemma SampleFormatLoaded(a: Audio, el: El)
    ensures Child(el.children, "format").None? ==> LoadedAudio(a, el).sampleFormat == a.sampleFormat
    ensures Child(el.children, "format").Some? ==> LoadedAudio(a, el).sampleFormat == match I32In(el, "format", 0)
      case 0 => U8Planar case 1 => S16Planar case 2 => S32Planar case 3 => S64Planar case 4 => F32Planar
      case 5 => F64Planar case 6 => SampleFormat.U8 case 7 => S16 case 8 => S32 case 9 => S64
      case 10 => SampleFormat.F32 case 11 => F64 case _ => SampleFormat.Invalid
  {
    PicksNumber(el, Format, "format", 0);
  }

  lemma SubtitlesLoaded(t: Subtitles, el: El)
    ensures LoadedSubtitles(t, el) == Subtitles(
      EnabledIn(el, t.enabled), FlagIn(el, "sidecar", t.sidecar), I32In(el, "sidecarformat", t.sidecarFormat),
      I32In(el, "codec", t.codec))
  {
    PicksNumber(el, Sidecar, "sidecar", t.sidecar);
    PicksNumber(el, SidecarFormat, "sidecarformat", t.sidecarFormat);
    PicksNumber(el, Codec, "codec", t.codec);
  }

  lemma RootLoaded(p: Params, root: El)
    ensures var r := Loaded(p, root);
      && r.range == p.range && r.unsaved == p.unsaved && r.format == I32In(root, "format", p.format)
      && r.filename == BytesIn(root, "filename", p.filename)
  {
    PicksNumber(root, Format, "format", p.format);
    PicksText(root, Filename, "filename", (0, 0), p.filename);
  }

  /** The sections are the first children of these names; a section that is not there stays as it was. */
  lemma VideoSectionLoaded(p: Params, root: El, e: El)
    ensures Child(root.children, "video").None? ==> Loaded(p, root).video == p.video
    ensures Child(root.children, "video") == Some(e) ==>
      Loaded(p, root).video == LoadedRates(LoadedPicture(p.video, e), e)
  {
  }

  lemma PixFmtLoaded(p: Params, root: El, e: El)
    ensures Child(root.children, "video").None? ==> Loaded(p, root).pixFmt == p.pixFmt
    ensures Child(root.children, "video") == Some(e) ==> Loaded(p, root).pixFmt == BytesIn(e, "pixfmt", p.pixFmt)
  {
    PicksBytes(e, PixFmt, "pixfmt", p.pixFmt);
  }

  lemma AudioSectionLoaded(p: Params, root: El, e: El)
    ensures Child(root.children, "audio").None? ==> Loaded(p, root).audio == p.audio
    ensures Child(root.children, "audio") == Some(e) ==> Loaded(p, root).audio == LoadedAudio(p.audio, e)
  {
  }

  lemma SubtitlesSectionLoaded(p: Params, root: El, e: El)
    ensures Child(root.children, "subtitles").None? ==> Loaded(p, root).subtitles == p.subtitles
    ensures Child(root.children, "subtitles") == Some(e) ==>
      Loaded(p, root).subtitles == LoadedSubtitles(p.subtitles, e)
  {
  }

  // ----- what the readers find -----

  ghost predicate FirstNamed(els: seq<El>, name: string, k: nat) {
    k < |els| && els[k].name == name && forall j :: 0 <= j < k ==> els[j].name != name
  }

  /** `child` is the first child of that name. */
  lemma {:induction false} ChildIsFirst(els: seq<El>, name: string) returns (k: nat)
    ensures Child(els, name).Some? ==> FirstNamed(els, name, k) && els[k] == Child(els, name).value
    ensures Child(els, name).None? ==> forall j :: 0 <= j < |els| ==> els[j].name != name
  {
    k := 0;
    if els != [] && els[0].name != name {
      k := ChildIsFirst(els[1..], name);
      NamedLater(els, name, k);
      k := k + 1;
    }
  }

  lemma NamedLater(els: seq<El>, name: string, k: nat)
    requires els != [] && els[0].name != name
    ensures FirstNamed(els[1..], name, k) ==> FirstNamed(els, name, k + 1) && els[k + 1] == els[1..][k]
    ensures (forall j :: 0 <= j < |els[1..]| ==> els[1..][j].name != name) ==>
      forall j :: 0 <= j < |els| ==> els[j].name != name
  {
    assert forall j :: 0 < j < |els| ==> els[j] == els[1..][j - 1];
  }

  ghost predicate FirstKeyed(attrs: seq<Attr>, key: string, k: nat) {
    k < |attrs| && attrs[k].key == key && forall j :: 0 <= j < k ==> attrs[j].key != key
  }

  /** `attr` is the value of the first attribute of that key. */
  lemma {:induction false} AttrIsFirst(attrs: seq<Attr>, key: string) returns (k: nat)
    ensures AttrOf(attrs, key).Some? ==> FirstKeyed(attrs, key, k) && attrs[k].value == AttrOf(attrs, key).value
    ensures AttrOf(attrs, key).None? ==> forall j :: 0 <= j < |attrs| ==> attrs[j].key != key
  {
    k := 0;
    if attrs != [] && attrs[0].key != key {
      k := AttrIsFirst(attrs[1..], key);
      KeyedLater(attrs, key, k);
      k := k + 1;
    }
  }

  lemma KeyedLater(attrs: seq<Attr>, key: string, k: nat)
    requires attrs != [] && attrs[0].key != key
    ensures FirstKeyed(attrs[1..], key, k) ==> FirstKeyed(attrs, key, k + 1) && attrs[k + 1] == attrs[1..][k]
    ensures (forall j :: 0 <= j < |attrs[1..]| ==> attrs[1..][j].key != key) ==>
      forall j :: 0 <= j < |attrs| ==> attrs[j].key != key
  {
    assert forall j :: 0 < j < |attrs| ==> attrs[j] == attrs[1..][j - 1];
  }

  /** Byte `i` of an array that was set: the text as far as it goes and fits, then NUL. */
  lemma BytesAt(size: nat, text: string, i: nat)
    requires i < size
    ensures CBytes(size, text)[i] == if i < |text| then text[i] else 0 as char
  {
  }

  /** A number is read whatever white space stands around it. */
  lemma SpacedNumberIsRead(before: string, n: int, after: string, low: int, high: int)
    requires AllSpaces(before) && AllSpaces(after) && low <= n <= high
    ensures ParseInt(TrimEnd(TrimStart(before + Printed(n) + after)), low, high) == Some(n)
  {
    PrintedHasNoSpace(n);
    TrimsBoth(before, Printed(n), after);
    ParseOfPrinted(n, low, high);
  }

  lemma TrimsBoth(before: string, text: string, after: string)
    requires AllSpaces(before) && AllSpaces(after)
    requires text != "" && !IsSpace(text[0]) && !IsSpace(text[|text| - 1])
    ensures TrimEnd(TrimStart(before + text + after)) == text
  {
    assert before + text + after == before + (text + after);
    TrimsStart(before, text + after);
    TrimsEnd(text, after);
  }

  lemma PrintedHasNoSpace(n: int)
    ensures Printed(n) != "" && !IsSpace(Printed(n)[0]) && !IsSpace(Printed(n)[|Printed(n)| - 1])
  {
    var digits := Decimal(if n < 0 then -n else n);
    assert IsDigit(digits[0]) && IsDigit(digits[|digits| - 1]);
  }

  lemma {:induction false} TrimsStart(before: string, rest: string)
    requires AllSpaces(before) && rest != "" && !IsSpace(rest[0])
    ensures TrimStart(before + rest) == rest
  {
    if before == "" {
      assert before + rest == rest;
    } else {
      assert IsSpace(before[0]);
      assert (before + rest)[1..] == before[1..] + rest;
      TrimsStart(before[1..], rest);
    }
  }

  lemma {:induction false} TrimsEnd(text: string, after: string)
    requires AllSpaces(after) && text != "" && !IsSpace(text[|text| - 1])
    ensures TrimEnd(text + after) == text
  {
    if after == "" {
      assert text + after == text;
    } else {
      var s := text + after;
      assert IsSpace(after[|after| - 1]);
      assert s[..|s| - 1] == text + after[..|after| - 1];
      TrimsEnd(text, after[..|after| - 1]);
    }
  }

  // ----- a whole document -----

  /** A video section with nothing but a width. */
  lemma OnlyWidthPicture(v: Video, el: El, from: Section, w: int)
    requires Holds(el, from, [Width]) && el.attrs == [Attr("enabled", Printed(1))]
    requires LeafText(from, Width) == Printed(w) && I32(w)
    ensures LoadedPicture(v, el) == v.(enabled := 1, width := w)
  {
    NothingElse(el, from);
    ReadsI32(el, from, [Width], Width, w, v.width);
    EnabledRead(el, 1, v.enabled);
  }

  lemma OnlyWidthRates(v: Video, el: El, from: Section, bytes: string)
    requires Holds(el, from, [Width])
    ensures LoadedRates(v, el) == v && PickBytes(el, PixFmt, bytes) == bytes
  {
    NothingElse(el, from);
  }

  lemma NothingElse(el: El, from: Section)
    requires Holds(el, from, [Width])
    ensures forall tag :: tag != Width ==> Lookup(el, tag).None?
  {
    forall tag | tag != Width ensures Lookup(el, tag).None? {
      LeafFound(from, [Width], tag);
    }
  }

  lemma OnlyVideoRead(p: Params, root: El, video: El)
    requires root.children == [video] && video.name == Name(VideoTag)
    ensures Loaded(p, root) == p.(video := LoadedRates(LoadedPicture(p.video, video), video),
      pixFmt := PickBytes(video, PixFmt, p.pixFmt))
  {
    forall tag: Tag | tag != VideoTag ensures Child([video], Name(tag)).None? {
      if Name(tag) == Name(VideoTag) { NamesDiffer(tag, VideoTag); }
    }
  }

  lemma OneSectionPrints(video: El)
    ensures Print(El("export", [Attr("version", "1")], None, [video]))
      == "<export version=\"1\">" + Print(video) + "</export>"
  {
    ExportTags();
    OneElementPrints(video);
  }

  lemma OneSectionIsParsed(video: El, data: string, root: El)
    requires Printable(video) && root == El("export", [Attr("version", "1")], None, [video])
    requires data == "<export version=\"1\">" + Print(video) + "</export>"
    ensures LoadResult(data) == Ok(()) && ParseElement(data, 0).Element?
    ensures ParseElement(data, 0).el.children == [Normal(video)]
  {
    assert AllPrintable([video]) by { assert AllPrintable([]); }
    RootPrintable([video]);
    OneSectionPrints(video);
    ParsesPrinted(data, 0, root);
    assert NormalAll([video]) == [Normal(video)];
  }

  /** A preset that gives nothing but a width sets the width, enables the video section and leaves the rest. */
  lemma WidthIsLoaded(p: Params, w: int, data: string)
    requires -0x8000_0000 <= w <= 0x7fff_ffff
    requires data == "<export version=\"1\">" + SectionText("video", 1, [Field("width", Printed(w))]) + "</export>"
    ensures LoadResult(data) == Ok(()) && ParseElement(data, 0).Element?
    ensures Loaded(p, ParseElement(data, 0).el) == p.(video := p.video.(enabled := 1, width := w))
  {
    var from := VideoSection(p.video.(width := w), "");
    var video := SectionEl(VideoTag, 1, Leaves(from, [Width]));
    OneLeafIs(Field("width", Printed(w)), from, Width);
    SectionIsPrinted(VideoTag, "video", 1, [Field("width", Printed(w))], from, [Width]);
    LeavesPrintable(from, [Width]);
    SectionPrintable(VideoTag, 1, Leaves(from, [Width]));
    OneSectionIsParsed(video, data, El("export", [Attr("version", "1")], None, [video]));
    OnlyVideoRead(p, ParseElement(data, 0).el, Normal(video));
    OnlyWidthPicture(p.video, Normal(video), from, w);
    OnlyWidthRates(p.video.(enabled := 1, width := w), Normal(video), from, p.pixFmt);
  }
}

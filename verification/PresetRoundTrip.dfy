/** Saving a preset and loading it again. */
module PresetRoundTrip {
  import opened Wrappers
  import opened Text
  import opened PresetXml
  import opened PresetGrammar
  import opened PresetPrinting
  import opened XmlEscape
  import opened PresetNames
  import opened PresetDocument
  import opened PresetFile

  // ----- the texts -----

  /** Characters of numbers and ratios: nothing XML or trimming touches. */
  predicate Numeric(s: string) {
    forall i :: 0 <= i < |s| ==> IsDigit(s[i]) || s[i] == '-' || s[i] == '/'
  }

  lemma PrintedIsNumeric(n: int)
    ensures Numeric(Printed(n)) && Lacks(Printed(n), '/') && Printed(n) != ""
  {
    var digits := Decimal(if n < 0 then -n else n);
    assert forall i :: 0 <= i < |digits| ==> IsDigit(digits[i]);
    assert n < 0 ==> Printed(n) == "-" + digits;
  }

  lemma RatioIsNumeric(num: int, den: int)
    ensures Numeric(Ratio(num, den))
  {
    PrintedIsNumeric(num);
    PrintedIsNumeric(den);
  }

  lemma {:induction false} PlainStaysPlain(s: string, entity: string, with: string)
    requires Lacks(s, '&') && entity != "" && entity[0] == '&'
    ensures ReplaceAll(s, entity, with) == s
  {
    CopiesChunk(s, "", entity, with);
    assert s + "" == s;
  }

  lemma UnescapeOfPlain(s: string)
    requires Lacks(s, '&')
    ensures Unescape(s) == s
  {
    PlainStaysPlain(s, "&lt;", "<");
    PlainStaysPlain(s, "&gt;", ">");
    PlainStaysPlain(s, "&amp;", "&");
  }

  lemma NumericIsKept(s: string)
    requires Numeric(s)
    ensures Lacks(s, '<') && TrimStart(s) == s && TrimEnd(s) == s && Unescape(s) == s
  {
    UnescapeOfPlain(s);
  }

  lemma NumberIsRead(n: int, low: int, high: int)
    ensures ParseOrZero(Unescape(TrimStart(Printed(n))), low, high) == if low <= n <= high then n else 0
  {
    PrintedIsNumeric(n);
    NumericIsKept(Printed(n));
    ParseOfAnyPrinted(n, low, high);
  }

  lemma ParseOfAnyPrinted(n: int, low: int, high: int)
    ensures ParseInt(Printed(n), low, high) == if low <= n <= high then Some(n) else None
  {
    var m := if n < 0 then -n else n;
    var digits := Decimal(m);
    ValueOfDecimal(m);
    assert Printed(n) == if n < 0 then "-" + digits else digits;
    if n < 0 { ParseNegative(digits, low, high); } else { ParseDigits(digits, low, high); }
  }

  lemma RatioSplits(num: int, den: int)
    ensures SplitOnce(Ratio(num, den), '/') == Some((Printed(num), Printed(den)))
  {
    var n, d := Printed(num), Printed(den);
    PrintedIsNumeric(num);
    var s := Ratio(num, den);
    assert s == n + "/" + d && s[|n|] == '/';
    assert forall i :: 0 <= i < |n| ==> s[i] == n[i];
    UntilStopsAt(s, 0, |n|, '/');
    assert s[..|n|] == n && s[|n| + 1..] == d;
  }

  lemma RatioIsRead(num: int, den: int)
    requires I32_MIN <= num <= I32_MAX && I32_MIN <= den <= I32_MAX
    ensures var parts := SplitOnce(Unescape(TrimStart(Ratio(num, den))), '/');
      parts.Some? && ParseI32(parts.value.0) == num && ParseI32(parts.value.1) == den
  {
    RatioIsNumeric(num, den);
    NumericIsKept(Ratio(num, den));
    RatioSplits(num, den);
    TrimmedNumber(num);
    TrimmedNumber(den);
  }

  lemma TrimmedNumber(n: int)
    requires I32_MIN <= n <= I32_MAX
    ensures ParseI32(Printed(n)) == n
  {
    PrintedIsNumeric(n);
    NumericIsKept(Printed(n));
    ParseOfPrinted(n, I32_MIN, I32_MAX);
  }

  /** Text survives up to its leading white space. */
  lemma TextIsRead(s: string)
    ensures Unescape(TrimStart(Escape(s))) == TrimStart(s)
  {
    EscapedContent(s);
    UnescapeUndoesEscape(TrimStart(s));
  }

  // ----- the document is printable -----

  lemma LeafTextHasNoTag(from: Section, tag: Tag)
    ensures Lacks(LeafText(from, tag), '<')
  {
    match from
    case RootSection(p) => RootTextHasNoTag(p, tag);
    case VideoSection(v, pixFmt) => VideoTextHasNoTag(v, pixFmt, tag);
    case AudioSection(a) => AudioTextHasNoTag(a, tag);
    case SubtitlesSection(t) => SubtitlesTextHasNoTag(t, tag);
  }

  lemma NumberHasNoTag(n: int)
    ensures Lacks(Printed(n), '<')
  {
    PrintedIsNumeric(n);
    NumericIsKept(Printed(n));
  }

  lemma RatioHasNoTag(num: int, den: int)
    ensures Lacks(Ratio(num, den), '<')
  {
    RatioIsNumeric(num, den);
    NumericIsKept(Ratio(num, den));
  }

  lemma RootTextHasNoTag(p: Params, tag: Tag)
    ensures Lacks(RootText(p, tag), '<')
  {
    match tag
    case Filename => EscapedContent(CStr(p.filename));
    case Format => NumberHasNoTag(p.format);
    case Range => NumberHasNoTag(p.range.enabled);
    case CustomRangeIn => RatioHasNoTag(p.range.inNum, p.range.inDen);
    case CustomRangeOut => RatioHasNoTag(p.range.outNum, p.range.outDen);
    case _ =>
  }

  lemma VideoTextHasNoTag(v: Video, pixFmt: string, tag: Tag)
    ensures Lacks(VideoText(v, pixFmt, tag), '<')
  {
    match tag
    case Codec => NumberHasNoTag(v.codec);
    case Width => NumberHasNoTag(v.width);
    case Height => NumberHasNoTag(v.height);
    case Format => NumberHasNoTag(v.pixelFormat.Code());
    case TimeBase => RatioHasNoTag(v.timeBaseNum, v.timeBaseDen);
    case Divider => NumberHasNoTag(v.interlacing);
    case PixelAspect => RatioHasNoTag(v.aspectNum, v.aspectDen);
    case BitRate => NumberHasNoTag(v.bitRate);
    case MinBitRate => NumberHasNoTag(v.minBitRate);
    case MaxBitRate => NumberHasNoTag(v.maxBitRate);
    case BufSize => NumberHasNoTag(v.bufferSize);
    case Threads => NumberHasNoTag(v.threads);
    case PixFmt => EscapedContent(CStr(pixFmt));
    case ImgSeq => NumberHasNoTag(v.imageSequence);
    case VScale => NumberHasNoTag(v.scaling.Code());
    case _ =>
  }

  lemma AudioTextHasNoTag(a: Audio, tag: Tag)
    ensures Lacks(AudioText(a, tag), '<')
  {
    match tag
    case Codec => NumberHasNoTag(a.codec);
    case SampleRate => NumberHasNoTag(a.sampleRate);
    case ChannelLayout => NumberHasNoTag(a.channelLayout);
    case Format => NumberHasNoTag(a.sampleFormat.Code());
    case BitRate => NumberHasNoTag(a.bitRate);
    case _ =>
  }

  lemma SubtitlesTextHasNoTag(t: Subtitles, tag: Tag)
    ensures Lacks(SubtitlesText(t, tag), '<')
  {
    match tag
    case Sidecar => NumberHasNoTag(t.sidecar);
    case SidecarFormat => NumberHasNoTag(t.sidecarFormat);
    case Codec => NumberHasNoTag(t.codec);
    case _ =>
  }

  lemma {:induction false} LeavesPrintable(from: Section, order: seq<Tag>)
    ensures AllPrintable(Leaves(from, order))
  {
    if order != [] {
      LeafTextHasNoTag(from, order[0]);
      NameIsName(order[0]);
      LeavesPrintable(from, order[1..]);
      assert Leaves(from, order)[1..] == Leaves(from, order[1..]);
    }
  }

  lemma SectionPrintable(tag: Tag, enabled: int, children: seq<El>)
    requires AllPrintable(children)
    ensures Printable(SectionEl(tag, enabled, children))
  {
    NameIsName(tag);
    PrintedIsNumeric(enabled);
    assert IsName("enabled");
  }

  lemma {:induction false} PrintableJoins(a: seq<El>, b: seq<El>)
    requires AllPrintable(a) && AllPrintable(b)
    ensures AllPrintable(a + b)
  {
    if a == [] {
      assert a + b == b;
    } else {
      TailOfJoin(a, b);
      PrintableJoins(a[1..], b);
    }
  }

  lemma TreePrintable(p: Params)
    ensures Printable(Tree(p))
  {
    var v, a, t := VideoEl(p.video, p.pixFmt), AudioEl(p.audio), SubtitlesEl(p.subtitles);
    LeavesPrintable(RootSection(p), ROOT_ORDER);
    LeavesPrintable(VideoSection(p.video, p.pixFmt), VIDEO_ORDER);
    LeavesPrintable(AudioSection(p.audio), AUDIO_ORDER);
    LeavesPrintable(SubtitlesSection(p.subtitles), SUBTITLES_ORDER);
    SectionPrintable(VideoTag, p.video.enabled, Leaves(VideoSection(p.video, p.pixFmt), VIDEO_ORDER));
    SectionPrintable(AudioTag, p.audio.enabled, Leaves(AudioSection(p.audio), AUDIO_ORDER));
    SectionPrintable(SubtitlesTag, p.subtitles.enabled, Leaves(SubtitlesSection(p.subtitles), SUBTITLES_ORDER));
    ThreePrintable(v, a, t);
    PrintableJoins(Leaves(RootSection(p), ROOT_ORDER), [v, a, t]);
    RootPrintable(RootChildren(p));
  }

  lemma ThreePrintable(a: El, b: El, c: El)
    requires Printable(a) && Printable(b) && Printable(c)
    ensures AllPrintable([a, b, c])
  {
    assert AllPrintable([]) && AllPrintable([c]);
    assert [b, c][1..] == [c] && [a, b, c][1..] == [b, c];
    assert AllPrintable([b, c]);
  }

  lemma RootPrintable(children: seq<El>)
    requires AllPrintable(children)
    ensures Printable(El(Name(Export), [Attr("version", "1")], None, children))
  {
    NameIsName(Export);
    assert IsName("version") && Lacks("1", '"');
  }

  // ----- looking leaves up -----

  /** The children of a section read back: the first of a name is the leaf of that tag. */
  lemma {:induction false} LeafFound(from: Section, order: seq<Tag>, tag: Tag)
    ensures Child(NormalAll(Leaves(from, order)), Name(tag)) ==
      if tag in order then Some(Normal(Leaf(from, tag))) else None
  {
    if order != [] {
      LeafFound(from, order[1..], tag);
      FirstLeaf(from, order);
      if Name(order[0]) == Name(tag) { NamesDiffer(order[0], tag); }
    }
  }

  lemma FirstLeaf(from: Section, order: seq<Tag>)
    requires order != []
    ensures var els := NormalAll(Leaves(from, order));
      els != [] && els[0] == Normal(Leaf(from, order[0])) && els[0].name == Name(order[0])
      && els[1..] == NormalAll(Leaves(from, order[1..]))
  {
    assert Leaves(from, order)[1..] == Leaves(from, order[1..]);
  }

  lemma LeafTextRead(from: Section, tag: Tag)
    ensures TextIn(Normal(Leaf(from, tag))) == Unescape(TrimStart(LeafText(from, tag)))
  {
    UnescapeOfPlain("");
  }

  /** `el` holds the leaves of a section read back. */
  predicate Holds(el: El, from: Section, order: seq<Tag>) {
    el.children == NormalAll(Leaves(from, order))
  }

  lemma LookedUp(el: El, from: Section, order: seq<Tag>, tag: Tag)
    requires Holds(el, from, order) && tag in order
    ensures Lookup(el, tag) == Some(Unescape(TrimStart(LeafText(from, tag))))
  {
    LeafFound(from, order, tag);
    LeafTextRead(from, tag);
  }

  lemma ReadsI32(el: El, from: Section, order: seq<Tag>, tag: Tag, n: int, before: int)
    requires Holds(el, from, order) && tag in order && LeafText(from, tag) == Printed(n) && I32_MIN <= n <= I32_MAX
    ensures PickI32(el, tag, before) == n && Lookup(el, tag).Some? && ParseI32(Lookup(el, tag).value) == n
  {
    LookedUp(el, from, order, tag);
    NumberIsRead(n, I32_MIN, I32_MAX);
  }

  lemma ReadsI64(el: El, from: Section, order: seq<Tag>, tag: Tag, n: int, before: int)
    requires Holds(el, from, order) && tag in order && LeafText(from, tag) == Printed(n) && I64_MIN <= n
    ensures PickI64(el, tag, before) == (if n <= I64_MAX then n else 0)
    ensures Lookup(el, tag).Some? && ParseI64(Lookup(el, tag).value) == if n <= I64_MAX then n else 0
  {
    LookedUp(el, from, order, tag);
    NumberIsRead(n, I64_MIN, I64_MAX);
  }

  function Flag(n: int): int {
    if n != 0 then 1 else 0
  }

  lemma ReadsFlag(el: El, from: Section, order: seq<Tag>, tag: Tag, n: int, before: int)
    requires Holds(el, from, order) && tag in order && LeafText(from, tag) == Printed(n) && I32_MIN <= n <= I32_MAX
    ensures PickFlag(el, tag, before) == Flag(n)
  {
    LookedUp(el, from, order, tag);
    NumberIsRead(n, I32_MIN, I32_MAX);
  }

  lemma ReadsRatio(el: El, from: Section, order: seq<Tag>, tag: Tag, num: int, den: int, before: (int, int))
    requires Holds(el, from, order) && tag in order && LeafText(from, tag) == Ratio(num, den)
    requires I32_MIN <= num <= I32_MAX && I32_MIN <= den <= I32_MAX
    ensures PickRatio(el, tag, before) == (num, den)
  {
    LookedUp(el, from, order, tag);
    RatioIsRead(num, den);
  }

  lemma ReadsBytes(el: El, from: Section, order: seq<Tag>, tag: Tag, text: string, before: string)
    requires Holds(el, from, order) && tag in order && LeafText(from, tag) == Escape(text)
    ensures PickBytes(el, tag, before) == CBytes(|before|, TrimStart(text))
  {
    LookedUp(el, from, order, tag);
    TextIsRead(text);
  }

  lemma EnabledRead(el: El, n: int, before: int)
    requires el.attrs == [Attr("enabled", Printed(n))] && I32_MIN <= n <= I32_MAX
    ensures PickEnabled(el, before) == Flag(n)
  {
    TrimmedNumber(n);
  }

  // ----- enumerations -----

  lemma CodesRoundTrip(p: PixelFormat, s: SampleFormat, c: Scaling)
    ensures PixelFormatFrom(p.Code()) == p && SampleFormatFrom(s.Code()) == s && ScalingFrom(c.Code()) == c
  {
  }

  // ----- sections -----

  predicate I32(n: int) {
    I32_MIN <= n <= I32_MAX
  }

  predicate I64(n: int) {
    I64_MIN <= n <= I64_MAX
  }

  /** The values the field types hold. */
  predicate ValidVideo(v: Video) {
    && I32(v.enabled) && I32(v.codec) && I32(v.width) && I32(v.height) && I32(v.timeBaseNum) && I32(v.timeBaseDen)
    && I32(v.interlacing) && I32(v.aspectNum) && I32(v.aspectDen) && I64(v.bitRate) && I64(v.minBitRate)
    && I64(v.maxBitRate) && I64(v.bufferSize) && I32(v.threads) && I32(v.imageSequence)
  }

  predicate ValidAudio(a: Audio) {
    I32(a.enabled) && I32(a.codec) && I32(a.sampleRate) && 0 <= a.channelLayout <= U64_MAX && I64(a.bitRate)
  }

  predicate ValidSubtitles(t: Subtitles) {
    I32(t.enabled) && I32(t.sidecar) && I32(t.sidecarFormat) && I32(t.codec)
  }

  /** What loading a saved section gives: flags become 0 or 1, and a disabled section keeps the rest of the target. */
  function RestoredVideo(v: Video, target: Video): Video {
    if v.enabled == 0 then target.(enabled := 0) else v.(enabled := 1, imageSequence := Flag(v.imageSequence))
  }

  function RestoredAudio(a: Audio, target: Audio): Audio {
    if a.enabled == 0 then target.(enabled := 0)
    else a.(enabled := 1, channelLayout := if a.channelLayout <= I64_MAX then a.channelLayout else 0)
  }

  function RestoredSubtitles(t: Subtitles, target: Subtitles): Subtitles {
    if t.enabled == 0 then target.(enabled := 0) else t.(enabled := 1, sidecar := Flag(t.sidecar))
  }

  /** `el` is a video section read back. */
  predicate HoldsVideo(el: El, v: Video, pixFmt: string, order: seq<Tag>) {
    && Holds(el, VideoSection(v, pixFmt), order) && InVideoOrder(order)
    && el.attrs == [Attr("enabled", Printed(v.enabled))] && ValidVideo(v)
  }

  lemma VideoI32Read(el: El, v: Video, pixFmt: string, order: seq<Tag>, tag: Tag, n: int, before: int)
    requires Holds(el, VideoSection(v, pixFmt), order) && tag in order && VideoText(v, pixFmt, tag) == Printed(n)
    requires I32(n)
    ensures PickI32(el, tag, before) == n && Lookup(el, tag).Some? && ParseI32(Lookup(el, tag).value) == n
  {
    ReadsI32(el, VideoSection(v, pixFmt), order, tag, n, before);
  }

  lemma VideoI64Read(el: El, v: Video, pixFmt: string, order: seq<Tag>, tag: Tag, n: int, before: int)
    requires Holds(el, VideoSection(v, pixFmt), order) && tag in order && VideoText(v, pixFmt, tag) == Printed(n)
    requires I64(n)
    ensures PickI64(el, tag, before) == n
  {
    ReadsI64(el, VideoSection(v, pixFmt), order, tag, n, before);
  }

  lemma VideoRatioRead(el: El, v: Video, pixFmt: string, order: seq<Tag>, tag: Tag, num: int, den: int,
                       before: (int, int))
    requires Holds(el, VideoSection(v, pixFmt), order) && tag in order && VideoText(v, pixFmt, tag) == Ratio(num, den)
    requires I32(num) && I32(den)
    ensures PickRatio(el, tag, before) == (num, den)
  {
    ReadsRatio(el, VideoSection(v, pixFmt), order, tag, num, den, before);
  }

  lemma SizeRead(el: El, v: Video, pixFmt: string, order: seq<Tag>, target: Video)
    requires HoldsVideo(el, v, pixFmt, order)
    ensures PickI32(el, Codec, target.codec) == v.codec && PickI32(el, Width, target.width) == v.width
    ensures PickI32(el, Height, target.height) == v.height
  {
    VideoI32Read(el, v, pixFmt, order, Codec, v.codec, target.codec);
    AreaRead(el, v, pixFmt, order, target);
  }

  lemma AreaRead(el: El, v: Video, pixFmt: string, order: seq<Tag>, target: Video)
    requires HoldsVideo(el, v, pixFmt, order)
    ensures PickI32(el, Width, target.width) == v.width && PickI32(el, Height, target.height) == v.height
  {
    VideoI32Read(el, v, pixFmt, order, Width, v.width, target.width);
    VideoI32Read(el, v, pixFmt, order, Height, v.height, target.height);
  }

  lemma TimeBaseRead(el: El, v: Video, pixFmt: string, order: seq<Tag>, before: (int, int))
    requires HoldsVideo(el, v, pixFmt, order)
    ensures PickRatio(el, TimeBase, before) == (v.timeBaseNum, v.timeBaseDen)
  {
    VideoRatioRead(el, v, pixFmt, order, TimeBase, v.timeBaseNum, v.timeBaseDen, before);
  }

  lemma AspectRead(el: El, v: Video, pixFmt: string, order: seq<Tag>, before: (int, int))
    requires HoldsVideo(el, v, pixFmt, order)
    ensures PickRatio(el, PixelAspect, before) == (v.aspectNum, v.aspectDen)
  {
    VideoRatioRead(el, v, pixFmt, order, PixelAspect, v.aspectNum, v.aspectDen, before);
  }

  lemma DividerRead(el: El, v: Video, pixFmt: string, order: seq<Tag>, before: int)
    requires HoldsVideo(el, v, pixFmt, order)
    ensures PickI32(el, Divider, before) == v.interlacing
  {
    VideoI32Read(el, v, pixFmt, order, Divider, v.interlacing, before);
  }

  lemma FormatRead(el: El, v: Video, pixFmt: string, order: seq<Tag>)
    requires HoldsVideo(el, v, pixFmt, order)
    ensures Lookup(el, Format).Some? && PixelFormatFrom(ParseI32(Lookup(el, Format).value)) == v.pixelFormat
  {
    VideoI32Read(el, v, pixFmt, order, Format, v.pixelFormat.Code(), 0);
    CodesRoundTrip(v.pixelFormat, SampleFormat.Invalid, Fit);
  }

  lemma PictureRead(el: El, v: Video, pixFmt: string, order: seq<Tag>, target: Video)
    requires HoldsVideo(el, v, pixFmt, order)
    ensures LoadedPicture(target, el) == target.(
      enabled := Flag(v.enabled), codec := v.codec, width := v.width, height := v.height, pixelFormat := v.pixelFormat,
      timeBaseNum := v.timeBaseNum, timeBaseDen := v.timeBaseDen, interlacing := v.interlacing,
      aspectNum := v.aspectNum, aspectDen := v.aspectDen)
  {
    SizeRead(el, v, pixFmt, order, target);
    TimeBaseRead(el, v, pixFmt, order, (target.timeBaseNum, target.timeBaseDen));
    DividerRead(el, v, pixFmt, order, target.interlacing);
    AspectRead(el, v, pixFmt, order, (target.aspectNum, target.aspectDen));
    FormatRead(el, v, pixFmt, order);
    EnabledRead(el, v.enabled, target.enabled);
  }

  lemma BitRatesRead(el: El, v: Video, pixFmt: string, order: seq<Tag>, target: Video)
    requires HoldsVideo(el, v, pixFmt, order)
    ensures PickI64(el, BitRate, target.bitRate) == v.bitRate
    ensures PickI64(el, MinBitRate, target.minBitRate) == v.minBitRate
    ensures PickI64(el, MaxBitRate, target.maxBitRate) == v.maxBitRate
    ensures PickI64(el, BufSize, target.bufferSize) == v.bufferSize
  {
    VideoI64Read(el, v, pixFmt, order, BitRate, v.bitRate, target.bitRate);
    VideoI64Read(el, v, pixFmt, order, MinBitRate, v.minBitRate, target.minBitRate);
    VideoI64Read(el, v, pixFmt, order, MaxBitRate, v.maxBitRate, target.maxBitRate);
    VideoI64Read(el, v, pixFmt, order, BufSize, v.bufferSize, target.bufferSize);
  }

  lemma EncodingRead(el: El, v: Video, pixFmt: string, order: seq<Tag>, target: Video)
    requires HoldsVideo(el, v, pixFmt, order)
    ensures PickI32(el, Threads, target.threads) == v.threads
    ensures PickFlag(el, ImgSeq, target.imageSequence) == Flag(v.imageSequence)
    ensures Lookup(el, VScale).Some? && ScalingFrom(ParseI32(Lookup(el, VScale).value)) == v.scaling
  {
    VideoI32Read(el, v, pixFmt, order, Threads, v.threads, target.threads);
    ReadsFlag(el, VideoSection(v, pixFmt), order, ImgSeq, v.imageSequence, target.imageSequence);
    VideoI32Read(el, v, pixFmt, order, VScale, v.scaling.Code(), 0);
    CodesRoundTrip(PixelFormat.Invalid, SampleFormat.Invalid, v.scaling);
  }

  lemma RatesRead(el: El, v: Video, pixFmt: string, order: seq<Tag>, target: Video)
    requires HoldsVideo(el, v, pixFmt, order)
    ensures LoadedRates(target, el) == target.(
      bitRate := v.bitRate, minBitRate := v.minBitRate, maxBitRate := v.maxBitRate, bufferSize := v.bufferSize,
      threads := v.threads, imageSequence := Flag(v.imageSequence), scaling := v.scaling)
  {
    BitRatesRead(el, v, pixFmt, order, target);
    EncodingRead(el, v, pixFmt, order, target);
  }

  /** Without children nothing but the attribute is assigned. */
  lemma EmptyPicture(el: El, target: Video)
    requires el.children == []
    ensures LoadedPicture(target, el) == target.(enabled := PickEnabled(el, target.enabled))
    ensures LoadedRates(target, el) == target
  {
    assert forall tag :: Lookup(el, tag) == None;
  }

  lemma VideoRead(v: Video, pixFmt: string, el: El, target: Video, bytes: string)
    requires ValidVideo(v) && el == Normal(VideoEl(v, pixFmt))
    ensures LoadedRates(LoadedPicture(target, el), el) == RestoredVideo(v, target)
    ensures PickBytes(el, PixFmt, bytes) == if v.enabled == 0 then bytes else CBytes(|bytes|, TrimStart(CStr(pixFmt)))
  {
    assert el.attrs == [Attr("enabled", Printed(v.enabled))];
    if v.enabled == 0 {
      EmptyPicture(el, target);
      EmptyPicture(el, target.(enabled := PickEnabled(el, target.enabled)));
      EnabledRead(el, v.enabled, target.enabled);
      assert Lookup(el, PixFmt) == None;
    } else {
      VideoOrderListed();
      EnabledVideoRead(v, pixFmt, el, VIDEO_ORDER, target, bytes);
    }
  }

  lemma EnabledVideoRead(v: Video, pixFmt: string, el: El, order: seq<Tag>, target: Video, bytes: string)
    requires v.enabled != 0 && HoldsVideo(el, v, pixFmt, order)
    ensures LoadedRates(LoadedPicture(target, el), el) == RestoredVideo(v, target)
    ensures PickBytes(el, PixFmt, bytes) == CBytes(|bytes|, TrimStart(CStr(pixFmt)))
  {
    BothHalvesRead(v, pixFmt, el, order, target, LoadedPicture(target, el));
    PixFmtRead(el, v, pixFmt, order, bytes);
  }

  lemma PixFmtRead(el: El, v: Video, pixFmt: string, order: seq<Tag>, bytes: string)
    requires HoldsVideo(el, v, pixFmt, order)
    ensures PickBytes(el, PixFmt, bytes) == CBytes(|bytes|, TrimStart(CStr(pixFmt)))
  {
    ReadsBytes(el, VideoSection(v, pixFmt), order, PixFmt, CStr(pixFmt), bytes);
  }

  lemma BothHalvesRead(v: Video, pixFmt: string, el: El, order: seq<Tag>, target: Video, picture: Video)
    requires v.enabled != 0 && HoldsVideo(el, v, pixFmt, order) && picture == LoadedPicture(target, el)
    ensures LoadedRates(picture, el) == RestoredVideo(v, target)
  {
    PictureRead(el, v, pixFmt, order, target);
    RatesRead(el, v, pixFmt, order, picture);
    HalvesMakeVideo(v, target, picture, LoadedRates(picture, el));
  }

  lemma HalvesMakeVideo(v: Video, target: Video, picture: Video, loaded: Video)
    requires v.enabled != 0
    requires picture == target.(
      enabled := Flag(v.enabled), codec := v.codec, width := v.width, height := v.height, pixelFormat := v.pixelFormat,
      timeBaseNum := v.timeBaseNum, timeBaseDen := v.timeBaseDen, interlacing := v.interlacing,
      aspectNum := v.aspectNum, aspectDen := v.aspectDen)
    requires loaded == picture.(
      bitRate := v.bitRate, minBitRate := v.minBitRate, maxBitRate := v.maxBitRate, bufferSize := v.bufferSize,
      threads := v.threads, imageSequence := Flag(v.imageSequence), scaling := v.scaling)
    ensures loaded == RestoredVideo(v, target)
  {
  }

  predicate HoldsAudio(el: El, a: Audio, order: seq<Tag>) {
    && Holds(el, AudioSection(a), order) && el.attrs == [Attr("enabled", Printed(a.enabled))] && ValidAudio(a)
    && |order| == 5 && order[0] == Codec && order[1] == SampleRate && order[2] == ChannelLayout && order[3] == Format
    && order[4] == BitRate
  }

  lemma AudioNumbersRead(el: El, a: Audio, order: seq<Tag>, target: Audio)
    requires HoldsAudio(el, a, order)
    ensures PickI32(el, Codec, target.codec) == a.codec && PickI32(el, SampleRate, target.sampleRate) == a.sampleRate
  {
    AudioNumberRead(el, a, order, Codec, a.codec, target.codec);
    AudioNumberRead(el, a, order, SampleRate, a.sampleRate, target.sampleRate);
  }

  lemma AudioNumberRead(el: El, a: Audio, order: seq<Tag>, tag: Tag, n: int, before: int)
    requires HoldsAudio(el, a, order) && tag in order && AudioText(a, tag) == Printed(n) && I32(n)
    ensures PickI32(el, tag, before) == n
  {
    ReadsI32(el, AudioSection(a), order, tag, n, before);
  }

  lemma AudioBitRateRead(el: El, a: Audio, order: seq<Tag>, before: int)
    requires HoldsAudio(el, a, order)
    ensures PickI64(el, BitRate, before) == a.bitRate
  {
    ReadsI64(el, AudioSection(a), order, BitRate, a.bitRate, before);
  }

  lemma AudioLayoutRead(el: El, a: Audio, order: seq<Tag>)
    requires HoldsAudio(el, a, order)
    ensures Lookup(el, ChannelLayout).Some?
    ensures AsU64(ParseI64(Lookup(el, ChannelLayout).value)) ==
      if a.channelLayout <= I64_MAX then a.channelLayout else 0
  {
    ReadsI64(el, AudioSection(a), order, ChannelLayout, a.channelLayout, 0);
  }

  lemma AudioFormatRead(el: El, a: Audio, order: seq<Tag>)
    requires HoldsAudio(el, a, order)
    ensures Lookup(el, Format).Some? && SampleFormatFrom(ParseI32(Lookup(el, Format).value)) == a.sampleFormat
  {
    ReadsI32(el, AudioSection(a), order, Format, a.sampleFormat.Code(), 0);
    CodesRoundTrip(PixelFormat.Invalid, a.sampleFormat, Fit);
  }

  lemma AudioRead(a: Audio, el: El, target: Audio)
    requires ValidAudio(a) && el == Normal(AudioEl(a))
    ensures LoadedAudio(target, el) == RestoredAudio(a, target)
  {
    assert el.attrs == [Attr("enabled", Printed(a.enabled))];
    if a.enabled == 0 {
      EnabledRead(el, a.enabled, target.enabled);
      assert forall tag :: Lookup(el, tag) == None;
    } else {
      EnabledAudioRead(a, el, AUDIO_ORDER, target);
    }
  }

  lemma EnabledAudioRead(a: Audio, el: El, order: seq<Tag>, target: Audio)
    requires a.enabled != 0 && HoldsAudio(el, a, order)
    ensures LoadedAudio(target, el) == RestoredAudio(a, target)
  {
    EnabledRead(el, a.enabled, target.enabled);
    AudioNumbersRead(el, a, order, target);
    AudioBitRateRead(el, a, order, target.bitRate);
    AudioLayoutRead(el, a, order);
    AudioFormatRead(el, a, order);
  }

  predicate HoldsSubtitles(el: El, t: Subtitles, order: seq<Tag>) {
    && Holds(el, SubtitlesSection(t), order) && el.attrs == [Attr("enabled", Printed(t.enabled))] && ValidSubtitles(t)
    && |order| == 3 && order[0] == Sidecar && order[1] == SidecarFormat && order[2] == Codec
  }

  lemma SubtitlesRead(t: Subtitles, el: El, target: Subtitles)
    requires ValidSubtitles(t) && el == Normal(SubtitlesEl(t))
    ensures LoadedSubtitles(target, el) == RestoredSubtitles(t, target)
  {
    assert el.attrs == [Attr("enabled", Printed(t.enabled))];
    if t.enabled == 0 {
      EnabledRead(el, t.enabled, target.enabled);
      assert forall tag :: Lookup(el, tag) == None;
    } else {
      EnabledSubtitlesRead(t, el, SUBTITLES_ORDER, target);
    }
  }

  lemma SidecarRead(el: El, t: Subtitles, order: seq<Tag>, before: int)
    requires HoldsSubtitles(el, t, order)
    ensures PickFlag(el, Sidecar, before) == Flag(t.sidecar)
  {
    ReadsFlag(el, SubtitlesSection(t), order, Sidecar, t.sidecar, before);
  }

  lemma SidecarFormatRead(el: El, t: Subtitles, order: seq<Tag>, before: int)
    requires HoldsSubtitles(el, t, order)
    ensures PickI32(el, SidecarFormat, before) == t.sidecarFormat
  {
    ReadsI32(el, SubtitlesSection(t), order, SidecarFormat, t.sidecarFormat, before);
  }

  lemma SubtitlesCodecRead(el: El, t: Subtitles, order: seq<Tag>, before: int)
    requires HoldsSubtitles(el, t, order)
    ensures PickI32(el, Codec, before) == t.codec
  {
    ReadsI32(el, SubtitlesSection(t), order, Codec, t.codec, before);
  }

  lemma EnabledSubtitlesRead(t: Subtitles, el: El, order: seq<Tag>, target: Subtitles)
    requires t.enabled != 0 && HoldsSubtitles(el, t, order)
    ensures LoadedSubtitles(target, el) == RestoredSubtitles(t, target)
  {
    EnabledRead(el, t.enabled, target.enabled);
    SidecarRead(el, t, order, target.sidecar);
    SidecarFormatRead(el, t, order, target.sidecarFormat);
    SubtitlesCodecRead(el, t, order, target.codec);
  }

  // ----- the root -----

  lemma {:induction false} NormalJoins(a: seq<El>, b: seq<El>)
    ensures NormalAll(a + b) == NormalAll(a) + NormalAll(b)
  {
    if a == [] {
      assert a + b == b;
    } else {
      TailOfJoin(a, b);
      NormalJoins(a[1..], b);
      Associates([Normal(a[0])], NormalAll(a[1..]), NormalAll(b));
    }
  }

  lemma {:induction false} ChildJoins(a: seq<El>, b: seq<El>, name: string)
    ensures Child(a + b, name) == if Child(a, name).Some? then Child(a, name) else Child(b, name)
  {
    if a == [] {
      assert a + b == b;
    } else {
      TailOfJoin(a, b);
      ChildJoins(a[1..], b, name);
    }
  }

  lemma ThreeNormal(a: El, b: El, c: El)
    ensures NormalAll([a, b, c]) == [Normal(a), Normal(b), Normal(c)]
  {
    assert [a, b, c][1..] == [b, c] && [b, c][1..] == [c] && [c][1..] == [];
    assert NormalAll([c]) == [Normal(c)];
    assert NormalAll([b, c]) == [Normal(b), Normal(c)];
  }

  /** The first of three with this name, when the names differ. */
  lemma ChildOfThree(a: El, b: El, c: El, name: string)
    ensures Child([a, b, c], name) ==
      if a.name == name then Some(a) else if b.name == name then Some(b) else if c.name == name then Some(c) else None
  {
    assert [a, b, c][1..] == [b, c] && [b, c][1..] == [c] && [c][1..] == [];
    assert Child([], name) == None;
    assert Child([c], name) == if c.name == name then Some(c) else None;
    assert Child([b, c], name) == if b.name == name then Some(b) else Child([c], name);
  }

  /** What `child` finds in the root of a document read back. */
  lemma RootChild(p: Params, leaves: seq<El>, v: El, a: El, t: El, tag: Tag)
    requires leaves == NormalAll(Leaves(RootSection(p), ROOT_ORDER))
    requires v == Normal(VideoEl(p.video, p.pixFmt)) && a == Normal(AudioEl(p.audio))
    requires t == Normal(SubtitlesEl(p.subtitles))
    ensures Child(leaves + [v, a, t], Name(tag)) ==
      if tag in ROOT_ORDER then Some(Normal(Leaf(RootSection(p), tag)))
      else if tag == VideoTag then Some(v)
      else if tag == AudioTag then Some(a)
      else if tag == SubtitlesTag then Some(t) else None
  {
    LeafFound(RootSection(p), ROOT_ORDER, tag);
    ChildJoins(leaves, [v, a, t], Name(tag));
    ChildOfThree(v, a, t, Name(tag));
    SectionNames(p, tag);
  }

  lemma NamedLike(el: El, own: Tag, tag: Tag)
    requires el.name == Name(own)
    ensures el.name == Name(tag) <==> tag == own
  {
    if Name(own) == Name(tag) { NamesDiffer(own, tag); }
  }

  lemma SectionNames(p: Params, tag: Tag)
    ensures Normal(VideoEl(p.video, p.pixFmt)).name == Name(tag) <==> tag == VideoTag
    ensures Normal(AudioEl(p.audio)).name == Name(tag) <==> tag == AudioTag
    ensures Normal(SubtitlesEl(p.subtitles)).name == Name(tag) <==> tag == SubtitlesTag
  {
    NamedLike(Normal(VideoEl(p.video, p.pixFmt)), VideoTag, tag);
    NamedLike(Normal(AudioEl(p.audio)), AudioTag, tag);
    NamedLike(Normal(SubtitlesEl(p.subtitles)), SubtitlesTag, tag);
  }

  lemma RootIs(p: Params)
    ensures Normal(Tree(p)).children == NormalAll(Leaves(RootSection(p), ROOT_ORDER))
      + [Normal(VideoEl(p.video, p.pixFmt)), Normal(AudioEl(p.audio)), Normal(SubtitlesEl(p.subtitles))]
  {
    var v, a, t := VideoEl(p.video, p.pixFmt), AudioEl(p.audio), SubtitlesEl(p.subtitles);
    NormalJoins(Leaves(RootSection(p), ROOT_ORDER), [v, a, t]);
    ThreeNormal(v, a, t);
  }

  // ----- the round trip -----

  /** Values the fields hold, and strings that fit their arrays. */
  predicate Valid(p: Params) {
    && I32(p.format) && ValidVideo(p.video) && ValidAudio(p.audio) && ValidSubtitles(p.subtitles)
    && |p.filename| == FILENAME_BYTES && |p.pixFmt| == PIX_FMT_BYTES
  }

  /** A saved preset loaded into `target`. The custom range and everything unsaved stay the target's. */
  function Restored(p: Params, target: Params): Params {
    target.(
      filename := CBytes(|target.filename|, TrimStart(CStr(p.filename))), format := p.format,
      video := RestoredVideo(p.video, target.video),
      pixFmt := if p.video.enabled == 0 then target.pixFmt else CBytes(|target.pixFmt|, TrimStart(CStr(p.pixFmt))),
      audio := RestoredAudio(p.audio, target.audio), subtitles := RestoredSubtitles(p.subtitles, target.subtitles))
  }

  lemma RootLeafRead(p: Params, root: El, tag: Tag)
    requires root == Normal(Tree(p)) && tag in ROOT_ORDER
    ensures Lookup(root, tag) == Some(Unescape(TrimStart(RootText(p, tag))))
  {
    RootIs(p);
    RootChild(p, NormalAll(Leaves(RootSection(p), ROOT_ORDER)), Normal(VideoEl(p.video, p.pixFmt)),
              Normal(AudioEl(p.audio)), Normal(SubtitlesEl(p.subtitles)), tag);
    LeafTextRead(RootSection(p), tag);
  }

  lemma RootSectionsRead(p: Params, root: El)
    requires root == Normal(Tree(p))
    ensures Child(root.children, Name(VideoTag)) == Some(Normal(VideoEl(p.video, p.pixFmt)))
    ensures Child(root.children, Name(AudioTag)) == Some(Normal(AudioEl(p.audio)))
    ensures Child(root.children, Name(SubtitlesTag)) == Some(Normal(SubtitlesEl(p.subtitles)))
  {
    var leaves, v := NormalAll(Leaves(RootSection(p), ROOT_ORDER)), Normal(VideoEl(p.video, p.pixFmt));
    var a, t := Normal(AudioEl(p.audio)), Normal(SubtitlesEl(p.subtitles));
    RootIs(p);
    RootChild(p, leaves, v, a, t, VideoTag);
    RootChild(p, leaves, v, a, t, AudioTag);
    RootChild(p, leaves, v, a, t, SubtitlesTag);
  }

  lemma RootFieldsRead(p: Params, root: El, target: Params)
    requires root == Normal(Tree(p)) && I32(p.format)
    ensures PickBytes(root, Filename, target.filename) == CBytes(|target.filename|, TrimStart(CStr(p.filename)))
    ensures PickI32(root, Format, target.format) == p.format
  {
    RootLeafRead(p, root, Filename);
    TextIsRead(CStr(p.filename));
    RootLeafRead(p, root, Format);
    NumberIsRead(p.format, I32_MIN, I32_MAX);
  }

  lemma LoadedTree(p: Params, root: El, target: Params)
    requires Valid(p) && root == Normal(Tree(p))
    ensures Loaded(target, root) == Restored(p, target)
  {
    RootFieldsRead(p, root, target);
    RootSectionsRead(p, root);
    VideoRead(p.video, p.pixFmt, Normal(VideoEl(p.video, p.pixFmt)), target.video, target.pixFmt);
    AudioRead(p.audio, Normal(AudioEl(p.audio)), target.audio);
    SubtitlesRead(p.subtitles, Normal(SubtitlesEl(p.subtitles)), target.subtitles);
  }

  /** What `save_to_string` writes, `load` accepts, into any target, and gives what `Restored` says. */
  lemma LoadOfSave(p: Params, target: Params, data: string)
    requires Valid(p) && data == Print(Tree(p))
    ensures LoadResult(data) == Ok(()) && Loaded(target, ParseElement(data, 0).el) == Restored(p, target)
    ensures Restored(p, target).range == target.range && Restored(p, target).unsaved == target.unsaved
  {
    TreePrintable(p);
    ParsesPrinted(data, 0, Tree(p));
    assert Normal(Tree(p)).name == Name(Export);
    LoadedTree(p, Normal(Tree(p)), target);
  }

  // ----- when the round trip is exact -----

  predicate SameVideo(a: Params, b: Params) {
    && a.video.enabled == b.video.enabled
    && (a.video.enabled != 0 ==> a.video == b.video && CStr(a.pixFmt) == CStr(b.pixFmt))
  }

  predicate SameAudio(a: Params, b: Params) {
    a.audio.enabled == b.audio.enabled && (a.audio.enabled != 0 ==> a.audio == b.audio)
  }

  predicate SameSubtitles(a: Params, b: Params) {
    a.subtitles.enabled == b.subtitles.enabled && (a.subtitles.enabled != 0 ==> a.subtitles == b.subtitles)
  }

  /** The same saved settings: everything but the custom range, the unsaved fields and disabled sections. */
  predicate SameSettings(a: Params, b: Params) {
    && CStr(a.filename) == CStr(b.filename) && a.format == b.format
    && SameVideo(a, b) && SameAudio(a, b) && SameSubtitles(a, b)
  }

  predicate IsFlag(n: int) {
    n == 0 || n == 1
  }

  predicate NoLeadingSpace(s: string) {
    s == "" || !IsSpace(s[0])
  }

  /** Flags are 0 or 1, strings of saved fields start with no white space, a saved channel layout is below 2^63. */
  predicate Normalized(p: Params) {
    && NoLeadingSpace(CStr(p.filename)) && IsFlag(p.video.enabled) && IsFlag(p.audio.enabled)
    && IsFlag(p.subtitles.enabled)
    && (p.video.enabled != 0 ==> IsFlag(p.video.imageSequence) && NoLeadingSpace(CStr(p.pixFmt)))
    && (p.audio.enabled != 0 ==> p.audio.channelLayout <= I64_MAX)
    && (p.subtitles.enabled != 0 ==> IsFlag(p.subtitles.sidecar))
  }

  lemma {:induction false} TrimStartShape(s: string)
    ensures (TrimStart(s) == s <==> NoLeadingSpace(s)) && NoLeadingSpace(TrimStart(s))
  {
    if s != "" && IsSpace(s[0]) {
      TrimStartShape(s[1..]);
      assert |TrimStart(s)| < |s|;
    }
  }

  lemma BytesHoldTrimmed(bytes: string, size: nat)
    requires |bytes| <= size
    ensures CStr(CBytes(size, TrimStart(CStr(bytes)))) == TrimStart(CStr(bytes))
  {
    TrimmedHasNoNul(CStr(bytes), TrimStart(CStr(bytes)));
    CStrOfBytes(size, TrimStart(CStr(bytes)));
  }

  lemma TrimmedHasNoNul(s: string, t: string)
    requires t == TrimStart(s) && forall i :: 0 <= i < |s| ==> s[i] != NUL
    ensures |t| <= |s| && forall i :: 0 <= i < |t| ==> t[i] != NUL
  {
    var blank := TrimStartSplits(s);
    assert forall i :: 0 <= i < |t| ==> t[i] == s[|blank| + i];
  }

  /** Loading a saved preset gives back the saved settings exactly when the parameters were normalised. */
  lemma RoundTripExactlyNormalized(p: Params, target: Params)
    requires Valid(p) && Valid(target)
    ensures SameSettings(p, Restored(p, target)) <==> Normalized(p)
  {
    BytesHoldTrimmed(p.filename, FILENAME_BYTES);
    BytesHoldTrimmed(p.pixFmt, PIX_FMT_BYTES);
    TrimStartShape(CStr(p.filename));
    TrimStartShape(CStr(p.pixFmt));
    VideoExactly(p, target);
    AudioExactly(p.audio, target.audio);
    SubtitlesExactly(p.subtitles, target.subtitles);
  }

  /** An enabled flag of 2 comes back as 1. */
  lemma FlagTwoComesBackAsOne(p: Params, target: Params)
    requires p.video.enabled == 2
    ensures Restored(p, target).video.enabled == 1 && !SameSettings(p, Restored(p, target))
  {
  }

  /** White space in front of a file name is lost. */
  lemma LeadingSpaceIsLost(p: Params, target: Params)
    requires |target.filename| == FILENAME_BYTES && CStr(p.filename) == " a"
    ensures CStr(Restored(p, target).filename) == "a" && !SameSettings(p, Restored(p, target))
  {
    assert TrimStart(" a") == TrimStart("a") == "a" by { assert " a"[1..] == "a"; }
    CStrOfBytes(FILENAME_BYTES, "a");
  }

  lemma VideoExactly(p: Params, target: Params)
    ensures var r := RestoredVideo(p.video, target.video);
      p.video.enabled == r.enabled && (p.video.enabled != 0 ==> p.video == r)
      <==> IsFlag(p.video.enabled) && (p.video.enabled != 0 ==> IsFlag(p.video.imageSequence))
  {
  }

  lemma AudioExactly(a: Audio, target: Audio)
    ensures var r := RestoredAudio(a, target);
      a.enabled == r.enabled && (a.enabled != 0 ==> a == r)
      <==> IsFlag(a.enabled) && (a.enabled != 0 ==> a.channelLayout <= I64_MAX)
  {
  }

  lemma SubtitlesExactly(t: Subtitles, target: Subtitles)
    ensures var r := RestoredSubtitles(t, target);
      t.enabled == r.enabled && (t.enabled != 0 ==> t == r)
      <==> IsFlag(t.enabled) && (t.enabled != 0 ==> IsFlag(t.sidecar))
  {
  }

  // ----- saving again -----

  /** What was loaded is normalised, whatever was saved. */
  lemma RestoredIsNormalized(p: Params, target: Params)
    requires Valid(p) && Valid(target)
    ensures Valid(Restored(p, target)) && Normalized(Restored(p, target))
  {
    BytesHoldTrimmed(p.filename, FILENAME_BYTES);
    BytesHoldTrimmed(p.pixFmt, PIX_FMT_BYTES);
    TrimStartShape(CStr(p.filename));
    TrimStartShape(CStr(p.pixFmt));
  }

  lemma {:induction false} SameLeaves(a: Section, b: Section, order: seq<Tag>)
    requires forall tag :: LeafText(a, tag) == LeafText(b, tag)
    ensures Leaves(a, order) == Leaves(b, order)
  {
    if order != [] {
      assert LeafText(a, order[0]) == LeafText(b, order[0]);
      SameLeaves(a, b, order[1..]);
    }
  }

  /** Equal settings and custom ranges print the same document. */
  lemma SameSettingsSameDocument(a: Params, b: Params)
    requires SameSettings(a, b) && a.range == b.range
    ensures Tree(a) == Tree(b)
  {
    SameRoot(a, b);
    SameVideoEl(a, b);
    assert AudioEl(a.audio) == AudioEl(b.audio) && SubtitlesEl(a.subtitles) == SubtitlesEl(b.subtitles);
  }

  lemma SameRoot(a: Params, b: Params)
    requires CStr(a.filename) == CStr(b.filename) && a.format == b.format && a.range == b.range
    ensures Leaves(RootSection(a), ROOT_ORDER) == Leaves(RootSection(b), ROOT_ORDER)
  {
    forall tag ensures LeafText(RootSection(a), tag) == LeafText(RootSection(b), tag) {
      SameRootText(a, b, tag);
    }
    SameLeaves(RootSection(a), RootSection(b), ROOT_ORDER);
  }

  lemma SameRootText(a: Params, b: Params, tag: Tag)
    requires CStr(a.filename) == CStr(b.filename) && a.format == b.format && a.range == b.range
    ensures RootText(a, tag) == RootText(b, tag)
  {
  }

  lemma SameVideoEl(a: Params, b: Params)
    requires SameVideo(a, b)
    ensures VideoEl(a.video, a.pixFmt) == VideoEl(b.video, b.pixFmt)
  {
    if a.video.enabled != 0 {
      SameLeaves(VideoSection(a.video, a.pixFmt), VideoSection(b.video, b.pixFmt), VIDEO_ORDER);
    }
  }
}

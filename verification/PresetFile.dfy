/** `save_to_string` and `load` of the export parameters. */
module PresetFile {
  import opened Wrappers
  import opened Text
  import opened PresetXml
  import opened PresetGrammar
  import opened PresetPrinting
  import opened PresetNames
  import opened PresetDocument

  function SectionString(tag: Tag, enabled: int, body: string): string {
    "<" + Name(tag) + " enabled=\"" + Printed(enabled) + "\">" + body + "</" + Name(tag) + ">"
  }

  /** The printed sections are joined at these places. */
  lemma SectionPrints(tag: Tag, enabled: int, children: seq<El>, body: string)
    requires body == if enabled != 0 then PrintAll(children) else ""
    ensures Print(SectionEl(tag, enabled, children))
      == SectionString(tag, enabled, body)
  {
    var name, value := Name(tag), Printed(enabled);
    var attrs := [Attr("enabled", value)];
    assert PrintAttrs(attrs) == " " + "enabled" + "=\"" + value + "\"" + "";
    EnabledTag(name, value);
    CloseGroups(OpenTag(name, attrs) + body, name);
  }

  lemma EnabledTag(name: string, value: string)
    ensures "<" + name + (" " + "enabled" + "=\"" + value + "\"" + "") + ">"
      == "<" + name + " enabled=\"" + value + "\">"
  {
    assert " " + "enabled" + "=\"" == " enabled=\"";
    assert value + "\"" + "" == value + "\"";
  }

  /** The whole document from its pieces. */
  lemma DocumentPrints(p: Params, leaves: string, video: string, audio: string, subtitles: string)
    requires leaves == PrintAll(Leaves(RootSection(p), ROOT_ORDER)) && video == Print(VideoEl(p.video, p.pixFmt))
    requires audio == Print(AudioEl(p.audio)) && subtitles == Print(SubtitlesEl(p.subtitles))
    ensures "<export version=\"1\">" + leaves + video + audio + subtitles + "</export>" == Print(Tree(p))
  {
    var sections := [VideoEl(p.video, p.pixFmt), AudioEl(p.audio), SubtitlesEl(p.subtitles)];
    ThreePrint(sections[0], sections[1], sections[2]);
    PrintAllJoins(Leaves(RootSection(p), ROOT_ORDER), sections);
    ExportTags();
    RegroupDocument(OpenTag("export", [Attr("version", "1")]), leaves, video, audio, subtitles, CloseTag("export"));
    assert RootChildren(p) == Leaves(RootSection(p), ROOT_ORDER) + sections;
    assert Body(Tree(p)) == PrintAll(RootChildren(p));
  }

  lemma ThreePrint(a: El, b: El, c: El)
    ensures PrintAll([a, b, c]) == Print(a) + (Print(b) + Print(c))
  {
    PrintAllJoins([a], [b, c]);
    PrintAllJoins([b], [c]);
    OneElementPrints(a);
    OneElementPrints(b);
    OneElementPrints(c);
    assert [a] + [b, c] == [a, b, c] && [b] + [c] == [b, c];
  }

  lemma ExportTags()
    ensures OpenTag("export", [Attr("version", "1")]) == "<export version=\"1\">" && CloseTag("export") == "</export>"
  {
    assert PrintAttrs([Attr("version", "1")]) == " version=\"1\"";
  }

  lemma RegroupDocument(open: string, a: string, b: string, c: string, d: string, close: string)
    ensures open + a + b + c + d + close == open + (a + (b + (c + d))) + close
  {
    Associates(b, c, d);
    Associates(a, b + c, d);
    Associates(a, b, c);
    Associates(open, a + b + c, d);
    Associates(open, a + b, c);
    Associates(open, a, b);
  }

  predicate InVideoOrder(order: seq<Tag>) {
    && |order| == 15
    && order[0] == Codec && order[1] == Width && order[2] == Height && order[3] == Format && order[4] == TimeBase
    && order[5] == Divider && order[6] == PixelAspect && order[7] == BitRate && order[8] == MinBitRate
    && order[9] == MaxBitRate
    && order[10] == BufSize && order[11] == Threads && order[12] == PixFmt && order[13] == ImgSeq && order[14] == VScale
  }

  lemma VideoOrderListed()
    ensures InVideoOrder(VIDEO_ORDER)
  {
  }

  class EncodingParams {
    var filename: array<char>
    var format: int
    var video: Video
    var videoPixFmt: array<char>
    var audio: Audio
    var subtitles: Subtitles
    var range: CustomRange
    var unsaved: Unsaved

    function State(): Params
      reads this, filename, videoPixFmt
    {
      Params(filename[..], format, video, videoPixFmt[..], audio, subtitles, range, unsaved)
    }

    constructor ()
      ensures fresh(filename) && fresh(videoPixFmt) && State() == Defaults()
    {
      filename := new char[FILENAME_BYTES](i => NUL);
      format := -1;
      video := Defaults().video;
      videoPixFmt := new char[PIX_FMT_BYTES](i => NUL);
      audio := Defaults().audio;
      subtitles := Defaults().subtitles;
      range := Defaults().range;
      unsaved := Defaults().unsaved;
      new;
      assert filename[..] == Nuls(FILENAME_BYTES) && videoPixFmt[..] == Nuls(PIX_FMT_BYTES);
    }

    // ----- saving -----

    function VideoPart(): Section
      reads this, videoPixFmt
    {
      VideoSection(video, videoPixFmt[..])
    }

    method SaveVideo() returns (s: string)
      ensures s == Print(VideoEl(video, videoPixFmt[..]))
    {
      var body := "";
      if video.enabled != 0 {
        VideoOrderListed();
        body := SaveVideoLeaves(VIDEO_ORDER);
        AllWritten(VideoPart(), VIDEO_ORDER);
      }
      SectionPrints(VideoTag, video.enabled, Leaves(VideoPart(), VIDEO_ORDER), body);
      s := SectionString(VideoTag, video.enabled, body);
    }

    method SaveVideoLeaves(ghost order: seq<Tag>) returns (s: string)
      requires InVideoOrder(order)
      ensures s == Wrote(VideoPart(), order, 15)
    {
      s := SaveVideoSize(order);
      s := SaveVideoTiming(s, order);
      s := SaveVideoRates(s, order);
      s := SaveVideoEncoding(s, order);
    }

    method SaveVideoSize(ghost order: seq<Tag>) returns (s: string)
      requires |order| == 15 && order[0] == Codec && order[1] == Width && order[2] == Height && order[3] == Format
      ensures s == Wrote(VideoPart(), order, 4)
    {
      s := Push("", Codec, VideoPart(), order, 0);
      s := Push(s, Width, VideoPart(), order, 1);
      s := Push(s, Height, VideoPart(), order, 2);
      s := Push(s, Format, VideoPart(), order, 3);
    }

    method SaveVideoTiming(before: string, ghost order: seq<Tag>) returns (s: string)
      requires |order| == 15 && order[4] == TimeBase && order[5] == Divider && order[6] == PixelAspect
      requires before == Wrote(VideoPart(), order, 4)
      ensures s == Wrote(VideoPart(), order, 7)
    {
      s := Push(before, TimeBase, VideoPart(), order, 4);
      s := Push(s, Divider, VideoPart(), order, 5);
      s := Push(s, PixelAspect, VideoPart(), order, 6);
    }

    method SaveVideoRates(before: string, ghost order: seq<Tag>) returns (s: string)
      requires |order| == 15 && order[7] == BitRate && order[8] == MinBitRate && order[9] == MaxBitRate
      requires order[10] == BufSize
      requires before == Wrote(VideoPart(), order, 7)
      ensures s == Wrote(VideoPart(), order, 11)
    {
      s := Push(before, BitRate, VideoPart(), order, 7);
      s := Push(s, MinBitRate, VideoPart(), order, 8);
      s := Push(s, MaxBitRate, VideoPart(), order, 9);
      s := Push(s, BufSize, VideoPart(), order, 10);
    }

    method SaveVideoEncoding(before: string, ghost order: seq<Tag>) returns (s: string)
      requires |order| == 15 && order[11] == Threads && order[12] == PixFmt && order[13] == ImgSeq
      requires order[14] == VScale
      requires before == Wrote(VideoPart(), order, 11)
      ensures s == Wrote(VideoPart(), order, 15)
    {
      s := Push(before, Threads, VideoPart(), order, 11);
      s := Push(s, PixFmt, VideoPart(), order, 12);
      s := Push(s, ImgSeq, VideoPart(), order, 13);
      s := Push(s, VScale, VideoPart(), order, 14);
    }

    method SaveAudio() returns (s: string)
      ensures s == Print(AudioEl(audio))
    {
      var body := "";
      if audio.enabled != 0 {
        body := SaveAudioLeaves(AudioSection(audio), AUDIO_ORDER);
        AllWritten(AudioSection(audio), AUDIO_ORDER);
      }
      SectionPrints(AudioTag, audio.enabled, Leaves(AudioSection(audio), AUDIO_ORDER), body);
      s := SectionString(AudioTag, audio.enabled, body);
    }

    static method SaveAudioLeaves(from: Section, ghost order: seq<Tag>) returns (s: string)
      requires |order| == 5 && order[0] == Codec && order[1] == SampleRate && order[2] == ChannelLayout
      requires order[3] == Format && order[4] == BitRate
      ensures s == Wrote(from, order, 5)
    {
      s := Push("", Codec, from, order, 0);
      s := Push(s, SampleRate, from, order, 1);
      s := Push(s, ChannelLayout, from, order, 2);
      s := Push(s, Format, from, order, 3);
      s := Push(s, BitRate, from, order, 4);
    }

    method SaveSubtitles() returns (s: string)
      ensures s == Print(SubtitlesEl(subtitles))
    {
      var from := SubtitlesSection(subtitles);
      var body := "";
      if subtitles.enabled != 0 {
        body := Push(body, Sidecar, from, SUBTITLES_ORDER, 0);
        body := Push(body, SidecarFormat, from, SUBTITLES_ORDER, 1);
        body := Push(body, Codec, from, SUBTITLES_ORDER, 2);
        AllWritten(from, SUBTITLES_ORDER);
      }
      SectionPrints(SubtitlesTag, subtitles.enabled, Leaves(from, SUBTITLES_ORDER), body);
      s := SectionString(SubtitlesTag, subtitles.enabled, body);
    }

    method SaveRoot() returns (s: string)
      ensures s == PrintAll(Leaves(RootSection(State()), ROOT_ORDER))
    {
      s := SaveRootLeaves(RootSection(State()), ROOT_ORDER);
      AllWritten(RootSection(State()), ROOT_ORDER);
    }

    static method SaveRootLeaves(from: Section, ghost order: seq<Tag>) returns (s: string)
      requires |order| == 5 && order[0] == Filename && order[1] == Format && order[2] == Range
      requires order[3] == CustomRangeIn && order[4] == CustomRangeOut
      ensures s == Wrote(from, order, 5)
    {
      s := Push("", Filename, from, order, 0);
      s := Push(s, Format, from, order, 1);
      s := Push(s, Range, from, order, 2);
      s := Push(s, CustomRangeIn, from, order, 3);
      s := Push(s, CustomRangeOut, from, order, 4);
    }

    /** `save_to_string`: the printed form of the document tree. */
    method SaveToString() returns (s: string)
      ensures s == Print(Tree(State()))
    {
      var leaves := SaveRoot();
      var v := SaveVideo();
      var a := SaveAudio();
      var t := SaveSubtitles();
      s := "<export version=\"1\">" + leaves + v + a + t + "</export>";
      DocumentPrints(State(), leaves, v, a, t);
    }

    // ----- loading -----

    method LoadI32(e: El, tag: Tag, current: int) returns (value: int)
      ensures value == PickI32(e, tag, current)
    {
      value := current;
      var t := Lookup(e, tag);
      if t.Some? { value := ParseI32(t.value); }
    }

    method LoadI64(e: El, tag: Tag, current: int) returns (value: int)
      ensures value == PickI64(e, tag, current)
    {
      value := current;
      var t := Lookup(e, tag);
      if t.Some? { value := ParseI64(t.value); }
    }

    method LoadFlag(e: El, tag: Tag, current: int) returns (value: int)
      ensures value == PickFlag(e, tag, current)
    {
      value := current;
      var t := Lookup(e, tag);
      if t.Some? { value := ParseFlag(t.value); }
    }

    method LoadEnabled(e: El, current: int) returns (value: int)
      ensures value == PickEnabled(e, current)
    {
      value := current;
      var v := AttrOf(e.attrs, "enabled");
      if v.Some? { value := ParseFlag(v.value); }
    }

    method LoadRatio(e: El, tag: Tag, num: int, den: int) returns (n: int, d: int)
      ensures (n, d) == PickRatio(e, tag, (num, den))
    {
      n, d := num, den;
      var t := Lookup(e, tag);
      if t.Some? {
        var parts := SplitOnce(t.value, '/');
        if parts.Some? { n, d := ParseI32(parts.value.0), ParseI32(parts.value.1); }
      }
    }

    method LoadText(e: El, tag: Tag, dst: array<char>)
      modifies dst
      ensures dst[..] == PickBytes(e, tag, old(dst[..]))
    {
      var t := Lookup(e, tag);
      if t.Some? { SetCStr(dst, t.value); }
    }

    method LoadPicture(e: El)
      modifies `video
      ensures video == LoadedPicture(old(video), e)
    {
      var enabled := LoadEnabled(e, video.enabled);
      video := video.(enabled := enabled);
      var codec := LoadI32(e, Codec, video.codec);
      video := video.(codec := codec);
      var width := LoadI32(e, Width, video.width);
      video := video.(width := width);
      var height := LoadI32(e, Height, video.height);
      video := video.(height := height);
      var code := Lookup(e, Format);
      if code.Some? { video := video.(pixelFormat := PixelFormatFrom(ParseI32(code.value))); }
      var num, den := LoadRatio(e, TimeBase, video.timeBaseNum, video.timeBaseDen);
      video := video.(timeBaseNum := num, timeBaseDen := den);
      var interlacing := LoadI32(e, Divider, video.interlacing);
      video := video.(interlacing := interlacing);
      num, den := LoadRatio(e, PixelAspect, video.aspectNum, video.aspectDen);
      video := video.(aspectNum := num, aspectDen := den);
    }

    method LoadRates(e: El)
      modifies `video
      ensures video == LoadedRates(old(video), e)
    {
      var bitRate := LoadI64(e, BitRate, video.bitRate);
      video := video.(bitRate := bitRate);
      var minBitRate := LoadI64(e, MinBitRate, video.minBitRate);
      video := video.(minBitRate := minBitRate);
      var maxBitRate := LoadI64(e, MaxBitRate, video.maxBitRate);
      video := video.(maxBitRate := maxBitRate);
      var bufferSize := LoadI64(e, BufSize, video.bufferSize);
      video := video.(bufferSize := bufferSize);
      var threads := LoadI32(e, Threads, video.threads);
      video := video.(threads := threads);
      var imageSequence := LoadFlag(e, ImgSeq, video.imageSequence);
      video := video.(imageSequence := imageSequence);
      var code := Lookup(e, VScale);
      if code.Some? { video := video.(scaling := ScalingFrom(ParseI32(code.value))); }
    }

    method LoadAudio(e: El)
      modifies `audio
      ensures audio == LoadedAudio(old(audio), e)
    {
      var enabled := LoadEnabled(e, audio.enabled);
      audio := audio.(enabled := enabled);
      var codec := LoadI32(e, Codec, audio.codec);
      audio := audio.(codec := codec);
      var sampleRate := LoadI32(e, SampleRate, audio.sampleRate);
      audio := audio.(sampleRate := sampleRate);
      var layout := Lookup(e, ChannelLayout);
      if layout.Some? { audio := audio.(channelLayout := AsU64(ParseI64(layout.value))); }
      var code := Lookup(e, Format);
      if code.Some? { audio := audio.(sampleFormat := SampleFormatFrom(ParseI32(code.value))); }
      var bitRate := LoadI64(e, BitRate, audio.bitRate);
      audio := audio.(bitRate := bitRate);
    }

    method LoadSubtitles(e: El)
      modifies `subtitles
      ensures subtitles == LoadedSubtitles(old(subtitles), e)
    {
      var enabled := LoadEnabled(e, subtitles.enabled);
      subtitles := subtitles.(enabled := enabled);
      var sidecar := LoadFlag(e, Sidecar, subtitles.sidecar);
      subtitles := subtitles.(sidecar := sidecar);
      var sidecarFormat := LoadI32(e, SidecarFormat, subtitles.sidecarFormat);
      subtitles := subtitles.(sidecarFormat := sidecarFormat);
      var codec := LoadI32(e, Codec, subtitles.codec);
      subtitles := subtitles.(codec := codec);
    }

    /** The assignments of `load`. */
    method LoadDocument(root: El)
      requires filename != videoPixFmt
      modifies `format, `video, `audio, `subtitles, filename, videoPixFmt
      ensures State() == Loaded(old(State()), root)
    {
      LoadText(root, Filename, filename);
      var newFormat := LoadI32(root, Format, format);
      format := newFormat;
      var v := Child(root.children, Name(VideoTag));
      if v.Some? {
        LoadPicture(v.value);
        LoadText(v.value, PixFmt, videoPixFmt);
        LoadRates(v.value);
      }
      var a := Child(root.children, Name(AudioTag));
      if a.Some? { LoadAudio(a.value); }
      var t := Child(root.children, Name(SubtitlesTag));
      if t.Some? { LoadSubtitles(t.value); }
    }

    /** `load`: a document that is not well formed or not a preset changes nothing. */
    method Load(data: string) returns (r: Result<(), LoadError>)
      requires filename != videoPixFmt
      modifies `format, `video, `audio, `subtitles, filename, videoPixFmt
      ensures r == LoadResult(data)
      ensures State() == if r.Ok? then Loaded(old(State()), ParseElement(data, 0).el) else old(State())
    {
      var root := ParsePreset(data);
      if root.Err? {
        return Err(InvalidPreset(root.error));
      }
      if root.value.name != Name(Export) {
        return Err(NotAPreset);
      }
      LoadDocument(root.value);
      r := Ok(());
    }
  }

  datatype LoadError = InvalidPreset(why: Malformed) | NotAPreset

  function LoadResult(data: string): (r: Result<(), LoadError>)
    ensures r.Ok? <==> ParseElement(data, 0).Element? && ParseElement(data, 0).el.name == Name(Export)
  {
    var e := ParseElement(data, 0);
    if e.Refused? then Err(InvalidPreset(e.why)) else if e.el.name != Name(Export) then Err(NotAPreset) else Ok(())
  }

  function Defaults(): Params {
    Params(Nuls(FILENAME_BYTES), -1,
           Video(0, -1, 0, 0, PixelFormat.Invalid, 1, 1, 0, 0, 0, 0, 0, 0, 0, 0, 0, Stretch), Nuls(PIX_FMT_BYTES),
           Audio(0, -1, 0, 0, SampleFormat.Invalid, 0), Subtitles(0, 0, -1, -1), CustomRange(0, 0, 0, 0, 0),
           Unsaved(Nuls(256), 0, 0, 0, 0, 0, 0))
  }
}

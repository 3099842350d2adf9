/** The element names of a preset document, told apart. */
module PresetNames {
  import opened PresetGrammar
  import opened PresetPrinting

  datatype Tag =
    | Export | Filename | Format | Range | CustomRangeIn | CustomRangeOut | VideoTag | AudioTag | SubtitlesTag
    | Codec | Width | Height | TimeBase | Divider | PixelAspect | BitRate | MinBitRate | MaxBitRate | BufSize | Threads
    | PixFmt | ImgSeq | VScale | SampleRate | ChannelLayout | Sidecar | SidecarFormat

  function Name(tag: Tag): string {
    match tag
    case Export => "export" case Filename => "filename" case Format => "format" case Range => "range"
    case CustomRangeIn => "customrangein" case CustomRangeOut => "customrangeout" case VideoTag => "video"
    case AudioTag => "audio" case SubtitlesTag => "subtitles" case Codec => "codec" case Width => "width"
    case Height => "height" case TimeBase => "timebase" case Divider => "divider" case PixelAspect => "pixelaspect"
    case BitRate => "bitrate" case MinBitRate => "minbitrate" case MaxBitRate => "maxbitrate" case BufSize => "bufsize"
    case Threads => "threads" case PixFmt => "pixfmt" case ImgSeq => "imgseq" case VScale => "vscale"
    case SampleRate => "samplerate" case ChannelLayout => "channellayout" case Sidecar => "sidecar"
    case SidecarFormat => "sidecarformat"
  }

  /** Length and first two letters tell the names apart. */
  function Key(s: string): (int, char, char) {
    if |s| < 2 then (0, ' ', ' ') else (|s|, s[0], s[1])
  }

  function TagKey(tag: Tag): (int, char, char) {
    match tag
    case Export => (6, 'e', 'x') case Filename => (8, 'f', 'i') case Format => (6, 'f', 'o') case Range => (5, 'r', 'a')
    case CustomRangeIn => (13, 'c', 'u') case CustomRangeOut => (14, 'c', 'u') case VideoTag => (5, 'v', 'i')
    case AudioTag => (5, 'a', 'u') case SubtitlesTag => (9, 's', 'u') case Codec => (5, 'c', 'o')
    case Width => (5, 'w', 'i')
    case Height => (6, 'h', 'e') case TimeBase => (8, 't', 'i') case Divider => (7, 'd', 'i')
    case PixelAspect => (11, 'p', 'i') case BitRate => (7, 'b', 'i') case MinBitRate => (10, 'm', 'i')
    case MaxBitRate => (10, 'm', 'a') case BufSize => (7, 'b', 'u') case Threads => (7, 't', 'h')
    case PixFmt => (6, 'p', 'i') case ImgSeq => (6, 'i', 'm') case VScale => (6, 'v', 's')
    case SampleRate => (10, 's', 'a') case ChannelLayout => (13, 'c', 'h') case Sidecar => (7, 's', 'i')
    case SidecarFormat => (13, 's', 'i')
  }

  lemma NameHasKey(tag: Tag)
    ensures Key(Name(tag)) == TagKey(tag)
  {
  }

  predicate IsVideoTag(tag: Tag) {
    match tag
    case Codec | Width | Height | Format | TimeBase | Divider | PixelAspect | BitRate | MinBitRate | MaxBitRate
      | BufSize | Threads | PixFmt | ImgSeq | VScale => true
    case _ => false
  }

  lemma VideoNameIsName(tag: Tag)
    requires IsVideoTag(tag)
    ensures IsName(Name(tag))
  {
  }

  lemma OtherNameIsName(tag: Tag)
    requires !IsVideoTag(tag)
    ensures IsName(Name(tag))
  {
  }

  lemma NameIsName(tag: Tag)
    ensures IsName(Name(tag))
  {
    if IsVideoTag(tag) { VideoNameIsName(tag); } else { OtherNameIsName(tag); }
  }

  lemma NamesDiffer(a: Tag, b: Tag)
    requires Name(a) == Name(b)
    ensures a == b
  {
    NameHasKey(a);
    NameHasKey(b);
    KeysDiffer(a, b);
  }

  lemma KeysDiffer(a: Tag, b: Tag)
    requires TagKey(a) == TagKey(b)
    ensures a == b
  {
  }
}

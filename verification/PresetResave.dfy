/** Saving, loading and saving again: exactly when the second document is the first. */
module PresetResave {
  import opened Wrappers
  import opened Text
  import opened PresetXml
  import opened PresetGrammar
  import opened PresetPrinting
  import opened XmlEscape
  import opened PresetNames
  import opened PresetDocument
  import opened PresetFile
  import opened PresetRoundTrip

  // ----- documents that read the same -----

  /** No text starts with white space. */
  predicate Trimmed(el: El)
    decreases el
  {
    NoLeadingSpace(TextOf(el)) && AllTrimmed(el.children)
  }

  predicate AllTrimmed(els: seq<El>) {
    els == [] || (Trimmed(els[0]) && AllTrimmed(els[1..]))
  }

  /** Of two trees that read the same the trimmed one prints shorter, unless both are trimmed. */
  lemma {:induction false} TrimmedIsShorter(a: El, b: El)
    requires Printable(a) && Printable(b) && Normal(a) == Normal(b) && Trimmed(b)
    ensures |Print(b)| <= |Print(a)|
    ensures |Print(b)| == |Print(a)| ==> Trimmed(a)
    decreases a
  {
    NormalParts(a);
    NormalParts(b);
    TrimStartShape(TextOf(a));
    TrimStartShape(TextOf(b));
    TrimStartIsShorter(TextOf(a));
    TrimmedAreShorter(a.children, b.children);
    PrintLength(a);
    PrintLength(b);
  }

  lemma {:induction false} TrimmedAreShorter(xs: seq<El>, ys: seq<El>)
    requires AllPrintable(xs) && AllPrintable(ys) && NormalAll(xs) == NormalAll(ys) && AllTrimmed(ys)
    ensures |PrintAll(ys)| <= |PrintAll(xs)| && (xs == [] <==> ys == [])
    ensures |PrintAll(ys)| == |PrintAll(xs)| ==> AllTrimmed(xs)
    decreases xs
  {
    if xs != [] && ys != [] {
      FirstNormal(xs);
      FirstNormal(ys);
      TrimmedIsShorter(xs[0], ys[0]);
      TrimmedAreShorter(xs[1..], ys[1..]);
    }
  }

  lemma FirstNormal(els: seq<El>)
    requires els != []
    ensures NormalAll(els) != [] && NormalAll(els)[0] == Normal(els[0]) && NormalAll(els)[1..] == NormalAll(els[1..])
  {
  }

  lemma NormalParts(el: El)
    requires Printable(el)
    ensures Normal(el).name == el.name && Normal(el).attrs == el.attrs && Normal(el).children == NormalAll(el.children)
    ensures TrimStart(TextOf(el)) == TextOf(Normal(el))
  {
  }

  lemma PrintLength(el: El)
    requires Printable(el)
    ensures |Print(el)| == |OpenTag(el.name, el.attrs)| + |TextOf(el)| + |PrintAll(el.children)| + |CloseTag(el.name)|
  {
  }

  lemma {:induction false} TrimStartIsShorter(s: string)
    ensures |TrimStart(s)| <= |s| && (|TrimStart(s)| == |s| ==> NoLeadingSpace(s))
  {
    if s != "" && IsSpace(s[0]) { TrimStartIsShorter(s[1..]); }
  }

  // ----- the texts of a saved preset -----

  lemma EscapeKeepsLeadingSpace(s: string)
    ensures NoLeadingSpace(Escape(s)) <==> NoLeadingSpace(s)
  {
    TrimStartShape(s);
    TrimStartShape(Escape(s));
    EscapedContent(s);
    UnescapeUndoesEscape(s);
    UnescapeUndoesEscape(TrimStart(s));
  }

  lemma NumericTrimmed(s: string)
    requires Numeric(s)
    ensures NoLeadingSpace(s)
  {
  }

  lemma PrintedTrimmed(n: int)
    ensures NoLeadingSpace(Printed(n))
  {
    PrintedIsNumeric(n);
    NumericTrimmed(Printed(n));
  }

  lemma RatioTrimmed(num: int, den: int)
    ensures NoLeadingSpace(Ratio(num, den))
  {
    RatioIsNumeric(num, den);
    NumericTrimmed(Ratio(num, den));
  }

  /** The only texts that can start with white space. */
  lemma RootTextTrimmed(p: Params, tag: Tag)
    ensures NoLeadingSpace(RootText(p, tag)) <==> tag.Filename? ==> NoLeadingSpace(CStr(p.filename))
  {
    match tag
    case Filename => EscapeKeepsLeadingSpace(CStr(p.filename));
    case Format => PrintedTrimmed(p.format);
    case Range => PrintedTrimmed(p.range.enabled);
    case CustomRangeIn => RatioTrimmed(p.range.inNum, p.range.inDen);
    case CustomRangeOut => RatioTrimmed(p.range.outNum, p.range.outDen);
    case _ =>
  }

  lemma VideoTextTrimmed(v: Video, pixFmt: string, tag: Tag)
    ensures NoLeadingSpace(VideoText(v, pixFmt, tag)) <==> tag.PixFmt? ==> NoLeadingSpace(CStr(pixFmt))
  {
    match tag
    case Codec => PrintedTrimmed(v.codec);
    case Width => PrintedTrimmed(v.width);
    case Height => PrintedTrimmed(v.height);
    case Format => PrintedTrimmed(v.pixelFormat.Code());
    case TimeBase => RatioTrimmed(v.timeBaseNum, v.timeBaseDen);
    case Divider => PrintedTrimmed(v.interlacing);
    case PixelAspect => RatioTrimmed(v.aspectNum, v.aspectDen);
    case BitRate => PrintedTrimmed(v.bitRate);
    case MinBitRate => PrintedTrimmed(v.minBitRate);
    case MaxBitRate => PrintedTrimmed(v.maxBitRate);
    case BufSize => PrintedTrimmed(v.bufferSize);
    case Threads => PrintedTrimmed(v.threads);
    case PixFmt => EscapeKeepsLeadingSpace(CStr(pixFmt));
    case ImgSeq => PrintedTrimmed(v.imageSequence);
    case VScale => PrintedTrimmed(v.scaling.Code());
    case _ =>
  }

  lemma AudioTextTrimmed(a: Audio, tag: Tag)
    ensures NoLeadingSpace(AudioText(a, tag))
  {
    match tag
    case Codec => PrintedTrimmed(a.codec);
    case SampleRate => PrintedTrimmed(a.sampleRate);
    case ChannelLayout => PrintedTrimmed(a.channelLayout);
    case Format => PrintedTrimmed(a.sampleFormat.Code());
    case BitRate => PrintedTrimmed(a.bitRate);
    case _ =>
  }

  lemma SubtitlesTextTrimmed(t: Subtitles, tag: Tag)
    ensures NoLeadingSpace(SubtitlesText(t, tag))
  {
    match tag
    case Sidecar => PrintedTrimmed(t.sidecar);
    case SidecarFormat => PrintedTrimmed(t.sidecarFormat);
    case Codec => PrintedTrimmed(t.codec);
    case _ =>
  }

  /** Whether the text of a leaf is to start with no white space: the file name and the pixel format alone can. */
  predicate FreeOfSpace(from: Section, tag: Tag) {
    match from
    case RootSection(p) => tag.Filename? ==> NoLeadingSpace(CStr(p.filename))
    case VideoSection(_, pixFmt) => tag.PixFmt? ==> NoLeadingSpace(CStr(pixFmt))
    case _ => true
  }

  lemma LeafTrimmed(from: Section, tag: Tag)
    ensures Trimmed(Leaf(from, tag)) <==> FreeOfSpace(from, tag)
  {
    match from
    case RootSection(p) => RootTextTrimmed(p, tag);
    case VideoSection(v, pixFmt) => VideoTextTrimmed(v, pixFmt, tag);
    case AudioSection(a) => AudioTextTrimmed(a, tag);
    case SubtitlesSection(t) => SubtitlesTextTrimmed(t, tag);
  }

  lemma {:induction false} LeavesTrimmed(from: Section, order: seq<Tag>)
    ensures AllTrimmed(Leaves(from, order)) <==> forall tag :: tag in order ==> FreeOfSpace(from, tag)
  {
    if order != [] {
      LeafTrimmed(from, order[0]);
      LeavesTrimmed(from, order[1..]);
      assert Leaves(from, order)[1..] == Leaves(from, order[1..]);
      assert order == [order[0]] + order[1..];
    }
  }

  lemma {:induction false} TrimmedJoins(a: seq<El>, b: seq<El>)
    ensures AllTrimmed(a + b) <==> AllTrimmed(a) && AllTrimmed(b)
  {
    if a == [] {
      assert a + b == b;
    } else {
      TailOfJoin(a, b);
      TrimmedJoins(a[1..], b);
    }
  }

  lemma ThreeTrimmed(a: El, b: El, c: El)
    ensures AllTrimmed([a, b, c]) <==> Trimmed(a) && Trimmed(b) && Trimmed(c)
  {
    TrimmedJoins([a], [b]);
    TrimmedJoins([a] + [b], [c]);
    assert [a] + [b] + [c] == [a, b, c];
    assert AllTrimmed([]);
  }

  lemma LeavesAreThere()
    ensures ImgSeq in VIDEO_ORDER && PixFmt in VIDEO_ORDER && ChannelLayout in AUDIO_ORDER
    ensures Sidecar in SUBTITLES_ORDER && Filename in ROOT_ORDER
  {
    assert VIDEO_ORDER[13] == ImgSeq && VIDEO_ORDER[12] == PixFmt && AUDIO_ORDER[2] == ChannelLayout;
    assert SUBTITLES_ORDER[0] == Sidecar && ROOT_ORDER[0] == Filename;
  }

  lemma VideoTrimmed(v: Video, pixFmt: string, order: seq<Tag>)
    requires PixFmt in order
    ensures Trimmed(SectionEl(VideoTag, v.enabled, Leaves(VideoSection(v, pixFmt), order)))
      <==> (v.enabled != 0 ==> NoLeadingSpace(CStr(pixFmt)))
  {
    LeavesTrimmed(VideoSection(v, pixFmt), order);
    assert FreeOfSpace(VideoSection(v, pixFmt), PixFmt) <==> NoLeadingSpace(CStr(pixFmt));
  }

  lemma SectionTrimmed(tag: Tag, enabled: int, from: Section, order: seq<Tag>)
    requires from.AudioSection? || from.SubtitlesSection?
    ensures Trimmed(SectionEl(tag, enabled, Leaves(from, order)))
  {
    LeavesTrimmed(from, order);
  }

  lemma RootLeavesTrimmed(p: Params, order: seq<Tag>)
    requires Filename in order
    ensures AllTrimmed(Leaves(RootSection(p), order)) <==> NoLeadingSpace(CStr(p.filename))
  {
    LeavesTrimmed(RootSection(p), order);
    assert FreeOfSpace(RootSection(p), Filename) <==> NoLeadingSpace(CStr(p.filename));
  }

  /** The document is trimmed exactly when the saved strings are. */
  lemma TreeTrimmed(p: Params)
    ensures Trimmed(Tree(p)) <==>
      NoLeadingSpace(CStr(p.filename)) && (p.video.enabled != 0 ==> NoLeadingSpace(CStr(p.pixFmt)))
  {
    var v, a, t := VideoEl(p.video, p.pixFmt), AudioEl(p.audio), SubtitlesEl(p.subtitles);
    LeavesAreThere();
    RootLeavesTrimmed(p, ROOT_ORDER);
    VideoTrimmed(p.video, p.pixFmt, VIDEO_ORDER);
    SectionTrimmed(AudioTag, p.audio.enabled, AudioSection(p.audio), AUDIO_ORDER);
    SectionTrimmed(SubtitlesTag, p.subtitles.enabled, SubtitlesSection(p.subtitles), SUBTITLES_ORDER);
    ThreeTrimmed(v, a, t);
    TrimmedJoins(Leaves(RootSection(p), ROOT_ORDER), [v, a, t]);
  }

  // ----- numbers that print alike -----

  lemma PrintedIsInjective(m: int, n: int)
    requires Printed(m) == Printed(n)
    ensures m == n
  {
    ParseOfAnyPrinted(m, m, m);
    ParseOfAnyPrinted(n, m, m);
  }

  /** A number leaf reads as the number printed. */
  lemma NumberLookedUp(el: El, from: Section, order: seq<Tag>, tag: Tag, n: int)
    requires Holds(el, from, order) && tag in order && LeafText(from, tag) == Printed(n)
    ensures Lookup(el, tag) == Some(Printed(n))
  {
    LookedUp(el, from, order, tag);
    PrintedIsNumeric(n);
    NumericIsKept(Printed(n));
  }

  lemma SameEnabled(tag: Tag, m: int, n: int, xs: seq<El>, ys: seq<El>)
    requires Normal(SectionEl(tag, m, xs)) == Normal(SectionEl(tag, n, ys))
    ensures m == n
  {
    assert Normal(SectionEl(tag, m, xs)).attrs[0].value == Printed(m);
    assert Normal(SectionEl(tag, n, ys)).attrs[0].value == Printed(n);
    PrintedIsInjective(m, n);
  }

  lemma SameNumber(el: El, x: Section, y: Section, order: seq<Tag>, leaf: Tag, i: int, j: int)
    requires Holds(el, x, order) && Holds(el, y, order) && leaf in order
    requires LeafText(x, leaf) == Printed(i) && LeafText(y, leaf) == Printed(j)
    ensures i == j
  {
    NumberLookedUp(el, x, order, leaf, i);
    NumberLookedUp(el, y, order, leaf, j);
    PrintedIsInjective(i, j);
  }

  /** Sections `x` and `y`, enabled by `m` and `n`, that read the same hold the same number in a leaf. */
  lemma SameSection(tag: Tag, x: Section, y: Section, m: int, n: int, order: seq<Tag>, leaf: Tag, i: int, j: int)
    requires Normal(SectionEl(tag, m, Leaves(x, order))) == Normal(SectionEl(tag, n, Leaves(y, order)))
    requires leaf in order && LeafText(x, leaf) == Printed(i) && LeafText(y, leaf) == Printed(j)
    ensures m == n && (m != 0 ==> i == j)
  {
    SameEnabled(tag, m, n, Leaves(x, order), Leaves(y, order));
    if m != 0 { SameNumber(Normal(SectionEl(tag, m, Leaves(x, order))), x, y, order, leaf, i, j); }
  }

  lemma SameVideoFlags(a: Video, b: Video, aFmt: string, bFmt: string, order: seq<Tag>)
    requires Normal(SectionEl(VideoTag, a.enabled, Leaves(VideoSection(a, aFmt), order)))
      == Normal(SectionEl(VideoTag, b.enabled, Leaves(VideoSection(b, bFmt), order)))
    requires ImgSeq in order
    ensures a.enabled == b.enabled && (a.enabled != 0 ==> a.imageSequence == b.imageSequence)
  {
    SameSection(VideoTag, VideoSection(a, aFmt), VideoSection(b, bFmt), a.enabled, b.enabled, order, ImgSeq,
        a.imageSequence, b.imageSequence);
  }

  lemma SameAudioLayout(a: Audio, b: Audio, order: seq<Tag>)
    requires Normal(SectionEl(AudioTag, a.enabled, Leaves(AudioSection(a), order)))
      == Normal(SectionEl(AudioTag, b.enabled, Leaves(AudioSection(b), order)))
    requires ChannelLayout in order
    ensures a.enabled == b.enabled && (a.enabled != 0 ==> a.channelLayout == b.channelLayout)
  {
    SameSection(AudioTag, AudioSection(a), AudioSection(b), a.enabled, b.enabled, order, ChannelLayout,
        a.channelLayout, b.channelLayout);
  }

  lemma SameSidecar(a: Subtitles, b: Subtitles, order: seq<Tag>)
    requires Normal(SectionEl(SubtitlesTag, a.enabled, Leaves(SubtitlesSection(a), order)))
      == Normal(SectionEl(SubtitlesTag, b.enabled, Leaves(SubtitlesSection(b), order)))
    requires Sidecar in order
    ensures a.enabled == b.enabled && (a.enabled != 0 ==> a.sidecar == b.sidecar)
  {
    SameSection(SubtitlesTag, SubtitlesSection(a), SubtitlesSection(b), a.enabled, b.enabled, order, Sidecar,
        a.sidecar, b.sidecar);
  }

  /** Parameters whose documents read the same have the same flags and the same channel layout. */
  lemma SameFlags(p: Params, r: Params, root: El)
    requires root == Normal(Tree(p)) && root == Normal(Tree(r))
    ensures p.video.enabled == r.video.enabled && p.audio.enabled == r.audio.enabled
    ensures p.subtitles.enabled == r.subtitles.enabled
    ensures p.video.enabled != 0 ==> p.video.imageSequence == r.video.imageSequence
    ensures p.audio.enabled != 0 ==> p.audio.channelLayout == r.audio.channelLayout
    ensures p.subtitles.enabled != 0 ==> p.subtitles.sidecar == r.subtitles.sidecar
  {
    RootSectionsRead(p, root);
    RootSectionsRead(r, root);
    LeavesAreThere();
    SameVideoFlags(p.video, r.video, p.pixFmt, r.pixFmt, VIDEO_ORDER);
    SameAudioLayout(p.audio, r.audio, AUDIO_ORDER);
    SameSidecar(p.subtitles, r.subtitles, SUBTITLES_ORDER);
  }

  // ----- the theorem -----

  lemma SameDocumentReadsTheSame(p: Params, r: Params)
    requires Print(Tree(p)) == Print(Tree(r))
    ensures Normal(Tree(p)) == Normal(Tree(r))
  {
    var data := Print(Tree(p));
    TreePrintable(p);
    TreePrintable(r);
    ParsesPrinted(data, 0, Tree(p));
    ParsesPrinted(data, 0, Tree(r));
  }

  /** The same document from normalised parameters means they were normalised to begin with. */
  lemma SameDocumentIsNormalized(p: Params, r: Params)
    requires Print(Tree(p)) == Print(Tree(r)) && Normalized(r)
    ensures Normalized(p)
  {
    SameDocumentReadsTheSame(p, r);
    SameFlags(p, r, Normal(Tree(p)));
    TreePrintable(p);
    TreePrintable(r);
    TreeTrimmed(r);
    TrimmedIsShorter(Tree(p), Tree(r));
    TreeTrimmed(p);
  }

  /**
   * Save, load, save, with a target of the same custom range: the second document is the first
   * exactly when the parameters were normalised. Any preset that was loaded once is.
   */
  lemma SaveLoadSave(p: Params, target: Params)
    requires Valid(p) && Valid(target) && target.range == p.range
    ensures Print(Tree(Restored(p, target))) == Print(Tree(p)) <==> Normalized(p)
  {
    var r := Restored(p, target);
    RestoredIsNormalized(p, target);
    if Normalized(p) {
      RoundTripExactlyNormalized(p, target);
      SameSettingsSameDocument(p, r);
    }
    if Print(Tree(r)) == Print(Tree(p)) { SameDocumentIsNormalized(p, r); }
  }
}

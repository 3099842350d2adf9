/**
 * Every way to write a preset element, as text, and that the parser reads exactly these: a
 * document is accepted if and only if it begins with a legal form, and its tree is the form's.
 */
module PresetGrammar {
  import opened Wrappers
  import opened Text
  import opened PresetXml

  /** An attribute with the white space around its parts; the equals sign may be left out. */
  datatype AttrForm =
    AttrForm(before: string, key: string, mid: string, equals: bool, after: string, value: string)

  /** An element with the white space in front of it and before the end of its start tag. */
  datatype Form = Form(before: string, name: string, attrs: seq<AttrForm>, last: string, rest: Rest)

  /** What follows the start tag's attributes; `end` is the white space inside the end tag. */
  datatype Rest =
    | Closed
    | Kids(kids: seq<Form>, blank: string, end: string)
    | Words(blank: string, words: string, end: string)

  // ----- the text of a form -----

  function Quoted(after: string, value: string): string {
    after + ("\"" + (value + "\""))
  }

  function AttrCore(a: AttrForm): string {
    a.key + (a.mid + ((if a.equals then "=" else "") + Quoted(a.after, a.value)))
  }

  function WrittenAttrs(attrs: seq<AttrForm>): string {
    if attrs == [] then "" else attrs[0].before + (AttrCore(attrs[0]) + WrittenAttrs(attrs[1..]))
  }

  function EndTagText(name: string, end: string): string {
    "</" + (name + (end + ">"))
  }

  function WrittenRest(name: string, rest: Rest): string
    decreases rest, 0
  {
    match rest
    case Closed => "/>"
    case Kids(kids, blank, end) => ">" + (WrittenAll(kids) + (blank + EndTagText(name, end)))
    case Words(blank, words, end) => ">" + (blank + (words + EndTagText(name, end)))
  }

  function Written(f: Form): string
    decreases f, 0
  {
    f.before + ("<" + (f.name + (WrittenAttrs(f.attrs) + (f.last + WrittenRest(f.name, f.rest)))))
  }

  function WrittenAll(fs: seq<Form>): string {
    if fs == [] then "" else Written(fs[0]) + WrittenAll(fs[1..])
  }

  // ----- which forms are legal -----

  predicate AllSpaces(s: string) {
    forall i :: 0 <= i < |s| ==> s[i] == ' ' || '\t' <= s[i] <= '\r'
  }

  predicate IsName(name: string) {
    name != "" && forall i :: 0 <= i < |name| ==>
      'a' <= name[i] <= 'z' || 'A' <= name[i] <= 'Z' || '0' <= name[i] <= '9' || name[i] == '_' || name[i] == '-'
  }

  predicate Lacks(s: string, c: char) {
    forall i :: 0 <= i < |s| ==> s[i] != c
  }

  predicate LegalAttr(a: AttrForm) {
    && AllSpaces(a.before) && IsName(a.key) && AllSpaces(a.mid) && AllSpaces(a.after) && Lacks(a.value, '"')
    && (a.equals || a.after == "")
  }

  predicate LegalAttrs(attrs: seq<AttrForm>) {
    attrs == [] || (LegalAttr(attrs[0]) && LegalAttrs(attrs[1..]))
  }

  /** White space parts the element's name from the first attribute, and text starts with neither a space nor a tag. */
  predicate LegalStart(f: Form) {
    && AllSpaces(f.before) && IsName(f.name) && LegalAttrs(f.attrs) && AllSpaces(f.last)
    && (f.attrs != [] ==> f.attrs[0].before != "")
  }

  predicate Legal(f: Form)
    decreases f, 0
  {
    LegalStart(f) && LegalRest(f.rest)
  }

  predicate LegalRest(rest: Rest)
    decreases rest, 0
  {
    match rest
    case Closed => true
    case Kids(kids, blank, end) => AllLegal(kids) && AllSpaces(blank) && AllSpaces(end)
    case Words(blank, words, end) =>
      AllSpaces(blank) && words != "" && !AllSpaces(words[..1]) && Lacks(words, '<') && AllSpaces(end)
  }

  predicate AllLegal(fs: seq<Form>) {
    fs == [] || (Legal(fs[0]) && AllLegal(fs[1..]))
  }

  // ----- the tree of a form -----

  function AttrsOf(attrs: seq<AttrForm>): seq<Attr> {
    if attrs == [] then [] else [Attr(attrs[0].key, attrs[0].value)] + AttrsOf(attrs[1..])
  }

  function FormTree(f: Form): El
    decreases f, 0
  {
    TreeOf(f.name, AttrsOf(f.attrs), f.rest)
  }

  function TreeOf(name: string, attrs: seq<Attr>, rest: Rest): El
    decreases rest, 0
  {
    match rest
    case Closed => El(name, attrs, None, [])
    case Kids(kids, _, _) => El(name, attrs, None, Trees(kids))
    case Words(_, words, _) => El(name, attrs, Some(words), [])
  }

  function Trees(fs: seq<Form>): seq<El> {
    if fs == [] then [] else [FormTree(fs[0])] + Trees(fs[1..])
  }

  // ----- reading what stands at a position -----

  /** `t` stands at position `i` of `s`. */
  predicate At(s: string, i: nat, t: string) {
    i + |t| <= |s| && forall k :: 0 <= k < |t| ==> s[i + k] == t[k]
  }

  lemma AtSplits(s: string, i: nat, a: string, b: string)
    requires At(s, i, a + b)
    ensures At(s, i, a) && At(s, i + |a|, b)
  {
    forall k | 0 <= k < |a| ensures s[i + k] == a[k] {
      assert (a + b)[k] == a[k];
    }
    forall k | 0 <= k < |b| ensures s[i + |a| + k] == b[k] {
      assert (a + b)[|a| + k] == b[k];
    }
  }

  lemma AtSplits3(s: string, i: nat, a: string, b: string, c: string)
    requires At(s, i, a + (b + c))
    ensures At(s, i, a) && At(s, i + |a|, b) && At(s, i + |a| + |b|, c)
  {
    AtSplits(s, i, a, b + c);
    AtSplits(s, i + |a|, b, c);
  }

  lemma AtIsSlice(s: string, i: nat, t: string)
    requires At(s, i, t)
    ensures s[i..i + |t|] == t
  {
  }

  lemma AtHas(s: string, i: nat, t: string, k: nat)
    requires At(s, i, t) && k < |t|
    ensures i + k < |s| && s[i + k] == t[k]
  {
  }

  lemma {:induction false} SkipsSpaces(s: string, i: nat, end: nat)
    requires i <= end <= |s| && (forall k :: i <= k < end ==> IsSpace(s[k])) && (end < |s| ==> !IsSpace(s[end]))
    ensures SkipWs(s, i) == end
    decreases end - i
  {
    if i < end { SkipsSpaces(s, i + 1, end); }
  }

  lemma {:induction false} NameEndsAt(s: string, i: nat, end: nat)
    requires i <= end < |s| && (forall k :: i <= k < end ==> IsNameChar(s[k])) && !IsNameChar(s[end])
    ensures NameEnd(s, i) == end
    decreases end - i
  {
    if i < end { NameEndsAt(s, i + 1, end); }
  }

  lemma {:induction false} UntilStopsAt(s: string, i: nat, end: nat, c: char)
    requires i <= end < |s| && (forall k :: i <= k < end ==> s[k] != c) && s[end] == c
    ensures Until(s, i, c) == end
    decreases end - i
  {
    if i < end { UntilStopsAt(s, i + 1, end, c); }
  }

  /** White space is skipped up to the next character. */
  lemma SkipsBlank(s: string, i: nat, blank: string, end: nat)
    requires At(s, i, blank) && AllSpaces(blank) && end == i + |blank| < |s| && !IsSpace(s[end])
    ensures SkipWs(s, i) == end
  {
    forall k | i <= k < end ensures IsSpace(s[k]) {
      AtHas(s, i, blank, k - i);
    }
    SkipsSpaces(s, i, end);
  }

  /** A name is read up to the first character that is none of a name's. */
  lemma ReadsName(s: string, i: nat, name: string, end: nat)
    requires IsName(name) && At(s, i, name) && end == i + |name| < |s| && !IsNameChar(s[end])
    ensures ReadName(s, i) == Text(name, end)
  {
    forall k | i <= k < end ensures IsNameChar(s[k]) {
      AtHas(s, i, name, k - i);
    }
    NameEndsAt(s, i, end);
    AtIsSlice(s, i, name);
  }

  lemma ReadsQuoted(s: string, i: nat, after: string, value: string, end: nat)
    requires AllSpaces(after) && Lacks(value, '"') && At(s, i, Quoted(after, value))
    requires end == i + |Quoted(after, value)|
    ensures ReadAttrValue(s, i) == Text(value, end)
  {
    var j := i + |after|;
    QuotedParts(s, i, after, value);
    SkipsBlank(s, i, after, j);
    UntilBehind(s, j + 1, value, '"', end - 1);
    AtIsSlice(s, j + 1, value);
  }

  lemma QuotedParts(s: string, i: nat, after: string, value: string)
    requires At(s, i, Quoted(after, value))
    ensures At(s, i, after) && Is(s, i + |after|, '"') && At(s, i + |after| + 1, value)
    ensures Is(s, i + |after| + 1 + |value|, '"') && |Quoted(after, value)| == |after| + |value| + 2
  {
    AtSplits3(s, i, after, "\"", value + "\"");
    AtSplits(s, i + |after| + 1, value, "\"");
    AtHas(s, i + |after|, "\"", 0);
    AtHas(s, i + |after| + 1 + |value|, "\"", 0);
  }

  lemma UntilBehind(s: string, i: nat, t: string, c: char, end: nat)
    requires At(s, i, t) && Lacks(t, c) && end == i + |t| && Is(s, end, c)
    ensures Until(s, i, c) == end && forall k :: i <= k < end ==> s[k] != c
  {
    forall k | i <= k < end ensures s[k] != c {
      AtHas(s, i, t, k - i);
    }
    UntilStopsAt(s, i, end, c);
  }

  /** A quoted value starts with white space or the quote. */
  lemma QuotedStarts(s: string, i: nat, after: string, value: string)
    requires AllSpaces(after) && At(s, i, Quoted(after, value))
    ensures i < |s| && (if after == "" then s[i] == '"' else IsSpace(s[i]))
  {
    QuotedParts(s, i, after, value);
    if after != "" { AtHas(s, i, after, 0); }
  }

  /** The text between an attribute's key and its value. */
  function Joint(a: AttrForm): string {
    a.mid + ((if a.equals then "=" else "") + Quoted(a.after, a.value))
  }

  /** Behind the key, white space and the equals sign are passed over. */
  lemma ReadsJoint(s: string, i: nat, a: AttrForm, end: nat)
    requires LegalAttr(a) && At(s, i, Joint(a)) && end == i + |Joint(a)|
    ensures i < |s| && !IsNameChar(s[i]) && JointEnds(s, i, a.value, end)
  {
    if a.equals {
      WithEquals(s, i, a.mid, a.after, a.value, end);
    } else {
      assert Joint(a) == a.mid + Quoted("", a.value);
      WithoutEquals(s, i, a.mid, a.value, end);
    }
  }

  predicate JointEnds(s: string, i: nat, value: string, end: nat)
    requires i <= |s|
  {
    var k := SkipWs(s, i);
    ReadAttrValue(s, if Is(s, k, '=') then k + 1 else k) == Text(value, end)
  }

  lemma WithEquals(s: string, i: nat, mid: string, after: string, value: string, end: nat)
    requires AllSpaces(mid) && AllSpaces(after) && Lacks(value, '"')
    requires At(s, i, mid + ("=" + Quoted(after, value))) && end == i + |mid| + 1 + |Quoted(after, value)|
    ensures i < |s| && !IsNameChar(s[i]) && JointEnds(s, i, value, end)
  {
    var k := i + |mid|;
    AtSplits3(s, i, mid, "=", Quoted(after, value));
    if mid != "" { AtHas(s, i, mid, 0); }
    AtHas(s, k, "=", 0);
    SkipsBlank(s, i, mid, k);
    ReadsQuoted(s, k + 1, after, value, end);
  }

  lemma WithoutEquals(s: string, i: nat, mid: string, value: string, end: nat)
    requires AllSpaces(mid) && Lacks(value, '"')
    requires At(s, i, mid + Quoted("", value)) && end == i + |mid| + |Quoted("", value)|
    ensures i < |s| && !IsNameChar(s[i]) && JointEnds(s, i, value, end)
  {
    var k := i + |mid|;
    AtSplits(s, i, mid, Quoted("", value));
    if mid != "" { AtHas(s, i, mid, 0); }
    QuotedStarts(s, k, "", value);
    SkipsBlank(s, i, mid, k);
    ReadsQuoted(s, k, "", value, end);
  }

  lemma ReadsCore(s: string, i: nat, a: AttrForm, end: nat)
    requires LegalAttr(a) && At(s, i, AttrCore(a)) && end == i + |AttrCore(a)|
    ensures ReadAttr(s, i) == Attribute(Attr(a.key, a.value), end) && IsNameChar(s[i])
  {
    var k := i + |a.key|;
    AtSplits(s, i, a.key, Joint(a));
    AtHas(s, i, a.key, 0);
    ReadsJoint(s, k, a, end);
    ReadsName(s, i, a.key, k);
    CoreStep(s, i, a.key, k, a.value, end);
  }

  lemma CoreStep(s: string, i: nat, key: string, k: nat, value: string, end: nat)
    requires i <= |s| && k <= |s| && ReadName(s, i) == Text(key, k) && JointEnds(s, k, value, end)
    ensures ReadAttr(s, i) == Attribute(Attr(key, value), end)
  {
  }

  /** The end of a start tag stands at `i`: "/>" or ">". */
  predicate TagEnds(s: string, i: nat, closed: bool) {
    if closed then Are(s, i, '/', '>') else Is(s, i, '>')
  }

  lemma ReadsTagEnd(s: string, i: nat, last: string, closed: bool, before: seq<Attr>)
    requires AllSpaces(last) && At(s, i, last) && TagEnds(s, i + |last|, closed)
    ensures ParseAttrs(s, i, before) == Head(before, closed, i + |last| + if closed then 2 else 1)
  {
    SkipsBlank(s, i, last, i + |last|);
  }

  lemma AttrStep(s: string, i: nat, a: AttrForm, before: seq<Attr>, next: nat)
    requires LegalAttr(a) && At(s, i, a.before) && At(s, i + |a.before|, AttrCore(a))
    requires next == i + |a.before| + |AttrCore(a)|
    ensures ParseAttrs(s, i, before) == ParseAttrs(s, next, before + [Attr(a.key, a.value)])
  {
    var j := i + |a.before|;
    ReadsCore(s, j, a, next);
    SkipsBlank(s, i, a.before, j);
  }

  lemma MoveFirst<T>(before: seq<T>, first: T, rest: seq<T>)
    ensures before + [first] + rest == before + ([first] + rest)
  {
  }

  /** Reading the first of the attributes leaves the others. */
  lemma FirstAttr(s: string, i: nat, attrs: seq<AttrForm>, before: seq<Attr>) returns (a: Attr, next: nat)
    requires attrs != [] && LegalAttrs(attrs) && At(s, i, WrittenAttrs(attrs))
    ensures next <= |s| && ParseAttrs(s, i, before) == ParseAttrs(s, next, before + [a])
    ensures At(s, next, WrittenAttrs(attrs[1..])) && next + |WrittenAttrs(attrs[1..])| == i + |WrittenAttrs(attrs)|
    ensures AttrsOf(attrs) == [a] + AttrsOf(attrs[1..])
  {
    a, next := Attr(attrs[0].key, attrs[0].value), i + |attrs[0].before| + |AttrCore(attrs[0])|;
    AtSplits3(s, i, attrs[0].before, AttrCore(attrs[0]), WrittenAttrs(attrs[1..]));
    AttrStep(s, i, attrs[0], before, next);
  }

  /** Attributes are read one by one up to the end of the tag. */
  lemma {:induction false} ReadsAttrs(s: string, i: nat, attrs: seq<AttrForm>, last: string, closed: bool,
                                      before: seq<Attr>, end: nat)
    requires LegalAttrs(attrs) && At(s, i, WrittenAttrs(attrs)) && end == i + |WrittenAttrs(attrs)|
    requires AllSpaces(last) && At(s, end, last) && TagEnds(s, end + |last|, closed)
    ensures ParseAttrs(s, i, before) == Head(before + AttrsOf(attrs), closed, end + |last| + if closed then 2 else 1)
    decreases |attrs|
  {
    if attrs == [] {
      assert before + AttrsOf(attrs) == before;
      ReadsTagEnd(s, i, last, closed, before);
    } else {
      var a, next := FirstAttr(s, i, attrs, before);
      MoveFirst(before, a, AttrsOf(attrs[1..]));
      ReadsAttrs(s, next, attrs[1..], last, closed, before + [a], end);
    }
  }

  lemma AttrsStart(s: string, i: nat, attrs: seq<AttrForm>, last: string, closed: bool, end: nat)
    requires LegalAttrs(attrs) && At(s, i, WrittenAttrs(attrs)) && end == i + |WrittenAttrs(attrs)|
    requires AllSpaces(last) && At(s, end, last) && TagEnds(s, end + |last|, closed)
    requires attrs != [] ==> attrs[0].before != ""
    ensures i < |s| && !IsNameChar(s[i])
  {
    if attrs != [] {
      AtSplits(s, i, attrs[0].before, AttrCore(attrs[0]) + WrittenAttrs(attrs[1..]));
      AtHas(s, i, attrs[0].before, 0);
    } else if last != "" {
      AtHas(s, i, last, 0);
    }
  }

  // ----- elements -----

  /** What stands before the end of the start tag. */
  function StartText(f: Form): string {
    "<" + (f.name + (WrittenAttrs(f.attrs) + f.last))
  }

  lemma WrittenParts(s: string, i: nat, f: Form)
    requires At(s, i, Written(f))
    ensures At(s, i, f.before) && At(s, i + |f.before|, StartText(f))
    ensures At(s, i + |f.before| + |StartText(f)|, WrittenRest(f.name, f.rest))
    ensures |Written(f)| == |f.before| + |StartText(f)| + |WrittenRest(f.name, f.rest)|
  {
    WrittenIsParts(f);
    AtSplits3(s, i, f.before, StartText(f), WrittenRest(f.name, f.rest));
  }

  lemma WrittenIsParts(f: Form)
    ensures Written(f) == f.before + (StartText(f) + WrittenRest(f.name, f.rest))
  {
    var attrs, rest := WrittenAttrs(f.attrs), WrittenRest(f.name, f.rest);
    assert "<" + (f.name + (attrs + (f.last + rest))) == ("<" + (f.name + (attrs + f.last))) + rest;
  }

  lemma StartParts(s: string, i: nat, f: Form)
    requires At(s, i, StartText(f))
    ensures Is(s, i, '<') && At(s, i + 1, f.name) && At(s, i + 1 + |f.name|, WrittenAttrs(f.attrs))
    ensures At(s, i + 1 + |f.name| + |WrittenAttrs(f.attrs)|, f.last)
    ensures |StartText(f)| == 1 + |f.name| + |WrittenAttrs(f.attrs)| + |f.last|
  {
    AtSplits(s, i, "<", f.name + (WrittenAttrs(f.attrs) + f.last));
    AtHas(s, i, "<", 0);
    AtSplits3(s, i + 1, f.name, WrittenAttrs(f.attrs), f.last);
  }

  /** The start of an element is read up to the end of its start tag. */
  lemma ReadsStart(s: string, i: nat, f: Form, closed: bool, end: nat, nameEnd: nat, next: nat)
    requires LegalStart(f) && At(s, i, StartText(f)) && end == i + |StartText(f)| && TagEnds(s, end, closed)
    requires nameEnd == i + 1 + |f.name| && next == end + if closed then 2 else 1
    ensures Is(s, i, '<') && nameEnd <= |s| && ReadName(s, i + 1) == Text(f.name, nameEnd)
    ensures ParseAttrs(s, nameEnd, []) == Head(AttrsOf(f.attrs), closed, next)
  {
    StartParts(s, i, f);
    ReadsAllAttrs(s, nameEnd, f.attrs, f.last, closed, end, next);
    ReadsName(s, i + 1, f.name, nameEnd);
  }

  lemma ReadsAllAttrs(s: string, i: nat, attrs: seq<AttrForm>, last: string, closed: bool, end: nat, next: nat)
    requires LegalAttrs(attrs) && At(s, i, WrittenAttrs(attrs)) && end == i + |WrittenAttrs(attrs)| + |last|
    requires AllSpaces(last) && At(s, end - |last|, last) && TagEnds(s, end, closed)
    requires (attrs != [] ==> attrs[0].before != "") && next == end + if closed then 2 else 1
    ensures i < |s| && !IsNameChar(s[i]) && ParseAttrs(s, i, []) == Head(AttrsOf(attrs), closed, next)
  {
    AttrsStart(s, i, attrs, last, closed, end - |last|);
    assert [] + AttrsOf(attrs) == AttrsOf(attrs);
    ReadsAttrs(s, i, attrs, last, closed, [], end - |last|);
  }

  lemma ClosedStep(s: string, i: nat, j: nat, name: string, nameEnd: nat, attrs: seq<Attr>, end: nat)
    requires i <= j <= |s| && SkipWs(s, i) == j && Is(s, j, '<') && ReadName(s, j + 1) == Text(name, nameEnd)
    requires nameEnd <= |s| && ParseAttrs(s, nameEnd, []) == Head(attrs, true, end)
    ensures ParseElement(s, i) == Element(El(name, attrs, None, []), end)
  {
  }

  lemma OpenStep(s: string, i: nat, j: nat, name: string, nameEnd: nat, attrs: seq<Attr>, end: nat)
    requires i <= j <= |s| && SkipWs(s, i) == j && Is(s, j, '<') && ReadName(s, j + 1) == Text(name, nameEnd)
    requires nameEnd <= |s| && end <= |s| && ParseAttrs(s, nameEnd, []) == Head(attrs, false, end)
    ensures ParseElement(s, i) == ParseContent(s, end, name, attrs)
  {
  }

  /** An end tag, white space in front of it included. */
  lemma ReadsEnd(s: string, i: nat, blank: string, name: string, end: string, next: nat)
    requires AllSpaces(blank) && IsName(name) && AllSpaces(end) && At(s, i, blank)
    requires At(s, i + |blank|, EndTagText(name, end)) && next == i + |blank| + |EndTagText(name, end)|
    ensures Are(s, i + |blank|, '<', '/') && SkipWs(s, i) == i + |blank| && ExpectEnd(s, i, name) == EndTag(next)
  {
    var j := i + |blank|;
    EndTagParts(s, j, name, end);
    SkipsBlank(s, i, blank, j);
    ReadsEndName(s, j + 2, name, end, next - 1);
    EndStep(s, i, j, name, j + 2 + |name|, next - 1);
  }

  lemma ReadsEndName(s: string, i: nat, name: string, end: string, close: nat)
    requires IsName(name) && AllSpaces(end) && At(s, i, name) && At(s, i + |name|, end)
    requires close == i + |name| + |end| && Is(s, close, '>')
    ensures ReadName(s, i) == Text(name, i + |name|) && SkipWs(s, i + |name|) == close
  {
    if end != "" { AtHas(s, i + |name|, end, 0); }
    ReadsName(s, i, name, i + |name|);
    SkipsBlank(s, i + |name|, end, close);
  }

  lemma EndStep(s: string, i: nat, j: nat, name: string, nameEnd: nat, close: nat)
    requires i <= j <= |s| && SkipWs(s, i) == j && Are(s, j, '<', '/') && ReadName(s, j + 2) == Text(name, nameEnd)
    requires nameEnd <= |s| && SkipWs(s, nameEnd) == close && Is(s, close, '>')
    ensures ExpectEnd(s, i, name) == EndTag(close + 1)
  {
  }

  lemma EndTagParts(s: string, i: nat, name: string, end: string)
    requires At(s, i, EndTagText(name, end))
    ensures Are(s, i, '<', '/') && At(s, i + 2, name) && At(s, i + 2 + |name|, end)
    ensures Is(s, i + 2 + |name| + |end|, '>') && |EndTagText(name, end)| == 3 + |name| + |end|
  {
    AtSplits(s, i, "</", name + (end + ">"));
    AtSplits3(s, i + 2, name, end, ">");
    AtHas(s, i, "</", 0);
    AtHas(s, i, "</", 1);
    AtHas(s, i + 2 + |name| + |end|, ">", 0);
  }

  /** Text is kept from its first character that is no white space up to the end tag. */
  lemma ReadsWords(s: string, i: nat, name: string, attrs: seq<Attr>, blank: string, words: string, end: string,
                   next: nat)
    requires IsName(name) && AllSpaces(blank) && AllSpaces(end)
    requires words != "" && !AllSpaces(words[..1]) && Lacks(words, '<')
    requires At(s, i, blank + (words + EndTagText(name, end)))
    requires next == i + |blank + (words + EndTagText(name, end))|
    ensures ParseContent(s, i, name, attrs) == Element(El(name, attrs, Some(words), []), next)
  {
    var k, t := i + |blank|, i + |blank| + |words|;
    AtSplits3(s, i, blank, words, EndTagText(name, end));
    AtHas(s, k, words, 0);
    SkipsBlank(s, i, blank, k);
    ReadsEnd(s, t, "", name, end, next);
    AtIsSlice(s, k, words);
    UntilBehind(s, k, words, '<', t);
    WordsStep(s, i, name, attrs, k, t, next);
  }

  lemma WordsStep(s: string, i: nat, name: string, attrs: seq<Attr>, k: nat, t: nat, next: nat)
    requires i <= k < t < |s| && SkipWs(s, i) == k && Is(s, t, '<') && forall j :: k <= j < t ==> s[j] != '<'
    requires ExpectEnd(s, t, name) == EndTag(next)
    ensures ParseContent(s, i, name, attrs) == Element(El(name, attrs, Some(s[k..t]), []), next)
  {
    UntilStopsAt(s, k, t, '<');
  }

  lemma KidsStep(s: string, i: nat, name: string, attrs: seq<Attr>, k: nat, children: seq<El>, end: nat, next: nat)
    requires i <= k <= |s| && SkipWs(s, i) == k && Is(s, k, '<') && ParseChildren(s, k, []) == Children(children, end)
    requires end <= |s| && ExpectEnd(s, end, name) == EndTag(next)
    ensures ParseContent(s, i, name, attrs) == Element(El(name, attrs, None, children), next)
  {
  }

  lemma {:induction false} SkipTwice(s: string, i: nat)
    requires i <= |s|
    ensures SkipWs(s, SkipWs(s, i)) == SkipWs(s, i)
    decreases |s| - i
  {
    if i < |s| && IsSpace(s[i]) { SkipTwice(s, i + 1); }
  }

  /** An element or children may be read from before or behind the white space in front. */
  lemma BehindBlank(s: string, i: nat, k: nat, before: seq<El>)
    requires i <= k <= |s| && SkipWs(s, i) == k
    ensures ParseChildren(s, i, before) == ParseChildren(s, k, before) && ParseElement(s, i) == ParseElement(s, k)
  {
    SkipTwice(s, i);
  }

  lemma NoMore(s: string, i: nat, k: nat, before: seq<El>)
    requires i <= k <= |s| && SkipWs(s, i) == k && Are(s, k, '<', '/')
    ensures ParseChildren(s, i, before) == Children(before, k)
  {
  }

  lemma OneMore(s: string, i: nat, k: nat, before: seq<El>, el: El, next: nat)
    requires i <= k <= |s| && SkipWs(s, i) == k && Is(s, k, '<') && !Is(s, k + 1, '/') && next <= |s|
    requires ParseElement(s, i) == Element(el, next)
    ensures ParseChildren(s, i, before) == ParseChildren(s, next, before + [el])
  {
    BehindBlank(s, i, k, before);
  }

  // ----- a written form is read -----

  /** Behind the white space in front of a form stand '<' and a name. */
  lemma FormStarts(s: string, i: nat, f: Form, k: nat)
    requires Legal(f) && At(s, i, Written(f)) && k == i + |f.before|
    ensures k + 1 < |s| && SkipWs(s, i) == k && Is(s, k, '<') && !Is(s, k + 1, '/')
  {
    WrittenParts(s, i, f);
    StartParts(s, k, f);
    AtHas(s, k + 1, f.name, 0);
    SkipsBlank(s, i, f.before, k);
  }

  lemma FirstForm(s: string, i: nat, fs: seq<Form>, next: nat)
    requires fs != [] && AllLegal(fs) && At(s, i, WrittenAll(fs)) && next == i + |Written(fs[0])|
    ensures Legal(fs[0]) && At(s, i, Written(fs[0])) && At(s, next, WrittenAll(fs[1..]))
    ensures next + |WrittenAll(fs[1..])| == i + |WrittenAll(fs)|
  {
    AtSplits(s, i, Written(fs[0]), WrittenAll(fs[1..]));
  }

  /** Content that is children or white space begins with a tag. */
  lemma ContentStarts(s: string, i: nat, kids: seq<Form>, end: nat, blank: string) returns (k: nat)
    requires AllLegal(kids) && At(s, i, WrittenAll(kids)) && end == i + |WrittenAll(kids)|
    requires AllSpaces(blank) && At(s, end, blank) && Are(s, end + |blank|, '<', '/')
    ensures i <= k < |s| && SkipWs(s, i) == k && Is(s, k, '<')
  {
    if kids == [] {
      k := i + |blank|;
      SkipsBlank(s, i, blank, k);
    } else {
      k := i + |kids[0].before|;
      FirstForm(s, i, kids, i + |Written(kids[0])|);
      FormStarts(s, i, kids[0], k);
    }
  }

  lemma NoKids(s: string, i: nat, blank: string, before: seq<El>)
    requires AllSpaces(blank) && At(s, i, blank) && Are(s, i + |blank|, '<', '/')
    ensures ParseChildren(s, i, before) == Children(before, i + |blank|)
  {
    SkipsBlank(s, i, blank, i + |blank|);
    NoMore(s, i, i + |blank|, before);
  }

  lemma ReadsClosed(s: string, i: nat, f: Form)
    requires Legal(f) && At(s, i, Written(f)) && f.rest.Closed?
    ensures ParseElement(s, i) == Element(El(f.name, AttrsOf(f.attrs), None, []), i + |Written(f)|)
  {
    var j, r := i + |f.before|, i + |f.before| + |StartText(f)|;
    WrittenParts(s, i, f);
    AtHas(s, r, "/>", 0);
    AtHas(s, r, "/>", 1);
    ReadsStart(s, j, f, true, r, j + 1 + |f.name|, r + 2);
    SkipsBlank(s, i, f.before, j);
    ClosedStep(s, i, j, f.name, j + 1 + |f.name|, AttrsOf(f.attrs), r + 2);
  }

  lemma OpenRead(s: string, i: nat, f: Form, body: string) returns (next: nat)
    requires LegalStart(f) && At(s, i, f.before + (StartText(f) + (">" + body)))
    ensures At(s, next, body) && next + |body| == i + |f.before + (StartText(f) + (">" + body))|
    ensures ParseElement(s, i) == ParseContent(s, next, f.name, AttrsOf(f.attrs))
  {
    var r := i + |f.before| + |StartText(f)|;
    next := r + 1;
    AtSplits3(s, i, f.before, StartText(f), ">" + body);
    AtSplits(s, r, ">", body);
    AtHas(s, r, ">", 0);
    BlankBefore(s, i, f, i + |f.before|);
    OpenFrom(s, i, f, i + |f.before|, r, i + |f.before| + 1 + |f.name|, AttrsOf(f.attrs));
  }

  lemma OpenFrom(s: string, i: nat, f: Form, j: nat, r: nat, nameEnd: nat, attrs: seq<Attr>)
    requires LegalStart(f) && i <= j <= |s| && SkipWs(s, i) == j && At(s, j, StartText(f))
    requires r == j + |StartText(f)| && Is(s, r, '>') && nameEnd == j + 1 + |f.name| && attrs == AttrsOf(f.attrs)
    ensures ParseElement(s, i) == ParseContent(s, r + 1, f.name, attrs)
  {
    ReadsStart(s, j, f, false, r, nameEnd, r + 1);
    OpenStep(s, i, j, f.name, nameEnd, attrs, r + 1);
  }

  lemma BlankBefore(s: string, i: nat, f: Form, j: nat)
    requires AllSpaces(f.before) && At(s, i, f.before) && j == i + |f.before| && At(s, j, StartText(f))
    ensures SkipWs(s, i) == j
  {
    StartParts(s, j, f);
    SkipsBlank(s, i, f.before, j);
  }

  lemma ReadsOpen(s: string, i: nat, f: Form, body: string) returns (next: nat)
    requires Legal(f) && At(s, i, Written(f)) && WrittenRest(f.name, f.rest) == ">" + body
    ensures At(s, next, body) && next + |body| == i + |Written(f)|
    ensures ParseElement(s, i) == ParseContent(s, next, f.name, AttrsOf(f.attrs))
  {
    WrittenIsParts(f);
    next := OpenRead(s, i, f, body);
  }

  /**
   * Wherever a legal form stands, the parser reads its tree and stops exactly at its end.
   */
  lemma {:induction false} WrittenIsRead(s: string, i: nat, f: Form)
    requires Legal(f) && At(s, i, Written(f))
    ensures ParseElement(s, i) == Element(FormTree(f), i + |Written(f)|)
    decreases f, 1
  {
    match f.rest
    case Closed =>
      ReadsClosed(s, i, f);
    case Kids(kids, blank, end) =>
      var next := ReadsOpen(s, i, f, WrittenAll(kids) + (blank + EndTagText(f.name, end)));
      ReadsKids(s, next, f.name, AttrsOf(f.attrs), kids, blank, end, i + |Written(f)|);
    case Words(blank, words, end) =>
      var next := ReadsOpen(s, i, f, blank + (words + EndTagText(f.name, end)));
      ReadsWords(s, next, f.name, AttrsOf(f.attrs), blank, words, end, i + |Written(f)|);
  }

  lemma {:induction false} ReadsKids(s: string, i: nat, name: string, attrs: seq<Attr>, kids: seq<Form>, blank: string,
                                     end: string, next: nat)
    requires IsName(name) && AllLegal(kids) && AllSpaces(blank) && AllSpaces(end)
    requires At(s, i, WrittenAll(kids) + (blank + EndTagText(name, end)))
    requires next == i + |WrittenAll(kids) + (blank + EndTagText(name, end))|
    ensures ParseContent(s, i, name, attrs) == Element(El(name, attrs, None, Trees(kids)), next)
    decreases kids, 2
  {
    var t := i + |WrittenAll(kids)|;
    AtSplits3(s, i, WrittenAll(kids), blank, EndTagText(name, end));
    ReadsEnd(s, t + |blank|, "", name, end, next);
    var k := ContentStarts(s, i, kids, t, blank);
    ReadsAllKids(s, i, kids, t, blank, []);
    KidsOfNone(kids);
    BehindBlank(s, i, k, []);
    KidsStep(s, i, name, attrs, k, Trees(kids), t + |blank|, next);
  }

  lemma KidsOfNone(kids: seq<Form>)
    ensures [] + Trees(kids) == Trees(kids)
  {
  }

  lemma {:induction false} ReadsAllKids(s: string, i: nat, kids: seq<Form>, end: nat, blank: string, before: seq<El>)
    requires AllLegal(kids) && At(s, i, WrittenAll(kids)) && end == i + |WrittenAll(kids)|
    requires AllSpaces(blank) && At(s, end, blank) && Are(s, end + |blank|, '<', '/')
    ensures ParseChildren(s, i, before) == Children(before + Trees(kids), end + |blank|)
    decreases kids, 1
  {
    if kids == [] {
      assert before + Trees(kids) == before;
      NoKids(s, i, blank, before);
    } else {
      var next := i + |Written(kids[0])|;
      FirstForm(s, i, kids, next);
      ReadsKid(s, i, kids[0], before, next);
      MoveFirst(before, FormTree(kids[0]), Trees(kids[1..]));
      ReadsAllKids(s, next, kids[1..], end, blank, before + [FormTree(kids[0])]);
    }
  }

  lemma {:induction false} ReadsKid(s: string, i: nat, f: Form, before: seq<El>, next: nat)
    requires Legal(f) && At(s, i, Written(f)) && next == i + |Written(f)|
    ensures ParseChildren(s, i, before) == ParseChildren(s, next, before + [FormTree(f)])
    decreases f, 2
  {
    FormStarts(s, i, f, i + |f.before|);
    WrittenIsRead(s, i, f);
    OneMore(s, i, i + |f.before|, before, FormTree(f), next);
  }

  // ----- what is read was a written form -----

  lemma {:induction false} BlankBetween(s: string, i: nat)
    requires i <= |s|
    ensures AllSpaces(s[i..SkipWs(s, i)])
    decreases |s| - i
  {
    if i < |s| && IsSpace(s[i]) {
      BlankBetween(s, i + 1);
      assert s[i..SkipWs(s, i)] == [s[i]] + s[i + 1..SkipWs(s, i)];
    }
  }

  lemma {:induction false} NameBetween(s: string, i: nat)
    requires i <= |s|
    ensures forall k :: i <= k < NameEnd(s, i) ==> IsNameChar(s[k])
    ensures NameEnd(s, i) < |s| ==> !IsNameChar(s[NameEnd(s, i)])
    decreases |s| - i
  {
    if i < |s| && IsNameChar(s[i]) { NameBetween(s, i + 1); }
  }

  lemma {:induction false} NoneBetween(s: string, i: nat, c: char)
    requires i <= |s|
    ensures Until(s, i, c) < |s| ==> s[Until(s, i, c)] == c
    ensures Lacks(s[i..Until(s, i, c)], c)
    decreases |s| - i
  {
    if i < |s| && s[i] != c {
      NoneBetween(s, i + 1, c);
      assert s[i..Until(s, i, c)] == [s[i]] + s[i + 1..Until(s, i, c)];
    }
  }

  lemma Joins(s: string, i: nat, j: nat, k: nat)
    requires i <= j <= k <= |s|
    ensures s[i..k] == s[i..j] + s[j..k]
  {
  }

  lemma NameWas(s: string, i: nat, name: string, pos: nat)
    requires i <= |s| && ReadName(s, i) == Text(name, pos)
    ensures i < pos <= |s| && IsName(name) && name == s[i..pos] && IsNameChar(s[i])
    ensures pos < |s| ==> !IsNameChar(s[pos])
  {
    NameBetween(s, i);
    forall k | 0 <= k < |name| ensures IsNameChar(name[k]) {
      assert name[k] == s[i + k];
    }
  }

  lemma QuotedWas(s: string, i: nat, value: string, pos: nat) returns (after: string)
    requires i <= |s| && ReadAttrValue(s, i) == Text(value, pos)
    ensures i < pos <= |s| && after == s[i..SkipWs(s, i)] && AllSpaces(after) && Lacks(value, '"')
    ensures s[i..pos] == Quoted(after, value)
  {
    var j := SkipWs(s, i);
    after := s[i..j];
    BlankBetween(s, i);
    NoneBetween(s, j + 1, '"');
    assert s[j..j + 1] == "\"" && s[pos - 1..pos] == "\"";
    Cut4(s, i, j, j + 1, pos - 1, pos, after, "\"", value, "\"");
  }

  lemma Cut4(s: string, i: nat, j: nat, k: nat, l: nat, m: nat, a: string, b: string, c: string, d: string)
    requires i <= j <= k <= l <= m <= |s|
    requires s[i..j] == a && s[j..k] == b && s[k..l] == c && s[l..m] == d
    ensures s[i..m] == a + (b + (c + d))
  {
    Joins(s, i, j, m);
    Joins(s, j, k, m);
    Joins(s, k, l, m);
  }

  lemma AttrWas(s: string, i: nat, attr: Attr, pos: nat, before: string) returns (a: AttrForm)
    requires i <= |s| && ReadAttr(s, i) == Attribute(attr, pos) && AllSpaces(before)
    ensures i < pos <= |s| && LegalAttr(a) && a.before == before && Attr(a.key, a.value) == attr
    ensures s[i..pos] == AttrCore(a) && IsNameChar(s[i])
  {
    var p := ReadName(s, i).pos;
    NameWas(s, i, attr.key, p);
    var mid, equals, after := JointWas(s, p, attr.value, pos);
    Joins(s, i, p, pos);
    a := AttrForm(before, attr.key, mid, equals, after, attr.value);
    assert s[i..pos] == a.key + Joint(a);
  }

  function JointText(mid: string, equals: bool, after: string, value: string): string {
    mid + ((if equals then "=" else "") + Quoted(after, value))
  }

  lemma JointWas(s: string, i: nat, value: string, pos: nat) returns (mid: string, equals: bool, after: string)
    requires i <= |s| && JointEnds(s, i, value, pos)
    ensures i < pos <= |s| && AllSpaces(mid) && AllSpaces(after) && (equals || after == "") && Lacks(value, '"')
    ensures s[i..pos] == JointText(mid, equals, after, value)
  {
    var k := SkipWs(s, i);
    mid, equals := s[i..k], Is(s, k, '=');
    BlankBetween(s, i);
    if equals {
      after := QuotedWas(s, k + 1, value, pos);
      assert s[k..k + 1] == "=";
      Cut3(s, i, k, k + 1, pos);
    } else {
      after := QuotedWas(s, k, value, pos);
      SkipTwice(s, i);
      Joins(s, i, k, pos);
      assert "" + Quoted(after, value) == Quoted(after, value);
    }
  }

  lemma Cut3(s: string, i: nat, j: nat, k: nat, l: nat)
    requires i <= j <= k <= l <= |s|
    ensures s[i..l] == s[i..j] + (s[j..k] + s[k..l])
  {
    Joins(s, i, j, l);
    Joins(s, j, k, l);
  }

  /** How a start tag ends. */
  function TagEnd(closed: bool): string {
    if closed then "/>" else ">"
  }

  lemma TagEndWas(s: string, i: nat, closed: bool, pos: nat) returns (last: string)
    requires i <= |s| && var j := SkipWs(s, i); TagEnds(s, j, closed) && pos == j + if closed then 2 else 1
    ensures i <= pos <= |s| && AllSpaces(last) && s[i..pos] == last + TagEnd(closed)
  {
    var j := SkipWs(s, i);
    last := s[i..j];
    BlankBetween(s, i);
    Joins(s, i, j, pos);
    assert s[j..pos] == TagEnd(closed);
  }

  lemma {:induction false} AttrsWere(s: string, i: nat, acc: seq<Attr>, all: seq<Attr>, closed: bool, pos: nat)
    returns (attrs: seq<AttrForm>, last: string)
    requires i <= |s| && ParseAttrs(s, i, acc) == Head(all, closed, pos)
    ensures i <= pos <= |s| && LegalAttrs(attrs) && AllSpaces(last) && all == acc + AttrsOf(attrs)
    ensures s[i..pos] == WrittenAttrs(attrs) + (last + TagEnd(closed))
    ensures attrs != [] && attrs[0].before == "" ==> i < |s| && IsNameChar(s[i])
    decreases |s| - i
  {
    var j := SkipWs(s, i);
    if Are(s, j, '/', '>') || Is(s, j, '>') {
      last := TagEndWas(s, i, closed, pos);
      attrs := [];
    } else {
      var r := ReadAttr(s, j);
      BlankBetween(s, i);
      var a := AttrWas(s, j, r.attr, r.pos, s[i..j]);
      var rest;
      rest, last := AttrsWere(s, r.pos, acc + [r.attr], all, closed, pos);
      attrs := [a] + rest;
      AttrsJoined(s, i, j, r.pos, pos, a, rest, last + TagEnd(closed));
      MoveFirst(acc, r.attr, AttrsOf(rest));
    }
  }

  lemma AttrsJoined(s: string, i: nat, j: nat, k: nat, pos: nat, a: AttrForm, rest: seq<AttrForm>, tail: string)
    requires i <= j <= k <= pos <= |s| && s[i..j] == a.before && s[j..k] == AttrCore(a)
    requires s[k..pos] == WrittenAttrs(rest) + tail && LegalAttr(a) && LegalAttrs(rest)
    ensures s[i..pos] == WrittenAttrs([a] + rest) + tail && LegalAttrs([a] + rest)
    ensures AttrsOf([a] + rest) == [Attr(a.key, a.value)] + AttrsOf(rest)
  {
    assert ([a] + rest)[1..] == rest;
    Joins(s, i, j, pos);
    Joins(s, j, k, pos);
  }

  lemma EndWas(s: string, i: nat, name: string, pos: nat) returns (end: string)
    requires Is(s, i, '<') && ExpectEnd(s, i, name) == EndTag(pos)
    ensures i < pos <= |s| && AllSpaces(end) && s[i..pos] == EndTagText(name, end)
  {
    var n := ReadName(s, i + 2);
    end := s[n.pos..SkipWs(s, n.pos)];
    BlankBetween(s, n.pos);
    NameWas(s, i + 2, n.text, n.pos);
    assert s[i..i + 2] == "</" && s[pos - 1..pos] == ">";
    Cut4(s, i, i + 2, n.pos, pos - 1, pos, "</", name, end, ">");
  }

  /** An element whose start tag was read up to `end`. */
  lemma StartWas(s: string, i: nat, name: string, attrs: seq<Attr>, closed: bool, nameEnd: nat, end: nat)
    returns (f: Form)
    requires i <= |s| && var j := SkipWs(s, i);
      Is(s, j, '<') && ReadName(s, j + 1) == Text(name, nameEnd) && nameEnd <= |s|
      && ParseAttrs(s, nameEnd, []) == Head(attrs, closed, end)
    ensures i <= end <= |s| && Legal(f) && f.name == name && AttrsOf(f.attrs) == attrs && f.rest.Closed?
    ensures s[i..end] == f.before + (StartText(f) + TagEnd(closed))
  {
    var j := SkipWs(s, i);
    BlankBetween(s, i);
    NameWas(s, j + 1, name, nameEnd);
    var forms, last := AttrsWere(s, nameEnd, [], attrs, closed, end);
    f := Form(s[i..j], name, forms, last, Closed);
    assert [] + AttrsOf(forms) == AttrsOf(forms);
    StartJoined(s, i, j, nameEnd, end, f, TagEnd(closed));
  }

  lemma StartJoined(s: string, i: nat, j: nat, nameEnd: nat, end: nat, f: Form, tail: string)
    requires i <= j < nameEnd <= end <= |s| && s[i..j] == f.before && s[j] == '<' && s[j + 1..nameEnd] == f.name
    requires s[nameEnd..end] == WrittenAttrs(f.attrs) + (f.last + tail)
    ensures s[i..end] == f.before + (StartText(f) + tail)
  {
    assert s[j..j + 1] == "<";
    Cut4(s, i, j, j + 1, nameEnd, end, f.before, "<", f.name, s[nameEnd..end]);
    Regroup("<", f.name, WrittenAttrs(f.attrs), f.last, tail);
  }

  lemma Regroup(a: string, b: string, c: string, d: string, e: string)
    ensures a + (b + (c + (d + e))) == (a + (b + (c + d))) + e
  {
  }

  lemma WordsWere(s: string, i: nat, name: string, attrs: seq<Attr>, el: El, pos: nat) returns (rest: Rest)
    requires i <= |s| && !Is(s, SkipWs(s, i), '<') && ParseContent(s, i, name, attrs) == Element(el, pos)
    ensures i <= pos <= |s| && LegalRest(rest) && !rest.Closed? && el == TreeOf(name, attrs, rest)
    ensures WrittenRest(name, rest) == ">" + s[i..pos]
  {
    var k := SkipWs(s, i);
    var t := Until(s, k, '<');
    BlankBetween(s, i);
    NoneBetween(s, k, '<');
    TextEndsAtTag(s, k, t, name);
    var end := EndWas(s, t, name, pos);
    SpaceEnds(s, i);
    assert s[k..t][..1][0] == s[k];
    rest := Words(s[i..k], s[k..t], end);
    Cut3(s, i, k, t, pos);
  }

  lemma TextEndsAtTag(s: string, k: nat, t: nat, name: string)
    requires k <= t <= |s| && (t < |s| ==> s[t] == '<') && !Is(s, k, '<') && !ExpectEnd(s, t, name).Refused?
    ensures k < t < |s|
  {
  }

  lemma {:induction false} SpaceEnds(s: string, i: nat)
    requires i <= |s|
    ensures SkipWs(s, i) < |s| ==> !IsSpace(s[SkipWs(s, i)])
    decreases |s| - i
  {
    if i < |s| && IsSpace(s[i]) { SpaceEnds(s, i + 1); }
  }

  /**
   * What the parser reads, it reads from a legal form.
   */
  lemma {:induction false} ReadWasWritten(s: string, i: nat, el: El, pos: nat) returns (f: Form)
    requires i <= |s| && ParseElement(s, i) == Element(el, pos)
    ensures i < pos <= |s| && Legal(f) && FormTree(f) == el && s[i..pos] == Written(f)
    decreases |s| - i, 0
  {
    var n := ReadName(s, SkipWs(s, i) + 1);
    var h := ParseAttrs(s, n.pos, []);
    var start := StartWas(s, i, n.text, h.attrs, h.closed, n.pos, h.pos);
    if h.closed {
      f := start;
      WrittenIsParts(f);
    } else {
      var rest := ContentWas(s, h.pos, n.text, h.attrs, el, pos);
      f := Form(start.before, start.name, start.attrs, start.last, rest);
      FormJoined(s, i, h.pos, pos, start, rest);
    }
  }

  lemma FormJoined(s: string, i: nat, k: nat, pos: nat, start: Form, rest: Rest)
    requires i <= k <= pos <= |s| && s[i..k] == start.before + (StartText(start) + ">")
    requires WrittenRest(start.name, rest) == ">" + s[k..pos]
    ensures s[i..pos] == Written(Form(start.before, start.name, start.attrs, start.last, rest))
  {
    WrittenIsParts(Form(start.before, start.name, start.attrs, start.last, rest));
    Joins(s, i, k, pos);
  }

  lemma KidsClosed(s: string, i: nat, k: nat, name: string, attrs: seq<Attr>, kids: seq<Form>, blank: string, pos: nat)
    returns (rest: Rest)
    requires i <= k <= |s| && AllLegal(kids) && AllSpaces(blank) && s[i..k] == WrittenAll(kids) + blank
    requires Is(s, k, '<') && ExpectEnd(s, k, name) == EndTag(pos)
    ensures k <= pos <= |s| && LegalRest(rest) && TreeOf(name, attrs, rest) == El(name, attrs, None, Trees(kids))
    ensures !rest.Closed? && WrittenRest(name, rest) == ">" + s[i..pos]
  {
    var end := EndWas(s, k, name, pos);
    rest := Kids(kids, blank, end);
    JoinsLater(s, i, k, pos, WrittenAll(kids), blank);
  }

  lemma JoinsLater(s: string, i: nat, j: nat, k: nat, a: string, b: string)
    requires i <= j <= k <= |s| && s[i..j] == a + b
    ensures s[i..k] == a + (b + s[j..k])
  {
    Joins(s, i, j, k);
  }

  lemma {:induction false} ContentWas(s: string, i: nat, name: string, attrs: seq<Attr>, el: El, pos: nat)
    returns (rest: Rest)
    requires i <= |s| && ParseContent(s, i, name, attrs) == Element(el, pos)
    ensures i <= pos <= |s| && LegalRest(rest) && !rest.Closed? && el == TreeOf(name, attrs, rest)
    ensures WrittenRest(name, rest) == ">" + s[i..pos]
    decreases |s| - i, 3
  {
    var k := SkipWs(s, i);
    if Is(s, k, '<') {
      var c := ParseChildren(s, k, []);
      BehindBlank(s, i, k, []);
      var kids, blank := KidsWere(s, i, [], c.children, c.pos);
      rest := KidsClosed(s, i, c.pos, name, attrs, kids, blank, pos);
      KidsOfNone(kids);
    } else {
      rest := WordsWere(s, i, name, attrs, el, pos);
    }
  }

  lemma {:induction false} KidsWere(s: string, i: nat, acc: seq<El>, all: seq<El>, pos: nat)
    returns (kids: seq<Form>, blank: string)
    requires i <= |s| && ParseChildren(s, i, acc) == Children(all, pos)
    ensures i <= pos <= |s| && AllLegal(kids) && AllSpaces(blank) && all == acc + Trees(kids)
    ensures s[i..pos] == WrittenAll(kids) + blank && Are(s, pos, '<', '/')
    decreases |s| - i, 2
  {
    var j := SkipWs(s, i);
    if Are(s, j, '<', '/') {
      BlankBetween(s, i);
      kids, blank := [], s[i..j];
      assert "" + blank == blank;
    } else {
      var c := ParseElement(s, j);
      BehindBlank(s, i, j, acc);
      var kid := ReadWasWritten(s, i, c.el, c.pos);
      var rest;
      rest, blank := KidsWere(s, c.pos, acc + [c.el], all, pos);
      kids := [kid] + rest;
      KidsJoined(s, i, c.pos, pos, kid, rest, blank);
      MoveFirst(acc, c.el, Trees(rest));
    }
  }

  lemma KidsJoined(s: string, i: nat, k: nat, pos: nat, kid: Form, rest: seq<Form>, blank: string)
    requires i <= k <= pos <= |s| && s[i..k] == Written(kid) && s[k..pos] == WrittenAll(rest) + blank
    requires Legal(kid) && AllLegal(rest)
    ensures s[i..pos] == WrittenAll([kid] + rest) + blank && AllLegal([kid] + rest)
    ensures Trees([kid] + rest) == [FormTree(kid)] + Trees(rest)
  {
    assert ([kid] + rest)[1..] == rest;
    Joins(s, i, k, pos);
  }

  /**
   * The parser accepts a document exactly if it begins with a legal form, and then returns that
   * form's tree; no two forms a document begins with have different trees.
   */
  lemma AcceptsExactlyWritten(data: string, el: El)
    ensures (exists pos: nat :: ParseElement(data, 0) == Element(el, pos)) <==>
      (exists f :: Legal(f) && FormTree(f) == el && Written(f) <= data)
  {
    if pos: nat :| ParseElement(data, 0) == Element(el, pos) {
      var f := ReadWasWritten(data, 0, el, pos);
      assert Written(f) == data[..pos];
    }
    if f :| Legal(f) && FormTree(f) == el && Written(f) <= data {
      WrittenIsRead(data, 0, f);
    }
  }

  // ----- why a document is refused -----

  /** Without a '<' behind the white space there is no element. */
  lemma NoElementIsRefused(blank: string, rest: string)
    requires AllSpaces(blank) && (rest == "" || (rest[0] != '<' && !AllSpaces(rest[..1])))
    ensures ParseElement(blank + rest, 0) == Refused(NoElement)
  {
    var s := blank + rest;
    assert rest != "" ==> s[|blank|] == rest[0] && rest[..1][0] == rest[0];
    SkipsSpaces(s, 0, |blank|);
  }

  /** The text of an element up to its end tag. */
  function UnclosedText(f: Form): string
    requires !f.rest.Closed?
  {
    f.before + (StartText(f) + (">" +
      if f.rest.Kids? then WrittenAll(f.rest.kids) + f.rest.blank else f.rest.blank + f.rest.words))
  }

  lemma KidsRefused(s: string, i: nat, name: string, attrs: seq<Attr>, k: nat, children: seq<El>, end: nat,
                    why: Malformed)
    requires i <= k <= |s| && SkipWs(s, i) == k && Is(s, k, '<') && ParseChildren(s, k, []) == Children(children, end)
    requires end <= |s| && ExpectEnd(s, end, name) == Refused(why)
    ensures ParseContent(s, i, name, attrs) == Refused(why)
  {
  }

  lemma WordsRefused(s: string, i: nat, name: string, attrs: seq<Attr>, k: nat, t: nat, why: Malformed)
    requires i <= k < t <= |s| && SkipWs(s, i) == k && s[k] != '<' && Until(s, k, '<') == t
    requires ExpectEnd(s, t, name) == Refused(why)
    ensures ParseContent(s, i, name, attrs) == Refused(why)
  {
  }

  lemma WrongEndTag(s: string, i: nat, name: string, other: string, end: string)
    requires IsName(other) && other != name && AllSpaces(end) && At(s, i, EndTagText(other, end))
    ensures Are(s, i, '<', '/') && ExpectEnd(s, i, name) == Refused(Malformed.OtherEndTag(other, name))
  {
    EndTagParts(s, i, other, end);
    ReadsEndName(s, i + 2, other, end, i + 2 + |other| + |end|);
  }

  lemma KidsThenWrongEnd(s: string, i: nat, name: string, attrs: seq<Attr>, kids: seq<Form>, blank: string,
                         other: string, end: string)
    requires AllLegal(kids) && AllSpaces(blank) && IsName(other) && other != name && AllSpaces(end)
    requires At(s, i, (WrittenAll(kids) + blank) + EndTagText(other, end))
    ensures ParseContent(s, i, name, attrs) == Refused(Malformed.OtherEndTag(other, name))
  {
    var t := i + |WrittenAll(kids)|;
    AtSplits(s, i, WrittenAll(kids) + blank, EndTagText(other, end));
    AtSplits(s, i, WrittenAll(kids), blank);
    WrongEndTag(s, t + |blank|, name, other, end);
    var k := ContentStarts(s, i, kids, t, blank);
    ReadsAllKids(s, i, kids, t, blank, []);
    BehindBlank(s, i, k, []);
    KidsRefused(s, i, name, attrs, k, [] + Trees(kids), t + |blank|, Malformed.OtherEndTag(other, name));
  }

  lemma WordsThenWrongEnd(s: string, i: nat, name: string, attrs: seq<Attr>, blank: string, words: string,
                          other: string, end: string)
    requires AllSpaces(blank) && words != "" && !AllSpaces(words[..1]) && Lacks(words, '<')
    requires IsName(other) && other != name && AllSpaces(end)
    requires At(s, i, (blank + words) + EndTagText(other, end))
    ensures ParseContent(s, i, name, attrs) == Refused(Malformed.OtherEndTag(other, name))
  {
    var k, t := i + |blank|, i + |blank| + |words|;
    AtSplits(s, i, blank + words, EndTagText(other, end));
    AtSplits(s, i, blank, words);
    AtHas(s, k, words, 0);
    SkipsBlank(s, i, blank, k);
    WrongEndTag(s, t, name, other, end);
    UntilBehind(s, k, words, '<', t);
    WordsRefused(s, i, name, attrs, k, t, Malformed.OtherEndTag(other, name));
  }

  /** An element closed by another's end tag is refused, and both names are reported. */
  lemma OtherEndTagIsRefused(data: string, f: Form, other: string, end: string)
    requires Legal(f) && !f.rest.Closed? && IsName(other) && other != f.name && AllSpaces(end)
    requires UnclosedText(f) + EndTagText(other, end) <= data
    ensures ParseElement(data, 0) == Refused(Malformed.OtherEndTag(other, f.name))
  {
    var inner :=
      if f.rest.Kids? then WrittenAll(f.rest.kids) + f.rest.blank else f.rest.blank + f.rest.words;
    Tailed(f.before, StartText(f), ">", inner, EndTagText(other, end));
    var next := OpenRead(data, 0, f, inner + EndTagText(other, end));
    match f.rest
    case Kids(kids, blank, _) =>
      KidsThenWrongEnd(data, next, f.name, AttrsOf(f.attrs), kids, blank, other, end);
    case Words(blank, words, _) =>
      WordsThenWrongEnd(data, next, f.name, AttrsOf(f.attrs), blank, words, other, end);
  }

  lemma Tailed(a: string, b: string, c: string, d: string, e: string)
    ensures (a + (b + (c + d))) + e == a + (b + (c + (d + e)))
  {
  }
}

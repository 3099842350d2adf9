/**
 * The XML cursor of export presets: a recursive-descent parser over one string, and the
 * printed form it undoes. Characters are ASCII.
 */
module PresetXml {
  import opened Wrappers
  import opened Text

  datatype Attr = Attr(key: string, value: string)

  datatype El = El(name: string, attrs: seq<Attr>, text: Option<string>, children: seq<El>)

  /** Why a document is refused. */
  datatype Malformed =
    | NoName | NoQuote | NoClosingQuote | NoElement | NoEndTag(name: string) | NoEndTagClose
    | OtherEndTag(found: string, name: string) | EndInElement | TextBetweenElements

  /** What a step of the parser read and the position behind it, or why it refused. */
  datatype Read =
    | Text(text: string, pos: nat)
    | Attribute(attr: Attr, pos: nat)
    | Head(attrs: seq<Attr>, closed: bool, pos: nat)
    | Element(el: El, pos: nat)
    | Children(children: seq<El>, pos: nat)
    | EndTag(pos: nat)
    | Refused(why: Malformed)

  predicate IsNameChar(c: char) {
    'a' <= c <= 'z' || 'A' <= c <= 'Z' || '0' <= c <= '9' || c == '_' || c == '-'
  }

  /** The character at `i` is `c`. */
  predicate Is(s: string, i: nat, c: char) {
    i < |s| && s[i] == c
  }

  predicate Are(s: string, i: nat, c: char, d: char) {
    Is(s, i, c) && Is(s, i + 1, d)
  }

  // ----- what each cursor method computes -----

  function SkipWs(s: string, i: nat): (j: nat)
    requires i <= |s|
    ensures i <= j <= |s|
    decreases |s| - i
  {
    if i < |s| && IsSpace(s[i]) then SkipWs(s, i + 1) else i
  }

  function NameEnd(s: string, i: nat): (j: nat)
    requires i <= |s|
    ensures i <= j <= |s|
    decreases |s| - i
  {
    if i < |s| && IsNameChar(s[i]) then NameEnd(s, i + 1) else i
  }

  function ReadName(s: string, i: nat): (r: Read)
    requires i <= |s|
    ensures r.Refused? || (r.Text? && i < r.pos <= |s|)
  {
    if NameEnd(s, i) == i then Refused(NoName) else Text(s[i..NameEnd(s, i)], NameEnd(s, i))
  }

  function ReadAttrValue(s: string, i: nat): (r: Read)
    requires i <= |s|
    ensures r.Refused? || (r.Text? && i < r.pos <= |s|)
  {
    var j := SkipWs(s, i);
    if !Is(s, j, '"') then Refused(NoQuote)
    else
      var k := Until(s, j + 1, '"');
      if k >= |s| then Refused(NoClosingQuote) else Text(s[j + 1..k], k + 1)
  }

  function ExpectEnd(s: string, i: nat, name: string): (r: Read)
    requires i <= |s|
    ensures r.Refused? || (r.EndTag? && i < r.pos <= |s|)
  {
    var j := SkipWs(s, i);
    if !Are(s, j, '<', '/') then Refused(NoEndTag(name))
    else
      var n := ReadName(s, j + 2);
      if n.Refused? then n
      else
        var k := SkipWs(s, n.pos);
        if !Is(s, k, '>') then Refused(NoEndTagClose)
        else if n.text != name then Refused(OtherEndTag(n.text, name))
        else EndTag(k + 1)
  }

  /** `key="value"`; the equals sign may be missing. */
  function ReadAttr(s: string, i: nat): (r: Read)
    requires i <= |s|
    ensures r.Refused? || (r.Attribute? && i < r.pos <= |s|)
  {
    var n := ReadName(s, i);
    if n.Refused? then n
    else
      var k := SkipWs(s, n.pos);
      var v := ReadAttrValue(s, if Is(s, k, '=') then k + 1 else k);
      if v.Refused? then v else Attribute(Attr(n.text, v.text), v.pos)
  }

  /** The rest of a start tag, after the attributes read before. */
  function ParseAttrs(s: string, i: nat, attrs: seq<Attr>): (r: Read)
    requires i <= |s|
    ensures r.Refused? || (r.Head? && i < r.pos <= |s|)
    decreases |s| - i
  {
    var j := SkipWs(s, i);
    if Are(s, j, '/', '>') then Head(attrs, true, j + 2)
    else if Is(s, j, '>') then Head(attrs, false, j + 1)
    else
      var a := ReadAttr(s, j);
      if a.Refused? then a else ParseAttrs(s, a.pos, attrs + [a.attr])
  }

  function ParseElement(s: string, i: nat): (r: Read)
    requires i <= |s|
    ensures r.Refused? || (r.Element? && i < r.pos <= |s|)
    decreases |s| - i, 1
  {
    ElementFrom(s, SkipWs(s, i))
  }

  /** An element without white space in front of it. */
  function ElementFrom(s: string, j: nat): (r: Read)
    requires j <= |s|
    ensures r.Refused? || (r.Element? && j < r.pos <= |s|)
    decreases |s| - j, 0
  {
    if !Is(s, j, '<') then Refused(NoElement)
    else
      var n := ReadName(s, j + 1);
      if n.Refused? then n
      else
        var h := ParseAttrs(s, n.pos, []);
        if h.Refused? then h
        else if h.closed then Element(El(n.text, h.attrs, None, []), h.pos)
        else ParseContent(s, h.pos, n.text, h.attrs)
  }

  /** From behind the start tag to behind the end tag. */
  function ParseContent(s: string, i: nat, name: string, attrs: seq<Attr>): (r: Read)
    requires i <= |s|
    ensures r.Refused? || (r.Element? && i < r.pos <= |s|)
    decreases |s| - i, 4
  {
    var k := SkipWs(s, i);
    if Is(s, k, '<') then
      var c := ParseChildren(s, k, []);
      if c.Refused? then c
      else
        var e := ExpectEnd(s, c.pos, name);
        if e.Refused? then e else Element(El(name, attrs, None, c.children), e.pos)
    else
      var t := Until(s, k, '<');
      var e := ExpectEnd(s, t, name);
      if e.Refused? then e else Element(El(name, attrs, Some(s[k..t]), []), e.pos)
  }

  function ParseChildren(s: string, i: nat, children: seq<El>): (r: Read)
    requires i <= |s|
    ensures r.Refused? || (r.Children? && i <= r.pos <= |s|)
    decreases |s| - i, 3
  {
    ChildrenFrom(s, SkipWs(s, i), children)
  }

  function ChildrenFrom(s: string, j: nat, children: seq<El>): (r: Read)
    requires j <= |s|
    ensures r.Refused? || (r.Children? && j <= r.pos <= |s|)
    decreases |s| - j, 2
  {
    if j >= |s| then Refused(EndInElement)
    else if Are(s, j, '<', '/') then Children(children, j)
    else if !Is(s, j, '<') then Refused(TextBetweenElements)
    else
      var c := ParseElement(s, j);
      if c.Refused? then c else ParseChildren(s, c.pos, children + [c.el])
  }

  // ----- the cursor -----

  class Cursor {
    const s: string
    var i: nat

    constructor (text: string)
      ensures s == text && i == 0
    {
      s, i := text, 0;
    }

    predicate Valid()
      reads this
    {
      i <= |s|
    }

    predicate StartsWith(c: char)
      reads this
    {
      Is(s, i, c)
    }

    predicate StartsWithBoth(c: char, d: char)
      reads this
    {
      Are(s, i, c, d)
    }

    method SkipSpaces()
      requires Valid()
      modifies this
      ensures i == SkipWs(s, old(i))
    {
      while i < |s| && IsSpace(s[i])
        invariant Valid() && SkipWs(s, i) == SkipWs(s, old(i))
      {
        i := i + 1;
      }
    }

    method Name() returns (r: Read)
      requires Valid()
      modifies this
      ensures Valid() && r == ReadName(s, old(i)) && (!r.Refused? ==> i == r.pos)
    {
      var start := i;
      while i < |s| && IsNameChar(s[i])
        invariant start <= i <= |s| && NameEnd(s, i) == NameEnd(s, start)
      {
        i := i + 1;
      }
      r := if i == start then Refused(NoName) else Text(s[start..i], i);
    }

    /** Moves to the first `c`, or to the end. */
    method MoveTo(c: char)
      requires Valid()
      modifies this
      ensures Valid() && i == Until(s, old(i), c)
    {
      while i < |s| && !StartsWith(c)
        invariant Valid() && Until(s, i, c) == Until(s, old(i), c)
      {
        i := i + 1;
      }
    }

    method AttrValue() returns (r: Read)
      requires Valid()
      modifies this
      ensures Valid() && r == ReadAttrValue(s, old(i)) && (!r.Refused? ==> i == r.pos)
    {
      SkipSpaces();
      if !StartsWith('"') {
        return Refused(NoQuote);
      }
      i := i + 1;
      var start := i;
      MoveTo('"');
      if i >= |s| {
        return Refused(NoClosingQuote);
      }
      i := i + 1;
      r := Text(s[start..i - 1], i);
    }

    method Close(name: string) returns (r: Read)
      requires Valid()
      modifies this
      ensures Valid() && r == ExpectEnd(s, old(i), name) && (!r.Refused? ==> i == r.pos)
    {
      SkipSpaces();
      if !StartsWithBoth('<', '/') {
        return Refused(NoEndTag(name));
      }
      i := i + 2;
      var n := Name();
      if n.Refused? {
        return n;
      }
      SkipSpaces();
      if !StartsWith('>') {
        return Refused(NoEndTagClose);
      }
      i := i + 1;
      r := if n.text != name then Refused(OtherEndTag(n.text, name)) else EndTag(i);
    }

    /** One turn of the attribute loop of `parse_element`. */
    method OneAttr() returns (r: Read)
      requires Valid()
      modifies this
      ensures Valid() && r == ReadAttr(s, old(i)) && (!r.Refused? ==> i == r.pos)
    {
      var n := Name();
      if n.Refused? {
        return n;
      }
      SkipSpaces();
      if StartsWith('=') {
        i := i + 1;
      }
      var v := AttrValue();
      r := if v.Refused? then v else Attribute(Attr(n.text, v.text), i);
    }

    /** The attribute loop of `parse_element`. */
    method Attrs() returns (r: Read)
      requires Valid()
      modifies this
      ensures Valid() && r == ParseAttrs(s, old(i), []) && (!r.Refused? ==> i == r.pos)
    {
      var attrs := [];
      while true
        invariant Valid() && ParseAttrs(s, i, attrs) == ParseAttrs(s, old(i), [])
        decreases |s| - i
      {
        SkipSpaces();
        if StartsWithBoth('/', '>') {
          i := i + 2;
          return Head(attrs, true, i);
        }
        if StartsWith('>') {
          i := i + 1;
          return Head(attrs, false, i);
        }
        var a := OneAttr();
        if a.Refused? {
          return a;
        }
        attrs := attrs + [a.attr];
      }
    }

    /** `parse_element`: always ends, and on success has moved forward. */
    method OneElement() returns (r: Read)
      requires Valid()
      modifies this
      ensures Valid() && r == ParseElement(s, old(i)) && (!r.Refused? ==> i == r.pos)
      ensures !r.Refused? ==> i > old(i)
      decreases |s| - i, 0
    {
      SkipSpaces();
      if !StartsWith('<') {
        return Refused(NoElement);
      }
      i := i + 1;
      var n := Name();
      if n.Refused? {
        return n;
      }
      var h := Attrs();
      if h.Refused? {
        return h;
      }
      if h.closed {
        return Element(El(n.text, h.attrs, None, []), i);
      }
      r := Content(n.text, h.attrs);
    }

    /** The part of `parse_element` behind the start tag. */
    method Content(name: string, attrs: seq<Attr>) returns (r: Read)
      requires Valid()
      modifies this
      ensures Valid() && r == ParseContent(s, old(i), name, attrs) && (!r.Refused? ==> i == r.pos)
      decreases |s| - i, 2
    {
      SkipSpaces();
      if StartsWith('<') {
        var c := AllChildren();
        if c.Refused? {
          return c;
        }
        var e := Close(name);
        r := if e.Refused? then e else Element(El(name, attrs, None, c.children), i);
      } else {
        var start := i;
        MoveTo('<');
        var text := s[start..i];
        var e := Close(name);
        r := if e.Refused? then e else Element(El(name, attrs, Some(text), []), i);
      }
    }

    /** The child loop of `parse_element`. */
    method AllChildren() returns (r: Read)
      requires Valid()
      modifies this
      ensures Valid() && r == ParseChildren(s, old(i), []) && (!r.Refused? ==> i == r.pos)
      decreases |s| - i, 1
    {
      var children := [];
      while true
        invariant old(i) <= i && Valid() && ParseChildren(s, i, children) == ParseChildren(s, old(i), [])
        decreases |s| - i
      {
        SkipSpaces();
        if i >= |s| {
          return Refused(EndInElement);
        }
        if StartsWithBoth('<', '/') {
          return Children(children, i);
        }
        if !StartsWith('<') {
          return Refused(TextBetweenElements);
        }
        var c := OneElement();
        if c.Refused? {
          return c;
        }
        children := children + [c.el];
      }
    }
  }

  /** `parse_preset`: the root element; what follows it is not looked at. */
  method ParsePreset(data: string) returns (r: Result<El, Malformed>)
    ensures var e := ParseElement(data, 0); r == if e.Refused? then Err(e.why) else Ok(e.el)
  {
    var c := new Cursor(data);
    var e := c.OneElement();
    r := if e.Refused? then Err(e.why) else Ok(e.el);
  }
}

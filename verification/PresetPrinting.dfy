/** The printed form of preset elements, and that the parser undoes it. */
module PresetPrinting {
  import opened Wrappers
  import opened Text
  import opened PresetXml
  import opened PresetGrammar

  function PrintAttrs(attrs: seq<Attr>): string {
    if attrs == [] then "" else " " + attrs[0].key + "=\"" + attrs[0].value + "\"" + PrintAttrs(attrs[1..])
  }

  function OpenTag(name: string, attrs: seq<Attr>): string {
    "<" + name + PrintAttrs(attrs) + ">"
  }

  function CloseTag(name: string): string {
    "</" + name + ">"
  }

  function TextOf(el: El): string {
    if el.text.Some? then el.text.value else ""
  }

  /** Children if there are any, else the text. */
  function Body(el: El): string
    decreases el, 0
  {
    if el.children == [] then TextOf(el) else PrintAll(el.children)
  }

  function Print(el: El): string
    decreases el, 1
  {
    OpenTag(el.name, el.attrs) + Body(el) + CloseTag(el.name)
  }

  function PrintAll(els: seq<El>): string {
    if els == [] then "" else Print(els[0]) + PrintAll(els[1..])
  }

  // ----- what is printable, and what comes back -----

  predicate PrintableAttrs(attrs: seq<Attr>) {
    forall i :: 0 <= i < |attrs| ==> IsName(attrs[i].key) && Lacks(attrs[i].value, '"')
  }

  /** Names are names, values hold no quote, text no '<', and no node has both children and text. */
  predicate Printable(el: El)
    decreases el
  {
    && IsName(el.name) && PrintableAttrs(el.attrs) && Lacks(TextOf(el), '<')
    && (el.children != [] ==> el.text.None?) && AllPrintable(el.children)
  }

  predicate AllPrintable(els: seq<El>) {
    els == [] || (Printable(els[0]) && AllPrintable(els[1..]))
  }

  lemma {:induction false} TrimStartSplits(s: string) returns (blank: string)
    ensures s == blank + TrimStart(s) && AllSpaces(blank)
  {
    blank := "";
    if s != "" && IsSpace(s[0]) {
      blank := TrimStartSplits(s[1..]);
      blank := [s[0]] + blank;
    }
  }

  /** Text loses its leading white space, and empty text comes back as none. */
  function Normal(el: El): El
    decreases el
  {
    var text := TrimStart(TextOf(el));
    El(el.name, el.attrs, if el.children != [] || text == "" then None else Some(text), NormalAll(el.children))
  }

  function NormalAll(els: seq<El>): seq<El> {
    if els == [] then [] else [Normal(els[0])] + NormalAll(els[1..])
  }

  // ----- the printed form is one of the written forms -----

  function PlainAttrs(attrs: seq<Attr>): seq<AttrForm> {
    if attrs == [] then []
    else [AttrForm(" ", attrs[0].key, "", true, "", attrs[0].value)] + PlainAttrs(attrs[1..])
  }

  /** A node without children, as it is written around its text. */
  function PlainText(text: string): Rest {
    var blank, words := text[..|text| - |TrimStart(text)|], TrimStart(text);
    if words == "" then Kids([], blank, "") else Words(blank, words, "")
  }

  /** The form an element is printed in. */
  function Plain(el: El): Form
    decreases el, 0
  {
    Form("", el.name, PlainAttrs(el.attrs), "",
         if el.children == [] then PlainText(TextOf(el)) else Kids(PlainAll(el.children), "", ""))
  }

  function PlainAll(els: seq<El>): seq<Form> {
    if els == [] then [] else [Plain(els[0])] + PlainAll(els[1..])
  }

  lemma {:induction false} PlainAttrsArePrinted(attrs: seq<Attr>)
    requires PrintableAttrs(attrs)
    ensures LegalAttrs(PlainAttrs(attrs)) && AttrsOf(PlainAttrs(attrs)) == attrs
    ensures WrittenAttrs(PlainAttrs(attrs)) == PrintAttrs(attrs)
    ensures PlainAttrs(attrs) != [] ==> PlainAttrs(attrs)[0].before == " "
  {
    if attrs != [] {
      var a, rest := attrs[0], attrs[1..];
      PlainAttrsArePrinted(rest);
      PlainAttrIsPrinted(AttrForm(" ", a.key, "", true, "", a.value), PrintAttrs(rest));
    }
  }

  lemma PlainAttrIsPrinted(a: AttrForm, rest: string)
    requires a.before == " " && a.mid == "" && a.equals && a.after == ""
    ensures a.before + (AttrCore(a) + rest) == " " + a.key + "=\"" + a.value + "\"" + rest
  {
    assert AttrCore(a) == a.key + ("=" + ("\"" + (a.value + "\"")));
    assert "=" + ("\"" + (a.value + "\"")) == "=\"" + (a.value + "\"");
  }

  lemma PlainTextIsPrinted(name: string, text: string)
    requires Lacks(text, '<')
    ensures LegalRest(PlainText(text)) && WrittenRest(name, PlainText(text)) == ">" + (text + CloseTag(name))
  {
    var blank := TrimStartSplits(text);
    var words := TrimStart(text);
    assert text[..|text| - |words|] == blank;
    assert EndTagText(name, "") == CloseTag(name);
    if words == "" {
      assert WrittenAll([]) + (blank + CloseTag(name)) == text + CloseTag(name);
    } else {
      assert blank + (words + CloseTag(name)) == text + CloseTag(name);
      assert words[..1][0] == words[0];
      assert forall i :: 0 <= i < |words| ==> words[i] == text[|blank| + i];
    }
  }

  lemma {:induction false} PlainIsPrinted(el: El)
    requires Printable(el)
    ensures Legal(Plain(el)) && Written(Plain(el)) == Print(el) && FormTree(Plain(el)) == Normal(el)
    decreases el, 1
  {
    if el.children == [] {
      LeafIsPrinted(el);
    } else {
      PlainAllIsPrinted(el.children);
      NodeIsPrinted(el, PlainAll(el.children));
    }
  }

  lemma LeafIsPrinted(el: El)
    requires Printable(el) && el.children == []
    ensures Legal(Plain(el)) && Written(Plain(el)) == Print(el) && FormTree(Plain(el)) == Normal(el)
  {
    PlainAttrsArePrinted(el.attrs);
    PlainTextIsPrinted(el.name, TextOf(el));
    PlainIsJoined(el, PrintAttrs(el.attrs), Body(el));
    assert Trees([]) == [] && NormalAll(el.children) == [];
  }

  lemma NodeIsPrinted(el: El, kids: seq<Form>)
    requires Printable(el) && el.children != [] && kids == PlainAll(el.children)
    requires AllLegal(kids) && WrittenAll(kids) == PrintAll(el.children) && Trees(kids) == NormalAll(el.children)
    ensures Legal(Plain(el)) && Written(Plain(el)) == Print(el) && FormTree(Plain(el)) == Normal(el)
  {
    PlainAttrsArePrinted(el.attrs);
    KidsArePrinted(el.name, kids);
    PlainIsJoined(el, PrintAttrs(el.attrs), Body(el));
  }

  lemma KidsArePrinted(name: string, kids: seq<Form>)
    ensures WrittenRest(name, Kids(kids, "", "")) == ">" + (WrittenAll(kids) + CloseTag(name))
  {
    assert EndTagText(name, "") == CloseTag(name);
    assert "" + CloseTag(name) == CloseTag(name);
  }

  lemma PlainIsJoined(el: El, attrs: string, body: string)
    requires attrs == PrintAttrs(el.attrs) == WrittenAttrs(PlainAttrs(el.attrs)) && body == Body(el)
    requires WrittenRest(el.name, Plain(el).rest) == ">" + (body + CloseTag(el.name))
    ensures Written(Plain(el)) == Print(el)
  {
    var rest := ">" + (body + CloseTag(el.name));
    assert "" + ("<" + (el.name + (attrs + ("" + rest)))) == (("<" + el.name) + attrs) + rest;
    assert (("<" + el.name) + attrs) + rest == ((("<" + el.name) + attrs) + ">") + body + CloseTag(el.name);
  }

  lemma {:induction false} PlainAllIsPrinted(els: seq<El>)
    requires AllPrintable(els)
    ensures AllLegal(PlainAll(els)) && WrittenAll(PlainAll(els)) == PrintAll(els)
    ensures Trees(PlainAll(els)) == NormalAll(els)
    decreases els, 0
  {
    if els != [] {
      PlainIsPrinted(els[0]);
      PlainAllIsPrinted(els[1..]);
      assert PlainAll(els)[1..] == PlainAll(els[1..]);
    }
  }

  /**
   * The parser undoes the printer: wherever a printable tree stands in its printed form, the
   * parser returns that tree (normalised) and stops exactly at its end.
   */
  lemma ParsesPrinted(s: string, i: nat, el: El)
    requires Printable(el) && At(s, i, Print(el))
    ensures ParseElement(s, i) == Element(Normal(el), i + |Print(el)|)
  {
    PlainIsPrinted(el);
    WrittenIsRead(s, i, Plain(el));
  }
}

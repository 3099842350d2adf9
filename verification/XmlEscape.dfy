/**
 * Escaping of text content by three replace-all passes, and unescaping by three in the
 * opposite sense: '&' is escaped first and unescaped last (section 2.4 of XML 1.0).
 */
module XmlEscape {
  import opened Text
  import opened PresetGrammar
  import opened PresetPrinting

  function Escape(s: string): string {
    ReplaceAll(ReplaceAll(ReplaceAll(s, "&", "&amp;"), "<", "&lt;"), ">", "&gt;")
  }

  function Unescape(s: string): string {
    ReplaceAll(ReplaceAll(ReplaceAll(s, "&lt;", "<"), "&gt;", ">"), "&amp;", "&")
  }

  // ----- text with some characters coded -----

  /** Which of the characters '&', '<' and '>' stand as entities. */
  datatype Codes = Codes(amp: bool, lt: bool, gt: bool)

  function Code(c: char, codes: Codes): (s: string)
    ensures s != ""
  {
    if c == '&' && codes.amp then "&amp;"
    else if c == '<' && codes.lt then "&lt;"
    else if c == '>' && codes.gt then "&gt;"
    else [c]
  }

  function Coded(s: string, codes: Codes): string {
    if s == "" then "" else Code(s[0], codes) + Coded(s[1..], codes)
  }

  predicate NoStartAt(chunk: string, pattern: string, k: nat)
    requires pattern != "" && k < |chunk|
  {
    chunk[k] != pattern[0] || (k + 1 < |chunk| && 1 < |pattern| && chunk[k + 1] != pattern[1])
  }

  /** `pattern` starts nowhere in `chunk`, whatever follows it. */
  predicate NoStart(chunk: string, pattern: string)
    requires pattern != ""
  {
    forall k :: 0 <= k < |chunk| ==> NoStartAt(chunk, pattern, k)
  }

  lemma NotHere(chunk: string, rest: string, pattern: string)
    requires pattern != "" && chunk != "" && NoStart(chunk, pattern)
    ensures !(pattern <= chunk + rest) && NoStart(chunk[1..], pattern)
  {
    var s, tail := chunk + rest, chunk[1..];
    forall k | 0 <= k < |tail| ensures NoStartAt(tail, pattern, k) {
      assert NoStartAt(chunk, pattern, k + 1);
    }
    assert NoStartAt(chunk, pattern, 0);
    if pattern <= s { assert false; }
  }

  lemma {:induction false} CopiesChunk(chunk: string, rest: string, pattern: string, with: string)
    requires pattern != "" && NoStart(chunk, pattern)
    ensures ReplaceAll(chunk + rest, pattern, with) == chunk + ReplaceAll(rest, pattern, with)
  {
    if chunk == "" {
      assert chunk + rest == rest;
    } else {
      NotHere(chunk, rest, pattern);
      CopiesChunk(chunk[1..], rest, pattern, with);
      assert (chunk + rest)[1..] == chunk[1..] + rest;
      assert chunk == [chunk[0]] + chunk[1..];
    }
  }

  lemma ReplacesChunk(pattern: string, rest: string, with: string)
    requires pattern != ""
    ensures ReplaceAll(pattern + rest, pattern, with) == with + ReplaceAll(rest, pattern, with)
  {
    assert (pattern + rest)[|pattern|..] == rest;
  }

  /** One pass turns every coding of a character into the coding with it (or without it). */
  predicate Recodes(pattern: string, with: string, from: Codes, to: Codes)
    requires pattern != ""
  {
    forall c :: if Code(c, from) == pattern then Code(c, to) == with
                else NoStart(Code(c, from), pattern) && Code(c, to) == Code(c, from)
  }

  lemma {:induction false} OnePass(s: string, pattern: string, with: string, from: Codes, to: Codes)
    requires pattern != "" && Recodes(pattern, with, from, to)
    ensures ReplaceAll(Coded(s, from), pattern, with) == Coded(s, to)
  {
    if s != "" {
      var chunk, rest := Code(s[0], from), Coded(s[1..], from);
      OnePass(s[1..], pattern, with, from, to);
      if chunk == pattern {
        ReplacesChunk(pattern, rest, with);
      } else {
        CopiesChunk(chunk, rest, pattern, with);
      }
    }
  }

  lemma {:induction false} UncodedIsText(s: string)
    ensures Coded(s, Codes(false, false, false)) == s
  {
    if s != "" { UncodedIsText(s[1..]); }
  }

  const PLAIN := Codes(false, false, false)
  const AMP := Codes(true, false, false)
  const AMP_LT := Codes(true, true, false)
  const AMP_GT := Codes(true, false, true)
  const ALL := Codes(true, true, true)

  lemma CodesAmp(s: string)
    ensures ReplaceAll(s, "&", "&amp;") == Coded(s, AMP) && ReplaceAll(Coded(s, AMP), "&amp;", "&") == s
  {
    UncodedIsText(s);
    OnePass(s, "&", "&amp;", PLAIN, AMP);
    OnePass(s, "&amp;", "&", AMP, PLAIN);
  }

  lemma CodesLt(s: string, from: Codes, to: Codes)
    requires from.amp && to == from.(lt := true) && !from.lt
    ensures ReplaceAll(Coded(s, from), "<", "&lt;") == Coded(s, to)
    ensures ReplaceAll(Coded(s, to), "&lt;", "<") == Coded(s, from)
  {
    OnePass(s, "<", "&lt;", from, to);
    OnePass(s, "&lt;", "<", to, from);
  }

  lemma CodesGt(s: string, from: Codes, to: Codes)
    requires from.amp && to == from.(gt := true) && !from.gt
    ensures ReplaceAll(Coded(s, from), ">", "&gt;") == Coded(s, to)
    ensures ReplaceAll(Coded(s, to), "&gt;", ">") == Coded(s, from)
  {
    OnePass(s, ">", "&gt;", from, to);
    OnePass(s, "&gt;", ">", to, from);
  }

  lemma EscapeIsCoded(s: string)
    ensures Escape(s) == Coded(s, ALL)
  {
    CodesAmp(s);
    CodesLt(s, AMP, AMP_LT);
    CodesGt(s, AMP_LT, ALL);
  }

  /** Unescaping undoes escaping on every string, also one that already contains entities. */
  lemma UnescapeUndoesEscape(s: string)
    ensures Unescape(Escape(s)) == s
  {
    EscapeIsCoded(s);
    CodesLt(s, AMP_GT, ALL);
    CodesGt(s, AMP, AMP_GT);
    CodesAmp(s);
  }

  // ----- what unescaping reads -----

  /** One pass from the left over the three entities; any other '&' stands for itself. */
  function Decoded(s: string): string {
    if s == "" then ""
    else if "&lt;" <= s then "<" + Decoded(s[4..])
    else if "&gt;" <= s then ">" + Decoded(s[4..])
    else if "&amp;" <= s then "&" + Decoded(s[5..])
    else [s[0]] + Decoded(s[1..])
  }

  /** A pass makes no new beginning without its own character or a '&'. */
  lemma {:induction false} BeginsAlike(front: string, t: string, pattern: string, with: char)
    requires pattern != "" && pattern[0] == '&' && Lacks(front, with) && Lacks(front, '&')
    requires front <= ReplaceAll(t, pattern, [with])
    ensures front <= t
    decreases |front|
  {
    if front != "" {
      assert ReplaceAll(t, pattern, [with])[0] == front[0] != with;
      BeginsAlike(front[1..], t[1..], pattern, with);
    }
  }

  lemma CopiesOther(c: char, rest: string, pattern: string, with: string)
    requires pattern != "" && c != pattern[0]
    ensures ReplaceAll([c] + rest, pattern, with) == [c] + ReplaceAll(rest, pattern, with)
  {
    assert NoStartAt([c], pattern, 0);
    CopiesChunk([c], rest, pattern, with);
  }

  lemma SkipsAmp(rest: string, pattern: string, with: string)
    requires pattern != "" && !(pattern <= "&" + rest)
    ensures ReplaceAll("&" + rest, pattern, with) == "&" + ReplaceAll(rest, pattern, with)
  {
    assert ("&" + rest)[1..] == rest;
  }

  lemma CopiesEntity(entity: string, rest: string, pattern: string, with: string)
    requires |entity| >= 2 && |pattern| >= 2 && entity[0] == pattern[0] == '&' && entity[1] != pattern[1]
    requires Lacks(entity[1..], '&')
    ensures ReplaceAll(entity + rest, pattern, with) == entity + ReplaceAll(rest, pattern, with)
  {
    forall k | 0 <= k < |entity| ensures NoStartAt(entity, pattern, k) {
      if k > 0 { assert entity[1..][k - 1] != '&'; }
    }
    CopiesChunk(entity, rest, pattern, with);
  }

  lemma UnescapesLt(t: string)
    ensures Unescape("&lt;" + t) == "<" + Unescape(t)
  {
    var u := ReplaceAll(t, "&lt;", "<");
    ReplacesChunk("&lt;", t, "<");
    CopiesOther('<', u, "&gt;", ">");
    CopiesOther('<', ReplaceAll(u, "&gt;", ">"), "&amp;", "&");
  }

  lemma UnescapesGt(t: string)
    ensures Unescape("&gt;" + t) == ">" + Unescape(t)
  {
    var u := ReplaceAll(t, "&lt;", "<");
    CopiesEntity("&gt;", t, "&lt;", "<");
    ReplacesChunk("&gt;", u, ">");
    CopiesOther('>', ReplaceAll(u, "&gt;", ">"), "&amp;", "&");
  }

  lemma UnescapesAmp(t: string)
    ensures Unescape("&amp;" + t) == "&" + Unescape(t)
  {
    var u := ReplaceAll(t, "&lt;", "<");
    CopiesEntity("&amp;", t, "&lt;", "<");
    CopiesEntity("&amp;", u, "&gt;", ">");
    ReplacesChunk("&amp;", ReplaceAll(u, "&gt;", ">"), "&");
  }

  lemma UnescapesOther(c: char, t: string)
    requires c != '&'
    ensures Unescape([c] + t) == [c] + Unescape(t)
  {
    var u := ReplaceAll(t, "&lt;", "<");
    CopiesOther(c, t, "&lt;", "<");
    CopiesOther(c, u, "&gt;", ">");
    CopiesOther(c, ReplaceAll(u, "&gt;", ">"), "&amp;", "&");
  }

  lemma EntityBehind(t: string, entity: string)
    requires |entity| >= 2 && entity[0] == '&' && !(entity <= "&" + t)
    ensures !(entity[1..] <= t)
  {
    if entity[1..] <= t { assert false; }
  }

  lemma UnescapesLoneAmp(t: string)
    requires !("&lt;" <= "&" + t) && !("&gt;" <= "&" + t) && !("&amp;" <= "&" + t)
    ensures Unescape("&" + t) == "&" + Unescape(t)
  {
    var u := ReplaceAll(t, "&lt;", "<");
    var v := ReplaceAll(u, "&gt;", ">");
    SkipsAmp(t, "&lt;", "<");
    EntityBehind(t, "&gt;");
    if "gt;" <= u { BeginsAlike("gt;", t, "&lt;", '<'); }
    SkipsAmp(u, "&gt;", ">");
    EntityBehind(t, "&amp;");
    if "amp;" <= v {
      BeginsAlike("amp;", u, "&gt;", '>');
      BeginsAlike("amp;", t, "&lt;", '<');
    }
    SkipsAmp(v, "&amp;", "&");
  }

  /** The three passes read every string as one pass over the entities does. */
  lemma {:induction false} UnescapeIsDecoded(s: string)
    ensures Unescape(s) == Decoded(s)
  {
    if s != "" {
      if "&lt;" <= s {
        UnescapeIsDecoded(s[4..]);
        UnescapesLt(s[4..]);
        assert s == "&lt;" + s[4..];
      } else if "&gt;" <= s {
        UnescapeIsDecoded(s[4..]);
        UnescapesGt(s[4..]);
        assert s == "&gt;" + s[4..];
      } else if "&amp;" <= s {
        UnescapeIsDecoded(s[5..]);
        UnescapesAmp(s[5..]);
        assert s == "&amp;" + s[5..];
      } else {
        UnescapeIsDecoded(s[1..]);
        assert s == [s[0]] + s[1..];
        if s[0] == '&' {
          assert s == "&" + s[1..];
          UnescapesLoneAmp(s[1..]);
        } else {
          UnescapesOther(s[0], s[1..]);
        }
      }
    }
  }

  // ----- escaped text as content -----

  lemma {:induction false} CodedHasNoTag(s: string)
    ensures Lacks(Coded(s, ALL), '<')
  {
    if s != "" { CodedHasNoTag(s[1..]); }
  }

  /** White space is never escaped, so trimming and escaping commute. */
  lemma {:induction false} CodedTrims(s: string)
    ensures TrimStart(Coded(s, ALL)) == Coded(TrimStart(s), ALL)
  {
    if s != "" && IsSpace(s[0]) {
      CodedTrims(s[1..]);
      assert Coded(s, ALL)[1..] == Coded(s[1..], ALL);
    }
  }

  lemma EscapedContent(s: string)
    ensures Lacks(Escape(s), '<') && TrimStart(Escape(s)) == Escape(TrimStart(s))
    ensures Escape(s) == "" <==> s == ""
  {
    EscapeIsCoded(s);
    EscapeIsCoded(TrimStart(s));
    CodedHasNoTag(s);
    CodedTrims(s);
  }

  /** Escaping goes character by character: three are spelled as entities, the others stay. */
  lemma EscapeSpelled(c: char, s: string)
    ensures Escape("") == ""
    ensures Escape([c] + s) ==
      (if c == '&' then "&amp;" else if c == '<' then "&lt;" else if c == '>' then "&gt;" else [c]) + Escape(s)
  {
    EscapeIsCoded("");
    EscapeIsCoded(s);
    EscapeIsCoded([c] + s);
    assert ([c] + s)[1..] == s;
  }
}

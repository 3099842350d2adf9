/** The shortcuts file: only overrides that differ from the defaults are written, one key each. */
module ShortcutFile {
  import opened Wrappers
  import opened Text
  import opened Shortcuts
  import opened ShortcutRuns

  // ----- the text -----

  predicate IsAction(kb: Keyboard, id: string) {
    exists i :: 0 <= i < |kb.registry| && kb.registry[i].id == id
  }

  function WithoutReturn(s: string): string {
    if s != "" && s[|s| - 1] == '\r' then s[..|s| - 1] else s
  }

  function Trim(s: string): string {
    TrimEnd(TrimStart(s))
  }

  /** `parse_shortcut_line`: none for blank and malformed lines; an empty key means unbound. */
  function ParseLine(kb: Keyboard, text: string): Option<Line> {
    var line := WithoutReturn(text);
    var parts := SplitOnce(line, '\t');
    if Trim(line) == "" || parts.None? then None
    else
      var id, value := Trim(parts.value.0), Trim(parts.value.1);
      if !IsAction(kb, id) then None
      else if value == "" then Some(Line(id, []))
      else if Canonical(kb, value).None? then None
      else Some(Line(id, [value]))
  }

  /** `str::lines`, one call per line: a line feed ends a line and takes a carriage return before it along. */
  function FirstLine(s: string): string {
    var k := Until(s, 0, '\n');
    if k < |s| then WithoutReturn(s[..k]) else s
  }

  function ParseFile(kb: Keyboard, s: string): seq<Line>
    decreases |s|
  {
    if s == "" then []
    else
      var k := Until(s, 0, '\n');
      var line := ParseLine(kb, FirstLine(s));
      (if line.Some? then [line.value] else []) + ParseFile(kb, if k < |s| then s[k + 1..] else "")
  }

  function LineText(line: Line): string {
    line.id + "\t" + if line.keys == [] then "" else line.keys[0]
  }

  /** The first `n` lines joined by line feeds. */
  function Serialized(lines: seq<Line>): string {
    if lines == [] then ""
    else if |lines| == 1 then LineText(lines[0])
    else LineText(lines[0]) + "\n" + Serialized(lines[1..])
  }

  /** The same, built line by line: the first `n` lines. */
  function Joined(lines: seq<Line>, n: nat): string
    requires n <= |lines|
  {
    if n == 0 then "" else Joined(lines, n - 1) + (if n > 1 then "\n" else "") + LineText(lines[n - 1])
  }

  lemma {:induction false} SerializedEndsIn(lines: seq<Line>, last: Line)
    ensures Serialized(lines + [last]) ==
      if lines == [] then LineText(last) else Serialized(lines) + "\n" + LineText(last)
  {
    if |lines| == 1 {
      assert (lines + [last])[1..] == [last];
    } else if lines != [] {
      SerializedEndsIn(lines[1..], last);
      assert (lines + [last])[1..] == lines[1..] + [last];
      Reassociate(LineText(lines[0]) + "\n", Serialized(lines[1..]), "\n", LineText(last));
    }
  }

  lemma Reassociate(a: string, b: string, c: string, d: string)
    ensures a + (b + c + d) == (a + b) + c + d
  {
  }

  lemma {:induction false} JoinedIsSerialized(lines: seq<Line>, n: nat)
    requires n <= |lines|
    ensures Joined(lines, n) == Serialized(lines[..n])
  {
    if n > 0 {
      JoinedIsSerialized(lines, n - 1);
      SerializedEndsIn(lines[..n - 1], lines[n - 1]);
      assert lines[..n] == lines[..n - 1] + [lines[n - 1]];
    }
  }

  /** `serialize_shortcut_file`. */
  method SerializeShortcutFile(lines: seq<Line>) returns (out: string)
    ensures out == Serialized(lines)
  {
    out := "";
    for i := 0 to |lines|
      invariant out == Joined(lines, i)
    {
      if i > 0 {
        out := out + "\n";
      }
      out := out + LineText(lines[i]);
    }
    JoinedIsSerialized(lines, |lines|);
    assert lines[..|lines|] == lines;
  }

  /** Text that survives trimming and holds no tab or line end. */
  predicate Clean(s: string) {
    && (s == "" || (!IsSpace(s[0]) && !IsSpace(s[|s| - 1])))
    && forall i :: 0 <= i < |s| ==> s[i] != '\t' && s[i] != '\n' && s[i] != '\r'
  }

  /** A line the file can hold: a registered id and at most one key, a keystroke. */
  predicate Writable(kb: Keyboard, line: Line) {
    && IsAction(kb, line.id) && Clean(line.id) && line.id != "" && |line.keys| <= 1
    && (line.keys != [] ==> Clean(line.keys[0]) && line.keys[0] != "" && Canonical(kb, line.keys[0]).Some?)
  }

  lemma TrimOfClean(s: string)
    requires Clean(s)
    ensures Trim(s) == s
  {
  }

  lemma {:induction false} UntilFinds(s: string, i: nat, end: nat, c: char)
    requires i <= end <= |s| && (forall k :: i <= k < end ==> s[k] != c) && (end < |s| ==> s[end] == c)
    ensures Until(s, i, c) == end
    decreases end - i
  {
    if i < end { UntilFinds(s, i + 1, end, c); }
  }

  lemma SplitAtTab(id: string, value: string)
    requires Clean(id)
    ensures SplitOnce(id + "\t" + value, '\t') == Some((id, value))
  {
    var s := id + "\t" + value;
    assert forall k :: 0 <= k < |id| ==> s[k] == id[k];
    UntilFinds(s, 0, |id|, '\t');
    assert s[..|id|] == id && s[|id| + 1..] == value;
  }

  lemma {:induction false} TrimNotBlank(s: string)
    requires s != "" && !IsSpace(s[0])
    ensures Trim(s) != ""
    decreases |s|
  {
    if IsSpace(s[|s| - 1]) && |s| > 1 {
      TrimNotBlank(s[..|s| - 1]);
      assert TrimStart(s) == s && TrimStart(s[..|s| - 1]) == s[..|s| - 1];
    }
  }

  /** Reading a written line gives the line. */
  lemma LineRoundTrip(kb: Keyboard, line: Line)
    requires Writable(kb, line)
    ensures ParseLine(kb, LineText(line)) == Some(line)
  {
    var value := if line.keys == [] then "" else line.keys[0];
    var s := line.id + "\t" + value;
    assert s[0] == line.id[0];
    NoReturnAtEnd(line.id, value);
    SplitAtTab(line.id, value);
    TrimNotBlank(s);
    TrimOfClean(line.id);
    TrimOfClean(value);
    if line.keys != [] { assert line.keys == [value]; }
  }

  lemma NoReturnAtEnd(id: string, value: string)
    requires Clean(value)
    ensures WithoutReturn(id + "\t" + value) == id + "\t" + value
  {
    var s := id + "\t" + value;
    assert s[|s| - 1] == if value == "" then '\t' else value[|value| - 1];
  }

  predicate AllWritable(kb: Keyboard, lines: seq<Line>) {
    forall i :: 0 <= i < |lines| ==> Writable(kb, lines[i])
  }

  /** The line feed after a written line is the first. */
  lemma FirstLineRead(kb: Keyboard, line: Line, rest: string)
    requires Writable(kb, line)
    ensures var s := LineText(line) + "\n" + rest;
      && Until(s, 0, '\n') == |LineText(line)| && FirstLine(s) == LineText(line)
      && s[|LineText(line)| + 1..] == rest
  {
    var text := LineText(line);
    var s := text + "\n" + rest;
    NoFeed(kb, line);
    assert forall k :: 0 <= k < |text| ==> s[k] == text[k];
    UntilFinds(s, 0, |text|, '\n');
    assert s[..|text|] == text;
    NoReturnAtEnd(line.id, if line.keys == [] then "" else line.keys[0]);
  }

  lemma NoFeed(kb: Keyboard, line: Line)
    requires Writable(kb, line)
    ensures LineText(line) != "" && forall k :: 0 <= k < |LineText(line)| ==> LineText(line)[k] != '\n'
  {
    var value := if line.keys == [] then "" else line.keys[0];
    assert LineText(line) == line.id + "\t" + value;
  }

  lemma OnlyLineRead(kb: Keyboard, line: Line)
    requires Writable(kb, line)
    ensures ParseFile(kb, LineText(line)) == [line]
  {
    NoFeed(kb, line);
    UntilFinds(LineText(line), 0, |LineText(line)|, '\n');
    LineRoundTrip(kb, line);
  }

  lemma FirstOfMany(kb: Keyboard, line: Line, rest: string)
    requires Writable(kb, line)
    ensures ParseFile(kb, LineText(line) + "\n" + rest) == [line] + ParseFile(kb, rest)
  {
    FirstLineRead(kb, line, rest);
    LineRoundTrip(kb, line);
  }

  /** Parsing a serialised file gives back its lines. */
  lemma {:induction false} FileRoundTrip(kb: Keyboard, lines: seq<Line>)
    requires AllWritable(kb, lines)
    ensures ParseFile(kb, Serialized(lines)) == lines
  {
    if |lines| == 1 {
      OnlyLineRead(kb, lines[0]);
    } else if lines != [] {
      FileRoundTrip(kb, lines[1..]);
      FirstOfMany(kb, lines[0], Serialized(lines[1..]));
      assert lines == [lines[0]] + lines[1..];
    }
  }

  // ----- saving and loading the table -----

  /** The canonical forms of the keys that are keystrokes. */
  function CanonicalKeys(kb: Keyboard, keys: seq<string>): seq<string> {
    if keys == [] then []
    else (if Canonical(kb, keys[0]).Some? then [Canonical(kb, keys[0]).value] else []) + CanonicalKeys(kb, keys[1..])
  }

  /** The override of an entry says something other than its defaults. */
  predicate Differs(kb: Keyboard, table: Table, entry: Entry) {
    entry.id in table && CanonicalKeys(kb, Effective(table, entry)) != CanonicalKeys(kb, entry.defaults)
  }

  /** The lines `save_custom_shortcuts_to` writes for the first `n` entries. */
  function Diff(kb: Keyboard, table: Table, n: nat): seq<Line>
    requires n <= |kb.registry|
  {
    if n == 0 then []
    else
      var before, entry := Diff(kb, table, n - 1), kb.registry[n - 1];
      if Differs(kb, table, entry) then before + [Line(entry.id, Effective(table, entry))] else before
  }

  method SaveLines(kb: Keyboard, table: Table) returns (lines: seq<Line>)
    ensures lines == Diff(kb, table, |kb.registry|)
  {
    lines := [];
    for i := 0 to |kb.registry|
      invariant lines == Diff(kb, table, i)
    {
      var entry := kb.registry[i];
      if entry.id in table {
        var effective := if table[entry.id].Unbound? then [] else table[entry.id].keys;
        if CanonicalKeys(kb, effective) != CanonicalKeys(kb, entry.defaults) {
          lines := lines + [Line(entry.id, effective)];
        }
      }
    }
  }

  /** The file after saving: none when nothing differs. */
  function SavedFile(kb: Keyboard, table: Table): Option<string> {
    var lines := Diff(kb, table, |kb.registry|);
    if lines == [] then None else Some(Serialized(lines))
  }

  /** The table at startup: a missing file leaves it empty. */
  function LoadedTable(kb: Keyboard, file: Option<string>): Table {
    if file.None? then map[] else Applied(ParseFile(kb, file.value))
  }

  /** What is read back from a line: only its first key was written. */
  function FirstKey(keys: seq<string>): seq<string> {
    if keys == [] then [] else [keys[0]]
  }

  function FirstOnly(lines: seq<Line>): seq<Line> {
    if lines == [] then [] else [Line(lines[0].id, FirstKey(lines[0].keys))] + FirstOnly(lines[1..])
  }

  lemma {:induction false} FirstOnlySameText(lines: seq<Line>)
    ensures Serialized(FirstOnly(lines)) == Serialized(lines)
  {
    if lines != [] {
      FirstOnlySameText(lines[1..]);
      assert FirstOnly(lines)[1..] == FirstOnly(lines[1..]);
      if |lines| == 1 { assert lines[1..] == []; }
    }
  }

  lemma {:induction false} FirstOnlyMore(lines: seq<Line>, last: Line)
    ensures FirstOnly(lines + [last]) == FirstOnly(lines) + [Line(last.id, FirstKey(last.keys))]
  {
    if lines == [] {
      assert (lines + [last])[1..] == [];
    } else {
      FirstOnlyMore(lines[1..], last);
      assert (lines + [last])[1..] == lines[1..] + [last];
    }
  }

  /** What the action of entry `j` is bound to after loading the lines written for the first `n` entries. */
  lemma {:induction false} LoadEffect(kb: Keyboard, table: Table, n: nat, j: nat)
    requires UniqueIds(kb) && n <= |kb.registry| && j < |kb.registry|
    ensures Effective(Applied(FirstOnly(Diff(kb, table, n))), kb.registry[j]) ==
      if j < n && Differs(kb, table, kb.registry[j]) then FirstKey(Effective(table, kb.registry[j]))
      else kb.registry[j].defaults
  {
    if n > 0 {
      var entry := kb.registry[n - 1];
      LoadEffect(kb, table, n - 1, j);
      if Differs(kb, table, entry) {
        LoadLineEffect(kb, Diff(kb, table, n - 1), Effective(table, entry), n - 1, j);
      }
    }
  }

  /** A line for entry `i` behind others. */
  lemma LoadLineEffect(kb: Keyboard, before: seq<Line>, keys: seq<string>, i: nat, j: nat)
    requires UniqueIds(kb) && i < |kb.registry| && j < |kb.registry|
    ensures Effective(Applied(FirstOnly(before + [Line(kb.registry[i].id, keys)])), kb.registry[j]) ==
      if j == i then FirstKey(keys) else Effective(Applied(FirstOnly(before)), kb.registry[j])
  {
    var id := kb.registry[i].id;
    FirstOnlyMore(before, Line(id, keys));
    AppliedMore(FirstOnly(before), Line(id, FirstKey(keys)));
    SetEffect(kb, Applied(FirstOnly(before)), i, FirstKey(keys), j);
  }

  /** Every id and every bound key is text the file can hold, and the keys are keystrokes. */
  predicate Fits(kb: Keyboard, table: Table) {
    forall i :: 0 <= i < |kb.registry| ==>
      Clean(kb.registry[i].id) && kb.registry[i].id != "" && KeysFit(kb, Effective(table, kb.registry[i]))
  }

  predicate KeysFit(kb: Keyboard, keys: seq<string>) {
    forall i :: 0 <= i < |keys| ==> Clean(keys[i]) && keys[i] != "" && Canonical(kb, keys[i]).Some?
  }

  lemma {:induction false} DiffWritable(kb: Keyboard, table: Table, n: nat)
    requires n <= |kb.registry| && Fits(kb, table)
    ensures AllWritable(kb, FirstOnly(Diff(kb, table, n)))
  {
    if n > 0 {
      var entry := kb.registry[n - 1];
      DiffWritable(kb, table, n - 1);
      if Differs(kb, table, entry) {
        var keys := Effective(table, entry);
        FirstOnlyMore(Diff(kb, table, n - 1), Line(entry.id, keys));
        assert KeysFit(kb, keys);
        assert Writable(kb, Line(entry.id, FirstKey(keys)));
      }
    }
  }

  /** Saving and loading leaves an unchanged action at its defaults and a changed one at the first of its keys. */
  lemma SaveThenLoad(kb: Keyboard, table: Table, j: nat)
    requires UniqueIds(kb) && Fits(kb, table) && j < |kb.registry|
    ensures Effective(LoadedTable(kb, SavedFile(kb, table)), kb.registry[j]) ==
      if Differs(kb, table, kb.registry[j]) then FirstKey(Effective(table, kb.registry[j])) else kb.registry[j].defaults
  {
    var lines := Diff(kb, table, |kb.registry|);
    LoadEffect(kb, table, |kb.registry|, j);
    DiffWritable(kb, table, |kb.registry|);
    FileRoundTrip(kb, FirstOnly(lines));
    FirstOnlySameText(lines);
  }

  lemma {:induction false} AllCanonical(kb: Keyboard, keys: seq<string>)
    requires KeysFit(kb, keys)
    ensures |CanonicalKeys(kb, keys)| == |keys|
  {
    if keys != [] {
      assert forall i :: 0 <= i < |keys| - 1 ==> keys[1..][i] == keys[i + 1];
      AllCanonical(kb, keys[1..]);
    }
  }

  /** An action's canonical keys survive saving and loading exactly when it is unchanged or has at most one key. */
  lemma KeysSurviveExactly(kb: Keyboard, table: Table, j: nat)
    requires UniqueIds(kb) && Fits(kb, table) && j < |kb.registry|
    ensures var entry := kb.registry[j];
      CanonicalKeys(kb, Effective(LoadedTable(kb, SavedFile(kb, table)), entry))
          == CanonicalKeys(kb, Effective(table, entry))
      <==> !Differs(kb, table, entry) || |Effective(table, entry)| <= 1
  {
    var entry := kb.registry[j];
    var keys := Effective(table, entry);
    SaveThenLoad(kb, table, j);
    if Differs(kb, table, entry) {
      AllCanonical(kb, keys);
      AllCanonical(kb, FirstKey(keys));
      if |keys| == 1 { assert FirstKey(keys) == keys; }
    }
  }

  lemma {:induction false} WithoutFits(kb: Keyboard, keys: seq<string>, c: string)
    requires KeysFit(kb, keys)
    ensures KeysFit(kb, Without(kb, keys, c))
  {
    if keys != [] {
      assert forall i :: 0 <= i < |keys| - 1 ==> keys[1..][i] == keys[i + 1];
      WithoutFits(kb, keys[1..], c);
    }
  }

  lemma {:induction false} LineKeysFit(kb: Keyboard, lines: seq<Line>, entry: Entry)
    requires KeysFit(kb, entry.defaults) && forall i :: 0 <= i < |lines| ==> KeysFit(kb, lines[i].keys)
    ensures KeysFit(kb, LineKeys(lines, entry))
  {
    if lines != [] { LineKeysFit(kb, lines[..|lines| - 1], entry); }
  }

  /** The keys a step brings in are text the file can hold. */
  predicate BringsText(kb: Keyboard, step: Step) {
    match step
    case Assign(_, key) => Clean(key) && key != ""
    case Import(lines) => forall i :: 0 <= i < |lines| ==> KeysFit(kb, lines[i].keys)
    case _ => true
  }

  lemma StepKeepsFit(kb: Keyboard, table: Table, step: Step)
    requires UniqueIds(kb) && Legal(kb, step) && BringsText(kb, step) && Fits(kb, map[]) && Fits(kb, table)
    ensures Fits(kb, Next(kb, table, step))
  {
    forall j | 0 <= j < |kb.registry| ensures KeysFit(kb, Effective(Next(kb, table, step), kb.registry[j])) {
      NextEffect(kb, table, step, j);
      assert KeysFit(kb, Effective(table, kb.registry[j])) && KeysFit(kb, Effective(map[], kb.registry[j]));
      if step.Assign? { WithoutFits(kb, Effective(table, kb.registry[j]), step.key); }
      if step.Import? { LineKeysFit(kb, step.lines, kb.registry[j]); }
    }
  }

  lemma {:induction false} EveryRunFits(kb: Keyboard, steps: seq<Step>, n: nat, start: Table)
    requires n <= |steps| && AllLegal(kb, steps) && forall k :: 0 <= k < |steps| ==> BringsText(kb, steps[k])
    requires UniqueIds(kb) && start == map[] && Fits(kb, start)
    ensures Fits(kb, After(kb, start, steps, n))
  {
    if n > 0 {
      EveryRunFits(kb, steps, n - 1, start);
      StepKeepsFit(kb, After(kb, start, steps, n - 1), steps[n - 1]);
    }
  }

  /** After any run, of all five operations, every action's canonical keys survive saving and loading. */
  lemma RunsSurviveSaving(kb: Keyboard, steps: seq<Step>, n: nat, start: Table, j: nat)
    requires n <= |steps| && AllLegal(kb, steps) && forall k :: 0 <= k < |steps| ==> BringsText(kb, steps[k])
    requires UniqueIds(kb) && DefaultsFit(kb) && start == map[] && Fits(kb, start) && j < |kb.registry|
    ensures var table := After(kb, start, steps, n);
      CanonicalKeys(kb, Effective(LoadedTable(kb, SavedFile(kb, table)), kb.registry[j]))
      == CanonicalKeys(kb, Effective(table, kb.registry[j]))
  {
    EveryRunKeepsSingleKeys(kb, steps, n, start);
    EveryRunFits(kb, steps, n, start);
    KeysSurviveExactly(kb, After(kb, start, steps, n), j);
  }

  // ----- files of any origin -----

  predicate IsParsed(kb: Keyboard, line: Line) {
    |line.keys| <= 1 && (line.keys != [] ==> Canonical(kb, line.keys[0]).Some?) && IsAction(kb, line.id)
  }

  lemma ParsedLine(kb: Keyboard, text: string)
    ensures ParseLine(kb, text).Some? ==> IsParsed(kb, ParseLine(kb, text).value)
  {
  }

  predicate AllParsed(kb: Keyboard, lines: seq<Line>) {
    forall i :: 0 <= i < |lines| ==> IsParsed(kb, lines[i])
  }

  lemma ParsedJoin(kb: Keyboard, line: Option<Line>, rest: seq<Line>)
    requires AllParsed(kb, rest) && (line.Some? ==> IsParsed(kb, line.value))
    ensures AllParsed(kb, (if line.Some? then [line.value] else []) + rest)
  {
  }

  lemma {:induction false} ParsedLines(kb: Keyboard, s: string)
    ensures AllParsed(kb, ParseFile(kb, s))
    decreases |s|
  {
    if s != "" {
      var k := Until(s, 0, '\n');
      var rest := if k < |s| then s[k + 1..] else "";
      ParsedLine(kb, FirstLine(s));
      ParsedLines(kb, rest);
      ParsedJoin(kb, ParseLine(kb, FirstLine(s)), ParseFile(kb, rest));
    }
  }

  /** Whatever text it is given, the parser yields a legal import of registered actions and keystrokes. */
  lemma ParsedFileIsLegal(kb: Keyboard, s: string, lines: seq<Line>)
    requires lines == ParseFile(kb, s)
    ensures Legal(kb, Import(lines)) && AllParsed(kb, lines)
  {
    ParsedLines(kb, s);
  }

  /** No keystroke holds a tab or a carriage return. */
  ghost predicate KeystrokesAreText(kb: Keyboard) {
    forall key :: Canonical(kb, key).Some? ==> forall i :: 0 <= i < |key| ==> key[i] != '\t' && key[i] != '\r'
  }

  lemma {:induction false} TrimmedText(s: string)
    ensures Trim(s) == "" || (!IsSpace(Trim(s)[0]) && !IsSpace(Trim(s)[|Trim(s)| - 1]))
    ensures forall c :: c in Trim(s) ==> c in s
  {
    StartKeepsText(s);
    EndKeepsText(TrimStart(s));
  }

  lemma {:induction false} StartKeepsText(s: string)
    ensures forall c :: c in TrimStart(s) ==> c in s
  {
    if s != "" && IsSpace(s[0]) { StartKeepsText(s[1..]); }
  }

  lemma {:induction false} EndKeepsText(s: string)
    requires s != "" ==> !IsSpace(s[0])
    ensures forall c :: c in TrimEnd(s) ==> c in s
    ensures TrimEnd(s) != "" ==> TrimEnd(s)[0] == s[0] && !IsSpace(TrimEnd(s)[|TrimEnd(s)| - 1])
    decreases |s|
  {
    if s != "" && IsSpace(s[|s| - 1]) {
      assert s[..|s| - 1][0] == s[0];
      EndKeepsText(s[..|s| - 1]);
    }
  }

  /** The key of a parsed line is a key the file can hold. */
  lemma ParsedKeyFits(kb: Keyboard, text: string)
    requires KeystrokesAreText(kb) && '\n' !in text
    ensures ParseLine(kb, text).Some? ==> KeysFit(kb, ParseLine(kb, text).value.keys)
  {
    var line := WithoutReturn(text);
    var parts := SplitOnce(line, '\t');
    if ParseLine(kb, text).Some? && ParseLine(kb, text).value.keys != [] {
      var value := Trim(parts.value.1);
      TrimmedText(parts.value.1);
      assert '\n' !in value by { assert forall c :: c in parts.value.1 ==> c in line; }
      assert Canonical(kb, value).Some?;
    }
  }

  lemma {:induction false} UntilMeansNoneBefore(s: string, i: nat, c: char)
    requires i <= |s|
    ensures forall k :: i <= k < Until(s, i, c) ==> s[k] != c
    decreases |s| - i
  {
    if i < |s| && s[i] != c { UntilMeansNoneBefore(s, i + 1, c); }
  }

  lemma FirstLineHasNoFeed(s: string)
    ensures '\n' !in FirstLine(s)
  {
    UntilMeansNoneBefore(s, 0, '\n');
  }

  predicate AllKeysFit(kb: Keyboard, lines: seq<Line>) {
    forall i :: 0 <= i < |lines| ==> KeysFit(kb, lines[i].keys)
  }

  lemma FitJoin(kb: Keyboard, line: Option<Line>, rest: seq<Line>)
    requires AllKeysFit(kb, rest) && (line.Some? ==> KeysFit(kb, line.value.keys))
    ensures AllKeysFit(kb, (if line.Some? then [line.value] else []) + rest)
  {
  }

  lemma {:induction false} ParsedKeysFit(kb: Keyboard, s: string)
    requires KeystrokesAreText(kb)
    ensures AllKeysFit(kb, ParseFile(kb, s))
    decreases |s|
  {
    if s != "" {
      var k := Until(s, 0, '\n');
      var rest := if k < |s| then s[k + 1..] else "";
      FirstLineFits(kb, s);
      ParsedKeysFit(kb, rest);
      FitJoin(kb, ParseLine(kb, FirstLine(s)), ParseFile(kb, rest));
    }
  }

  lemma FirstLineFits(kb: Keyboard, s: string)
    requires KeystrokesAreText(kb)
    ensures var line := ParseLine(kb, FirstLine(s)); line.Some? ==> KeysFit(kb, line.value.keys)
  {
    FirstLineHasNoFeed(s);
    ParsedKeyFits(kb, FirstLine(s));
  }

  /** What the page can do: assign a key that is text, import a file, or one of the rest. */
  ghost predicate ComesFromPage(kb: Keyboard, step: Step) {
    match step
    case Assign(_, key) => Clean(key) && key != ""
    case Import(lines) => exists s :: lines == ParseFile(kb, s)
    case _ => true
  }

  lemma PageStepBringsText(kb: Keyboard, step: Step)
    requires KeystrokesAreText(kb) && ComesFromPage(kb, step)
    ensures BringsText(kb, step) && (step.Import? ==> Legal(kb, step))
  {
    if step.Import? {
      var s :| step.lines == ParseFile(kb, s);
      ParsedKeysFit(kb, s);
      ParsedFileIsLegal(kb, s, step.lines);
    }
  }

  /** Runs that import files of any origin survive saving, as long as no keystroke holds a tab or a carriage return. */
  lemma RunsWithFilesSurviveSaving(kb: Keyboard, steps: seq<Step>, n: nat, start: Table, j: nat)
    requires n <= |steps| && KeystrokesAreText(kb) && forall k :: 0 <= k < |steps| ==> ComesFromPage(kb, steps[k])
    requires AllLegal(kb, steps)
    requires UniqueIds(kb) && DefaultsFit(kb) && start == map[] && Fits(kb, start) && j < |kb.registry|
    ensures var table := After(kb, start, steps, n);
      CanonicalKeys(kb, Effective(LoadedTable(kb, SavedFile(kb, table)), kb.registry[j]))
      == CanonicalKeys(kb, Effective(table, kb.registry[j]))
  {
    forall k | 0 <= k < |steps| ensures BringsText(kb, steps[k]) {
      PageStepBringsText(kb, steps[k]);
    }
    RunsSurviveSaving(kb, steps, n, start, j);
  }

  // ----- the text, line by line -----

  /** A line is the id, a tab and the first key; lines are joined by line feeds. */
  lemma TextOfLines(id: string, keys: seq<string>, first: Line, second: Line)
    ensures LineText(Line(id, keys)) == id + "\t" + if keys == [] then "" else keys[0]
    ensures Serialized([]) == "" && Serialized([first]) == LineText(first)
    ensures Serialized([first, second]) == LineText(first) + "\n" + LineText(second)
  {
    assert [first, second][1..] == [second];
  }

  /**
   * Every line of a file is read on its own, whatever it holds: a line that is blank or malformed
   * is skipped and the lines behind it are read all the same. A carriage return before the line
   * feed is dropped.
   */
  lemma FileIsReadLineByLine(kb: Keyboard, line: string, rest: string)
    requires '\n' !in line
    ensures ParseFile(kb, line + "\n" + rest) ==
      (match ParseLine(kb, WithoutReturn(line)) case Some(l) => [l] case None => []) + ParseFile(kb, rest)
    ensures line != "" ==> ParseFile(kb, line) == match ParseLine(kb, line) case Some(l) => [l] case None => []
  {
    FeedEndsLine(line, rest);
    UntilFinds(line, 0, |line|, '\n');
  }

  lemma FeedEndsLine(line: string, rest: string)
    requires '\n' !in line
    ensures var s := line + "\n" + rest;
      Until(s, 0, '\n') == |line| && FirstLine(s) == WithoutReturn(line) && s[|line| + 1..] == rest
  {
    var s := line + "\n" + rest;
    assert forall k :: 0 <= k < |line| ==> s[k] == line[k];
    UntilFinds(s, 0, |line|, '\n');
    assert s[..|line|] == line;
  }

  /** Which lines are read, and as what: a registered id, a tab, and a keystroke or nothing, trimmed. */
  lemma LineIsRead(kb: Keyboard, line: string, id: string, key: string)
    requires '\r' !in line && SplitOnce(line, '\t').Some?
    requires id == Trim(SplitOnce(line, '\t').value.0) && key == Trim(SplitOnce(line, '\t').value.1)
    ensures IsAction(kb, id) && (key == "" || Canonical(kb, key).Some?) && Trim(line) != "" ==>
      ParseLine(kb, line) == Some(Line(id, if key == "" then [] else [key]))
    ensures !IsAction(kb, id) || (key != "" && Canonical(kb, key).None?) || Trim(line) == "" ==>
      ParseLine(kb, line) == None
  {
  }

  /** A line without a tab is skipped. */
  lemma LineNeedsATab(kb: Keyboard, line: string)
    requires '\t' !in line
    ensures ParseLine(kb, line) == None
  {
    assert '\t' !in WithoutReturn(line);
    UntilFinds(WithoutReturn(line), 0, |WithoutReturn(line)|, '\t');
  }

  // ----- which overrides are saved -----

  lemma CanonicalFirst(kb: Keyboard, key: string, rest: seq<string>)
    ensures CanonicalKeys(kb, [key] + rest) == CanonicalKeys(kb, [key]) + CanonicalKeys(kb, rest)
    ensures CanonicalKeys(kb, [key]) == match Canonical(kb, key) case Some(c) => [c] case None => []
  {
    assert ([key] + rest)[1..] == rest && [key][1..] == [];
  }

  /** The canonical forms are those of the keys that are keystrokes, in order. */
  lemma {:induction false} CanonicalKeysFilter(kb: Keyboard, a: seq<string>, b: seq<string>)
    ensures CanonicalKeys(kb, a + b) == CanonicalKeys(kb, a) + CanonicalKeys(kb, b)
  {
    if a == [] {
      assert a + b == b;
    } else {
      FirstOfJoined(a, b);
      CanonicalFirst(kb, a[0], a[1..]);
      CanonicalFirst(kb, a[0], a[1..] + b);
      CanonicalKeysFilter(kb, a[1..], b);
      JoinsAssociate(CanonicalKeys(kb, [a[0]]), CanonicalKeys(kb, a[1..]), CanonicalKeys(kb, b));
    }
  }

  /** Entry `i` has an override whose canonical keys are not those of its defaults. */
  predicate IsChanged(kb: Keyboard, table: Table, i: nat)
    requires i < |kb.registry|
  {
    kb.registry[i].id in table
      && CanonicalKeys(kb, Effective(table, kb.registry[i])) != CanonicalKeys(kb, kb.registry[i].defaults)
  }

  /** The lines saved are those of the changed entries and no others, one each, in the order of the registry. */
  lemma {:induction false} SavedLinesAreTheChanges(kb: Keyboard, table: Table, n: nat) returns (at: seq<nat>)
    requires n <= |kb.registry|
    ensures |at| == |Diff(kb, table, n)| && forall k :: 0 <= k < |at| ==>
      && at[k] < n && IsChanged(kb, table, at[k])
      && Diff(kb, table, n)[k] == Line(kb.registry[at[k]].id, Effective(table, kb.registry[at[k]]))
    ensures forall j, k :: 0 <= j < k < |at| ==> at[j] < at[k]
    ensures forall i: nat :: i < n && IsChanged(kb, table, i) ==> i in at
  {
    at := [];
    if n > 0 {
      var before := SavedLinesAreTheChanges(kb, table, n - 1);
      at := before;
      if Differs(kb, table, kb.registry[n - 1]) {
        at := before + [n - 1];
        assert at[|before|] == n - 1;
      }
      assert IsChanged(kb, table, n - 1) <==> Differs(kb, table, kb.registry[n - 1]);
      forall i: nat | i < n && IsChanged(kb, table, i) ensures i in at {
        if i < n - 1 { assert i in before; }
      }
    }
  }
}

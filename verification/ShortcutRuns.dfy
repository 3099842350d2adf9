/**
 * Runs of the preferences page. Assign, clear and reset-all keep every key with one action;
 * resetting one action and importing a file do so exactly under their guards.
 */
module ShortcutRuns {
  import opened Wrappers
  import opened Shortcuts

  // ----- runs of the preferences page -----

  datatype Step =
    | Assign(entry: nat, key: string)
    | ClearKey(entry: nat)
    | ResetOne(entry: nat)
    | ResetEverything
    | Import(lines: seq<Line>)

  /** A captured key is already canonical, and a parsed file has at most one key in a line. */
  predicate Legal(kb: Keyboard, step: Step) {
    match step
    case Assign(e, key) => e < |kb.registry| && Canonical(kb, key) == Some(key)
    case ClearKey(e) => e < |kb.registry|
    case ResetOne(e) => e < |kb.registry|
    case ResetEverything => true
    case Import(lines) => forall i :: 0 <= i < |lines| ==> |lines[i].keys| <= 1
  }

  function Next(kb: Keyboard, table: Table, step: Step): Table
    requires Legal(kb, step)
  {
    match step
    case Assign(e, key) => Set(Steal(kb, table, e, key, |kb.registry|), kb.registry[e].id, [key])
    case ClearKey(e) => Set(table, kb.registry[e].id, [])
    case ResetOne(e) => table - {kb.registry[e].id}
    case ResetEverything => map[]
    case Import(lines) => Applied(lines)
  }

  predicate AllLegal(kb: Keyboard, steps: seq<Step>) {
    forall k :: 0 <= k < |steps| ==> Legal(kb, steps[k])
  }

  function After(kb: Keyboard, table: Table, steps: seq<Step>, n: nat): Table
    requires n <= |steps| && AllLegal(kb, steps)
  {
    if n == 0 then table else Next(kb, After(kb, table, steps, n - 1), steps[n - 1])
  }

  /** No canonical key belongs to two actions. */
  ghost predicate SoleOwners(kb: Keyboard, table: Table) {
    forall i, j, c :: 0 <= i < j < |kb.registry| ==>
      !(Has(kb, Effective(table, kb.registry[i]), c) && Has(kb, Effective(table, kb.registry[j]), c))
  }

  /** Every override of an action is one key or none. */
  predicate SingleKeys(kb: Keyboard, table: Table) {
    forall i :: 0 <= i < |kb.registry| && kb.registry[i].id in table ==> |Effective(table, kb.registry[i])| <= 1
  }

  /**
   * What the registry's own tests demand of the defaults: they are keystrokes, and at most two, different ones, per
   * action.
   */
  predicate DefaultsFit(kb: Keyboard) {
    forall i :: 0 <= i < |kb.registry| ==> var keys := kb.registry[i].defaults;
      |keys| <= 2 && (|keys| == 2 ==> Canonical(kb, keys[0]) != Canonical(kb, keys[1]))
  }

  lemma WithoutShrinks(kb: Keyboard, keys: seq<string>, c: string)
    requires |keys| <= 2 && (|keys| == 2 ==> Canonical(kb, keys[0]) != Canonical(kb, keys[1])) && Has(kb, keys, c)
    ensures |Without(kb, keys, c)| <= 1
  {
    if |keys| == 2 {
      assert keys[1..][1..] == [];
      assert |Without(kb, keys[1..], c)| <= 1;
    }
  }

  lemma {:induction false} StealKeepsSingle(kb: Keyboard, table: Table, me: nat, c: string, n: nat)
    requires UniqueIds(kb) && n <= |kb.registry| && DefaultsFit(kb) && SingleKeys(kb, table)
    ensures SingleKeys(kb, Steal(kb, table, me, c, n))
  {
    if n > 0 {
      StealKeepsSingle(kb, table, me, c, n - 1);
      var before, other := Steal(kb, table, me, c, n - 1), kb.registry[n - 1];
      if n - 1 != me && Has(kb, Effective(before, other), c) {
        if other.id !in before { assert Effective(before, other) == other.defaults; }
        WithoutShrinks(kb, Effective(before, other), c);
        SetSingle(kb, before, n - 1, Without(kb, Effective(before, other), c));
      }
    }
  }

  lemma SetSingle(kb: Keyboard, table: Table, e: nat, keys: seq<string>)
    requires UniqueIds(kb) && e < |kb.registry| && SingleKeys(kb, table) && |keys| <= 1
    ensures SingleKeys(kb, Set(table, kb.registry[e].id, keys))
  {
    var t := Set(table, kb.registry[e].id, keys);
    forall i | 0 <= i < |kb.registry| && kb.registry[i].id in t ensures |Effective(t, kb.registry[i])| <= 1 {
      if i != e {
        assert kb.registry[i].id != kb.registry[e].id;
        assert Effective(t, kb.registry[i]) == Effective(table, kb.registry[i]);
      }
    }
  }

  lemma SetEffect(kb: Keyboard, table: Table, e: nat, keys: seq<string>, j: nat)
    requires UniqueIds(kb) && e < |kb.registry| && j < |kb.registry|
    ensures Effective(Set(table, kb.registry[e].id, keys), kb.registry[j]) ==
      if j == e then keys else Effective(table, kb.registry[j])
  {
    if j != e { assert kb.registry[j].id != kb.registry[e].id; }
  }

  lemma RemoveEffect(kb: Keyboard, table: Table, e: nat, j: nat)
    requires UniqueIds(kb) && e < |kb.registry| && j < |kb.registry|
    ensures Effective(table - {kb.registry[e].id}, kb.registry[j]) ==
      if j == e then kb.registry[j].defaults else Effective(table, kb.registry[j])
  {
    if j != e { assert kb.registry[j].id != kb.registry[e].id; }
  }

  /** The keys of entry `j` after a step, in terms of those before. */
  lemma NextEffect(kb: Keyboard, table: Table, step: Step, j: nat)
    requires UniqueIds(kb) && Legal(kb, step) && j < |kb.registry|
    ensures Effective(Next(kb, table, step), kb.registry[j]) ==
      match step
      case Assign(e, key) => if j == e then [key] else Without(kb, Effective(table, kb.registry[j]), key)
      case ClearKey(e) => if j == e then [] else Effective(table, kb.registry[j])
      case ResetOne(e) => if j == e then kb.registry[j].defaults else Effective(table, kb.registry[j])
      case ResetEverything => kb.registry[j].defaults
      case Import(lines) => LineKeys(lines, kb.registry[j])
  {
    match step
    case Assign(e, key) =>
      StealEffect(kb, table, e, key, |kb.registry|, j);
      SetEffect(kb, Steal(kb, table, e, key, |kb.registry|), e, [key], j);
    case ClearKey(e) => SetEffect(kb, table, e, [], j);
    case ResetOne(e) => RemoveEffect(kb, table, e, j);
    case ResetEverything =>
    case Import(lines) => AppliedEffect(lines, kb.registry[j]);
  }

  // ----- which keys the actions have -----

  /** Which action has key `c` after an assignment or a clear. */
  lemma NextHas(kb: Keyboard, table: Table, step: Step, j: nat, c: string)
    requires UniqueIds(kb) && Legal(kb, step) && j < |kb.registry| && (step.Assign? || step.ClearKey?)
    ensures Has(kb, Effective(Next(kb, table, step), kb.registry[j]), c) ==>
      if j == step.entry then step.Assign? && c == step.key
      else Has(kb, Effective(table, kb.registry[j]), c) && (step.Assign? ==> c != step.key)
  {
    NextEffect(kb, table, step, j);
    if step.Assign? && j != step.entry { WithoutKeepsOthers(kb, Effective(table, kb.registry[j]), step.key, c); }
  }

  /** After an assignment the key has one owner, the action it was assigned to. */
  lemma AssignedKeyIsOwned(kb: Keyboard, table: Table, e: nat, key: string)
    requires UniqueIds(kb) && Legal(kb, Assign(e, key))
    ensures Owner(kb, Next(kb, table, Assign(e, key)), None, key, |kb.registry|) == Some(e)
  {
    var t := Next(kb, table, Assign(e, key));
    OwnerIsFirst(kb, t, None, key, |kb.registry|);
    NextEffect(kb, table, Assign(e, key), e);
    assert Has(kb, [key], key) by { assert Canonical(kb, [key][0]) == Some(key); }
    forall j | 0 <= j < |kb.registry| && j != e ensures !Has(kb, Effective(t, kb.registry[j]), key) {
      NextHas(kb, table, Assign(e, key), j, key);
    }
  }

  // ----- guards -----

  /** Another action, `j`, holds the default key `c` of entry `e`. */
  predicate HoldsDefault(kb: Keyboard, table: Table, e: nat, j: nat, c: string)
    requires e < |kb.registry| && j < |kb.registry|
  {
    j != e && Has(kb, Effective(table, kb.registry[j]), c) && Has(kb, kb.registry[e].defaults, c)
  }

  /** The lines give key `c` to both entries, or leave it with both. */
  predicate LinesClash(kb: Keyboard, lines: seq<Line>, i: nat, j: nat, c: string)
    requires i < |kb.registry| && j < |kb.registry|
  {
    Has(kb, LineKeys(lines, kb.registry[i]), c) && Has(kb, LineKeys(lines, kb.registry[j]), c)
  }

  /**
   * What a step needs to keep keys apart: for a reset, that no other action holds one of the
   * defaults; for an import, that the keys of its lines and the defaults of the actions it
   * does not list are apart.
   */
  ghost predicate Guard(kb: Keyboard, table: Table, step: Step)
    requires Legal(kb, step)
  {
    match step
    case ResetOne(e) => forall j, c :: 0 <= j < |kb.registry| ==> !HoldsDefault(kb, table, e, j, c)
    case Import(lines) => forall i, j, c :: 0 <= i < j < |kb.registry| ==> !LinesClash(kb, lines, i, j, c)
    case _ => true
  }

  lemma AssignKeepsSoleOwners(kb: Keyboard, table: Table, step: Step)
    requires UniqueIds(kb) && Legal(kb, step) && SoleOwners(kb, table) && (step.Assign? || step.ClearKey?)
    ensures SoleOwners(kb, Next(kb, table, step))
  {
    var t := Next(kb, table, step);
    forall i, j, c | 0 <= i < j < |kb.registry|
      ensures !(Has(kb, Effective(t, kb.registry[i]), c) && Has(kb, Effective(t, kb.registry[j]), c))
    {
      NextHas(kb, table, step, i, c);
      NextHas(kb, table, step, j, c);
    }
  }

  /** Resetting one action does not steal: keys stay apart exactly when no other action holds one of its defaults. */
  lemma ResetOneKeepsKeysApartExactly(kb: Keyboard, table: Table, e: nat)
    requires UniqueIds(kb) && SoleOwners(kb, table) && e < |kb.registry|
    ensures SoleOwners(kb, Next(kb, table, ResetOne(e))) <==> Guard(kb, table, ResetOne(e))
  {
    var t := Next(kb, table, ResetOne(e));
    forall j | 0 <= j < |kb.registry|
      ensures Effective(t, kb.registry[j]) == if j == e then kb.registry[j].defaults
        else Effective(table, kb.registry[j])
    {
      RemoveEffect(kb, table, e, j);
    }
    if j, c :| 0 <= j < |kb.registry| && HoldsDefault(kb, table, e, j, c) {
      assert Has(kb, Effective(t, kb.registry[j]), c) && Has(kb, Effective(t, kb.registry[e]), c);
    } else {
      forall i, j, c | 0 <= i < j < |kb.registry|
        ensures !(Has(kb, Effective(t, kb.registry[i]), c) && Has(kb, Effective(t, kb.registry[j]), c))
      {
        assert !HoldsDefault(kb, table, e, i, c) && !HoldsDefault(kb, table, e, j, c);
      }
    }
  }

  /**
   * An import replaces the table: keys are apart afterwards exactly when its lines, with the defaults of the rest, are.
   */
  lemma ImportKeepsKeysApartExactly(kb: Keyboard, table: Table, lines: seq<Line>)
    requires Legal(kb, Import(lines))
    ensures SoleOwners(kb, Next(kb, table, Import(lines))) <==> Guard(kb, table, Import(lines))
  {
    forall j | 0 <= j < |kb.registry|
      ensures Effective(Applied(lines), kb.registry[j]) == LineKeys(lines, kb.registry[j])
    {
      AppliedEffect(lines, kb.registry[j]);
    }
    forall i, j, c | 0 <= i < j < |kb.registry|
      ensures LinesClash(kb, lines, i, j, c) <==>
        Has(kb, Effective(Applied(lines), kb.registry[i]), c) && Has(kb, Effective(Applied(lines), kb.registry[j]), c)
    {
    }
  }

  lemma StepKeepsKeysApartExactly(kb: Keyboard, table: Table, step: Step)
    requires UniqueIds(kb) && Legal(kb, step) && SoleOwners(kb, table) && SoleOwners(kb, map[])
    ensures SoleOwners(kb, Next(kb, table, step)) <==> Guard(kb, table, step)
  {
    match step
    case Assign(_, _) => AssignKeepsSoleOwners(kb, table, step);
    case ClearKey(_) => AssignKeepsSoleOwners(kb, table, step);
    case ResetOne(e) => ResetOneKeepsKeysApartExactly(kb, table, e);
    case ResetEverything =>
    case Import(lines) => ImportKeepsKeysApartExactly(kb, table, lines);
  }

  // ----- every run -----

  /** Every state of the first `n` steps has each key with one action. */
  ghost predicate ApartThroughout(kb: Keyboard, start: Table, steps: seq<Step>, n: nat)
    requires n <= |steps| && AllLegal(kb, steps)
  {
    SoleOwners(kb, After(kb, start, steps, n)) && (n > 0 ==> ApartThroughout(kb, start, steps, n - 1))
  }

  ghost predicate GuardedThroughout(kb: Keyboard, start: Table, steps: seq<Step>, n: nat)
    requires n <= |steps| && AllLegal(kb, steps)
  {
    n > 0 ==> Guard(kb, After(kb, start, steps, n - 1), steps[n - 1]) && GuardedThroughout(kb, start, steps, n - 1)
  }

  /**
   * In every run each key stays with one action exactly when every reset of one action and every import meets its
   * guard.
   */
  lemma {:induction false} KeysApartExactly(kb: Keyboard, steps: seq<Step>, n: nat, start: Table)
    requires n <= |steps| && AllLegal(kb, steps) && UniqueIds(kb) && SoleOwners(kb, map[]) && start == map[]
    ensures ApartThroughout(kb, start, steps, n) <==> GuardedThroughout(kb, start, steps, n)
  {
    if n > 0 {
      KeysApartExactly(kb, steps, n - 1, start);
      if ApartThroughout(kb, start, steps, n - 1) {
        ApartNow(kb, start, steps, n - 1);
        StepKeepsKeysApartExactly(kb, After(kb, start, steps, n - 1), steps[n - 1]);
      }
    }
  }

  lemma ApartNow(kb: Keyboard, start: Table, steps: seq<Step>, n: nat)
    requires n <= |steps| && AllLegal(kb, steps) && ApartThroughout(kb, start, steps, n)
    ensures SoleOwners(kb, After(kb, start, steps, n))
  {
  }

  /** Assign, clear and reset-all need no guard. */
  lemma {:induction false} EveryGuardlessRunKeepsKeysApart(kb: Keyboard, steps: seq<Step>, n: nat, start: Table)
    requires n <= |steps| && AllLegal(kb, steps) && UniqueIds(kb) && SoleOwners(kb, map[]) && SoleOwners(kb, start)
    requires forall k :: 0 <= k < |steps| ==> !steps[k].ResetOne? && !steps[k].Import?
    ensures SoleOwners(kb, After(kb, start, steps, n))
  {
    if n > 0 {
      EveryGuardlessRunKeepsKeysApart(kb, steps, n - 1, start);
      AfterIsNext(kb, start, steps, n, After(kb, start, steps, n - 1));
      GuardlessStepKeepsKeysApart(kb, After(kb, start, steps, n - 1), steps[n - 1]);
    }
  }

  lemma AfterIsNext(kb: Keyboard, start: Table, steps: seq<Step>, n: nat, before: Table)
    requires 0 < n <= |steps| && AllLegal(kb, steps) && before == After(kb, start, steps, n - 1)
    ensures After(kb, start, steps, n) == Next(kb, before, steps[n - 1])
  {
  }

  lemma GuardlessStepKeepsKeysApart(kb: Keyboard, table: Table, step: Step)
    requires UniqueIds(kb) && Legal(kb, step) && SoleOwners(kb, table) && SoleOwners(kb, map[])
    requires !step.ResetOne? && !step.Import?
    ensures SoleOwners(kb, Next(kb, table, step))
  {
    StepKeepsKeysApartExactly(kb, table, step);
  }

  /**
   * A reset that fails its guard, for any two actions: a default of the first is assigned to the
   * second, then the first is reset. Both own the key.
   */
  lemma ResetLeavesTwoOwners(kb: Keyboard, table: Table, i: nat, j: nat, key: string)
    requires UniqueIds(kb) && i < |kb.registry| && j < |kb.registry| && i != j
    requires Canonical(kb, key) == Some(key) && Has(kb, kb.registry[i].defaults, key)
    ensures var t := Next(kb, Next(kb, table, Assign(j, key)), ResetOne(i));
      Has(kb, Effective(t, kb.registry[i]), key) && Has(kb, Effective(t, kb.registry[j]), key) && !SoleOwners(kb, t)
  {
    var between := Next(kb, table, Assign(j, key));
    NextEffect(kb, table, Assign(j, key), j);
    NextEffect(kb, between, ResetOne(i), i);
    NextEffect(kb, between, ResetOne(i), j);
    assert Has(kb, [key], key) by { assert Canonical(kb, [key][0]) == Some(key); }
  }

  /** An import that fails its guard, for any two actions: two lines give both the same key. */
  lemma ImportLeavesTwoOwners(kb: Keyboard, table: Table, i: nat, j: nat, key: string, step: Step)
    requires UniqueIds(kb) && i < |kb.registry| && j < |kb.registry| && i != j && Canonical(kb, key) == Some(key)
    requires step == Import([Line(kb.registry[i].id, [key]), Line(kb.registry[j].id, [key])])
    ensures Legal(kb, step)
    ensures var t := Next(kb, table, step);
      Has(kb, Effective(t, kb.registry[i]), key) && Has(kb, Effective(t, kb.registry[j]), key) && !SoleOwners(kb, t)
  {
    var first, last := Line(kb.registry[i].id, [key]), Line(kb.registry[j].id, [key]);
    assert first.id != last.id;
    assert [first, last][..1] == [first];
    AppliedEffect(step.lines, kb.registry[i]);
    AppliedEffect(step.lines, kb.registry[j]);
    assert LineKeys(step.lines, kb.registry[j]) == [key] && LineKeys([first], kb.registry[i]) == [key];
    assert Has(kb, [key], key) by { assert Canonical(kb, [key][0]) == Some(key); }
  }

  // ----- one key per override -----

  lemma {:induction false} LineKeysSingle(lines: seq<Line>, entry: Entry)
    requires entry.id in Applied(lines) && forall i :: 0 <= i < |lines| ==> |lines[i].keys| <= 1
    ensures |LineKeys(lines, entry)| <= 1
  {
    if lines[|lines| - 1].id != entry.id { LineKeysSingle(lines[..|lines| - 1], entry); }
  }

  lemma ImportKeepsSingleKeys(kb: Keyboard, lines: seq<Line>)
    requires Legal(kb, Import(lines))
    ensures SingleKeys(kb, Applied(lines))
  {
    forall i | 0 <= i < |kb.registry| && kb.registry[i].id in Applied(lines)
      ensures |Effective(Applied(lines), kb.registry[i])| <= 1
    {
      AppliedEffect(lines, kb.registry[i]);
      LineKeysSingle(lines, kb.registry[i]);
    }
  }

  lemma RemoveKeepsSingleKeys(kb: Keyboard, table: Table, e: nat)
    requires UniqueIds(kb) && e < |kb.registry| && SingleKeys(kb, table)
    ensures SingleKeys(kb, table - {kb.registry[e].id})
  {
    forall i | 0 <= i < |kb.registry| && kb.registry[i].id in table - {kb.registry[e].id}
      ensures |Effective(table - {kb.registry[e].id}, kb.registry[i])| <= 1
    {
      assert kb.registry[i].id in table;
    }
  }

  lemma StepKeepsSingleKeys(kb: Keyboard, table: Table, step: Step)
    requires UniqueIds(kb) && Legal(kb, step) && DefaultsFit(kb) && SingleKeys(kb, table)
    ensures SingleKeys(kb, Next(kb, table, step))
  {
    match step
    case Assign(e, key) =>
      StealKeepsSingle(kb, table, e, key, |kb.registry|);
      SetSingle(kb, Steal(kb, table, e, key, |kb.registry|), e, [key]);
    case ClearKey(e) => SetSingle(kb, table, e, []);
    case ResetOne(e) => RemoveKeepsSingleKeys(kb, table, e);
    case ResetEverything =>
    case Import(lines) => ImportKeepsSingleKeys(kb, lines);
  }

  /** Every run, of all five operations, keeps each override at one key or none. */
  lemma {:induction false} EveryRunKeepsSingleKeys(kb: Keyboard, steps: seq<Step>, n: nat, start: Table)
    requires n <= |steps| && AllLegal(kb, steps) && UniqueIds(kb) && DefaultsFit(kb) && start == map[]
    ensures SingleKeys(kb, After(kb, start, steps, n))
  {
    if n > 0 {
      EveryRunKeepsSingleKeys(kb, steps, n - 1, start);
      StepKeepsSingleKeys(kb, After(kb, start, steps, n - 1), steps[n - 1]);
    }
  }
}

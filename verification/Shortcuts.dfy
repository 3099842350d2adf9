/** The shortcut override table: effective keys, owners, and taking a key away from its other owners. */
module Shortcuts {
  import opened Wrappers

  /** One action of the registry: its stable id and its default keys. */
  datatype Entry = Entry(id: string, defaults: seq<string>)

  /** The action registry and the keystroke parser: `canon` is the canonical spelling of a key, if it is one. */
  datatype Keyboard = Keyboard(registry: seq<Entry>, canon: string -> Option<string>)

  datatype Override = Unbound | Keys(keys: seq<string>)

  type Table = map<string, Override>

  function Canonical(kb: Keyboard, key: string): Option<string> {
    kb.canon(key)
  }

  predicate UniqueIds(kb: Keyboard) {
    forall i, j :: 0 <= i < j < |kb.registry| ==> kb.registry[i].id != kb.registry[j].id
  }

  /** `effective_keys`: the override when there is one, else the defaults. */
  function Effective(table: Table, entry: Entry): seq<string> {
    if entry.id !in table then entry.defaults
    else if table[entry.id].Unbound? then [] else table[entry.id].keys
  }

  /** `set_custom_shortcut` on the table. */
  function Set(table: Table, id: string, keys: seq<string>): Table {
    table[id := if keys == [] then Unbound else Keys(keys)]
  }

  /** Some key of the list has the canonical form `c`. */
  predicate Has(kb: Keyboard, keys: seq<string>, c: string) {
    exists i :: 0 <= i < |keys| && Canonical(kb, keys[i]) == Some(c)
  }

  /** `retain`: the keys of another canonical form, in order. */
  function Without(kb: Keyboard, keys: seq<string>, c: string): seq<string> {
    if keys == [] then []
    else (if Canonical(kb, keys[0]) == Some(c) then [] else [keys[0]]) + Without(kb, keys[1..], c)
  }

  lemma {:induction false} WithoutKeepsOthers(kb: Keyboard, keys: seq<string>, c: string, d: string)
    ensures Has(kb, Without(kb, keys, c), d) <==> d != c && Has(kb, keys, d)
  {
    if keys != [] {
      WithoutKeepsOthers(kb, keys[1..], c, d);
      HasSplits(kb, [keys[0]], keys[1..], d);
      assert [keys[0]] + keys[1..] == keys;
      HasSplits(kb, if Canonical(kb, keys[0]) == Some(c) then [] else [keys[0]], Without(kb, keys[1..], c), d);
      assert Has(kb, [keys[0]], d) <==> Canonical(kb, keys[0]) == Some(d) by {
        if Canonical(kb, keys[0]) == Some(d) { assert Canonical(kb, [keys[0]][0]) == Some(d); }
      }
    }
  }

  lemma HasSplits(kb: Keyboard, a: seq<string>, b: seq<string>, d: string)
    ensures Has(kb, a + b, d) <==> Has(kb, a, d) || Has(kb, b, d)
  {
    if i :| 0 <= i < |a| && Canonical(kb, a[i]) == Some(d) { assert (a + b)[i] == a[i]; }
    if i :| 0 <= i < |b| && Canonical(kb, b[i]) == Some(d) { assert (a + b)[|a| + i] == b[i]; }
  }

  lemma {:induction false} WithoutAbsent(kb: Keyboard, keys: seq<string>, c: string)
    requires !Has(kb, keys, c)
    ensures Without(kb, keys, c) == keys
  {
    if keys != [] {
      assert forall i :: 0 <= i < |keys| - 1 ==> keys[1..][i] == keys[i + 1];
      assert Canonical(kb, keys[0]) != Some(c);
      assert !Has(kb, keys[1..], c);
      WithoutAbsent(kb, keys[1..], c);
    }
  }

  // ----- applying a file -----

  /** One line of a shortcuts file: an action id and its keys. */
  datatype Line = Line(id: string, keys: seq<string>)

  /** `apply_shortcut_overrides`: the table holds these lines only; later lines for an id win. */
  function Applied(lines: seq<Line>): Table {
    if lines == [] then map[]
    else Set(Applied(lines[..|lines| - 1]), lines[|lines| - 1].id, lines[|lines| - 1].keys)
  }

  method ApplyShortcutOverrides(lines: seq<Line>) returns (table: Table)
    ensures table == Applied(lines)
  {
    table := map[];
    for i := 0 to |lines|
      invariant table == Applied(lines[..i])
    {
      AppliedMore(lines[..i], lines[i]);
      assert lines[..i + 1] == lines[..i] + [lines[i]];
      table := table[lines[i].id := if lines[i].keys == [] then Unbound else Keys(lines[i].keys)];
    }
    assert lines[..|lines|] == lines;
  }

  lemma AppliedMore(lines: seq<Line>, last: Line)
    ensures Applied(lines + [last]) == Set(Applied(lines), last.id, last.keys)
  {
    assert (lines + [last])[..|lines|] == lines;
  }

  /** The keys the last line for an entry gives it, or its defaults. */
  function LineKeys(lines: seq<Line>, entry: Entry): seq<string> {
    if lines == [] then entry.defaults
    else if lines[|lines| - 1].id == entry.id then lines[|lines| - 1].keys
    else LineKeys(lines[..|lines| - 1], entry)
  }

  lemma {:induction false} AppliedEffect(lines: seq<Line>, entry: Entry)
    ensures Effective(Applied(lines), entry) == LineKeys(lines, entry)
  {
    if lines != [] { AppliedEffect(lines[..|lines| - 1], entry); }
  }

  /** Setting keys, also none, binds the action to exactly these and no other; without an override the defaults hold. */
  lemma SetBindsOneAction(table: Table, id: string, keys: seq<string>, entry: Entry)
    ensures Effective(map[], entry) == entry.defaults
    ensures Effective(Set(table, id, keys), entry) == if entry.id == id then keys else Effective(table, entry)
    ensures Effective(table - {id}, entry) == if entry.id == id then entry.defaults else Effective(table, entry)
  {
  }

  /** The last line for an action decides; an action without a line has its defaults. */
  lemma {:induction false} LastLineWins(lines: seq<Line>, k: nat, entry: Entry)
    ensures (forall j :: 0 <= j < |lines| ==> lines[j].id != entry.id) ==>
      Effective(Applied(lines), entry) == entry.defaults
    ensures k < |lines| && lines[k].id == entry.id && (forall j :: k < j < |lines| ==> lines[j].id != entry.id) ==>
      Effective(Applied(lines), entry) == lines[k].keys
  {
    if lines != [] { LastLineWins(lines[..|lines| - 1], k, entry); }
  }

  lemma WithoutFirst(kb: Keyboard, key: string, rest: seq<string>, c: string)
    ensures Without(kb, [key] + rest, c) ==
      (if Canonical(kb, key) == Some(c) then [] else [key]) + Without(kb, rest, c)
  {
    assert ([key] + rest)[1..] == rest;
  }

  lemma FirstOfJoined(a: seq<string>, b: seq<string>)
    requires a != []
    ensures a == [a[0]] + a[1..] && a + b == [a[0]] + (a[1..] + b)
  {
  }

  lemma JoinsAssociate(a: seq<string>, b: seq<string>, c: seq<string>)
    ensures a + (b + c) == (a + b) + c
  {
  }

  /** Taking a key away goes key by key: it keeps those of another canonical form, every one and in order. */
  lemma {:induction false} WithoutFilters(kb: Keyboard, a: seq<string>, b: seq<string>, c: string)
    ensures Without(kb, a + b, c) == Without(kb, a, c) + Without(kb, b, c)
  {
    if a == [] {
      assert a + b == b;
    } else {
      FirstOfJoined(a, b);
      WithoutFirst(kb, a[0], a[1..], c);
      WithoutFirst(kb, a[0], a[1..] + b, c);
      WithoutFilters(kb, a[1..], b, c);
      JoinsAssociate(if Canonical(kb, a[0]) == Some(c) then [] else [a[0]], Without(kb, a[1..], c), Without(kb, b, c));
    }
  }

  lemma WithoutOfOne(kb: Keyboard, key: string, c: string)
    ensures Without(kb, [key], c) == if Canonical(kb, key) == Some(c) then [] else [key]
  {
    assert [key][1..] == [];
  }

  // ----- stealing and owning -----

  /** One turn of the stealing loop, at entry `i`. */
  function StealFrom(kb: Keyboard, table: Table, me: nat, c: string, i: nat): Table
    requires i < |kb.registry|
  {
    var other := kb.registry[i];
    if i != me && Has(kb, Effective(table, other), c) then Set(table, other.id, Without(kb, Effective(table, other), c))
    else table
  }

  /** The table after `steal_shortcut_for` has gone through the first `n` entries, for entry `me` and key `c`. */
  function Steal(kb: Keyboard, table: Table, me: nat, c: string, n: nat): Table
    requires n <= |kb.registry|
  {
    if n == 0 then table else StealFrom(kb, Steal(kb, table, me, c, n - 1), me, c, n - 1)
  }

  /** The first of `n` entries, other than `me`, with key `c`. */
  function Owner(kb: Keyboard, table: Table, me: Option<nat>, c: string, n: nat): Option<nat>
    requires n <= |kb.registry|
  {
    if n == 0 then None
    else
      var before := Owner(kb, table, me, c, n - 1);
      if before.Some? then before
      else if me != Some(n - 1) && Has(kb, Effective(table, kb.registry[n - 1]), c) then Some(n - 1) else None
  }

  lemma StealFromEffect(kb: Keyboard, table: Table, me: nat, c: string, i: nat, j: nat)
    requires UniqueIds(kb) && i < |kb.registry| && j < |kb.registry|
    ensures Effective(StealFrom(kb, table, me, c, i), kb.registry[j]) ==
      if j == i && i != me then Without(kb, Effective(table, kb.registry[j]), c) else Effective(table, kb.registry[j])
  {
    if !Has(kb, Effective(table, kb.registry[i]), c) {
      WithoutAbsent(kb, Effective(table, kb.registry[i]), c);
    } else if j != i {
      assert kb.registry[j].id != kb.registry[i].id;
    }
  }

  /** One more turn, when action `j` had `keys` before the first. */
  lemma StealOneMore(kb: Keyboard, before: Table, me: nat, c: string, i: nat, j: nat, keys: seq<string>)
    requires UniqueIds(kb) && i < |kb.registry| && j < |kb.registry|
    requires Effective(before, kb.registry[j]) == if j < i && j != me then Without(kb, keys, c) else keys
    ensures Effective(StealFrom(kb, before, me, c, i), kb.registry[j]) ==
      if j < i + 1 && j != me then Without(kb, keys, c) else keys
  {
    StealFromEffect(kb, before, me, c, i, j);
  }

  /** Stealing takes the key from every other action and changes nothing else. */
  lemma {:induction false} StealEffect(kb: Keyboard, table: Table, me: nat, c: string, n: nat, j: nat)
    requires UniqueIds(kb) && n <= |kb.registry| && j < |kb.registry|
    ensures Effective(Steal(kb, table, me, c, n), kb.registry[j]) ==
      if j < n && j != me then Without(kb, Effective(table, kb.registry[j]), c) else Effective(table, kb.registry[j])
  {
    if n > 0 {
      StealEffect(kb, table, me, c, n - 1, j);
      StealOneMore(kb, Steal(kb, table, me, c, n - 1), me, c, n - 1, j, Effective(table, kb.registry[j]));
    }
  }

  lemma {:induction false} OwnerIsFirst(kb: Keyboard, table: Table, me: Option<nat>, c: string, n: nat)
    requires n <= |kb.registry|
    ensures var o := Owner(kb, table, me, c, n);
      && (o.Some? ==> o.value < n && me != o && Has(kb, Effective(table, kb.registry[o.value]), c))
      && var end := if o.Some? then o.value else n;
        forall j :: 0 <= j < end && me != Some(j) ==> !Has(kb, Effective(table, kb.registry[j]), c)
  {
    if n > 0 { OwnerIsFirst(kb, table, me, c, n - 1); }
  }

  class ShortcutTable {
    const kb: Keyboard
    var overrides: Table

    constructor (kb: Keyboard)
      ensures this.kb == kb && overrides == map[]
    {
      this.kb, overrides := kb, map[];
    }

    method SetCustomShortcut(id: string, keys: seq<string>)
      modifies this
      ensures overrides == Set(old(overrides), id, keys)
    {
      overrides := overrides[id := if keys == [] then Unbound else Keys(keys)];
    }

    method ResetCustomShortcut(id: string)
      modifies this
      ensures overrides == old(overrides) - {id}
    {
      overrides := overrides - {id};
    }

    method ResetAll()
      modifies this
      ensures overrides == map[]
    {
      overrides := map[];
    }

    method HasKey(keys: seq<string>, c: string) returns (has: bool)
      ensures has == Has(kb, keys, c)
    {
      for i := 0 to |keys|
        invariant forall k :: 0 <= k < i ==> Canonical(kb, keys[k]) != Some(c)
      {
        if Canonical(kb, keys[i]) == Some(c) {
          return true;
        }
      }
      has := false;
    }

    method OwnerOfShortcut(c: string) returns (owner: Option<nat>)
      ensures owner == Owner(kb, overrides, None, c, |kb.registry|)
    {
      owner := None;
      for j := 0 to |kb.registry|
        invariant owner == Owner(kb, overrides, None, c, j)
      {
        var has := HasKey(Effective(overrides, kb.registry[j]), c);
        if has && owner.None? { owner := Some(j); }
      }
    }

    /** `steal_shortcut_for`: the table without the key elsewhere, and the first action it was taken from. */
    method StealShortcutFor(me: nat, c: string) returns (stolen: Option<nat>)
      requires UniqueIds(kb)
      modifies this
      ensures overrides == Steal(kb, old(overrides), me, c, |kb.registry|)
      ensures stolen == Owner(kb, old(overrides), Some(me), c, |kb.registry|)
    {
      stolen := None;
      for j := 0 to |kb.registry|
        invariant overrides == Steal(kb, old(overrides), me, c, j)
        invariant stolen == Owner(kb, old(overrides), Some(me), c, j)
      {
        StealEffect(kb, old(overrides), me, c, j, j);
        if j != me {
          var other := kb.registry[j];
          var has := HasKey(Effective(overrides, other), c);
          if has {
            SetCustomShortcut(other.id, Without(kb, Effective(overrides, other), c));
            if stolen.None? { stolen := Some(j); }
          }
        }
      }
    }
  }
}

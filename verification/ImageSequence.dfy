/**
 * Renaming within an image sequence: the trailing digits of the stem give way to a frame
 * number. File names here are bare, without a directory part.
 */
module ImageSequence {
  import opened Wrappers
  import opened Text

  const I64_MIN := -0x8000_0000_0000_0000
  const I64_MAX := 0x7fff_ffff_ffff_ffff

  /** The file name up to the first '.'. */
  function Stem(file: string): (stem: string)
    ensures '.' !in stem && |stem| <= |file|
  {
    if file == "" || file[0] == '.' then "" else [file[0]] + Stem(file[1..])
  }

  /** What follows the stem: nothing, or the first '.' and the rest. */
  function Suffix(file: string): (suffix: string)
    ensures suffix == "" || suffix[0] == '.'
  {
    if file == "" || file[0] == '.' then file else Suffix(file[1..])
  }

  lemma {:induction false} StemAndSuffix(file: string)
    ensures file == Stem(file) + Suffix(file)
  {
    if file != "" && file[0] != '.' {
      StemAndSuffix(file[1..]);
    }
  }

  lemma {:induction false} StemOf(stem: string, suffix: string)
    requires '.' !in stem && (suffix == "" || suffix[0] == '.')
    ensures Stem(stem + suffix) == stem
  {
    if stem != "" {
      StemOf(stem[1..], suffix);
      assert (stem + suffix)[1..] == stem[1..] + suffix;
    } else {
      assert stem + suffix == suffix;
    }
  }

  // ----- counting digits -----

  /** `run` characters at the end of `stem` are digits and the one before is not. */
  predicate IsTrailingRun(stem: string, run: nat) {
    && run <= |stem| && AllDigits(stem[|stem| - run..])
    && (run < |stem| ==> !IsDigit(stem[|stem| - run - 1]))
  }

  lemma TrailingRunIsUnique(stem: string, a: nat, b: nat)
    requires IsTrailingRun(stem, a) && IsTrailingRun(stem, b)
    ensures a == b
  {
    if a < b {
      assert false;
    } else if b < a {
      assert false;
    }
  }

  /** `get_image_sequence_digit_count`: characters from the end until one is no digit. */
  method GetDigitCount(file: string) returns (count: nat)
    ensures IsTrailingRun(Stem(file), count)
  {
    var stem := Stem(file);
    count := 0;
    while count < |stem| && IsDigit(stem[|stem| - 1 - count])
      invariant count <= |stem|
      invariant forall i :: |stem| - count <= i < |stem| ==> IsDigit(stem[i])
    {
      count := count + 1;
    }
  }

  /** The number a digit run stands for, 0 when there is none or it does not fit. */
  function RunValue(run: string): int {
    var n := ParseInt(run, I64_MIN, I64_MAX);
    if n.Some? then n.value else 0
  }

  function IndexOf(stem: string, run: nat): int
    requires run <= |stem|
  {
    RunValue(stem[|stem| - run..])
  }

  /** `get_image_sequence_index`. */
  method GetIndex(file: string) returns (index: int)
    ensures exists run :: IsTrailingRun(Stem(file), run) && index == IndexOf(Stem(file), run)
  {
    var run := GetDigitCount(file);
    var stem := Stem(file);
    index := RunValue(stem[|stem| - run..]);
  }

  // ----- renaming -----

  function Magnitude(number: int): nat {
    if number < 0 then -number else number
  }

  /** `{:0width$}` of a number with these digits: the sign first, then zeros up to the width. */
  function Padded(digits: string, negative: bool, width: nat): string {
    (if negative then "-" else "") + PaddedDigits(digits, negative, width)
  }

  function PaddedDigits(digits: string, negative: bool, width: nat): (s: string)
    ensures |s| == RunLength(|digits|, negative, width)
  {
    Zeros(RunLength(|digits|, negative, width) - |digits|) + digits
  }

  /** Digits that are written: up to the width, where a sign takes one place, and never fewer than there are. */
  function RunLength(digits: nat, negative: bool, width: nat): (length: nat)
    ensures length >= digits
  {
    var room := if negative then width - 1 else width;
    if digits < room then room else digits
  }

  function NewStem(stem: string, run: nat, digits: string, negative: bool): string
    requires run <= |stem|
  {
    stem[..|stem| - run] + Padded(digits, negative, run)
  }

  /**
   * The replace loop of `transform_image_sequence_file_name`, on the string in place with a
   * moving position. It finishes for every stem that is not empty.
   */
  method ReplaceLoop(file: string, stem: string, newStem: string) returns (text: string)
    requires stem != ""
    ensures text == ReplaceAll(file, stem, newStem)
  {
    text := file;
    var pos := 0;
    var found := Find(text[pos..], stem);
    assert text[..0] + ReplaceAll(text[0..], stem, newStem) == ReplaceAll(file, stem, newStem);
    while found.Some?
      invariant pos <= |text| && found == Find(text[pos..], stem)
      invariant text[..pos] + ReplaceAll(text[pos..], stem, newStem) == ReplaceAll(file, stem, newStem)
      decreases |text| - pos
    {
      var start := pos + found.value;
      var end := start + |stem|;
      ReplaceAtFirst(text[pos..], stem, newStem);
      var replaced := text[..start] + newStem + text[end..];
      MovePast(text, pos, start, end, newStem, ReplaceAll(text[end..], stem, newStem));
      text := replaced;
      pos := start + |newStem|;
      found := Find(text[pos..], stem);
    }
    ReplaceAtFirst(text[pos..], stem, newStem);
    assert text == text[..pos] + text[pos..];
  }

  lemma MovePast(text: string, pos: nat, start: nat, end: nat, newStem: string, rest: string)
    requires pos <= start <= end <= |text|
    ensures text[pos..][end - pos..] == text[end..]
    ensures text[..pos] + (text[pos..][..start - pos] + newStem + rest) == text[..start] + newStem + rest
    ensures (text[..start] + newStem + text[end..])[..start + |newStem|] == text[..start] + newStem
    ensures (text[..start] + newStem + text[end..])[start + |newStem|..] == text[end..]
  {
    DropTwice(text, pos, end);
    TakeInTwo(text, pos, start);
    Regroup(text[..pos], text[pos..][..start - pos], newStem, rest);
    CutAtJoint(text[..start] + newStem, text[end..], start + |newStem|);
  }

  lemma DropTwice(text: string, pos: nat, end: nat)
    requires pos <= end <= |text|
    ensures text[pos..][end - pos..] == text[end..]
  {
    var rest := text[pos..];
    assert |rest[end - pos..]| == |text[end..]|;
    forall k | 0 <= k < |text| - end ensures rest[end - pos..][k] == text[end..][k] {
      assert rest[end - pos + k] == text[end + k];
    }
  }

  lemma TakeInTwo(text: string, pos: nat, start: nat)
    requires pos <= start <= |text|
    ensures text[..pos] + text[pos..][..start - pos] == text[..start]
  {
    var front, middle := text[..pos], text[pos..][..start - pos];
    assert |front + middle| == start;
    forall k | 0 <= k < start ensures (front + middle)[k] == text[..start][k] {
      if k < pos {
        assert (front + middle)[k] == front[k];
      } else {
        assert (front + middle)[k] == middle[k - pos] == text[pos..][k - pos];
      }
    }
  }

  lemma CutAtJoint(a: string, b: string, n: nat)
    requires n == |a|
    ensures (a + b)[..n] == a && (a + b)[n..] == b
  {
  }

  /** What the renaming makes of a name whose stem ends in `run` digits: every copy of the stem is replaced. */
  predicate IsRenamed(file: string, run: nat, digits: string, negative: bool, renamed: string) {
    Stem(file) != "" && IsTrailingRun(Stem(file), run)
      && renamed == ReplaceAll(file, Stem(file), NewStem(Stem(file), run, digits, negative))
  }

  predicate IsRenaming(file: string, run: nat, number: int, renamed: string) {
    IsRenamed(file, run, Decimal(Magnitude(number)), number < 0, renamed)
  }

  /** `transform_image_sequence_file_name` on a bare file name with a stem. */
  method Transform(file: string, number: int) returns (renamed: string)
    requires Stem(file) != ""
    ensures exists run :: IsRenaming(file, run, number, renamed)
  {
    var run := GetDigitCount(file);
    var stem := Stem(file);
    var digits := Decimal(Magnitude(number));
    renamed := ReplaceLoop(file, stem, NewStem(stem, run, digits, number < 0));
    assert IsRenaming(file, run, number, renamed);
  }

  // ----- what the new name says -----

  /** The first occurrence of the stem is at the front, so the new name starts with the new stem. */
  lemma RenamedStem(file: string, newStem: string)
    requires Stem(file) != "" && '.' !in newStem
    ensures Stem(ReplaceAll(file, Stem(file), newStem)) == newStem
  {
    StemAndSuffix(file);
    var stem, suffix := Stem(file), Suffix(file);
    assert file[|stem|..] == suffix;
    assert ReplaceAll(file, stem, newStem) == newStem + ReplaceAll(suffix, stem, newStem);
    SuffixStaysSuffix(suffix, stem, newStem);
    StemOf(newStem, ReplaceAll(suffix, stem, newStem));
  }

  lemma SuffixStaysSuffix(suffix: string, stem: string, newStem: string)
    requires stem != "" && '.' !in stem && (suffix == "" || suffix[0] == '.')
    ensures var r := ReplaceAll(suffix, stem, newStem); r == "" || r[0] == '.'
  {
    if stem <= suffix { assert false; }
  }

  lemma NewStemRun(stem: string, run: nat, digits: string, negative: bool)
    requires IsTrailingRun(stem, run) && AllDigits(digits)
    ensures var newStem, padded := NewStem(stem, run, digits, negative), PaddedDigits(digits, negative, run);
      IsTrailingRun(newStem, |padded|) && newStem[|newStem| - |padded|..] == padded
  {
    var kept, padded := stem[..|stem| - run], PaddedDigits(digits, negative, run);
    var prefix := if negative then kept + "-" else kept;
    assert NewStem(stem, run, digits, negative) == prefix + padded;
    RunAfterPrefix(prefix, padded);
  }

  lemma RunAfterPrefix(prefix: string, digits: string)
    requires AllDigits(digits) && (prefix != "" ==> !IsDigit(prefix[|prefix| - 1]))
    ensures IsTrailingRun(prefix + digits, |digits|) && (prefix + digits)[|prefix|..] == digits
  {
  }

  lemma RunOf(stem: string, run: nat, digits: string)
    requires IsTrailingRun(stem, run) && IsTrailingRun(stem, |digits|) && stem[|stem| - |digits|..] == digits
    ensures run == |digits| && IndexOf(stem, run) == RunValue(digits)
  {
    TrailingRunIsUnique(stem, run, |digits|);
  }

  lemma NewStemHasNoDot(stem: string, run: nat, digits: string, negative: bool)
    requires run <= |stem| && '.' !in stem && AllDigits(digits)
    ensures '.' !in NewStem(stem, run, digits, negative)
  {
    assert forall i :: 0 <= i < |digits| ==> IsDigit(digits[i]);
  }

  lemma RenamedTo(file: string, oldRun: nat, digits: string, negative: bool, renamed: string)
    requires IsRenamed(file, oldRun, digits, negative, renamed) && AllDigits(digits)
    ensures Stem(renamed) == NewStem(Stem(file), oldRun, digits, negative)
  {
    NewStemHasNoDot(Stem(file), oldRun, digits, negative);
    RenamedStem(file, NewStem(Stem(file), oldRun, digits, negative));
  }

  lemma PaddedValue(digits: string, negative: bool, width: nat)
    requires AllDigits(digits) && digits != ""
    ensures RunValue(PaddedDigits(digits, negative, width)) == if Value(digits) <= I64_MAX then Value(digits) else 0
  {
    var padded := PaddedDigits(digits, negative, width);
    ValueOfPadded(Zeros(RunLength(|digits|, negative, width) - |digits|), digits);
    ParseDigits(padded, I64_MIN, I64_MAX);
  }

  lemma RenamedEnds(file: string, oldRun: nat, digits: string, negative: bool, renamed: string, run: nat)
    requires IsRenamed(file, oldRun, digits, negative, renamed) && AllDigits(digits) && digits != ""
    requires IsTrailingRun(Stem(renamed), run)
    ensures run == RunLength(|digits|, negative, oldRun)
    ensures IndexOf(Stem(renamed), run) == if Value(digits) <= I64_MAX then Value(digits) else 0
  {
    RenamedTo(file, oldRun, digits, negative, renamed);
    NewStemRun(Stem(file), oldRun, digits, negative);
    RunOf(Stem(renamed), run, PaddedDigits(digits, negative, oldRun));
    PaddedValue(digits, negative, oldRun);
  }

  /**
   * The new name's digit run is the old one or the digits of the number, whichever is longer,
   * a sign taking one place of the old run; and its index is the magnitude of the number,
   * except that the magnitude of the smallest one does not fit and reads as 0.
   */
  lemma RenamedIndex(file: string, oldRun: nat, number: int, renamed: string, run: nat)
    requires IsRenaming(file, oldRun, number, renamed) && I64_MIN <= number <= I64_MAX
    requires IsTrailingRun(Stem(renamed), run)
    ensures run == RunLength(|Decimal(Magnitude(number))|, number < 0, oldRun)
    ensures IndexOf(Stem(renamed), run) == if Magnitude(number) <= I64_MAX then Magnitude(number) else 0
  {
    ValueOfDecimal(Magnitude(number));
    RenamedEnds(file, oldRun, Decimal(Magnitude(number)), number < 0, renamed, run);
  }

  /** The index read back is the number written exactly when that is not negative. */
  lemma IndexIsNumberExactlyFromZero(file: string, oldRun: nat, number: int, renamed: string, run: nat)
    requires IsRenaming(file, oldRun, number, renamed) && I64_MIN <= number <= I64_MAX
    requires IsTrailingRun(Stem(renamed), run)
    ensures IndexOf(Stem(renamed), run) == number <==> number >= 0
  {
    RenamedIndex(file, oldRun, number, renamed, run);
  }

  /** Renamed to number -1, any name is read back as number 1. */
  lemma MinusOneReadsBackAsOne(file: string, oldRun: nat, renamed: string, run: nat)
    requires IsRenaming(file, oldRun, -1, renamed) && IsTrailingRun(Stem(renamed), run)
    ensures IndexOf(Stem(renamed), run) == 1
  {
    RenamedIndex(file, oldRun, -1, renamed, run);
  }

  // ----- what the renaming keeps -----

  /**
   * The new stem, spelled out: the old one up to its digits, a sign for a negative number, zeros
   * that fill the places of the old digits, and the digits of the number.
   */
  predicate IsNewName(file: string, run: nat, number: int, zeros: string, renamed: string) {
    var sign, digits := if number < 0 then "-" else "", Decimal(if number < 0 then -number else number);
    && run <= |Stem(file)|
    && Stem(renamed) == Stem(file)[..|Stem(file)| - run] + sign + zeros + digits
    && (forall i :: 0 <= i < |zeros| ==> zeros[i] == '0')
    && |zeros| == if |sign| + |digits| < run then run - |sign| - |digits| else 0
  }

  lemma FourParts(a: string, b: string, c: string, d: string)
    ensures a + (b + (c + d)) == a + b + c + d
  {
  }

  lemma NewStemSpelled(stem: string, run: nat, digits: string, negative: bool, sign: string, zeros: string)
    requires run <= |stem| && sign == (if negative then "-" else "") && digits != ""
    requires zeros == Zeros(RunLength(|digits|, negative, run) - |digits|)
    ensures NewStem(stem, run, digits, negative) == stem[..|stem| - run] + sign + zeros + digits
    ensures |zeros| == if |sign| + |digits| < run then run - |sign| - |digits| else 0
  {
    assert Padded(digits, negative, run) == sign + (zeros + digits);
    FourParts(stem[..|stem| - run], sign, zeros, digits);
  }

  /** Renaming keeps the name up to its digits, and puts the padded number there. */
  lemma RenamedKeepsTheName(file: string, run: nat, number: int, renamed: string) returns (zeros: string)
    requires IsRenaming(file, run, number, renamed)
    ensures IsTrailingRun(Stem(file), run) && IsNewName(file, run, number, zeros, renamed)
  {
    var digits := Decimal(Magnitude(number));
    zeros := Zeros(RunLength(|digits|, number < 0, run) - |digits|);
    RenamedTo(file, run, digits, number < 0, renamed);
    NewStemSpelled(Stem(file), run, digits, number < 0, if number < 0 then "-" else "", zeros);
  }

  /** Where the stem does not occur again, what follows it stays as it was. */
  lemma RenamedKeepsTheSuffix(file: string, run: nat, number: int, renamed: string)
    requires IsRenaming(file, run, number, renamed)
    requires forall k :: 0 <= k <= |Suffix(file)| ==> !(Stem(file) <= Suffix(file)[k..])
    ensures renamed == Stem(renamed) + Suffix(file)
  {
    var stem, suffix, digits := Stem(file), Suffix(file), Decimal(Magnitude(number));
    StemAndSuffix(file);
    RenamedTo(file, run, digits, number < 0, renamed);
    assert file[|stem|..] == suffix;
    NothingToReplace(suffix, stem, Stem(renamed));
  }

  lemma {:induction false} NothingToReplace(s: string, pattern: string, with: string)
    requires pattern != "" && forall k :: 0 <= k <= |s| ==> !(pattern <= s[k..])
    ensures ReplaceAll(s, pattern, with) == s
  {
    if s != "" {
      assert s[0..] == s;
      forall k | 0 <= k <= |s[1..]| ensures !(pattern <= s[1..][k..]) {
        assert s[1..][k..] == s[k + 1..];
      }
      NothingToReplace(s[1..], pattern, with);
    }
  }

  lemma ShotParts(file: string, stem: string, suffix: string)
    requires stem == "shot_0001" && suffix == ".png" && file == stem + suffix
    ensures Stem(file) == stem && Suffix(file) == suffix && '.' !in stem
  {
    StemOf(stem, suffix);
    StemAndSuffix(file);
    assert file[|stem|..] == suffix;
  }

  lemma ShotRun(stem: string, run: nat)
    requires stem == "shot_0001" && IsTrailingRun(stem, run)
    ensures run == 4 && stem[..|stem| - run] == "shot_"
  {
    assert IsTrailingRun(stem, 4);
    TrailingRunIsUnique(stem, run, 4);
  }

  lemma ShotName(kept: string, zeros: string)
    requires kept == "shot_" && |zeros| == 3 && forall i :: 0 <= i < 3 ==> zeros[i] == '0'
    ensures kept + "" + zeros + "7" == "shot_0007"
  {
  }

  /** "shot_0001.png" renamed to number 7 is "shot_0007.png". */
  lemma ShotIsRenamed(file: string, stem: string, suffix: string, renamed: string, run: nat)
    requires stem == "shot_0001" && suffix == ".png" && file == stem + suffix && IsRenaming(file, run, 7, renamed)
    ensures renamed == "shot_0007" + ".png"
  {
    ShotParts(file, stem, suffix);
    var zeros := RenamedKeepsTheName(file, run, 7, renamed);
    ShotRun(stem, run);
    assert Decimal(7) == "7";
    ShotName(stem[..|stem| - run], zeros);
    RenamedKeepsTheSuffix(file, run, 7, renamed);
  }

  // ----- an empty stem -----

  /** The text and position after `turns` turns of the replace loop for the empty stem. */
  function LoopText(file: string, newStem: string, turns: nat): string {
    if turns == 0 then file
    else
      var text, pos := LoopText(file, newStem, turns - 1), LoopPos(newStem, turns - 1);
      if pos <= |text| then text[..pos] + newStem + text[pos..] else text
  }

  function LoopPos(newStem: string, turns: nat): nat {
    if turns == 0 then 0 else LoopPos(newStem, turns - 1) + |newStem|
  }

  /** Without a stem, as in ".png", every turn of the loop finds another place: what is left never shrinks. */
  lemma {:induction false} EmptyStemNeverFinishes(file: string, newStem: string, turns: nat)
    ensures var text, pos := LoopText(file, newStem, turns), LoopPos(newStem, turns);
      pos <= |text| && |text| - pos == |file| && Find(text[pos..], "") == Some(0)
  {
    if turns > 0 { EmptyStemNeverFinishes(file, newStem, turns - 1); }
  }

  /**
   * A hidden file's name has no stem: the loop above is the one `transform_image_sequence_file_name` runs on ".png".
   */
  lemma HiddenFileHasNoStem(number: int)
    ensures Stem(".png") == "" && NewStem("", 0, Decimal(Magnitude(number)), number < 0) != ""
  {
    assert ".png"[0] == '.';
  }
}

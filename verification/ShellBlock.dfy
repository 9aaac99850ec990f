/** The block that the installer appends to a shell profile and `uninstall` removes. */
module ShellBlock {
  import opened Wrappers

  // ---------------------------------------------------------------- deleting a text everywhere

  predicate OccursAt(text: string, block: string, i: nat) {
    i + |block| <= |text| && text[i..i + |block|] == block
  }

  ghost predicate Contains(text: string, block: string) {
    exists i: nat :: OccursAt(text, block, i)
  }

  /** `strings.ReplaceAll(text, block, "")`: from the left, without overlaps. */
  function DeleteAll(text: string, block: string): string
    requires block != ""
  {
    if |text| < |block| then text
    else if text[..|block|] == block then DeleteAll(text[|block|..], block)
    else [text[0]] + DeleteAll(text[1..], block)
  }

  /** No proper prefix of the block is also its suffix. */
  ghost predicate Unbordered(block: string) {
    forall l: nat | 0 < l < |block| :: block[..l] != block[|block| - l..]
  }

  lemma OverlapIsBorder(text: string, block: string, i: nat, j: nat)
    requires OccursAt(text, block, i) && OccursAt(text, block, j) && i < j < i + |block|
    ensures block[..i + |block| - j] == block[j - i..]
  {
    assert block[j - i..] == text[j..i + |block|];
    assert block[..i + |block| - j] == text[j..i + |block|];
  }

  lemma NoOverlap(text: string, block: string, i: nat, j: nat)
    requires Unbordered(block) && OccursAt(text, block, i) && OccursAt(text, block, j) && i < j
    ensures i + |block| <= j
  {
    if j < i + |block| {
      OverlapIsBorder(text, block, i, j);
    }
  }

  /** Some occurrence of the block covers position `k`. */
  ghost predicate Covered(text: string, block: string, k: nat) {
    exists i: nat :: i <= k < i + |block| && OccursAt(text, block, i)
  }

  /** The characters of `text[from..to]` that no occurrence in the text covers, in order. */
  ghost function Uncovered(text: string, block: string, from: nat, to: nat): string
    requires from <= to <= |text|
    decreases |text| - from
  {
    if from == to then ""
    else (if Covered(text, block, from) then "" else [text[from]]) + Uncovered(text, block, from + 1, to)
  }

  lemma OccursBehind(text: string, block: string, k: nat)
    requires k <= |text|
    ensures OccursAt(text, block, k) <==> |block| <= |text[k..]| && text[k..][..|block|] == block
  {
    if k + |block| <= |text| {
      assert text[k..][..|block|] == text[k..k + |block|];
    }
  }

  /** No occurrence reaches across position `k`. */
  ghost predicate Boundary(text: string, block: string, k: nat) {
    forall i: nat | i < k && OccursAt(text, block, i) :: i + |block| <= k
  }

  lemma {:induction false} SkipCovered(text: string, block: string, i: nat, k: nat)
    requires OccursAt(text, block, i) && i <= k <= i + |block|
    ensures Uncovered(text, block, k, |text|) == Uncovered(text, block, i + |block|, |text|)
    decreases i + |block| - k
  {
    if k < i + |block| {
      assert Covered(text, block, k);
      assert Uncovered(text, block, k, |text|) == Uncovered(text, block, k + 1, |text|);
      SkipCovered(text, block, i, k + 1);
    }
  }

  lemma BoundaryAfter(text: string, block: string, k: nat)
    requires Unbordered(block) && Boundary(text, block, k) && OccursAt(text, block, k)
    ensures Boundary(text, block, k + |block|)
  {
    forall i: nat | i < k + |block| && OccursAt(text, block, i)
      ensures i + |block| <= k + |block|
    {
      if i > k {
        NoOverlap(text, block, k, i);
      }
    }
  }

  lemma DeleteHere(text: string, block: string, k: nat)
    requires block != "" && OccursAt(text, block, k)
    ensures DeleteAll(text[k..], block) == DeleteAll(text[k + |block|..], block)
  {
    OccursBehind(text, block, k);
    assert text[k..][|block|..] == text[k + |block|..];
  }

  lemma KeepHere(text: string, block: string, k: nat)
    requires block != "" && k < |text| && !OccursAt(text, block, k)
    ensures DeleteAll(text[k..], block) == [text[k]] + DeleteAll(text[k + 1..], block)
  {
    OccursBehind(text, block, k);
    assert text[k..][1..] == text[k + 1..];
    if |text[k..]| < |block| {
      assert text[k..] == [text[k]] + text[k + 1..];
    }
  }

  lemma {:induction false} DeleteFrom(text: string, block: string, k: nat)
    requires block != "" && Unbordered(block) && k <= |text| && Boundary(text, block, k)
    ensures DeleteAll(text[k..], block) == Uncovered(text, block, k, |text|)
    decreases |text| - k
  {
    if OccursAt(text, block, k) {
      BoundaryAfter(text, block, k);
      SkipCovered(text, block, k, k);
      DeleteHere(text, block, k);
      DeleteFrom(text, block, k + |block|);
    } else if k < |text| {
      assert !Covered(text, block, k);
      KeepHere(text, block, k);
      DeleteFrom(text, block, k + 1);
    }
  }

  /** Deleting from the left misses nothing: exactly the characters outside of all
    * occurrences of an unbordered block remain, in order. */
  lemma DeletesEveryOccurrence(text: string, block: string)
    requires block != "" && Unbordered(block)
    ensures DeleteAll(text, block) == Uncovered(text, block, 0, |text|)
  {
    assert text[0..] == text;
    DeleteFrom(text, block, 0);
  }

  // ---------------------------------------------------------------- what is appended is removed

  lemma {:induction false} DeleteAppended(text: string, block: string)
    requires block != "" && Unbordered(block)
    ensures DeleteAll(text + block, block) == DeleteAll(text, block)
  {
    var all := text + block;
    assert all[|text|..|text| + |block|] == block;
    assert OccursAt(all, block, |text|);
    if text == "" {
      assert all == block && block[|block|..] == "";
    } else if all[..|block|] == block {
      assert OccursAt(all, block, 0);
      NoOverlap(all, block, 0, |text|);
      assert all[|block|..] == text[|block|..] + block;
      assert all[..|block|] == text[..|block|];
      DeleteAppended(text[|block|..], block);
    } else {
      assert all[1..] == text[1..] + block;
      DeleteAppended(text[1..], block);
      if |text| >= |block| {
        assert all[..|block|] == text[..|block|];
      } else {
        assert DeleteAll(text[1..], block) == text[1..];
        assert [text[0]] + text[1..] == text;
      }
    }
  }

  lemma {:induction false} UnchangedIffAbsent(text: string, block: string)
    requires block != ""
    ensures |DeleteAll(text, block)| <= |text|
    ensures DeleteAll(text, block) == text <==> !Contains(text, block)
  {
    if |text| < |block| {
    } else if text[..|block|] == block {
      assert OccursAt(text, block, 0);
      UnchangedIffAbsent(text[|block|..], block);
    } else {
      UnchangedIffAbsent(text[1..], block);
      ContainsCons(text, block);
      assert text == [text[0]] + text[1..];
    }
  }

  lemma OccursShift(text: string, block: string, i: nat)
    requires text != ""
    ensures OccursAt(text[1..], block, i) <==> OccursAt(text, block, i + 1)
  {
    if i + 1 + |block| <= |text| {
      assert text[1..][i..i + |block|] == text[i + 1..i + 1 + |block|];
    }
  }

  lemma ContainsCons(text: string, block: string)
    requires text != "" && !OccursAt(text, block, 0)
    ensures Contains(text, block) <==> Contains(text[1..], block)
  {
    if i: nat :| OccursAt(text, block, i) {
      OccursShift(text, block, i - 1);
    }
    if i: nat :| OccursAt(text[1..], block, i) {
      OccursShift(text, block, i);
    }
  }

  // ---------------------------------------------------------------- the managed block

  const HEADER := "# Hopty\n"
  const SOURCE_LINE := ". \"$HOME/.local/bin/env\""
  const EXPORT_LINE := "export PATH=\"$HOME/.local/bin:$PATH\""
  const FOOTER := "# End Hopty\n"
  const MANAGED_BLOCK := HEADER + SOURCE_LINE + "\n" + EXPORT_LINE + "\n" + FOOTER

  /** The text that the installer and the remover both have, line by line. */
  lemma BlockText()
    ensures MANAGED_BLOCK ==
      "# Hopty\n" + ". \"$HOME/.local/bin/env\"" + "\n" + "export PATH=\"$HOME/.local/bin:$PATH\"" + "\n" + "# End Hopty\n"
  {
  }

  lemma LinesWithoutHash()
    ensures forall i | 0 < i < |HEADER| :: HEADER[i] != '#'
    ensures forall i | 0 <= i < |SOURCE_LINE| :: SOURCE_LINE[i] != '#'
    ensures forall i | 0 <= i < |EXPORT_LINE| :: EXPORT_LINE[i] != '#'
    ensures forall i | 0 < i < |FOOTER| :: FOOTER[i] != '#'
  {
  }

  lemma BlockUnbordered()
    ensures Unbordered(MANAGED_BLOCK)
  {
    LinesWithoutHash();
    var b := MANAGED_BLOCK;
    var footer := |b| - |FOOTER|;
    assert b[footer..] == FOOTER;
    assert forall i | 0 < i < |b| && i != footer :: b[i] != '#';
    forall l: nat | 0 < l < |b|
      ensures b[..l] != b[|b| - l..]
    {
      if |b| - l == footer {
        assert b[..l][2] == HEADER[2] && b[footer..][2] == FOOTER[2];
      } else {
        assert b[..l][0] == '#' && b[|b| - l..][0] == b[|b| - l];
      }
    }
  }

  // ---------------------------------------------------------------- installing and uninstalling

  /** The installer appends the block, behind a newline, unless both of its working
    * lines are in the profile already. */
  ghost function Install(profile: string): string {
    if Contains(profile, SOURCE_LINE) && Contains(profile, EXPORT_LINE) then profile
    else profile + "\n" + MANAGED_BLOCK
  }

  function Uninstall(profile: string): string {
    DeleteAll(profile, MANAGED_BLOCK)
  }

  /** Removing an appended block gives the text back exactly if the text did not
    * contain the block itself. */
  lemma AppendThenRemove(text: string)
    ensures Uninstall(text + MANAGED_BLOCK) == text <==> !Contains(text, MANAGED_BLOCK)
  {
    BlockUnbordered();
    DeleteAppended(text, MANAGED_BLOCK);
    UnchangedIffAbsent(text, MANAGED_BLOCK);
  }

  lemma OccursInside(text: string, block: string, i: nat, line: string, at: nat)
    requires OccursAt(text, block, i) && OccursAt(block, line, at)
    ensures OccursAt(text, line, i + at)
  {
    var here := text[i + at..i + at + |line|];
    assert forall k | 0 <= k < |line| :: here[k] == block[at..at + |line|][k];
  }

  lemma OccursBefore(text: string, tail: string, line: string, i: nat)
    requires OccursAt(text + tail, line, i) && i + |line| <= |text|
    ensures OccursAt(text, line, i)
  {
    assert text[i..i + |line|] == (text + tail)[i..i + |line|];
  }

  lemma LinesOfBlock()
    ensures OccursAt(MANAGED_BLOCK, SOURCE_LINE, |HEADER|)
    ensures OccursAt(MANAGED_BLOCK, EXPORT_LINE, |HEADER| + |SOURCE_LINE| + 1)
  {
  }

  /** A profile with the block in it, a final newline aside, has both lines. */
  lemma BlockHasLines(profile: string)
    requires Contains(profile + "\n", MANAGED_BLOCK)
    ensures Contains(profile, SOURCE_LINE) && Contains(profile, EXPORT_LINE)
  {
    var i: nat :| OccursAt(profile + "\n", MANAGED_BLOCK, i);
    var s, e := |HEADER|, |HEADER| + |SOURCE_LINE| + 1;
    LinesOfBlock();
    OccursInside(profile + "\n", MANAGED_BLOCK, i, SOURCE_LINE, s);
    OccursInside(profile + "\n", MANAGED_BLOCK, i, EXPORT_LINE, e);
    OccursBefore(profile, "\n", SOURCE_LINE, i + s);
    OccursBefore(profile, "\n", EXPORT_LINE, i + e);
  }

  /** Installing and uninstalling leaves any profile as it was, but for a newline at its
    * end if the block was appended. No assumption on the profile is needed: one that
    * has the block already is not appended to. */
  lemma InstallThenUninstall(profile: string)
    ensures Install(profile) == profile || Uninstall(Install(profile)) == profile + "\n"
    ensures Install(profile) == profile ==> Uninstall(Install(profile)) == Uninstall(profile)
  {
    if Install(profile) != profile {
      if Contains(profile + "\n", MANAGED_BLOCK) {
        BlockHasLines(profile);
      }
      AppendThenRemove(profile + "\n");
    }
  }

  /** The profile is exactly as before if and only if it had both lines, so that the
    * installer left it alone, and no block. */
  lemma RestoredExactlyIf(profile: string)
    ensures Uninstall(Install(profile)) == profile <==>
      Contains(profile, SOURCE_LINE) && Contains(profile, EXPORT_LINE) && !Contains(profile, MANAGED_BLOCK)
  {
    InstallThenUninstall(profile);
    UnchangedIffAbsent(profile, MANAGED_BLOCK);
    assert profile + "\n" != profile;
    if Install(profile) == profile {
      assert |profile + "\n" + MANAGED_BLOCK| > |profile|;
    }
  }

  /** A second run of the installer changes nothing. */
  lemma InstallTwice(profile: string)
    ensures Install(Install(profile)) == Install(profile)
  {
    if Install(profile) != profile {
      var text := Install(profile);
      var i := |profile| + 1;
      assert text[i..i + |MANAGED_BLOCK|] == MANAGED_BLOCK;
      assert OccursAt(text + "\n", MANAGED_BLOCK, i) by {
        assert (text + "\n")[i..i + |MANAGED_BLOCK|] == MANAGED_BLOCK;
      }
      BlockHasLines(text);
    }
  }

  ghost predicate NoneBefore(text: string, block: string, k: nat) {
    forall i: nat | i < k :: !OccursAt(text, block, i)
  }

  lemma Glue(text: string, j: nat, k: nat, rest: string)
    requires j < k <= |text|
    ensures [text[j]] + (text[j + 1..k] + rest) == text[j..k] + rest
  {
  }

  lemma {:induction false} KeepUntil(text: string, block: string, j: nat, k: nat)
    requires block != "" && j <= k <= |text| && NoneBefore(text, block, k)
    ensures DeleteAll(text[j..], block) == text[j..k] + DeleteAll(text[k..], block)
    decreases k - j
  {
    if j < k {
      KeepHere(text, block, j);
      KeepUntil(text, block, j + 1, k);
      Glue(text, j, k, DeleteAll(text[k..], block));
    }
  }

  lemma AroundOccurs(text: string, block: string, k: nat)
    requires Unbordered(block) && 0 < k < |block| && OccursAt(text, block, k)
    ensures NoneBefore(text, block, k)
  {
    forall i: nat | i < k
      ensures !OccursAt(text, block, i)
    {
      if OccursAt(text, block, i) {
        NoOverlap(text, block, i, k);
      }
    }
  }

  lemma Slices(before: string, block: string, after: string)
    ensures
      var text := before + block + after;
      && text[0..] == text && text[0..|before|] == before && text[|before|..] == block + after
      && OccursAt(text, block, |before|)
  {
    var text := before + block + after;
    assert text[|before|..|before| + |block|] == block;
  }

  lemma DeleteFront(block: string, after: string)
    requires |after| < |block|
    ensures DeleteAll(block + after, block) == after
  {
    assert (block + after)[..|block|] == block && (block + after)[|block|..] == after;
  }

  lemma Around(block: string, before: string, after: string)
    requires Unbordered(block) && block == before + after && before != "" && after != ""
    ensures DeleteAll(before + block + after, block) == block
  {
    var text := before + block + after;
    Slices(before, block, after);
    AroundOccurs(text, block, |before|);
    KeepUntil(text, block, 0, |before|);
    DeleteFront(block, after);
  }

  /** Uninstalling twice may remove more than once: a block around a block becomes one
    * only when the inner one is gone. */
  lemma UninstallIsNotIdempotent(k: nat)
    requires 0 < k < |MANAGED_BLOCK|
    ensures
      var text := MANAGED_BLOCK[..k] + MANAGED_BLOCK + MANAGED_BLOCK[k..];
      Uninstall(text) == MANAGED_BLOCK && Uninstall(Uninstall(text)) == ""
  {
    BlockUnbordered();
    Halves(MANAGED_BLOCK, k);
    Around(MANAGED_BLOCK, MANAGED_BLOCK[..k], MANAGED_BLOCK[k..]);
    DeleteWhole(MANAGED_BLOCK);
  }

  lemma Halves(text: string, k: nat)
    requires 0 < k < |text|
    ensures text == text[..k] + text[k..] && text[..k] != "" && text[k..] != ""
  {
  }

  lemma DeleteWhole(block: string)
    requires block != ""
    ensures DeleteAll(block, block) == ""
  {
    assert block[..|block|] == block && block[|block|..] == "";
  }

  // ---------------------------------------------------------------- when a second run finds more

  /** The window from `from` to `to` contains a whole block, and what no block covers in
    * it spells the block again. */
  ghost predicate Respells(text: string, block: string, from: nat, to: nat) {
    && from <= to <= |text|
    && (exists m: nat :: from <= m && m + |block| <= to && OccursAt(text, block, m))
    && Uncovered(text, block, from, to) == block
  }

  lemma {:induction false} UncoveredSplit(text: string, block: string, from: nat, middle: nat, to: nat)
    requires from <= middle <= to <= |text|
    ensures Uncovered(text, block, from, to) ==
      Uncovered(text, block, from, middle) + Uncovered(text, block, middle, to)
    decreases middle - from
  {
    if from < middle {
      UncoveredSplit(text, block, from + 1, middle, to);
    }
  }

  /** The uncovered character number `n` from `from` on. */
  lemma {:induction false} FindUncovered(text: string, block: string, from: nat, n: nat) returns (k: nat)
    requires from <= |text| && n < |Uncovered(text, block, from, |text|)|
    ensures from <= k < |text| && !Covered(text, block, k)
    ensures |Uncovered(text, block, from, k)| == n
    decreases |text| - from
  {
    if !Covered(text, block, from) && n == 0 {
      k := from;
    } else {
      k := FindUncovered(text, block, from + 1, if Covered(text, block, from) then n else n - 1);
    }
  }

  lemma {:induction false} NothingCovered(text: string, block: string, from: nat, to: nat)
    requires from <= to <= |text| && forall k | from <= k < to :: !Covered(text, block, k)
    ensures Uncovered(text, block, from, to) == text[from..to]
    decreases |text| - from
  {
    if from < to {
      NothingCovered(text, block, from + 1, to);
    }
  }

  lemma SpelledOccurs(text: string, block: string, from: nat, to: nat)
    requires from <= to <= |text| && forall k | from <= k < to :: !Covered(text, block, k)
    ensures Uncovered(text, block, from, to) == block ==> OccursAt(text, block, from)
  {
    NothingCovered(text, block, from, to);
  }

  /** What spells the block without being a block has an occurrence inside. */
  lemma SomethingCovered(text: string, block: string, from: nat, to: nat)
    requires block != "" && from < to <= |text| && !Covered(text, block, from)
    requires Uncovered(text, block, from, to) == block
    ensures exists k: nat :: from <= k < to && Covered(text, block, k)
  {
    if forall k: nat | from <= k < to :: !Covered(text, block, k) {
      SpelledOccurs(text, block, from, to);
    }
  }

  /** A window that spells the block and begins and ends uncovered contains a block. */
  lemma ContainsWhole(text: string, block: string, from: nat, last: nat)
    requires block != "" && from <= last < |text|
    requires !Covered(text, block, from) && !Covered(text, block, last)
    requires Uncovered(text, block, from, last + 1) == block
    ensures Respells(text, block, from, last + 1)
  {
    SomethingCovered(text, block, from, last + 1);
    var k: nat :| from <= k < last + 1 && Covered(text, block, k);
    var m: nat :| m <= k < m + |block| && OccursAt(text, block, m);
    assert from < m && m + |block| <= last;
  }

  /** What was left contains the block only if a window respells it. */
  lemma LeftoverRespells(text: string, block: string)
    requires block != "" && Contains(Uncovered(text, block, 0, |text|), block)
    ensures exists from: nat, to: nat :: Respells(text, block, from, to)
  {
    var left := Uncovered(text, block, 0, |text|);
    var at: nat :| OccursAt(left, block, at);
    var from := FindUncovered(text, block, 0, at);
    UncoveredSplit(text, block, 0, from, |text|);
    assert left[at..] == Uncovered(text, block, from, |text|);
    var last := FindUncovered(text, block, from, |block| - 1);
    UncoveredSplit(text, block, from, last, |text|);
    OneMoreUncovered(text, block, from, last);
    assert left[at..][..|block|] == block;
    ContainsWhole(text, block, from, last);
  }

  /** The uncovered characters up to and with `last` come first. */
  lemma OneMoreUncovered(text: string, block: string, from: nat, last: nat)
    requires from <= last < |text| && !Covered(text, block, last)
    ensures
      var all, some := Uncovered(text, block, from, |text|), Uncovered(text, block, from, last + 1);
      && |some| == |Uncovered(text, block, from, last)| + 1
      && |some| <= |all| && all[..|some|] == some
  {
    UncoveredSplit(text, block, from, last, last + 1);
    UncoveredSplit(text, block, from, last + 1, |text|);
    assert Uncovered(text, block, last, last + 1) == [text[last]];
  }

  lemma RespelledIsLeft(text: string, block: string, from: nat, to: nat)
    requires Respells(text, block, from, to)
    ensures Contains(Uncovered(text, block, 0, |text|), block)
  {
    UncoveredSplit(text, block, 0, from, |text|);
    UncoveredSplit(text, block, from, to, |text|);
    assert OccursAt(Uncovered(text, block, 0, |text|), block, |Uncovered(text, block, 0, from)|);
  }

  /** For every text: a second uninstall changes nothing exactly if no window of the text
    * contains a whole block and spells the block with what no block covers in it. */
  lemma SecondRunChangesNothingExactlyIf(text: string)
    ensures Uninstall(Uninstall(text)) == Uninstall(text) <==>
      !exists from: nat, to: nat :: Respells(text, MANAGED_BLOCK, from, to)
  {
    BlockUnbordered();
    DeletesEveryOccurrence(text, MANAGED_BLOCK);
    UnchangedIffAbsent(Uninstall(text), MANAGED_BLOCK);
    if from: nat, to: nat :| Respells(text, MANAGED_BLOCK, from, to) {
      RespelledIsLeft(text, MANAGED_BLOCK, from, to);
    }
    if Contains(Uninstall(text), MANAGED_BLOCK) {
      LeftoverRespells(text, MANAGED_BLOCK);
    }
  }

  // ---------------------------------------------------------------- in place

  /** A profile file; `None` if there is none. Every call may fail; `failures` counts how
    * often that happened. */
  class Profile {
    var content: Option<string>
    ghost var failures: nat

    /** A call without an effect on the content: reading it, or its permissions. */
    method Attempt() returns (ok: bool)
      modifies this`failures
      ensures failures == old(failures) + if ok then 0 else 1
    {
      ok := *;
      if !ok {
        failures := failures + 1;
      }
    }

    /** `os.WriteFile` truncates the file before it writes, and may fail in between. */
    method Overwrite(text: string) returns (ok: bool)
      requires content.Some?
      modifies this
      ensures ok ==> content == Some(text)
      ensures failures == old(failures) + if ok then 0 else 1
      ensures !ok ==> content == old(content) || exists n: nat :: n <= |text| && content == Some(text[..n])
    {
      ok := Attempt();
      if !ok {
        return;
      }
      var n: nat :| n <= |text|;
      content := Some(text[..n]);
      assert text[..|text|] == text;
      ok := n == |text|;
      if !ok {
        failures := failures + 1;
      }
    }

    /** Unless a call fails, it succeeds. After success every block is gone; a missing
      * file, or one without a block, is left alone even by failures. */
    method RemoveShellBlock() returns (ok: bool)
      modifies this
      ensures ok <==> failures == old(failures)
      ensures old(content).None? ==> ok && content.None?
      ensures old(content).Some? && ok ==> content == Some(Uninstall(old(content).value))
      ensures old(content).Some? && !Contains(old(content).value, MANAGED_BLOCK) ==> content == old(content)
    {
      if content.None? {
        return true;
      }
      ok := Attempt();
      if !ok {
        return;
      }
      var text := content.value;
      UnchangedIffAbsent(text, MANAGED_BLOCK);
      var updated := Uninstall(text);
      if updated == text {
        return true;
      }
      ok := Attempt();
      if !ok {
        return;
      }
      ok := Overwrite(updated);
    }
  }
}

/**
 * The block-list check that can veto the night-time escalation to shutdown:
 * a running process is prohibited when some block-list entry occurs in its
 * name, compared without regard to case.
 */
module ProcessFilter {

  /** The configured block-list. */
  const ProhibitedProcesses: seq<string> := ["steam", "rider"]

  /** Case folding, restricted to ASCII letters. */
  function FoldChar(c: char): char
  {
    if 'A' <= c <= 'Z' then (c as int + 32) as char else c
  }

  predicate IsUpper(c: char)
  {
    'A' <= c <= 'Z'
  }

  /**
   * Folding a string leaves no upper-case ASCII letter and changes no other
   * character. Two characters fold alike exactly when they are equal or are
   * the two cases of one ASCII letter (`FoldCharAlike`).
   */
  function Fold(s: string): (r: string)
    ensures |r| == |s|
    ensures forall i :: 0 <= i < |r| ==> !IsUpper(r[i])
    ensures forall i :: 0 <= i < |s| && !IsUpper(s[i]) ==> r[i] == s[i]
  {
    seq(|s|, i requires 0 <= i < |s| => FoldChar(s[i]))
  }

  /** Two characters fold alike exactly when they are equal or the two cases of one letter. */
  lemma FoldCharAlike(c: char, d: char)
    ensures FoldChar(c) == FoldChar(d) <==>
      c == d || (IsUpper(c) && d as int == c as int + 32) || (IsUpper(d) && c as int == d as int + 32)
  {
  }

  /** `value` occurs in `name` at offset `i`, ignoring case. */
  predicate MatchesAt(name: string, value: string, i: nat)
  {
    i + |value| <= |name| && Fold(name[i..i + |value|]) == Fold(value)
  }

  /** Case-insensitive substring test; the empty string occurs in every name. */
  predicate ContainsIgnoreCase(name: string, value: string)
  {
    exists i: nat | i <= |name| :: MatchesAt(name, value, i)
  }

  /** Some block-list entry occurs in `name`. */
  predicate IsProhibited(name: string, blockList: seq<string>)
  {
    exists x :: x in blockList && ContainsIgnoreCase(name, x)
  }

  /**
   * The running processes (by name) that the block-list matches, in the
   * order they were listed: each matching name is kept as often as it occurs,
   * every other name is dropped.
   */
  function RunningProhibited(running: seq<string>, blockList: seq<string>): (r: seq<string>)
    ensures forall x :: x in r ==> x in running && IsProhibited(x, blockList)
    ensures forall x :: multiset(r)[x] == if IsProhibited(x, blockList) then multiset(running)[x] else 0
  {
    if running == [] then []
    else
      var rest := RunningProhibited(running[1..], blockList);
      assert running == [running[0]] + running[1..];
      if IsProhibited(running[0], blockList) then [running[0]] + rest else rest
  }

  /**
   * The check that guards the escalation: whether anything prohibited runs,
   * together with the prohibited processes found.
   */
  function CheckForProhibitedProcesses(running: seq<string>, blockList: seq<string>): (r: (bool, seq<string>))
    ensures r.1 == RunningProhibited(running, blockList)
    ensures r.0 <==> exists p :: p in running && IsProhibited(p, blockList)
  {
    var found := RunningProhibited(running, blockList);
    if |found| > 0 then
      assert found[0] in found;
      (true, found)
    else
      forall p | p in running ensures !IsProhibited(p, blockList) {
        assert multiset(found)[p] == 0;
      }
      (false, found)
  }

  /** Filtering distributes over concatenation: the original order is kept. */
  lemma {:induction false} RunningProhibitedAppend(a: seq<string>, b: seq<string>, blockList: seq<string>)
    ensures RunningProhibited(a + b, blockList) == RunningProhibited(a, blockList) + RunningProhibited(b, blockList)
  {
    if a == [] {
      assert a + b == b;
    } else {
      assert (a + b)[1..] == a[1..] + b;
      RunningProhibitedAppend(a[1..], b, blockList);
    }
  }

  /** Filtering an already filtered list changes nothing. */
  lemma {:induction false} RunningProhibitedIdempotent(running: seq<string>, blockList: seq<string>)
    ensures RunningProhibited(RunningProhibited(running, blockList), blockList) == RunningProhibited(running, blockList)
  {
    if running != [] {
      RunningProhibitedIdempotent(running[1..], blockList);
    }
  }

  lemma FoldIdempotent(s: string)
    ensures Fold(Fold(s)) == Fold(s)
  {
  }

  lemma FoldSlice(s: string, i: nat, j: nat)
    requires i <= j <= |s|
    ensures Fold(s)[i..j] == Fold(s[i..j])
  {
  }

  /** Case does not matter: folding the name first finds the same entries. */
  lemma ContainsIgnoresCase(name: string, value: string)
    ensures ContainsIgnoreCase(Fold(name), value) <==> ContainsIgnoreCase(name, value)
  {
    forall i: nat
      ensures MatchesAt(Fold(name), value, i) <==> MatchesAt(name, value, i)
    {
      if i + |value| <= |name| {
        FoldSlice(name, i, i + |value|);
        FoldIdempotent(name[i..i + |value|]);
      }
    }
    if ContainsIgnoreCase(Fold(name), value) {
      var i: nat :| MatchesAt(Fold(name), value, i);
      assert MatchesAt(name, value, i);
    }
    if ContainsIgnoreCase(name, value) {
      var i: nat :| MatchesAt(name, value, i);
      assert MatchesAt(Fold(name), value, i);
    }
  }

  /** The Steam client helper and JetBrains Rider match their block-list entries despite case and suffix. */
  lemma SteamHelperAndRiderAreProhibited()
    ensures IsProhibited("SteamWebHelper", ProhibitedProcesses)
    ensures IsProhibited("Rider64", ProhibitedProcesses)
  {
    assert MatchesAt("SteamWebHelper", "steam", 0) && "steam" in ProhibitedProcesses;
    assert ContainsIgnoreCase("SteamWebHelper", "steam");
    assert MatchesAt("Rider64", "rider", 0) && "rider" in ProhibitedProcesses;
    assert ContainsIgnoreCase("Rider64", "rider");
  }

  /** Explorer contains neither entry. */
  lemma ExplorerIsAllowed()
    ensures !IsProhibited("explorer", ProhibitedProcesses)
  {
    forall i: nat ensures !MatchesAt("explorer", "steam", i) && !MatchesAt("explorer", "rider", i) {
      if i + 5 <= 8 {
        var w := "explorer"[i..i + 5];
        assert Fold(w)[1] == FoldChar(w[1]) == FoldChar("explorer"[i + 1]);
        assert Fold(w)[0] == FoldChar("explorer"[i]);
      }
    }
  }

  /** The Steam client helper and JetBrains Rider are caught; Explorer is not. */
  lemma SteamAndRiderAreBlocked()
    ensures RunningProhibited(["explorer", "SteamWebHelper", "Rider64"], ProhibitedProcesses)
         == ["SteamWebHelper", "Rider64"]
  {
    var running := ["explorer", "SteamWebHelper", "Rider64"];
    ExplorerIsAllowed();
    SteamHelperAndRiderAreProhibited();
    assert running[1..] == ["SteamWebHelper", "Rider64"];
    assert running[1..][1..] == ["Rider64"];
    assert running[1..][1..][1..] == [];
  }
}

/** The file-name helpers of CMSXimg.cpp: `HaveExt` and `RemoveExt`. */
module Paths {
  import opened Wrappers

  /** `sub` occurs in `s` starting at index `i`. */
  ghost predicate OccursAt(s: string, sub: string, i: nat) {
    i + |sub| <= |s| && s[i..i + |sub|] == sub
  }

  /** Shifting the search window by one character. */
  lemma OccursAtTail(s: string, sub: string, i: nat)
    requires |s| > 0
    ensures OccursAt(s[1..], sub, i) <==> OccursAt(s, sub, i + 1)
  {
    if i + 1 + |sub| <= |s| {
      assert s[1..][i..i + |sub|] == s[i + 1..i + 1 + |sub|];
    }
  }

  /**
   * `HaveExt(str, ext)`: `str.find(ext) != npos`, i.e. `ext` occurs ANYWHERE in
   * `str`, not only at its end.
   */
  function HaveExt(str: string, ext: string): (b: bool)
    ensures b <==> exists i: nat :: OccursAt(str, ext, i)
    decreases |str|
  {
    if |ext| > |str| then false
    else if str[..|ext|] == ext then assert OccursAt(str, ext, 0); true
    else
      assert !OccursAt(str, ext, 0);
      assert forall i: nat :: OccursAt(str[1..], ext, i) <==> OccursAt(str, ext, i + 1) by {
        forall i: nat ensures OccursAt(str[1..], ext, i) <==> OccursAt(str, ext, i + 1) {
          OccursAtTail(str, ext, i);
        }
      }
      assert (exists i: nat :: OccursAt(str, ext, i)) ==> exists i: nat :: OccursAt(str[1..], ext, i) by {
        if i: nat :| OccursAt(str, ext, i) {
          assert i != 0;
          assert OccursAt(str[1..], ext, i - 1);
        }
      }
      HaveExt(str[1..], ext)
  }

  /** `str.find_last_of(".")`: the index of the last '.' of `str`, if any. */
  function FindLastDot(str: string): (r: Option<nat>)
    ensures r.None? <==> '.' !in str
    ensures r.Some? ==> r.value < |str| && str[r.value] == '.'
    ensures r.Some? ==> forall k :: r.value < k < |str| ==> str[k] != '.'
  {
    if str == [] then None
    else if str[|str| - 1] == '.' then Some(|str| - 1)
    else
      var front := str[..|str| - 1];
      assert str == front + [str[|str| - 1]];
      FindLastDot(front)
  }

  /**
   * `RemoveExt(str)`: `str` unchanged when it has no '.', otherwise everything
   * before its last '.'.
   */
  function RemoveExt(str: string): (r: string)
    ensures '.' !in str ==> r == str
    ensures '.' in str ==> |r| < |str| && r == str[..|r|] && str[|r|] == '.'
    ensures '.' in str ==> forall k :: |r| < k < |str| ==> str[k] != '.'
  {
    match FindLastDot(str)
    case None => str
    case Some(lastDot) => str[..lastDot]
  }

  /**
   * Appending an extension with a single leading '.' and removing the
   * extension again gives back the stem: the round trip behind the default
   * output names.
   */
  lemma {:induction false} RemoveExtAfterAppend(stem: string, ext: string)
    requires |ext| > 0 && ext[0] == '.' && '.' !in ext[1..]
    ensures RemoveExt(stem + ext) == stem
  {
    var s := stem + ext;
    assert s[|stem|] == '.';
    var r := RemoveExt(s);
    assert forall k :: |stem| < k < |s| ==> s[k] != '.' by {
      forall k | |stem| < k < |s| ensures s[k] != '.' {
        assert s[k] == ext[1..][k - |stem| - 1];
      }
    }
    assert |r| == |stem|;
    assert r == s[..|stem|] == stem;
  }

  /** A string lacking one of the characters of `ext` does not have that extension. */
  lemma MissingCharMeansNoExt(str: string, ext: string, j: nat)
    requires j < |ext| && ext[j] !in str
    ensures !HaveExt(str, ext)
  {
    forall i: nat ensures !OccursAt(str, ext, i) {
      if i + |ext| <= |str| {
        assert str[i..i + |ext|][j] == str[i + j];
      }
    }
  }

  /** A concrete consequence of the substring test: "a.sprite" has the extension ".s". */
  lemma SpriteHasAsmExtension()
    ensures HaveExt("a.sprite", ".s")
  {
    assert OccursAt("a.sprite", ".s", 1);
  }
}

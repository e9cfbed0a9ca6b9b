/**
 * Whitespace trimming as `strings.TrimSpace` does it, over Unicode scalar values.
 * The scanning functions state only their bounds; what they compute is stated by the
 * lemmas below them, so that proofs about the pipeline do not carry those quantifiers.
 */
module Text {

  /** The characters `unicode.IsSpace` accepts: the White_Space property of Unicode. */
  predicate IsSpace(ch: char) {
    ch == '\t' || ch == '\n' || ch == '\U{B}' || ch == '\U{C}' || ch == '\r' || ch == ' '
    || ch == '\U{85}' || ch == '\U{A0}' || ch == '\U{1680}'
    || ('\U{2000}' <= ch <= '\U{200A}')
    || ch == '\U{2028}' || ch == '\U{2029}' || ch == '\U{202F}' || ch == '\U{205F}' || ch == '\U{3000}'
  }

  /** The index of the first non-space character of `s` at or after `i`, or |s| if there is none. */
  function SkipSpace(s: string, i: nat): (r: nat)
    requires i <= |s|
    ensures i <= r <= |s|
    decreases |s| - i
  {
    if i < |s| && IsSpace(s[i]) then SkipSpace(s, i + 1) else i
  }

  /** The end of `s[lo..j]` once its trailing white space is dropped. */
  function BackSpace(s: string, lo: nat, j: nat): (r: nat)
    requires lo <= j <= |s|
    ensures lo <= r <= j
    decreases j
  {
    if lo < j && IsSpace(s[j - 1]) then BackSpace(s, lo, j - 1) else j
  }

  /** `strings.TrimSpace`: drops the white space at both ends. */
  function TrimSpace(s: string): string {
    var i := SkipSpace(s, 0);
    s[i..BackSpace(s, i, |s|)]
  }

  /** SkipSpace passes over white space only, and stops at a non-space character or the end. */
  lemma {:induction false} SkipSpaceSpec(s: string, i: nat)
    requires i <= |s|
    ensures forall k :: i <= k < SkipSpace(s, i) ==> IsSpace(s[k])
    ensures SkipSpace(s, i) < |s| ==> !IsSpace(s[SkipSpace(s, i)])
    decreases |s| - i
  {
    if i < |s| && IsSpace(s[i]) {
      SkipSpaceSpec(s, i + 1);
    }
  }

  /** BackSpace drops white space only, and stops after a non-space character or at `lo`. */
  lemma {:induction false} BackSpaceSpec(s: string, lo: nat, j: nat)
    requires lo <= j <= |s|
    ensures forall k :: BackSpace(s, lo, j) <= k < j ==> IsSpace(s[k])
    ensures lo < BackSpace(s, lo, j) ==> !IsSpace(s[BackSpace(s, lo, j) - 1])
    decreases j
  {
    if lo < j && IsSpace(s[j - 1]) {
      BackSpaceSpec(s, lo, j - 1);
    }
  }

  /**
   * TrimSpace leaves an infix of `s` with only white space before and after it in `s`,
   * and with no white space at either of its own ends.
   */
  lemma TrimSpaceSpec(s: string)
    ensures var r := TrimSpace(s);
            exists i :: 0 <= i <= |s| - |r| && r == s[i..][..|r|]
                        && (forall k :: 0 <= k < i ==> IsSpace(s[k]))
                        && (forall k :: i + |r| <= k < |s| ==> IsSpace(s[k]))
    ensures var r := TrimSpace(s);
            r != [] ==> !IsSpace(r[0]) && !IsSpace(r[|r| - 1])
  {
    var i := SkipSpace(s, 0);
    var j := BackSpace(s, i, |s|);
    SkipSpaceSpec(s, 0);
    BackSpaceSpec(s, i, |s|);
    var r := s[i..j];
    assert r == s[i..][..|r|];
    if r != [] {
      assert r[0] == s[i] && r[|r| - 1] == s[j - 1];
    }
  }

  /**
   * TrimSpaceSpec determines the result: any infix of `s` with only white space around it in
   * `s` and none at its own ends is TrimSpace(s).
   */
  lemma TrimSpaceUnique(s: string, r: string, i: nat)
    requires i + |r| <= |s| && r == s[i..][..|r|]
    requires forall k :: 0 <= k < i ==> IsSpace(s[k])
    requires forall k :: i + |r| <= k < |s| ==> IsSpace(s[k])
    requires r != [] ==> !IsSpace(r[0]) && !IsSpace(r[|r| - 1])
    ensures r == TrimSpace(s)
  {
    var i0 := SkipSpace(s, 0);
    SkipSpaceSpec(s, 0);
    var j0 := BackSpace(s, i0, |s|);
    BackSpaceSpec(s, i0, |s|);
    if r == [] {
      assert i0 == |s|;
    } else {
      var j := i + |r|;
      assert !IsSpace(s[i]) && !IsSpace(s[j - 1]) by {
        assert s[i] == r[0] && s[j - 1] == r[|r| - 1];
      }
      assert i0 == i;
      assert j0 == j;
      assert s[i0..j0] == r;
    }
  }

  /** Text with no white space at either end is left as it is. */
  lemma TrimSpaceKeepsTrimmed(s: string)
    requires s != [] ==> !IsSpace(s[0]) && !IsSpace(s[|s| - 1])
    ensures TrimSpace(s) == s
  {
    if s != [] {
      assert SkipSpace(s, 0) == 0;
      assert BackSpace(s, 0, |s|) == |s|;
    }
  }

  /** Trimming twice is trimming once. */
  lemma TrimSpaceIdempotent(s: string)
    ensures TrimSpace(TrimSpace(s)) == TrimSpace(s)
  {
    TrimSpaceSpec(s);
    TrimSpaceKeepsTrimmed(TrimSpace(s));
  }
}

/** The few functions of Go's `strings` package that the modelled code uses.
    Strings are byte strings: one `char` stands for one byte. */
module Text {

  /** `strings.Split(s, string(sep))` for a one-byte separator: the pieces
      between the separators, in order, always at least one of them. */
  function Split(s: string, sep: char): (r: seq<string>)
    ensures |r| >= 1
    ensures forall i :: 0 <= i < |r| ==> sep !in r[i]
    ensures sep !in s ==> r == [s]
    ensures sep in s ==> |r| >= 2
    decreases |s|
  {
    if s == [] then [""]
    else
      var rest := Split(s[1..], sep);
      if s[0] == sep then [""] + rest
      else
        assert [s[0]] + s[1..] == s;
        [[s[0]] + rest[0]] + rest[1..]
  }

  /** The last piece of `Split(s, sep)` is the text after the last separator:
      a suffix of `s` with no separator in it, preceded in `s` by a separator
      whenever it is not the whole of `s`. */
  lemma {:induction false} LastPieceFollowsLastSeparator(s: string, sep: char)
    ensures var r := Split(s, sep); var last := r[|r| - 1];
      && sep !in last
      && |last| <= |s|
      && last == s[|s| - |last|..]
      && (|last| < |s| ==> s[|s| - |last| - 1] == sep)
    decreases |s|
  {
    if s != [] {
      var rest := Split(s[1..], sep);
      LastPieceFollowsLastSeparator(s[1..], sep);
      var r := Split(s, sep);
      if s[0] != sep && |rest| == 1 {
        assert sep !in s[1..];
        assert sep !in s;
        assert r == [s];
        assert s[|s| - |s|..] == s;
      } else {
        var last := rest[|rest| - 1];
        assert r[|r| - 1] == last;
        assert s[1..][|s| - 1 - |last|..] == s[|s| - |last|..];
        if |last| < |s| - 1 {
          assert s[1..][|s| - 1 - |last| - 1] == s[|s| - |last| - 1];
        } else {
          assert s[|s| - |last| - 1] == s[0];
        }
      }
    }
  }

  /** Appending a separator and a piece without separators adds that piece
      at the end of the split. */
  lemma {:induction false} SplitAppend(a: string, sep: char, w: string)
    requires sep !in w
    ensures Split(a + [sep] + w, sep) == Split(a, sep) + [w]
    decreases |a|
  {
    var s := a + [sep] + w;
    if a == [] {
      assert s == [sep] + w;
      assert s[1..] == w;
    } else {
      assert s[0] == a[0];
      assert s[1..] == a[1..] + [sep] + w;
      SplitAppend(a[1..], sep, w);
      var rest := Split(a[1..], sep);
      assert Split(s[1..], sep) == rest + [w];
      if a[0] != sep {
        assert (rest + [w])[0] == rest[0];
        assert (rest + [w])[1..] == rest[1..] + [w];
      }
    }
  }

  /** `strings.HasSuffix(s, suffix)`: `s` ends with `suffix`. */
  predicate HasSuffix(s: string, suffix: string)
  {
    |suffix| <= |s| && s[|s| - |suffix|..] == suffix
  }

  /** `strings.TrimSuffix(s, suffix)`. */
  function TrimSuffix(s: string, suffix: string): (r: string)
    ensures HasSuffix(s, suffix) ==> r + suffix == s
    ensures !HasSuffix(s, suffix) ==> r == s
  {
    if HasSuffix(s, suffix) then s[..|s| - |suffix|] else s
  }

  /** `strings.Contains(s, pattern)`. */
  predicate Contains(s: string, pattern: string)
    decreases |s|
  {
    pattern <= s || (s != [] && Contains(s[1..], pattern))
  }

  /** `strings.Split(s, pattern)[0]`: the text before the first occurrence of
      `pattern`, or all of `s` when there is none. */
  function BeforeFirst(s: string, pattern: string): (r: string)
    requires pattern != []
    ensures r <= s
    ensures r == s <==> !Contains(s, pattern)
    ensures r != s ==> pattern <= s[|r|..]
    decreases |s|
  {
    if pattern <= s then ""
    else if s == [] then ""
    else [s[0]] + BeforeFirst(s[1..], pattern)
  }

  /** A string lacking the first byte of a non-empty pattern cannot contain it. */
  lemma {:induction false} NotContainsWithoutFirstByte(s: string, pattern: string)
    requires pattern != [] && pattern[0] !in s
    ensures !Contains(s, pattern)
    decreases |s|
  {
    if s != [] {
      assert s[0] in s;
      assert forall c :: c in s[1..] ==> c in s;
      NotContainsWithoutFirstByte(s[1..], pattern);
    }
  }

  /** The bytes that Go's `unicode.IsSpace` accepts in the ASCII range. */
  predicate IsSpace(c: char)
  {
    c == ' ' || '\t' <= c <= '\r'  // tab, line feed, vertical tab, form feed, carriage return
  }

  /** Every byte of `s` from index `lo` up to, not including, `hi` is white space. */
  predicate SpaceBetween(s: string, lo: int, hi: int)
  {
    forall k :: lo <= k < hi && 0 <= k < |s| ==> IsSpace(s[k])
  }

  /** White space removed from the front: a suffix of `s` after nothing but
      white space, starting with a non-space byte unless empty. */
  function TrimLeftSpace(s: string): (r: string)
    ensures |r| <= |s| && r == s[|s| - |r|..] && SpaceBetween(s, 0, |s| - |r|)
    ensures r == [] || !IsSpace(r[0])
    decreases |s|
  {
    if s != [] && IsSpace(s[0]) then TrimLeftSpace(s[1..]) else s
  }

  /** White space removed from the back: a prefix of `s` before nothing but
      white space, ending with a non-space byte unless empty. */
  function TrimRightSpace(s: string): (r: string)
    ensures r <= s && SpaceBetween(s, |r|, |s|)
    ensures r == [] || !IsSpace(r[|r| - 1])
    ensures s != [] && !IsSpace(s[0]) ==> r != []
    decreases |s|
  {
    if s != [] && IsSpace(s[|s| - 1]) then TrimRightSpace(s[..|s| - 1]) else s
  }

  /** `strings.TrimSpace(s)` on ASCII text. */
  function TrimSpace(s: string): (r: string)
    ensures |r| <= |s|
    ensures r != [] ==> !IsSpace(r[0]) && !IsSpace(r[|r| - 1])
  {
    TrimRightSpace(TrimLeftSpace(s))
  }

  /** `TrimSpace(s)` is the slice of `s` left once white space is removed
      from both ends: only white space lies before and after it. */
  lemma TrimSpaceIsSlice(s: string)
    ensures exists i, j :: 0 <= i <= j <= |s| && TrimSpace(s) == s[i..j] && SpaceBetween(s, 0, i) && SpaceBetween(s, j, |s|)
  {
    var i, j := TrimSpaceBounds(s);
  }

  /** The bounds of the slice that `TrimSpace` keeps. */
  lemma TrimSpaceBounds(s: string) returns (i: nat, j: nat)
    ensures i <= j <= |s| && TrimSpace(s) == s[i..j] && SpaceBetween(s, 0, i) && SpaceBetween(s, j, |s|)
  {
    var l := TrimLeftSpace(s);
    var r := TrimRightSpace(l);
    i, j := |s| - |l|, |s| - |l| + |r|;
    assert r == l[..|r|];
    assert l[..|r|] == s[i..j];
    forall k | j <= k < |s| ensures IsSpace(s[k]) {
      assert s[k] == l[k - i];
    }
  }
}

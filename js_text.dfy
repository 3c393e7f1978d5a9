/** The part of ECMAScript's string library the renderers rely on:
    `String.prototype.trim`. */
module JsText {

  /** The code points `trim` removes: the WhiteSpace characters (TAB, VT, FF,
      SPACE, NBSP, ZWNBSP and the other space separators) and the
      LineTerminator characters (LF, CR, LS, PS). */
  const TrimmedCodePoints: set<int> :=
    {0x09, 0x0A, 0x0B, 0x0C, 0x0D, 0x20, 0xA0, 0x1680,
     0x2000, 0x2001, 0x2002, 0x2003, 0x2004, 0x2005, 0x2006, 0x2007, 0x2008, 0x2009, 0x200A,
     0x2028, 0x2029, 0x202F, 0x205F, 0x3000, 0xFEFF}

  predicate IsSpace(c: char) {
    c as int in TrimmedCodePoints
  }

  predicate AllSpace(s: string) {
    forall k :: 0 <= k < |s| ==> IsSpace(s[k])
  }

  /** `s` with its leading white space removed. */
  function TrimStart(s: string): string {
    if s != [] && IsSpace(s[0]) then TrimStart(s[1..]) else s
  }

  /** `s` with its trailing white space removed. */
  function TrimEnd(s: string): string {
    if s != [] && IsSpace(s[|s| - 1]) then TrimEnd(s[..|s| - 1]) else s
  }

  /** `TrimStart` keeps a suffix, drops only white space, and stops at the
      first character that is not white space. */
  lemma {:induction false} TrimStartCuts(s: string)
    ensures var r := TrimStart(s);
      && |r| <= |s| && r == s[|s| - |r|..]
      && AllSpace(s[..|s| - |r|])
      && (r == [] || !IsSpace(r[0]))
    decreases |s|
  {
    if s != [] && IsSpace(s[0]) {
      TrimStartCuts(s[1..]);
      var r := TrimStart(s);
      assert s[1..][..|s| - 1 - |r|] == s[1..|s| - |r|];
    }
  }

  /** `TrimEnd` keeps a prefix, drops only white space, and stops at the
      last character that is not white space. */
  lemma {:induction false} TrimEndCuts(s: string)
    ensures var r := TrimEnd(s);
      && |r| <= |s| && r == s[..|r|]
      && AllSpace(s[|r|..])
      && (r == [] || !IsSpace(r[|r| - 1]))
    decreases |s|
  {
    if s != [] && IsSpace(s[|s| - 1]) {
      TrimEndCuts(s[..|s| - 1]);
      var r := TrimEnd(s);
      forall k | |r| <= k < |s| ensures IsSpace(s[k]) {
        if k < |s| - 1 { assert s[..|s| - 1][|r|..][k - |r|] == s[k]; }
      }
      assert AllSpace(s[|r|..]);
    }
  }

  /** `r` is what is left of `s` once its leading and trailing white space is
      gone: a slice of `s` with only white space around it and no white space
      at either of its ends. */
  ghost predicate IsTrimOf(s: string, r: string) {
    exists i :: TrimmedTo(s, i, r)
  }

  ghost predicate TrimmedTo(s: string, i: int, r: string) {
    TrimmedAt(s, i, i + |r|) && r == s[i..i + |r|]
  }

  ghost predicate TrimmedAt(s: string, i: int, j: int) {
    && 0 <= i <= j <= |s|
    && AllSpace(s[..i])
    && AllSpace(s[j..])
    && (i < j ==> !IsSpace(s[i]) && !IsSpace(s[j - 1]))
  }

  /** `s.trim()`. */
  function Trim(s: string): (r: string)
    ensures IsTrimOf(s, r)
  {
    var t := TrimStart(s);
    var r := TrimEnd(t);
    TrimStartCuts(s);
    TrimEndCuts(t);
    var i := |s| - |t|;
    assert s[i..i + |r|] == t[..|r|];
    assert s[i + |r|..] == t[|r|..];
    assert TrimmedTo(s, i, r);
    r
  }

  /** There is only one way to trim a string: any slice that meets the
      description of `IsTrimOf` is the one `Trim` returns. */
  lemma TrimUnique(s: string, i: int, j: int)
    requires TrimmedAt(s, i, j)
    ensures Trim(s) == s[i..j]
  {
    var r := Trim(s);
    var i' :| TrimmedTo(s, i', r);
    CutUnique(s, i, j, i', i' + |r|);
  }

  /** Two cuts that both trim `s` give the same slice. */
  lemma CutUnique(s: string, i: int, j: int, i': int, j': int)
    requires TrimmedAt(s, i, j) && TrimmedAt(s, i', j')
    ensures s[i..j] == s[i'..j']
  {
    if i < j {
      if i' == j' {
        SpaceEverywhere(s, i', i);
        assert false;
      }
      FirstNonSpace(s, i, i');
      FirstNonSpace(s, i', i);
      LastNonSpace(s, j, j');
      LastNonSpace(s, j', j);
    } else if i' < j' {
      SpaceEverywhere(s, i, i');
      assert false;
    }
  }

  /** White space on both sides of a cut means white space everywhere. */
  lemma SpaceEverywhere(s: string, m: int, k: int)
    requires 0 <= m <= |s| && AllSpace(s[..m]) && AllSpace(s[m..])
    requires 0 <= k < |s|
    ensures IsSpace(s[k])
  {
    if k < m {
      assert s[..m][k] == s[k];
    } else {
      assert s[m..][k - m] == s[k];
    }
  }

  lemma FirstNonSpace(s: string, i: int, i': int)
    requires 0 <= i < |s| && !IsSpace(s[i])
    requires 0 <= i' <= |s| && AllSpace(s[..i'])
    ensures i' <= i
  {
  }

  lemma LastNonSpace(s: string, j: int, j': int)
    requires 0 < j <= |s| && !IsSpace(s[j - 1])
    requires 0 <= j' <= |s| && AllSpace(s[j'..])
    ensures j <= j'
  {
  }
}

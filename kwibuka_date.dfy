/** The date line of the Kwibuka invitation: `date.split(/[/\-.]/)`, each part
    trimmed and wrapped in a span, a separator span between consecutive parts
    and the pieces joined with "". */
module KwibukaDate {
  import opened JsText
  import opened Layout

  /** The characters of the split pattern `[/\-.]`. */
  predicate IsDelimiter(c: char) {
    c == '/' || c == '-' || c == '.'
  }

  predicate NoDelimiter(s: string) {
    forall k :: 0 <= k < |s| ==> !IsDelimiter(s[k])
  }

  /** The delimiters of `s`, in order. */
  function Delimiters(s: string): (ds: string)
    ensures forall k :: 0 <= k < |ds| ==> IsDelimiter(ds[k])
  {
    if s == [] then []
    else if IsDelimiter(s[0]) then [s[0]] + Delimiters(s[1..])
    else Delimiters(s[1..])
  }

  /** `s.split(/[/\-.]/)`: the text between consecutive delimiters, one group
      more than there are delimiters; adjacent delimiters give empty groups. */
  function Split(s: string): (groups: seq<string>)
    ensures |groups| == |Delimiters(s)| + 1
    ensures forall k :: 0 <= k < |groups| ==> NoDelimiter(groups[k])
  {
    if s == [] then [""]
    else
      var rest := Split(s[1..]);
      if IsDelimiter(s[0]) then [""] + rest
      else [[s[0]] + rest[0]] + rest[1..]
  }

  /** The inverse of splitting: groups glued back together with the
      delimiters between them. */
  function Interleave(groups: seq<string>, ds: string): string
    requires |groups| == |ds| + 1
  {
    if ds == [] then groups[0]
    else groups[0] + [ds[0]] + Interleave(groups[1..], ds[1..])
  }

  lemma InterleaveCons(c: char, groups: seq<string>, ds: string)
    requires |groups| == |ds| + 1
    ensures Interleave([[c] + groups[0]] + groups[1..], ds) == [c] + Interleave(groups, ds)
  {
    var g := [[c] + groups[0]] + groups[1..];
    assert g[1..] == groups[1..];
  }

  /** Splitting loses nothing: the groups and the delimiters, interleaved,
      give back the input. */
  lemma {:induction false} SplitRoundTrip(s: string)
    ensures Interleave(Split(s), Delimiters(s)) == s
  {
    if s != [] {
      SplitRoundTrip(s[1..]);
      var rest := Split(s[1..]);
      if IsDelimiter(s[0]) {
        assert ([""] + rest)[1..] == rest;
      } else {
        InterleaveCons(s[0], rest, Delimiters(s[1..]));
      }
    }
  }

  /** Splitting is the only way to cut `s` into delimiter-free groups at
      delimiter characters: any such cut is the one `Split` makes. */
  lemma {:induction false} SplitUnique(s: string, groups: seq<string>, ds: string)
    requires |groups| == |ds| + 1
    requires forall k :: 0 <= k < |groups| ==> NoDelimiter(groups[k])
    requires forall k :: 0 <= k < |ds| ==> IsDelimiter(ds[k])
    requires Interleave(groups, ds) == s
    ensures Split(s) == groups && Delimiters(s) == ds
    decreases |s|
  {
    if groups[0] != [] {
      var groups' := [groups[0][1..]] + groups[1..];
      CutFirstGroup(s, groups, ds);
      SplitUnique(s[1..], groups', ds);
      assert [s[0]] + groups'[0] == groups[0];
      assert [[s[0]] + groups'[0]] + groups'[1..] == groups;
    } else if ds != [] {
      CutFirstDelimiter(s, groups, ds);
      SplitUnique(s[1..], groups[1..], ds[1..]);
      assert groups == [""] + groups[1..];
    } else {
      assert groups == [""];
    }
  }

  /** A cut whose first group is not empty starts with an ordinary character;
      dropping it from that group cuts the rest of the input. */
  lemma CutFirstGroup(s: string, groups: seq<string>, ds: string)
    requires |groups| == |ds| + 1
    requires forall k :: 0 <= k < |groups| ==> NoDelimiter(groups[k])
    requires Interleave(groups, ds) == s
    requires groups[0] != []
    ensures var groups' := [groups[0][1..]] + groups[1..];
      && s != [] && s[0] == groups[0][0] && !IsDelimiter(s[0])
      && (forall k :: 0 <= k < |groups'| ==> NoDelimiter(groups'[k]))
      && Interleave(groups', ds) == s[1..]
  {
    var c := groups[0][0];
    var groups' := [groups[0][1..]] + groups[1..];
    assert groups'[1..] == groups[1..];
    assert [c] + groups'[0] == groups[0];
    assert [[c] + groups'[0]] + groups'[1..] == groups;
    InterleaveCons(c, groups', ds);
    assert s == [c] + Interleave(groups', ds);
    forall k | 0 <= k < |groups'| ensures NoDelimiter(groups'[k]) {
      if k > 0 { assert groups'[k] == groups[k]; }
    }
  }

  /** A cut whose first group is empty starts with its first delimiter;
      dropping both cuts the rest of the input. */
  lemma CutFirstDelimiter(s: string, groups: seq<string>, ds: string)
    requires |groups| == |ds| + 1
    requires forall k :: 0 <= k < |groups| ==> NoDelimiter(groups[k])
    requires Interleave(groups, ds) == s
    requires groups[0] == [] && ds != []
    ensures s != [] && s[0] == ds[0] && Interleave(groups[1..], ds[1..]) == s[1..]
    ensures forall k :: 0 <= k < |groups[1..]| ==> NoDelimiter(groups[1..][k])
  {
    assert s == [ds[0]] + Interleave(groups[1..], ds[1..]);
    forall k | 0 <= k < |groups[1..]| ensures NoDelimiter(groups[1..][k]) {
      assert groups[1..][k] == groups[k + 1];
    }
  }

  /** `s` with every delimiter written as `/`. */
  function Normalize(s: string): (t: string)
    ensures |t| == |s|
    ensures forall k :: 0 <= k < |s| ==> t[k] == if IsDelimiter(s[k]) then '/' else s[k]
  {
    if s == [] then [] else [if IsDelimiter(s[0]) then '/' else s[0]] + Normalize(s[1..])
  }

  /** Which delimiter the caller used makes no difference to the groups. */
  lemma {:induction false} SplitIgnoresDelimiterKind(s: string)
    ensures Split(Normalize(s)) == Split(s)
  {
    if s != [] {
      SplitIgnoresDelimiterKind(s[1..]);
      var n := Normalize(s);
      assert n[1..] == Normalize(s[1..]);
    }
  }

  // The fixed text of one piece of the date line, as laid out in the template
  // literal: a line break and 18 spaces before each span, the separator (or
  // nothing) on its own line, and a line break and 16 spaces at the end.
  const Indent16 := "                "
  const Indent18 := Indent16 + "  "
  const Separator := "<span class=\"date-separator\">/</span>"
  const Open := "\n" + Indent18 + "<span>"
  const Mid := "</span>\n" + Indent18
  const Close := "\n" + Indent16

  /** The `i`-th element of the `map`: the trimmed part in a span, followed by
      the separator unless it is the last part. */
  function Piece(parts: seq<string>, i: nat): string
    requires i < |parts|
  {
    Open + Trim(parts[i]) + Mid + (if i < |parts| - 1 then Separator else "") + Close
  }

  function Concat(xs: seq<string>): string {
    if xs == [] then "" else xs[0] + Concat(xs[1..])
  }

  /** The pieces of `parts`, joined with no glue in between: piece `i` of
      `parts` is piece 0 of `parts[i..]`, so the separator goes everywhere
      but after the last part. */
  function DateLine(parts: seq<string>): string {
    if parts == [] then "" else Piece(parts, 0) + DateLine(parts[1..])
  }

  /** The markup the Kwibuka template puts inside its date container. */
  function FormatDate(date: string): string {
    DateLine(Split(date))
  }

  /** The recursive join is the source's `map` followed by `join('')`. */
  lemma {:induction false} DateLineJoinsPieces(parts: seq<string>)
    ensures DateLine(parts) == Concat(seq(|parts|, i requires 0 <= i < |parts| => Piece(parts, i)))
    decreases |parts|
  {
    var pieces := seq(|parts|, i requires 0 <= i < |parts| => Piece(parts, i));
    if parts != [] {
      var tail := parts[1..];
      DateLineJoinsPieces(tail);
      var rest := seq(|tail|, i requires 0 <= i < |tail| => Piece(tail, i));
      forall i | 0 <= i < |tail| ensures pieces[1..][i] == rest[i] {
        assert tail[i] == parts[i + 1];
      }
      assert pieces[1..] == rest;
    }
  }

  function TrimAll(parts: seq<string>): (ts: seq<string>)
    ensures |ts| == |parts| && forall k :: 0 <= k < |parts| ==> ts[k] == Trim(parts[k])
  {
    seq(|parts|, k requires 0 <= k < |parts| => Trim(parts[k]))
  }

  function Repeat(x: string, n: nat): (r: seq<string>)
    ensures |r| == n && forall k :: 0 <= k < n ==> r[k] == x
  {
    if n == 0 then [] else [x] + Repeat(x, n - 1)
  }

  /** The fixed skeleton of a date line with `n` groups: `n - 1` separators,
      one between each consecutive pair of groups and none after the last. */
  function DateSkeleton(n: nat): (segs: seq<string>)
    requires n >= 1
    ensures |segs| == n + 1
  {
    Skeleton(Open, Mid, Separator, Close, n)
  }

  function Skeleton(o: string, m: string, sep: string, c: string, n: nat): (segs: seq<string>)
    requires n >= 1
    ensures |segs| == n + 1
  {
    [o] + Repeat(m + sep + c + o, n - 1) + [m + c]
  }

  /** The date line is the skeleton for as many groups as the split gives,
      filled with the trimmed groups in their input order. */
  lemma {:induction false} DateLayout(date: string)
    ensures var parts := Split(date);
      FormatDate(date) == Fill(DateSkeleton(|parts|), TrimAll(parts))
  {
    PartsLayout(Split(date));
  }

  lemma {:induction false} PartsLayout(parts: seq<string>)
    requires |parts| >= 1
    ensures DateLine(parts) == Fill(DateSkeleton(|parts|), TrimAll(parts))
  {
    DateLineJoinsPieces(parts);
    var n := |parts|;
    var pieces := seq(n, i requires 0 <= i < n => Piece(parts, i));
    var ts := TrimAll(parts);
    forall i | 0 <= i < n
      ensures pieces[i] == Open + ts[i] + Mid + (if i < n - 1 then Separator else "") + Close
    {
    }
    PiecesLayout(pieces, ts, Open, Mid, Separator, Close);
  }

  /** Joining pieces that each close with a separator, except the last, is
      filling the skeleton. */
  lemma {:induction false} PiecesLayout(pieces: seq<string>, ts: seq<string>, o: string, m: string, sep: string, c: string)
    requires |pieces| == |ts| >= 1
    requires forall i :: 0 <= i < |ts| ==>
      pieces[i] == o + ts[i] + m + (if i < |ts| - 1 then sep else "") + c
    ensures Concat(pieces) == Fill(Skeleton(o, m, sep, c, |ts|), ts)
    decreases |ts|
  {
    var n := |ts|;
    var segs := Skeleton(o, m, sep, c, n);
    if n == 1 {
      assert segs == [o, m + c];
      assert Fill(segs, ts) == o + ts[0] + Fill([m + c], []);
      assert pieces == [pieces[0]];
      assert Concat(pieces) == pieces[0] + Concat([]);
    } else {
      var pieces', ts' := pieces[1..], ts[1..];
      forall i | 0 <= i < |ts'|
        ensures pieces'[i] == o + ts'[i] + m + (if i < |ts'| - 1 then sep else "") + c
      {
        assert pieces'[i] == pieces[i + 1] && ts'[i] == ts[i + 1];
      }
      PiecesLayout(pieces', ts', o, m, sep, c);
      var tailSegs := Skeleton(o, m, sep, c, n - 1);
      var rest := Fill(tailSegs[1..], ts'[1..]);
      assert Fill(tailSegs, ts') == o + ts[1] + rest;
      assert segs[1..][1..] == tailSegs[1..];
      assert segs[1..][0] == m + sep + c + o;
      assert Fill(segs[1..], ts') == m + sep + c + o + ts[1] + rest;
      assert Fill(segs, ts) == o + ts[0] + Fill(segs[1..], ts');
      assert pieces[0] == o + ts[0] + m + sep + c;
      assert Concat(pieces) == pieces[0] + Concat(pieces');
      assert (o + ts[0] + (m + sep + c)) + (o + ts[1] + rest) == o + ts[0] + (m + sep + c + o + ts[1] + rest);
    }
  }

  /** The date line of the example `07/04/1994`: three groups in order. */
  lemma ThreeGroups()
    ensures Split("07/04/1994") == ["07", "04", "1994"]
  {
    assert "07/04/1994" == Interleave(["07", "04", "1994"], "//");
    SplitUnique("07/04/1994", ["07", "04", "1994"], "//");
  }

  /** A date without a delimiter is a single group with no separator. */
  lemma {:induction false} SingleGroup(date: string)
    requires NoDelimiter(date)
    ensures Split(date) == [date]
    ensures FormatDate(date) == Open + Trim(date) + Mid + Close
  {
    assert Interleave([date], "") == date;
    SplitUnique(date, [date], "");
    assert DateLine([date]) == Piece([date], 0) + DateLine([]);
  }
}

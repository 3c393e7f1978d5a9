/** Template literals with holes: fixed text segments with values spliced
    between them, verbatim. Every renderer in index.js is one of these. */
module Layout {

  /** Total length of a list of strings. */
  function TotalLength(xs: seq<string>): nat {
    if xs == [] then 0 else |xs[0]| + TotalLength(xs[1..])
  }

  /** `segs[0] + vals[0] + segs[1] + ... + vals[n-1] + segs[n]`: what a template
      literal with `n` substitutions evaluates to. No value is escaped. */
  function Fill(segs: seq<string>, vals: seq<string>): string
    requires |segs| == |vals| + 1
  {
    if vals == [] then segs[0] else segs[0] + vals[0] + Fill(segs[1..], vals[1..])
  }

  /** Where the `k`-th value starts in `Fill(segs, vals)`: after the first
      `k + 1` segments and the first `k` values. */
  function HoleStart(segs: seq<string>, vals: seq<string>, k: nat): nat
    requires |segs| == |vals| + 1 && k < |vals|
  {
    TotalLength(segs[..k + 1]) + TotalLength(vals[..k])
  }

  /** Every value appears, unchanged, at its hole. */
  lemma {:induction false} FillAt(segs: seq<string>, vals: seq<string>, k: nat)
    requires |segs| == |vals| + 1 && k < |vals|
    ensures HoleStart(segs, vals, k) + |vals[k]| <= |Fill(segs, vals)|
    ensures Fill(segs, vals)[HoleStart(segs, vals, k)..HoleStart(segs, vals, k) + |vals[k]|] == vals[k]
  {
    var r := Fill(segs, vals);
    var head := segs[0] + vals[0];
    if k == 0 {
      assert segs[..1] == [segs[0]];
      assert TotalLength(segs[..1]) == |segs[0]| + TotalLength([]);
      assert vals[..0] == [];
      assert r[|segs[0]|..|segs[0]| + |vals[0]|] == (segs[0] + vals[0] + Fill(segs[1..], vals[1..]))[|segs[0]|..|segs[0]| + |vals[0]|];
    } else {
      FillAt(segs[1..], vals[1..], k - 1);
      var rest := Fill(segs[1..], vals[1..]);
      assert segs[..k + 1] == [segs[0]] + segs[1..][..k];
      assert vals[..k] == [vals[0]] + vals[1..][..k - 1];
      assert TotalLength(segs[..k + 1]) == |segs[0]| + TotalLength(segs[1..][..k]);
      assert TotalLength(vals[..k]) == |vals[0]| + TotalLength(vals[1..][..k - 1]);
      var h := HoleStart(segs[1..], vals[1..], k - 1);
      assert HoleStart(segs, vals, k) == |head| + h;
      assert r == head + rest;
      assert r[|head| + h..|head| + h + |vals[k]|] == rest[h..h + |vals[k]|];
    }
  }
}

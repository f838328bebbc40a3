/**
 * The title diff highlighter, `get_diff_removals` and `get_diff`
 * (main.py:264-313). The character matching of `difflib.ndiff` is not
 * modelled; its output is an input here, an edit script whose kept and
 * deleted characters spell the first string and whose kept and added
 * characters spell the second.
 */
module Diff {
  import Seqs

  /** One line of `ndiff` over characters: `'  c'`, `'+ c'` or `'- c'`. */
  datatype Op = Same(c: char) | Add(c: char) | Del(c: char)

  /** The string the script reads: its `' '` and `'-'` characters. */
  function Src(ops: seq<Op>): string {
    if ops == [] then []
    else Src(ops[..|ops| - 1]) + (if ops[|ops| - 1].Add? then [] else [ops[|ops| - 1].c])
  }

  /** The string the script writes: its `' '` and `'+'` characters. */
  function Dst(ops: seq<Op>): string {
    if ops == [] then []
    else Dst(ops[..|ops| - 1]) + (if ops[|ops| - 1].Del? then [] else [ops[|ops| - 1].c])
  }

  /** For each character of the first string, whether the script deletes it. */
  function Deleted(ops: seq<Op>): (r: seq<bool>)
    ensures |r| == |Src(ops)|
  {
    if ops == [] then []
    else Deleted(ops[..|ops| - 1]) + (if ops[|ops| - 1].Add? then [] else [ops[|ops| - 1].Del?])
  }

  /** The list `removed` of main.py:288-297: for each `'-'` line, the number of `' '` and `'-'` lines before it. */
  function Removed(ops: seq<Op>): (r: seq<int>)
    ensures |r| <= |Src(ops)|
  {
    if ops == [] then []
    else Removed(ops[..|ops| - 1]) + (if ops[|ops| - 1].Del? then [|Src(ops[..|ops| - 1])|] else [])
  }

  predicate Increasing(xs: seq<int>) {
    forall j, k :: 0 <= j < k < |xs| ==> xs[j] < xs[k]
  }

  /** Every entry of `removed` is a position of the first string. */
  lemma {:induction false} RemovedInRange(ops: seq<Op>)
    ensures forall j :: 0 <= j < |Removed(ops)| ==> 0 <= Removed(ops)[j] < |Src(ops)|
  {
    if ops != [] {
      RemovedInRange(ops[..|ops| - 1]);
    }
  }

  /** `removed` is in ascending order. */
  lemma {:induction false} RemovedIncreasing(ops: seq<Op>)
    ensures Increasing(Removed(ops))
  {
    if ops != [] {
      var init := ops[..|ops| - 1];
      RemovedIncreasing(init);
      RemovedInRange(init);
    }
  }

  /** A position is in `removed` exactly when the script deletes the character there. */
  lemma {:induction false} RemovedMembers(ops: seq<Op>)
    ensures forall p :: p in Removed(ops) <==> 0 <= p < |Src(ops)| && Deleted(ops)[p]
  {
    if ops != [] {
      var init := ops[..|ops| - 1];
      RemovedMembers(init);
      RemovedInRange(init);
      assert forall j :: 0 <= j < |Removed(init)| ==> Removed(init)[j] in Removed(init);
      assert Deleted(ops)[..|Src(init)|] == Deleted(init);
    }
  }

  /**
   * `removed` lists, in ascending order, exactly the positions of the first
   * string that the script deletes.
   */
  lemma RemovedAreDeletedPositions(ops: seq<Op>)
    ensures Increasing(Removed(ops))
    ensures forall p :: p in Removed(ops) <==> 0 <= p < |Src(ops)| && Deleted(ops)[p]
  {
    RemovedIncreasing(ops);
    RemovedMembers(ops);
  }

  /** The script deletes nothing exactly when `removed` stays empty. */
  lemma {:induction false} RemovedEmpty(ops: seq<Op>)
    ensures Removed(ops) == [] <==> forall i :: 0 <= i < |ops| ==> !ops[i].Del?
  {
    if ops != [] {
      var init := ops[..|ops| - 1];
      RemovedEmpty(init);
      assert forall i :: 0 <= i < |init| ==> init[i] == ops[i];
    }
  }

  function Last(g: seq<int>): int
    requires |g| > 0
  {
    g[|g| - 1]
  }

  /** The grouping of main.py:299-313: a new group starts wherever the next index is not the previous one plus 1. */
  function Runs(xs: seq<int>): (r: seq<seq<int>>)
    ensures |xs| == 0 <==> r == []
    ensures |xs| > 0 ==> |r[|r| - 1]| > 0 && Last(r[|r| - 1]) == xs[|xs| - 1]
  {
    if |xs| == 0 then []
    else if |xs| == 1 then [[xs[0]]]
    else
      var r := Runs(xs[..|xs| - 1]);
      if xs[|xs| - 1] - xs[|xs| - 2] == 1 then r[..|r| - 1] + [r[|r| - 1] + [xs[|xs| - 1]]]
      else r + [[xs[|xs| - 1]]]
  }

  function Flatten(gs: seq<seq<int>>): seq<int> {
    if gs == [] then [] else Flatten(gs[..|gs| - 1]) + gs[|gs| - 1]
  }

  /** A non-empty run of consecutive integers. */
  predicate IsRun(g: seq<int>) {
    |g| > 0 && forall j :: 0 < j < |g| ==> g[j] == g[j - 1] + 1
  }

  /** Appending an index either extends the last group or opens a new one. */
  lemma RunsSnoc(xs: seq<int>, x: int)
    requires |xs| > 0
    ensures Runs(xs + [x]) == if x - xs[|xs| - 1] == 1
                              then Runs(xs)[..|Runs(xs)| - 1] + [Runs(xs)[|Runs(xs)| - 1] + [x]]
                              else Runs(xs) + [[x]]
  {
    var ys := xs + [x];
    assert ys[..|ys| - 1] == xs;
    assert ys[|ys| - 2] == xs[|xs| - 1];
  }

  lemma FlattenSnoc(gs: seq<seq<int>>, g: seq<int>)
    ensures Flatten(gs + [g]) == Flatten(gs) + g
  {
    assert (gs + [g])[..|gs|] == gs;
  }

  /** Concatenated, the groups give back the index list. */
  lemma {:induction false} RunsFlatten(xs: seq<int>)
    ensures Flatten(Runs(xs)) == xs
  {
    if |xs| == 1 {
      assert Runs(xs) == [[xs[0]]] && [xs[0]] == xs;
      assert Flatten([[xs[0]]]) == Flatten([]) + [xs[0]];
    } else if |xs| > 1 {
      var init, x := xs[..|xs| - 1], xs[|xs| - 1];
      assert xs == init + [x];
      RunsFlatten(init);
      RunsSnoc(init, x);
      var r := Runs(init);
      var n := |r|;
      assert Flatten(r) == Flatten(r[..n - 1]) + r[n - 1];
      if x - init[|init| - 1] == 1 {
        FlattenSnoc(r[..n - 1], r[n - 1] + [x]);
      } else {
        FlattenSnoc(r, [x]);
      }
    }
  }

  predicate AllRuns(gs: seq<seq<int>>) {
    forall k :: 0 <= k < |gs| ==> IsRun(gs[k])
  }

  /** Group `b` starts more than 1 after group `a` ends. */
  predicate Apart(a: seq<int>, b: seq<int>) {
    |a| > 0 && |b| > 0 && b[0] > Last(a) + 1
  }

  predicate Separated(gs: seq<seq<int>>) {
    forall k :: 0 < k < |gs| ==> Apart(gs[k - 1], gs[k])
  }

  /** Every group is a run of consecutive integers. */
  lemma {:induction false} RunsAreRuns(xs: seq<int>)
    ensures AllRuns(Runs(xs))
  {
    if |xs| > 1 {
      var init, x := xs[..|xs| - 1], xs[|xs| - 1];
      RunsAreRuns(init);
      var r := Runs(init);
      var n := |r|;
      if x - init[|init| - 1] == 1 {
        AllRunsExtend(r, x);
      } else {
        AllRunsSnoc(r, [x]);
      }
    }
  }

  lemma AllRunsExtend(gs: seq<seq<int>>, x: int)
    requires AllRuns(gs) && |gs| > 0 && x == Last(gs[|gs| - 1]) + 1
    ensures AllRuns(gs[..|gs| - 1] + [gs[|gs| - 1] + [x]])
  {
    var n := |gs|;
    assert forall k :: 0 <= k < n - 1 ==> gs[..n - 1][k] == gs[k];
    RunExtend(gs[n - 1], x);
    AllRunsSnoc(gs[..n - 1], gs[n - 1] + [x]);
  }

  lemma AllRunsSnoc(gs: seq<seq<int>>, g: seq<int>)
    requires AllRuns(gs) && IsRun(g)
    ensures AllRuns(gs + [g])
  {
    assert forall k :: 0 <= k < |gs| ==> (gs + [g])[k] == gs[k];
  }

  lemma RunExtend(g: seq<int>, x: int)
    requires IsRun(g) && x == Last(g) + 1
    ensures IsRun(g + [x])
  {
  }

  /** Adjacent groups of an ascending index list are more than 1 apart, so every group is a maximal run. */
  lemma {:induction false} RunsSeparated(xs: seq<int>)
    requires Increasing(xs)
    ensures Separated(Runs(xs))
  {
    if |xs| > 1 {
      var init, x := xs[..|xs| - 1], xs[|xs| - 1];
      ghost var y := init[|init| - 1];
      assert y < x && Increasing(init) by {
        assert y == xs[|xs| - 2];
        IncreasingPrefix(xs, |xs| - 1);
      }
      RunsSeparated(init);
      var r := Runs(init);
      if x - y == 1 {
        SeparatedExtend(r, x);
      } else {
        SeparatedSnoc(r, [x]);
      }
    }
  }

  lemma IncreasingPrefix(xs: seq<int>, n: int)
    requires Increasing(xs) && 0 <= n <= |xs|
    ensures Increasing(xs[..n])
  {
    assert forall j :: 0 <= j < n ==> xs[..n][j] == xs[j];
  }

  lemma SeparatedExtend(gs: seq<seq<int>>, x: int)
    requires Separated(gs) && |gs| > 0 && |gs[|gs| - 1]| > 0
    ensures Separated(gs[..|gs| - 1] + [gs[|gs| - 1] + [x]])
  {
    var n := |gs|;
    var gs' := gs[..n - 1] + [gs[n - 1] + [x]];
    assert forall k :: 0 <= k < n - 1 ==> gs'[k] == gs[k];
    assert gs'[n - 1][0] == gs[n - 1][0];
  }

  lemma SeparatedSnoc(gs: seq<seq<int>>, g: seq<int>)
    requires Separated(gs) && |gs| > 0 && Apart(gs[|gs| - 1], g)
    ensures Separated(gs + [g])
  {
    assert forall k :: 0 <= k < |gs| ==> (gs + [g])[k] == gs[k];
  }

  // ----- splicing the markup (main.py:268-280) -----

  const Open: string := "<b><u>"
  const Close: string := "</u></b>"

  /** A slice between the two tags. */
  function Wrap(t: string): (r: string)
    ensures |r| == |t| + 14
  {
    Open + t + Close
  }

  function Start(g: seq<int>): int
    requires |g| > 0
  {
    g[0]
  }

  /** The end of the slice a group marks: one past its last index. */
  function End(g: seq<int>): int
    requires |g| > 0
  {
    g[|g| - 1] + 1
  }

  /** The groups mark ascending, non-overlapping slices of a string of length `n`. */
  predicate Spans(gs: seq<seq<int>>, n: int) {
    if gs == [] then 0 <= n
    else |gs[|gs| - 1]| > 0 && Spans(gs[..|gs| - 1], Start(gs[|gs| - 1]))
         && 0 <= Start(gs[|gs| - 1]) <= End(gs[|gs| - 1]) <= n
  }

  /** The end of the last marked slice, 0 when there is none. */
  function Bound(gs: seq<seq<int>>): int
    requires gs == [] || |gs[|gs| - 1]| > 0
  {
    if gs == [] then 0 else End(gs[|gs| - 1])
  }

  lemma SpansWeaken(gs: seq<seq<int>>, n: int, m: int)
    requires Spans(gs, n) && n <= m
    ensures Spans(gs, m) && 0 <= Bound(gs) <= n
  {
  }

  lemma {:induction false} SpansPrefix(gs: seq<seq<int>>, n: int, k: int)
    requires Spans(gs, n) && 0 <= k < |gs|
    ensures |gs[k]| > 0 && 0 <= Start(gs[k]) <= End(gs[k]) <= n
    ensures Spans(gs[..k + 1], n) && Spans(gs[..k], Start(gs[k]))
  {
    var init := gs[..|gs| - 1];
    if k == |gs| - 1 {
      assert gs[..k + 1] == gs;
    } else {
      SpansWeaken(init, Start(gs[|gs| - 1]), n);
      SpansPrefix(init, n, k);
      assert init[..k + 1] == gs[..k + 1] && init[..k] == gs[..k];
    }
  }

  /** The marked text up to the end of the last group. */
  function Marked(s: string, gs: seq<seq<int>>): (r: string)
    requires Spans(gs, |s|)
    ensures |r| == Bound(gs) + 14 * |gs|
  {
    if gs == [] then []
    else
      var g := gs[|gs| - 1];
      var init := gs[..|gs| - 1];
      SpansWeaken(init, Start(g), |s|);
      Marked(s, init) + s[Bound(init)..Start(g)] + Open + s[Start(g)..End(g)] + Close
  }

  /** `s` with every group's slice wrapped in `<b><u>`…`</u></b>`: an output builder over the groups. */
  function Render(s: string, gs: seq<seq<int>>): (r: string)
    requires Spans(gs, |s|)
    ensures |r| == |s| + 14 * |gs|
    ensures gs == [] ==> r == s
  {
    SpansWeaken(gs, |s|, |s|);
    Marked(s, gs) + s[Bound(gs)..]
  }

  /** Cutting `marked`, which is `d` followed by `s` from `bound` on, at the positions `i` and `j` that `a` and `b` move to. */
  lemma SliceAfter(marked: string, d: string, s: string, bound: int, a: int, b: int, i: int, j: int)
    requires 0 <= bound <= a <= b <= |s| && marked == d + s[bound..]
    requires i == |d| + (a - bound) && j == |d| + (b - bound)
    ensures 0 <= i <= j <= |marked|
    ensures marked[..i] == d + s[bound..a]
    ensures marked[i..j] == s[a..b]
    ensures marked[j..] == s[b..]
  {
    var t := s[bound..];
    assert t[..a - bound] == s[bound..a];
    assert t[a - bound..b - bound] == s[a..b];
    assert t[b - bound..] == s[b..];
  }

  /** One iteration of the splice loop turns the text marked up to group `k` into the text marked up to group `k + 1`. */
  lemma SpliceStep(s: string, gs: seq<seq<int>>, k: int, marked: string, start: int, end: int)
    requires Spans(gs, |s|) && 0 <= k < |gs|
    requires Spans(gs[..k], |s|)
    requires marked == Marked(s, gs[..k]) + s[Bound(gs[..k])..]
    requires |gs[k]| > 0
    requires start == gs[k][0] + 14 * k
    requires end == gs[k][|gs[k]| - 1] + 1 + 14 * k
    ensures Spans(gs[..k + 1], |s|)
    ensures 0 <= start <= end <= |marked|
    ensures marked[..start] + Open + marked[start..end] + Close + marked[end..]
            == Marked(s, gs[..k + 1]) + s[Bound(gs[..k + 1])..]
  {
    MarkedThrough(s, gs, k);
    var g := gs[k];
    var done, bound := Marked(s, gs[..k]), Bound(gs[..k]);
    SliceAfter(marked, done, s, bound, Start(g), End(g), start, end);
    assert (gs[..k + 1])[k] == g;
    Splice(done + s[bound..Start(g)], s[Start(g)..End(g)], s[End(g)..]);
  }

  lemma Splice(a: string, m: string, e: string)
    ensures a + Open + m + Close + e == a + Wrap(m) + e
  {
  }

  /** The splice loop of main.py:268-273 (and, for the second string, main.py:275-280). */
  method MarkGroups(s: string, groups: seq<seq<int>>) returns (marked: string)
    requires Spans(groups, |s|)
    ensures marked == Render(s, groups)
  {
    marked := s;
    var offset := 0;
    var k := 0;
    assert groups[..0] == [];
    while k < |groups|
      invariant 0 <= k <= |groups|
      invariant Spans(groups[..k], |s|)
      invariant offset == 14 * k
      invariant marked == Marked(s, groups[..k]) + s[Bound(groups[..k])..]
    {
      var group := groups[k];
      SpansPrefix(groups, |s|, k);
      var start := group[0] + offset;
      var end := group[|group| - 1] + 1 + offset;
      SpliceStep(s, groups, k, marked, start, end);
      marked := marked[..start] + "<b><u>" + marked[start..end] + "</u></b>" + marked[end..];
      offset := offset + |"<u></u><b></b>"|;
      k := k + 1;
    }
    assert groups[..k] == groups;
  }

  /** The bookkeeping loop of main.py:288-297: `i + offset` is the position in the first string. */
  method RemovedIndices(diff: seq<Op>) returns (removed: seq<int>)
    ensures removed == Removed(diff)
    ensures Increasing(removed)
    ensures forall p :: p in removed <==> 0 <= p < |Src(diff)| && Deleted(diff)[p]
  {
    removed := [];
    var offset := 0;
    var i := 0;
    while i < |diff|
      invariant 0 <= i <= |diff|
      invariant removed == Removed(diff[..i])
      invariant i + offset == |Src(diff[..i])|
    {
      assert diff[..i + 1][..i] == diff[..i];
      if diff[i].Add? {
        offset := offset - 1;
      } else if diff[i].Del? {
        removed := removed + [i + offset];
      }
      i := i + 1;
    }
    assert diff[..i] == diff;
    RemovedAreDeletedPositions(diff);
  }

  /** The grouping loop of main.py:299-313. */
  method GroupRuns(removed: seq<int>) returns (groups: seq<seq<int>>)
    ensures groups == Runs(removed)
    ensures Flatten(groups) == removed
    ensures AllRuns(groups)
    ensures Increasing(removed) ==> Separated(groups)
  {
    groups := [];
    var group: seq<int> := [];
    var j := 0;
    while j < |removed|
      invariant 0 <= j <= |removed|
      invariant j == 0 ==> groups == [] && group == []
      invariant j > 0 ==> groups + [group] == Runs(removed[..j])
    {
      if j == 0 {
        group := group + [removed[j]];
        assert group == [removed[0]];
        assert Runs(removed[..1]) == [[removed[0]]];
      } else {
        GroupStep(removed, j, groups, group);
        if removed[j] - removed[j - 1] == 1 {
          group := group + [removed[j]];
        } else {
          groups := groups + [group];
          group := [removed[j]];
        }
      }
      j := j + 1;
    }
    assert removed[..j] == removed;
    if group != [] {
      groups := groups + [group];
    }
    RunsFacts(removed);
  }

  /** One iteration of the grouping loop, for an index after the first. */
  lemma GroupStep(xs: seq<int>, j: int, groups: seq<seq<int>>, group: seq<int>)
    requires 0 < j < |xs| && groups + [group] == Runs(xs[..j])
    ensures xs[j] - xs[j - 1] == 1 ==> groups + [group + [xs[j]]] == Runs(xs[..j + 1])
    ensures xs[j] - xs[j - 1] != 1 ==> groups + [group] + [[xs[j]]] == Runs(xs[..j + 1])
  {
    assert xs[..j + 1] == xs[..j] + [xs[j]];
    RunsSnoc(xs[..j], xs[j]);
    var r := groups + [group];
    assert r[..|r| - 1] == groups && r[|r| - 1] == group;
  }

  /** What the grouping promises about its groups. */
  lemma RunsFacts(xs: seq<int>)
    ensures Flatten(Runs(xs)) == xs
    ensures AllRuns(Runs(xs))
    ensures Increasing(xs) ==> Separated(Runs(xs))
  {
    RunsFlatten(xs);
    RunsAreRuns(xs);
    if Increasing(xs) {
      RunsSeparated(xs);
    }
  }

  /**
   * `get_diff_removals` (main.py:285-313): the maximal runs of the positions
   * the script deletes from the first string.
   */
  method GetDiffRemovals(first: string, second: string, diff: seq<Op>) returns (groups: seq<seq<int>>)
    requires Src(diff) == first && Dst(diff) == second
    ensures groups == Runs(Removed(diff))
    ensures forall p :: p in Flatten(groups) <==> 0 <= p < |first| && Deleted(diff)[p]
    ensures Increasing(Flatten(groups))
    ensures AllRuns(groups) && Separated(groups)
    ensures groups == [] <==> forall i :: 0 <= i < |diff| ==> !diff[i].Del?
    ensures Spans(groups, |first|)
  {
    var removed := RemovedIndices(diff);
    groups := GroupRuns(removed);
    RemovedEmpty(diff);
    assert forall j :: 0 <= j < |removed| ==> removed[j] in removed;
    RunsSpan(removed, |first|);
  }

  /** The groups of an ascending list of positions in a string mark ascending slices of that string. */
  lemma {:induction false} RunsSpan(xs: seq<int>, n: int)
    requires Increasing(xs) && 0 <= n
    requires forall j :: 0 <= j < |xs| ==> 0 <= xs[j] < n
    ensures Spans(Runs(xs), n)
  {
    if |xs| == 1 {
      assert Runs(xs)[..0] == [];
    } else if |xs| > 1 {
      var init := xs[..|xs| - 1];
      var x := xs[|xs| - 1];
      var r := Runs(init);
      if x - xs[|xs| - 2] == 1 {
        RunsSpan(init, n);
        var g := r[|r| - 1];
        var r' := r[..|r| - 1] + [g + [x]];
        assert r'[..|r'| - 1] == r[..|r| - 1];
        assert Runs(xs) == r';
      } else {
        RunsSpan(init, x);
        assert (r + [[x]])[..|r|] == r;
      }
    }
  }

  /** One string of `get_diff`'s result: the slices the script deletes, wrapped in markup. */
  function Highlight(s: string, ops: seq<Op>): (r: string)
    requires Src(ops) == s
    ensures |r| == |s| + 14 * |Runs(Removed(ops))|
  {
    RemovedAreDeletedPositions(ops);
    assert forall j :: 0 <= j < |Removed(ops)| ==> Removed(ops)[j] in Removed(ops);
    RunsSpan(Removed(ops), |s|);
    Render(s, Runs(Removed(ops)))
  }

  /**
   * `get_diff` (main.py:264-282). `forward` is `ndiff(old, new)` and
   * `backward` is `ndiff(new, old)` for the source's `old` and `new`; the two splice loops of the source are
   * the two calls of `MarkGroups`.
   */
  method GetDiff(oldText: string, newText: string, forward: seq<Op>, backward: seq<Op>)
    returns (oldMarked: string, newMarked: string)
    requires Src(forward) == oldText && Dst(forward) == newText
    requires Src(backward) == newText && Dst(backward) == oldText
    ensures oldMarked == Highlight(oldText, forward)
    ensures newMarked == Highlight(newText, backward)
  {
    var removedFromOld := GetDiffRemovals(oldText, newText, forward);
    var removedFromNew := GetDiffRemovals(newText, oldText, backward);
    oldMarked := MarkGroups(oldText, removedFromOld);
    newMarked := MarkGroups(newText, removedFromNew);
  }

  /** A string comes back unmarked exactly when its script deletes nothing (for instance `ndiff(s, s)`). */
  lemma HighlightUnchanged(s: string, ops: seq<Op>)
    requires Src(ops) == s
    ensures Highlight(s, ops) == s <==> forall i :: 0 <= i < |ops| ==> !ops[i].Del?
  {
    RemovedEmpty(ops);
    var runs := Runs(Removed(ops));
    assert |Highlight(s, ops)| == |s| + 14 * |runs|;
    if runs == [] {
      assert Spans(runs, |s|);
      assert Render(s, runs) == s;
      assert Highlight(s, ops) == Render(s, runs);
    } else {
      assert |Highlight(s, ops)| != |s|;
    }
  }

  // ----- sequence facts kept out of the larger proofs -----

  lemma SliceJoin(s: string, i: int, j: int, k: int)
    requires 0 <= i <= j <= k <= |s|
    ensures s[..i] + s[i..j] + s[j..k] == s[..k]
  {
  }

  lemma Pieces(p: string, q: string, r: string)
    ensures (p + q + r)[|p|..|p| + |q|] == q
    ensures (p + q + r)[|p| + |q|..] == r
  {
  }

  /** The middle and last of three pieces that open a longer sequence can be read back from it. */
  lemma InPrefix(p: string, q: string, w: string, r: string)
    requires p + q + w <= r
    ensures r[|p|..|p| + |q|] == q
    ensures r[|p| + |q|..|p| + |q| + |w|] == w
  {
    Pieces(p, q, w);
    PrefixSlice(p + q + w, r, |p|, |p| + |q|);
    PrefixSlice(p + q + w, r, |p| + |q|, |p + q + w|);
  }

  /** `InPrefix`, with the boundaries given as positions in the unmarked text and `k` groups of tags before them. */
  lemma InPrefixAt(p: string, q: string, w: string, r: string, a: int, b: int, c: int, k: int)
    requires p + q + w <= r
    requires |p| == a + 14 * k
    requires |q| == b - a
    requires |w| == c - b + 14
    ensures r[a + 14 * k..b + 14 * k] == q && r[b + 14 * k..c + 14 * k + 14] == w
  {
    InPrefix(p, q, w, r);
  }

  lemma PrefixSlice(m: string, r: string, x: int, y: int)
    requires m <= r && 0 <= x <= y <= |m|
    ensures r[x..y] == m[x..y]
    ensures r[x..|m|] == m[x..]
  {
  }

  /** The marked text up to group `k` is a prefix of the marked text up to any later group. */
  lemma {:induction false} MarkedPrefix(s: string, gs: seq<seq<int>>, k: int)
    requires Spans(gs, |s|) && 0 <= k <= |gs|
    ensures Spans(gs[..k], |s|)
    ensures Marked(s, gs[..k]) <= Marked(s, gs)
  {
    if k == |gs| {
      assert gs[..k] == gs;
    } else {
      var init, g := gs[..|gs| - 1], gs[|gs| - 1];
      MarkedLast(s, gs, init, g);
      MarkedPrefix(s, init, k);
      assert init[..k] == gs[..k];
      PrefixOfJoin(Marked(s, init[..k]), Marked(s, init), s[Bound(init)..Start(g)], Wrap(s[Start(g)..End(g)]));
    }
  }

  lemma PrefixOfJoin(a: string, b: string, c: string, d: string)
    requires a <= b
    ensures a <= b + c + d
  {
  }

  /** One step of `Marked`: the last group adds the gap before it and its wrapped slice. */
  lemma MarkedLast(s: string, pre: seq<seq<int>>, init: seq<seq<int>>, g: seq<int>)
    requires Spans(pre, |s|) && |pre| > 0
    requires init == pre[..|pre| - 1] && g == pre[|pre| - 1]
    ensures |g| > 0 && Spans(init, |s|) && Bound(init) <= Start(g) <= End(g) <= |s|
    ensures Marked(s, pre) == Marked(s, init) + s[Bound(init)..Start(g)] + Wrap(s[Start(g)..End(g)])
  {
    SpansWeaken(init, Start(g), |s|);
    var done := Marked(s, init);
    var gap := s[Bound(init)..Start(g)];
    var inner := s[Start(g)..End(g)];
    assert Marked(s, pre) == done + gap + Open + inner + Close;
    Seqs.AssocTail(done + gap, Open, inner, Close);
  }

  /** The marked text through group `k`, split into its three parts. */
  lemma MarkedThrough(s: string, gs: seq<seq<int>>, k: int)
    requires Spans(gs, |s|) && 0 <= k < |gs|
    ensures |gs[k]| > 0 && Spans(gs[..k], |s|) && Spans(gs[..k + 1], |s|)
    ensures Bound(gs[..k]) <= Start(gs[k]) <= End(gs[k]) <= |s|
    ensures |Marked(s, gs[..k])| == Bound(gs[..k]) + 14 * k
    ensures Marked(s, gs[..k + 1])
            == Marked(s, gs[..k]) + s[Bound(gs[..k])..Start(gs[k])] + Wrap(s[Start(gs[k])..End(gs[k])])
  {
    SpansPrefix(gs, |s|, k);
    var pre := gs[..k + 1];
    assert pre[..k] == gs[..k] && pre[k] == gs[k];
    MarkedLast(s, pre, gs[..k], gs[k]);
  }

  /**
   * The offset bookkeeping is right. Take group `k` (`g`, marking `s[st..en]`),
   * the groups before it (`init`) and the end `lo` of the one before. In the
   * result, `g`'s characters stand `14 * k` places to the right of where they
   * stood, wrapped in `<b><u>`…`</u></b>`, and the unmarked characters between
   * `lo` and `st` are shifted the same way.
   */
  lemma RenderWrapsGroup(s: string, gs: seq<seq<int>>, k: int, init: seq<seq<int>>, g: seq<int>, lo: int, st: int, en: int)
    requires Spans(gs, |s|) && 0 <= k < |gs| && init == gs[..k] && g == gs[k]
    requires |g| > 0 && Spans(init, |s|)
    requires lo == Bound(init) && st == Start(g) && en == End(g)
    ensures 0 <= lo <= st <= en <= |s|
    ensures Render(s, gs)[lo + 14 * k..st + 14 * k] == s[lo..st]
    ensures Render(s, gs)[st + 14 * k..en + 14 * k + 14] == Wrap(s[st..en])
  {
    WrapPieces(s, gs, k);
    InPrefixAt(Marked(s, init), s[lo..st], Wrap(s[st..en]), Render(s, gs), lo, st, en, k);
  }

  /** The marked text through group `k`, in its three parts, opens the result. */
  lemma WrapPieces(s: string, gs: seq<seq<int>>, k: int)
    requires Spans(gs, |s|) && 0 <= k < |gs|
    ensures |gs[k]| > 0 && Spans(gs[..k], |s|)
    ensures Bound(gs[..k]) <= Start(gs[k]) <= End(gs[k]) <= |s|
    ensures |Marked(s, gs[..k])| == Bound(gs[..k]) + 14 * k
    ensures Marked(s, gs[..k]) + s[Bound(gs[..k])..Start(gs[k])] + Wrap(s[Start(gs[k])..End(gs[k])]) <= Render(s, gs)
  {
    MarkedThrough(s, gs, k);
    MarkedPrefix(s, gs, k + 1);
    SpansWeaken(gs, |s|, |s|);
    assert Render(s, gs) == Marked(s, gs) + s[Bound(gs)..];
  }

  /** The text with the `<b><u>` and `</u></b>` tags taken out. */
  function Unmark(t: string): string
    decreases |t|
  {
    if t == [] then []
    else if t[0] == '<' && |t| >= |Open| && t[..|Open|] == Open then Unmark(t[|Open|..])
    else if t[0] == '<' && |t| >= |Close| && t[..|Close|] == Close then Unmark(t[|Close|..])
    else [t[0]] + Unmark(t[1..])
  }

  lemma UnmarkOpen(t: string)
    ensures Unmark(Open + t) == Unmark(t)
  {
    assert (Open + t)[..|Open|] == Open;
    assert (Open + t)[|Open|..] == t;
  }

  lemma UnmarkClose(t: string)
    ensures Unmark(Close + t) == Unmark(t)
  {
    assert (Close + t)[..|Open|] != Open by {
      assert (Close + t)[1] == '/' && Open[1] == 'b';
    }
    assert (Close + t)[..|Close|] == Close;
    assert (Close + t)[|Close|..] == t;
  }

  /** Text with no `<` passes through unchanged. */
  lemma {:induction false} UnmarkPlain(u: string, t: string)
    requires '<' !in u
    ensures Unmark(u + t) == u + Unmark(t)
  {
    if u != [] {
      var ut := u + t;
      assert ut[0] == u[0] && u[0] != '<';
      assert ut[1..] == u[1..] + t;
      UnmarkPlain(u[1..], t);
      assert u == [u[0]] + u[1..];
    } else {
      assert u + t == t;
    }
  }

  lemma {:induction false} UnmarkMarked(s: string, gs: seq<seq<int>>, t: string)
    requires Spans(gs, |s|) && '<' !in s
    ensures 0 <= Bound(gs) <= |s|
    ensures Unmark(Marked(s, gs) + t) == s[..Bound(gs)] + Unmark(t)
  {
    SpansWeaken(gs, |s|, |s|);
    if gs == [] {
      assert Marked(s, gs) + t == t;
    } else {
      var init, g := gs[..|gs| - 1], gs[|gs| - 1];
      MarkedLast(s, gs, init, g);
      var b := Bound(init);
      var gap := s[b..Start(g)];
      var inner := s[Start(g)..End(g)];
      NoTagInSlice(s, b, Start(g));
      NoTagInSlice(s, Start(g), End(g));
      var tail := gap + (Wrap(inner) + t);
      Seqs.AssocRight(Marked(s, init), gap, Wrap(inner), t);
      UnmarkMarked(s, init, tail);
      UnmarkPlain(gap, Wrap(inner) + t);
      UnmarkWrap(inner, t);
      SliceJoin(s, b, Start(g), End(g));
      Seqs.AssocRight(s[..b], gap, inner, Unmark(t));
    }
  }

  lemma NoTagInSlice(s: string, i: int, j: int)
    requires '<' !in s && 0 <= i <= j <= |s|
    ensures '<' !in s[i..j]
  {
  }

  /** The tags around a slice without `<` come out, the slice stays. */
  lemma UnmarkWrap(inner: string, t: string)
    requires '<' !in inner
    ensures Unmark(Wrap(inner) + t) == inner + Unmark(t)
  {
    assert Wrap(inner) + t == Open + (inner + (Close + t));
    UnmarkOpen(inner + (Close + t));
    UnmarkPlain(inner, Close + t);
    UnmarkClose(t);
  }

  /** Taking the tags out of the highlighted text gives back the text, when the text has no `<` of its own (as escaped titles do not). */
  lemma RenderUnmark(s: string, gs: seq<seq<int>>)
    requires Spans(gs, |s|) && '<' !in s
    ensures Unmark(Render(s, gs)) == s
  {
    SpansWeaken(gs, |s|, |s|);
    var rest := s[Bound(gs)..];
    UnmarkMarked(s, gs, rest);
    UnmarkNoTags(rest);
    assert s[..Bound(gs)] + rest == s;
  }

  /** A string without `<` has no tags to take out. */
  lemma {:induction false} UnmarkNoTags(u: string)
    requires '<' !in u
    ensures Unmark(u) == u
  {
    if u != [] {
      UnmarkNoTags(u[1..]);
      assert u == [u[0]] + u[1..];
    }
  }
}

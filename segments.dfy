// Run-length grouping of per-frame action labels into segments, as both the
// offline recognizer and the video processor do it: a run of equal labels becomes one
// segment that ends just before the next run starts; the last one ends at the last frame.
module Segments {
  import opened Wrappers

  /** A classifier label; every label a classifier returns is non-empty, hence truthy. */
  type Label = s: string | s != [] witness "idle"

  datatype Segment = Segment(name: Label, startFrame: int, endFrame: int)

  /** Observations (frame, label), in the order they are grouped. */
  type Observations = seq<(int, Label)>

  predicate StrictlyIncreasing(obs: Observations)
  {
    forall i, j :: 0 <= i < j < |obs| ==> obs[i].0 < obs[j].0
  }

  /** The segments of a list of observations. */
  function Runs(obs: Observations): seq<Segment>
  {
    RunsUpTo(obs, |obs|)
  }

  /** The segments of the first `n` observations, defined one observation at a time. */
  function RunsUpTo(obs: Observations, n: nat): seq<Segment>
    requires n <= |obs|
  {
    if n == 0 then [] else Extend(RunsUpTo(obs, n - 1), obs[n - 1].0, obs[n - 1].1)
  }

  /** One more observation: it lengthens the last run or closes it just before `f` and opens a new one. */
  function Extend(prev: seq<Segment>, f: int, l: Label): (r: seq<Segment>)
    ensures |r| == |prev| || |r| == |prev| + 1
  {
    if prev == [] then [Segment(l, f, f)]
    else
      var last := prev[|prev| - 1];
      if last.name == l then prev[..|prev| - 1] + [last.(endFrame := f)]
      else prev[..|prev| - 1] + [last.(endFrame := f - 1), Segment(l, f, f)]
  }

  /** Adjacent segments carry different labels and leave no gap between them. */
  predicate WellFormed(r: seq<Segment>)
  {
    (forall k :: 0 <= k < |r| ==> r[k].startFrame <= r[k].endFrame) &&
    (forall k :: 0 <= k < |r| - 1 ==> r[k].name != r[k + 1].name) &&
    (forall k :: 0 <= k < |r| - 1 ==> r[k].endFrame + 1 == r[k + 1].startFrame)
  }

  /** Frame `f` lies in a segment labelled `l`. */
  predicate Covered(r: seq<Segment>, f: int, l: Label)
  {
    exists k :: 0 <= k < |r| && r[k].startFrame <= f <= r[k].endFrame && r[k].name == l
  }

  lemma ExtendShape(prev: seq<Segment>, f: int, l: Label)
    requires WellFormed(prev)
    requires prev != [] ==> prev[|prev| - 1].endFrame < f
    ensures var r := Extend(prev, f, l);
      WellFormed(r) && r != [] && r[|r| - 1].endFrame == f &&
      (prev != [] ==> r[0].startFrame == prev[0].startFrame)
  {
  }

  /**
   * No observations give no segments. Otherwise the segments are well formed, the first
   * starts at the first observed frame and the last ends at the last observed frame.
   */
  lemma RunsShape(obs: Observations)
    requires StrictlyIncreasing(obs)
    ensures var r := Runs(obs);
      (r == [] <==> obs == []) &&
      WellFormed(r) &&
      (r != [] ==> r[0].startFrame == obs[0].0 && r[|r| - 1].endFrame == obs[|obs| - 1].0) &&
      |r| <= |obs|
  {
    RunsUpToShape(obs, |obs|);
  }

  lemma {:induction false} RunsUpToShape(obs: Observations, n: nat)
    requires StrictlyIncreasing(obs) && n <= |obs|
    ensures var r := RunsUpTo(obs, n);
      (r == [] <==> n == 0) &&
      WellFormed(r) &&
      (r != [] ==> r[0].startFrame == obs[0].0 && r[|r| - 1].endFrame == obs[n - 1].0) &&
      |r| <= n
  {
    if n > 0 {
      RunsUpToShape(obs, n - 1);
      if n > 1 {
        assert obs[n - 2].0 < obs[n - 1].0;
      }
      ExtendShape(RunsUpTo(obs, n - 1), obs[n - 1].0, obs[n - 1].1);
    }
  }

  lemma ExtendKeepsCover(prev: seq<Segment>, f: int, l: Label, g: int, m: Label)
    requires prev != [] && g <= prev[|prev| - 1].endFrame < f
    requires Covered(prev, g, m)
    ensures Covered(Extend(prev, f, l), g, m)
  {
    var r := Extend(prev, f, l);
    var k :| 0 <= k < |prev| && prev[k].startFrame <= g <= prev[k].endFrame && prev[k].name == m;
    if k < |prev| - 1 {
      assert r[k] == prev[k];
    } else {
      assert r[k].startFrame <= g <= r[k].endFrame && r[k].name == m;
    }
  }

  lemma ExtendCoversNew(prev: seq<Segment>, f: int, l: Label)
    requires prev != [] ==> prev[|prev| - 1].startFrame <= f
    ensures Covered(Extend(prev, f, l), f, l)
  {
    var r := Extend(prev, f, l);
    assert r[|r| - 1].startFrame <= f <= r[|r| - 1].endFrame && r[|r| - 1].name == l;
  }

  /** Every observed frame lies in a segment that carries its label. */
  lemma RunsCover(obs: Observations)
    requires StrictlyIncreasing(obs)
    ensures forall j :: 0 <= j < |obs| ==> Covered(Runs(obs), obs[j].0, obs[j].1)
  {
    RunsUpToCover(obs, |obs|);
  }

  lemma PrefixStep<T>(s: seq<T>, i: nat)
    requires i < |s|
    ensures s[..i + 1] == s[..i] + [s[i]]
  {
  }

  /** Each of the first `n` observed frames lies in a segment of `r` that carries its label. */
  predicate CoversFirst(r: seq<Segment>, obs: Observations, n: nat)
    requires n <= |obs|
  {
    forall j :: 0 <= j < n ==> Covered(r, obs[j].0, obs[j].1)
  }

  lemma {:induction false} RunsUpToCover(obs: Observations, n: nat)
    requires StrictlyIncreasing(obs) && n <= |obs|
    ensures CoversFirst(RunsUpTo(obs, n), obs, n)
  {
    if n > 0 {
      RunsUpToCover(obs, n - 1);
      RunsUpToCoverStep(obs, n);
    }
  }

  lemma RunsUpToCoverStep(obs: Observations, n: nat)
    requires StrictlyIncreasing(obs) && 0 < n <= |obs|
    requires CoversFirst(RunsUpTo(obs, n - 1), obs, n - 1)
    ensures CoversFirst(RunsUpTo(obs, n), obs, n)
  {
    if n == 1 {
      ExtendCoversFirst([], obs, 0, obs[0].0);
    } else {
      RunsUpToLast(obs, n - 1);
      SeenBefore(obs, n - 1);
      ExtendCoversFirst(RunsUpTo(obs, n - 1), obs, n - 1, obs[n - 2].0);
    }
  }

  /** The last of the segments so far ends at the last frame seen and starts no later. */
  lemma RunsUpToLast(obs: Observations, n: nat)
    requires StrictlyIncreasing(obs) && n <= |obs|
    ensures var r := RunsUpTo(obs, n);
      (r == [] <==> n == 0) &&
      (r != [] ==> r[|r| - 1].startFrame <= r[|r| - 1].endFrame == obs[n - 1].0)
  {
    RunsUpToShape(obs, n);
  }

  /** Every frame among the first `n` is at most the `n`-th and below the next one. */
  lemma SeenBefore(obs: Observations, n: nat)
    requires StrictlyIncreasing(obs) && 0 < n < |obs|
    ensures forall j :: 0 <= j < n ==> obs[j].0 <= obs[n - 1].0
    ensures obs[n - 1].0 < obs[n].0
  {
  }

  /**
   * Observation `m`, later than all before it and than the last segment's end, keeps every
   * earlier frame covered and covers itself.
   */
  lemma ExtendCoversFirst(prev: seq<Segment>, obs: Observations, m: nat, last: int)
    requires m < |obs|
    requires m == 0 ==> prev == []
    requires m > 0 ==> prev != [] && prev[|prev| - 1].startFrame <= prev[|prev| - 1].endFrame == last < obs[m].0
    requires forall j :: 0 <= j < m ==> obs[j].0 <= last
    requires CoversFirst(prev, obs, m)
    ensures CoversFirst(Extend(prev, obs[m].0, obs[m].1), obs, m + 1)
  {
    var (f, l) := obs[m];
    ExtendCoversNew(prev, f, l);
    forall j | 0 <= j < m
      ensures Covered(Extend(prev, f, l), obs[j].0, obs[j].1)
    {
      ExtendKeepsCover(prev, f, l, obs[j].0, obs[j].1);
    }
  }

  lemma NonEmpty(s: set<int>)
    ensures s == {} || exists y :: y in s
  {
    if forall y :: y !in s {
      assert s == {};
    }
  }

  lemma {:induction false} MinExists(s: set<int>)
    requires s != {}
    ensures exists m :: m in s && forall x :: x in s ==> m <= x
  {
    NonEmpty(s);
    var y :| y in s;
    if s != {y} {
      var rest := s - {y};
      assert s == rest + {y};
      MinExists(rest);
      var m :| m in rest && forall x :: x in rest ==> m <= x;
      if y < m {
        assert forall x :: x in s ==> y <= x;
      } else {
        assert forall x :: x in s ==> m <= x;
      }
    } else {
      assert forall x :: x in s ==> y <= x;
    }
  }

  function Min(s: set<int>): (m: int)
    requires s != {}
    ensures m in s && forall x :: x in s ==> m <= x
  {
    MinExists(s);
    var m :| m in s && forall x :: x in s ==> m <= x;
    m
  }

  /** The frame numbers in ascending order (`sorted(frame_actions.keys())`). */
  function Ascending(s: set<int>): (r: seq<int>)
    ensures |r| == |s|
    decreases |s|
  {
    if s == {} then []
    else
      var m := Min(s);
      [m] + Ascending(s - {m})
  }

  /** The ascending list is strictly increasing and holds exactly the set's elements. */
  lemma AscendingProperties(s: set<int>)
    ensures var r := Ascending(s);
      (forall i, j :: 0 <= i < j < |r| ==> r[i] < r[j]) &&
      (forall x :: x in r <==> x in s)
  {
    AscendingMembers(s);
    AscendingIncreasing(s);
  }

  lemma {:induction false} AscendingMembers(s: set<int>)
    ensures forall x :: x in Ascending(s) <==> x in s
    decreases |s|
  {
    if s != {} {
      var m := Min(s);
      var rest := Ascending(s - {m});
      AscendingMembers(s - {m});
      assert Ascending(s) == [m] + rest;
      forall x ensures x in [m] + rest <==> x in s {
        assert x in [m] + rest <==> x == m || x in rest;
      }
    }
  }

  lemma {:induction false} AscendingIncreasing(s: set<int>)
    ensures forall i, j :: 0 <= i < j < |Ascending(s)| ==> Ascending(s)[i] < Ascending(s)[j]
    decreases |s|
  {
    if s != {} {
      var m := Min(s);
      var rest := Ascending(s - {m});
      AscendingIncreasing(s - {m});
      AscendingMembers(s - {m});
      var r := [m] + rest;
      assert Ascending(s) == r;
      forall i, j | 0 <= i < j < |r| ensures r[i] < r[j] {
        if i == 0 {
          assert r[j] == rest[j - 1] && rest[j - 1] in s - {m};
        } else {
          assert r[i] == rest[i - 1] && r[j] == rest[j - 1];
        }
      }
    }
  }

  /** Extending an open segment: same label lengthens it, a new label closes it at `f - 1`. */
  lemma ExtendOpen(closed: seq<Segment>, current: Label, start: int, prev: int, f: int, l: Label)
    ensures Extend(closed + [Segment(current, start, prev)], f, l) ==
      if current == l then closed + [Segment(current, start, f)]
      else closed + [Segment(current, start, f - 1)] + [Segment(l, f, f)]
  {
    var s := closed + [Segment(current, start, prev)];
    assert s[..|s| - 1] == closed;
  }

  /**
   * The grouping loop's step, in the shape both loops compute it: `current` is the label of
   * the open segment (none before the first observation) and `start` its first frame. The
   * next observation opens the first segment, lengthens the open one, or closes it at the
   * frame before and opens a new one.
   */
  lemma RunsAdvance(obs: Observations, i: nat, segments: seq<Segment>, current: Option<Label>, start: int)
    requires i < |obs|
    requires current.None? <==> i == 0
    requires i == 0 ==> segments == []
    requires i > 0 ==> RunsUpTo(obs, i) == segments + [Segment(current.value, start, obs[i - 1].0)]
    ensures current.None? ==> RunsUpTo(obs, i + 1) == [Segment(obs[i].1, obs[i].0, obs[i].0)]
    ensures current == Some(obs[i].1) ==> RunsUpTo(obs, i + 1) == segments + [Segment(current.value, start, obs[i].0)]
    ensures current.Some? && current != Some(obs[i].1) ==>
      RunsUpTo(obs, i + 1) == segments + [Segment(current.value, start, obs[i].0 - 1)] + [Segment(obs[i].1, obs[i].0, obs[i].0)]
  {
    if i > 0 {
      ExtendOpen(segments, current.value, start, obs[i - 1].0, obs[i].0, obs[i].1);
    }
  }
}

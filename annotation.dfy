// The annotation entities shared by the backend store and the editor pages,
// the per-frame action filter and the stable sort by start frame.
module Annotation {
  import opened Wrappers
  import Dict

  /** A keypoint coordinate list `[x, y]` or `[x, y, z]`. */
  datatype Coord = Coord(x: real, y: real, z: Option<real>)

  type Keypoints = Dict.Dict<Coord>

  /** One pose frame `{keypoints, confidence}`; a frame written by the editor may lack its confidence. */
  datatype Pose = Pose(keypoints: Keypoints, confidence: Option<real>)

  /** A bounding box `[x1, y1, x2, y2]`. */
  datatype Box = Box(x1: real, y1: real, x2: real, y2: real)

  // `label` is a Dafny keyword, so the label field of a detection or an action is `name`.
  datatype Obj = Obj(name: string, bbox: Box, confidence: real)

  datatype Action = Action(name: string, startFrame: int, endFrame: int, confidence: real)

  /** The pose track, frame key -> pose, and the object track, frame key -> detections. */
  type PoseTrack = Dict.Dict<Pose>
  type ObjectTrack = Dict.Dict<seq<Obj>>

  /** The three collections of one video as the editors hold them. */
  datatype Document = Document(pose: PoseTrack, objects: ObjectTrack, actions: seq<Action>)

  /** An action covers the frames from its start to its end, both inclusive. */
  predicate ActiveAt(a: Action, frame: int) { a.startFrame <= frame <= a.endFrame }

  /** The actions active at `frame`, in stored order. */
  function ActionsAt(actions: seq<Action>, frame: int): (r: seq<Action>)
    ensures |r| <= |actions|
    ensures forall a :: a in r <==> a in actions && ActiveAt(a, frame)
  {
    if actions == [] then []
    else if ActiveAt(actions[0], frame) then [actions[0]] + ActionsAt(actions[1..], frame)
    else ActionsAt(actions[1..], frame)
  }

  /** The filter keeps stored order: it distributes over concatenation. */
  lemma {:induction false} ActionsAtAppend(s: seq<Action>, t: seq<Action>, frame: int)
    ensures ActionsAt(s + t, frame) == ActionsAt(s, frame) + ActionsAt(t, frame)
  {
    if s != [] {
      assert (s + t)[1..] == s[1..] + t;
      ActionsAtAppend(s[1..], t, frame);
    } else {
      assert s + t == t;
    }
  }

  /** JavaScript `actions.find(a => start <= frame && frame <= end)`. */
  function FirstActiveAt(actions: seq<Action>, frame: int): (r: Option<Action>)
  {
    if actions == [] then None
    else if ActiveAt(actions[0], frame) then Some(actions[0])
    else FirstActiveAt(actions[1..], frame)
  }

  /** Index `i` holds an action active at `frame`, and no earlier one is. */
  predicate EarliestActive(actions: seq<Action>, i: int, frame: int)
  {
    0 <= i < |actions| && ActiveAt(actions[i], frame) && forall j :: 0 <= j < i ==> !ActiveAt(actions[j], frame)
  }

  /** `find` returns the earliest active action, and nothing exactly when no action is active. */
  lemma {:induction false} FirstActiveIsEarliest(actions: seq<Action>, frame: int)
    ensures FirstActiveAt(actions, frame).None? <==> forall a :: a in actions ==> !ActiveAt(a, frame)
    ensures FirstActiveAt(actions, frame).Some? ==>
      exists i :: EarliestActive(actions, i, frame) && actions[i] == FirstActiveAt(actions, frame).value
  {
    if actions != [] && !ActiveAt(actions[0], frame) {
      FirstActiveIsEarliest(actions[1..], frame);
      assert forall a :: a in actions ==> a == actions[0] || a in actions[1..];
      if FirstActiveAt(actions, frame).Some? {
        var i :| EarliestActive(actions[1..], i, frame) && actions[1..][i] == FirstActiveAt(actions, frame).value;
        assert forall j :: 0 <= j < i + 1 ==> !ActiveAt(actions[j], frame) by {
          forall j | 0 <= j < i + 1 ensures !ActiveAt(actions[j], frame) {
            if j > 0 { assert actions[j] == actions[1..][j - 1]; }
          }
        }
        assert EarliestActive(actions, i + 1, frame);
      }
    }
  }

  /** The first active action is the head of the filtered list, and there is none when the list is empty. */
  lemma {:induction false} FirstActiveIsHead(actions: seq<Action>, frame: int)
    ensures FirstActiveAt(actions, frame) ==
      (if ActionsAt(actions, frame) == [] then None else Some(ActionsAt(actions, frame)[0]))
  {
    if actions != [] && !ActiveAt(actions[0], frame) {
      FirstActiveIsHead(actions[1..], frame);
    }
  }

  predicate SortedByStart(s: seq<Action>)
  {
    forall i, j :: 0 <= i < j < |s| ==> s[i].startFrame <= s[j].startFrame
  }

  /** Inserts `a` after every element whose start is not later than its own. */
  function InsertByStart(s: seq<Action>, a: Action): seq<Action>
  {
    if s == [] then [a]
    else if a.startFrame < s[0].startFrame then [a] + s
    else [s[0]] + InsertByStart(s[1..], a)
  }

  /**
   * The stable sort by start frame used by `list.sort(key=...)` and `Array.prototype.sort`:
   * an insertion sort that takes the elements left to right.
   */
  function SortByStart(s: seq<Action>): seq<Action>
  {
    if s == [] then [] else InsertByStart(SortByStart(s[..|s| - 1]), s[|s| - 1])
  }

  lemma {:induction false} InsertByStartProperties(s: seq<Action>, a: Action)
    requires SortedByStart(s)
    ensures SortedByStart(InsertByStart(s, a))
    ensures multiset(InsertByStart(s, a)) == multiset(s) + multiset{a}
  {
    InsertByStartSorted(s, a);
    InsertByStartElements(s, a);
  }

  lemma {:induction false} InsertByStartElements(s: seq<Action>, a: Action)
    ensures multiset(InsertByStart(s, a)) == multiset(s) + multiset{a}
  {
    if s != [] && a.startFrame >= s[0].startFrame {
      InsertByStartElements(s[1..], a);
      assert s == [s[0]] + s[1..];
    }
  }

  lemma {:induction false} InsertByStartSorted(s: seq<Action>, a: Action)
    requires SortedByStart(s)
    ensures SortedByStart(InsertByStart(s, a))
  {
    if s != [] && a.startFrame >= s[0].startFrame {
      var rest := s[1..];
      InsertByStartSorted(rest, a);
      InsertByStartBound(rest, a, s[0].startFrame);
      var r := InsertByStart(rest, a);
      var t := [s[0]] + r;
      assert InsertByStart(s, a) == t;
      forall i, j | 0 <= i < j < |t| ensures t[i].startFrame <= t[j].startFrame {
        if i > 0 {
          assert t[i] == r[i - 1] && t[j] == r[j - 1];
        } else {
          assert t[j] == r[j - 1];
        }
      }
    }
  }

  /** Inserting keeps a lower bound on the start frames that both the list and `a` respect. */
  lemma {:induction false} InsertByStartBound(s: seq<Action>, a: Action, lo: int)
    requires forall i :: 0 <= i < |s| ==> lo <= s[i].startFrame
    requires lo <= a.startFrame
    ensures forall i :: 0 <= i < |InsertByStart(s, a)| ==> lo <= InsertByStart(s, a)[i].startFrame
  {
    if s != [] && a.startFrame >= s[0].startFrame {
      InsertByStartBound(s[1..], a, lo);
      var r := InsertByStart(s[1..], a);
      assert InsertByStart(s, a) == [s[0]] + r;
    }
  }

  /** The sorted list is ascending in start frame and holds exactly the input's elements. */
  lemma {:induction false} SortByStartProperties(s: seq<Action>)
    ensures SortedByStart(SortByStart(s))
    ensures multiset(SortByStart(s)) == multiset(s)
    ensures |SortByStart(s)| == |s|
  {
    if s != [] {
      var init := s[..|s| - 1];
      SortByStartProperties(init);
      InsertByStartProperties(SortByStart(init), s[|s| - 1]);
      assert s == init + [s[|s| - 1]];
    }
  }

  /** Inserting an element whose start is not earlier than any other appends it. */
  lemma {:induction false} InsertLast(s: seq<Action>, a: Action)
    requires forall x :: x in s ==> x.startFrame <= a.startFrame
    ensures InsertByStart(s, a) == s + [a]
  {
    if s != [] {
      InsertLast(s[1..], a);
    }
  }

  /** Sorting a sorted list changes nothing: the sort is stable. */
  lemma {:induction false} SortSorted(s: seq<Action>)
    requires SortedByStart(s)
    ensures SortByStart(s) == s
  {
    if s != [] {
      var init := s[..|s| - 1];
      SortSorted(init);
      InsertLast(init, s[|s| - 1]);
      assert init + [s[|s| - 1]] == s;
    }
  }

  /** The number of leading elements that start no later than `start`. */
  function CountNotAfter(s: seq<Action>, start: int): (k: nat)
    ensures k <= |s|
  {
    if s == [] || s[0].startFrame > start then 0 else 1 + CountNotAfter(s[1..], start)
  }

  /**
   * Adding one action to a sorted list places it after every action that starts no later
   * (earlier entries with an equal start stay in front) and before every action that starts later.
   */
  lemma {:induction false} AddToSorted(s: seq<Action>, a: Action)
    requires SortedByStart(s)
    ensures var k := CountNotAfter(s, a.startFrame);
      SortByStart(s + [a]) == s[..k] + [a] + s[k..] &&
      (forall i :: 0 <= i < k ==> s[i].startFrame <= a.startFrame) &&
      (forall i :: k <= i < |s| ==> s[i].startFrame > a.startFrame)
  {
    assert (s + [a])[..|s|] == s;
    SortSorted(s);
    InsertAt(s, a);
  }

  lemma {:induction false} InsertAt(s: seq<Action>, a: Action)
    requires SortedByStart(s)
    ensures var k := CountNotAfter(s, a.startFrame);
      InsertByStart(s, a) == s[..k] + [a] + s[k..] &&
      (forall i :: 0 <= i < k ==> s[i].startFrame <= a.startFrame) &&
      (forall i :: k <= i < |s| ==> s[i].startFrame > a.startFrame)
  {
    if s != [] && a.startFrame >= s[0].startFrame {
      InsertAt(s[1..], a);
      var k := CountNotAfter(s, a.startFrame);
      assert s[..k] == [s[0]] + s[1..][..k - 1];
      assert s[k..] == s[1..][k - 1..];
    }
  }

  /** `s[..i] + s[i+1..]` when `i` is an index of `s`, otherwise `s` (JavaScript `filter((_, j) => j !== i)`). */
  function RemoveIndex<T>(s: seq<T>, i: int): (r: seq<T>)
    ensures 0 <= i < |s| ==>
      |r| == |s| - 1 &&
      (forall j :: 0 <= j < i ==> r[j] == s[j]) &&
      (forall j :: i <= j < |r| ==> r[j] == s[j + 1])
    ensures !(0 <= i < |s|) ==> r == s
  {
    if 0 <= i < |s| then s[..i] + s[i + 1..] else s
  }
}

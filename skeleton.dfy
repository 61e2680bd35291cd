// Which skeleton connections the pose overlays draw: a connection is drawn only when
// both of its endpoint keypoints are present in the frame.
module Skeleton {
  import Dict
  import opened Annotation

  type Connection = (string, string)

  /** The connections of `table` whose two endpoints are both present, in table order. */
  function DrawnEdges(table: seq<Connection>, kps: Keypoints): (r: seq<Connection>)
    ensures |r| <= |table|
    ensures forall e :: e in r <==> e in table && Dict.HasKey(kps, e.0) && Dict.HasKey(kps, e.1)
  {
    if table == [] then []
    else if Dict.HasKey(kps, table[0].0) && Dict.HasKey(kps, table[0].1) then [table[0]] + DrawnEdges(table[1..], kps)
    else DrawnEdges(table[1..], kps)
  }

  /** With every keypoint present, the whole table is drawn; the filter keeps table order. */
  lemma {:induction false} DrawnEdgesComplete(table: seq<Connection>, kps: Keypoints)
    requires forall e :: e in table ==> Dict.HasKey(kps, e.0) && Dict.HasKey(kps, e.1)
    ensures DrawnEdges(table, kps) == table
  {
    if table != [] {
      DrawnEdgesComplete(table[1..], kps);
    }
  }

  /** Extending the table by one connection extends the drawn list by it exactly when it is drawable. */
  lemma {:induction false} DrawnEdgesSnoc(table: seq<Connection>, e: Connection, kps: Keypoints)
    ensures DrawnEdges(table + [e], kps) ==
      DrawnEdges(table, kps) + (if Dict.HasKey(kps, e.0) && Dict.HasKey(kps, e.1) then [e] else [])
  {
    if table != [] {
      assert (table + [e])[1..] == table[1..] + [e];
      DrawnEdgesSnoc(table[1..], e, kps);
    }
  }

  /** The drawn list of a table prefix one longer: the same list, extended by the next connection if it is drawable. */
  lemma DrawnEdgesPrefix(table: seq<Connection>, i: int, kps: Keypoints)
    requires 0 <= i < |table|
    ensures DrawnEdges(table[..i + 1], kps) ==
      DrawnEdges(table[..i], kps) + (if Dict.HasKey(kps, table[i].0) && Dict.HasKey(kps, table[i].1) then [table[i]] else [])
  {
    assert table[..i + 1] == table[..i] + [table[i]];
    DrawnEdgesSnoc(table[..i], table[i], kps);
  }
}

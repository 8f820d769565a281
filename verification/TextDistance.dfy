/** The edit distance that the draft log records, `_edit_distance` in
    app/modules/drafts/services/review.py.

    The code fills a table of prefix distances two rows at a time. Its meaning is given here
    independently of any table: the least number of single-character insertions, deletions and
    replacements that turn one text into the other. */
module TextDistance {

  // ----- What the number means -----

  /** One edit of one character, at a position of the text it is applied to. */
  datatype Edit<T> =
    | Insert(at: nat, character: T)
    | Delete(at: nat)
    | Replace(at: nat, character: T)

  predicate Applicable<T>(e: Edit<T>, s: seq<T>) {
    match e
    case Insert(at, _) => at <= |s|
    case Delete(at) => at < |s|
    case Replace(at, _) => at < |s|
  }

  function Perform<T>(e: Edit<T>, s: seq<T>): seq<T>
    requires Applicable(e, s)
  {
    match e
    case Insert(at, c) => s[..at] + [c] + s[at..]
    case Delete(at) => s[..at] + s[at + 1..]
    case Replace(at, c) => s[at := c]
  }

  /** The edits, applied one after the other, turn s into t. */
  predicate Rewrites<T(==)>(edits: seq<Edit<T>>, s: seq<T>, t: seq<T>) {
    if edits == [] then s == t
    else Applicable(edits[0], s) && Rewrites(edits[1..], Perform(edits[0], s), t)
  }

  ghost predicate IsLeastEditCount<T(!new)>(n: nat, s: seq<T>, t: seq<T>) {
    && (exists edits: seq<Edit<T>> :: Rewrites(edits, s, t) && |edits| == n)
    && (forall edits: seq<Edit<T>> :: Rewrites(edits, s, t) ==> n <= |edits|)
  }

  // ----- The table -----

  function Min3(x: nat, y: nat, z: nat): nat {
    if x <= y && x <= z then x else if y <= z then y else z
  }

  function Change<T(==)>(a: seq<T>, b: seq<T>, i: nat, j: nat): nat
    requires 0 < i <= |a| && 0 < j <= |b|
  {
    if a[i - 1] != b[j - 1] then 1 else 0
  }

  /** The entry of the table for the first i characters of a and the first j of b. */
  function Cell<T(==)>(a: seq<T>, b: seq<T>, i: nat, j: nat): nat
    requires i <= |a| && j <= |b|
  {
    if i == 0 then j
    else if j == 0 then i
    else Min3(Cell(a, b, i, j - 1) + 1,
              Cell(a, b, i - 1, j) + 1,
              Cell(a, b, i - 1, j - 1) + Change(a, b, i, j))
  }

  function Distance<T(==)>(a: seq<T>, b: seq<T>): nat {
    Cell(a, b, |a|, |b|)
  }

  /** The two-row loop, with the swap that makes the rows as short as the shorter text. */
  method EditDistance(before: string, after: string) returns (distance: nat)
    ensures IsLeastEditCount(distance, before, after)
    ensures distance == Distance(before, after)
  {
    var b, a := before, after;
    if |b| < |a| {
      b, a := a, b;
    }
    hide Cell;
    FirstEntries(b, a);
    var previous := seq(|a| + 1, j => j);
    for i := 1 to |b| + 1
      invariant |previous| == |a| + 1
      invariant forall j :: 0 <= j <= |a| ==> previous[j] == Cell(b, a, i - 1, j)
    {
      var current := [i];
      for j := 1 to |a| + 1
        invariant |current| == j
        invariant forall k :: 0 <= k < j ==> current[k] == Cell(b, a, i, k)
      {
        CellRecurrence(b, a, i, j);
        var substitution := previous[j - 1] + if b[i - 1] != a[j - 1] then 1 else 0;
        current := current + [Min3(current[|current| - 1] + 1, previous[j] + 1, substitution)];
      }
      previous := current;
    }
    distance := previous[|previous| - 1];
    CellSymmetric(before, after, |before|, |after|);
    assert distance == Distance(before, after);
    DistanceIsLeast(before, after);
  }

  lemma FirstEntries<T>(a: seq<T>, b: seq<T>)
    ensures forall j :: 0 <= j <= |b| ==> Cell(a, b, 0, j) == j
    ensures forall i :: 0 <= i <= |a| ==> Cell(a, b, i, 0) == i
  {
  }

  lemma CellRecurrence<T>(a: seq<T>, b: seq<T>, i: nat, j: nat)
    requires 0 < i <= |a| && 0 < j <= |b|
    ensures Cell(a, b, i, j) == Min3(Cell(a, b, i, j - 1) + 1,
                                     Cell(a, b, i - 1, j) + 1,
                                     Cell(a, b, i - 1, j - 1) + Change(a, b, i, j))
  {
  }

  // ----- The table computes the least number of edits -----

  lemma {:induction false} CellSymmetric<T>(a: seq<T>, b: seq<T>, i: nat, j: nat)
    requires i <= |a| && j <= |b|
    ensures Cell(a, b, i, j) == Cell(b, a, j, i)
  {
    hide Cell;
    FirstEntries(a, b);
    FirstEntries(b, a);
    if i > 0 && j > 0 {
      CellRecurrence(a, b, i, j);
      CellRecurrence(b, a, j, i);
      CellSymmetric(a, b, i, j - 1);
      CellSymmetric(a, b, i - 1, j);
      CellSymmetric(a, b, i - 1, j - 1);
    }
  }

  lemma {:induction false} CellZero<T>(a: seq<T>, b: seq<T>, i: nat, j: nat)
    requires i <= |a| && j <= |b|
    ensures Cell(a, b, i, j) == 0 <==> a[..i] == b[..j]
  {
    if i > 0 && j > 0 {
      CellZero(a, b, i - 1, j - 1);
      assert a[..i] == a[..i - 1] + [a[i - 1]];
      assert b[..j] == b[..j - 1] + [b[j - 1]];
    }
  }

  /** An entry is at most the cost of one edit above each of its neighbours, and it is exactly that
      above one of them. */
  lemma CellNeighbours<T>(a: seq<T>, b: seq<T>, i: nat, j: nat)
    requires i <= |a| && j <= |b|
    ensures i == 0 && j == 0 ==> Cell(a, b, i, j) == 0
    ensures i > 0 ==> Cell(a, b, i, j) <= Cell(a, b, i - 1, j) + 1
    ensures j > 0 ==> Cell(a, b, i, j) <= Cell(a, b, i, j - 1) + 1
    ensures i > 0 && j > 0 ==> Cell(a, b, i, j) <= Cell(a, b, i - 1, j - 1) + Change(a, b, i, j)
    ensures i > 0 || j > 0 ==>
      || (i > 0 && Cell(a, b, i, j) == Cell(a, b, i - 1, j) + 1)
      || (j > 0 && Cell(a, b, i, j) == Cell(a, b, i, j - 1) + 1)
      || (i > 0 && j > 0 && Cell(a, b, i, j) == Cell(a, b, i - 1, j - 1) + Change(a, b, i, j))
  {
  }

  lemma {:induction false} CellTriangle<T>(a: seq<T>, b: seq<T>, c: seq<T>, i: nat, j: nat, k: nat)
    requires i <= |a| && j <= |b| && k <= |c|
    ensures Cell(a, c, i, k) <= Cell(a, b, i, j) + Cell(b, c, j, k)
    decreases i + j + k
  {
    hide Cell;
    CellNeighbours(a, b, i, j);
    CellNeighbours(b, c, j, k);
    CellNeighbours(a, c, i, k);
    if i > 0 { CellTriangle(a, b, c, i - 1, j, k); }
    if k > 0 { CellTriangle(a, b, c, i, j, k - 1); }
    if j > 0 { CellTriangle(a, b, c, i, j - 1, k); }
    if j > 0 && i > 0 { CellTriangle(a, b, c, i - 1, j - 1, k); }
    if j > 0 && k > 0 { CellTriangle(a, b, c, i, j - 1, k - 1); }
    if i > 0 && j > 0 && k > 0 { CellTriangle(a, b, c, i - 1, j - 1, k - 1); }
  }

  lemma RewritesFirst<T>(e: Edit<T>, tail: seq<Edit<T>>, s: seq<T>, middle: seq<T>, t: seq<T>)
    requires Applicable(e, s) && Perform(e, s) == middle && Rewrites(tail, middle, t)
    ensures Rewrites([e] + tail, s, t)
  {
    assert ([e] + tail)[1..] == tail;
  }

  /** A script of exactly Cell(a, b, i, j) edits. It works from the end of the two prefixes, so it
      leaves any text after them alone. */
  lemma {:induction false} CellScript<T>(a: seq<T>, b: seq<T>, i: nat, j: nat, rest: seq<T>)
    returns (edits: seq<Edit<T>>)
    requires i <= |a| && j <= |b|
    ensures |edits| == Cell(a, b, i, j)
    ensures Rewrites(edits, a[..i] + rest, b[..j] + rest)
    decreases i + j
  {
    hide Cell, Rewrites;
    CellNeighbours(a, b, i, j);
    var text, goal := a[..i] + rest, b[..j] + rest;
    if i == 0 && j == 0 {
      edits := NoEdits(text);
    } else if i > 0 && Cell(a, b, i, j) == Cell(a, b, i - 1, j) + 1 {
      var middle := a[..i - 1] + rest;
      assert Perform(Delete(i - 1), text) == middle;
      var tail := CellScript(a, b, i - 1, j, rest);
      RewritesFirst(Delete(i - 1), tail, text, middle, goal);
      edits := [Delete(i - 1)] + tail;
    } else {
      var c := b[j - 1];
      assert goal == b[..j - 1] + ([c] + rest);
      if Cell(a, b, i, j) == Cell(a, b, i, j - 1) + 1 {
        var middle := a[..i] + ([c] + rest);
        assert Perform(Insert(i, c), text) == middle;
        var tail := CellScript(a, b, i, j - 1, [c] + rest);
        RewritesFirst(Insert(i, c), tail, text, middle, goal);
        edits := [Insert(i, c)] + tail;
      } else {
        var middle := a[..i - 1] + ([c] + rest);
        var tail := CellScript(a, b, i - 1, j - 1, [c] + rest);
        if a[i - 1] == c {
          assert text == middle;
          edits := tail;
        } else {
          assert Perform(Replace(i - 1, c), text) == middle;
          RewritesFirst(Replace(i - 1, c), tail, text, middle, goal);
          edits := [Replace(i - 1, c)] + tail;
        }
      }
    }
  }

  lemma NoEdits<T>(s: seq<T>) returns (edits: seq<Edit<T>>)
    ensures edits == [] && Rewrites(edits, s, s)
  {
    edits := [];
  }

  lemma {:induction false} DeletionCell<T>(s: seq<T>, t: seq<T>, at: nat, k: nat)
    requires at < |s| && t == Perform(Delete(at), s)
    requires at <= k < |s|
    ensures Cell(s, t, k + 1, k) <= 1
  {
    if k == at {
      CellZero(s, t, at, at);
      assert s[..at] == t[..at];
    } else {
      DeletionCell(s, t, at, k - 1);
    }
  }

  lemma {:induction false} ReplacementCell<T>(s: seq<T>, t: seq<T>, at: nat, c: T, k: nat)
    requires at < |s| && t == s[at := c]
    requires at < k <= |s|
    ensures Cell(s, t, k, k) <= 1
  {
    if k == at + 1 {
      CellZero(s, t, at, at);
      assert s[..at] == t[..at];
    } else {
      ReplacementCell(s, t, at, c, k - 1);
    }
  }

  lemma OneEditIsNear<T>(e: Edit<T>, s: seq<T>)
    requires Applicable(e, s)
    ensures Distance(s, Perform(e, s)) <= 1
  {
    var t := Perform(e, s);
    match e
    case Delete(at) =>
      DeletionCell(s, t, at, |s| - 1);
    case Replace(at, c) =>
      ReplacementCell(s, t, at, c, |s|);
    case Insert(at, c) =>
      assert Perform(Delete(at), t) == s;
      DeletionCell(t, s, at, |t| - 1);
      CellSymmetric(s, t, |s|, |t|);
  }

  lemma {:induction false} ScriptIsLongEnough<T>(edits: seq<Edit<T>>, s: seq<T>, t: seq<T>)
    requires Rewrites(edits, s, t)
    ensures Distance(s, t) <= |edits|
  {
    if edits == [] {
      CellZero(s, t, |s|, |t|);
    } else {
      var u := Perform(edits[0], s);
      OneEditIsNear(edits[0], s);
      ScriptIsLongEnough(edits[1..], u, t);
      CellTriangle(s, u, t, |s|, |u|, |t|);
    }
  }

  lemma DistanceIsLeast<T(!new)>(s: seq<T>, t: seq<T>)
    ensures IsLeastEditCount(Distance(s, t), s, t)
  {
    var edits := CellScript(s, t, |s|, |t|, []);
    assert s[..|s|] + [] == s && t[..|t|] + [] == t;
    forall script: seq<Edit<T>> | Rewrites(script, s, t)
      ensures Distance(s, t) <= |script|
    {
      ScriptIsLongEnough(script, s, t);
    }
  }

  /** The computed number is a metric on texts. */
  lemma DistanceIsMetric<T>(s: seq<T>, t: seq<T>, u: seq<T>)
    ensures Distance(s, t) == 0 <==> s == t
    ensures Distance(s, t) == Distance(t, s)
    ensures Distance(s, u) <= Distance(s, t) + Distance(t, u)
  {
    CellZero(s, t, |s|, |t|);
    assert s[..|s|] == s && t[..|t|] == t;
    CellSymmetric(s, t, |s|, |t|);
    CellTriangle(s, t, u, |s|, |t|, |u|);
  }
}

/** In-place removal of nodes at repeated locations, keyed by a hash of the path. */
module Deduplicate {
  import opened Common
  import opened Json
  import opened Syntax
  import opened Evaluate
  import opened NormalizedPaths
  import opened Locations

  /** The zero value that trimmed slots are cleared to. */
  const ZERO_NODE: Node := Node([], Null)

  /** No earlier node of `s` has the path of the node at `i`. */
  predicate IsFirst(s: seq<Node>, i: nat)
    requires i < |s|
  {
    forall k | 0 <= k < i :: s[k].path != s[i].path
  }

  /** The nodes of `s` that are the first at their path, in order. */
  function FirstOccurrences(s: seq<Node>): seq<Node> {
    if s == [] then []
    else
      var n := |s| - 1;
      if IsFirst(s, n) then FirstOccurrences(s[..n]) + [s[n]] else FirstOccurrences(s[..n])
  }

  predicate HasPath(s: seq<Node>, p: Path) {
    exists k | 0 <= k < |s| :: s[k].path == p
  }

  lemma {:induction false} FirstOccurrencesCover(s: seq<Node>, p: Path)
    ensures HasPath(FirstOccurrences(s), p) <==> HasPath(s, p)
    ensures |FirstOccurrences(s)| <= |s|
  {
    if s != [] {
      var n := |s| - 1;
      var front, r := s[..n], FirstOccurrences(s[..n]);
      FirstOccurrencesCover(front, p);
      FirstOccurrencesCover(front, s[n].path);
      assert HasPath(s, p) <==> HasPath(front, p) || s[n].path == p by {
        if HasPath(front, p) {
          var k :| 0 <= k < |front| && front[k].path == p;
          assert s[k].path == p;
        }
        if HasPath(s, p) && s[n].path != p {
          var k :| 0 <= k < |s| && s[k].path == p;
          assert front[k].path == p;
        }
      }
      if IsFirst(s, n) {
        HasPathSnoc(r, s[n], p);
      } else {
        var k :| 0 <= k < n && s[k].path == s[n].path;
        assert front[k].path == s[n].path;
      }
    }
  }

  lemma HasPathSnoc(r: seq<Node>, n: Node, p: Path)
    ensures HasPath(r + [n], p) <==> HasPath(r, p) || n.path == p
  {
    if HasPath(r, p) {
      var k :| 0 <= k < |r| && r[k].path == p;
      assert (r + [n])[k].path == p;
    }
    if n.path == p {
      assert (r + [n])[|r|].path == p;
    }
  }

  /** The node at the end of `s` is first exactly when its path is not among the kept ones. */
  lemma FirstIfNew(s: seq<Node>, n: Node)
    ensures FirstOccurrences(s + [n])
            == if HasPath(FirstOccurrences(s), n.path) then FirstOccurrences(s) else FirstOccurrences(s) + [n]
  {
    FirstOccurrencesCover(s, n.path);
    assert (s + [n])[..|s|] == s;
    if HasPath(s, n.path) {
      var k :| 0 <= k < |s| && s[k].path == n.path;
      assert (s + [n])[k].path == n.path;
    } else {
      forall k | 0 <= k < |s|
        ensures (s + [n])[k].path != n.path
      {
        assert s[k].path != n.path;
      }
    }
  }

  lemma {:induction false} FirstOccurrencesDistinct(s: seq<Node>)
    ensures Distinct(FirstOccurrences(s))
  {
    if s != [] {
      var n := |s| - 1;
      FirstOccurrencesDistinct(s[..n]);
      FirstIfNew(s[..n], s[n]);
      assert s == s[..n] + [s[n]];
    }
  }

  /** A list without repeated locations is left as it is. */
  lemma {:induction false} DistinctUnchanged(s: seq<Node>)
    requires Distinct(s)
    ensures FirstOccurrences(s) == s
  {
    if s != [] {
      DistinctUnchanged(s[..|s| - 1]);
    }
  }

  /** Removing duplicates twice is removing them once. */
  lemma DeduplicateIdempotent(s: seq<Node>)
    ensures FirstOccurrences(FirstOccurrences(s)) == FirstOccurrences(s)
  {
    FirstOccurrencesDistinct(s);
    DistinctUnchanged(FirstOccurrences(s));
  }

  /** Deduplicating leaves the result of a query unchanged when it cannot select a location twice. */
  lemma DeduplicateKeepsDistinctResults(q: PathQuery, root: Json, call: Callbacks)
    requires OneSelectorEach(q.segments) && AtMostOneDescendant(q.segments)
    ensures var found := Select(q, root, root, call); FirstOccurrences(found) == found
  {
    NoDuplicateLocations(q, root, root, call);
    DistinctUnchanged(Select(q, root, root, call));
  }

  // ---- The two-level index of kept nodes

  type Hasher = Path -> int

  /** Every index filed under a hash is a kept node with that hash. */
  ghost predicate Filed(a: seq<Node>, hash: Hasher, seen: map<int, nat>, collisions: map<int, seq<nat>>) {
    && (forall h | h in seen :: seen[h] < |a| && hash(a[seen[h]].path) == h)
    && (forall h | h in collisions :: h in seen)
    && (forall h, i | h in collisions && 0 <= i < |collisions[h]| :: collisions[h][i] < |a|)
  }

  /** Every kept node is filed under its hash. */
  ghost predicate Indexed(a: seq<Node>, hash: Hasher, seen: map<int, nat>, collisions: map<int, seq<nat>>) {
    forall k | 0 <= k < |a| ::
      var h := hash(a[k].path); h in seen && (seen[h] == k || (h in collisions && k in collisions[h]))
  }

  predicate EntriesOf(h: int, collisions: map<int, seq<nat>>, entries: seq<nat>) {
    entries == if h in collisions then collisions[h] else []
  }

  lemma FiledWithin(a: seq<Node>, hash: Hasher, seen: map<int, nat>, collisions: map<int, seq<nat>>, h: int,
          entries: seq<nat>)
    requires Filed(a, hash, seen, collisions) && h in seen && EntriesOf(h, collisions, entries)
    ensures seen[h] < |a| && forall i | 0 <= i < |entries| :: entries[i] < |a|
  {
  }

  /** A path that is neither the one recorded under its hash nor among the collisions is nowhere. */
  lemma NotFiled(a: seq<Node>, p: Path, hash: Hasher, seen: map<int, nat>, collisions: map<int, seq<nat>>,
      entries: seq<nat>)
    requires Filed(a, hash, seen, collisions) && Indexed(a, hash, seen, collisions)
    requires hash(p) in seen && EntriesOf(hash(p), collisions, entries) && a[seen[hash(p)]].path != p
    requires forall i | 0 <= i < |entries| :: entries[i] < |a| && a[entries[i]].path != p
    ensures !HasPath(a, p)
  {
  }

  lemma NewHash(a: seq<Node>, p: Path, hash: Hasher, seen: map<int, nat>, collisions: map<int, seq<nat>>)
    requires Indexed(a, hash, seen, collisions) && hash(p) !in seen
    ensures !HasPath(a, p)
  {
  }

  lemma HasPathAt(a: seq<Node>, k: nat)
    requires k < |a|
    ensures HasPath(a, a[k].path)
  {
  }

  /** Look the path up under its hash: first the recorded node, then its collisions. */
  method IsDuplicate(l: array<Node>, count: nat, p: Path, hash: Hasher, seen: map<int, nat>,
      collisions: map<int, seq<nat>>)
    returns (duplicate: bool)
    requires count <= l.Length
    requires Filed(l[..count], hash, seen, collisions) && Indexed(l[..count], hash, seen, collisions)
    requires hash(p) in seen
    ensures duplicate <==> HasPath(l[..count], p)
  {
    hide Filed, Indexed, HasPath;
    var h := hash(p);
    var entries := if h in collisions then collisions[h] else [];
    FiledWithin(l[..count], hash, seen, collisions, h, entries);
    var c := NormalizedPaths.Compare(p, l[seen[h]].path);
    if c == 0 {
      HasPathAt(l[..count], seen[h]);
      return true;
    }
    var i := 0;
    while i < |entries|
      invariant 0 <= i <= |entries|
      invariant forall k | 0 <= k < i :: l[..count][entries[k]].path != p
    {
      c := NormalizedPaths.Compare(p, l[entries[i]].path);
      if c == 0 {
        HasPathAt(l[..count], entries[i]);
        return true;
      }
      i := i + 1;
    }
    NotFiled(l[..count], p, hash, seen, collisions, entries);
    return false;
  }

  lemma NothingFiled(hash: Hasher)
    ensures Filed([], hash, map[], map[]) && Indexed([], hash, map[], map[]) && FirstOccurrences([]) == []
  {
  }

  lemma FileFirst(a: seq<Node>, n: Node, hash: Hasher, seen: map<int, nat>, collisions: map<int, seq<nat>>)
    requires Filed(a, hash, seen, collisions) && Indexed(a, hash, seen, collisions) && hash(n.path) !in seen
    ensures Filed(a + [n], hash, seen[hash(n.path) := |a|], collisions)
    ensures Indexed(a + [n], hash, seen[hash(n.path) := |a|], collisions)
  {
  }

  lemma FileCollision(a: seq<Node>, n: Node, hash: Hasher, seen: map<int, nat>, collisions: map<int, seq<nat>>,
          filed: seq<nat>)
    requires Filed(a, hash, seen, collisions) && Indexed(a, hash, seen, collisions) && hash(n.path) in seen
    requires filed == if hash(n.path) in collisions then collisions[hash(n.path)] else []
    ensures Filed(a + [n], hash, seen, collisions[hash(n.path) := filed + [|a|]])
    ensures Indexed(a + [n], hash, seen, collisions[hash(n.path) := filed + [|a|]])
  {
    var more := collisions[hash(n.path) := filed + [|a|]];
    forall k | 0 <= k < |a + [n]|
      ensures var h := hash((a + [n])[k].path); h in seen && (seen[h] == k || (h in more && k in more[h]))
    {
      if k < |a| {
        assert (a + [n])[k] == a[k];
      } else {
        assert more[hash(n.path)][|filed|] == |a|;
      }
    }
  }

  /**
   * Compact the list onto its own front, whatever the hash function: the kept nodes are exactly the first
   * occurrences in order, and every slot behind them is cleared.
   */
  method DeduplicateWithHasher(l: array<Node>, hash: Hasher) returns (count: nat)
    modifies l
    ensures count <= l.Length && l[..count] == FirstOccurrences(old(l[..]))
    ensures forall k | count <= k < l.Length :: l[k] == ZERO_NODE
  {
    hide Filed, Indexed, HasPath, FirstOccurrences;
    ghost var s := l[..];
    NothingFiled(hash);
    assert l[..0] == [] && s[..0] == [];
    if l.Length <= 1 {
      DistinctUnchanged(s);
      return l.Length;
    }
    var seen: map<int, nat>, collisions: map<int, seq<nat>> := map[], map[];
    count := 0;
    var i := 0;
    while i < l.Length
      invariant count <= i <= l.Length
      invariant l[..count] == FirstOccurrences(s[..i])
      invariant l[i..] == s[i..]
      invariant Filed(l[..count], hash, seen, collisions) && Indexed(l[..count], hash, seen, collisions)
    {
      var n := l[i];
      assert n == s[i] && s[..i + 1] == s[..i] + [n];
      FirstIfNew(s[..i], n);
      var h := hash(n.path);
      var duplicate := false;
      if h in seen {
        duplicate := IsDuplicate(l, count, n.path, hash, seen, collisions);
      } else {
        NewHash(l[..count], n.path, hash, seen, collisions);
      }
      if !duplicate {
        if h !in seen {
          FileFirst(l[..count], n, hash, seen, collisions);
          seen := seen[h := count];
        } else {
          var filed := if h in collisions then collisions[h] else [];
          FileCollision(l[..count], n, hash, seen, collisions, filed);
          collisions := collisions[h := filed + [count]];
        }
        Append(l, count, i, n);
        count := count + 1;
      }
      assert l[i + 1..] == s[i + 1..] by {
        assert s[i..][1..] == s[i + 1..];
      }
      i := i + 1;
    }
    assert s[..i] == s;
    ClearFrom(l, count);
  }

  /** Write to the slot behind the kept nodes; slots not read yet keep their nodes. */
  method Append(l: array<Node>, count: nat, i: nat, n: Node)
    requires count <= i < l.Length
    modifies l
    ensures l[..count + 1] == old(l[..count]) + [n]
    ensures l[i + 1..] == old(l[i + 1..])
  {
    l[count] := n;
  }

  method ClearFrom(l: array<Node>, count: nat)
    requires count <= l.Length
    modifies l
    ensures l[..count] == old(l[..count])
    ensures forall k | count <= k < l.Length :: l[k] == ZERO_NODE
  {
    var k := count;
    while k < l.Length
      invariant count <= k <= l.Length
      invariant l[..count] == old(l[..count])
      invariant forall x | count <= x < k :: l[x] == ZERO_NODE
    {
      l[k] := ZERO_NODE;
      k := k + 1;
    }
  }
}

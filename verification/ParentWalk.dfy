/**
 * The walk up a parent-pointer table that both the supervisor check and the
 * organization check make, compared with the absence of cycles.
 */
module ParentWalk {
  import opened Common

  /** Row `i` points at its parent's row, if it has one. */
  type Graph = seq<Option<nat>>

  ghost predicate Closed(g: Graph) {
    forall i :: 0 <= i < |g| && g[i].Some? ==> g[i].value < |g|
  }

  /** The row reached from `x` after `k` links, or none once a root was left. */
  ghost function Up(g: Graph, x: Option<nat>, k: nat): (r: Option<nat>)
    requires Closed(g) && (x.Some? ==> x.value < |g|)
    ensures r.Some? ==> r.value < |g|
  {
    if k == 0 then x
    else
      var y := Up(g, x, k - 1);
      if y.None? then None else g[y.value]
  }

  /** No row reaches itself by one or more links. */
  ghost predicate Acyclic(g: Graph)
    requires Closed(g)
  {
    forall i: nat, k: nat :: i < |g| && k > 0 ==> Up(g, Some(i), k) != Some(i)
  }

  /** Climbing from `start` leaves the table at a root without meeting `self`. */
  ghost predicate Clear(g: Graph, self: Option<nat>, start: nat)
    requires Closed(g) && start < |g|
  {
    exists k: nat :: Leaves(g, self, start, k)
  }

  ghost predicate Leaves(g: Graph, self: Option<nat>, start: nat, k: nat)
    requires Closed(g) && start < |g|
  {
    && Up(g, Some(start), k).None?
    && forall j: nat :: j < k ==> Up(g, Some(start), j).Some? && Up(g, Some(start), j) != self
  }

  /** The rows of a table of the given size. */
  ghost function Rows(n: nat): (rows: set<nat>)
    ensures |rows| == n
    ensures forall i: nat :: i in rows <==> i < n
  {
    if n == 0 then {} else Rows(n - 1) + {n - 1}
  }

  /** The climb from `start` meets row `y` within its first `k` rows. */
  ghost predicate Passed(g: Graph, start: nat, k: nat, y: nat)
    requires Closed(g) && start < |g|
  {
    y < |g| && exists j: nat :: j < k && Up(g, Some(start), j) == Some(y)
  }

  // ----- climbing ----------------------------------------------------------

  lemma {:induction false} UpAdds(g: Graph, x: Option<nat>, j: nat, k: nat)
    requires Closed(g) && (x.Some? ==> x.value < |g|)
    ensures Up(g, Up(g, x, j), k) == Up(g, x, j + k)
  {
    if k > 0 { UpAdds(g, x, j, k - 1); }
  }

  lemma {:induction false} NoneIsFinal(g: Graph, x: Option<nat>, j: nat, k: nat)
    requires Closed(g) && (x.Some? ==> x.value < |g|)
    requires j <= k && Up(g, x, j).None?
    ensures Up(g, x, k).None?
    decreases k - j
  {
    if j < k { NoneIsFinal(g, x, j + 1, k); }
  }

  /** A climb that comes back to a row never ends. */
  lemma {:induction false} LoopNeverEnds(g: Graph, x: nat, period: nat, k: nat)
    requires Closed(g) && x < |g| && period > 0 && Up(g, Some(x), period) == Some(x)
    ensures Up(g, Some(x), k).Some?
    decreases k
  {
    if k < period {
      if Up(g, Some(x), k).None? { NoneIsFinal(g, Some(x), k, period); }
    } else {
      LoopNeverEnds(g, x, period, k - period);
      UpAdds(g, Some(x), period, k - period);
    }
  }

  /** On a finite table without cycles every climb reaches a root. */
  lemma AcyclicClimbEnds(g: Graph, start: nat)
    requires Closed(g) && Acyclic(g) && start < |g|
    ensures Up(g, Some(start), |g|).None?
  {
    if Up(g, Some(start), |g|).Some? {
      forall j: nat | j <= |g| ensures Up(g, Some(start), j).Some? {
        if Up(g, Some(start), j).None? { NoneIsFinal(g, Some(start), j, |g|); }
      }
      var seen := DistinctClimb(g, start, |g| + 1);
      SubsetSize(seen, Rows(|g|));
      assert false;
    }
  }

  lemma {:induction false} DistinctClimb(g: Graph, start: nat, n: nat) returns (seen: set<nat>)
    requires Closed(g) && Acyclic(g) && start < |g|
    requires forall j: nat :: j < n ==> Up(g, Some(start), j).Some?
    ensures |seen| == n
    ensures forall y :: y in seen ==> Passed(g, start, n, y)
  {
    if n == 0 {
      seen := {};
    } else {
      var before := DistinctClimb(g, start, n - 1);
      var y := Up(g, Some(start), n - 1).value;
      if y in before {
        var j: nat :| j < n - 1 && Up(g, Some(start), j) == Some(y);
        UpAdds(g, Some(start), j, n - 1 - j);
        assert false;
      }
      seen := before + {y};
      forall z | z in seen ensures Passed(g, start, n, z) {
        if z in before {
          var j: nat :| j < n - 1 && Up(g, Some(start), j) == Some(z);
        } else {
          assert Up(g, Some(start), n - 1) == Some(z);
        }
      }
    }
  }

  lemma {:induction false} SubsetSize(a: set<nat>, b: set<nat>)
    requires a <= b
    ensures |a| <= |b|
    decreases a
  {
    if a != {} {
      var x :| x in a;
      SubsetSize(a - {x}, b - {x});
    }
  }

  // ----- what the walk decides ---------------------------------------------

  /** Redirecting `x` leaves every climb that avoids `x` as it was. */
  lemma {:induction false} RedirectKeepsClimb(g: Graph, x: nat, p: Option<nat>, start: nat, k: nat)
    requires Closed(g) && x < |g| && start < |g| && (p.Some? ==> p.value < |g|)
    requires forall j: nat :: j < k ==> Up(g, Some(start), j) != Some(x)
    ensures Closed(g[x := p]) && Up(g[x := p], Some(start), k) == Up(g, Some(start), k)
  {
    if k > 0 { RedirectKeepsClimb(g, x, p, start, k - 1); }
  }

  /** If the climb from the new parent is clear, the new pointer closes no cycle. */
  lemma ClearKeepsAcyclic(g: Graph, x: nat, start: nat)
    requires Closed(g) && Acyclic(g) && x < |g| && start < |g|
    requires Clear(g, Some(x), start)
    ensures Acyclic(g[x := Some(start)])
  {
    var g' := g[x := Some(start)];
    var n: nat :| Leaves(g, Some(x), start, n);
    RedirectKeepsClimb(g, x, Some(start), start, n);
    assert Up(g', Some(x), 1) == Some(start) by { assert Up(g', Some(x), 0) == Some(x); }
    UpAdds(g', Some(x), 1, n);
    forall i: nat, k: nat | i < |g'| && k > 0 ensures Up(g', Some(i), k) != Some(i) {
      if Up(g', Some(i), k) == Some(i) {
        NotOnCycle(g, g', x, i, k);
        var j: nat :| j < k && Up(g', Some(i), j) == Some(x);
        UpAdds(g', Some(i), j, k);
        UpAdds(g', Some(i), k, j);
        LoopNeverEnds(g', x, k, 1 + n);
        assert false;
      }
    }
  }

  /** A cycle of the redirected table passes through the redirected row. */
  lemma NotOnCycle(g: Graph, g': Graph, x: nat, i: nat, k: nat)
    requires Closed(g) && Closed(g') && Acyclic(g) && x < |g| && i < |g| && k > 0
    requires |g'| == |g| && g == g'[x := g[x]] && Up(g', Some(i), k) == Some(i)
    ensures exists j: nat :: j < k && Up(g', Some(i), j) == Some(x)
  {
    if forall j: nat :: j < k ==> Up(g', Some(i), j) != Some(x) {
      RedirectKeepsClimb(g', x, g[x], i, k);
      assert false;
    }
  }

  /** If the new pointer closes no cycle, the climb from the new parent was clear. */
  lemma AcyclicWasClear(g: Graph, x: nat, start: nat)
    requires Closed(g) && Acyclic(g) && x < |g| && start < |g|
    requires Acyclic(g[x := Some(start)])
    ensures Clear(g, Some(x), start)
  {
    AcyclicClimbEnds(g, start);
    var n := FirstExit(g, start, |g|);
    if exists j: nat :: j < n && Up(g, Some(start), j) == Some(x) {
      var j: nat :| j < n && Up(g, Some(start), j) == Some(x);
      var m := FirstMeeting(g, start, x, j);
      RedirectKeepsClimb(g, x, Some(start), start, m);
      var g' := g[x := Some(start)];
      assert Up(g', Some(x), 1) == Some(start) by { assert Up(g', Some(x), 0) == Some(x); }
      UpAdds(g', Some(x), 1, m);
      assert false;
    }
    assert Leaves(g, Some(x), start, n);
  }

  lemma {:induction false} FirstExit(g: Graph, start: nat, n: nat) returns (k: nat)
    requires Closed(g) && start < |g| && Up(g, Some(start), n).None?
    ensures k <= n && Up(g, Some(start), k).None?
    ensures forall j: nat :: j < k ==> Up(g, Some(start), j).Some?
  {
    if forall j: nat :: j < n ==> Up(g, Some(start), j).Some? {
      k := n;
    } else {
      var j: nat :| j < n && Up(g, Some(start), j).None?;
      k := FirstExit(g, start, j);
    }
  }

  lemma {:induction false} FirstMeeting(g: Graph, start: nat, x: nat, n: nat) returns (k: nat)
    requires Closed(g) && start < |g| && Up(g, Some(start), n) == Some(x)
    ensures k <= n && Up(g, Some(start), k) == Some(x)
    ensures forall j: nat :: j < k ==> Up(g, Some(start), j) != Some(x)
  {
    if forall j: nat :: j < n ==> Up(g, Some(start), j) != Some(x) {
      k := n;
    } else {
      var j: nat :| j < n && Up(g, Some(start), j) == Some(x);
      k := FirstMeeting(g, start, x, j);
    }
  }

  /** On an acyclic table the walk rejects exactly the assignments that would close a cycle. */
  lemma WalkIsExact(g: Graph, x: nat, start: nat)
    requires Closed(g) && Acyclic(g) && x < |g| && start < |g|
    ensures Closed(g[x := Some(start)])
    ensures Clear(g, Some(x), start) <==> Acyclic(g[x := Some(start)])
  {
    if Clear(g, Some(x), start) { ClearKeepsAcyclic(g, x, start); }
    if Acyclic(g[x := Some(start)]) { AcyclicWasClear(g, x, start); }
  }

  lemma RootKeepsAcyclic(g: Graph, x: nat)
    requires Closed(g) && Acyclic(g) && x < |g|
    ensures Closed(g[x := None]) && Acyclic(g[x := None])
  {
    var g' := g[x := None];
    assert Up(g', Some(x), 1).None? by { assert Up(g', Some(x), 0) == Some(x); }
    forall i: nat, k: nat | i < |g'| && k > 0 ensures Up(g', Some(i), k) != Some(i) {
      if Up(g', Some(i), k) == Some(i) {
        NotOnCycle(g, g', x, i, k);
        var j: nat :| j < k && Up(g', Some(i), j) == Some(x);
        UpAdds(g', Some(i), j, k);
        UpAdds(g', Some(i), k, j);
        LoopNeverEnds(g', x, k, 1);
        assert false;
      }
    }
  }

  /** A record with no key yet is never refused on an acyclic table, and adding it keeps the table acyclic. */
  lemma NewRowKeepsAcyclic(g: Graph, p: Option<nat>)
    requires Closed(g) && Acyclic(g) && (p.Some? ==> p.value < |g|)
    ensures p.Some? ==> Clear(g, None, p.value)
    ensures Closed(g + [p]) && Acyclic(g + [p])
  {
    var g' := g + [p];
    if p.Some? {
      AcyclicClimbEnds(g, p.value);
      var n := FirstExit(g, p.value, |g|);
      assert Leaves(g, None, p.value, n);
    }
    forall i: nat, k: nat | i < |g'| && k > 0 ensures Up(g', Some(i), k) != Some(i) {
      if i < |g| {
        PrefixKeepsClimb(g, p, i, k);
      } else if p.Some? {
        assert Up(g', Some(i), 1) == p by { assert Up(g', Some(i), 0) == Some(i); }
        UpAdds(g', Some(i), 1, k - 1);
        PrefixKeepsClimb(g, p, p.value, k - 1);
      } else {
        assert Up(g', Some(i), 1) == None by { assert Up(g', Some(i), 0) == Some(i); }
        NoneIsFinal(g', Some(i), 1, k);
      }
    }
  }

  lemma {:induction false} PrefixKeepsClimb(g: Graph, p: Option<nat>, start: nat, k: nat)
    requires Closed(g) && start < |g| && (p.Some? ==> p.value < |g|)
    ensures Closed(g + [p]) && Up(g + [p], Some(start), k) == Up(g, Some(start), k)
  {
    if k > 0 { PrefixKeepsClimb(g, p, start, k - 1); }
  }

  // ----- the loop ----------------------------------------------------------

  /** A climb that meets a row twice is not clear. */
  lemma RepeatIsNotClear(g: Graph, self: Option<nat>, start: nat, j: nat, k: nat)
    requires Closed(g) && start < |g| && j < k
    requires Up(g, Some(start), j).Some? && Up(g, Some(start), j) == Up(g, Some(start), k)
    ensures !Clear(g, self, start)
  {
    if Clear(g, self, start) {
      var n: nat :| Leaves(g, self, start, n);
      var y := Up(g, Some(start), j).value;
      UpAdds(g, Some(start), j, k - j);
      UpAdds(g, Some(start), j, n);
      LoopNeverEnds(g, y, k - j, n);
      NoneIsFinal(g, Some(start), n, j + n);
      assert false;
    }
  }

  /** The while loop of both `clean` methods; it ends on any table, cyclic or not. */
  method FindsCycle(g: Graph, self: Option<nat>, start: nat) returns (cycle: bool)
    requires Closed(g) && start < |g|
    ensures cycle <==> !Clear(g, self, start)
  {
    var ancestor := Some(start);
    var visited: set<nat> := {};
    ghost var k: nat := 0;
    while ancestor.Some?
      invariant ancestor == Up(g, Some(start), k)
      invariant forall y :: y in visited ==> Passed(g, start, k, y)
      invariant forall j: nat :: j < k ==> Up(g, Some(start), j).Some? && Up(g, Some(start), j) != self
      decreases Rows(|g|) - visited
    {
      var row := ancestor.value;
      if ancestor == self || row in visited {
        if row in visited {
          ghost var j: nat :| j < k && Up(g, Some(start), j) == Some(row);
          RepeatIsNotClear(g, self, start, j, k);
        } else {
          MeetingIsNotClear(g, self, start, k);
        }
        return true;
      }
      visited := visited + {row};
      ancestor := g[row];
      k := k + 1;
    }
    assert Leaves(g, self, start, k);
    cycle := false;
  }

  lemma MeetingIsNotClear(g: Graph, self: Option<nat>, start: nat, k: nat)
    requires Closed(g) && start < |g| && Up(g, Some(start), k).Some? && Up(g, Some(start), k) == self
    ensures !Clear(g, self, start)
  {
    if Clear(g, self, start) {
      var n: nat :| Leaves(g, self, start, n);
      if n <= k { NoneIsFinal(g, Some(start), n, k); }
    }
  }
}

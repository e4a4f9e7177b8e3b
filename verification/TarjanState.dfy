/** Tarjan's algorithm on values: the state it works on and what every step of it keeps.

    `active` is the set of functions whose call of `_tarjan` has not returned, `found` the components
    taken off the stack so far. */
module TarjanState {
  import opened CallGraph

  /** `Profile._TarjanData`. */
  datatype TarjanData = TarjanData(order: nat, lowlink: nat, onstack: bool)

  datatype State = State(g: Graph, order: nat, data: map<Id, TarjanData>, stack: seq<Id>, found: seq<set<Id>>)

  // ---- invariant ----

  ghost predicate Numbered(s: State)
  {
    && s.data.Keys <= s.g.Keys
    && (forall x :: x in s.data ==> s.data[x].order < s.order)
    && (forall x :: x in s.data ==> (s.data[x].onstack <==> x in s.stack))
    && (forall i :: 0 <= i < |s.stack| ==> s.stack[i] in s.data)
    && (forall i, j :: 0 <= i < j < |s.stack| ==> s.data[s.stack[i]].order < s.data[s.stack[j]].order)
  }

  /** A function that has been left has no call to an unvisited one. */
  ghost predicate LeftIsExplored(s: State, active: set<Id>)
  {
    forall x, i :: x in s.data && x in s.g && x !in active && 0 <= i < |s.g[x]| ==> s.g[x][i] in s.data
  }

  ghost predicate Done(s: State, x: Id) { x in s.data && x !in s.stack }

  ghost predicate DoneIsClosed(s: State)
  {
    forall x, i :: Done(s, x) && x in s.g && 0 <= i < |s.g[x]| ==> Done(s, s.g[x][i])
  }

  /** Every function on the stack reaches all above it. */
  ghost predicate ReachesUp(s: State)
  {
    forall i, j :: 0 <= i <= j < |s.stack| ==> Reach(s.g, s.stack[i], s.stack[j])
  }

  ghost predicate HasActiveBelow(s: State, active: set<Id>, i: nat)
    requires i < |s.stack|
  {
    exists j :: 0 <= j <= i && s.stack[j] in active && Reach(s.g, s.stack[i], s.stack[j])
  }

  /** Every function on the stack reaches an active one at or below it. */
  ghost predicate ReachesDown(s: State, active: set<Id>)
  {
    forall i :: 0 <= i < |s.stack| ==> HasActiveBelow(s, active, i)
  }

  /** A whole strongly connected component. */
  ghost predicate Component(g: Graph, c: set<Id>)
  {
    c != {} && c <= g.Keys && forall x, y :: x in c ==> (y in c <==> Mutual(g, x, y))
  }

  ghost predicate FoundOk(s: State)
  {
    && (forall k :: 0 <= k < |s.found| ==> Component(s.g, s.found[k]))
    && (forall k, x :: 0 <= k < |s.found| && x in s.found[k] ==> Done(s, x))
    && (forall x :: Done(s, x) ==> exists k :: 0 <= k < |s.found| && x in s.found[k])
  }

  ghost predicate Inv(s: State, active: set<Id>)
  {
    && Closed(s.g)
    && Numbered(s)
    && (forall x :: x in active ==> x in s.stack)
    && LeftIsExplored(s, active)
    && DoneIsClosed(s)
    && ReachesUp(s)
    && ReachesDown(s, active)
    && FoundOk(s)
  }

  ghost predicate AllReach(g: Graph, active: set<Id>, v: Id) { forall x :: x in active ==> Reach(g, x, v) }

  /** Position on the stack and number agree. */
  lemma OrderIndex(s: State, i: nat, j: nat)
    requires Numbered(s) && i < |s.stack| && j < |s.stack|
    ensures i < j <==> s.data[s.stack[i]].order < s.data[s.stack[j]].order
    ensures i == j <==> s.stack[i] == s.stack[j]
  {}

  // ---- entering a function ----

  function Enter(s: State, v: Id): State
  {
    s.(order := s.order + 1, data := s.data[v := TarjanData(s.order, s.order, true)], stack := s.stack + [v])
  }

  lemma EnterReaches(s: State, active: set<Id>, v: Id)
    requires Inv(s, active) && v in s.g && v !in s.data && AllReach(s.g, active, v)
    ensures ReachesUp(Enter(s, v)) && ReachesDown(Enter(s, v), active + {v})
  {
    var s1 := Enter(s, v);
    var n := |s.stack|;
    ReachSelf(s.g, v);
    forall i, j | 0 <= i <= j < |s1.stack| ensures Reach(s1.g, s1.stack[i], s1.stack[j]) {
      if j == n && i < n {
        assert HasActiveBelow(s, active, i);
        var a :| 0 <= a <= i && s.stack[a] in active && Reach(s.g, s.stack[i], s.stack[a]);
        ReachTransitive(s.g, s.stack[i], s.stack[a], v);
      }
    }
    forall i | 0 <= i < |s1.stack| ensures HasActiveBelow(s1, active + {v}, i) {
      if i < n {
        assert HasActiveBelow(s, active, i);
        var a :| 0 <= a <= i && s.stack[a] in active && Reach(s.g, s.stack[i], s.stack[a]);
        assert s1.stack[a] in active + {v} && Reach(s1.g, s1.stack[i], s1.stack[a]);
      } else {
        assert s1.stack[n] in active + {v} && Reach(s1.g, s1.stack[i], s1.stack[n]);
      }
    }
  }

  lemma EnterKeeps(s: State, active: set<Id>, v: Id)
    requires Inv(s, active) && v in s.g && v !in s.data && AllReach(s.g, active, v)
    ensures Inv(Enter(s, v), active + {v}) && AllReach(s.g, active + {v}, v)
  {
    var s1 := Enter(s, v);
    EnterReaches(s, active, v);
    ReachSelf(s.g, v);
    assert forall x :: x in s1.stack <==> x in s.stack || x == v;
    assert forall x :: Done(s1, x) <==> Done(s, x);
  }

  // ---- inside the loop over the calls of `v` ----

  /** An edge from `x` into the part of the stack below `pos` is accounted for in `v`'s lowlink. */
  ghost predicate Bounds(s: State, low: nat, pos: nat, y: Id)
  {
    forall j :: 0 <= j < pos && j < |s.stack| && s.stack[j] == y && y in s.data ==> low <= s.data[y].order
  }

  ghost predicate BoundsFrom(s: State, low: nat, pos: nat, x: Id, k: nat)
  {
    x in s.g && k <= |s.g[x]| && forall i :: 0 <= i < k ==> Bounds(s, low, pos, s.g[x][i])
  }

  /** `low` is the number of some function on the stack that `v` reaches. */
  ghost predicate Witnessed(s: State, v: Id, low: nat)
  {
    exists j :: 0 <= j < |s.stack| && s.stack[j] in s.data && s.data[s.stack[j]].order == low && Reach(s.g, v, s.stack[j])
  }

  /** The calls of `v` up to the k-th have been looked at; every member above it is finished. */
  ghost predicate Scanned(s: State, v: Id, pos: nat, k: nat)
  {
    && v in s.data && v in s.g && k <= |s.g[v]|
    && (forall i :: 0 <= i < k ==> s.g[v][i] in s.data)
    && s.data[v].lowlink <= s.data[v].order
    && Witnessed(s, v, s.data[v].lowlink)
    && BoundsFrom(s, s.data[v].lowlink, pos, v, k)
    && (forall j :: pos < j < |s.stack| ==> BoundsAll(s, s.data[v].lowlink, pos, s.stack[j]))
  }

  ghost predicate BoundsAll(s: State, low: nat, pos: nat, x: Id)
  {
    x in s.g && BoundsFrom(s, low, pos, x, |s.g[x]|)
  }

  ghost predicate OnTop(s: State, active: set<Id>, v: Id, pos: nat)
  {
    && pos < |s.stack| && s.stack[pos] == v && v in active
    && (forall j :: pos < j < |s.stack| ==> s.stack[j] !in active)
  }

  ghost predicate Looping(s: State, active: set<Id>, v: Id, pos: nat, k: nat)
  {
    Inv(s, active) && AllReach(s.g, active, v) && OnTop(s, active, v, pos) && Scanned(s, v, pos, k)
  }

  lemma LoopStarts(s: State, active: set<Id>, v: Id)
    requires Inv(s, active) && v in s.g && v !in s.data && AllReach(s.g, active, v)
    ensures Looping(Enter(s, v), active + {v}, v, |s.stack|, 0)
  {
    var s1 := Enter(s, v);
    EnterKeeps(s, active, v);
    assert s1.stack[|s.stack|] == v && s1.data[v].order == s1.data[v].lowlink;
  }

  function Lower(s: State, v: Id, low: nat): State
    requires v in s.data
  {
    var d := s.data[v];
    s.(data := s.data[v := d.(lowlink := if low < d.lowlink then low else d.lowlink)])
  }

  /** Changing a lowlink leaves the invariant alone: it speaks of numbers, flags and the stack only. */
  lemma LowerKeeps(s: State, active: set<Id>, v: Id, low: nat)
    requires Inv(s, active) && v in s.data
    ensures Inv(Lower(s, v, low), active)
  {
    var s1 := Lower(s, v, low);
    assert forall x :: Done(s1, x) <==> Done(s, x);
    forall i | 0 <= i < |s1.stack| ensures HasActiveBelow(s1, active, i) {
      assert HasActiveBelow(s, active, i);
      var a :| 0 <= a <= i && s.stack[a] in active && Reach(s.g, s.stack[i], s.stack[a]);
      assert s1.stack[a] in active && Reach(s1.g, s1.stack[i], s1.stack[a]);
    }
  }

  lemma BoundsLower(s: State, s1: State, low: nat, low1: nat, pos: nat, x: Id, k: nat)
    requires BoundsFrom(s, low, pos, x, k) && low1 <= low
    requires s1.g == s.g && s1.stack == s.stack
    requires s1.data.Keys == s.data.Keys && forall y :: y in s.data ==> s1.data[y].order == s.data[y].order
    ensures BoundsFrom(s1, low1, pos, x, k)
  {
    forall i | 0 <= i < k ensures Bounds(s1, low1, pos, s1.g[x][i]) {
      assert Bounds(s, low, pos, s.g[x][i]);
    }
  }

  lemma ScannedLower(s: State, v: Id, pos: nat, k: nat, low: nat)
    requires Scanned(s, v, pos, k) && k < |s.g[v]| && s.g[v][k] in s.data
    requires low < s.data[v].lowlink ==> Witnessed(s, v, low)
    requires Bounds(s, low, pos, s.g[v][k])
    ensures Scanned(Lower(s, v, low), v, pos, k + 1)
  {
    var s1 := Lower(s, v, low);
    var old', new' := s.data[v].lowlink, s1.data[v].lowlink;
    assert Bounds(s1, new', pos, s.g[v][k]);
    assert Witnessed(s1, v, new') by {
      assert Witnessed(s, v, new');
      var j :| 0 <= j < |s.stack| && s.stack[j] in s.data && s.data[s.stack[j]].order == new' && Reach(s.g, v, s.stack[j]);
      assert s1.data[s1.stack[j]].order == new';
    }
    hide Bounds, Witnessed;
    BoundsLower(s, s1, old', new', pos, v, k);
    forall j | pos < j < |s1.stack| ensures BoundsAll(s1, new', pos, s1.stack[j]) {
      assert BoundsAll(s, old', pos, s.stack[j]);
      BoundsLower(s, s1, old', new', pos, s.stack[j], |s.g[s.stack[j]]|);
    }
  }

  /** The calls done so far and one more, once the lowlink accounts for it. */
  lemma StepLower(s: State, active: set<Id>, v: Id, pos: nat, k: nat, low: nat)
    requires Looping(s, active, v, pos, k) && k < |s.g[v]| && s.g[v][k] in s.data
    requires low < s.data[v].lowlink ==> Witnessed(s, v, low)
    requires Bounds(s, low, pos, s.g[v][k])
    ensures Looping(Lower(s, v, low), active, v, pos, k + 1)
  {
    hide Inv;
    LowerKeeps(s, active, v, low);
    ScannedLower(s, v, pos, k, low);
  }

  lemma StepOnStack(s: State, active: set<Id>, v: Id, pos: nat, k: nat)
    requires Looping(s, active, v, pos, k) && k < |s.g[v]|
    requires s.g[v][k] in s.data && s.data[s.g[v][k]].onstack
    ensures Looping(Lower(s, v, s.data[s.g[v][k]].order), active, v, pos, k + 1)
  {
    var w := s.g[v][k];
    ReachEdge(s.g, v, w);
    var j :| 0 <= j < |s.stack| && s.stack[j] == w;
    assert Witnessed(s, v, s.data[w].order);
    StepLower(s, active, v, pos, k, s.data[w].order);
  }

  lemma StepDone(s: State, active: set<Id>, v: Id, pos: nat, k: nat)
    requires Looping(s, active, v, pos, k) && k < |s.g[v]|
    requires s.g[v][k] in s.data && !s.data[s.g[v][k]].onstack
    ensures Looping(s, active, v, pos, k + 1)
  {
    assert Bounds(s, s.data[v].lowlink, pos, s.g[v][k]);
  }

  // ---- what a call of `_tarjan` leaves behind ----

  ghost predicate Extends(s: State, s1: State)
  {
    && s1.g == s.g && s.order <= s1.order && s.stack <= s1.stack && s.found <= s1.found
    && forall x :: x in s.data ==> x in s1.data && s1.data[x] == s.data[x]
  }

  ghost predicate Returned(s: State, s1: State, active: set<Id>, w: Id)
  {
    && Inv(s1, active) && Extends(s, s1) && w in s1.data
    && (if w in s1.stack
        then && Witnessed(s1, w, s1.data[w].lowlink)
             && (forall j :: |s.stack| <= j < |s1.stack| ==>
                   BoundsAll(s1, s1.data[w].lowlink, |s.stack|, s1.stack[j]))
        else s1.stack == s.stack && s1.data[w].lowlink >= s.order)
  }

  lemma BoundsTransfer(s: State, s1: State, low: nat, pos: nat, x: Id, k: nat)
    requires BoundsFrom(s, low, pos, x, k) && s1.g == s.g && s.stack <= s1.stack && pos <= |s.stack|
    requires forall j :: 0 <= j < |s.stack| ==> s.stack[j] in s.data
    requires forall y :: y in s.data ==> y in s1.data && s1.data[y] == s.data[y]
    ensures BoundsFrom(s1, low, pos, x, k)
  {
    forall i | 0 <= i < k ensures Bounds(s1, low, pos, s1.g[x][i]) {
      assert Bounds(s, low, pos, s.g[x][i]);
    }
  }

  /** A bound on edges below the whole old stack bounds the edges below `pos` as well. */
  lemma BoundsShorter(s: State, low: nat, low1: nat, pos: nat, pos1: nat, x: Id, k: nat)
    requires BoundsFrom(s, low, pos, x, k) && pos1 <= pos && low1 <= low
    ensures BoundsFrom(s, low1, pos1, x, k)
  {
    forall i | 0 <= i < k ensures Bounds(s, low1, pos1, s.g[x][i]) {
      assert Bounds(s, low, pos, s.g[x][i]);
    }
  }

  /** What the call put on the stack is not active: active functions are all on the old stack. */
  lemma NewNotActive(s: State, s1: State, active: set<Id>, j: nat)
    requires Numbered(s1) && Extends(s, s1) && |s.stack| <= j < |s1.stack|
    requires forall x :: x in active ==> x in s.stack
    ensures s1.stack[j] !in s.stack && s1.stack[j] !in active
  {
    forall i | 0 <= i < |s.stack| ensures s.stack[i] != s1.stack[j] {
      OrderIndex(s1, i, j);
      assert s.stack[i] == s1.stack[i];
    }
  }

  lemma StepReturned(s: State, s1: State, active: set<Id>, v: Id, pos: nat, k: nat)
    requires Looping(s, active, v, pos, k) && k < |s.g[v]| && s.g[v][k] !in s.data
    requires Returned(s, s1, active, s.g[v][k])
    ensures v in s1.data
    ensures Looping(Lower(s1, v, s1.data[s.g[v][k]].lowlink), active, v, pos, k + 1)
  {
    var w := s.g[v][k];
    var low := s1.data[w].lowlink;
    var new' := if low < s1.data[v].lowlink then low else s1.data[v].lowlink;
    var s2 := Lower(s1, v, low);
    LowerKeeps(s1, active, v, low);
    assert OnTop(s2, active, v, pos) by {
      forall j | pos < j < |s1.stack| ensures s1.stack[j] !in active {
        if j >= |s.stack| { NewNotActive(s, s1, active, j); } else { assert s1.stack[j] == s.stack[j]; }
      }
    }
    assert low < s1.data[v].lowlink ==> Witnessed(s1, v, low) by {
      if low < s1.data[v].lowlink { WitnessFromCallee(s, s1, active, v, pos, k); }
    }
    ScannedAfterCall(s, s1, active, v, pos, k);
  }

  lemma WitnessFromCallee(s: State, s1: State, active: set<Id>, v: Id, pos: nat, k: nat)
    requires Looping(s, active, v, pos, k) && k < |s.g[v]| && s.g[v][k] !in s.data
    requires Returned(s, s1, active, s.g[v][k]) && s1.data[s.g[v][k]].lowlink < s.data[v].lowlink
    ensures Witnessed(s1, v, s1.data[s.g[v][k]].lowlink)
  {
    var w := s.g[v][k];
    var low := s1.data[w].lowlink;
    assert s.data[v].lowlink < s.order;
    assert w in s1.stack;
    var j :| 0 <= j < |s1.stack| && s1.stack[j] in s1.data && s1.data[s1.stack[j]].order == low && Reach(s1.g, w, s1.stack[j]);
    ReachEdge(s.g, v, w);
    ReachTransitive(s.g, v, w, s1.stack[j]);
  }

  lemma ScannedAfterCall(s: State, s1: State, active: set<Id>, v: Id, pos: nat, k: nat)
    requires Looping(s, active, v, pos, k) && k < |s.g[v]| && s.g[v][k] !in s.data
    requires Returned(s, s1, active, s.g[v][k]) && v in s1.data
    requires var low := s1.data[s.g[v][k]].lowlink; low < s1.data[v].lowlink ==> Witnessed(s1, v, low)
    ensures Scanned(Lower(s1, v, s1.data[s.g[v][k]].lowlink), v, pos, k + 1)
  {
    var w := s.g[v][k];
    var low := s1.data[w].lowlink;
    var new' := if low < s1.data[v].lowlink then low else s1.data[v].lowlink;
    assert w !in s.stack;
    assert Witnessed(s1, v, new') by {
      if new' == s.data[v].lowlink {
        var j :| 0 <= j < |s.stack| && s.stack[j] in s.data && s.data[s.stack[j]].order == new' && Reach(s.g, v, s.stack[j]);
        assert s1.stack[j] == s.stack[j];
      }
    }
    forall j | |s.stack| <= j < |s1.stack| ensures BoundsAll(s1, new', pos, s1.stack[j]) {
      var x := s1.stack[j];
      assert BoundsAll(s1, low, |s.stack|, x);
      BoundsShorter(s1, low, new', |s.stack|, pos, x, |s1.g[x]|);
    }
    ScannedWithBound(s, s1, v, pos, k, w, new');
  }

  function SetLow(s: State, v: Id, low: nat): State
    requires v in s.data
  {
    s.(data := s.data[v := s.data[v].(lowlink := low)])
  }

  lemma BoundsAllTransfer(s: State, s1: State, v: Id, pos: nat, x: Id, old': nat, low: nat)
    requires Numbered(s) && Extends(s, s1) && v in s1.data && pos <= |s.stack| && low <= old'
    requires BoundsAll(s, old', pos, x)
    ensures BoundsAll(SetLow(s1, v, low), low, pos, x)
  {
    BoundsTransfer(s, s1, old', pos, x, |s.g[x]|);
    BoundsLower(s1, SetLow(s1, v, low), old', low, pos, x, |s.g[x]|);
  }

  lemma WitnessSetLow(s: State, v: Id, low: nat)
    requires v in s.data && Witnessed(s, v, low)
    ensures Witnessed(SetLow(s, v, low), v, low)
  {
    var t := SetLow(s, v, low);
    var j :| 0 <= j < |s.stack| && s.stack[j] in s.data && s.data[s.stack[j]].order == low && Reach(s.g, v, s.stack[j]);
    assert t.data[t.stack[j]].order == low;
  }

  /** `Scanned` one call further, stated for the bound the lowlink is about to take. */
  lemma ScannedWithBound(s: State, s1: State, v: Id, pos: nat, k: nat, w: Id, low: nat)
    requires Scanned(s, v, pos, k) && k < |s.g[v]| && s.g[v][k] == w && Extends(s, s1) && pos < |s.stack|
    requires Numbered(s) && Numbered(s1) && w in s1.data && w !in s.stack
    requires low <= s.data[v].lowlink && Witnessed(s1, v, low)
    requires forall j :: |s.stack| <= j < |s1.stack| ==> BoundsAll(s1, low, pos, s1.stack[j])
    ensures Scanned(SetLow(s1, v, low), v, pos, k + 1)
  {
    var t := SetLow(s1, v, low);
    WitnessSetLow(s1, v, low);
    assert Bounds(t, low, pos, w) by {
      assert forall j :: 0 <= j < |s.stack| ==> t.stack[j] == s.stack[j];
    }
    var old' := s.data[v].lowlink;
    hide Bounds, Witnessed;
    BoundsTransfer(s, s1, old', pos, v, k);
    BoundsLower(s1, t, old', low, pos, v, k);
    hide BoundsFrom, BoundsAll;
    forall j | pos < j < |t.stack| ensures BoundsAll(t, low, pos, t.stack[j]) {
      if j < |s.stack| {
        assert t.stack[j] == s.stack[j];
        BoundsAllTransfer(s, s1, v, pos, t.stack[j], old', low);
      } else {
        BoundsAllTransfer(s1, s1, v, pos, t.stack[j], low, low);
      }
    }
  }

  // ---- leaving a function that closes a component ----

  function Members(s: State, pos: nat): set<Id>
    requires pos <= |s.stack|
  {
    set x | x in s.stack[pos..]
  }

  function Marked(data: map<Id, TarjanData>, ms: set<Id>): map<Id, TarjanData>
  {
    map x | x in data :: if x in ms then data[x].(onstack := false) else data[x]
  }

  /** The stack cut at `pos`, its members marked as off the stack. */
  function Cut(s: State, pos: nat): State
    requires pos <= |s.stack|
  {
    var ms := Members(s, pos);
    s.(stack := s.stack[..pos],
       data := Marked(s.data, ms),
       found := s.found + [ms])
  }

  ghost predicate Closing(s: State, active: set<Id>, v: Id, pos: nat)
  {
    && pos < |s.stack| && v in s.g
    && Looping(s, active, v, pos, |s.g[v]|) && s.data[v].lowlink == s.data[v].order
  }

  /** Membership above `pos` is a matter of position. */
  lemma MemberAt(s: State, pos: nat, x: Id) returns (j: nat)
    requires pos <= |s.stack| && x in Members(s, pos)
    ensures pos <= j < |s.stack| && s.stack[j] == x
  {
    var i :| 0 <= i < |s.stack[pos..]| && s.stack[pos..][i] == x;
    j := pos + i;
  }

  lemma AtIsMember(s: State, pos: nat, j: nat)
    requires pos <= j < |s.stack|
    ensures s.stack[j] in Members(s, pos)
  {
    assert s.stack[pos..][j - pos] == s.stack[j];
  }

  /** With `lowlink == order` no call leads from the members below them on the stack. */
  lemma NoWayDown(s: State, active: set<Id>, v: Id, pos: nat, x: Id, i: nat)
    requires Closing(s, active, v, pos) && x in Members(s, pos) && x in s.g && i < |s.g[x]|
    ensures s.g[x][i] in Members(s, pos) || Done(s, s.g[x][i])
  {
    var y := s.g[x][i];
    var j := MemberAt(s, pos, x);
    assert BoundsAll(s, s.data[v].lowlink, pos, x) by { assert j == pos ==> x == v; }
    assert Bounds(s, s.data[v].lowlink, pos, y);
    assert y in s.data;
    if y in s.stack {
      var b :| 0 <= b < |s.stack| && s.stack[b] == y;
      OrderIndex(s, b, pos);
      AtIsMember(s, pos, b);
    }
  }

  ghost function Visited(s: State, pos: nat): set<Id>
    requires pos <= |s.stack|
  {
    Members(s, pos) + set x | x in s.data && x !in s.stack
  }

  lemma VisitedClosed(s: State, active: set<Id>, v: Id, pos: nat)
    requires Closing(s, active, v, pos)
    ensures ClosedUnder(s.g, Visited(s, pos))
  {
    forall z, i | z in Visited(s, pos) && z in s.g && 0 <= i < |s.g[z]| ensures s.g[z][i] in Visited(s, pos) {
      if z in Members(s, pos) {
        NoWayDown(s, active, v, pos, z, i);
      } else {
        assert Done(s, z) && Done(s, s.g[z][i]);
      }
    }
  }

  /** From a finished function only finished ones are reached. */
  lemma DoneReachesDone(s: State, x: Id, y: Id)
    requires DoneIsClosed(s) && Done(s, x) && Reach(s.g, x, y)
    ensures Done(s, y)
  {
    var ds := set z | z in s.data && z !in s.stack;
    forall z, i | z in ds && z in s.g && 0 <= i < |s.g[z]| ensures s.g[z][i] in ds {
      assert Done(s, z) && Done(s, s.g[z][i]);
    }
    ReachStaysInside(s.g, ds, x, y);
  }

  lemma MembersReach(s: State, active: set<Id>, v: Id, pos: nat, x: Id)
    requires Closing(s, active, v, pos) && x in Members(s, pos)
    ensures Mutual(s.g, v, x)
  {
    var j := MemberAt(s, pos, x);
    assert HasActiveBelow(s, active, j);
    var a :| 0 <= a <= j && s.stack[a] in active && Reach(s.g, s.stack[j], s.stack[a]);
    VisitedClosed(s, active, v, pos);
    ReachStaysInside(s.g, Visited(s, pos), x, s.stack[a]);
    var b := MemberAt(s, pos, s.stack[a]);
    OrderIndex(s, a, b);
  }

  /** The functions from `v` up are exactly one strongly connected component. */
  lemma MembersAreComponent(s: State, active: set<Id>, v: Id, pos: nat)
    requires Closing(s, active, v, pos)
    ensures Component(s.g, Members(s, pos))
  {
    var ms := Members(s, pos);
    assert s.stack[pos..][0] == v && v in ms;
    forall x, y | x in ms ensures y in ms <==> Mutual(s.g, x, y) {
      MembersReach(s, active, v, pos, x);
      if y in ms {
        MembersReach(s, active, v, pos, y);
        ReachTransitive(s.g, x, v, y);
        ReachTransitive(s.g, y, v, x);
      }
      if Mutual(s.g, x, y) { MutualStays(s, active, v, pos, x, y); }
    }
  }

  lemma MutualStays(s: State, active: set<Id>, v: Id, pos: nat, x: Id, y: Id)
    requires Closing(s, active, v, pos) && x in Members(s, pos) && Mutual(s.g, x, y)
    ensures y in Members(s, pos)
  {
    VisitedClosed(s, active, v, pos);
    ReachStaysInside(s.g, Visited(s, pos), x, y);
    var j := MemberAt(s, pos, x);
    if Done(s, y) { DoneReachesDone(s, y, x); }
  }

  lemma CutDisjoint(s: State, pos: nat)
    requires FoundOk(s) && pos <= |s.stack|
    ensures forall k :: 0 <= k < |s.found| ==> s.found[k] !! Members(s, pos)
  {
    forall k, x | 0 <= k < |s.found| && x in s.found[k] ensures x !in Members(s, pos) {
      assert Done(s, x);
      if x in Members(s, pos) { var j := MemberAt(s, pos, x); }
    }
  }

  lemma CutStack(s: State, pos: nat)
    requires Numbered(s) && pos <= |s.stack|
    ensures forall x :: x in Cut(s, pos).stack <==> x in s.stack && x !in Members(s, pos)
    ensures forall x :: Done(Cut(s, pos), x) <==> Done(s, x) || x in Members(s, pos)
    ensures Numbered(Cut(s, pos))
  {
    var s1 := Cut(s, pos);
    assert s.stack == s.stack[..pos] + s.stack[pos..];
    forall x | x in Members(s, pos) ensures x in s.stack && x in s.data && x !in s1.stack {
      var j := MemberAt(s, pos, x);
      forall i | 0 <= i < pos ensures s1.stack[i] != x { OrderIndex(s, i, j); }
    }
  }

  lemma FoundAt(s: State, x: Id)
    requires FoundOk(s) && Done(s, x)
    ensures exists k :: 0 <= k < |s.found| && x in s.found[k]
  {}

  lemma CutDone(s: State, active: set<Id>, v: Id, pos: nat)
    requires Closing(s, active, v, pos)
    ensures DoneIsClosed(Cut(s, pos))
  {
    var s1 := Cut(s, pos);
    CutStack(s, pos);
    assert s1.g == s.g;
    hide Cut;
    forall x, i | Done(s1, x) && x in s.g && 0 <= i < |s.g[x]| ensures Done(s1, s.g[x][i]) {
      if x in Members(s, pos) { NoWayDown(s, active, v, pos, x, i); } else { assert Done(s, x) && Done(s, s.g[x][i]); }
    }
  }

  lemma FoundSnoc(s: State, s1: State, ms: set<Id>)
    requires FoundOk(s) && s1.g == s.g && s1.found == s.found + [ms] && Component(s.g, ms)
    requires forall x :: Done(s1, x) <==> Done(s, x) || x in ms
    ensures FoundOk(s1)
  {
    hide Component, Done;
    forall k | 0 <= k < |s1.found|
      ensures Component(s1.g, s1.found[k]) && forall x :: x in s1.found[k] ==> Done(s1, x)
    {
      assert k < |s.found| ==> s1.found[k] == s.found[k];
    }
    forall x | Done(s1, x) ensures exists k :: 0 <= k < |s1.found| && x in s1.found[k] {
      if x in ms {
        assert x in s1.found[|s.found|];
      } else {
        FoundAt(s, x);
        var k :| 0 <= k < |s.found| && x in s.found[k];
        assert x in s1.found[k];
      }
    }
  }

  lemma CutFound(s: State, active: set<Id>, v: Id, pos: nat)
    requires Closing(s, active, v, pos)
    ensures FoundOk(Cut(s, pos))
  {
    CutStack(s, pos);
    MembersAreComponent(s, active, v, pos);
    hide Component, Done, Members;
    FoundSnoc(s, Cut(s, pos), Members(s, pos));
  }

  lemma CutReaches(s: State, active: set<Id>, v: Id, pos: nat)
    requires Closing(s, active, v, pos)
    ensures ReachesDown(Cut(s, pos), active - {v}) && ReachesUp(Cut(s, pos))
  {
    var s1 := Cut(s, pos);
    assert forall i :: 0 <= i < pos ==> s1.stack[i] == s.stack[i];
    forall i | 0 <= i < |s1.stack| ensures HasActiveBelow(s1, active - {v}, i) {
      assert HasActiveBelow(s, active, i);
      var a :| 0 <= a <= i && s.stack[a] in active && Reach(s.g, s.stack[i], s.stack[a]);
      OrderIndex(s, a, pos);
      assert s1.stack[a] in active - {v} && Reach(s1.g, s1.stack[i], s1.stack[a]);
    }
  }

  lemma LeftExplored(s: State, active: set<Id>, v: Id)
    requires LeftIsExplored(s, active) && v in s.g && forall i :: 0 <= i < |s.g[v]| ==> s.g[v][i] in s.data
    ensures LeftIsExplored(s, active - {v})
  {}

  lemma CutKeeps(s: State, active: set<Id>, v: Id, pos: nat)
    requires Closing(s, active, v, pos)
    ensures Inv(Cut(s, pos), active - {v})
  {
    var s1 := Cut(s, pos);
    CutStack(s, pos);
    CutFound(s, active, v, pos);
    CutDone(s, active, v, pos);
    CutReaches(s, active, v, pos);
    LeftExplored(s, active, v);
    forall x | x in active - {v} ensures x in s1.stack {
      var i :| 0 <= i < |s.stack| && s.stack[i] == x;
      assert forall j :: pos < j < |s.stack| ==> s.stack[j] != x;
      assert s1.stack[i] == x;
    }
    hide Scanned, AllReach, FoundOk, DoneIsClosed, ReachesDown, ReachesUp, Numbered;
    assert LeftIsExplored(s1, active - {v});
  }

  // ---- leaving a function that stays on the stack ----

  /** A function that stays on the stack reaches an active one strictly below it. */
  lemma ActiveBelow(s: State, active: set<Id>, v: Id, pos: nat) returns (c: nat)
    requires pos < |s.stack| && v in s.g && Looping(s, active, v, pos, |s.g[v]|)
    requires s.data[v].lowlink < s.data[v].order
    ensures c < pos && s.stack[c] in active && Reach(s.g, v, s.stack[c])
  {
    var b :| 0 <= b < |s.stack| && s.stack[b] in s.data && s.data[s.stack[b]].order == s.data[v].lowlink && Reach(s.g, v, s.stack[b]);
    OrderIndex(s, b, pos);
    assert HasActiveBelow(s, active, b);
    c :| 0 <= c <= b && s.stack[c] in active && Reach(s.g, s.stack[b], s.stack[c]);
    ReachTransitive(s.g, v, s.stack[b], s.stack[c]);
  }

  lemma LeaveReaches(s: State, active: set<Id>, v: Id, pos: nat)
    requires pos < |s.stack| && v in s.g && Looping(s, active, v, pos, |s.g[v]|)
    requires s.data[v].lowlink < s.data[v].order
    ensures ReachesDown(s, active - {v})
  {
    var c := ActiveBelow(s, active, v, pos);
    OrderIndex(s, c, pos);
    forall i | 0 <= i < |s.stack| ensures HasActiveBelow(s, active - {v}, i) {
      assert HasActiveBelow(s, active, i);
      var a :| 0 <= a <= i && s.stack[a] in active && Reach(s.g, s.stack[i], s.stack[a]);
      if s.stack[a] == v {
        OrderIndex(s, a, pos);
        ReachTransitive(s.g, s.stack[i], v, s.stack[c]);
        assert s.stack[c] in active - {v};
      } else {
        assert s.stack[a] in active - {v};
      }
    }
  }

  lemma LeaveKeeps(s: State, active: set<Id>, v: Id, pos: nat)
    requires pos < |s.stack| && v in s.g && Looping(s, active, v, pos, |s.g[v]|)
    requires s.data[v].lowlink < s.data[v].order
    ensures Inv(s, active - {v})
  {
    LeaveReaches(s, active, v, pos);
    LeftExplored(s, active, v);
  }

  lemma ReachAll(s: State, active: set<Id>, v: Id, w: Id)
    requires AllReach(s.g, active, v) && v in s.g && w in s.g && w in s.g[v]
    ensures AllReach(s.g, active, w)
  {
    ReachEdge(s.g, v, w);
    forall x | x in active ensures Reach(s.g, x, w) { ReachTransitive(s.g, x, v, w); }
  }

  // ---- returning ----

  lemma ReturnLeave(s0: State, s: State, active: set<Id>, v: Id)
    requires Inv(s0, active) && v !in s0.data && Extends(s0, s) && v in s.g
    requires Looping(s, active + {v}, v, |s0.stack|, |s.g[v]|) && s.data[v].lowlink < s.data[v].order
    ensures Returned(s0, s, active, v)
  {
    LeaveKeeps(s, active + {v}, v, |s0.stack|);
    assert active + {v} - {v} == active;
    assert s.stack[|s0.stack|] == v;
  }

  lemma ReturnCut(s0: State, s: State, active: set<Id>, v: Id)
    requires Inv(s0, active) && v !in s0.data && Extends(s0, s)
    requires Closing(s, active + {v}, v, |s0.stack|) && s.data[v].order == s0.order
    ensures Returned(s0, Cut(s, |s0.stack|), active, v)
  {
    var pos := |s0.stack|;
    CutKeeps(s, active + {v}, v, pos);
    CutStack(s, pos);
    AtIsMember(s, pos, pos);
    assert active + {v} - {v} == active;
    forall x | x in s0.data ensures x !in Members(s, pos) {
      if x in Members(s, pos) {
        var j := MemberAt(s, pos, x);
        OldNotAbove(s0, s, j);
      }
    }
    assert Cut(s, pos).stack == s0.stack;
    assert forall i :: 0 <= i < |s0.found| ==> Cut(s, pos).found[i] == s0.found[i];
  }

  /** A function known before the call does not stand above the old stack. */
  lemma OldNotAbove(s0: State, s: State, j: nat)
    requires Numbered(s0) && Numbered(s) && Extends(s0, s) && |s0.stack| <= j < |s.stack|
    ensures s.stack[j] !in s0.data
  {
    var x := s.stack[j];
    forall i | 0 <= i < |s0.stack| ensures s0.stack[i] != x {
      OrderIndex(s, i, j);
      assert s0.stack[i] == s.stack[i];
    }
    assert forall y :: y in s0.data && y in s.stack ==> y in s0.stack;
  }

  // ---- one call of `_tarjan`, from its entry state `s0` ----

  ghost predicate Working(s0: State, s: State, active: set<Id>, v: Id, k: nat)
  {
    && Inv(s0, active) && v !in s0.data && Extends(s0, s)
    && v in s.g && v in s.data && s.data[v].order == s0.order
    && Looping(s, active + {v}, v, |s0.stack|, k)
  }

  lemma WorkStarts(s: State, active: set<Id>, v: Id)
    requires Inv(s, active) && v in s.g && v !in s.data && AllReach(s.g, active, v)
    ensures Working(s, Enter(s, v), active, v, 0)
  {
    LoopStarts(s, active, v);
  }

  lemma WorkOnStack(s0: State, s: State, active: set<Id>, v: Id, k: nat)
    requires Working(s0, s, active, v, k) && k < |s.g[v]| && s.g[v][k] in s.data && s.data[s.g[v][k]].onstack
    ensures Working(s0, Lower(s, v, s.data[s.g[v][k]].order), active, v, k + 1)
  {
    hide Inv;
    StepOnStack(s, active + {v}, v, |s0.stack|, k);
    hide Looping;
  }

  lemma WorkDone(s0: State, s: State, active: set<Id>, v: Id, k: nat)
    requires Working(s0, s, active, v, k) && k < |s.g[v]| && s.g[v][k] in s.data && !s.data[s.g[v][k]].onstack
    ensures Working(s0, s, active, v, k + 1)
  {
    StepDone(s, active + {v}, v, |s0.stack|, k);
  }

  /** The conditions for the recursive call. */
  lemma WorkCalls(s0: State, s: State, active: set<Id>, v: Id, k: nat)
    requires Working(s0, s, active, v, k) && k < |s.g[v]|
    ensures s.g[v][k] in s.g && Inv(s, active + {v}) && AllReach(s.g, active + {v}, s.g[v][k])
  {
    ReachAll(s, active + {v}, v, s.g[v][k]);
  }

  lemma ExtendsTransitive(s0: State, s: State, s1: State)
    requires Extends(s0, s) && Extends(s, s1)
    ensures Extends(s0, s1)
  {
    assert s0.stack <= s.stack <= s1.stack;
    assert s0.found <= s.found <= s1.found;
  }

  lemma ExtendsLower(s0: State, s: State, v: Id, low: nat)
    requires Extends(s0, s) && v !in s0.data && v in s.data
    ensures Extends(s0, Lower(s, v, low))
  {}

  lemma WorkReturned(s0: State, s: State, s1: State, active: set<Id>, v: Id, k: nat)
    requires Working(s0, s, active, v, k) && k < |s.g[v]| && s.g[v][k] !in s.data
    requires Returned(s, s1, active + {v}, s.g[v][k])
    ensures v in s1.data && Working(s0, Lower(s1, v, s1.data[s.g[v][k]].lowlink), active, v, k + 1)
    ensures s1.g == s.g && s.data.Keys <= s1.data.Keys
  {
    StepReturned(s, s1, active + {v}, v, |s0.stack|, k);
    assert s1.data[v] == s.data[v];
    hide Looping, Inv;
    ExtendsTransitive(s0, s, s1);
    ExtendsLower(s0, s1, v, s1.data[s.g[v][k]].lowlink);
    hide Extends;
  }

  lemma WorkLeaves(s0: State, s: State, active: set<Id>, v: Id)
    requires v in s.g && Working(s0, s, active, v, |s.g[v]|) && s.data[v].lowlink != s.data[v].order
    ensures Returned(s0, s, active, v)
  {
    ReturnLeave(s0, s, active, v);
  }

  lemma WorkCuts(s0: State, s: State, active: set<Id>, v: Id)
    requires v in s.g && Working(s0, s, active, v, |s.g[v]|) && s.data[v].lowlink == s.data[v].order
    ensures |s0.stack| < |s.stack| && Numbered(s) && FoundOk(s)
    ensures Returned(s0, Cut(s, |s0.stack|), active, v)
  {
    ReturnCut(s0, s, active, v);
  }

  // ---- the whole run ----

  /** Once nothing is active, the stack is empty and the components found are those of the graph. */
  lemma AllFound(s: State)
    requires Inv(s, {}) && s.data.Keys == s.g.Keys
    ensures s.stack == []
    ensures forall x, y :: x in s.g && y in s.g ==>
              (Mutual(s.g, x, y) <==> exists k :: 0 <= k < |s.found| && x in s.found[k] && y in s.found[k])
  {
    assert |s.stack| > 0 ==> HasActiveBelow(s, {}, 0);
    forall x, y | x in s.g && y in s.g
      ensures Mutual(s.g, x, y) <==> exists k :: 0 <= k < |s.found| && x in s.found[k] && y in s.found[k]
    {
      assert Done(s, x);
      var k :| 0 <= k < |s.found| && x in s.found[k];
      assert Component(s.g, s.found[k]);
    }
  }

  lemma NothingYet(g: Graph)
    requires Closed(g)
    ensures Inv(State(g, 0, map[], [], []), {})
  {}

  lemma InvInside(s: State, active: set<Id>)
    requires Inv(s, active)
    ensures s.data.Keys <= s.g.Keys
  {}

  lemma NextRoot(s: State, s1: State, v: Id)
    requires Returned(s, s1, {}, v)
    ensures Inv(s1, {}) && s1.g == s.g && s.data.Keys <= s1.data.Keys && v in s1.data
  {}

  /** A component of two different functions has more than one member; one that holds a single function is that function. */
  lemma ComponentSize(c: set<Id>, x: Id)
    requires x in c
    ensures |c| == 1 <==> forall y :: y in c ==> y == x
  {
    if |c| == 1 {
      assert |c - {x}| == 0;
      assert c == {x};
    }
    if forall y :: y in c ==> y == x {
      assert c == {x};
    }
  }
}

/** `Profile` of tools/gprof2dot.py: the call graph as objects, its cycles found in place. */
module Profile {
  import opened CallGraph
  import opened TarjanState

  class Function {
    const id: Id
    var calls: seq<Id>
    var cycle: Cycle?

    constructor (id: Id, calls: seq<Id>)
      ensures this.id == id && this.calls == calls && cycle == null
    {
      this.id, this.calls, cycle := id, calls, null;
    }
  }

  class Cycle {
    var functions: set<Function>

    constructor ()
      ensures functions == {}
    {
      functions := {};
    }

    /** The function joins this cycle alone: the members of a cycle it already had are not taken over,
        because the guard of that loop asks about the function just added. */
    method AddFunction(function': Function)
      requires function' !in functions
      modifies this, function'`cycle
      ensures functions == old(functions) + {function'} && function'.cycle == this
    {
      functions := functions + {function'};
      if function'.cycle != null {
        var others := function'.cycle.functions;
        while others != {}
          invariant functions == old(functions) + {function'}
          decreases others
        {
          var other :| other in others;
          others := others - {other};
          if function' !in functions {
            assert false;
          }
        }
      }
      function'.cycle := this;
    }
  }

  class Profile {
    var functions: map<Id, Function>
    var cycles: seq<Cycle>
    ghost const nodes: set<Function>

    // Working state of `find_cycles`.
    var stack: seq<Id>
    var data: map<Id, TarjanData>
    ghost var found: seq<set<Id>>
    ghost var objects: seq<Cycle?>

    constructor (functions: map<Id, Function>)
      ensures this.functions == functions && nodes == functions.Values && cycles == []
    {
      nodes := functions.Values;
      this.functions, cycles, stack, data, found, objects := functions, [], [], map[], [], [];
    }

    ghost predicate Named()
      reads this`functions
    {
      forall x :: x in functions ==> functions[x].id == x && functions[x] in nodes
    }

    ghost function Calls(): Graph
      requires Named()
      reads this`functions, nodes`calls
    {
      map x | x in functions :: functions[x].calls
    }

    ghost function At(order: nat): State
      requires Named()
      reads this`functions, this`data, this`stack, this`found, nodes`calls
    {
      State(Calls(), order, data, stack, found)
    }

    ghost function CycleOf(): map<Id, Cycle?>
      requires Named()
      reads this`functions, nodes`cycle
    {
      map x | x in functions :: functions[x].cycle
    }

    /** The cycle objects follow the components found: one object for each of more than one function,
        shared by exactly its members; none for a single function or one not yet placed. */
    static ghost predicate Follow(found: seq<set<Id>>, objects: seq<Cycle?>, cycleOf: map<Id, Cycle?>)
    {
      && |objects| == |found|
      && (forall k :: 0 <= k < |found| ==> (objects[k] == null <==> |found[k]| == 1))
      && (forall k, l :: 0 <= k < l < |found| && objects[k] != null ==> objects[k] != objects[l])
      && (forall k, x :: 0 <= k < |found| && x in found[k] ==> x in cycleOf && cycleOf[x] == objects[k])
      && (forall x :: x in cycleOf && cycleOf[x] != null ==> exists k :: 0 <= k < |found| && x in found[k])
    }

    static lemma FollowSnoc(found: seq<set<Id>>, objects: seq<Cycle?>, before: map<Id, Cycle?>,
                            ms: set<Id>, c: Cycle?, after: map<Id, Cycle?>)
      requires Follow(found, objects, before)
      requires ms <= after.Keys && after.Keys == before.Keys
      requires forall x :: x in ms ==> before[x] == null && after[x] == c
      requires forall x :: x in before && x !in ms ==> after[x] == before[x]
      requires forall k :: 0 <= k < |found| ==> found[k] !! ms
      requires c == null <==> |ms| == 1
      requires c != null ==> c !in objects
      ensures Follow(found + [ms], objects + [c], after)
    {
      var f1, o1 := found + [ms], objects + [c];
      forall x | x in after && after[x] != null ensures exists k :: 0 <= k < |f1| && x in f1[k] {
        if x in ms {
          assert x in f1[|found|];
        } else {
          var k :| 0 <= k < |found| && x in found[k];
          assert x in f1[k];
        }
      }
    }

    ghost function FunctionsOf(ids: set<Id>): set<Function>
      reads this`functions
    {
      set x | x in ids && x in functions :: functions[x]
    }

    ghost predicate CyclesFollow()
      requires Named()
      reads this`functions, this`found, this`objects, nodes`cycle
    {
      Follow(found, objects, CycleOf())
    }

    /** Each cycle object lists exactly the members of its component. */
    ghost predicate Held()
      reads this`functions, this`found, this`objects, set c: Cycle | c in objects
    {
      |objects| == |found| && forall k :: 0 <= k < |found| && objects[k] != null ==> objects[k].functions == FunctionsOf(found[k])
    }

    // ---- validate ----

    static function Defined(calls: seq<Id>, ids: set<Id>): seq<Id>
    {
      if calls == [] then []
      else Defined(calls[..|calls| - 1], ids) + if calls[|calls| - 1] in ids then [calls[|calls| - 1]] else []
    }

    static lemma {:induction false} DefinedOnly(calls: seq<Id>, ids: set<Id>)
      ensures forall x :: x in Defined(calls, ids) <==> x in calls && x in ids
    {
      if calls != [] {
        DefinedOnly(calls[..|calls| - 1], ids);
        assert calls == calls[..|calls| - 1] + [calls[|calls| - 1]];
      }
    }

    /** Deletes the calls to undefined functions; the rest keep their order, and the graph is closed. */
    method Validate()
      requires Named()
      modifies nodes`calls
      ensures forall x :: x in functions ==> functions[x].calls == Defined(old(functions[x].calls), functions.Keys)
      ensures CallGraph.Closed(Calls())
    {
      var todo := functions.Keys;
      while todo != {}
        invariant todo <= functions.Keys
        invariant forall x :: x in todo ==> functions[x].calls == old(functions[x].calls)
        invariant forall x :: x in functions && x !in todo ==>
                    functions[x].calls == Defined(old(functions[x].calls), functions.Keys)
        decreases todo
      {
        var x :| x in todo;
        todo := todo - {x};
        var f := functions[x];
        var kept: seq<Id> := [];
        var i := 0;
        assert f.calls[..0] == [];
        while i < |f.calls|
          invariant i <= |f.calls| && kept == Defined(f.calls[..i], functions.Keys)
        {
          assert f.calls[..i + 1][..i] == f.calls[..i];
          if f.calls[i] in functions { kept := kept + [f.calls[i]]; }
          i := i + 1;
        }
        assert f.calls[..i] == f.calls;
        f.calls := kept;
      }
      forall x, i | x in functions && 0 <= i < |functions[x].calls| ensures functions[x].calls[i] in functions {
        DefinedOnly(old(functions[x].calls), functions.Keys);
        assert functions[x].calls[i] in functions[x].calls;
      }
    }

    // ---- find_cycles ----

    method LowerLink(v: Id, low: nat, ghost order: nat)
      requires Named() && v in data
      modifies this`data
      ensures At(order) == Lower(old(At(order)), v, low) && data.Keys == old(data.Keys)
    {
      data := data[v := data[v].(lowlink := if low < data[v].lowlink then low else data[v].lowlink)];
    }

    /** Numbers the function and searches everything it calls; what it leaves is `Returned`. */
    method Tarjan(v: Id, order: nat, ghost active: set<Id>) returns (order': nat)
      requires Named() && v in functions
      requires Inv(At(order), active) && AllReach(Calls(), active, v)
      requires CyclesFollow() && Held()
      modifies this`stack, this`data, this`found, this`objects, nodes`cycle
      ensures CyclesFollow() && Held()
      ensures v in old(data) ==> order' == order && At(order') == old(At(order))
      ensures v !in old(data) ==> Returned(old(At(order)), At(order'), active, v)
      decreases functions.Keys - data.Keys, 1
    {
      hide Inv, Working, AllReach, Follow, Returned, Numbered, FoundOk, Cut, Held;
      if v in data { return order; }
      ghost var s0 := At(order);
      WorkStarts(s0, active, v);
      data := data[v := TarjanData(order, order, true)];
      order' := order + 1;
      var pos := |stack|;
      stack := stack + [v];
      assert At(order') == Enter(s0, v);
      var k := 0;
      while k < |functions[v].calls|
        invariant k <= |s0.g[v]| && Calls() == s0.g && v in data && old(data.Keys) <= data.Keys
        invariant Working(s0, At(order'), active, v, k) && CyclesFollow() && Held()
      {
        order' := VisitCall(v, k, order', s0, active);
        k := k + 1;
      }
      if data[v].lowlink == data[v].order {
        WorkCuts(s0, At(order'), active, v);
        CloseComponent(pos, order');
      } else {
        WorkLeaves(s0, At(order'), active, v);
      }
    }

    /** One turn of the loop over the calls of `v`. */
    method VisitCall(v: Id, k: nat, order: nat, ghost s0: State, ghost active: set<Id>) returns (order': nat)
      requires Named() && CyclesFollow() && Held() && v in functions && k < |functions[v].calls|
      requires Working(s0, At(order), active, v, k)
      modifies this`stack, this`data, this`found, this`objects, nodes`cycle
      ensures Working(s0, At(order'), active, v, k + 1) && CyclesFollow() && Held()
      ensures Calls() == old(Calls()) && old(data.Keys) <= data.Keys
      decreases functions.Keys - data.Keys, 2
    {
      hide Inv, Follow, Lower, Looping, Extends, AllReach, Held;
      var w := functions[v].calls[k];
      ghost var s := At(order);
      order' := order;
      if w in data {
        if data[w].onstack {
          WorkOnStack(s0, s, active, v, k);
          LowerLink(v, data[w].order, order');
        } else {
          WorkDone(s0, s, active, v, k);
        }
      } else {
        WorkCalls(s0, s, active, v, k);
        order' := Tarjan(w, order, active + {v});
        WorkReturned(s0, s, At(order'), active, v, k);
        LowerLink(v, data[w].lowlink, order');
      }
    }

    /** More than one member make a cycle; a single one keeps None. */
    method MakeCycle(members: seq<Id>) returns (cycle': Cycle?)
      requires forall i :: 0 <= i < |members| ==> members[i] in functions
      requires Named() && forall i, j :: 0 <= i < j < |members| ==> members[i] != members[j]
      modifies nodes`cycle
      ensures cycle' == null <==> |members| <= 1
      ensures cycle' != null ==> fresh(cycle') && cycle'.functions == FunctionsOf(set x | x in members)
      ensures forall x :: x in functions ==>
                functions[x].cycle == if x in members && cycle' != null then cycle' else old(functions[x].cycle)
    {
      cycle' := null;
      if |members| > 1 {
        var cycle := new Cycle();
        cycle' := cycle;
        var i := 0;
        while i < |members|
          invariant i <= |members|
          invariant cycle.functions == FunctionsOf(set x | x in members[..i])
          invariant forall x :: x in functions ==>
                      functions[x].cycle == if x in members[..i] then cycle else old(functions[x].cycle)
        {
          assert members[..i + 1] == members[..i] + [members[i]];
          cycle.AddFunction(functions[members[i]]);
          i := i + 1;
        }
        assert members[..i] == members;
      }
    }

    method MarkOffStack(members: seq<Id>)
      requires forall i :: 0 <= i < |members| ==> members[i] in data
      modifies this`data
      ensures data == Marked(old(data), set x | x in members)
    {
      var i := 0;
      while i < |members|
        invariant i <= |members|
        invariant data == Marked(old(data), set x | x in members[..i])
      {
        assert members[..i + 1] == members[..i] + [members[i]];
        data := data[members[i] := data[members[i]].(onstack := false)];
        i := i + 1;
      }
      assert members[..i] == members;
    }

    /** Takes the functions from `pos` up off the stack. */
    method TakeMembers(pos: nat, ghost order: nat) returns (members: seq<Id>)
      requires Named() && pos < |stack| && Numbered(At(order)) && FoundOk(At(order))
      modifies this`stack, this`data
      ensures stack == Cut(old(At(order)), pos).stack && data == Cut(old(At(order)), pos).data
      ensures forall i :: 0 <= i < |members| ==> members[i] in functions
      ensures forall i, j :: 0 <= i < j < |members| ==> members[i] != members[j]
      ensures (set x | x in members) == TarjanState.Members(old(At(order)), pos) && members != []
      ensures forall k :: 0 <= k < |found| ==> found[k] !! set x | x in members
    {
      ghost var s := At(order);
      members := stack[pos..];
      forall i, j | 0 <= i < j < |members| ensures members[i] != members[j] { OrderIndex(s, pos + i, pos + j); }
      forall i | 0 <= i < |members| ensures members[i] in data && members[i] in functions {
        assert members[i] == stack[pos + i];
      }
      CutDisjoint(s, pos);
      MarkOffStack(members);
      stack := stack[..pos];
    }

    /** Gives the members of a component their cycle object, if they need one. */
    method Record(members: seq<Id>)
      requires Named() && CyclesFollow() && Held() && members != []
      requires forall i :: 0 <= i < |members| ==> members[i] in functions
      requires forall i, j :: 0 <= i < j < |members| ==> members[i] != members[j]
      requires forall k :: 0 <= k < |found| ==> found[k] !! set x | x in members
      modifies this`found, this`objects, nodes`cycle
      ensures found == old(found) + [set x | x in members] && CyclesFollow() && Held()
    {
      ghost var ms := set x | x in members;
      MembersSize(members);
      ghost var before := CycleOf();
      assert forall x :: x in ms ==> before[x] == null;
      var cycle' := MakeCycle(members);
      FollowSnoc(found, objects, before, ms, cycle', CycleOf());
      hide Follow;
      found := found + [ms];
      objects := objects + [cycle'];
    }

    method CloseComponent(pos: nat, ghost order: nat)
      requires Named() && CyclesFollow() && Held() && pos < |stack|
      requires Numbered(At(order)) && FoundOk(At(order))
      modifies this`stack, this`data, this`found, this`objects, nodes`cycle
      ensures At(order) == Cut(old(At(order)), pos)
      ensures CyclesFollow() && Held()
    {
      hide Numbered, FoundOk, Follow, Marked, TarjanState.Members, Held;
      var members := TakeMembers(pos, order);
      Record(members);
    }

    static lemma {:induction false} MembersSize(members: seq<Id>)
      requires members != [] && forall i, j :: 0 <= i < j < |members| ==> members[i] != members[j]
      ensures |set x | x in members| == |members|
    {
      var n := |members| - 1;
      assert members == members[..n] + [members[n]];
      assert (set x | x in members) == (set x | x in members[..n]) + {members[n]};
      if n > 0 { MembersSize(members[..n]); } else { assert (set x | x in members[..n]) == {}; }
    }

    /** Two different functions share a cycle. */
    ghost predicate SameCycle(x: Id, y: Id)
      requires Named() && x in functions && y in functions
      reads this`functions, nodes`cycle
    {
      functions[x].cycle != null && functions[x].cycle == functions[y].cycle
    }

    /** What the objects say once every function is placed. */
    lemma CyclesAreComponents(order: nat)
      requires Named() && CyclesFollow() && Inv(At(order), {}) && data.Keys == functions.Keys
      ensures forall x, y :: x in functions && y in functions && x != y ==> (SameCycle(x, y) <==> Mutual(Calls(), x, y))
      ensures forall x :: x in functions ==>
                (functions[x].cycle == null <==> forall y :: y in functions && Mutual(Calls(), x, y) ==> y == x)
    {
      var s := At(order);
      AllFound(s);
      hide Mutual;
      forall x, y | x in functions && y in functions && x != y ensures SameCycle(x, y) <==> Mutual(Calls(), x, y) {
        ShareObject(s, x, y);
      }
      forall x | x in functions
        ensures functions[x].cycle == null <==> forall y :: y in functions && Mutual(Calls(), x, y) ==> y == x
      {
        AloneOrNot(s, x);
      }
    }

    lemma ShareObject(s: State, x: Id, y: Id)
      requires Named() && CyclesFollow() && s.found == found && x in functions && y in functions && x != y
      requires FoundOk(s) && Done(s, x) && Done(s, y)
      ensures SameCycle(x, y) <==> exists k :: 0 <= k < |found| && x in found[k] && y in found[k]
    {
      FoundAt(s, x);
      FoundAt(s, y);
      var k :| 0 <= k < |found| && x in found[k];
      var l :| 0 <= l < |found| && y in found[l];
      ComponentSize(found[k], x);
      assert CycleOf()[x] == objects[k] && CycleOf()[y] == objects[l];
      if SameCycle(x, y) {
        assert k == l;
      }
      if m :| 0 <= m < |found| && x in found[m] && y in found[m] {
        ComponentSize(found[m], x);
        assert CycleOf()[x] == objects[m] && CycleOf()[y] == objects[m];
      }
    }

    lemma AloneOrNot(s: State, x: Id)
      requires Named() && CyclesFollow() && s.found == found && s.g == Calls() && x in functions
      requires FoundOk(s) && Done(s, x)
      ensures functions[x].cycle == null <==> forall y :: y in functions && Mutual(Calls(), x, y) ==> y == x
    {
      FoundAt(s, x);
      var k :| 0 <= k < |found| && x in found[k];
      assert CycleOf()[x] == objects[k] && Component(s.g, found[k]);
      hide Mutual;
      ComponentSize(found[k], x);
    }

    /** Afterwards two different functions share a cycle object iff each reaches the other, a function that is
        mutually reachable with no other keeps None, and `cycles` lists each cycle object once. */
    method FindCycles()
      requires Named() && CallGraph.Closed(Calls())
      requires forall x :: x in functions ==> functions[x].cycle == null
      modifies this`stack, this`data, this`found, this`objects, this`cycles, nodes`cycle
      ensures Calls() == old(Calls())
      ensures forall x, y :: x in functions && y in functions && x != y ==> (SameCycle(x, y) <==> Mutual(Calls(), x, y))
      ensures forall x :: x in functions ==>
                (functions[x].cycle == null <==> forall y :: y in functions && Mutual(Calls(), x, y) ==> y == x)
      ensures forall i, j :: 0 <= i < j < |cycles| ==> cycles[i] != cycles[j]
      ensures forall x :: x in functions && functions[x].cycle != null ==> functions[x].cycle in cycles
      ensures forall c :: c in cycles ==> exists x :: x in functions && functions[x].cycle == c
      ensures forall c, f :: c in cycles ==> (f in c.functions <==> f.id in functions && functions[f.id] == f && f.cycle == c)
    {
      hide Inv, Follow, Held, Mutual;
      var order := SearchAll();
      CyclesAreComponents(order);
      MembersHeld(order);
      CollectCycles();
    }

    /** The functions a cycle lists are those that point to it. */
    lemma MembersHeld(order: nat)
      requires Named() && CyclesFollow() && Held()
      ensures forall x :: x in functions && functions[x].cycle != null ==>
                forall f :: f in functions[x].cycle.functions <==> f.id in functions && functions[f.id] == f && f.cycle == functions[x].cycle
    {
      forall x, f | x in functions && functions[x].cycle != null
        ensures f in functions[x].cycle.functions <==> f.id in functions && functions[f.id] == f && f.cycle == functions[x].cycle
      {
        var c := functions[x].cycle;
        assert CycleOf()[x] == c;
        var k :| 0 <= k < |found| && x in found[k];
        assert objects[k] == c && c.functions == FunctionsOf(found[k]);
        if f in c.functions {
          var y :| y in found[k] && y in functions && functions[y] == f;
          assert CycleOf()[y] == c;
        }
        if f.id in functions && functions[f.id] == f && f.cycle == c {
          assert CycleOf()[f.id] == c;
          var l :| 0 <= l < |found| && f.id in found[l];
          assert objects[l] == c;
          assert l == k;
        }
      }
    }

    method Reset()
      requires Named() && CallGraph.Closed(Calls())
      requires forall x :: x in functions ==> functions[x].cycle == null
      modifies this`stack, this`data, this`found, this`objects
      ensures Calls() == old(Calls()) && Inv(At(0), {}) && CyclesFollow() && Held()
    {
      stack, data, found, objects := [], map[], [], [];
      NothingYet(Calls());
    }

    /** Applies `Tarjan` to every function, in any order. */
    method SearchAll() returns (order: nat)
      requires Named() && CallGraph.Closed(Calls())
      requires forall x :: x in functions ==> functions[x].cycle == null
      modifies this`stack, this`data, this`found, this`objects, nodes`cycle
      ensures Calls() == old(Calls()) && data.Keys == functions.Keys
      ensures Inv(At(order), {}) && CyclesFollow() && Held()
    {
      hide Inv, Follow, Returned, Held;
      Reset();
      order := 0;
      var todo := functions.Keys;
      while todo != {}
        invariant todo <= functions.Keys && functions.Keys - todo <= data.Keys
        invariant Calls() == old(Calls()) && CyclesFollow() && Held() && Inv(At(order), {})
        decreases todo
      {
        var v :| v in todo;
        todo := todo - {v};
        ghost var s := At(order);
        order := Tarjan(v, order, {});
        if v !in s.data { NextRoot(s, At(order), v); }
      }
      InvInside(At(order), {});
    }

    method CollectCycles()
      requires Named()
      modifies this`cycles
      ensures forall i, j :: 0 <= i < j < |cycles| ==> cycles[i] != cycles[j]
      ensures forall x :: x in functions && functions[x].cycle != null ==> functions[x].cycle in cycles
      ensures forall c :: c in cycles ==> exists x :: x in functions && functions[x].cycle == c
    {
      var collected: seq<Cycle> := [];
      var todo := functions.Keys;
      while todo != {}
        invariant todo <= functions.Keys
        invariant forall i, j :: 0 <= i < j < |collected| ==> collected[i] != collected[j]
        invariant forall x :: x in functions && x !in todo && functions[x].cycle != null ==> functions[x].cycle in collected
        invariant forall c :: c in collected ==> exists x :: x in functions && old(functions[x].cycle) == c
        decreases todo
      {
        var x :| x in todo;
        todo := todo - {x};
        if functions[x].cycle != null && functions[x].cycle !in collected {
          collected := collected + [functions[x].cycle];
        }
      }
      cycles := collected;
      assert forall x :: x in functions ==> functions[x].cycle == old(functions[x].cycle);
    }

    // ---- prune_root ----

    /** Keeps exactly the functions reached from `root`. */
    method PruneRoot(root: Id)
      requires Named() && CallGraph.Closed(Calls()) && root in functions
      modifies this`functions
      ensures forall x :: x in functions <==> Reach(old(Calls()), root, x)
      ensures forall x :: x in functions ==> x in old(functions) && functions[x] == old(functions)[x]
      ensures CallGraph.Closed(map x | x in functions :: functions[x].calls)
    {
      ghost var g := Calls();
      var visited: set<Id> := {};
      var frontier := {root};
      ReachSelf(g, root);
      while frontier != {}
        invariant frontier !! visited && root in visited + frontier
        invariant visited + frontier <= functions.Keys
        invariant forall x :: x in visited + frontier ==> Reach(g, root, x)
        invariant forall x, i :: x in visited && 0 <= i < |g[x]| ==> g[x][i] in visited + frontier
        decreases functions.Keys - visited
      {
        var node :| node in frontier;
        frontier := frontier - {node};
        visited := visited + {node};
        var newNodes := set c | c in functions[node].calls;
        forall c | c in newNodes ensures c in g && Reach(g, root, c) {
          var i :| 0 <= i < |g[node]| && g[node][i] == c;
          ReachEdge(g, node, c);
          ReachTransitive(g, root, node, c);
        }
        frontier := frontier + (newNodes - visited);
      }
      forall x | Reach(g, root, x) ensures x in visited { ReachStaysInside(g, visited, root, x); }
      functions := map n | n in visited :: functions[n];
    }
  }
}

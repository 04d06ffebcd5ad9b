/** Cycles in the wait-for graph, and the depth-first search that finds one. */
module WaitForGraph {
  import opened Options
  import opened LockCommands
  import opened LockTable

  type Graph = map<Client, set<Client>>

  predicate IsWalk(g: Graph, w: seq<Client>) {
    forall i | 0 < i < |w| :: w[i] in WaitsFor(g, w[i - 1])
  }

  /** Along at least one edge and back to the start. */
  predicate IsClosedWalk(g: Graph, w: seq<Client>) {
    |w| >= 2 && w[0] == w[|w| - 1] && IsWalk(g, w)
  }

  /** A closed walk that repeats no client but its ends. */
  predicate IsCycle(g: Graph, w: seq<Client>) {
    IsClosedWalk(g, w) && forall i, j | 0 <= i < j < |w| - 1 :: w[i] != w[j]
  }

  ghost predicate HasCycle(g: Graph) {
    exists w :: IsClosedWalk(g, w)
  }

  function Vertices(g: Graph): set<Client> {
    g.Keys + set u, v | u in g && v in g[u] :: v
  }

  /** The edges lead downwards in this numbering, and lead only to numbered clients. */
  ghost predicate Descends(g: Graph, rank: map<Client, nat>) {
    forall u, v | u in rank && v in WaitsFor(g, u) :: v in rank && rank[v] < rank[u]
  }

  /** A walk inside a descending numbering goes strictly down. */
  lemma {:induction false} WalkDescends(g: Graph, rank: map<Client, nat>, w: seq<Client>, i: nat)
    requires Descends(g, rank) && IsWalk(g, w) && i < |w| && w[0] in rank
    ensures w[i] in rank && (i > 0 ==> rank[w[i]] < rank[w[0]])
  {
    if i > 0 {
      WalkDescends(g, rank, w, i - 1);
    }
  }

  lemma NumberingExcludesCycles(g: Graph, rank: map<Client, nat>)
    requires Descends(g, rank) && g.Keys <= rank.Keys
    ensures !HasCycle(g)
  {
    forall w ensures !IsClosedWalk(g, w) {
      if IsClosedWalk(g, w) {
        assert w[1] in WaitsFor(g, w[0]);
        WalkDescends(g, rank, w, |w| - 1);
      }
    }
  }

  /** A shortest closed walk repeats nobody: cycles and closed walks exist together. */
  lemma {:induction false} ClosedWalkHasCycle(g: Graph, w: seq<Client>) returns (cycle: seq<Client>)
    requires IsClosedWalk(g, w)
    ensures IsCycle(g, cycle)
    decreases |w|
  {
    if i, j :| 0 <= i < j < |w| - 1 && w[i] == w[j] {
      cycle := ClosedWalkHasCycle(g, w[i..j + 1]);
    } else {
      cycle := w;
    }
  }

  function AgeOf(ages: map<Client, int>, c: Client): int {
    if c in ages then ages[c] else 0
  }

  /** Nobody on the list made a first request later. */
  predicate IsYoungest(ages: map<Client, int>, cycle: seq<Client>, victim: Client) {
    victim in cycle && forall c | c in cycle :: AgeOf(ages, c) <= AgeOf(ages, victim)
  }

  datatype Color = White | Gray | Black

  function Reversed(s: seq<Client>): (r: seq<Client>)
    ensures |r| == |s| && forall i | 0 <= i < |s| :: r[i] == s[|s| - 1 - i]
  {
    seq(|s|, i requires 0 <= i < |s| => s[|s| - 1 - i])
  }

  class CycleSearch {
    const graph: Graph
    var color: map<Client, Color>
    var parent: map<Client, Client>
    ghost var stack: seq<Client>             // the gray clients, from the root down
    ghost var finished: map<Client, nat>     // the black clients, numbered as they turned black
    ghost var clock: nat

    constructor (graph: Graph)
      ensures this.graph == graph && Valid() && stack == [] && finished == map[]
    {
      this.graph := graph;
      color, parent := map[], map[];
      stack, finished, clock := [], map[], 0;
    }

    function ColorOf(c: Client): Color
      reads this
    {
      if c in color then color[c] else White
    }

    ghost function Whites(): set<Client>
      reads this
    {
      set c | c in Vertices(graph) && ColorOf(c) == White
    }

    ghost predicate StackOk()
      reads this
    {
      && (forall c :: c in stack <==> ColorOf(c) == Gray)
      && (forall i, j | 0 <= i < j < |stack| :: stack[i] != stack[j])
      && (forall i | 0 < i < |stack| :: stack[i] in parent && parent[stack[i]] == stack[i - 1])
      && IsWalk(graph, stack)
    }

    ghost predicate Valid()
      reads this
    {
      && StackOk()
      && (forall c :: c in finished <==> ColorOf(c) == Black)
      && (forall c | c in finished :: finished[c] < clock)
      && Descends(graph, finished)
    }

    /** Follows the parents from u up to v, both gray. */
    method Reconstruct(v: Client, u: Client) returns (cycle: seq<Client>)
      requires StackOk() && stack != [] && stack[|stack| - 1] == u && ColorOf(v) == Gray && v in WaitsFor(graph, u)
      ensures IsCycle(graph, cycle)
    {
      ghost var p :| 0 <= p < |stack| && stack[p] == v;
      ghost var j := |stack| - 1;
      cycle := [v];
      var cur := u;
      while cur != v
        invariant p <= j < |stack| && cur == stack[j]
        invariant |cycle| == |stack| - j && cycle[0] == v
        invariant forall k | 0 < k < |cycle| :: cycle[k] == stack[|stack| - k]
        decreases j
      {
        cycle := cycle + [cur];
        cur := parent[cur];
        j := j - 1;
      }
      cycle := cycle + [v];
      var found := Reversed(cycle);
      assert forall k | 0 <= k < |found| - 1 :: found[k] == stack[p + k];
      cycle := found;
    }

    /** Colors a white client gray and puts it on the stack. */
    method Enter(u: Client)
      requires Valid() && u in Vertices(graph) && ColorOf(u) == White && ReachedFromTop(u)
      modifies this`color, this`stack
      ensures Valid() && stack == old(stack) + [u]
      ensures u in old(Whites()) && Whites() == old(Whites()) - {u}
    {
      color := color[u := Gray];
      stack := stack + [u];
    }

    /** The client starts the stack, or is waited for by the top and has it as parent. */
    ghost predicate ReachedFromTop(u: Client)
      reads this
    {
      stack != [] ==> var top := stack[|stack| - 1]; u in WaitsFor(graph, top) && u in parent && parent[u] == top
    }

    /** Records the parent of a white client waited for by the top of the stack. */
    method Adopt(v: Client, u: Client)
      requires Valid() && stack != [] && stack[|stack| - 1] == u && ColorOf(v) == White && v in WaitsFor(graph, u)
      modifies this`parent
      ensures Valid() && ReachedFromTop(v) && v in Vertices(graph) && Whites() == old(Whites())
    {
      assert v !in stack;
      parent := parent[v := u];
    }

    /** Colors the client on top of the stack black, all it waits for being black. */
    method Leave(u: Client)
      requires Valid() && stack != [] && stack[|stack| - 1] == u
      requires forall v | v in WaitsFor(graph, u) :: v in finished
      modifies this`color, this`stack, this`finished, this`clock
      ensures Valid() && stack == old(stack)[..|old(stack)| - 1]
      ensures finished.Keys == old(finished.Keys) + {u} && Whites() == old(Whites())
    {
      hide Descends, IsWalk;
      ghost var before := stack;
      Popped(before);
      WalkPrefix(graph, before);
      OneMoreNumber(graph, finished, u, clock);
      assert forall c :: c in before <==> ColorOf(c) == Gray;
      color := color[u := Black];
      finished := finished[u := clock];
      clock := clock + 1;
      stack := stack[..|stack| - 1];
      assert forall c :: c in stack <==> c in before && c != u;
    }

    method Dfs(u: Client) returns (cycle: Option<seq<Client>>)
      requires Valid() && u in Vertices(graph) && ColorOf(u) == White && ReachedFromTop(u)
      modifies this
      ensures cycle.Some? ==> IsCycle(graph, cycle.value)
      ensures cycle.None? ==> Valid() && stack == old(stack) && u in finished && old(finished.Keys) <= finished.Keys
      ensures cycle.None? ==> Whites() <= old(Whites())
      decreases |Whites()|
    {
      hide StackOk, Descends, Whites, IsCycle, WaitsFor, Vertices;
      Enter(u);
      var todo := WaitsFor(graph, u);
      while todo != {}
        invariant todo <= WaitsFor(graph, u)
        invariant Valid() && stack == old(stack) + [u] && old(finished.Keys) <= finished.Keys
        invariant Whites() <= old(Whites()) - {u}
        invariant forall v | v in WaitsFor(graph, u) && v !in todo :: v in finished
        decreases |todo|
      {
        var v :| v in todo;
        todo := todo - {v};
        if ColorOf(v) == Gray {
          var found := Reconstruct(v, u);
          return Some(found);
        }
        if ColorOf(v) == White {
          Adopt(v, u);
          Smaller(Whites(), old(Whites()), u);
          var found := Dfs(v);
          if found.Some? {
            return found;
          }
        }
      }
      Leave(u);
      return None;
    }

    /** One cycle, if there is one. */
    method Run() returns (cycle: Option<seq<Client>>)
      requires Valid() && stack == []
      modifies this
      ensures cycle.Some? ==> IsCycle(graph, cycle.value)
      ensures cycle.Some? <==> HasCycle(graph)
    {
      var todo := graph.Keys;
      while todo != {}
        invariant todo <= graph.Keys && Valid() && stack == []
        invariant forall v | v in graph && v !in todo :: v in finished
        decreases |todo|
      {
        var v :| v in todo;
        todo := todo - {v};
        if ColorOf(v) == White {
          var found := Dfs(v);
          if found.Some? {
            return found;
          }
        }
      }
      NumberingExcludesCycles(graph, finished);
      return None;
    }
  }

  /** What is left of a stack without repetitions when its top is taken off. */
  lemma Popped(s: seq<Client>)
    requires s != [] && forall i, j | 0 <= i < j < |s| :: s[i] != s[j]
    ensures forall c :: c in s[..|s| - 1] <==> c in s && c != s[|s| - 1]
  {
  }

  lemma WalkPrefix(g: Graph, w: seq<Client>)
    requires IsWalk(g, w) && w != []
    ensures IsWalk(g, w[..|w| - 1])
  {
  }

  lemma OneMoreNumber(g: Graph, rank: map<Client, nat>, u: Client, next: nat)
    requires Descends(g, rank) && u !in rank && (forall c | c in rank :: rank[c] < next)
    requires forall v | v in WaitsFor(g, u) :: v in rank
    ensures Descends(g, rank[u := next])
  {
  }

  lemma Smaller(a: set<Client>, b: set<Client>, u: Client)
    requires a <= b - {u} && u in b
    ensures |a| < |b|
  {
    var rest := b - {u} - a;
    assert b == a + rest + {u};
  }
}

// Component dependency cycles (registry.rs): a depth-first search with an explicit
// work list, leave markers and a set of nodes shared by all roots.

module ComponentCycles {
  type Node = string

  /** Components and the components they use, each list in the order of its set. */
  type Edges = map<Node, seq<Node>>

  function Children(edges: Edges, node: Node): seq<Node> {
    if node in edges then edges[node] else []
  }

  function Nodes(edges: Edges): set<Node> {
    edges.Keys + set node, i | node in edges && 0 <= i < |edges[node]| :: edges[node][i]
  }

  ghost predicate IsEdge(edges: Edges, from: Node, to: Node) {
    to in Children(edges, from)
  }

  ghost predicate Joined(edges: Edges, walk: seq<Node>, i: nat)
    requires 0 < i < |walk|
  {
    IsEdge(edges, walk[i - 1], walk[i])
  }

  ghost predicate Walk(edges: Edges, walk: seq<Node>) {
    forall i :: 0 < i < |walk| ==> Joined(edges, walk, i)
  }

  /** A walk along edges back to its first node. */
  ghost predicate Cycle(edges: Edges, walk: seq<Node>) {
    |walk| > 1 && walk[0] == walk[|walk| - 1] && Walk(edges, walk)
  }

  ghost predicate Distinct<T(!new)>(s: seq<T>) {
    forall i, j :: 0 <= i < j < |s| ==> s[i] != s[j]
  }

  ghost predicate Acyclic(edges: Edges) {
    !exists walk :: Cycle(edges, walk)
  }

  /** A reported list: a cycle that passes through no node twice. */
  ghost predicate Reported(edges: Edges, issue: seq<Node>) {
    Cycle(edges, issue) && Distinct(issue[1..])
  }

  /** Edges that the reports close their cycles with. */
  type Cut = set<(Node, Node)>

  ghost function Closing(issues: seq<seq<Node>>): Cut {
    set i | 0 <= i < |issues| && |issues[i]| > 1 :: (issues[i][|issues[i]| - 2], issues[i][|issues[i]| - 1])
  }

  // ----- the work list -----

  datatype Item = Item(path: Node, leaving: bool)

  /** Children pushed last first, so that the first one is popped first. */
  function Todo(paths: seq<Node>): (items: seq<Item>)
    ensures |items| == |paths|
  {
    if |paths| == 0 then [] else Todo(paths[1..]) + [Item(paths[0], false)]
  }

  /** The work list of a search: `rest[i + 1]` are the children of `stack[i]` that are still to come. */
  ghost function Flat(stack: seq<Node>, rest: seq<seq<Node>>): seq<Item>
    requires |rest| == |stack| + 1
  {
    var n := |stack|;
    (if n == 0 then [] else Flat(stack[..n - 1], rest[..n]) + [Item(stack[n - 1], true)]) + Todo(rest[n])
  }

  lemma FlatEnter(stack: seq<Node>, rest: seq<seq<Node>>, path: Node, children: seq<Node>)
    requires |rest| == |stack| + 1
    ensures Flat(stack + [path], rest + [children]) == Flat(stack, rest) + [Item(path, true)] + Todo(children)
  {
  }

  /** What is popped next, and the work list that stays. */
  lemma FlatPop(stack: seq<Node>, rest: seq<seq<Node>>)
    requires |rest| == |stack| + 1
    ensures
      var n := |stack|;
      var pending := Flat(stack, rest);
      && (rest[n] != [] ==> pending == Flat(stack, rest[n := rest[n][1..]]) + [Item(rest[n][0], false)])
      && (rest[n] == [] && n > 0 ==> pending == Flat(stack[..n - 1], rest[..n]) + [Item(stack[n - 1], true)])
      && (rest[n] == [] && n == 0 ==> pending == [])
  {
  }

  // ----- the state of one search -----

  /** The stack is a simple path, and `positions` is its inverse. */
  ghost predicate OnPath(edges: Edges, stack: seq<Node>, positions: map<Node, nat>) {
    && Walk(edges, stack) && Distinct(stack)
    && (forall i :: 0 <= i < |stack| ==> stack[i] in positions && positions[stack[i]] == i)
    && (forall node :: node in positions ==> positions[node] < |stack| && stack[positions[node]] == node)
  }

  /** Each node's children are listed before it, except along the edges that were cut. */
  ghost predicate ChildrenFirst(edges: Edges, finished: seq<Node>, cut: Cut) {
    forall i, c :: 0 <= i < |finished| && IsEdge(edges, finished[i], c) ==>
      c in finished[..i] || (finished[i], c) in cut
  }

  /** A child of a node on the stack is finished, to come, the next on the stack, or cut off. */
  ghost predicate Pursued(edges: Edges, stack: seq<Node>, rest: seq<seq<Node>>, finished: seq<Node>, cut: Cut)
    requires |rest| == |stack| + 1
  {
    forall i, c :: 0 <= i < |stack| && IsEdge(edges, stack[i], c) ==>
      || c in finished || c in rest[i + 1] || (i + 1 < |stack| && c == stack[i + 1])
      || (stack[i], c) in cut
  }

  /** The same with a child that is anywhere on the stack. */
  ghost predicate Seen(edges: Edges, stack: seq<Node>, rest: seq<seq<Node>>, done: set<Node>)
    requires |rest| == |stack| + 1
  {
    && (forall i, c :: 0 <= i < |stack| && IsEdge(edges, stack[i], c) ==> c in done || c in rest[i + 1])
    && (forall node, c :: node in done && node !in stack && IsEdge(edges, node, c) ==> c in done)
  }

  ghost predicate Partition(stack: seq<Node>, finished: seq<Node>, done: set<Node>) {
    && Distinct(finished)
    && (forall node :: node in done <==> node in stack || node in finished)
    && (forall node :: node in stack ==> node !in finished)
  }

  /** The children that stay are children, and have a node to come from. */
  ghost predicate FromChildren(edges: Edges, stack: seq<Node>, rest: seq<seq<Node>>)
    requires |rest| == |stack| + 1
  {
    && (|stack| > 0 ==> rest[0] == [])
    && (forall i :: 0 <= i < |stack| ==> IsSuffix(rest[i + 1], Children(edges, stack[i])))
    && (forall i :: 0 <= i < |rest| ==> forall j :: 0 <= j < |rest[i]| ==> rest[i][j] in Nodes(edges))
  }

  predicate IsSuffix<T(==)>(s: seq<T>, t: seq<T>) {
    |s| <= |t| && t[|t| - |s|..] == s
  }

  // ----- how many edges are looked at -----

  function Degrees(edges: Edges, nodes: seq<Node>): nat {
    if |nodes| == 0 then 0 else Degrees(edges, nodes[..|nodes| - 1]) + |Children(edges, nodes[|nodes| - 1])|
  }

  /** Edges out of the stack's nodes that are still to come. */
  ghost function Owing(rest: seq<seq<Node>>): nat {
    if |rest| <= 1 then 0 else Owing(rest[..|rest| - 1]) + |rest[|rest| - 1]|
  }

  ghost predicate Balanced(edges: Edges, stack: seq<Node>, rest: seq<seq<Node>>, finished: seq<Node>, looked: nat) {
    looked + Owing(rest) == Degrees(edges, finished) + Degrees(edges, stack)
  }

  ghost predicate Searching(edges: Edges, stack: seq<Node>, rest: seq<seq<Node>>, finished: seq<Node>, done: set<Node>,
                            looked: nat, cut: Cut)
  {
    && |rest| == |stack| + 1
    && Partition(stack, finished, done) && Seen(edges, stack, rest, done) && FromChildren(edges, stack, rest)
    && ChildrenFirst(edges, finished, cut) && Pursued(edges, stack, rest, finished, cut)
    && Balanced(edges, stack, rest, finished, looked)
    && done <= Nodes(edges)
  }

  /** One more of the top's children is dealt with. */
  lemma Passed(edges: Edges, stack: seq<Node>, rest: seq<seq<Node>>, finished: seq<Node>, done: set<Node>,
               looked: nat, cut: Cut, cut': Cut)
    requires Searching(edges, stack, rest, finished, done, looked, cut) && rest[|stack|] != []
    requires rest[|stack|][0] in done
    requires cut <= cut'
    requires rest[|stack|][0] in finished || (|stack| > 0 && (stack[|stack| - 1], rest[|stack|][0]) in cut')
    ensures
      var n := |stack|;
      Searching(edges, stack, rest[n := rest[n][1..]], finished, done, looked + (if n > 0 then 1 else 0), cut')
  {
    hide Nodes, Children, Partition, ChildrenFirst, Seen, Pursued, FromChildren, Owing, Degrees;
    OwingNext(rest);
    SuffixNext(edges, stack, rest);
    SeenNext(edges, stack, rest, done);
    PursuedNext(edges, stack, rest, finished, cut, cut');
    FirstGrows(edges, finished, cut, cut');
  }

  lemma SeenNext(edges: Edges, stack: seq<Node>, rest: seq<seq<Node>>, done: set<Node>)
    requires |rest| == |stack| + 1 && Seen(edges, stack, rest, done) && rest[|stack|] != [] && rest[|stack|][0] in done
    ensures
      var n := |stack|;
      Seen(edges, stack, rest[n := rest[n][1..]], done)
  {
    hide Children;
    var n := |stack|;
    assert rest[n] == [rest[n][0]] + rest[n][1..];
  }

  lemma PursuedNext(edges: Edges, stack: seq<Node>, rest: seq<seq<Node>>, finished: seq<Node>, cut: Cut, cut': Cut)
    requires |rest| == |stack| + 1 && Pursued(edges, stack, rest, finished, cut) && rest[|stack|] != [] && cut <= cut'
    requires rest[|stack|][0] in finished || (|stack| > 0 && (stack[|stack| - 1], rest[|stack|][0]) in cut')
    ensures
      var n := |stack|;
      Pursued(edges, stack, rest[n := rest[n][1..]], finished, cut')
  {
    hide Children;
    var n := |stack|;
    assert rest[n] == [rest[n][0]] + rest[n][1..];
  }

  lemma FirstGrows(edges: Edges, finished: seq<Node>, cut: Cut, cut': Cut)
    requires ChildrenFirst(edges, finished, cut) && cut <= cut'
    ensures ChildrenFirst(edges, finished, cut')
  {
    hide Children;
  }

  lemma OwingNext(rest: seq<seq<Node>>)
    requires |rest| > 0 && rest[|rest| - 1] != []
    ensures
      var n := |rest| - 1;
      Owing(rest) == Owing(rest[n := rest[n][1..]]) + if n > 0 then 1 else 0
  {
  }

  lemma SuffixNext(edges: Edges, stack: seq<Node>, rest: seq<seq<Node>>)
    requires |rest| == |stack| + 1 && FromChildren(edges, stack, rest) && rest[|stack|] != []
    ensures
      var n := |stack|;
      FromChildren(edges, stack, rest[n := rest[n][1..]])
  {
    hide Children;
    var n := |stack|;
    assert rest[n] == [rest[n][0]] + rest[n][1..];
  }

  /** A new node is put on the stack, with all its children to come. */
  lemma Found(edges: Edges, stack: seq<Node>, rest: seq<seq<Node>>, finished: seq<Node>, done: set<Node>, looked: nat,
              cut: Cut)
    requires Searching(edges, stack, rest, finished, done, looked, cut) && rest[|stack|] != []
    requires rest[|stack|][0] !in done
    requires |stack| == 0 ==> |rest[0]| == 1
    ensures
      var n := |stack|;
      var path := rest[n][0];
      Searching(edges, stack + [path], rest[n := rest[n][1..]] + [Children(edges, path)], finished, done + {path},
                looked + (if n > 0 then 1 else 0), cut)
  {
    hide Nodes, ChildrenFirst, Children, Partition, Seen, Pursued, FromChildren, Degrees, Owing;
    var n := |stack|;
    var path := rest[n][0];
    FoundBalance(edges, stack, rest);
    FoundSeen(edges, stack, rest, finished, done);
    FoundChildren(edges, stack, rest);
    FoundPartition(stack, finished, done, path);
    FoundPursued(edges, stack, rest, finished, cut);
  }

  lemma FoundBalance(edges: Edges, stack: seq<Node>, rest: seq<seq<Node>>)
    requires |rest| == |stack| + 1 && rest[|stack|] != []
    ensures
      var n := |stack|;
      var path := rest[n][0];
      && Owing(rest[n := rest[n][1..]] + [Children(edges, path)]) + (if n > 0 then 1 else 0) ==
         Owing(rest) + |Children(edges, path)|
      && Degrees(edges, stack + [path]) == Degrees(edges, stack) + |Children(edges, path)|
  {
  }

  lemma FoundPartition(stack: seq<Node>, finished: seq<Node>, done: set<Node>, path: Node)
    requires Partition(stack, finished, done) && path !in done
    ensures Partition(stack + [path], finished, done + {path})
  {
  }

  lemma FoundSeen(edges: Edges, stack: seq<Node>, rest: seq<seq<Node>>, finished: seq<Node>, done: set<Node>)
    requires |rest| == |stack| + 1 && Seen(edges, stack, rest, done) && rest[|stack|] != []
    requires Partition(stack, finished, done)
    ensures
      var n := |stack|;
      var path := rest[n][0];
      Seen(edges, stack + [path], rest[n := rest[n][1..]] + [Children(edges, path)], done + {path})
  {
  }

  lemma FoundPursued(edges: Edges, stack: seq<Node>, rest: seq<seq<Node>>, finished: seq<Node>, cut: Cut)
    requires |rest| == |stack| + 1 && Pursued(edges, stack, rest, finished, cut) && rest[|stack|] != []
    ensures
      var n := |stack|;
      var path := rest[n][0];
      Pursued(edges, stack + [path], rest[n := rest[n][1..]] + [Children(edges, path)], finished, cut)
  {
  }

  lemma FoundChildren(edges: Edges, stack: seq<Node>, rest: seq<seq<Node>>)
    requires |rest| == |stack| + 1 && FromChildren(edges, stack, rest) && rest[|stack|] != []
    requires |stack| == 0 ==> |rest[0]| == 1
    ensures
      var n := |stack|;
      var path := rest[n][0];
      && path in Nodes(edges)
      && FromChildren(edges, stack + [path], rest[n := rest[n][1..]] + [Children(edges, path)])
  {
  }

  /** A node without children to come is finished. */
  lemma Left(edges: Edges, stack: seq<Node>, rest: seq<seq<Node>>, finished: seq<Node>, done: set<Node>, looked: nat,
             cut: Cut)
    requires Searching(edges, stack, rest, finished, done, looked, cut) && |stack| > 0 && rest[|stack|] == []
    requires Distinct(stack)
    ensures
      var n := |stack|;
      Searching(edges, stack[..n - 1], rest[..n], finished + [stack[n - 1]], done, looked, cut)
  {
    hide Nodes, Children, Partition, Pursued, ChildrenFirst;
    var n := |stack|;
    var finished' := finished + [stack[n - 1]];
    assert finished'[..|finished|] == finished;
    LeftPartition(stack, finished, done);
    LeftFirst(edges, stack, rest, finished, cut);
  }

  lemma LeftPartition(stack: seq<Node>, finished: seq<Node>, done: set<Node>)
    requires Partition(stack, finished, done) && |stack| > 0 && Distinct(stack)
    ensures Partition(stack[..|stack| - 1], finished + [stack[|stack| - 1]], done)
  {
    var top := stack[|stack| - 1];
    assert stack == stack[..|stack| - 1] + [top];
    assert top in stack;
  }

  lemma LeftFirst(edges: Edges, stack: seq<Node>, rest: seq<seq<Node>>, finished: seq<Node>, cut: Cut)
    requires |rest| == |stack| + 1 && |stack| > 0 && rest[|stack|] == []
    requires ChildrenFirst(edges, finished, cut) && Pursued(edges, stack, rest, finished, cut)
    ensures ChildrenFirst(edges, finished + [stack[|stack| - 1]], cut)
    ensures Pursued(edges, stack[..|stack| - 1], rest[..|stack|], finished + [stack[|stack| - 1]], cut)
  {
    hide Children;
    var n := |stack|;
    var all := finished + [stack[n - 1]];
    forall i, c | 0 <= i < |all| && IsEdge(edges, all[i], c)
      ensures c in all[..i] || (all[i], c) in cut
    {
      if i < |finished| {
        assert all[..i] == finished[..i];
      } else {
        assert all[..i] == finished;
        assert IsEdge(edges, stack[n - 1], c);
      }
    }
    forall i, c | 0 <= i < n - 1 && IsEdge(edges, stack[i], c)
      ensures c in all || c in rest[i + 1] || (i + 1 < n - 1 && c == stack[i + 1])
              || (stack[i], c) in cut
    {
    }
  }

  lemma PathDistinct(edges: Edges, stack: seq<Node>, positions: map<Node, nat>)
    requires OnPath(edges, stack, positions)
    ensures Distinct(stack) && forall node :: node in positions ==> positions[node] < |stack|
  {
  }

  lemma PathPush(edges: Edges, stack: seq<Node>, positions: map<Node, nat>, path: Node)
    requires OnPath(edges, stack, positions) && path !in positions
    requires |stack| > 0 ==> IsEdge(edges, stack[|stack| - 1], path)
    ensures OnPath(edges, stack + [path], positions[path := |stack|])
  {
    var walk := stack + [path];
    forall i | 0 < i < |walk|
      ensures Joined(edges, walk, i)
    {
      if i < |stack| { assert Joined(edges, stack, i); }
    }
  }

  lemma PathPop(edges: Edges, stack: seq<Node>, positions: map<Node, nat>)
    requires OnPath(edges, stack, positions) && |stack| > 0
    ensures OnPath(edges, stack[..|stack| - 1], positions - {stack[|stack| - 1]})
  {
    var walk := stack[..|stack| - 1];
    forall i | 0 < i < |walk|
      ensures Joined(edges, walk, i)
    {
      assert Joined(edges, stack, i);
    }
  }

  /** Back at a node of the stack: the stack from there on is a cycle. */
  lemma CycleFound(edges: Edges, stack: seq<Node>, positions: map<Node, nat>, path: Node)
    requires OnPath(edges, stack, positions) && path in positions
    requires |stack| > 0 ==> IsEdge(edges, stack[|stack| - 1], path)
    ensures Reported(edges, stack[positions[path]..] + [path])
  {
    var index := positions[path];
    var walk := stack[index..] + [path];
    assert forall i :: 0 <= i < |walk| - 1 ==> walk[i] == stack[index + i];
    forall i | 0 < i < |walk|
      ensures Joined(edges, walk, i)
    {
      if i < |walk| - 1 { assert Joined(edges, stack, index + i); }
    }
  }

  /** A new root is a child of no node. */
  lemma Start(edges: Edges, root: Node, finished: seq<Node>, done: set<Node>, looked: nat, cut: Cut)
    requires root in Nodes(edges) && Searching(edges, [], [[]], finished, done, looked, cut)
    ensures Searching(edges, [], [[root]], finished, done, looked, cut)
    ensures OnPath(edges, [], map[]) && Flat([], [[root]]) == [Item(root, false)]
    ensures FromRoot(root, [], [[root]], done)
  {
  }

  lemma Popped(edges: Edges, stack: seq<Node>, rest: seq<seq<Node>>, finished: seq<Node>, done: set<Node>,
               looked: nat, cut: Cut, positions: map<Node, nat>)
    requires Searching(edges, stack, rest, finished, done, looked, cut) && rest[|stack|] != []
    requires OnPath(edges, stack, positions)
    ensures
      var path := rest[|stack|][0];
      && path in Nodes(edges)
      && (|stack| > 0 ==> IsEdge(edges, stack[|stack| - 1], path))
      && (path in positions ==> path in done)
      && (path in done && path !in positions ==> path in finished)
  {
  }

  // ----- the search -----

  lemma Fewer(nodes: set<Node>, done: set<Node>, path: Node)
    requires path in nodes && path !in done
    ensures |nodes - (done + {path})| < |nodes - done|
  {
    assert nodes - done == nodes - (done + {path}) + {path};
  }

  /** The search began at `root`, which is still to come or done. */
  ghost predicate FromRoot(root: Node, stack: seq<Node>, rest: seq<seq<Node>>, done: set<Node>)
    requires |rest| == |stack| + 1
  {
    && (|stack| == 0 ==> rest == [[root]] || (rest == [[]] && root in done))
    && (|stack| > 0 ==> rest[0] == [] && root in done)
  }

  lemma RootNext(root: Node, stack: seq<Node>, rest: seq<seq<Node>>, done: set<Node>)
    requires |rest| == |stack| + 1 && FromRoot(root, stack, rest, done) && rest[|stack|] != []
    requires rest[|stack|][0] in done
    ensures
      var n := |stack|;
      FromRoot(root, stack, rest[n := rest[n][1..]], done)
  {
    if |stack| == 0 { assert rest[0][1..] == []; }
  }

  lemma RootEntered(root: Node, stack: seq<Node>, rest: seq<seq<Node>>, done: set<Node>, children: seq<Node>)
    requires |rest| == |stack| + 1 && FromRoot(root, stack, rest, done) && rest[|stack|] != []
    ensures
      var n := |stack|;
      var path := rest[n][0];
      && FromRoot(root, stack + [path], rest[n := rest[n][1..]] + [children], done + {path})
      && (n == 0 ==> |rest[0]| == 1)
  {
    if |stack| == 0 { assert rest[0][1..] == []; }
  }

  lemma RootLeft(root: Node, stack: seq<Node>, rest: seq<seq<Node>>, done: set<Node>)
    requires |rest| == |stack| + 1 && FromRoot(root, stack, rest, done) && |stack| > 0
    ensures FromRoot(root, stack[..|stack| - 1], rest[..|stack|], done)
  {
    if |stack| == 1 { assert rest[..1] == [[]]; }
  }

  ghost predicate AllReported(edges: Edges, issues: seq<seq<Node>>) {
    forall i :: 0 <= i < |issues| ==> Reported(edges, issues[i])
  }

  lemma ClosingPush(issues: seq<seq<Node>>, report: seq<Node>)
    requires |report| > 1
    ensures Closing(issues + [report]) == Closing(issues) + {(report[|report| - 2], report[|report| - 1])}
  {
    var all := issues + [report];
    forall edge | edge in Closing(issues)
      ensures edge in Closing(all)
    {
      var i :| 0 <= i < |issues| && |issues[i]| > 1 && edge == (issues[i][|issues[i]| - 2], issues[i][|issues[i]| - 1]);
      assert all[i] == issues[i];
    }
    assert all[|issues|] == report;
  }

  lemma ReportedPush(edges: Edges, issues: seq<seq<Node>>, issue: seq<Node>)
    requires AllReported(edges, issues) && Reported(edges, issue)
    ensures AllReported(edges, issues + [issue])
  {
  }

  /** Search from one root; `finished` and `looked` record the order and the number of edges examined. */
  method Visit(root: Node, edges: Edges, done0: set<Node>, issues0: seq<seq<Node>>, ghost finished0: seq<Node>,
               ghost looked0: nat)
    returns (done: set<Node>, issues: seq<seq<Node>>, ghost finished: seq<Node>, ghost looked: nat)
    requires root in Nodes(edges)
    requires Searching(edges, [], [[]], finished0, done0, looked0, Closing(issues0))
    requires AllReported(edges, issues0)
    ensures Searching(edges, [], [[]], finished, done, looked, Closing(issues))
    ensures AllReported(edges, issues)
    ensures done0 + {root} <= done
  {
    hide Searching, Reported, AllReported, Closing, OnPath, Flat, FromRoot, IsEdge, Nodes, Todo, Children;
    done, issues, finished, looked := done0, issues0, finished0, looked0;
    var stack: seq<Node> := [];
    var pending := [Item(root, false)];
    var positions: map<Node, nat> := map[];
    ghost var rest: seq<seq<Node>> := [[root]];
    Start(edges, root, finished, done, looked, Closing(issues));
    while |pending| > 0
      invariant |rest| == |stack| + 1 && pending == Flat(stack, rest)
      invariant Searching(edges, stack, rest, finished, done, looked, Closing(issues))
      invariant OnPath(edges, stack, positions)
      invariant FromRoot(root, stack, rest, done)
      invariant done0 <= done && AllReported(edges, issues)
      decreases |Nodes(edges) - done|, |pending|
    {
      FlatPop(stack, rest);
      var item := pending[|pending| - 1];
      pending := pending[..|pending| - 1];
      var path := item.path;
      if item.leaving {
        PathDistinct(edges, stack, positions);
        Left(edges, stack, rest, finished, done, looked, Closing(issues));
        PathPop(edges, stack, positions);
        RootLeft(root, stack, rest, done);
        finished := finished + [path];
        rest := rest[..|stack|];
        stack := stack[..|stack| - 1];
        positions := positions - {path};
        continue;
      }
      ghost var n := |stack|;
      Popped(edges, stack, rest, finished, done, looked, Closing(issues), positions);
      if path in positions {
        PathDistinct(edges, stack, positions);
        CycleFound(edges, stack, positions, path);
        var report := stack[positions[path]..] + [path];
        ClosingPush(issues, report);
        Passed(edges, stack, rest, finished, done, looked, Closing(issues), Closing(issues + [report]));
        RootNext(root, stack, rest, done);
        ReportedPush(edges, issues, report);
        issues := issues + [report];
        looked := looked + if n > 0 then 1 else 0;
        rest := rest[n := rest[n][1..]];
        continue;
      }
      if path in done {
        Passed(edges, stack, rest, finished, done, looked, Closing(issues), Closing(issues));
        RootNext(root, stack, rest, done);
        looked := looked + if n > 0 then 1 else 0;
        rest := rest[n := rest[n][1..]];
        continue;
      }
      RootEntered(root, stack, rest, done, Children(edges, path));
      Found(edges, stack, rest, finished, done, looked, Closing(issues));
      Fewer(Nodes(edges), done, path);
      PathPush(edges, stack, positions, path);
      FlatEnter(stack, rest[n := rest[n][1..]], path, Children(edges, path));
      looked := looked + if n > 0 then 1 else 0;
      rest := rest[n := rest[n][1..]] + [Children(edges, path)];
      done := done + {path};
      positions := positions[path := |stack|];
      stack := stack + [path];
      pending := pending + [Item(path, true)];
      pending := pending + Todo(Children(edges, path));
    }
    Ended(root, stack, rest, done);
  }

  lemma Ended(root: Node, stack: seq<Node>, rest: seq<seq<Node>>, done: set<Node>)
    requires |rest| == |stack| + 1 && Flat(stack, rest) == [] && FromRoot(root, stack, rest, done)
    ensures stack == [] && rest == [[]] && root in done
  {
  }

  // ----- all roots -----

  /** Every component, listed once. */
  ghost predicate Enumerates(edges: Edges, order: seq<Node>) {
    Distinct(order) && forall node :: node in order <==> node in Nodes(edges)
  }

  /** The components' keys in the map's order. */
  ghost predicate KeysOf(edges: Edges, keys: seq<Node>) {
    Distinct(keys) && forall node :: node in keys <==> node in edges
  }

  lemma AllDone(edges: Edges, finished: seq<Node>, done: set<Node>, looked: nat, cut: Cut)
    requires Searching(edges, [], [[]], finished, done, looked, cut) && edges.Keys <= done
    ensures Enumerates(edges, finished) && looked == Degrees(edges, finished)
    ensures ChildrenFirst(edges, finished, cut)
  {
  }

  /** The walk uses one of the edges. */
  ghost predicate Uses(walk: seq<Node>, cut: Cut) {
    exists i :: 0 < i < |walk| && (walk[i - 1], walk[i]) in cut
  }

  /** Along a walk that uses no cut edge, nodes come earlier and earlier in an order that puts children first. */
  lemma {:induction false} Descends(edges: Edges, order: seq<Node>, cut: Cut, walk: seq<Node>, at: nat)
    returns (low: nat)
    requires ChildrenFirst(edges, order, cut) && Walk(edges, walk) && |walk| > 1 && !Uses(walk, cut)
    requires at < |order| && order[at] == walk[0]
    ensures low < at && order[low] == walk[|walk| - 1]
    decreases |walk|
  {
    assert Joined(edges, walk, 1);
    assert (walk[1 - 1], walk[1]) !in cut;
    assert walk[1] in order[..at];
    var next :| 0 <= next < at && order[..at][next] == walk[1];
    if |walk| == 2 {
      low := next;
    } else {
      var tail := walk[1..];
      forall i | 0 < i < |tail|
        ensures Joined(edges, tail, i) && (tail[i - 1], tail[i]) !in cut
      {
        assert Joined(edges, walk, i + 1);
        assert (walk[i + 1 - 1], walk[i + 1]) !in cut;
      }
      low := Descends(edges, order, cut, tail, next);
    }
  }

  /** An order that puts children first, cut edges aside, leaves no room for a cycle without a cut edge. */
  lemma OrderedAcyclic(edges: Edges, order: seq<Node>, cut: Cut, walk: seq<Node>)
    requires Enumerates(edges, order) && ChildrenFirst(edges, order, cut) && Cycle(edges, walk)
    ensures Uses(walk, cut)
  {
    if !Uses(walk, cut) {
      assert Joined(edges, walk, 1);
      assert walk[0] in Nodes(edges);
      var at :| 0 <= at < |order| && order[at] == walk[0];
      var low := Descends(edges, order, cut, walk, at);
    }
  }

  /** Each report is a cycle, and every cycle uses the edge that some report closes with, so without those edges
      there is none. Each edge is examined once. */
  method Cycles(edges: Edges, keys: seq<Node>)
    returns (issues: seq<seq<Node>>, ghost order: seq<Node>, ghost looked: nat)
    requires KeysOf(edges, keys)
    ensures forall i :: 0 <= i < |issues| ==> Reported(edges, issues[i])
    ensures forall walk :: Cycle(edges, walk) ==> Uses(walk, Closing(issues))
    ensures issues == [] <==> Acyclic(edges)
    ensures Enumerates(edges, order) && looked == Degrees(edges, order)
  {
    var done: set<Node> := {};
    issues, order, looked := [], [], 0;
    assert Closing([]) == {};
    for k := 0 to |keys|
      invariant Searching(edges, [], [[]], order, done, looked, Closing(issues))
      invariant AllReported(edges, issues)
      invariant forall j :: 0 <= j < k ==> keys[j] in done
    {
      done, issues, order, looked := Visit(keys[k], edges, done, issues, order, looked);
    }
    AllDone(edges, order, done, looked, Closing(issues));
    forall walk | Cycle(edges, walk)
      ensures Uses(walk, Closing(issues))
    {
      OrderedAcyclic(edges, order, Closing(issues), walk);
    }
    if issues != [] { assert Cycle(edges, issues[0]); }
  }
}

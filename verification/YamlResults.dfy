// What the scan and the builder together answer for a valid document.

module YamlResults {
  import opened Common
  import opened YamlValues
  import opened YamlMachine
  import opened YamlAliases
  import opened YamlTree
  import opened YamlDocument
  import opened YamlReading
  import opened YamlLockstep

  /** The stream holds one document, whose tree says `n`. */
  ghost predicate Says(tokens: seq<Token>, t: Tree, rest: seq<Token>, n: Located, file: File) {
    IsDocument(tokens, t, rest) && Reading(t, n, file)
  }

  lemma RealParts(a: seq<Token>, b: seq<Token>)
    requires RealAliases(a + b)
    ensures RealAliases(a) && RealAliases(b)
  {
    hide RealAlias;
    assert forall i :: 0 <= i < |a| ==> (a + b)[i] == a[i];
    forall i | 0 <= i < |b|
      ensures RealAlias(b[i])
    {
      assert (a + b)[|a| + i] == b[i];
    }
  }

  lemma {:induction false} RealTree(t: Tree)
    requires RealAliases(Flatten(t))
    ensures RealRefs(t)
    decreases t, 1
  {
    match t
    case Plain(_, _, _, _, _, _) =>
    case Ref(id, _) => assert RealAlias(Flatten(t)[0]);
    case List(_, _, at, kids, end) =>
      RealParts([Token(Head(t), at)], FlattenAll(kids) + [Token(SequenceEnd, end)]);
      RealParts(FlattenAll(kids), [Token(SequenceEnd, end)]);
      RealTrees(kids);
    case Dict(_, _, at, kids, end) =>
      RealParts([Token(Head(t), at)], FlattenAll(kids) + [Token(MappingEnd, end)]);
      RealParts(FlattenAll(kids), [Token(MappingEnd, end)]);
      RealTrees(kids);
  }

  lemma {:induction false} RealTrees(kids: seq<Tree>)
    requires RealAliases(FlattenAll(kids))
    ensures AllRealRefs(kids)
    decreases kids, 0
  {
    if |kids| > 0 {
      RealParts(Flatten(kids[0]), FlattenAll(kids[1..]));
      RealTree(kids[0]);
      RealTrees(kids[1..]);
    }
  }

  lemma RealDocument(tokens: seq<Token>, t: Tree, rest: seq<Token>)
    requires IsDocument(tokens, t, rest) && RealAliases(tokens)
    ensures RealRefs(t)
  {
    hide Flatten, RealAliases, RealRefs;
    var before, after, end :| DocumentIn(tokens, before, t, after, end, rest);
    var tail := after + ([Token(StreamEnd, end)] + rest);
    RealParts(before, Flatten(t) + tail);
    RealParts(Flatten(t), tail);
    RealTree(t);
  }

  /** The nodes that a tree writes out itself, mapping keys included: all but its aliases. */
  function OwnNodes(t: Tree): nat {
    match t
    case Plain(_, _, _, _, _, _) => 1
    case Ref(_, _) => 0
    case List(_, _, _, kids, _) => 1 + OwnNodesAll(kids)
    case Dict(_, _, _, kids, _) => 1 + OwnNodesAll(kids)
  }

  function OwnNodesAll(kids: seq<Tree>): nat {
    if |kids| == 0 then 0 else OwnNodes(kids[0]) + OwnNodesAll(kids[1..])
  }

  lemma FirstEvent(token: Token, rest: seq<Token>)
    requires token.Token? && !token.event.DocumentEnd? && !token.event.StreamEnd?
    ensures NodeEvents([token] + rest) == Weight(token) + NodeEvents(rest)
  {
    assert ([token] + rest)[1..] == rest;
  }

  lemma {:induction false} TreeEvents(t: Tree, rest: seq<Token>)
    ensures NodeEvents(Flatten(t) + rest) == OwnNodes(t) + NodeEvents(rest)
    decreases t, 1
  {
    hide NodeEvents, FlattenAll, OwnNodesAll;
    match t
    case Plain(_, _, _, _, _, at) => FirstEvent(Token(Head(t), at), rest);
    case Ref(_, at) => FirstEvent(Token(Head(t), at), rest);
    case List(_, _, at, kids, end) => ContainerEvents(t, kids, at, Token(SequenceEnd, end), rest);
    case Dict(_, _, at, kids, end) => ContainerEvents(t, kids, at, Token(MappingEnd, end), rest);
  }

  lemma {:induction false} ContainerEvents(t: Tree, kids: seq<Tree>, at: Marker, end: Token, rest: seq<Token>)
    requires (t.List? || t.Dict?) && kids == t.kids && end.Token? && end.event in {SequenceEnd, MappingEnd}
    requires Flatten(t) == [Token(Head(t), at)] + (FlattenAll(kids) + [end])
    ensures NodeEvents(Flatten(t) + rest) == OwnNodes(t) + NodeEvents(rest)
    decreases t, 0
  {
    hide NodeEvents, Flatten, FlattenAll, OwnNodesAll;
    var tail := FlattenAll(kids) + ([end] + rest);
    assert Flatten(t) + rest == [Token(Head(t), at)] + tail;
    FirstEvent(Token(Head(t), at), tail);
    TreesEvents(kids, [end] + rest);
    FirstEvent(end, rest);
  }

  lemma {:induction false} TreesEvents(kids: seq<Tree>, rest: seq<Token>)
    ensures NodeEvents(FlattenAll(kids) + rest) == OwnNodesAll(kids) + NodeEvents(rest)
    decreases kids
  {
    hide NodeEvents, Flatten, OwnNodes;
    if |kids| == 0 {
      assert FlattenAll(kids) + rest == rest;
    } else {
      assert FlattenAll(kids) + rest == Flatten(kids[0]) + (FlattenAll(kids[1..]) + rest);
      TreeEvents(kids[0], FlattenAll(kids[1..]) + rest);
      TreesEvents(kids[1..], rest);
    }
  }

  lemma {:induction false} MarkerEvents(tokens: seq<Token>, rest: seq<Token>)
    requires AllEvents(tokens, {StreamStart, DocumentStart})
    ensures NodeEvents(tokens + rest) == NodeEvents(rest)
  {
    if |tokens| == 0 {
      assert tokens + rest == rest;
    } else {
      assert tokens + rest == [tokens[0]] + (tokens[1..] + rest);
      FirstEvent(tokens[0], tokens[1..] + rest);
      MarkerEvents(tokens[1..], rest);
    }
  }

  lemma DocumentEvents(tokens: seq<Token>, t: Tree, rest: seq<Token>)
    requires IsDocument(tokens, t, rest)
    ensures NodeEvents(tokens) == OwnNodes(t)
  {
    hide Flatten, OwnNodes;
    var before, after, end :| DocumentIn(tokens, before, t, after, end, rest);
    var tail := after + ([Token(StreamEnd, end)] + rest);
    MarkerEvents(before, Flatten(t) + tail);
    TreeEvents(t, tail);
    assert tail[0].Token? && (tail[0].event.DocumentEnd? || tail[0].event.StreamEnd?);
  }

  /** The anchors that aliases of the stream name. */
  ghost function NamedIn(tokens: seq<Token>): set<nat> {
    set i | 0 <= i < |tokens| && tokens[i].Token? && tokens[i].event.Alias? :: tokens[i].event.id
  }

  /** A valid document passes the scan exactly when its aliases add at most the budget to its own nodes, and then it
      is built as it reads from the anchors that the scan names. */
  lemma ScannedReading(tokens: seq<Token>, t: Tree, rest: seq<Token>, n: Located, budget: nat, cfg: Config)
    requires Says(tokens, t, rest, n, FileOf(cfg)) && RealAliases(tokens) && |tokens| + budget < USIZE_MAX
    ensures ScanRun(START, tokens, budget).Aside? <==> Nodes(ValueOf(n)) <= OwnNodes(t) + budget
    ensures ScanRun(START, tokens, budget).Aside? && cfg.keep == ScanRun(START, tokens, budget).scan.aliased ==>
              Run(Before, tokens, cfg) == Built(ValueOf(n), PlacesAt(n, ROOT))
  {
    hide Run, ScanRun, OwnNodes, Reading, IsDocument, Nodes, NodeEvents, RealAliases;
    var all := cfg.(keep := cfg.keep + Declared(t) + NamedIn(tokens));
    RealDocument(tokens, t, rest);
    DocumentEvents(tokens, t, rest);
    ReadingBuilt(tokens, t, rest, n, all);
    PassesExactly(tokens, budget, all);
    if ScanRun(START, tokens, budget).Aside? && cfg.keep == ScanRun(START, tokens, budget).scan.aliased {
      PruningInvisible(tokens, budget, cfg, all);
    }
  }
}

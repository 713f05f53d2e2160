// The builder accepts only the events of one document tree.

module YamlAccepts {
  import opened Common
  import opened Pointers
  import opened YamlValues
  import opened YamlMachine
  import opened YamlTree
  import opened YamlMeaning
  import opened YamlDocument

  /** A container whose events are read up to some child. */
  datatype Part = Part(list: bool, anchor: nat, tag: Option<Tag>, at: Marker, kids: seq<Tree>)

  function PartTokens(part: Part): seq<Token> {
    [Token(if part.list then SequenceStart(part.anchor, part.tag) else MappingStart(part.anchor, part.tag), part.at)]
    + FlattenAll(part.kids)
  }

  function Read(parts: seq<Part>): seq<Token> {
    if |parts| == 0 then [] else Read(parts[..|parts| - 1]) + PartTokens(parts[|parts| - 1])
  }

  ghost predicate Like(part: Part, frame: Frame) {
    match frame.container
    case Elements(_) => part.list
    case Mapping(_, key) => !part.list && (|part.kids| % 2 == 1 <==> key.Some?)
  }

  ghost predicate Alike(parts: seq<Part>, frames: seq<Frame>) {
    |parts| == |frames| && forall i :: 0 <= i < |parts| ==> Like(parts[i], frames[i])
  }

  lemma {:induction false} FlattenPush(kids: seq<Tree>, t: Tree)
    ensures FlattenAll(kids + [t]) == FlattenAll(kids) + Flatten(t)
  {
    if |kids| == 0 {
      assert kids + [t] == [t];
      assert [t][1..] == [];
    } else {
      assert (kids + [t])[1..] == kids[1..] + [t];
      FlattenPush(kids[1..], t);
    }
  }

  function Push(parts: seq<Part>, t: Tree): seq<Part>
    requires |parts| > 0
  {
    var last := parts[|parts| - 1];
    parts[..|parts| - 1] + [last.(kids := last.kids + [t])]
  }

  lemma PartPush(part: Part, t: Tree)
    ensures PartTokens(part.(kids := part.kids + [t])) == PartTokens(part) + Flatten(t)
  {
    FlattenPush(part.kids, t);
  }

  lemma ReadPush(parts: seq<Part>, t: Tree)
    requires |parts| > 0
    ensures Read(Push(parts, t)) == Read(parts) + Flatten(t)
  {
    hide PartTokens, Flatten;
    var last := parts[|parts| - 1];
    assert Push(parts, t)[..|parts| - 1] == parts[..|parts| - 1];
    PartPush(last, t);
  }

  ghost predicate JoinsOr(next: State, rest: seq<Part>, tree: Tree) {
    if |rest| == 0 then next.After? else next.Open? && Alike(Push(rest, tree), next.frames)
  }

  /** A completed tree joins the container above it in both views. */
  lemma Completed(rest: seq<Part>, tree: Tree, frames: seq<Frame>, places: Places, anchors: Anchors, value: Value,
                  start: Location)
    requires Alike(rest, frames)
    ensures var next := Complete(frames, places, anchors, value, start);
            next.Failed? || JoinsOr(next, rest, tree)
  {
  }

  lemma {:induction false} Joined(next: State, rest: seq<Part>, tree: Tree, tokens: seq<Token>, cfg: Config)
    returns (t: Tree, n: nat, done: State)
    requires JoinsOr(next, rest, tree) && Run(next, tokens, cfg).Built?
    ensures n <= |tokens| && Read(rest) + Flatten(tree) + tokens[..n] == Flatten(t)
    ensures done.After? && Run(done, tokens[n..], cfg) == Run(next, tokens, cfg)
    decreases |tokens|, 1
  {
    if |rest| == 0 {
      t, n, done := tree, 0, next;
    } else {
      ReadPush(rest, tree);
      t, n, done := Accepted(next, Push(rest, tree), tokens, cfg);
    }
  }

  /** The tree whose events are those read so far and the next `n`; then the document is done. */
  lemma {:induction false} Accepted(st: State, parts: seq<Part>, tokens: seq<Token>, cfg: Config)
    returns (t: Tree, n: nat, done: State)
    requires st.Open? && Alike(parts, st.frames) && Run(st, tokens, cfg).Built?
    ensures n <= |tokens| && Read(parts) + tokens[..n] == Flatten(t)
    ensures done.After? && Run(done, tokens[n..], cfg) == Run(st, tokens, cfg)
    decreases |tokens|, 0
  {
    hide Run, Step, Alike, Read, Flatten, JoinsOr;
    BuiltStep(st, tokens, cfg);
    var token := tokens[0];
    var tail := tokens[1..];
    var next := Step(st, token, cfg);
    var e := token.event;
    var k: nat;
    if e.Scalar? || e.Alias? {
      var leaf := if e.Alias? then Ref(e.id, token.marker)
                  else Plain(e.text, e.decoded, e.plain, e.anchor, e.tag, token.marker);
      LeafJoins(st, parts, leaf, token, cfg);
      t, k, done := Joined(next, parts, leaf, tail, cfg);
    } else if e.SequenceStart? || e.MappingStart? {
      var part := Part(e.SequenceStart?, e.anchor, e.tag, token.marker, []);
      StartJoins(st, parts, part, token, cfg);
      t, k, done := Accepted(next, parts + [part], tail, cfg);
    } else {
      var tree := EndJoins(st, parts, token, cfg);
      t, k, done := Joined(next, parts[..|parts| - 1], tree, tail, cfg);
    }
    n := k + 1;
    assert tokens[..n] == [token] + tail[..k];
    assert tokens[n..] == tail[k..];
    assert Read(parts) + tokens[..n] == Read(parts) + [token] + tail[..k];
  }

  lemma BuiltStep(st: State, tokens: seq<Token>, cfg: Config)
    requires !Final(st) && Run(st, tokens, cfg).Built?
    ensures |tokens| > 0 && tokens[0].Token? && !Step(st, tokens[0], cfg).Failed?
    ensures Run(Step(st, tokens[0], cfg), tokens[1..], cfg) == Run(st, tokens, cfg)
  {
  }

  lemma StartJoins(st: State, parts: seq<Part>, part: Part, token: Token, cfg: Config)
    requires token.Token? && (token.event.SequenceStart? || token.event.MappingStart?)
    requires part == Part(token.event.SequenceStart?, token.event.anchor, token.event.tag, token.marker, [])
    requires st.Open? && Alike(parts, st.frames) && !Step(st, token, cfg).Failed?
    ensures Step(st, token, cfg).Open? && Alike(parts + [part], Step(st, token, cfg).frames)
    ensures Read(parts + [part]) == Read(parts) + [token]
  {
    assert (parts + [part])[..|parts|] == parts;
    assert PartTokens(part) == [token];
  }

  lemma LeafJoins(st: State, parts: seq<Part>, leaf: Tree, token: Token, cfg: Config)
    requires (leaf.Plain? || leaf.Ref?) && token == Token(Head(leaf), leaf.at)
    requires st.Open? && Alike(parts, st.frames) && !Step(st, token, cfg).Failed?
    ensures JoinsOr(Step(st, token, cfg), parts, leaf)
    ensures Flatten(leaf) == [token]
  {
    hide Attach;
    forall places: Places, anchors: Anchors, value: Value, start: Location
      ensures var next := Complete(st.frames, places, anchors, value, start); next.Failed? || JoinsOr(next, parts, leaf)
    {
      Completed(parts, leaf, st.frames, places, anchors, value, start);
    }
  }

  lemma EndJoins(st: State, parts: seq<Part>, token: Token, cfg: Config) returns (tree: Tree)
    requires token.Token? && !token.event.Scalar? && !token.event.Alias?
    requires !token.event.SequenceStart? && !token.event.MappingStart?
    requires st.Open? && Alike(parts, st.frames) && !Step(st, token, cfg).Failed?
    ensures |parts| > 0
    ensures JoinsOr(Step(st, token, cfg), parts[..|parts| - 1], tree)
    ensures Read(parts) + [token] == Read(parts[..|parts| - 1]) + Flatten(tree)
  {
    hide Attach;
    var last := parts[|parts| - 1];
    var rest := parts[..|parts| - 1];
    var frames := st.frames[..|parts| - 1];
    assert Like(last, st.frames[|parts| - 1]);
    tree := if last.list then List(last.anchor, last.tag, last.at, last.kids, token.marker)
            else Dict(last.anchor, last.tag, last.at, last.kids, token.marker);
    forall places: Places, anchors: Anchors, value: Value, start: Location
      ensures var next := Complete(frames, places, anchors, value, start); next.Failed? || JoinsOr(next, rest, tree)
    {
      Completed(rest, tree, frames, places, anchors, value, start);
    }
    assert Read(parts) + [token] == Read(rest) + (PartTokens(last) + [token]);
    assert PartTokens(last) + [token] == Flatten(tree);
  }

  // ----- whole streams -----

  lemma {:induction false} AcceptedEnds(st: State, tokens: seq<Token>, cfg: Config)
    returns (after: seq<Token>, end: Marker, rest: seq<Token>)
    requires st.After? && Run(st, tokens, cfg).Built?
    ensures AllEvents(after, {DocumentEnd})
    ensures tokens == after + ([Token(StreamEnd, end)] + rest)
  {
    var token := tokens[0];
    if token.event.StreamEnd? {
      after, end, rest := [], token.marker, tokens[1..];
    } else {
      after, end, rest := AcceptedEnds(st, tokens[1..], cfg);
      after := [token] + after;
    }
  }

  /** A stream that is built holds the events of exactly one document tree. */
  lemma {:induction false} AcceptedIsDocument(tokens: seq<Token>, cfg: Config) returns (t: Tree, rest: seq<Token>)
    requires Run(Before, tokens, cfg).Built?
    ensures IsDocument(tokens, t, rest)
    decreases |tokens|
  {
    hide Flatten, Step;
    BuiltStep(Before, tokens, cfg);
    var token := tokens[0];
    if token.event.StreamStart? || token.event.DocumentStart? {
      StartSkips(token, cfg);
      t, rest := AcceptedIsDocument(tokens[1..], cfg);
      var before, after, end :| DocumentIn(tokens[1..], before, t, after, end, rest);
      assert DocumentIn(tokens, [token] + before, t, after, end, rest);
    } else {
      NodeStarts(token, cfg);
      var n, done;
      t, n, done := Accepted(INITIAL, [], tokens, cfg);
      var after, end;
      after, end, rest := AcceptedEnds(done, tokens[n..], cfg);
      assert DocumentIn(tokens, [], t, after, end, rest);
    }
  }

  lemma StartSkips(token: Token, cfg: Config)
    requires token.Token? && (token.event.StreamStart? || token.event.DocumentStart?)
    ensures Step(Before, token, cfg) == Before
  {
  }

  lemma NodeStarts(token: Token, cfg: Config)
    requires token.Token? && !token.event.StreamStart? && !token.event.DocumentStart?
    ensures Step(Before, token, cfg) == Step(INITIAL, token, cfg)
  {
  }

  /** Whatever anchors are kept: an accepted stream holds one document, at most
      128 levels deep, and its positions name exactly the nodes of its value. */
  lemma AcceptedPositions(tokens: seq<Token>, cfg: Config) returns (t: Tree, rest: seq<Token>)
    requires Run(Before, tokens, cfg).Built?
    ensures IsDocument(tokens, t, rest)
    ensures var r := Denote(t, 0, false, map[], cfg);
            var built := Run(Before, tokens, cfg);
            && r.Ok?
            && built.value == ValueOf(r.value.node)
            && Height(built.value) <= MAX_DEPTH
            && Exact(built.value, built.places)
            && Locates(built.places, r.value.node)
  {
    hide Run, IsDocument, Exact, Locates;
    t, rest := AcceptedIsDocument(tokens, cfg);
    DocumentPositions(tokens, t, rest, cfg);
  }

  /** A pointer string is answered exactly when it names a node of the value. */
  lemma PointersExact(value: Value, places: Places, pointer: string)
    requires Exact(value, places)
    ensures LookUp(places, pointer).Some? <==> Named(value, pointer).Some?
  {
  }
}

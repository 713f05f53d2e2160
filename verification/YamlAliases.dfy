// The alias scan: a budget on expansion and the anchors to keep (yaml_aliases.rs).

module YamlAliases {
  import opened Common
  import opened Pointers
  import opened YamlValues
  import opened YamlMachine

  const MAX_ALIAS_NODES: nat := 1_000_000

  /** What the scan counts instead of building a value: its nodes and its height. */
  datatype Shape = Shape(nodes: nat, height: nat)

  const LEAF: Shape := Shape(1, 0)
  const NOTHING: Shape := Shape(0, 0)

  function Add(parent: Shape, child: Shape): Shape {
    Shape(SaturatingAdd(parent.nodes, child.nodes), Max(parent.height, child.height + 1))
  }

  datatype Opened = Opened(anchor: nat, shape: Shape)

  datatype Scan = Scan(shapes: map<nat, Shape>, open: seq<Opened>, aliased: set<nat>, expanded: nat)

  const START: Scan := Scan(map[], [], {}, 0)

  /** The scan goes on, steps aside without a failure, or stops past the budget. */
  datatype Scanned = More(scan: Scan) | Aside(scan: Scan) | Over(at: Marker)

  /** A completed value is kept by its anchor and added to its parent. */
  function Finished(s: Scan, anchor: nat, shape: Shape): Scan {
    var shapes := if anchor != 0 then s.shapes[anchor := shape] else s.shapes;
    var open :=
      if |s.open| == 0 then []
      else
        var parent := s.open[|s.open| - 1];
        s.open[..|s.open| - 1] + [Opened(parent.anchor, Add(parent.shape, shape))];
    s.(shapes := shapes, open := open)
  }

  function ScanAlias(s: Scan, id: nat, marker: Marker, budget: nat): Scanned {
    var s1 := s.(aliased := s.aliased + {id});
    var shape := if id in s.shapes then s.shapes[id] else NOTHING;
    if |s.open| + shape.height > MAX_DEPTH then Aside(s1)
    else
      var expanded := SaturatingAdd(s.expanded, shape.nodes);
      if expanded > budget then Over(marker)
      else More(Finished(s1.(expanded := expanded), 0, shape))
  }

  predicate IsNode(e: Event) {
    e.Scalar? || e.SequenceStart? || e.MappingStart?
  }

  function ScanStep(s: Scan, token: Token, budget: nat): Scanned {
    match token
    case Broken(_, _) => Aside(s)
    case Token(e, marker) =>
      if IsNode(e) && |s.open| > MAX_DEPTH then Aside(s)
      else
        match e
        case SequenceStart(anchor, _) => More(s.(open := s.open + [Opened(anchor, LEAF)]))
        case MappingStart(anchor, _) => More(s.(open := s.open + [Opened(anchor, LEAF)]))
        case Scalar(_, _, _, anchor, _) => More(Finished(s, anchor, LEAF))
        case Alias(id) => ScanAlias(s, id, marker, budget)
        case DocumentEnd => Aside(s)
        case StreamEnd => Aside(s)
        case SequenceEnd => More(ScanEnd(s))
        case MappingEnd => More(ScanEnd(s))
        case _ => More(s)
  }

  function ScanEnd(s: Scan): Scan {
    if |s.open| == 0 then s
    else
      var closed := s.open[|s.open| - 1];
      Finished(s.(open := s.open[..|s.open| - 1]), closed.anchor, closed.shape)
  }

  function ScanRun(s: Scan, tokens: seq<Token>, budget: nat): (r: Scanned)
    ensures !r.More?
    decreases |tokens|
  {
    if |tokens| == 0 then Aside(s)
    else
      match ScanStep(s, tokens[0], budget)
      case More(next) => ScanRun(next, tokens[1..], budget)
      case Aside(last) => Aside(last)
      case Over(at) => Over(at)
  }

  datatype Aliases = Aliased(anchors: set<nat>) | PastBudget(at: Marker)

  function Answer(r: Scanned): Aliases
    requires !r.More?
  {
    match r
    case Aside(s) => Aliased(s.aliased)
    case Over(at) => PastBudget(at)
  }

  /** Keep a completed value's shape by its anchor and add it to its parent. */
  method Record(s: Scan, anchor: nat, shape: Shape) returns (shapes: map<nat, Shape>, open: seq<Opened>)
    ensures Finished(s, anchor, shape) == s.(shapes := shapes, open := open)
  {
    shapes, open := s.shapes, s.open;
    if anchor != 0 {
      shapes := shapes[anchor := shape];
    }
    if |open| > 0 {
      var parent := open[|open| - 1];
      open := open[..|open| - 1] + [Opened(parent.anchor, Add(parent.shape, shape))];
    }
  }

  lemma ScanNext(s: Scan, tokens: seq<Token>, i: nat, budget: nat)
    requires i < |tokens|
    ensures var r := ScanStep(s, tokens[i], budget);
            ScanRun(s, tokens[i..], budget) == if r.More? then ScanRun(r.scan, tokens[i + 1..], budget) else r
  {
  }

  lemma ScanDone(s: Scan, tokens: seq<Token>, budget: nat)
    ensures |tokens| == 0 ==> ScanRun(s, tokens, budget) == Aside(s)
  {
  }

  /** The scan loop: it counts without copying a value. */
  method ScanAliases(tokens: seq<Token>, budget: nat) returns (answer: Aliases)
    ensures answer == Answer(ScanRun(START, tokens, budget))
  {
    hide ScanRun, Finished, SaturatingAdd;
    var shapes: map<nat, Shape> := map[];
    var open: seq<Opened> := [];
    var aliased: set<nat> := {};
    var expanded: nat := 0;
    var next := 0;
    assert tokens[0..] == tokens;
    while next < |tokens|
      invariant next <= |tokens|
      invariant ScanRun(START, tokens, budget) == ScanRun(Scan(shapes, open, aliased, expanded), tokens[next..], budget)
    {
      var token := tokens[next];
      ScanNext(Scan(shapes, open, aliased, expanded), tokens, next, budget);
      next := next + 1;
      if token.Broken? { break; }
      var event := token.event;
      if IsNode(event) && |open| > MAX_DEPTH { break; }
      var anchor: nat;
      var shape: Shape;
      if event.SequenceStart? || event.MappingStart? {
        open := open + [Opened(event.anchor, LEAF)];
        continue;
      } else if event.SequenceEnd? || event.MappingEnd? {
        if |open| == 0 { continue; }
        var closed := open[|open| - 1];
        open := open[..|open| - 1];
        anchor, shape := closed.anchor, closed.shape;
      } else if event.Scalar? {
        anchor, shape := event.anchor, LEAF;
      } else if event.Alias? {
        aliased := aliased + {event.id};
        shape := if event.id in shapes then shapes[event.id] else NOTHING;
        if |open| + shape.height > MAX_DEPTH { break; }
        expanded := SaturatingAdd(expanded, shape.nodes);
        if expanded > budget {
          return PastBudget(token.marker);
        }
        anchor := 0;
      } else if event.DocumentEnd? || event.StreamEnd? {
        break;
      } else {
        continue;
      }
      shapes, open := Record(Scan(shapes, open, aliased, expanded), anchor, shape);
    }
    ScanDone(Scan(shapes, open, aliased, expanded), tokens[next..], budget);
    return Aliased(aliased);
  }
}

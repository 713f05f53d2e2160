// The scan and the builder stay in lockstep, so the scan's counts, its budget
// and its choice of anchors are exact.

module YamlLockstep {
  import opened Common
  import opened Pointers
  import opened YamlValues
  import opened YamlMachine
  import opened YamlAliases
  import opened YamlTree
  import opened YamlMeaning
  import opened YamlDocument
  import opened YamlAccepts

  /** The shape of a container that is still open; a waiting key counts. */
  function PartShape(container: Container): Shape {
    match container
    case Elements(values) => Shape(1 + NodesAll(values), HeightAll(values))
    case Mapping(members, key) =>
      Shape(1 + NodesMembers(members) + (if key.Some? then 1 else 0),
            Max(HeightMembers(members), if key.Some? then 1 else 0))
  }

  function ShapeOf(v: Value): Shape {
    Shape(Nodes(v), Height(v))
  }

  /** The nodes of every open container. */
  ghost function Total(open: seq<Opened>): nat {
    if |open| == 0 then 0 else Total(open[..|open| - 1]) + open[|open| - 1].shape.nodes
  }

  ghost predicate SameStack(open: seq<Opened>, frames: seq<Frame>) {
    && |open| == |frames|
    && forall i :: 0 <= i < |open| ==> open[i] == Opened(frames[i].anchor, PartShape(frames[i].container))
  }

  /** The scan knows the shape of exactly the kept anchors that the builder holds. */
  ghost predicate SameAnchors(shapes: map<nat, Shape>, anchors: Anchors, keep: set<nat>) {
    forall a :: a in keep && a != 0 ==>
      && (a in shapes <==> a in anchors)
      && (a in anchors ==> shapes[a] == ShapeOf(anchors[a].value) && anchors[a].height == Height(anchors[a].value))
  }

  /** `count` node events have been read. */
  ghost predicate InStep(s: Scan, b: State, keep: set<nat>, count: nat, budget: nat) {
    && b.Open?
    && SameStack(s.open, b.frames)
    && SameAnchors(s.shapes, b.anchors, keep)
    && Total(s.open) == count + s.expanded
    && s.expanded <= budget
  }

  /** The builder after a step: failed, still in step, or done with an exact count. */
  ghost predicate StepsOn(s: Scan, b: State, keep: set<nat>, count: nat, budget: nat) {
    || b.Failed?
    || InStep(s, b, keep, count, budget)
    || (b.After? && |s.open| == 0 && Nodes(b.value) == count + s.expanded && s.expanded <= budget)
  }

  function Weight(token: Token): nat {
    if token.Token? && IsNode(token.event) then 1 else 0
  }

  /** Attaching a child adds its shape to the frame's. */
  lemma AttachShape(frame: Frame, value: Value, start: Location, places: Places)
    requires Attach(frame, value, start, places).Ok?
    ensures var next := Attach(frame, value, start, places).value.0;
            && next.anchor == frame.anchor
            && PartShape(next.container).nodes == PartShape(frame.container).nodes + Nodes(value)
            && PartShape(next.container).height == Max(PartShape(frame.container).height, Height(value) + 1)
  {
  }

  lemma SameLength(open: seq<Opened>, frames: seq<Frame>)
    requires SameStack(open, frames)
    ensures |open| == |frames|
    ensures |open| == 0 ==> Total(open) == 0
  {
  }

  lemma AttachInStep(open: seq<Opened>, frames: seq<Frame>, frame: Frame, shape: Shape)
    requires SameStack(open, frames) && |frames| > 0
    requires Total(open) + shape.nodes <= USIZE_MAX
    requires frame.anchor == frames[|frames| - 1].anchor
    requires PartShape(frame.container).nodes == PartShape(frames[|frames| - 1].container).nodes + shape.nodes
    requires PartShape(frame.container).height ==
             Max(PartShape(frames[|frames| - 1].container).height, shape.height + 1)
    ensures var last := |frames| - 1;
            var joined := open[..last] + [Opened(open[last].anchor, Add(open[last].shape, shape))];
            SameStack(joined, frames[..last] + [frame]) && Total(joined) == Total(open) + shape.nodes
  {
  }

  /** A completed value leaves the scan and the builder in step. */
  lemma CompleteInStep(s: Scan, frames: seq<Frame>, places: Places, anchors: Anchors, keep: set<nat>, anchor: nat,
                       value: Value, start: Location, count: nat, budget: nat)
    requires SameStack(s.open, frames)
    requires SameAnchors(Finished(s, anchor, ShapeOf(value)).shapes, anchors, keep)
    requires Total(s.open) + Nodes(value) == count + s.expanded <= USIZE_MAX && s.expanded <= budget
    ensures StepsOn(Finished(s, anchor, ShapeOf(value)), Complete(frames, places, anchors, value, start), keep, count,
                    budget)
  {
    hide SameStack, SameAnchors, PartShape, Total, Attach, Nodes;
    if |frames| > 0 {
      var last := |frames| - 1;
      SameLength(s.open, frames);
      if Attach(frames[last], value, start, places).Ok? {
        AttachShape(frames[last], value, start, places);
        AttachInStep(s.open, frames, Attach(frames[last], value, start, places).value.0, ShapeOf(value));
      }
    } else {
      SameLength(s.open, frames);
    }
  }

  lemma KeepInStep(shapes: map<nat, Shape>, anchors: Anchors, keep: set<nat>, anchor: nat, value: Value, places: Places,
                   slot: Option<Path>, start: Location, cfg: Config)
    requires SameAnchors(shapes, anchors, keep) && cfg.keep == keep
    ensures SameAnchors(if anchor != 0 then shapes[anchor := ShapeOf(value)] else shapes,
                        Keep(anchors, anchor, value, places, slot, start, cfg), keep)
  {
  }

  lemma ScalarInStep(s: Scan, b: State, token: Token, keep: set<nat>, count: nat, budget: nat, cfg: Config)
    requires token.Token? && token.event.Scalar? && cfg.keep == keep
    requires InStep(s, b, keep, count, budget) && count + 1 + budget <= USIZE_MAX
    ensures StepsOn(Finished(s, token.event.anchor, LEAF), Step(b, token, cfg), keep, count + 1, budget)
  {
    hide Complete, Finished, SameAnchors, SameStack, Subtree;
    var e := token.event;
    if ScalarStep(b, e, token.marker, cfg).Ok? {
      var atom := Decode(e, token.marker, cfg).value;
      var at := At(token.marker, cfg);
      var slot := TargetSlot(b.frames);
      var places := Mark(TargetPlaces(b.frames, b.places), slot, at);
      KeepInStep(s.shapes, b.anchors, keep, e.anchor, Leaf(atom), places, slot, at, cfg);
      FinishedShapes(s, e.anchor, LEAF);
      CompleteInStep(s, b.frames, places, Keep(b.anchors, e.anchor, Leaf(atom), places, slot, at, cfg), keep,
                     e.anchor, Leaf(atom), at, count + 1, budget);
    }
  }

  lemma FinishedShapes(s: Scan, anchor: nat, shape: Shape)
    ensures Finished(s, anchor, shape).shapes == if anchor != 0 then s.shapes[anchor := shape] else s.shapes
  {
  }

  lemma EndInStep(s: Scan, b: State, token: Token, keep: set<nat>, count: nat, budget: nat, cfg: Config)
    requires token.Token? && (token.event.SequenceEnd? || token.event.MappingEnd?) && cfg.keep == keep
    requires InStep(s, b, keep, count, budget) && count + budget <= USIZE_MAX
    ensures StepsOn(ScanEnd(s), Step(b, token, cfg), keep, count, budget)
  {
    hide Complete, Finished, SameAnchors, Subtree;
    var e := token.event;
    if CloseStep(b, e, token.marker, cfg).Ok? {
      var last := |b.frames| - 1;
      var frame := b.frames[last];
      var value := Content(frame.container);
      var closed := s.open[last];
      assert closed == Opened(frame.anchor, ShapeOf(value));
      KeepInStep(s.shapes, b.anchors, keep, frame.anchor, value, b.places, frame.slot, frame.start, cfg);
      var popped := s.(open := s.open[..last]);
      FinishedShapes(popped, frame.anchor, ShapeOf(value));
      CompleteInStep(popped, b.frames[..last], b.places,
                     Keep(b.anchors, frame.anchor, value, b.places, frame.slot, frame.start, cfg), keep,
                     frame.anchor, value, frame.start, count, budget);
    }
  }

  lemma AliasInStep(s: Scan, b: State, token: Token, next: Scan, keep: set<nat>, count: nat, budget: nat, cfg: Config)
    requires token.Token? && token.event.Alias? && token.event.id in keep && token.event.id != 0 && cfg.keep == keep
    requires InStep(s, b, keep, count, budget) && count + budget <= USIZE_MAX && budget < USIZE_MAX
    requires ScanAlias(s, token.event.id, token.marker, budget) == More(next)
    ensures StepsOn(next, Step(b, token, cfg), keep, count, budget)
    ensures AliasStep(b, token.event.id, token.marker, cfg).Ok? ==>
              token.event.id in b.anchors && next.expanded == s.expanded + Nodes(b.anchors[token.event.id].value)
  {
    hide Complete, SameStack, Graft;
    var id := token.event.id;
    if AliasStep(b, id, token.marker, cfg).Ok? {
      var at := At(token.marker, cfg);
      var node := b.anchors[id];
      assert s.shapes[id] == ShapeOf(node.value);
      var slot := TargetSlot(b.frames);
      var places := TargetPlaces(b.frames, b.places);
      var grafted := if slot.Some? then Graft(places, slot.value, node.places, ROOT) else places;
      var s1 := s.(aliased := s.aliased + {id}, expanded := s.expanded + Nodes(node.value));
      assert next == Finished(s1, 0, ShapeOf(node.value));
      CompleteInStep(s1, b.frames, Mark(grafted, slot, at), b.anchors, keep, 0, node.value, at, count, budget);
    }
  }

  lemma OpenInStep(s: Scan, b: State, token: Token, keep: set<nat>, count: nat, budget: nat, cfg: Config)
    requires token.Token? && (token.event.SequenceStart? || token.event.MappingStart?)
    requires InStep(s, b, keep, count, budget)
    ensures StepsOn(s.(open := s.open + [Opened(token.event.anchor, LEAF)]), Step(b, token, cfg), keep, count + 1,
                    budget)
  {
  }

  ghost predicate RealAlias(token: Token) {
    token.Token? && token.event.Alias? ==> token.event.id != 0
  }

  /** One event: when the scan goes on, the builder fails or stays in step. */
  lemma Lockstep(s: Scan, b: State, token: Token, next: Scan, keep: set<nat>, count: nat, budget: nat, cfg: Config)
    requires ScanStep(s, token, budget) == More(next) && next.aliased <= keep && cfg.keep == keep && RealAlias(token)
    requires InStep(s, b, keep, count, budget) && count + 1 + budget <= USIZE_MAX
    ensures StepsOn(next, Step(b, token, cfg), keep, count + Weight(token), budget)
  {
    hide InStep, StepsOn, ScanAlias, Finished, ScalarStep, AliasStep, CloseStep;
    match token.event
    case Scalar(_, _, _, _, _) => ScalarInStep(s, b, token, keep, count, budget, cfg);
    case Alias(id) =>
      AliasNamed(s, id, token.marker, budget);
      AliasInStep(s, b, token, next, keep, count, budget, cfg);
    case SequenceStart(_, _) => OpenInStep(s, b, token, keep, count, budget, cfg);
    case MappingStart(_, _) => OpenInStep(s, b, token, keep, count, budget, cfg);
    case SequenceEnd => EndInStep(s, b, token, keep, count, budget, cfg);
    case MappingEnd => EndInStep(s, b, token, keep, count, budget, cfg);
    case _ => NoValue(s, b, token, keep, count, budget, cfg);
  }

  lemma AliasNamed(s: Scan, id: nat, marker: Marker, budget: nat)
    ensures var r := ScanAlias(s, id, marker, budget);
            (r.More? || r.Aside?) ==> r.scan.aliased == s.aliased + {id}
  {
  }

  lemma NoValue(s: Scan, b: State, token: Token, keep: set<nat>, count: nat, budget: nat, cfg: Config)
    requires token.Token? && token.event in {Nothing, StreamStart, DocumentStart, DocumentEnd, StreamEnd}
    requires InStep(s, b, keep, count, budget)
    ensures Step(b, token, cfg).Failed?
    ensures StepsOn(s, Step(b, token, cfg), keep, count, budget)
  {
  }

  /** When the scan steps aside inside a document, the builder fails at the same event. */
  lemma AsideFails(s: Scan, b: State, token: Token, last: Scan, keep: set<nat>, count: nat, budget: nat, cfg: Config)
    requires ScanStep(s, token, budget) == Aside(last) && last.aliased <= keep && RealAlias(token)
    requires InStep(s, b, keep, count, budget)
    ensures Step(b, token, cfg).Failed?
    ensures token.Token? && token.event.Alias? ==>
              token.event.id in keep && AliasStep(b, token.event.id, token.marker, cfg).Err?
  {
  }

  // ----- whole runs -----

  lemma {:induction false} NamesGrow(s: Scan, tokens: seq<Token>, budget: nat)
    requires ScanRun(s, tokens, budget).Aside?
    ensures s.aliased <= ScanRun(s, tokens, budget).scan.aliased
    decreases |tokens|
  {
    if |tokens| > 0 {
      var r := ScanStep(s, tokens[0], budget);
      if r.More? { NamesGrow(r.scan, tokens[1..], budget); }
    }
  }

  /** The node events before the document ends. */
  function NodeEvents(tokens: seq<Token>): nat {
    if |tokens| == 0 || tokens[0].Broken? || tokens[0].event.DocumentEnd? || tokens[0].event.StreamEnd? then 0
    else Weight(tokens[0]) + NodeEvents(tokens[1..])
  }

  /** The nodes that the build copies for aliases, on its way to success or failure. */
  ghost function Copied(b: State, tokens: seq<Token>, cfg: Config): nat
    decreases |tokens|
  {
    if Final(b) || |tokens| == 0 then 0
    else CopiedBy(b, tokens[0], cfg) + Copied(Step(b, tokens[0], cfg), tokens[1..], cfg)
  }

  ghost function CopiedBy(b: State, token: Token, cfg: Config): nat {
    if b.Open? && token.Token? && token.event.Alias? && AliasStep(b, token.event.id, token.marker, cfg).Ok?
       && token.event.id in b.anchors
    then Nodes(b.anchors[token.event.id].value)
    else 0
  }

  ghost predicate RealAliases(tokens: seq<Token>) {
    forall i :: 0 <= i < |tokens| ==> RealAlias(tokens[i])
  }

  lemma StoppedOrGoing(s: Scan, tokens: seq<Token>, budget: nat, keep: set<nat>)
    requires |tokens| > 0
    requires ScanRun(s, tokens, budget).Aside? && ScanRun(s, tokens, budget).scan.aliased == keep
    ensures var r := ScanStep(s, tokens[0], budget);
            (r.More? || r.Aside?) && r.scan.aliased <= keep
  {
    var r := ScanStep(s, tokens[0], budget);
    if r.More? { NamesGrow(r.scan, tokens[1..], budget); }
  }

  /** What one event copies, the scan has already counted within the budget. */
  lemma CopyCounted(s: Scan, b: State, token: Token, next: Scan, keep: set<nat>, count: nat, budget: nat, cfg: Config)
    requires ScanStep(s, token, budget) == More(next) && next.aliased <= keep && cfg.keep == keep && RealAlias(token)
    requires InStep(s, b, keep, count, budget) && count + 1 + budget < USIZE_MAX
    ensures s.expanded + CopiedBy(b, token, cfg) <= next.expanded <= budget
  {
  }

  lemma {:induction false} DoneCopiesNothing(s: Scan, b: State, tokens: seq<Token>, budget: nat, cfg: Config)
    requires b.After?
    ensures Copied(b, tokens, cfg) == 0
    ensures Run(b, tokens, cfg).Built? ==> NodeEvents(tokens) == 0 && ScanRun(s, tokens, budget) == Aside(s)
    ensures Run(b, tokens, cfg).Built? ==> Run(b, tokens, cfg).value == b.value
    decreases |tokens|
  {
    if |tokens| > 0 {
      var next := Step(b, tokens[0], cfg);
      if next.After? {
        DoneCopiesNothing(s, next, tokens[1..], budget, cfg);
      } else if next.Failed? {
        assert Run(next, tokens[1..], cfg) == next;
      } else {
        assert tokens[0].event == StreamEnd;
      }
    }
  }

  /** From any point in step: copies fit the rest of the budget, and a built
      value's nodes are the node events and the expanded nodes. */
  lemma {:induction false} Accounted(s: Scan, b: State, tokens: seq<Token>, keep: set<nat>, count: nat, budget: nat,
                                     cfg: Config)
    requires ScanRun(s, tokens, budget).Aside? && ScanRun(s, tokens, budget).scan.aliased == keep
    requires InStep(s, b, keep, count, budget) && cfg.keep == keep && RealAliases(tokens)
    requires |tokens| + count + budget < USIZE_MAX
    ensures s.expanded + Copied(b, tokens, cfg) <= budget
    ensures Run(b, tokens, cfg).Built? ==>
              Nodes(Run(b, tokens, cfg).value) == count + NodeEvents(tokens) + ScanRun(s, tokens, budget).scan.expanded
    decreases |tokens|
  {
    hide SameStack, SameAnchors, Total, NodeStep, ScanStep, AliasStep, Nodes;
    if |tokens| > 0 {
      var token := tokens[0];
      var tail := tokens[1..];
      var b' := Step(b, token, cfg);
      StoppedOrGoing(s, tokens, budget, keep);
      assert RealAlias(token);
      var r := ScanStep(s, token, budget);
      if r.Aside? {
        AsideFails(s, b, token, r.scan, keep, count, budget, cfg);
      } else {
        Lockstep(s, b, token, r.scan, keep, count, budget, cfg);
        CopyCounted(s, b, token, r.scan, keep, count, budget, cfg);
        GoingOn(s, token, budget);
        if b'.After? {
          DoneCopiesNothing(r.scan, b', tail, budget, cfg);
        } else if b'.Open? {
          Accounted(r.scan, b', tail, keep, count + Weight(token), budget, cfg);
        }
      }
    }
  }

  lemma GoingOn(s: Scan, token: Token, budget: nat)
    requires ScanStep(s, token, budget).More?
    ensures token.Token? && !token.event.DocumentEnd? && !token.event.StreamEnd?
  {
  }

  // ----- keeping more anchors changes nothing -----

  ghost predicate Pruned(a: State, b: State, keep: set<nat>) {
    && a.Open? && b.Open? && a.frames == b.frames && a.places == b.places
    && forall x :: x in keep ==>
         (x in a.anchors <==> x in b.anchors) && (x in a.anchors ==> a.anchors[x] == b.anchors[x])
  }

  ghost predicate SameEnd(a: State, b: State, keep: set<nat>) {
    Pruned(a, b, keep) || (!a.Open? && a == b)
  }

  lemma CompletePruned(frames: seq<Frame>, places: Places, a: Anchors, b: Anchors, value: Value, start: Location,
                       keep: set<nat>)
    requires Pruned(Open(frames, places, a), Open(frames, places, b), keep)
    ensures SameEnd(Complete(frames, places, a, value, start), Complete(frames, places, b, value, start), keep)
  {
  }

  lemma KeepPruned(frames: seq<Frame>, places: Places, a: Anchors, b: Anchors, anchor: nat, value: Value,
                   slot: Option<Path>, start: Location, cfg: Config, more: Config)
    requires Pruned(Open(frames, places, a), Open(frames, places, b), cfg.keep) && cfg.keep <= more.keep
    ensures Pruned(Open(frames, places, Keep(a, anchor, value, places, slot, start, cfg)),
                   Open(frames, places, Keep(b, anchor, value, places, slot, start, more)), cfg.keep)
  {
  }

  lemma StepPruned(a: State, b: State, token: Token, cfg: Config, more: Config)
    requires Pruned(a, b, cfg.keep) && cfg.keep <= more.keep && more == cfg.(keep := more.keep)
    requires token.Token? && token.event.Alias? ==> token.event.id in cfg.keep
    ensures SameEnd(Step(a, token, cfg), Step(b, token, more), cfg.keep)
  {
    hide Complete, Keep, Graft;
    if token.Token? {
      var at := At(token.marker, cfg);
      var slot := TargetSlot(a.frames);
      var marked := Mark(TargetPlaces(a.frames, a.places), slot, at);
      var e := token.event;
      match e
      case Scalar(_, _, _, anchor, _) =>
        if Decode(e, token.marker, cfg).Ok? {
          var v := Leaf(Decode(e, token.marker, cfg).value);
          KeepPruned(a.frames, marked, a.anchors, b.anchors, anchor, v, slot, at, cfg, more);
          CompletePruned(a.frames, marked, Keep(a.anchors, anchor, v, marked, slot, at, cfg),
                         Keep(b.anchors, anchor, v, marked, slot, at, more), v, at, cfg.keep);
        }
      case Alias(id) =>
        if id in a.anchors {
          var node := a.anchors[id];
          var places := TargetPlaces(a.frames, a.places);
          var grafted := Mark(if slot.Some? then Graft(places, slot.value, node.places, ROOT) else places, slot, at);
          CompletePruned(a.frames, grafted, a.anchors, b.anchors, node.value, at, cfg.keep);
        }
      case SequenceStart(_, _) =>
      case MappingStart(_, _) =>
      case _ =>
        if |a.frames| > 0 {
          var last := |a.frames| - 1;
          var f := a.frames[last];
          var v := Content(f.container);
          KeepPruned(a.frames[..last], a.places, a.anchors, b.anchors, f.anchor, v, f.slot, f.start, cfg, more);
          CompletePruned(a.frames[..last], a.places, Keep(a.anchors, f.anchor, v, a.places, f.slot, f.start, cfg),
                         Keep(b.anchors, f.anchor, v, a.places, f.slot, f.start, more), v, f.start, cfg.keep);
        }
    }
  }

  lemma {:induction false} AfterSame(st: State, tokens: seq<Token>, cfg: Config, more: Config)
    requires st.After? || Final(st)
    requires more == cfg.(keep := more.keep)
    ensures Run(st, tokens, cfg) == Run(st, tokens, more)
    decreases |tokens|
  {
    if !Final(st) && |tokens| > 0 { AfterSame(Step(st, tokens[0], cfg), tokens[1..], cfg, more); }
  }

  lemma {:induction false} RunPruned(s: Scan, a: State, b: State, tokens: seq<Token>, count: nat, budget: nat,
                                     cfg: Config, more: Config)
    requires ScanRun(s, tokens, budget).Aside? && ScanRun(s, tokens, budget).scan.aliased == cfg.keep
    requires InStep(s, a, cfg.keep, count, budget) && RealAliases(tokens) && |tokens| + count + budget < USIZE_MAX
    requires Pruned(a, b, cfg.keep) && cfg.keep <= more.keep && more == cfg.(keep := more.keep)
    ensures Run(a, tokens, cfg) == Run(b, tokens, more)
    decreases |tokens|
  {
    hide SameStack, SameAnchors, Total, NodeStep, ScanStep, AliasStep;
    if |tokens| > 0 {
      var token := tokens[0];
      var tail := tokens[1..];
      var a' := Step(a, token, cfg);
      StoppedOrGoing(s, tokens, budget, cfg.keep);
      assert RealAlias(token);
      var r := ScanStep(s, token, budget);
      NamedByStep(s, token, budget);
      StepPruned(a, b, token, cfg, more);
      if r.Aside? {
        AsideFails(s, a, token, r.scan, cfg.keep, count, budget, cfg);
      } else {
        Lockstep(s, a, token, r.scan, cfg.keep, count, budget, cfg);
        if a'.Open? {
          RunPruned(r.scan, a', Step(b, token, more), tail, count + Weight(token), budget, cfg, more);
        } else {
          AfterSame(a', tail, cfg, more);
        }
      }
    }
  }

  lemma NamedByStep(s: Scan, token: Token, budget: nat)
    requires ScanStep(s, token, budget).More? || ScanStep(s, token, budget).Aside?
    ensures token.Token? && token.event.Alias? ==> token.event.id in ScanStep(s, token, budget).scan.aliased
  {
  }

  // ----- whole streams -----

  lemma StartsInStep(keep: set<nat>, budget: nat)
    ensures InStep(START, INITIAL, keep, 0, budget)
  {
  }

  lemma SkipStart(tokens: seq<Token>, budget: nat, cfg: Config)
    requires |tokens| > 0 && tokens[0].Token? && (tokens[0].event.StreamStart? || tokens[0].event.DocumentStart?)
    ensures ScanRun(START, tokens, budget) == ScanRun(START, tokens[1..], budget)
    ensures Run(Before, tokens, cfg) == Run(Before, tokens[1..], cfg)
    ensures Copied(Before, tokens, cfg) == Copied(Before, tokens[1..], cfg)
    ensures NodeEvents(tokens) == NodeEvents(tokens[1..])
  {
  }

  lemma NoStart(tokens: seq<Token>, cfg: Config)
    requires |tokens| > 0 ==> tokens[0].Token? ==> !tokens[0].event.StreamStart? && !tokens[0].event.DocumentStart?
    ensures Run(Before, tokens, cfg) == Run(INITIAL, tokens, cfg)
    ensures Copied(Before, tokens, cfg) <= Copied(INITIAL, tokens, cfg)
  {
  }

  /** A file whose scan succeeds, and the anchors that it names. */
  ghost predicate Scans(tokens: seq<Token>, keep: set<nat>, budget: nat) {
    && ScanRun(START, tokens, budget).Aside?
    && ScanRun(START, tokens, budget).scan.aliased == keep
    && RealAliases(tokens)
    && |tokens| + budget < USIZE_MAX
  }

  lemma {:induction false} ExpandedWithin(s: Scan, tokens: seq<Token>, budget: nat)
    requires s.expanded <= budget && ScanRun(s, tokens, budget).Aside?
    ensures ScanRun(s, tokens, budget).scan.expanded <= budget
    decreases |tokens|
  {
    if |tokens| > 0 && ScanStep(s, tokens[0], budget).More? {
      ExpandedWithin(ScanStep(s, tokens[0], budget).scan, tokens[1..], budget);
    }
  }

  /** The build copies at most the budget, even when it fails; a built value
      holds one node per node event and per node that its aliases expand to. */
  lemma {:induction false} ExpansionExact(tokens: seq<Token>, budget: nat, cfg: Config)
    requires Scans(tokens, cfg.keep, budget)
    ensures Copied(Before, tokens, cfg) <= budget
    ensures Run(Before, tokens, cfg).Built? ==>
              && Nodes(Run(Before, tokens, cfg).value) ==
                 NodeEvents(tokens) + ScanRun(START, tokens, budget).scan.expanded
              && Nodes(Run(Before, tokens, cfg).value) <= NodeEvents(tokens) + budget
    decreases |tokens|
  {
    ExpandedWithin(START, tokens, budget);
    if |tokens| > 0 && tokens[0].Token? && (tokens[0].event.StreamStart? || tokens[0].event.DocumentStart?) {
      SkipStart(tokens, budget, cfg);
      ExpansionExact(tokens[1..], budget, cfg);
    } else {
      NoStart(tokens, cfg);
      StartsInStep(cfg.keep, budget);
      Accounted(START, INITIAL, tokens, cfg.keep, 0, budget, cfg);
    }
  }

  /** The builder after these events, or where it stopped before their end. */
  ghost function BuildTo(b: State, tokens: seq<Token>, cfg: Config): State
    decreases |tokens|
  {
    if Final(b) || |tokens| == 0 then b else BuildTo(Step(b, tokens[0], cfg), tokens[1..], cfg)
  }

  lemma {:induction false} ClosedStays(b: State, tokens: seq<Token>, cfg: Config)
    requires b.After? || Final(b)
    ensures !BuildTo(b, tokens, cfg).Open?
    decreases |tokens|
  {
    if !Final(b) && |tokens| > 0 { ClosedStays(Step(b, tokens[0], cfg), tokens[1..], cfg); }
  }

  /** In step from here on, for as long as the document is open. */
  lemma {:induction false} InStepTo(s: Scan, b: State, tokens: seq<Token>, k: nat, count: nat, budget: nat, cfg: Config)
    requires k <= |tokens| && ScanRun(s, tokens, budget).Aside? && ScanRun(s, tokens, budget).scan.aliased == cfg.keep
    requires InStep(s, b, cfg.keep, count, budget) && RealAliases(tokens)
    requires |tokens| + count + budget < USIZE_MAX
    ensures BuildTo(b, tokens[..k], cfg).Open? ==>
              && ScanRun(s, tokens[..k], budget).Aside?
              && InStep(ScanRun(s, tokens[..k], budget).scan, BuildTo(b, tokens[..k], cfg), cfg.keep,
                        count + NodeEvents(tokens[..k]), budget)
    decreases k
  {
    hide SameStack, SameAnchors, Total, NodeStep, ScanStep, AliasStep;
    if k > 0 {
      var token := tokens[0];
      var tail := tokens[1..];
      var next := Step(b, token, cfg);
      assert tokens[..k][1..] == tail[..k - 1];
      StoppedOrGoing(s, tokens, budget, cfg.keep);
      assert RealAlias(token);
      var r := ScanStep(s, token, budget);
      if r.Aside? {
        AsideFails(s, b, token, r.scan, cfg.keep, count, budget, cfg);
        ClosedStays(next, tail[..k - 1], cfg);
      } else {
        Lockstep(s, b, token, r.scan, cfg.keep, count, budget, cfg);
        GoingOn(s, token, budget);
        if next.Open? {
          InStepTo(r.scan, next, tail, k - 1, count + Weight(token), budget, cfg);
        } else {
          ClosedStays(next, tail[..k - 1], cfg);
        }
      }
    }
  }

  lemma {:induction false} RealNames(s: Scan, tokens: seq<Token>, budget: nat)
    requires RealAliases(tokens) && 0 !in s.aliased && ScanRun(s, tokens, budget).Aside?
    ensures 0 !in ScanRun(s, tokens, budget).scan.aliased
    decreases |tokens|
  {
    if |tokens| > 0 {
      assert RealAlias(tokens[0]);
      var r := ScanStep(s, tokens[0], budget);
      if r.More? { RealNames(r.scan, tokens[1..], budget); }
    }
  }

  /** After every prefix of the events: while the document is open, the scan has
      found the size and height of exactly the kept anchors that the builder holds,
      and its counts are the nodes read and expanded so far. */
  lemma {:induction false} HeightsFound(tokens: seq<Token>, k: nat, budget: nat, cfg: Config)
    requires Scans(tokens, cfg.keep, budget) && k <= |tokens|
    ensures var b := BuildTo(Before, tokens[..k], cfg);
            var r := ScanRun(START, tokens[..k], budget);
            b.Open? ==>
              && r.Aside?
              && (forall a :: a in cfg.keep ==>
                    && (a in r.scan.shapes <==> a in b.anchors)
                    && (a in b.anchors ==> r.scan.shapes[a] == ShapeOf(b.anchors[a].value)))
              && SameStack(r.scan.open, b.frames)
              && Total(r.scan.open) == NodeEvents(tokens[..k]) + r.scan.expanded
              && r.scan.expanded <= budget
    decreases k
  {
    RealNames(START, tokens, budget);
    hide SameStack, Total, NodeStep, ScanStep;
    if k > 0 {
      assert tokens[..k][1..] == tokens[1..][..k - 1];
      if tokens[0].Token? && (tokens[0].event.StreamStart? || tokens[0].event.DocumentStart?) {
        SkipStart(tokens, budget, cfg);
        SkipStart(tokens[..k], budget, cfg);
        HeightsFound(tokens[1..], k - 1, budget, cfg);
      } else {
        StartsInStep(cfg.keep, budget);
        InStepTo(START, INITIAL, tokens, k, 0, budget, cfg);
      }
    }
  }

  // ----- exactly what aliases expand to -----

  /** The nodes in the open containers. */
  ghost function FrameTotal(frames: seq<Frame>): nat {
    if |frames| == 0 then 0
    else FrameTotal(frames[..|frames| - 1]) + PartShape(frames[|frames| - 1].container).nodes
  }

  lemma FrameTotalPush(frames: seq<Frame>, frame: Frame)
    ensures FrameTotal(frames + [frame]) == FrameTotal(frames) + PartShape(frame.container).nodes
  {
    assert (frames + [frame])[..|frames|] == frames;
  }

  /** The builder's nodes after a step, open or done. */
  ghost function Held(b: State): nat {
    match b
    case Open(frames, _, _) => FrameTotal(frames)
    case After(value, _) => Nodes(value)
    case _ => 0
  }

  lemma CompleteHeld(frames: seq<Frame>, places: Places, anchors: Anchors, value: Value, start: Location)
    requires !Complete(frames, places, anchors, value, start).Failed?
    ensures Held(Complete(frames, places, anchors, value, start)) == FrameTotal(frames) + Nodes(value)
  {
    hide FrameTotal, PartShape, Attach;
    NoFrames();
    if |frames| > 0 {
      var last := |frames| - 1;
      AttachShape(frames[last], value, start, places);
      FrameTotalPush(frames[..last], frames[last]);
      FrameTotalPush(frames[..last], Attach(frames[last], value, start, places).value.0);
      assert frames == frames[..last] + [frames[last]];
    }
  }

  lemma NoFrames()
    ensures FrameTotal([]) == 0
  {
  }

  /** One event adds its own node and the nodes that it copies. */
  lemma StepHeld(b: State, token: Token, cfg: Config)
    requires b.Open? && !Step(b, token, cfg).Failed?
    ensures token.Token? && !token.event.DocumentEnd? && !token.event.StreamEnd?
    ensures Held(Step(b, token, cfg)) == Held(b) + Weight(token) + CopiedBy(b, token, cfg)
  {
    hide FrameTotal, Complete, Keep, Graft, Nodes;
    var at := At(token.marker, cfg);
    var slot := TargetSlot(b.frames);
    var places := TargetPlaces(b.frames, b.places);
    match token.event
    case Scalar(_, _, _, anchor, _) =>
      var value := Leaf(Decode(token.event, token.marker, cfg).value);
      var marked := Mark(places, slot, at);
      LeafNodes(value);
      CompleteHeld(b.frames, marked, Keep(b.anchors, anchor, value, marked, slot, at, cfg), value, at);
    case Alias(id) =>
      var node := b.anchors[id];
      var grafted := if slot.Some? then Graft(places, slot.value, node.places, ROOT) else places;
      CompleteHeld(b.frames, Mark(grafted, slot, at), b.anchors, node.value, at);
    case SequenceStart(anchor, _) => FrameTotalPush(b.frames, Frame(Elements([]), slot, anchor, at));
    case MappingStart(anchor, _) => FrameTotalPush(b.frames, Frame(Mapping([], None), slot, anchor, at));
    case _ => CloseHeld(b, token, cfg);
  }

  lemma CloseHeld(b: State, token: Token, cfg: Config)
    requires b.Open? && token.Token? && !token.event.Scalar? && !token.event.Alias?
    requires !token.event.SequenceStart? && !token.event.MappingStart? && !Step(b, token, cfg).Failed?
    ensures !token.event.DocumentEnd? && !token.event.StreamEnd?
    ensures Held(Step(b, token, cfg)) == Held(b)
  {
    hide FrameTotal, Complete, Keep, Nodes;
    var last := |b.frames| - 1;
    var frame := b.frames[last];
    var value := Content(frame.container);
    ContentNodes(frame, token.event);
    FrameTotalPush(b.frames[..last], frame);
    assert b.frames == b.frames[..last] + [frame];
    CompleteHeld(b.frames[..last], b.places,
                 Keep(b.anchors, frame.anchor, value, b.places, frame.slot, frame.start, cfg), value, frame.start);
  }

  lemma LeafNodes(value: Value)
    requires value.Leaf?
    ensures Nodes(value) == 1
  {
  }

  lemma ContentNodes(frame: Frame, event: Event)
    requires Closes(frame, event)
    ensures Nodes(Content(frame.container)) == PartShape(frame.container).nodes
  {
  }

  /** An accepted value has one node per node event and per copied node. */
  lemma {:induction false} CopiesExact(b: State, tokens: seq<Token>, cfg: Config)
    requires b.Open? && Run(b, tokens, cfg).Built?
    ensures Nodes(Run(b, tokens, cfg).value) == Held(b) + NodeEvents(tokens) + Copied(b, tokens, cfg)
    decreases |tokens|
  {
    hide Step, Held, CopiedBy, Weight;
    BuiltStep(b, tokens, cfg);
    StepHeld(b, tokens[0], cfg);
    var next := Step(b, tokens[0], cfg);
    StepFromOpen(b, tokens[0], cfg);
    if next.Open? {
      CopiesExact(next, tokens[1..], cfg);
    } else {
      DoneCopiesNothing(START, next, tokens[1..], 0, cfg);
      DoneHeld(next);
    }
  }

  lemma StepFromOpen(b: State, token: Token, cfg: Config)
    requires b.Open?
    ensures Step(b, token, cfg).Open? || Step(b, token, cfg).After? || Step(b, token, cfg).Failed?
  {
  }

  lemma DoneHeld(b: State)
    requires b.After?
    ensures Held(b) == Nodes(b.value)
  {
  }

  /** The builder keeps every anchor that some alias names. */
  ghost predicate KeepsNamed(tokens: seq<Token>, keep: set<nat>) {
    forall i :: 0 <= i < |tokens| ==> IsKept(tokens[i], keep)
  }

  ghost predicate IsKept(token: Token, keep: set<nat>) {
    token.Token? && token.event.Alias? ==> token.event.id in keep
  }

  lemma StepNames(s: Scan, token: Token, budget: nat, keep: set<nat>)
    requires s.aliased <= keep && IsKept(token, keep)
    ensures var r := ScanStep(s, token, budget); (r.More? || r.Aside?) ==> r.scan.aliased <= keep
  {
  }

  /** Where the scan stops past the budget, the builder's copy would be the first that exceeds it. */
  lemma OverCopies(s: Scan, b: State, token: Token, keep: set<nat>, count: nat, budget: nat, cfg: Config)
    requires ScanStep(s, token, budget).Over? && RealAlias(token) && IsKept(token, keep) && cfg.keep == keep
    requires InStep(s, b, keep, count, budget) && budget < USIZE_MAX
    ensures token.Token? && token.event.Alias? && ScanStep(s, token, budget) == Over(token.marker)
    ensures s.expanded + CopiedBy(b, token, cfg) > budget
  {
  }

  /** While the builder goes on, what it copies is what the scan counts. */
  lemma CopiesCounted(s: Scan, b: State, token: Token, next: Scan, keep: set<nat>, count: nat, budget: nat, cfg: Config)
    requires ScanStep(s, token, budget) == More(next) && RealAlias(token) && IsKept(token, keep) && cfg.keep == keep
    requires InStep(s, b, keep, count, budget) && budget < USIZE_MAX && !Step(b, token, cfg).Failed?
    ensures next.expanded == s.expanded + CopiedBy(b, token, cfg)
  {
  }

  /** From any point in step: an accepted document passes the scan exactly when what is copied fits the budget. */
  lemma {:induction false} PassesIff(s: Scan, b: State, tokens: seq<Token>, count: nat, budget: nat, cfg: Config)
    requires InStep(s, b, cfg.keep, count, budget) && s.aliased <= cfg.keep && Run(b, tokens, cfg).Built?
    requires KeepsNamed(tokens, cfg.keep) && RealAliases(tokens) && |tokens| + count + budget < USIZE_MAX
    ensures ScanRun(s, tokens, budget).Aside? <==> s.expanded + Copied(b, tokens, cfg) <= budget
    decreases |tokens|
  {
    hide SameStack, SameAnchors, Total, Step, ScanStep, CopiedBy, AliasStep;
    BuiltStep(b, tokens, cfg);
    var (token, tail) := (tokens[0], tokens[1..]);
    assert RealAlias(token) && IsKept(token, cfg.keep);
    StepNames(s, token, budget, cfg.keep);
    StepFromOpen(b, token, cfg);
    var next := Step(b, token, cfg);
    var r := ScanStep(s, token, budget);
    match r
    case Over(_) => OverCopies(s, b, token, cfg.keep, count, budget, cfg);
    case Aside(last) => AsideFails(s, b, token, last, cfg.keep, count, budget, cfg);
    case More(scan) =>
      Lockstep(s, b, token, scan, cfg.keep, count, budget, cfg);
      CopiesCounted(s, b, token, scan, cfg.keep, count, budget, cfg);
      if next.Open? {
        PassesIff(scan, next, tail, count + Weight(token), budget, cfg);
      } else {
        DoneCopiesNothing(scan, next, tail, budget, cfg);
      }
  }

  lemma {:induction false} OverPosition(s: Scan, tokens: seq<Token>, budget: nat) returns (k: nat)
    requires ScanRun(s, tokens, budget).Over?
    ensures k < |tokens| && tokens[k].Token? && tokens[k].event.Alias?
    ensures ScanRun(s, tokens, budget) == Over(tokens[k].marker)
    decreases |tokens|
  {
    k := 0;
    if ScanStep(s, tokens[0], budget).More? {
      k := OverPosition(ScanStep(s, tokens[0], budget).scan, tokens[1..], budget);
      k := k + 1;
    }
  }

  /** From any point in step: the scan stops only at an alias whose copy exceeds the budget, unless the document has
      failed before it. */
  lemma {:induction false} OverFrom(s: Scan, b: State, tokens: seq<Token>, count: nat, budget: nat, cfg: Config)
    returns (k: nat)
    requires InStep(s, b, cfg.keep, count, budget) && s.aliased <= cfg.keep && ScanRun(s, tokens, budget).Over?
    requires KeepsNamed(tokens, cfg.keep) && RealAliases(tokens) && |tokens| + count + budget < USIZE_MAX
    ensures k < |tokens| && tokens[k].Token? && tokens[k].event.Alias?
    ensures ScanRun(s, tokens, budget) == Over(tokens[k].marker)
    ensures BuildTo(b, tokens[..k], cfg).Open? ==> s.expanded + Copied(b, tokens[..k + 1], cfg) > budget
    decreases |tokens|
  {
    hide SameStack, SameAnchors, Total, Step, ScanStep, CopiedBy, AliasStep;
    var (token, tail) := (tokens[0], tokens[1..]);
    assert RealAlias(token) && IsKept(token, cfg.keep);
    StepNames(s, token, budget, cfg.keep);
    var next := Step(b, token, cfg);
    var r := ScanStep(s, token, budget);
    if r.Over? {
      k := 0;
      OverCopies(s, b, token, cfg.keep, count, budget, cfg);
      assert tokens[..1][0] == token;
    } else {
      StepFromOpen(b, token, cfg);
      Lockstep(s, b, token, r.scan, cfg.keep, count, budget, cfg);
      if next.Open? {
        CopiesCounted(s, b, token, r.scan, cfg.keep, count, budget, cfg);
        k := OverFrom(r.scan, next, tail, count + Weight(token), budget, cfg);
        assert tokens[..k + 1][1..] == tail[..k] && tokens[..k + 2][1..] == tail[..k + 1];
      } else {
        k := OverPosition(r.scan, tail, budget);
        assert tokens[..k + 1][1..] == tail[..k];
        ClosedStays(next, tail[..k], cfg);
      }
      k := k + 1;
    }
  }

  /** The scan refuses a file only at an alias with which the aliases really expand past the budget, unless the builder
      that keeps every named anchor has failed or closed the document before it. */
  lemma {:induction false} OverIsReal(tokens: seq<Token>, budget: nat, cfg: Config) returns (k: nat)
    requires ScanRun(START, tokens, budget).Over? && KeepsNamed(tokens, cfg.keep) && RealAliases(tokens)
    requires |tokens| + budget < USIZE_MAX
    ensures k < |tokens| && tokens[k].Token? && tokens[k].event.Alias?
    ensures ScanRun(START, tokens, budget) == Over(tokens[k].marker)
    ensures var b := BuildTo(Before, tokens[..k], cfg);
            b.Before? || b.Open? ==> Copied(Before, tokens[..k + 1], cfg) > budget
    decreases |tokens|
  {
    hide Step, CopiedBy, ScanStep;
    ScanGoesOn(tokens, budget);
    if tokens[0].event.StreamStart? || tokens[0].event.DocumentStart? {
      SkipStart(tokens, budget, cfg);
      k := OverIsReal(tokens[1..], budget, cfg);
      k := k + 1;
      assert tokens[..k][1..] == tokens[1..][..k - 1] && tokens[..k + 1][1..] == tokens[1..][..k];
      SkipStart(tokens[..k], budget, cfg);
      SkipStart(tokens[..k + 1], budget, cfg);
      StartStays(tokens[0], cfg);
    } else {
      StartsInStep(cfg.keep, budget);
      k := OverFrom(START, INITIAL, tokens, 0, budget, cfg);
      FromStart(tokens[..k + 1], cfg);
      if k > 0 {
        FromStart(tokens[..k], cfg);
        OpensOrEnds(INITIAL, tokens[..k], cfg);
      } else {
        assert BuildTo(INITIAL, tokens[..0], cfg).Open?;
      }
    }
  }

  lemma {:induction false} OpensOrEnds(b: State, tokens: seq<Token>, cfg: Config)
    requires !b.Before?
    ensures !BuildTo(b, tokens, cfg).Before?
    decreases |tokens|
  {
    if !Final(b) && |tokens| > 0 { OpensOrEnds(Step(b, tokens[0], cfg), tokens[1..], cfg); }
  }

  lemma ScanGoesOn(tokens: seq<Token>, budget: nat)
    requires ScanRun(START, tokens, budget).Over?
    ensures |tokens| > 0 && tokens[0].Token?
  {
  }

  lemma StartStays(token: Token, cfg: Config)
    requires token.Token? && (token.event.StreamStart? || token.event.DocumentStart?)
    ensures Step(Before, token, cfg) == Before
  {
  }

  /** An accepted document passes the scan exactly when its aliases expand to at most the budget; its nodes are
      the node events and the expanded ones. */
  lemma {:induction false} PassesExactly(tokens: seq<Token>, budget: nat, cfg: Config)
    requires Run(Before, tokens, cfg).Built? && KeepsNamed(tokens, cfg.keep) && RealAliases(tokens)
    requires |tokens| + budget < USIZE_MAX
    ensures Nodes(Run(Before, tokens, cfg).value) == NodeEvents(tokens) + Copied(Before, tokens, cfg)
    ensures ScanRun(START, tokens, budget).Aside? <==>
            Nodes(Run(Before, tokens, cfg).value) <= NodeEvents(tokens) + budget
    decreases |tokens|
  {
    hide Step, CopiedBy;
    BuiltStep(Before, tokens, cfg);
    if tokens[0].event.StreamStart? || tokens[0].event.DocumentStart? {
      SkipStart(tokens, budget, cfg);
      PassesExactly(tokens[1..], budget, cfg);
    } else {
      FromStart(tokens, cfg);
      StartsInStep(cfg.keep, budget);
      PassesIff(START, INITIAL, tokens, 0, budget, cfg);
      CopiesExact(INITIAL, tokens, cfg);
      NoFrames();
    }
  }

  lemma FromStart(tokens: seq<Token>, cfg: Config)
    requires |tokens| > 0 && tokens[0].Token? && !tokens[0].event.StreamStart? && !tokens[0].event.DocumentStart?
    ensures Run(Before, tokens, cfg) == Run(INITIAL, tokens, cfg)
    ensures Copied(Before, tokens, cfg) == Copied(INITIAL, tokens, cfg)
    ensures BuildTo(Before, tokens, cfg) == BuildTo(INITIAL, tokens, cfg)
  {
    hide ScalarStep, OpenStep, CloseStep;
  }

  /** Building with only the scanned anchors gives the same value, positions or
      failure as keeping any more of them. */
  lemma {:induction false} PruningInvisible(tokens: seq<Token>, budget: nat, cfg: Config, more: Config)
    requires Scans(tokens, cfg.keep, budget)
    requires cfg.keep <= more.keep && more == cfg.(keep := more.keep)
    ensures Run(Before, tokens, cfg) == Run(Before, tokens, more)
    decreases |tokens|
  {
    if |tokens| > 0 && tokens[0].Token? && (tokens[0].event.StreamStart? || tokens[0].event.DocumentStart?) {
      SkipStart(tokens, budget, cfg);
      SkipStart(tokens, budget, more);
      PruningInvisible(tokens[1..], budget, cfg, more);
    } else {
      NoStart(tokens, cfg);
      NoStart(tokens, more);
      StartsInStep(cfg.keep, budget);
      RunPruned(START, INITIAL, INITIAL, tokens, 0, budget, cfg, more);
    }
  }

  /** The configuration that keeps every anchor of a document. */
  function KeepingAll(cfg: Config, t: Tree): Config {
    cfg.(keep := cfg.keep + (Declared(t) - {0}))
  }

  /** With the scanned anchors, the builder reads a document as the evaluator
      that binds every anchor says. */
  lemma ScannedMeaning(tokens: seq<Token>, t: Tree, rest: seq<Token>, budget: nat, cfg: Config)
    requires IsDocument(tokens, t, rest) && Scans(tokens, cfg.keep, budget)
    ensures Run(Before, tokens, cfg) == Run(Before, tokens, KeepingAll(cfg, t))
    ensures Run(Before, tokens, cfg) ==
            match Denote(t, 0, false, map[], KeepingAll(cfg, t)) {
              case Err(issue) => Failed(issue)
              case Ok(e) => Built(ValueOf(e.node), PlacesAt(e.node, ROOT))
            }
  {
    hide Run;
    PruningInvisible(tokens, budget, cfg, KeepingAll(cfg, t));
    DocumentMeaning(tokens, t, rest, KeepingAll(cfg, t));
  }

  /** An accepted stream is one document, and its value and positions are those of
      the evaluator that binds every anchor, not only the ones that the scan kept. */
  lemma ScannedPositions(tokens: seq<Token>, budget: nat, cfg: Config) returns (t: Tree, rest: seq<Token>)
    requires Scans(tokens, cfg.keep, budget) && Run(Before, tokens, cfg).Built?
    ensures IsDocument(tokens, t, rest)
    ensures var r := Denote(t, 0, false, map[], KeepingAll(cfg, t));
            var built := Run(Before, tokens, cfg);
            && r.Ok?
            && built.value == ValueOf(r.value.node)
            && Height(built.value) <= MAX_DEPTH
            && Exact(built.value, built.places)
            && Locates(built.places, r.value.node)
  {
    hide Run, IsDocument, Exact, Locates, Scans;
    t, rest := AcceptedIsDocument(tokens, cfg);
    ScannedMeaning(tokens, t, rest, budget, cfg);
    DocumentPositions(tokens, t, rest, KeepingAll(cfg, t));
  }
}

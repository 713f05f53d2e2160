// The reader: alias scan, then one loop over events with heap frames (yaml.rs).

module YamlReader {
  import opened Common
  import opened Pointers
  import opened YamlValues
  import opened YamlMachine
  import opened YamlPositions
  import opened YamlFrames
  import opened YamlAliases
  import YamlAccepts
  import YamlDocument
  import YamlFailures
  import YamlLockstep
  import YamlReading
  import YamlResults
  import YamlTree

  /** A decoded value and its source locations. */
  datatype Document = Document(value: Value, positions: Positions)

  /** What the reader keeps for an anchor; the height is checked before a copy is made. */
  datatype KeptNode = KeptNode(document: Document, height: nat)

  /** The open frames with their slots named by their paths. */
  ghost function Views(frames: seq<OpenFrame>, paths: seq<Path>): (views: seq<Frame>)
    reads frames
    requires forall i :: 0 <= i < |frames| ==> frames[i].Fits(|paths|)
    ensures |views| == |frames|
  {
    if |frames| == 0 then []
    else Views(frames[..|frames| - 1], paths) + [frames[|frames| - 1].View(paths)]
  }

  lemma {:induction false} ViewsGrow(frames: seq<OpenFrame>, paths: seq<Path>, grown: seq<Path>)
    requires forall i :: 0 <= i < |frames| ==> frames[i].Fits(|paths|)
    requires paths <= grown
    ensures forall i :: 0 <= i < |frames| ==> frames[i].Fits(|grown|)
    ensures Views(frames, grown) == Views(frames, paths)
  {
    if |frames| > 0 {
      ViewsGrow(frames[..|frames| - 1], paths, grown);
      assert frames[|frames| - 1].Fits(|paths|);
    }
  }

  lemma ViewsSplit(frames: seq<OpenFrame>, paths: seq<Path>)
    requires |frames| > 0
    requires forall i :: 0 <= i < |frames| ==> frames[i].Fits(|paths|)
    ensures var rest := frames[..|frames| - 1];
            var last := frames[|frames| - 1];
            && Views(frames, paths) == Views(rest, paths) + [last.View(paths)]
            && Views(frames, paths)[..|frames| - 1] == Views(rest, paths)
            && Views(frames, paths)[|frames| - 1] == last.View(paths)
  {
  }

  // ----- node results, case by case -----

  lemma OpenOutcome(st: State, event: Event, marker: Marker, cfg: Config)
    requires st.Open? && (event.SequenceStart? || event.MappingStart?)
    ensures NodeResult(st, event, marker, cfg) ==
            if |st.frames| > MAX_DEPTH then Err(Issue(TooDeep, At(marker, cfg)))
            else if event.tag.Some? && event.tag.value.handle != "tag:yaml.org,2002:" && event.tag.value.handle != "!!"
            then Err(Issue(CustomTag, At(marker, cfg)))
            else
              var container := if event.SequenceStart? then Elements([]) else Mapping([], None);
              Ok(Open(st.frames + [Frame(container, TargetSlot(st.frames), event.anchor, At(marker, cfg))],
                      Mark(TargetPlaces(st.frames, st.places), TargetSlot(st.frames), At(marker, cfg)), st.anchors))
  {
  }

  lemma AliasOutcome(st: State, id: nat, marker: Marker, cfg: Config)
    requires st.Open?
    ensures NodeResult(st, Alias(id), marker, cfg) ==
            if |st.frames| > MAX_DEPTH then Err(Issue(TooDeep, At(marker, cfg)))
            else if id !in st.anchors then Err(Issue(UnknownAlias, At(marker, cfg)))
            else if |st.frames| + st.anchors[id].height > MAX_DEPTH then Err(Issue(TooDeep, At(marker, cfg)))
            else
              var slot := TargetSlot(st.frames);
              var places := TargetPlaces(st.frames, st.places);
              var marked := if slot.None? then places
                            else Mark(Graft(places, slot.value, st.anchors[id].places, ROOT), slot, At(marker, cfg));
              Ok(Complete(st.frames, marked, st.anchors, st.anchors[id].value, At(marker, cfg)))
  {
    hide Graft, Complete;
  }

  lemma CloseOutcome(st: State, event: Event, marker: Marker, cfg: Config)
    requires st.Open?
    requires !event.Scalar? && !event.Alias? && !event.SequenceStart? && !event.MappingStart?
    ensures NodeResult(st, event, marker, cfg) == CloseStep(st, event, marker, cfg)
  {
  }

  /** The reader's answer is the machine's last state. */
  ghost predicate Answers(r: Result<Document>, last: State)
    reads if r.Ok? then {r.value.positions} else {}
  {
    match r
    case Err(issue) => last == Failed(issue)
    case Ok(document) => document.positions.Valid() && last == Built(document.value, document.positions.Places())
  }

  class Reader {
    const tokens: seq<Token>
    const path: string
    const firstLine: nat
    var next: nat
    var aliased: set<nat>
    var anchors: map<nat, KeptNode>

    constructor (tokens: seq<Token>, path: string, firstLine: nat)
      ensures this.tokens == tokens && this.path == path && this.firstLine == firstLine
      ensures next == 0 && aliased == {} && anchors == map[]
    {
      this.tokens := tokens;
      this.path := path;
      this.firstLine := firstLine;
      next := 0;
      aliased := {};
      anchors := map[];
    }

    ghost function Cfg(): Config
      reads this`aliased
    {
      Config(path, firstLine, aliased)
    }

    ghost function Held(): set<object>
      reads this`anchors
    {
      set a | a in anchors :: anchors[a].document.positions
    }

    ghost predicate Valid()
      reads this`anchors, Held()
    {
      forall a :: a in anchors ==> anchors[a].document.positions.Valid()
    }

    ghost function Kept(): Anchors
      reads this`anchors, Held()
      requires Valid()
    {
      map a | a in anchors ::
        Anchor(anchors[a].document.value, anchors[a].document.positions.Places(), anchors[a].height)
    }

    function Where(marker: Marker): Location {
      Location(path, marker.line + firstLine - 1, marker.col + 1)
    }

    /** The next event, or the parser's own error; `st` is the builder before it. */
    method Next(ghost st: State) returns (r: Result<(Event, Marker)>)
      requires next <= |tokens| && !Final(st)
      modifies this`next
      ensures next <= |tokens|
      ensures r.Err? ==> Run(st, tokens[old(next)..], Cfg()) == Failed(r.issue)
      ensures r.Ok? ==>
                && next == old(next) + 1
                && Run(st, tokens[old(next)..], Cfg()) ==
                   Run(Step(st, Token(r.value.0, r.value.1), Cfg()), tokens[next..], Cfg())
    {
      NextRun(st, tokens, next, Cfg());
      var token := END;
      if next < |tokens| {
        token := tokens[next];
        next := next + 1;
      }
      if token.Broken? {
        r := Err(Issue(Parser(token.info), Where(token.marker)));
      } else {
        r := Ok((token.event, token.marker));
      }
    }

    // ----- one node's events -----

    /** Frames and positions that this reader is building with. */
    ghost predicate Working(frames: seq<OpenFrame>, positions: Positions)
      reads this`anchors, Held(), positions, frames
    {
      && Valid() && positions.Valid() && positions !in Held()
      && (forall i :: 0 <= i < |frames| ==> frames[i].Fits(|positions.paths|))
      && (forall i, j :: 0 <= i < j < |frames| ==> frames[i] != frames[j])
    }

    /** The builder's state in the model's terms. */
    ghost function Now(frames: seq<OpenFrame>, positions: Positions): State
      reads this`anchors, Held(), positions, frames
      requires Working(frames, positions)
    {
      Open(Views(frames, positions.paths), positions.Places(), Kept())
    }

    /** Where the next node is located: the root's slot, or the last frame's next child. */
    method Target(frames: seq<OpenFrame>, positions: Positions) returns (slot: Option<nat>)
      requires Working(frames, positions)
      modifies positions
      ensures Working(frames, positions) && old(positions.paths) <= positions.paths
      ensures InSlots(slot, |positions.paths|)
      ensures Views(frames, positions.paths) == old(Views(frames, positions.paths)) && Kept() == old(Kept())
      ensures PathOf(slot, positions.paths) == TargetSlot(Views(frames, positions.paths))
      ensures positions.Places() == TargetPlaces(Views(frames, positions.paths), old(positions.Places()))
    {
      if |frames| == 0 {
        positions.SameCount();
        return Some(0);
      }
      ghost var before := positions.paths;
      slot := frames[|frames| - 1].Child(positions);
      ViewsGrow(frames, before, positions.paths);
    }

    /** Record a location at a slot, if there is one. */
    method MarkSlot(frames: seq<OpenFrame>, positions: Positions, slot: Option<nat>, at: Location)
      requires Working(frames, positions) && InSlots(slot, |positions.paths|)
      modifies positions`slots
      ensures Working(frames, positions) && InSlots(slot, |positions.paths|)
      ensures Views(frames, positions.paths) == old(Views(frames, positions.paths)) && Kept() == old(Kept())
      ensures positions.Places() == Mark(old(positions.Places()), PathOf(slot, positions.paths), at)
    {
      positions.SameCount();
      if slot.Some? {
        positions.Set(slot.value, at);
      }
    }

    /** Place a new node: find its slot and record where it starts. */
    method Place(frames: seq<OpenFrame>, positions: Positions, start: Location) returns (slot: Option<nat>)
      requires Working(frames, positions)
      modifies positions
      ensures Working(frames, positions) && InSlots(slot, |positions.paths|)
      ensures Views(frames, positions.paths) == old(Views(frames, positions.paths)) && Kept() == old(Kept())
      ensures PathOf(slot, positions.paths) == TargetSlot(Views(frames, positions.paths))
      ensures positions.Places() ==
              Mark(TargetPlaces(Views(frames, positions.paths), old(positions.Places())),
                   PathOf(slot, positions.paths), start)
    {
      hide YamlPositions.IsTree, PlacesOf, Views;
      slot := Target(frames, positions);
      MarkSlot(frames, positions, slot, start);
    }

    /** Only anchors that some alias names are copied. */
    method KeepAnchor(frames: seq<OpenFrame>, anchor: nat, value: Value, positions: Positions, slot: Option<nat>,
                      start: Location)
      requires Working(frames, positions) && InSlots(slot, |positions.paths|)
      modifies this`anchors
      ensures Working(frames, positions) && fresh(Held() - old(Held()))
      ensures Kept() ==
              Keep(old(Kept()), anchor, value, positions.Places(), PathOf(slot, positions.paths), start, Cfg())
    {
      hide YamlPositions.IsTree, PlacesOf, Subtree, Views;
      if anchor !in aliased { return; }
      var relative := RelativeTo(positions, slot, start);
      var height := HeightOf(value);
      var copied := Copy(value);
      Hold(anchor, KeptNode(Document(copied, relative), height));
    }

    /** The locations at and below a slot, or inside a key only the node's own. */
    static method RelativeTo(positions: Positions, slot: Option<nat>, start: Location) returns (relative: Positions)
      requires positions.Valid() && InSlots(slot, |positions.paths|)
      ensures fresh(relative) && relative.Valid()
      ensures var path := PathOf(slot, positions.paths);
              relative.Places() ==
                if path.Some? && path.value in positions.Places() then Subtree(positions.Places(), path.value)
                                   else map[ROOT := Some(start)]
    {
      positions.SameCount();
      hide YamlPositions.IsTree, PlacesOf, Graft;
      if slot.Some? {
        relative := positions.Subtree(slot.value);
      } else {
        relative := new Positions.At(start);
      }
    }

    method Hold(anchor: nat, node: KeptNode)
      requires Valid() && node.document.positions.Valid()
      modifies this`anchors
      ensures Valid() && Held() <= old(Held()) + {node.document.positions}
      ensures Kept() ==
              old(Kept())[anchor := Anchor(node.document.value, node.document.positions.Places(), node.height)]
    {
      hide YamlPositions.IsTree, PlacesOf;
      anchors := anchors[anchor := node];
    }

    method ReadScalar(event: Event, marker: Marker, frames: seq<OpenFrame>, positions: Positions)
      returns (r: Result<(Value, Location)>)
      requires event.Scalar? && Working(frames, positions)
      modifies this`anchors, positions
      ensures Working(frames, positions) && fresh(Held() - old(Held()))
      ensures NodeResult(old(Now(frames, positions)), event, marker, Cfg()) == Outcome(r, frames, positions)
      ensures
        var start := Location(path, marker.line + firstLine - 1, marker.col + 1);
        var isText := !event.plain || (event.tag.Some? && event.tag.value.suffix == "str");
        r == if |frames| > 128 then Err(Issue(TooDeep, start))
             else if event.tag.Some? && event.tag.value.handle !in {"tag:yaml.org,2002:", "!!"}
             then Err(Issue(CustomTag, start))
             else if isText then Ok((Leaf(Text(event.text)), start))
             else if event.decoded.Some? then Ok((Leaf(event.decoded.value), start))
             else Err(Issue(NotFinite, start))
    {
      hide YamlPositions.IsTree, PlacesOf, Subtree, Views, Complete;
      if |frames| > MAX_DEPTH { return Err(Issue(TooDeep, Where(marker))); }
      if event.tag.Some? && event.tag.value.handle != "tag:yaml.org,2002:" && event.tag.value.handle != "!!" {
        return Err(Issue(CustomTag, Where(marker)));
      }
      var quoted := !event.plain || (event.tag.Some? && event.tag.value.suffix == "str");
      if !quoted && event.decoded.None? { return Err(Issue(NotFinite, Where(marker))); }
      var value := Leaf(if quoted then Text(event.text) else event.decoded.value);
      var start := Where(marker);
      var slot := Place(frames, positions, start);
      KeepAnchor(frames, event.anchor, value, positions, slot, start);
      r := Ok((value, start));
    }

    /** The builder after a completed or failed node, before it joins its parent. */
    ghost function Outcome(r: Result<(Value, Location)>, frames: seq<OpenFrame>, positions: Positions): Result<State>
      reads this`anchors, Held(), positions, frames
      requires Working(frames, positions)
    {
      match r
      case Err(issue) => Err(issue)
      case Ok(node) => Ok(Complete(Views(frames, positions.paths), positions.Places(), Kept(), node.0, node.1))
    }

    method ReadAlias(id: nat, marker: Marker, frames: seq<OpenFrame>, positions: Positions)
      returns (r: Result<(Value, Location)>)
      requires Working(frames, positions)
      modifies positions
      ensures Working(frames, positions)
      ensures NodeResult(old(Now(frames, positions)), Alias(id), marker, Cfg()) == Outcome(r, frames, positions)
    {
      hide YamlPositions.IsTree, PlacesOf, Graft, Views, Complete, NodeResult, Mark, TargetSlot, TargetPlaces;
      AliasOutcome(Now(frames, positions), id, marker, Cfg());
      if |frames| > MAX_DEPTH { return Err(Issue(TooDeep, Where(marker))); }
      if id !in anchors { return Err(Issue(UnknownAlias, Where(marker))); }
      var node := anchors[id];
      if |frames| + node.height > MAX_DEPTH { return Err(Issue(TooDeep, Where(marker))); }
      var start := Where(marker);
      var slot := Target(frames, positions);
      if slot.Some? {
        GraftAt(frames, positions, slot.value, node.document.positions);
        MarkSlot(frames, positions, slot, start);
      }
      var copied := Copy(node.document.value);
      r := Ok((copied, start));
    }

    /** Copy an anchored node's places below a slot. */
    method GraftAt(frames: seq<OpenFrame>, positions: Positions, slot: nat, source: Positions)
      requires Working(frames, positions) && slot < |positions.paths| && source in Held()
      modifies positions
      ensures Working(frames, positions) && slot < |positions.paths| &&
              positions.paths[slot] == old(positions.paths[slot])
      ensures Views(frames, positions.paths) == old(Views(frames, positions.paths)) && Kept() == old(Kept())
      ensures positions.Places() ==
              Graft(old(positions.Places()), old(positions.paths[slot]), old(source.Places()), ROOT)
    {
      hide YamlPositions.IsTree, PlacesOf, Graft;
      positions.SameCount();
      source.SameCount();
      ghost var before := positions.paths;
      positions.Graft(slot, source, 0);
      ViewsGrow(frames, before, positions.paths);
    }

    method OpenContainer(event: Event, marker: Marker, frames: seq<OpenFrame>, positions: Positions)
      returns (r: Result<OpenFrame>)
      requires event.SequenceStart? || event.MappingStart?
      requires Working(frames, positions)
      modifies positions
      ensures match NodeResult(old(Now(frames, positions)), event, marker, Cfg())
              case Err(issue) => r == Err(issue)
              case Ok(st) =>
                && r.Ok? && fresh(r.value) && Working(frames + [r.value], positions)
                && st == Now(frames + [r.value], positions)
    {
      hide YamlPositions.IsTree, PlacesOf, Views, NodeResult, Mark, TargetSlot, TargetPlaces;
      OpenOutcome(Now(frames, positions), event, marker, Cfg());
      if |frames| > MAX_DEPTH { return Err(Issue(TooDeep, Where(marker))); }
      if event.tag.Some? && event.tag.value.handle != "tag:yaml.org,2002:" && event.tag.value.handle != "!!" {
        return Err(Issue(CustomTag, Where(marker)));
      }
      var start := Where(marker);
      var slot := Place(frames, positions, start);
      var frame := new OpenFrame(event.SequenceStart?, slot, event.anchor, start);
      assert (frames + [frame])[..|frames|] == frames;
      ViewsSplit(frames + [frame], positions.paths);
      r := Ok(frame);
    }

    /** The last frame's content; the frames below it stay as they are. */
    method TakeLast(frames: seq<OpenFrame>, positions: Positions) returns (value: Value)
      requires Working(frames, positions) && |frames| > 0
      modifies frames[|frames| - 1]
      ensures Working(frames[..|frames| - 1], positions) && Kept() == old(Kept())
      ensures positions.Places() == old(positions.Places())
      ensures Views(frames[..|frames| - 1], positions.paths) == old(Views(frames[..|frames| - 1], positions.paths))
      ensures value == Content(old(frames[|frames| - 1].View(positions.paths)).container)
    {
      hide YamlPositions.IsTree, PlacesOf, Views;
      value := frames[|frames| - 1].Take();
    }

    /** Close the last frame where its container may end; its value is taken. */
    method CloseContainer(event: Event, marker: Marker, frames: seq<OpenFrame>, positions: Positions)
      returns (r: Result<(Value, Location)>)
      requires !event.Scalar? && !event.Alias? && !event.SequenceStart? && !event.MappingStart?
      requires Working(frames, positions)
      modifies this`anchors, frames
      ensures fresh(Held() - old(Held()))
      ensures r.Err? ==> NodeResult(old(Now(frames, positions)), event, marker, Cfg()) == Err(r.issue)
      ensures r.Ok? ==>
                && |frames| > 0
                && Working(frames[..|frames| - 1], positions)
                && NodeResult(old(Now(frames, positions)), event, marker, Cfg()) ==
                   Outcome(r, frames[..|frames| - 1], positions)
    {
      hide YamlPositions.IsTree, PlacesOf, Complete, Views, NodeResult, Keep, Content;
      CloseOutcome(Now(frames, positions), event, marker, Cfg());
      if |frames| == 0 { return Err(Issue(ExpectedValue, Where(marker))); }
      ViewsSplit(frames, positions.paths);
      if !frames[|frames| - 1].Closed(event) { return Err(Issue(ExpectedValue, Where(marker))); }
      var frame := frames[|frames| - 1];
      var rest := frames[..|frames| - 1];
      var value := TakeLast(frames, positions);
      KeepAnchor(rest, frame.anchor, value, positions, frame.slot, frame.start);
      r := Ok((value, frame.start));
    }

    /** Add a completed node to the last frame. */
    method Deliver(frames: seq<OpenFrame>, positions: Positions, value: Value, start: Location)
      returns (rejected: Option<Issue>)
      requires Working(frames, positions) && |frames| > 0
      modifies frames[|frames| - 1], positions
      ensures rejected.Some? ==>
                Complete(old(Views(frames, positions.paths)), old(positions.Places()), old(Kept()), value, start) ==
                  Failed(rejected.value)
      ensures rejected.None? ==>
                && Working(frames, positions)
                && Complete(old(Views(frames, positions.paths)), old(positions.Places()), old(Kept()), value, start)
                   == Now(frames, positions)
    {
      hide YamlPositions.IsTree, PlacesOf, Attach, Views;
      ghost var before := positions.paths;
      ghost var rest := frames[..|frames| - 1];
      ViewsSplit(frames, positions.paths);
      rejected := frames[|frames| - 1].Join(value, start, positions);
      if rejected.None? {
        ViewsGrow(rest, before, positions.paths);
        ViewsSplit(frames, positions.paths);
      }
    }

    // ----- the loop -----

    /** One event of a node: a completed node and the frames below it, or one more open container. */
    method ReadEvent(event: Event, marker: Marker, frames: seq<OpenFrame>, positions: Positions)
      returns (r: Result<Option<(Value, Location)>>, left: seq<OpenFrame>)
      requires Working(frames, positions)
      modifies this`anchors, positions, frames
      ensures fresh(Held() - old(Held()))
      ensures r.Err? ==> NodeResult(old(Now(frames, positions)), event, marker, Cfg()) == Err(r.issue)
      ensures r.Ok? ==> Working(left, positions) && forall i :: 0 <= i < |left| ==> left[i] in frames || fresh(left[i])
      ensures r.Ok? && r.value.None? ==>
                NodeResult(old(Now(frames, positions)), event, marker, Cfg()) == Ok(Now(left, positions))
      ensures r.Ok? && r.value.Some? ==>
                NodeResult(old(Now(frames, positions)), event, marker, Cfg()) ==
                Ok(Complete(Views(left, positions.paths), positions.Places(), Kept(), r.value.value.0, r.value.value.1))
    {
      hide YamlPositions.IsTree, PlacesOf, Complete, Views, NodeResult;
      left := frames;
      var node: Result<(Value, Location)>;
      if event.SequenceStart? || event.MappingStart? {
        var start := OpenContainer(event, marker, frames, positions);
        if start.Err? { return Err(start.issue), left; }
        return Ok(None), frames + [start.value];
      } else if event.Scalar? {
        node := ReadScalar(event, marker, frames, positions);
      } else if event.Alias? {
        node := ReadAlias(event.id, marker, frames, positions);
      } else {
        node := CloseContainer(event, marker, frames, positions);
        if node.Ok? { left := frames[..|frames| - 1]; }
      }
      if node.Err? { return Err(node.issue), left; }
      r := Ok(Some(node.value));
    }

    /** One turn of the loop: fail, complete the document's value, or leave containers open. */
    method Turn(event: Event, marker: Marker, frames: seq<OpenFrame>, positions: Positions)
      returns (r: Result<Option<Value>>, left: seq<OpenFrame>)
      requires Working(frames, positions)
      modifies this`anchors, positions, frames
      ensures fresh(Held() - old(Held()))
      ensures r.Err? ==> NodeStep(old(Now(frames, positions)), event, marker, Cfg()) == Failed(r.issue)
      ensures r.Ok? ==> Working(left, positions) && forall i :: 0 <= i < |left| ==> left[i] in frames || fresh(left[i])
      ensures r.Ok? ==>
                NodeStep(old(Now(frames, positions)), event, marker, Cfg())
                == if r.value.Some? then After(r.value.value, positions.Places()) else Now(left, positions)
    {
      hide YamlPositions.IsTree, PlacesOf, Complete, Views, NodeResult;
      var read;
      read, left := ReadEvent(event, marker, frames, positions);
      if read.Err? { return Err(read.issue), left; }
      if read.value.None? { return Ok(None), left; }
      var (value, start) := read.value.value;
      if |left| == 0 {
        DocumentDone(left, positions, value, start);
        return Ok(Some(value)), left;
      }
      var rejected := Deliver(left, positions, value, start);
      if rejected.Some? { return Err(rejected.value), left; }
      r := Ok(None);
    }

    /** The event that the open containers go on with; they and the positions stay as they are. */
    method NextEvent(frames: seq<OpenFrame>, positions: Positions) returns (r: Result<(Event, Marker)>)
      requires Working(frames, positions) && next <= |tokens|
      modifies this`next
      ensures next <= |tokens| && Working(frames, positions) && Now(frames, positions) == old(Now(frames, positions))
      ensures r.Err? ==> Run(Now(frames, positions), tokens[old(next)..], Cfg()) == Failed(r.issue)
      ensures r.Ok? ==>
                && next == old(next) + 1
                && Run(Now(frames, positions), tokens[old(next)..], Cfg()) ==
                   Run(NodeStep(Now(frames, positions), r.value.0, r.value.1, Cfg()), tokens[next..], Cfg())
    {
      hide YamlPositions.IsTree, PlacesOf, Views, NodeStep, Step, Run;
      r := Next(Now(frames, positions));
      if r.Ok? {
        OpenStepIs(Now(frames, positions), r.value.0, r.value.1, Cfg());
      }
    }

    /** The loop over one document's events; `frames` holds what is still open. */
    method Node(first: Event, at: Marker) returns (r: Result<Document>)
      requires Valid() && anchors == map[] && next <= |tokens|
      modifies this`next, this`anchors
      ensures r.Err? ==> Run(NodeStep(INITIAL, first, at, Cfg()), tokens[old(next)..], Cfg()) == Failed(r.issue)
      ensures r.Ok? ==>
                && next <= |tokens| && r.value.positions.Valid()
                && Run(NodeStep(INITIAL, first, at, Cfg()), tokens[old(next)..], Cfg())
                   == Run(After(r.value.value, r.value.positions.Places()), tokens[next..], Cfg())
    {
      hide YamlPositions.IsTree, PlacesOf, Views, NodeStep, Step, Run;
      var frames: seq<OpenFrame> := [];
      var positions := new Positions();
      var event, marker := first, at;
      assert Kept() == map[];
      NoViews(positions.paths);
      ghost var goal := Run(NodeStep(INITIAL, first, at, Cfg()), tokens[next..], Cfg());
      while true
        invariant next <= |tokens|
        invariant Working(frames, positions) && fresh(positions)
        invariant forall i :: 0 <= i < |frames| ==> fresh(frames[i])
        invariant aliased == old(aliased) && fresh(Held())
        invariant goal == Run(NodeStep(Now(frames, positions), event, marker, Cfg()), tokens[next..], Cfg())
        decreases |tokens| - next
      {
        var turn, left := Turn(event, marker, frames, positions);
        if turn.Err? {
          FailedRun(turn.issue, tokens[next..], Cfg());
          return Err(turn.issue);
        }
        if turn.value.Some? {
          return Ok(Document(turn.value.value, positions));
        }
        frames := left;
        var read := NextEvent(frames, positions);
        if read.Err? { return Err(read.issue); }
        event, marker := read.value.0, read.value.1;
      }
    }

    /** Skips the markers before the document and checks what follows it. */
    method Read() returns (r: Result<Document>)
      requires Valid() && anchors == map[] && next <= |tokens|
      modifies this`next, this`anchors
      ensures Answers(r, Run(Before, tokens[old(next)..], Cfg()))
    {
      hide YamlPositions.IsTree, PlacesOf, NodeStep, Run;
      ghost var goal := Run(Before, tokens[next..], Cfg());
      while true
        invariant next <= |tokens| && Valid() && anchors == map[] && aliased == old(aliased)
        invariant goal == Run(Before, tokens[next..], Cfg())
        decreases |tokens| - next
      {
        var read := Next(Before);
        if read.Err? { return Err(read.issue); }
        var (event, marker) := read.value;
        if !(event.StreamStart? || event.DocumentStart?) {
          var node := Node(event, marker);
          if node.Err? { return Err(node.issue); }
          ghost var st := After(node.value.value, node.value.positions.Places());
          while true
            invariant next <= |tokens| && aliased == old(aliased) && node.value.positions.Valid()
            invariant st == After(node.value.value, node.value.positions.Places())
            invariant goal == Run(st, tokens[next..], Cfg())
            decreases |tokens| - next
          {
            var end := Next(st);
            if end.Err? { return Err(end.issue); }
            FinalRun(Step(st, Token(end.value.0, end.value.1), Cfg()), tokens[next..], Cfg());
            if end.value.0.StreamEnd? { return Ok(node.value); }
            if !end.value.0.DocumentEnd? { return Err(Issue(ExpectedOne, Where(end.value.1))); }
          }
        }
      }
    }

    lemma DocumentDone(frames: seq<OpenFrame>, positions: Positions, value: Value, start: Location)
      requires Working(frames, positions) && |frames| == 0
      ensures Complete(Views(frames, positions.paths), positions.Places(), Kept(), value, start) ==
              After(value, positions.Places())
    {
    }
  }

  lemma NoViews(paths: seq<Path>)
    ensures Views([], paths) == []
  {
  }

  lemma FinalRun(st: State, tokens: seq<Token>, cfg: Config)
    ensures Final(st) ==> Run(st, tokens, cfg) == st
  {
  }

  /** A value at most 128 levels deep, whose positions answer a pointer string
      exactly when it names one of the value's nodes. */
  ghost predicate Sound(value: Value, positions: Positions)
    reads positions
  {
    && positions.Valid()
    && Height(value) <= MAX_DEPTH
    && YamlDocument.Exact(value, positions.Places())
    && forall pointer: string ::
         LookUp(positions.Places(), pointer).Some? <==> YamlDocument.Named(value, pointer).Some?
  }

  /** The stream holds one document, whose tree says `n`, and the answer is `n`'s value and places. */
  ghost predicate Reads(document: Document, tokens: seq<Token>, t: YamlTree.Tree, rest: seq<Token>,
                        n: YamlTree.Located, file: YamlReading.File)
    reads document.positions
  {
    && document.positions.Valid() && YamlResults.Says(tokens, t, rest, n, file)
    && document.value == YamlTree.ValueOf(n) && document.positions.Places() == YamlTree.PlacesAt(n, ROOT)
  }

  /** Past the budget the scan's marker is the answer, otherwise the builder's with the anchors that the scan names. */
  ghost predicate AnswersScan(r: Result<Document>, tokens: seq<Token>, path: string, firstLine: nat)
    reads if r.Ok? then {r.value.positions} else {}
  {
    match ScanRun(START, tokens, MAX_ALIAS_NODES)
    case Over(at) => r == Err(Issue(OverBudget, At(at, Config(path, firstLine, {}))))
    case Aside(scan) => Answers(r, Run(Before, tokens, Config(path, firstLine, scan.aliased)))
    case More(_) => false
  }

  /** The answer to a document that says `n`: its value and places when its aliases add at most a million nodes to its
      own, else a refusal. */
  ghost predicate AnswersReading(r: Result<Document>, tokens: seq<Token>, t: YamlTree.Tree, rest: seq<Token>,
                                 n: YamlTree.Located, file: YamlReading.File)
    reads if r.Ok? then {r.value.positions} else {}
  {
    if Nodes(YamlTree.ValueOf(n)) <= YamlResults.OwnNodes(t) + 1_000_000
    then r.Ok? && Reads(r.value, tokens, t, rest, n, file)
    else r.Err? && r.issue.kind == OverBudget
  }

  /** The answer to a document with a fault: that fault, unless the scan refuses the document first. */
  ghost predicate AnswersFault(r: Result<Document>, t: YamlTree.Tree, file: YamlReading.File) {
    && (r.Err? && r.issue.kind != OverBudget ==> YamlFailures.Fails(t, r.issue, 0, map[], file))
    && forall issue :: YamlFailures.Fails(t, issue, 0, map[], file) ==>
         r == Err(issue) || (r.Err? && r.issue.kind == OverBudget)
  }

  /** Parse exactly one document: scan its aliases, then build it. */
  method Parse(tokens: seq<Token>, path: string, firstLine: nat) returns (r: Result<Document>)
    ensures AnswersScan(r, tokens, path, firstLine)
    ensures r.Ok? ==> Sound(r.value.value, r.value.positions)
    ensures r.Ok? ==> exists t, rest, n :: Reads(r.value, tokens, t, rest, n, YamlReading.File(path, firstLine))
    ensures YamlLockstep.RealAliases(tokens) && |tokens| + 1_000_000 < USIZE_MAX ==>
              forall t, rest, n :: YamlResults.Says(tokens, t, rest, n, YamlReading.File(path, firstLine)) ==>
                AnswersReading(r, tokens, t, rest, n, YamlReading.File(path, firstLine))
    ensures YamlLockstep.RealAliases(tokens) && |tokens| + 1_000_000 < USIZE_MAX ==>
              forall t, rest :: YamlDocument.IsDocument(tokens, t, rest) ==>
                AnswersFault(r, t, YamlReading.File(path, firstLine))
  {
    hide Run, ScanRun, Sound, Reads, YamlResults.Says, YamlLockstep.RealAliases, AnswersReading, AnswersFault,
      YamlDocument.IsDocument;
    var reader := new Reader(tokens, path, firstLine);
    var answer := ScanAliases(tokens, MAX_ALIAS_NODES);
    if answer.PastBudget? {
      r := Err(Issue(OverBudget, reader.Where(answer.at)));
    } else {
      reader.aliased := answer.anchors;
      assert tokens[0..] == tokens;
      r := reader.Read();
      if r.Ok? {
        Accepted(r.value, tokens, reader.Cfg());
        AcceptedReads(r.value, tokens, reader.Cfg());
      }
    }
    if YamlLockstep.RealAliases(tokens) && |tokens| + 1_000_000 < USIZE_MAX {
      forall t, rest, n | YamlResults.Says(tokens, t, rest, n, YamlReading.File(path, firstLine))
        ensures AnswersReading(r, tokens, t, rest, n, YamlReading.File(path, firstLine))
      {
        ReadingAnswered(r, tokens, t, rest, n, path, firstLine);
      }
      forall t, rest | YamlDocument.IsDocument(tokens, t, rest)
        ensures AnswersFault(r, t, YamlReading.File(path, firstLine))
      {
        FaultAnswered(r, tokens, t, rest, path, firstLine);
      }
    }
  }

  lemma FaultAnswered(r: Result<Document>, tokens: seq<Token>, t: YamlTree.Tree, rest: seq<Token>, path: string,
                      firstLine: nat)
    requires AnswersScan(r, tokens, path, firstLine) && YamlDocument.IsDocument(tokens, t, rest)
    requires YamlLockstep.RealAliases(tokens) && |tokens| + 1_000_000 < USIZE_MAX
    ensures AnswersFault(r, t, YamlReading.File(path, firstLine))
  {
    hide Run, ScanRun, YamlFailures.Fails, YamlDocument.IsDocument, YamlLockstep.RealAliases;
    var scan := ScanRun(START, tokens, MAX_ALIAS_NODES);
    if scan.Aside? {
      var cfg := Config(path, firstLine, scan.scan.aliased);
      forall issue
        ensures Run(Before, tokens, cfg) == Failed(issue) <==>
                YamlFailures.Fails(t, issue, 0, map[], YamlReading.File(path, firstLine))
      {
        YamlFailures.ScannedFailure(tokens, t, rest, issue, MAX_ALIAS_NODES, cfg);
      }
    }
  }

  lemma ReadingAnswered(r: Result<Document>, tokens: seq<Token>, t: YamlTree.Tree, rest: seq<Token>,
                        n: YamlTree.Located, path: string, firstLine: nat)
    requires AnswersScan(r, tokens, path, firstLine)
    requires YamlLockstep.RealAliases(tokens) && |tokens| + 1_000_000 < USIZE_MAX
    requires YamlResults.Says(tokens, t, rest, n, YamlReading.File(path, firstLine))
    ensures AnswersReading(r, tokens, t, rest, n, YamlReading.File(path, firstLine))
  {
    hide Run, ScanRun, YamlResults.Says, YamlResults.OwnNodes, Nodes, YamlLockstep.RealAliases;
    var scan := ScanRun(START, tokens, MAX_ALIAS_NODES);
    var cfg := Config(path, firstLine, if scan.Aside? then scan.scan.aliased else {});
    YamlResults.ScannedReading(tokens, t, rest, n, MAX_ALIAS_NODES, cfg);
  }

  lemma AcceptedReads(document: Document, tokens: seq<Token>, cfg: Config)
    requires Answers(Ok(document), Run(Before, tokens, cfg))
    ensures exists t, rest, n :: Reads(document, tokens, t, rest, n, YamlReading.FileOf(cfg))
  {
    hide Run, YamlDocument.IsDocument, YamlReading.Reading;
    var t, rest, n := YamlReading.BuiltReads(tokens, cfg);
    assert Reads(document, tokens, t, rest, n, YamlReading.FileOf(cfg));
  }

  lemma Accepted(document: Document, tokens: seq<Token>, cfg: Config)
    requires Answers(Ok(document), Run(Before, tokens, cfg))
    ensures Sound(document.value, document.positions)
  {
    hide Run, YamlDocument.IsDocument, YamlDocument.Locates;
    var t, rest := YamlAccepts.AcceptedPositions(tokens, cfg);
    forall pointer: string
      ensures LookUp(document.positions.Places(), pointer).Some? <==> YamlDocument.Named(document.value, pointer).Some?
    {
      YamlAccepts.PointersExact(document.value, document.positions.Places(), pointer);
    }
  }

  lemma FailedRun(issue: Issue, tokens: seq<Token>, cfg: Config)
    ensures Run(Failed(issue), tokens, cfg) == Failed(issue)
  {
  }

  lemma OpenStepIs(st: State, e: Event, marker: Marker, cfg: Config)
    requires st.Open?
    ensures Step(st, Token(e, marker), cfg) == NodeStep(st, e, marker, cfg)
  {
  }

  lemma NextRun(st: State, tokens: seq<Token>, next: nat, cfg: Config)
    requires !Final(st) && next <= |tokens|
    ensures var token := if next < |tokens| then tokens[next] else END;
            var after := if next < |tokens| then next + 1 else next;
            Run(st, tokens[next..], cfg) ==
              if next < |tokens| then Run(Step(st, token, cfg), tokens[after..], cfg) else Step(st, END, cfg)
  {
  }
}

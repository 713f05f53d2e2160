// The YAML builder as a step over parser events (yaml.rs, yaml_frame.rs).
// Places name slots by their pointer paths; the classes hold slot numbers.

module YamlMachine {
  import opened Common
  import opened Pointers
  import opened YamlValues

  const MAX_DEPTH: nat := 128
  const ROOT: Path := []

  // ----- events -----

  datatype Marker = Marker(line: nat, col: nat)

  datatype Tag = Tag(handle: string, suffix: string)

  /** A parser event. Anchor 0 means none. `decoded` is what scalar decoding
      makes of the plain text, or None when it is not finite JSON data. */
  datatype Event =
    | Nothing
    | StreamStart
    | StreamEnd
    | DocumentStart
    | DocumentEnd
    | Alias(id: nat)
    | Scalar(text: string, decoded: Option<Atom>, plain: bool, anchor: nat, tag: Option<Tag>)
    | SequenceStart(anchor: nat, tag: Option<Tag>)
    | SequenceEnd
    | MappingStart(anchor: nat, tag: Option<Tag>)
    | MappingEnd

  /** What the parser returns next: an event, or its own error. */
  datatype Token = Token(event: Event, marker: Marker) | Broken(marker: Marker, info: string)

  // ----- results -----

  datatype Location = Location(path: string, line: int, column: int)

  datatype Kind =
    | Parser(info: string)
    | TooDeep
    | CustomTag
    | NotFinite
    | UnknownAlias
    | ExpectedValue
    | NotString
    | Duplicate(key: string)
    | ExpectedOne
    | OverBudget

  datatype Issue = Issue(kind: Kind, at: Location)

  datatype Result<+T> = Ok(value: T) | Err(issue: Issue) {
    predicate IsFailure() { Err? }

    function PropagateFailure<U>(): Result<U>
      requires Err?
    {
      Err(issue)
    }

    function Extract(): T
      requires Ok?
    {
      value
    }
  }

  /** Where a file comes from, and the anchors that the builder keeps. */
  datatype Config = Config(path: string, firstLine: nat, keep: set<nat>)

  function At(marker: Marker, cfg: Config): Location {
    Location(cfg.path, marker.line + cfg.firstLine - 1, marker.col + 1)
  }

  function Within(depth: nat, marker: Marker, cfg: Config): Result<()> {
    if depth > MAX_DEPTH then Err(Issue(TooDeep, At(marker, cfg))) else Ok(())
  }

  function CheckTag(tag: Option<Tag>, marker: Marker, cfg: Config): Result<()> {
    if tag.Some? && tag.value.handle != "tag:yaml.org,2002:" && tag.value.handle != "!!"
    then Err(Issue(CustomTag, At(marker, cfg)))
    else Ok(())
  }

  /** A quoted scalar, or one tagged `str`, is its text. */
  function Decode(e: Event, marker: Marker, cfg: Config): Result<Atom>
    requires e.Scalar?
  {
    if !e.plain || (e.tag.Some? && e.tag.value.suffix == "str") then Ok(Text(e.text))
    else if e.decoded.None? then Err(Issue(NotFinite, At(marker, cfg)))
    else Ok(e.decoded.value)
  }

  // ----- places -----

  /** The recorded slots by path; a slot may still wait for its location. */
  type Places = map<Path, Option<Location>>

  const EMPTY: Places := map[ROOT := None]

  /** What the places answer for a pointer string. */
  function LookUp(places: Places, pointer: string): Option<Location> {
    var path := Segments(pointer);
    if path.Some? && path.value in places then places[path.value] else None
  }

  function AddChild(places: Places, path: Path): Places {
    if path in places then places else places[path := None]
  }

  function SetAt(places: Places, path: Path, at: Location): Places {
    places[path := Some(at)]
  }

  /** The paths below `to` that a graft of `source` from `from` reaches. */
  function Targets(to: Path, source: Places, from: Path): set<Path> {
    set r | r in source && from < r :: to + r[|from|..]
  }

  /** The places with those of `source` strictly under `from` added under `to`. */
  function Graft(places: Places, to: Path, source: Places, from: Path): Places {
    map q | q in places.Keys + Targets(to, source, from) ::
      if to < q && from + q[|to|..] in source && (source[from + q[|to|..]].Some? || q !in places)
      then source[from + q[|to|..]]
      else if q in places then places[q] else None
  }

  /** The locations at and below `path`, relative to it. */
  function Subtree(places: Places, path: Path): Places
    requires path in places
  {
    Graft(map[ROOT := places[path]], ROOT, places, path)
  }

  // ----- frames -----

  datatype Pending = Pending(name: string, at: Location, slot: Option<Path>)

  datatype Container =
    | Elements(values: seq<Value>)
    | Mapping(members: seq<Member>, key: Option<Pending>)

  /** An open container. Its slot is None inside a mapping key. */
  datatype Frame = Frame(container: Container, slot: Option<Path>, anchor: nat, start: Location)

  datatype Anchor = Anchor(value: Value, places: Places, height: nat)

  type Anchors = map<nat, Anchor>

  /** The slot of a frame's next child; None for a mapping key. */
  function ChildSlot(frame: Frame): Option<Path> {
    match frame.container
    case Elements(values) =>
      if frame.slot.None? then None else Some(frame.slot.value + [Decimal(|values|)])
    case Mapping(_, key) => if key.Some? then key.value.slot else None
  }

  /** Only a sequence child creates its slot; a member's slot came with its key. */
  function ChildPlaces(frame: Frame, places: Places): Places {
    if frame.container.Elements? && frame.slot.Some?
    then AddChild(places, frame.slot.value + [Decimal(|frame.container.values|)])
    else places
  }

  predicate Closes(frame: Frame, event: Event) {
    match frame.container
    case Elements(_) => event.SequenceEnd?
    case Mapping(_, key) => event.MappingEnd? && key.None?
  }

  function Content(container: Container): Value {
    match container
    case Elements(values) => Array(values)
    case Mapping(members, _) => Object(members)
  }

  predicate HasKey(members: seq<Member>, key: string) {
    exists i :: 0 <= i < |members| && members[i].key == key
  }

  /** Add a completed child. A key must be a new string; a value takes its key's location. */
  function Attach(frame: Frame, value: Value, start: Location, places: Places): Result<(Frame, Places)> {
    match frame.container
    case Elements(values) => Ok((frame.(container := Elements(values + [value])), places))
    case Mapping(members, Some(key)) =>
      Ok((frame.(container := Mapping(members + [Member(key.name, value)], None)),
          if key.slot.Some? then SetAt(places, key.slot.value, key.at) else places))
    case Mapping(members, None) =>
      if !(value.Leaf? && value.atom.Text?) then Err(Issue(NotString, start))
      else if HasKey(members, value.atom.s) then Err(Issue(Duplicate(value.atom.s), start))
      else
        var slot := if frame.slot.None? then None else Some(frame.slot.value + [Escape(value.atom.s)]);
        Ok((frame.(container := Mapping(members, Some(Pending(value.atom.s, start, slot)))),
            if slot.Some? then AddChild(places, slot.value) else places))
  }

  // ----- steps -----

  datatype State =
    | Before
    | Open(frames: seq<Frame>, places: Places, anchors: Anchors)
    | After(value: Value, places: Places)
    | Built(value: Value, places: Places)
    | Failed(issue: Issue)

  function TargetSlot(frames: seq<Frame>): Option<Path> {
    if |frames| == 0 then Some(ROOT) else ChildSlot(frames[|frames| - 1])
  }

  function TargetPlaces(frames: seq<Frame>, places: Places): Places {
    if |frames| == 0 then places else ChildPlaces(frames[|frames| - 1], places)
  }

  function Mark(places: Places, slot: Option<Path>, at: Location): Places {
    if slot.Some? then SetAt(places, slot.value, at) else places
  }

  /** An anchor's value and places; a node inside a key has just one place. */
  function Keep(anchors: Anchors, anchor: nat, value: Value, places: Places, slot: Option<Path>, start: Location,
                cfg: Config): Anchors
  {
    if anchor !in cfg.keep then anchors
    else
      var relative :=
        if slot.Some? && slot.value in places then Subtree(places, slot.value) else map[ROOT := Some(start)];
      anchors[anchor := Anchor(value, relative, Height(value))]
  }

  /** A completed node joins its parent, or is the document. */
  function Complete(frames: seq<Frame>, places: Places, anchors: Anchors, value: Value, start: Location): State {
    if |frames| == 0 then After(value, places)
    else
      match Attach(frames[|frames| - 1], value, start, places)
      case Err(issue) => Failed(issue)
      case Ok((frame, places')) => Open(frames[..|frames| - 1] + [frame], places', anchors)
  }

  function ScalarStep(st: State, e: Event, marker: Marker, cfg: Config): Result<State>
    requires st.Open? && e.Scalar?
  {
    var _ :- Within(|st.frames|, marker, cfg);
    var _ :- CheckTag(e.tag, marker, cfg);
    var atom :- Decode(e, marker, cfg);
    var slot := TargetSlot(st.frames);
    var places := Mark(TargetPlaces(st.frames, st.places), slot, At(marker, cfg));
    var anchors := Keep(st.anchors, e.anchor, Leaf(atom), places, slot, At(marker, cfg), cfg);
    Ok(Complete(st.frames, places, anchors, Leaf(atom), At(marker, cfg)))
  }

  function AliasStep(st: State, id: nat, marker: Marker, cfg: Config): Result<State>
    requires st.Open?
  {
    var _ :- Within(|st.frames|, marker, cfg);
    if id !in st.anchors then Err(Issue(UnknownAlias, At(marker, cfg)))
    else
      var node := st.anchors[id];
      var _ :- Within(|st.frames| + node.height, marker, cfg);
      var slot := TargetSlot(st.frames);
      var places := TargetPlaces(st.frames, st.places);
      var grafted := if slot.Some? then Graft(places, slot.value, node.places, ROOT) else places;
      Ok(Complete(st.frames, Mark(grafted, slot, At(marker, cfg)), st.anchors, node.value, At(marker, cfg)))
  }

  function OpenStep(st: State, e: Event, marker: Marker, cfg: Config): Result<State>
    requires st.Open? && (e.SequenceStart? || e.MappingStart?)
  {
    var _ :- Within(|st.frames|, marker, cfg);
    var _ :- CheckTag(e.tag, marker, cfg);
    var slot := TargetSlot(st.frames);
    var container := if e.SequenceStart? then Elements([]) else Mapping([], None);
    Ok(Open(st.frames + [Frame(container, slot, e.anchor, At(marker, cfg))],
            Mark(TargetPlaces(st.frames, st.places), slot, At(marker, cfg)), st.anchors))
  }

  function CloseStep(st: State, e: Event, marker: Marker, cfg: Config): Result<State>
    requires st.Open?
  {
    if |st.frames| == 0 || !Closes(st.frames[|st.frames| - 1], e) then Err(Issue(ExpectedValue, At(marker, cfg)))
    else
      var frame := st.frames[|st.frames| - 1];
      var value := Content(frame.container);
      var anchors := Keep(st.anchors, frame.anchor, value, st.places, frame.slot, frame.start, cfg);
      Ok(Complete(st.frames[..|st.frames| - 1], st.places, anchors, value, frame.start))
  }

  function NodeResult(st: State, e: Event, marker: Marker, cfg: Config): Result<State>
    requires st.Open?
  {
    match e
    case Scalar(_, _, _, _, _) => ScalarStep(st, e, marker, cfg)
    case Alias(id) => AliasStep(st, id, marker, cfg)
    case SequenceStart(_, _) => OpenStep(st, e, marker, cfg)
    case MappingStart(_, _) => OpenStep(st, e, marker, cfg)
    case _ => CloseStep(st, e, marker, cfg)
  }

  function NodeStep(st: State, e: Event, marker: Marker, cfg: Config): State
    requires st.Open?
  {
    match NodeResult(st, e, marker, cfg)
    case Ok(next) => next
    case Err(issue) => Failed(issue)
  }

  const INITIAL: State := Open([], EMPTY, map[])

  predicate Final(st: State) {
    st.Built? || st.Failed?
  }

  function Step(st: State, token: Token, cfg: Config): State
    requires !Final(st)
  {
    match token
    case Broken(marker, info) => Failed(Issue(Parser(info), At(marker, cfg)))
    case Token(e, marker) =>
      match st
      case Before =>
        if e.StreamStart? || e.DocumentStart? then Before else NodeStep(INITIAL, e, marker, cfg)
      case Open(_, _, _) => NodeStep(st, e, marker, cfg)
      case After(value, places) =>
        if e.StreamEnd? then Built(value, places)
        else if e.DocumentEnd? then st
        else Failed(Issue(ExpectedOne, At(marker, cfg)))
  }

  /** A parser that has no more events is read as an error. */
  const END: Token := Broken(Marker(1, 0), "no more events")

  /** Read to the end of the document or the first failure. */
  function Run(st: State, tokens: seq<Token>, cfg: Config): (last: State)
    ensures Final(last)
    decreases |tokens|
  {
    if Final(st) then st
    else if |tokens| == 0 then Step(st, END, cfg)
    else Run(Step(st, tokens[0], cfg), tokens[1..], cfg)
  }
}

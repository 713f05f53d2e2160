// The frame stack computes the recursive evaluator on every document tree.

module YamlMeaning {
  import opened Common
  import opened Pointers
  import opened YamlValues
  import opened YamlMachine
  import opened YamlTree

  ghost predicate Ready(frames: seq<Frame>, places: Places, env: Env) {
    && Fresh(places, TargetSlot(frames))
    && (TargetSlot(frames).None? || AllFull(env))
  }

  /** Where the builder stands after a tree, by the evaluator. */
  ghost function Expected(r: Result<Evaluated>, frames: seq<Frame>, places: Places, rest: seq<Token>,
                          cfg: Config): State
  {
    match r
    case Err(issue) => Failed(issue)
    case Ok(e) => Run(Delivered(frames, places, e.node, e.env), rest, cfg)
  }

  lemma RunFirst(st: State, token: Token, rest: seq<Token>, cfg: Config)
    requires !Final(st)
    ensures Run(st, [token] + rest, cfg) == Run(Step(st, token, cfg), rest, cfg)
  {
  }

  // ----- small facts about the two views -----

  lemma BindRemembered(env: Env, anchor: nat, kept: Kept)
    ensures Remembered(env[anchor := kept]) == Remembered(env)[anchor := Remember(kept)]
  {
  }

  /** Keeping an anchored node agrees with the evaluator's binding. */
  lemma Keeps(base: Places, slot: Option<Path>, n: Located, env: Env, anchor: nat, full: bool, cfg: Config)
    requires Fresh(base, slot)
    requires full == slot.Some? || n.LocLeaf?
    ensures Keep(Remembered(env), anchor, ValueOf(n), Recorded(base, slot, n), slot, n.start, cfg)
         == Remembered(Bind(env, anchor, n, full, cfg))
  {
    if anchor in cfg.keep {
      BindRemembered(env, anchor, Kept(n, full));
      if slot.Some? { KeptCopy(base, slot.value, n); }
    }
  }

  /** A frame's next slot may be created before its child is recorded. */
  lemma TargetAbsorbed(frames: seq<Frame>, places: Places, n: Located)
    ensures Recorded(TargetPlaces(frames, places), TargetSlot(frames), n) == Recorded(places, TargetSlot(frames), n)
    ensures Fresh(places, TargetSlot(frames)) ==> Fresh(TargetPlaces(frames, places), TargetSlot(frames))
  {
  }

  lemma Marked(frames: seq<Frame>, places: Places, n: Located)
    requires !n.LocLeaf? ==> (n.LocArray? && n.items == []) || (n.LocObject? && n.members == [])
    ensures Mark(TargetPlaces(frames, places), TargetSlot(frames), n.start)
         == Recorded(TargetPlaces(frames, places), TargetSlot(frames), n)
  {
    var slot := TargetSlot(frames);
    if slot.Some? {
      assert PlacesAt(n, slot.value) == map[slot.value := Some(n.start)];
    }
  }

  lemma {:induction false} SameKeys(members: seq<LocMember>, key: string)
    ensures HasKey(MembersOf(members), key) == HasMember(members, key)
    ensures forall i :: 0 <= i < |members| ==> MembersOf(members)[i].key == members[i].key
  {
    if |members| > 0 {
      var init := members[..|members| - 1];
      SameKeys(init, key);
      forall i | 0 <= i < |members|
        ensures MembersOf(members)[i].key == members[i].key
      {
        if i < |init| { assert MembersOf(members)[i] == MembersOf(init)[i]; }
      }
    }
  }

  lemma RestartedValue(n: Located, start: Location)
    ensures ValueOf(n.(start := start)) == ValueOf(n)
  {
  }

  // ----- outside keys, every kept anchor is whole -----

  lemma {:induction false} StaysFull(t: Tree, depth: nat, inKey: bool, env: Env, cfg: Config)
    requires AllFull(env)
    ensures var r := Denote(t, depth, inKey, env, cfg);
            r.Ok? && (!inKey || r.value.node.LocLeaf?) ==> AllFull(r.value.env)
    decreases t, 1
  {
    if !inKey {
      match t
      case Plain(_, _, _, _, _, _) =>
      case Ref(_, _) =>
      case List(_, _, _, kids, _) => ItemsStayFull(kids, [], depth + 1, env, cfg);
      case Dict(_, _, _, kids, end) => PairsStayFull(kids, end, [], depth + 1, env, cfg);
    }
  }

  lemma {:induction false} ItemsStayFull(kids: seq<Tree>, done: seq<Located>, depth: nat, env: Env, cfg: Config)
    requires AllFull(env)
    ensures var r := DenoteItems(kids, done, depth, false, env, cfg);
            r.Ok? ==> AllFull(r.value.1)
    decreases kids, 0
  {
    if |kids| > 0 {
      StaysFull(kids[0], depth, false, env, cfg);
      var first := Denote(kids[0], depth, false, env, cfg);
      if first.Ok? {
        ItemsStayFull(kids[1..], done + [first.value.node], depth, first.value.env, cfg);
      }
    }
  }

  lemma {:induction false} PairsStayFull(kids: seq<Tree>, end: Marker, done: seq<LocMember>, depth: nat, env: Env,
                                         cfg: Config)
    requires AllFull(env)
    ensures var r := DenotePairs(kids, end, done, depth, false, env, cfg);
            r.Ok? ==> AllFull(r.value.1)
    decreases kids, 0
  {
    if |kids| > 0 {
      StaysFull(kids[0], depth, true, env, cfg);
      var key := Denote(kids[0], depth, true, env, cfg);
      if key.Ok? && KeyName(key.value.node, done).Ok? && |kids| > 1 {
        StaysFull(kids[1], depth, false, key.value.env, cfg);
        var value := Denote(kids[1], depth, false, key.value.env, cfg);
        if value.Ok? {
          var member := LocMember(KeyName(key.value.node, done).value,
                                  value.value.node.(start := key.value.node.start));
          PairsStayFull(kids[1..][1..], end, done + [member], depth, value.value.env, cfg);
        }
      }
    }
  }

  // ----- the theorem -----

  /** The builder inside a sequence after the items `done`. */
  ghost function InList(done: seq<Located>, frames: seq<Frame>, base: Places, anchor: nat, start: Location,
                        env: Env): State
  {
    Open(frames + [Frame(Elements(ValuesOf(done)), TargetSlot(frames), anchor, start)],
         Recorded(base, TargetSlot(frames), LocArray(start, done)), Remembered(env))
  }

  /** The builder inside a mapping after the members `done`. */
  ghost function InDict(done: seq<LocMember>, frames: seq<Frame>, base: Places, anchor: nat, start: Location,
                        env: Env): State
  {
    Open(frames + [Frame(Mapping(MembersOf(done), None), TargetSlot(frames), anchor, start)],
         Recorded(base, TargetSlot(frames), LocObject(start, done)), Remembered(env))
  }

  /** The builder while a key awaits its value. */
  ghost function AtValue(name: string, at: Location, done: seq<LocMember>, frames: seq<Frame>, base: Places,
                         anchor: nat, start: Location, env: Env): State
  {
    var slot := TargetSlot(frames);
    var path := if slot.None? then None else Some(slot.value + [Escape(name)]);
    var places := Recorded(base, slot, LocObject(start, done));
    Open(frames + [Frame(Mapping(MembersOf(done), Some(Pending(name, at, path))), slot, anchor, start)],
         if path.None? then places else AddChild(places, path.value), Remembered(env))
  }

  ghost function ExpectedItems(r: Result<(seq<Located>, Env)>, frames: seq<Frame>, base: Places, anchor: nat,
                               start: Location, rest: seq<Token>, cfg: Config): State
  {
    match r
    case Err(issue) => Failed(issue)
    case Ok(all) => Run(InList(all.0, frames, base, anchor, start, all.1), rest, cfg)
  }

  ghost function ExpectedPairs(r: Result<(seq<LocMember>, Env)>, frames: seq<Frame>, base: Places, anchor: nat,
                               start: Location, rest: seq<Token>, cfg: Config): State
  {
    match r
    case Err(issue) => Failed(issue)
    case Ok(all) => Run(InDict(all.0, frames, base, anchor, start, all.1), rest, cfg)
  }

  ghost function ExpectedKey(r: Result<Evaluated>, done: seq<LocMember>, frames: seq<Frame>, base: Places, anchor: nat,
                             start: Location, rest: seq<Token>, cfg: Config): State
  {
    match r
    case Err(issue) => Failed(issue)
    case Ok(key) =>
      match KeyName(key.node, done)
      case Err(issue) => Failed(issue)
      case Ok(name) => Run(AtValue(name, key.node.start, done, frames, base, anchor, start, key.env), rest, cfg)
  }

  ghost function ExpectedMember(r: Result<Evaluated>, name: string, at: Location, done: seq<LocMember>,
                                frames: seq<Frame>, base: Places, anchor: nat, start: Location, rest: seq<Token>,
                                  cfg: Config): State
  {
    match r
    case Err(issue) => Failed(issue)
    case Ok(value) =>
      var all := done + [LocMember(name, value.node.(start := at))];
      Run(InDict(all, frames, base, anchor, start, value.env), rest, cfg)
  }

  lemma RunPlain(t: Tree, frames: seq<Frame>, places: Places, env: Env, rest: seq<Token>, cfg: Config)
    requires t.Plain? && Ready(frames, places, env)
    ensures Run(Open(frames, places, Remembered(env)), Flatten(t) + rest, cfg)
         == Expected(Denote(t, |frames|, TargetSlot(frames).None?, env, cfg), frames, places, rest, cfg)
  {
    var st := Open(frames, places, Remembered(env));
    RunFirst(st, Token(Head(t), t.at), rest, cfg);
    var r := Denote(t, |frames|, TargetSlot(frames).None?, env, cfg);
    if r.Ok? {
      var n := r.value.node;
      TargetAbsorbed(frames, places, n);
      Marked(frames, places, n);
      Keeps(TargetPlaces(frames, places), TargetSlot(frames), n, env, t.anchor, true, cfg);
    }
  }

  lemma RunRef(t: Tree, frames: seq<Frame>, places: Places, env: Env, rest: seq<Token>, cfg: Config)
    requires t.Ref? && Ready(frames, places, env)
    ensures Run(Open(frames, places, Remembered(env)), Flatten(t) + rest, cfg)
         == Expected(Denote(t, |frames|, TargetSlot(frames).None?, env, cfg), frames, places, rest, cfg)
  {
    var st := Open(frames, places, Remembered(env));
    RunFirst(st, Token(Head(t), t.at), rest, cfg);
    var r := Denote(t, |frames|, TargetSlot(frames).None?, env, cfg);
    if r.Ok? {
      var n := env[t.id].node;
      var slot := TargetSlot(frames);
      TargetAbsorbed(frames, places, n.(start := At(t.at, cfg)));
      RestartedValue(n, At(t.at, cfg));
      if slot.Some? {
        Grafted(TargetPlaces(frames, places), slot.value, n, At(t.at, cfg));
      }
    }
  }

  /** On the events of any tree and any rest, the frame stack consumes exactly
      the tree and delivers the evaluator's node, or fails as it does. */
  lemma {:induction false} RunTree(t: Tree, frames: seq<Frame>, places: Places, env: Env, rest: seq<Token>, cfg: Config)
    requires Ready(frames, places, env)
    ensures Run(Open(frames, places, Remembered(env)), Flatten(t) + rest, cfg)
         == Expected(Denote(t, |frames|, TargetSlot(frames).None?, env, cfg), frames, places, rest, cfg)
    decreases t, 1
  {
    match t
    case Plain(_, _, _, _, _, _) => RunPlain(t, frames, places, env, rest, cfg);
    case Ref(_, _) => RunRef(t, frames, places, env, rest, cfg);
    case List(_, _, _, _, _) => RunList(t, frames, places, env, rest, cfg);
    case Dict(_, _, _, _, _) => RunDict(t, frames, places, env, rest, cfg);
  }

  lemma FlattenFirst(kids: seq<Tree>, rest: seq<Token>)
    requires |kids| > 0
    ensures FlattenAll(kids) + rest == Flatten(kids[0]) + (FlattenAll(kids[1..]) + rest)
  {
  }

  /** A container's first event opens its frame. */
  lemma Opens(t: Tree, frames: seq<Frame>, places: Places, env: Env, cfg: Config)
    requires t.List? || t.Dict?
    requires Within(|frames|, t.at, cfg).Ok? && CheckTag(t.tag, t.at, cfg).Ok?
    ensures var start := At(t.at, cfg);
            var base := TargetPlaces(frames, places);
            Step(Open(frames, places, Remembered(env)), Token(Head(t), t.at), cfg) ==
            if t.List? then InList([], frames, base, t.anchor, start, env)
            else InDict([], frames, base, t.anchor, start, env)
  {
    Marked(frames, places, if t.List? then LocArray(At(t.at, cfg), []) else LocObject(At(t.at, cfg), []));
    TargetAbsorbed(frames, places, LocArray(At(t.at, cfg), []));
  }

  lemma ClosesList(done: seq<Located>, frames: seq<Frame>, base: Places, anchor: nat, start: Location, env: Env,
                   end: Marker, cfg: Config)
    requires Fresh(base, TargetSlot(frames))
    ensures var n := LocArray(start, done);
            Step(InList(done, frames, base, anchor, start, env), Token(SequenceEnd, end), cfg) ==
            Delivered(frames, base, n, Bind(env, anchor, n, TargetSlot(frames).Some?, cfg))
  {
    Keeps(base, TargetSlot(frames), LocArray(start, done), env, anchor, TargetSlot(frames).Some?, cfg);
    assert InList(done, frames, base, anchor, start, env).frames[..|frames|] == frames;
  }

  lemma ClosesDict(done: seq<LocMember>, frames: seq<Frame>, base: Places, anchor: nat, start: Location, env: Env,
                   end: Marker, cfg: Config)
    requires Fresh(base, TargetSlot(frames))
    ensures var n := LocObject(start, done);
            Step(InDict(done, frames, base, anchor, start, env), Token(MappingEnd, end), cfg) ==
            Delivered(frames, base, n, Bind(env, anchor, n, TargetSlot(frames).Some?, cfg))
  {
    Keeps(base, TargetSlot(frames), LocObject(start, done), env, anchor, TargetSlot(frames).Some?, cfg);
    assert InDict(done, frames, base, anchor, start, env).frames[..|frames|] == frames;
  }

  /** A completed item joins its sequence. */
  lemma JoinsList(n: Located, done: seq<Located>, frames: seq<Frame>, base: Places, anchor: nat, start: Location,
                  env: Env, env': Env)
    ensures var inside := InList(done, frames, base, anchor, start, env);
            Delivered(inside.frames, inside.places, n, env') == InList(done + [n], frames, base, anchor, start, env')
  {
    var slot := TargetSlot(frames);
    if slot.Some? { PushItem(base, slot.value, start, done, n); }
    assert (done + [n])[..|done|] == done;
    assert InList(done, frames, base, anchor, start, env).frames[..|frames|] == frames;
  }

  lemma UpdateSum(a: Places, b: Places, path: Path, at: Option<Location>)
    ensures (a + b)[path := at] == a + b[path := at]
  {
  }

  lemma JoinPlaces(base: Places, slot: Path, start: Location, done: seq<LocMember>, name: string, n: Located,
                   at: Location)
    ensures var path := slot + [Escape(name)];
            var before := base + PlacesAt(LocObject(start, done), slot);
            SetAt(AddChild(before, path) + PlacesAt(n, path), path, at) ==
            base + PlacesAt(LocObject(start, done + [LocMember(name, n.(start := at))]), slot)
  {
    var path := slot + [Escape(name)];
    var before := base + PlacesAt(LocObject(start, done), slot);
    var member := LocMember(name, n.(start := at));
    Absorbed(before, path, n);
    Restarted(n, path, at);
    UpdateSum(before, PlacesAt(n, path), path, Some(at));
    PushMember(base, slot, start, done, member);
  }

  /** A completed value joins its mapping under its key's location. */
  lemma JoinsDict(n: Located, name: string, at: Location, done: seq<LocMember>, frames: seq<Frame>, base: Places,
                  anchor: nat, start: Location, env: Env, env': Env)
    ensures var waiting := AtValue(name, at, done, frames, base, anchor, start, env);
            Delivered(waiting.frames, waiting.places, n, env') ==
            InDict(done + [LocMember(name, n.(start := at))], frames, base, anchor, start, env')
  {
    var waiting := AtValue(name, at, done, frames, base, anchor, start, env);
    var slot := TargetSlot(frames);
    var member := LocMember(name, n.(start := at));
    RestartedValue(n, at);
    assert waiting.frames[..|frames|] == frames;
    assert (done + [member])[..|done|] == done;
    if slot.Some? { JoinPlaces(base, slot.value, start, done, name, n, at); }
  }

  lemma {:induction false} RunList(t: Tree, frames: seq<Frame>, places: Places, env: Env, rest: seq<Token>, cfg: Config)
    requires t.List? && Ready(frames, places, env)
    ensures Run(Open(frames, places, Remembered(env)), Flatten(t) + rest, cfg)
         == Expected(Denote(t, |frames|, TargetSlot(frames).None?, env, cfg), frames, places, rest, cfg)
    decreases t, 0
  {
    var st := Open(frames, places, Remembered(env));
    var slot := TargetSlot(frames);
    var start := At(t.at, cfg);
    var close := [Token(SequenceEnd, t.end)] + rest;
    assert Flatten(t) + rest == [Token(Head(t), t.at)] + (FlattenAll(t.kids) + close);
    RunFirst(st, Token(Head(t), t.at), FlattenAll(t.kids) + close, cfg);
    if Within(|frames|, t.at, cfg).Ok? && CheckTag(t.tag, t.at, cfg).Ok? {
      var base := TargetPlaces(frames, places);
      Opens(t, frames, places, env, cfg);
      TargetAbsorbed(frames, places, LocArray(start, []));
      RunItems(t.kids, [], frames, base, t.anchor, start, env, close, cfg);
      var r := DenoteItems(t.kids, [], |frames| + 1, slot.None?, env, cfg);
      if r.Ok? {
        RunFirst(InList(r.value.0, frames, base, t.anchor, start, r.value.1), Token(SequenceEnd, t.end), rest, cfg);
        ClosesList(r.value.0, frames, base, t.anchor, start, r.value.1, t.end, cfg);
        TargetAbsorbed(frames, places, LocArray(start, r.value.0));
      }
    }
  }

  lemma {:induction false} RunItems(kids: seq<Tree>, done: seq<Located>, frames: seq<Frame>, base: Places, anchor: nat,
                                    start: Location, env: Env, rest: seq<Token>, cfg: Config)
    requires Ready(frames, base, env)
    ensures Run(InList(done, frames, base, anchor, start, env), FlattenAll(kids) + rest, cfg)
         == ExpectedItems(DenoteItems(kids, done, |frames| + 1, TargetSlot(frames).None?, env, cfg),
                          frames, base, anchor, start, rest, cfg)
    decreases kids, 0
  {
    hide Run, Denote, Delivered, PlacesAt;
    var slot := TargetSlot(frames);
    if |kids| == 0 {
      assert FlattenAll(kids) + rest == rest;
    } else {
      var inside := InList(done, frames, base, anchor, start, env);
      var rest' := FlattenAll(kids[1..]) + rest;
      FlattenFirst(kids, rest);
      if slot.Some? {
        FreshArray(base, slot.value, start, done);
        StaysFull(kids[0], |frames| + 1, false, env, cfg);
      }
      RunTree(kids[0], inside.frames, inside.places, env, rest', cfg);
      var first := Denote(kids[0], |frames| + 1, slot.None?, env, cfg);
      if first.Ok? {
        JoinsList(first.value.node, done, frames, base, anchor, start, env, first.value.env);
        RunItems(kids[1..], done + [first.value.node], frames, base, anchor, start, first.value.env, rest, cfg);
      }
    }
  }

  lemma {:induction false} RunDict(t: Tree, frames: seq<Frame>, places: Places, env: Env, rest: seq<Token>, cfg: Config)
    requires t.Dict? && Ready(frames, places, env)
    ensures Run(Open(frames, places, Remembered(env)), Flatten(t) + rest, cfg)
         == Expected(Denote(t, |frames|, TargetSlot(frames).None?, env, cfg), frames, places, rest, cfg)
    decreases t, 0
  {
    var st := Open(frames, places, Remembered(env));
    var slot := TargetSlot(frames);
    var start := At(t.at, cfg);
    var close := [Token(MappingEnd, t.end)] + rest;
    assert Flatten(t) + rest == [Token(Head(t), t.at)] + (FlattenAll(t.kids) + close);
    RunFirst(st, Token(Head(t), t.at), FlattenAll(t.kids) + close, cfg);
    if Within(|frames|, t.at, cfg).Ok? && CheckTag(t.tag, t.at, cfg).Ok? {
      var base := TargetPlaces(frames, places);
      Opens(t, frames, places, env, cfg);
      TargetAbsorbed(frames, places, LocObject(start, []));
      RunPairs(t.kids, t.end, [], frames, base, t.anchor, start, env, rest, cfg);
      var r := DenotePairs(t.kids, t.end, [], |frames| + 1, slot.None?, env, cfg);
      if r.Ok? {
        RunFirst(InDict(r.value.0, frames, base, t.anchor, start, r.value.1), Token(MappingEnd, t.end), rest, cfg);
        ClosesDict(r.value.0, frames, base, t.anchor, start, r.value.1, t.end, cfg);
        TargetAbsorbed(frames, places, LocObject(start, r.value.0));
      }
    }
  }

  /** A key's events leave the mapping waiting for its value, or fail. */
  lemma {:induction false} RunKey(kid: Tree, done: seq<LocMember>, frames: seq<Frame>, base: Places, anchor: nat,
                                  start: Location, env: Env, rest: seq<Token>, cfg: Config)
    requires Ready(frames, base, env)
    ensures Run(InDict(done, frames, base, anchor, start, env), Flatten(kid) + rest, cfg)
         == ExpectedKey(Denote(kid, |frames| + 1, true, env, cfg), done, frames, base, anchor, start, rest, cfg)
    decreases kid, 2
  {
    var slot := TargetSlot(frames);
    var inner := frames + [Frame(Mapping(MembersOf(done), None), slot, anchor, start)];
    var places := Recorded(base, slot, LocObject(start, done));
    RunTree(kid, inner, places, env, rest, cfg);
    var key := Denote(kid, |frames| + 1, true, env, cfg);
    if key.Ok? {
      var name := ValueOf(key.value.node);
      if name.Leaf? && name.atom.Text? { SameKeys(done, name.atom.s); }
      assert inner[..|inner| - 1] == frames;
    }
  }

  /** A value's events complete the member under its key's location, or fail. */
  lemma {:induction false} RunMember(kid: Tree, name: string, at: Location, done: seq<LocMember>, frames: seq<Frame>,
                                     base: Places, anchor: nat, start: Location, env: Env, rest: seq<Token>,
                                       cfg: Config)
    requires Ready(frames, base, env) && !HasMember(done, name)
    ensures Run(AtValue(name, at, done, frames, base, anchor, start, env), Flatten(kid) + rest, cfg)
         == ExpectedMember(Denote(kid, |frames| + 1, TargetSlot(frames).None?, env, cfg), name, at, done,
                           frames, base, anchor, start, rest, cfg)
    decreases kid, 2
  {
    var slot := TargetSlot(frames);
    var inner := AtValue(name, at, done, frames, base, anchor, start, env).frames;
    var places := AtValue(name, at, done, frames, base, anchor, start, env).places;
    if slot.Some? { FreshObject(base, slot.value, start, done, name); }
    RunTree(kid, inner, places, env, rest, cfg);
    var value := Denote(kid, |frames| + 1, slot.None?, env, cfg);
    if value.Ok? {
      JoinsDict(value.value.node, name, at, done, frames, base, anchor, start, env, value.value.env);
    }
  }

  lemma {:induction false} RunPairs(kids: seq<Tree>, end: Marker, done: seq<LocMember>, frames: seq<Frame>,
                                    base: Places, anchor: nat, start: Location, env: Env, rest: seq<Token>, cfg: Config)
    requires Ready(frames, base, env)
    ensures Run(InDict(done, frames, base, anchor, start, env), FlattenAll(kids) + ([Token(MappingEnd, end)] + rest),
                cfg)
         == ExpectedPairs(DenotePairs(kids, end, done, |frames| + 1, TargetSlot(frames).None?, env, cfg),
                          frames, base, anchor, start, [Token(MappingEnd, end)] + rest, cfg)
    decreases kids, 3
  {
    hide Run, Denote, Delivered, PlacesAt;
    var close := [Token(MappingEnd, end)] + rest;
    if |kids| == 0 {
      assert FlattenAll(kids) + close == close;
    } else {
      FlattenFirst(kids, close);
      RunKey(kids[0], done, frames, base, anchor, start, env, FlattenAll(kids[1..]) + close, cfg);
      var key := Denote(kids[0], |frames| + 1, true, env, cfg);
      if key.Ok? && KeyName(key.value.node, done).Ok? {
        if TargetSlot(frames).Some? { StaysFull(kids[0], |frames| + 1, true, env, cfg); }
        RunValue(kids[1..], KeyName(key.value.node, done).value, key.value.node.start, end, done, frames, base, anchor,
                 start, key.value.env, rest, cfg);
      }
    }
  }

  lemma {:induction false} RunValue(kids: seq<Tree>, name: string, at: Location, end: Marker, done: seq<LocMember>,
                                    frames: seq<Frame>, base: Places, anchor: nat, start: Location, env: Env,
                                    rest: seq<Token>, cfg: Config)
    requires Ready(frames, base, env) && !HasMember(done, name)
    ensures Run(AtValue(name, at, done, frames, base, anchor, start, env),
                FlattenAll(kids) + ([Token(MappingEnd, end)] + rest), cfg)
         == ExpectedPairs(DenoteValue(kids, name, at, end, done, |frames| + 1, TargetSlot(frames).None?, env, cfg),
                          frames, base, anchor, start, [Token(MappingEnd, end)] + rest, cfg)
    decreases kids, 3
  {
    var close := [Token(MappingEnd, end)] + rest;
    if |kids| == 0 {
      assert FlattenAll(kids) + close == close;
      RunFirst(AtValue(name, at, done, frames, base, anchor, start, env), Token(MappingEnd, end), rest, cfg);
    } else {
      FlattenFirst(kids, close);
      RunMember(kids[0], name, at, done, frames, base, anchor, start, env, FlattenAll(kids[1..]) + close, cfg);
      var value := Denote(kids[0], |frames| + 1, TargetSlot(frames).None?, env, cfg);
      if value.Ok? {
        if TargetSlot(frames).Some? { StaysFull(kids[0], |frames| + 1, false, env, cfg); }
        var member := LocMember(name, value.value.node.(start := at));
        RunPairs(kids[1..], end, done + [member], frames, base, anchor, start, value.value.env, rest, cfg);
      }
    }
  }
}

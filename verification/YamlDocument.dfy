// Whole documents: what the builder accepts, and what its positions answer.

module YamlDocument {
  import opened Common
  import opened Pointers
  import opened YamlValues
  import opened YamlMachine
  import opened YamlTree
  import opened YamlMeaning

  // ----- every accepted node is proper and within the depth limit -----

  /** Keys are distinct at every level. */
  ghost predicate Proper(n: Located) {
    match n
    case LocLeaf(_, _) => true
    case LocArray(_, items) => forall i :: 0 <= i < |items| ==> Proper(items[i])
    case LocObject(_, members) =>
      && (forall i :: 0 <= i < |members| ==> Proper(members[i].node))
      && (forall i, j :: 0 <= i < j < |members| ==> members[i].key != members[j].key)
  }

  ghost predicate ProperEnv(env: Env) {
    forall a :: a in env ==> Proper(env[a].node)
  }

  lemma RestartedProper(n: Located, start: Location)
    requires Proper(n)
    ensures Proper(n.(start := start))
  {
  }

  lemma {:induction false} Sound(t: Tree, depth: nat, inKey: bool, env: Env, cfg: Config)
    requires ProperEnv(env)
    ensures var r := Denote(t, depth, inKey, env, cfg);
            r.Ok? ==>
              && Proper(r.value.node) && ProperEnv(r.value.env)
              && depth + Height(ValueOf(r.value.node)) <= MAX_DEPTH
    decreases t, 1
  {
    hide DenoteItems, DenotePairs;
    match t
    case Plain(_, _, _, _, _, _) =>
    case Ref(id, at) =>
      if id in env {
        RestartedProper(env[id].node, At(at, cfg));
        RestartedValue(env[id].node, At(at, cfg));
      }
    case List(_, _, _, kids, _) =>
      if depth <= MAX_DEPTH { ItemsSound(kids, [], depth, inKey, env, cfg); }
    case Dict(_, _, _, kids, end) =>
      if depth <= MAX_DEPTH { PairsSound(kids, end, [], depth, inKey, env, cfg); }
  }

  ghost predicate SoundItems(done: seq<Located>, depth: nat) {
    Proper(LocArray(Location("", 0, 0), done)) && depth + HeightAll(ValuesOf(done)) <= MAX_DEPTH
  }

  lemma SoundItem(done: seq<Located>, n: Located, depth: nat)
    requires SoundItems(done, depth) && Proper(n) && depth + 1 + Height(ValueOf(n)) <= MAX_DEPTH
    ensures SoundItems(done + [n], depth)
  {
  }

  lemma {:induction false} ItemsSound(kids: seq<Tree>, done: seq<Located>, depth: nat, inKey: bool, env: Env,
                                      cfg: Config)
    requires ProperEnv(env) && SoundItems(done, depth)
    ensures var r := DenoteItems(kids, done, depth + 1, inKey, env, cfg);
            r.Ok? ==> SoundItems(r.value.0, depth) && ProperEnv(r.value.1)
    decreases kids, 0
  {
    hide Denote, Proper, HeightAll, ValuesOf;
    if |kids| > 0 {
      Sound(kids[0], depth + 1, inKey, env, cfg);
      var first := Denote(kids[0], depth + 1, inKey, env, cfg);
      if first.Ok? {
        SoundItem(done, first.value.node, depth);
        ItemsSound(kids[1..], done + [first.value.node], depth, inKey, first.value.env, cfg);
      }
    }
  }

  ghost predicate SoundPairs(done: seq<LocMember>, depth: nat) {
    Proper(LocObject(Location("", 0, 0), done)) && depth + HeightMembers(MembersOf(done)) <= MAX_DEPTH
  }

  lemma ProperPair(start: Location, done: seq<LocMember>, member: LocMember)
    requires Proper(LocObject(start, done)) && Proper(member.node) && !HasMember(done, member.key)
    ensures Proper(LocObject(start, done + [member]))
  {
  }

  lemma HeightPair(done: seq<LocMember>, member: LocMember)
    ensures HeightMembers(MembersOf(done + [member])) ==
            Max(HeightMembers(MembersOf(done)), Height(ValueOf(member.node)) + 1)
  {
  }

  lemma SoundPair(done: seq<LocMember>, name: string, n: Located, at: Location, depth: nat)
    requires SoundPairs(done, depth) && Proper(n) && depth + 1 + Height(ValueOf(n)) <= MAX_DEPTH
    requires !HasMember(done, name)
    ensures SoundPairs(done + [LocMember(name, n.(start := at))], depth)
  {
    hide Proper, HeightMembers, MembersOf;
    RestartedProper(n, at);
    RestartedValue(n, at);
    ProperPair(Location("", 0, 0), done, LocMember(name, n.(start := at)));
    HeightPair(done, LocMember(name, n.(start := at)));
  }

  lemma {:induction false} PairsSound(kids: seq<Tree>, end: Marker, done: seq<LocMember>, depth: nat, inKey: bool,
                                      env: Env, cfg: Config)
    requires ProperEnv(env) && SoundPairs(done, depth)
    ensures var r := DenotePairs(kids, end, done, depth + 1, inKey, env, cfg);
            r.Ok? ==> SoundPairs(r.value.0, depth) && ProperEnv(r.value.1)
    decreases kids, 0
  {
    hide Denote, Proper, HeightMembers, MembersOf;
    if |kids| > 0 {
      Sound(kids[0], depth + 1, true, env, cfg);
      var key := Denote(kids[0], depth + 1, true, env, cfg);
      if key.Ok? && KeyName(key.value.node, done).Ok? && |kids| > 1 {
        var at := key.value.node.start;
        var name := KeyName(key.value.node, done).value;
        Sound(kids[1], depth + 1, inKey, key.value.env, cfg);
        var value := Denote(kids[1], depth + 1, inKey, key.value.env, cfg);
        if value.Ok? {
          SoundPair(done, name, value.value.node, at, depth);
          PairsSound(kids[1..][1..], end, done + [LocMember(name, value.value.node.(start := at))], depth, inKey,
                     value.value.env, cfg);
        }
      }
    }
  }

  // ----- positions answer exactly the pointers of the value -----

  function ItemIndex(count: nat, segment: string): (i: Option<nat>)
    ensures i.Some? ==> i.value < count
  {
    if count == 0 then None
    else if Decimal(count - 1) == segment then Some(count - 1)
    else ItemIndex(count - 1, segment)
  }

  function KeyIndex(keys: seq<string>, segment: string): (i: Option<nat>)
    ensures i.Some? ==> i.value < |keys|
  {
    if |keys| == 0 then None
    else if Escape(keys[|keys| - 1]) == segment then Some(|keys| - 1)
    else KeyIndex(keys[..|keys| - 1], segment)
  }

  /** The node that a path of escaped segments names. */
  function ValueAt(v: Value, path: Path): Option<Value>
    decreases |path|
  {
    if |path| == 0 then Some(v)
    else
      match v
      case Leaf(_) => None
      case Array(items) =>
        var i := ItemIndex(|items|, path[0]);
        if i.None? then None else ValueAt(items[i.value], path[1..])
      case Object(members) =>
        var i := KeyIndex(Keys(members), path[0]);
        if i.None? then None else ValueAt(members[i.value].value, path[1..])
  }

  function LocKeys(members: seq<LocMember>): (keys: seq<string>)
    ensures |keys| == |members|
  {
    seq(|members|, i requires 0 <= i < |members| => members[i].key)
  }

  function LocatedAt(n: Located, path: Path): Option<Located>
    decreases |path|
  {
    if |path| == 0 then Some(n)
    else
      match n
      case LocLeaf(_, _) => None
      case LocArray(_, items) =>
        var i := ItemIndex(|items|, path[0]);
        if i.None? then None else LocatedAt(items[i.value], path[1..])
      case LocObject(_, members) =>
        var i := KeyIndex(LocKeys(members), path[0]);
        if i.None? then None else LocatedAt(members[i.value].node, path[1..])
  }

  lemma {:induction false} ValuesAt(items: seq<Located>, i: nat)
    requires i < |items|
    ensures ValuesOf(items)[i] == ValueOf(items[i])
  {
    if i < |items| - 1 { ValuesAt(items[..|items| - 1], i); }
  }

  lemma {:induction false} MembersAt(members: seq<LocMember>, i: nat)
    requires i < |members|
    ensures MembersOf(members)[i] == Member(members[i].key, ValueOf(members[i].node))
  {
    if i < |members| - 1 { MembersAt(members[..|members| - 1], i); }
  }

  /** Located nodes and values have the same paths. */
  lemma {:induction false} SamePaths(n: Located, path: Path)
    ensures LocatedAt(n, path).Some? == ValueAt(ValueOf(n), path).Some?
    ensures LocatedAt(n, path).Some? ==> ValueAt(ValueOf(n), path) == Some(ValueOf(LocatedAt(n, path).value))
    decreases |path|
  {
    if |path| > 0 {
      match n
      case LocLeaf(_, _) =>
      case LocArray(_, items) =>
        var i := ItemIndex(|items|, path[0]);
        if i.Some? {
          ValuesAt(items, i.value);
          SamePaths(items[i.value], path[1..]);
        }
      case LocObject(_, members) =>
        forall i | 0 <= i < |members|
          ensures Keys(MembersOf(members))[i] == LocKeys(members)[i]
        {
          MembersAt(members, i);
        }
        assert Keys(MembersOf(members)) == LocKeys(members);
        var i := KeyIndex(LocKeys(members), path[0]);
        if i.Some? {
          MembersAt(members, i.value);
          SamePaths(members[i.value].node, path[1..]);
        }
    }
  }

  lemma {:induction false} ItemsExact(items: seq<Located>, q: Path)
    requires |q| > 0
    ensures var i := ItemIndex(|items|, q[0]);
            && (q in ItemPlaces(items, ROOT) <==> i.Some? && q[1..] in PlacesAt(items[i.value], ROOT))
            && (q in ItemPlaces(items, ROOT) ==> ItemPlaces(items, ROOT)[q] == PlacesAt(items[i.value], ROOT)[q[1..]])
    decreases |items|
  {
    if |items| > 0 {
      var n := |items| - 1;
      var init := items[..n];
      PlacesShift(items[n], ROOT + [Decimal(n)], q);
      assert ROOT + [Decimal(n)] <= q <==> q[0] == Decimal(n);
      if q[0] == Decimal(n) {
        if q in ItemPlaces(init, ROOT) { FreshItem(init, n, ROOT, q); }
      } else {
        ItemsExact(init, q);
      }
    }
  }

  lemma {:induction false} MembersExact(members: seq<LocMember>, q: Path)
    requires |q| > 0
    requires forall i, j :: 0 <= i < j < |members| ==> members[i].key != members[j].key
    ensures var i := KeyIndex(LocKeys(members), q[0]);
            && (q in MemberPlaces(members, ROOT) <==> i.Some? && q[1..] in PlacesAt(members[i.value].node, ROOT))
            && (q in MemberPlaces(members, ROOT) ==>
                  MemberPlaces(members, ROOT)[q] == PlacesAt(members[i.value].node, ROOT)[q[1..]])
    decreases |members|
  {
    if |members| > 0 {
      var n := |members| - 1;
      var init := members[..n];
      var segment := Escape(members[n].key);
      assert LocKeys(members)[..n] == LocKeys(init);
      PlacesShift(members[n].node, ROOT + [segment], q);
      assert ROOT + [segment] <= q <==> q[0] == segment;
      if q[0] == segment {
        if q in MemberPlaces(init, ROOT) { FreshMember(init, members[n].key, ROOT, q); }
      } else {
        MembersExact(init, q);
      }
    }
  }

  /** Positions hold exactly the paths of the value, each with its node's location. */
  lemma {:induction false} PlacesExact(n: Located, path: Path)
    requires Proper(n)
    ensures path in PlacesAt(n, ROOT) <==> LocatedAt(n, path).Some?
    ensures path in PlacesAt(n, ROOT) ==> PlacesAt(n, ROOT)[path] == Some(LocatedAt(n, path).value.start)
    decreases |path|
  {
    if |path| == 0 {
      HasRoot(n, ROOT);
    } else {
      match n
      case LocLeaf(_, _) =>
      case LocArray(_, items) =>
        ItemsExact(items, path);
        var i := ItemIndex(|items|, path[0]);
        if i.Some? { PlacesExact(items[i.value], path[1..]); }
      case LocObject(_, members) =>
        MembersExact(members, path);
        var i := KeyIndex(LocKeys(members), path[0]);
        if i.Some? { PlacesExact(members[i.value].node, path[1..]); }
    }
  }

  // ----- documents -----

  ghost predicate AllEvents(tokens: seq<Token>, events: set<Event>) {
    forall i :: 0 <= i < |tokens| ==> tokens[i].Token? && tokens[i].event in events
  }

  ghost predicate DocumentIn(tokens: seq<Token>, before: seq<Token>, t: Tree, after: seq<Token>, end: Marker,
                             rest: seq<Token>)
  {
    && AllEvents(before, {StreamStart, DocumentStart})
    && AllEvents(after, {DocumentEnd})
    && tokens == before + (Flatten(t) + (after + ([Token(StreamEnd, end)] + rest)))
  }

  /** The events of a stream that holds one document. */
  ghost predicate IsDocument(tokens: seq<Token>, t: Tree, rest: seq<Token>) {
    exists before, after, end :: DocumentIn(tokens, before, t, after, end, rest)
  }

  lemma {:induction false} SkipStarts(before: seq<Token>, rest: seq<Token>, cfg: Config)
    requires AllEvents(before, {StreamStart, DocumentStart})
    ensures Run(Before, before + rest, cfg) == Run(Before, rest, cfg)
  {
    if |before| == 0 {
      assert before + rest == rest;
    } else {
      assert (before + rest)[1..] == before[1..] + rest;
      SkipStarts(before[1..], rest, cfg);
    }
  }

  lemma {:induction false} SkipEnds(value: Value, places: Places, after: seq<Token>, end: Marker, rest: seq<Token>,
                                    cfg: Config)
    requires AllEvents(after, {DocumentEnd})
    ensures Run(After(value, places), after + ([Token(StreamEnd, end)] + rest), cfg) == Built(value, places)
  {
    var tail := [Token(StreamEnd, end)] + rest;
    if |after| == 0 {
      assert after + tail == tail;
      RunFirst(After(value, places), Token(StreamEnd, end), rest, cfg);
    } else {
      assert (after + tail)[1..] == after[1..] + tail;
      SkipEnds(value, places, after[1..], end, rest, cfg);
    }
  }

  /** A stream's one document is built exactly as the evaluator says. */
  lemma DocumentMeaning(tokens: seq<Token>, t: Tree, rest: seq<Token>, cfg: Config)
    requires IsDocument(tokens, t, rest)
    ensures Run(Before, tokens, cfg)
         == match Denote(t, 0, false, map[], cfg) {
              case Err(issue) => Failed(issue)
              case Ok(e) => Built(ValueOf(e.node), PlacesAt(e.node, ROOT))
            }
  {
    var before, after, end :| DocumentIn(tokens, before, t, after, end, rest);
    var tail := after + ([Token(StreamEnd, end)] + rest);
    SkipStarts(before, Flatten(t) + tail, cfg);
    FirstToken(t, tail, cfg);
    assert Remembered(map[]) == map[];
    RunTree(t, [], EMPTY, map[], tail, cfg);
    var r := Denote(t, 0, false, map[], cfg);
    if r.Ok? {
      HasRoot(r.value.node, ROOT);
      var places := Recorded(EMPTY, Some(ROOT), r.value.node);
      assert places == PlacesAt(r.value.node, ROOT);
      SkipEnds(ValueOf(r.value.node), places, after, end, rest, cfg);
    }
  }

  lemma FirstToken(t: Tree, tail: seq<Token>, cfg: Config)
    ensures Run(Before, Flatten(t) + tail, cfg) == Run(INITIAL, Flatten(t) + tail, cfg)
  {
  }

  /** The node that a pointer string names. */
  function Named(v: Value, pointer: string): Option<Value> {
    var path := Segments(pointer);
    if path.Some? then ValueAt(v, path.value) else None
  }

  /** The places are exactly the value's nodes, each with a location. */
  ghost predicate Exact(value: Value, places: Places) {
    forall path :: (path in places <==> ValueAt(value, path).Some?) && (path in places ==> places[path].Some?)
  }

  /** The places locate each node of the value where `node` starts it. */
  ghost predicate Locates(places: Places, node: Located) {
    forall path :: path in places ==>
      LocatedAt(node, path).Some? && places[path] == Some(LocatedAt(node, path).value.start)
  }

  /** An accepted document is its tree's evaluated node: at most 128 levels deep,
      with a location for exactly the nodes of its value. */
  lemma DocumentPositions(tokens: seq<Token>, t: Tree, rest: seq<Token>, cfg: Config)
    requires IsDocument(tokens, t, rest)
    requires Run(Before, tokens, cfg).Built?
    ensures var r := Denote(t, 0, false, map[], cfg);
            var built := Run(Before, tokens, cfg);
            && r.Ok?
            && built.value == ValueOf(r.value.node)
            && Height(built.value) <= MAX_DEPTH
            && Exact(built.value, built.places)
            && Locates(built.places, r.value.node)
  {
    DocumentMeaning(tokens, t, rest, cfg);
    Sound(t, 0, false, map[], cfg);
    var n := Denote(t, 0, false, map[], cfg).value.node;
    forall path: Path
      ensures path in PlacesAt(n, ROOT) <==> LocatedAt(n, path).Some?
      ensures path in PlacesAt(n, ROOT) ==> PlacesAt(n, ROOT)[path] == Some(LocatedAt(n, path).value.start)
      ensures LocatedAt(n, path).Some? == ValueAt(ValueOf(n), path).Some?
    {
      PlacesExact(n, path);
      SamePaths(n, path);
    }
  }
}

// What a document that says nothing fails with: the first fault in document order, stated
// without the builder.

module YamlFailures {
  import opened Common
  import opened YamlValues
  import opened YamlMachine
  import opened YamlAliases
  import opened YamlTree
  import opened YamlDocument
  import opened YamlReading
  import opened YamlLockstep
  import opened YamlResults

  /** The tree says `n` at this depth. */
  ghost predicate SaysAt(t: Tree, n: Located, depth: nat, bound: Bindings, file: File) {
    Depicts(t, n, bound, file) && Tagged(t) && Proper(n) && depth + Height(ValueOf(n)) <= 128
  }

  /** The first fault of a tree: nested too deep, a tag outside the core schema, a plain scalar without data, an alias
      of nothing complete or of something too high, or the first fault of a child after those that say something. */
  ghost predicate Fails(t: Tree, issue: Issue, depth: nat, bound: Bindings, file: File)
    decreases t, 1
  {
    if depth > 128 then issue == Issue(TooDeep, file.Here(t.at))
    else
      match t
      case Plain(_, decoded, plain, _, tag, at) =>
        if !CoreTag(tag) then issue == Issue(CustomTag, file.Here(at))
        else
          && plain && (tag.None? || tag.value.suffix != "str") && decoded.None?
          && issue == Issue(NotFinite, file.Here(at))
      case Ref(id, at) =>
        if id !in bound then issue == Issue(UnknownAlias, file.Here(at))
        else depth + Height(ValueOf(bound[id])) > 128 && issue == Issue(TooDeep, file.Here(at))
      case List(_, tag, at, kids, _) =>
        if !CoreTag(tag) then issue == Issue(CustomTag, file.Here(at))
        else FailsItems(kids, issue, depth + 1, bound, file)
      case Dict(_, tag, at, kids, end) =>
        if !CoreTag(tag) then issue == Issue(CustomTag, file.Here(at))
        else FailsMembers(kids, end, [], issue, depth + 1, bound, file)
  }

  ghost predicate FailsItems(kids: seq<Tree>, issue: Issue, depth: nat, bound: Bindings, file: File)
    decreases kids, 0
  {
    |kids| > 0 &&
    (|| Fails(kids[0], issue, depth, bound, file)
     || exists n ::
          && SaysAt(kids[0], n, depth, bound, file)
          && FailsItems(kids[1..], issue, depth, Bound(kids[0], n, bound, file), file))
  }

  /** A key may fail itself, be no string or be one of the `keys` before it; after it a value is due. */
  ghost predicate FailsMembers(kids: seq<Tree>, end: Marker, keys: seq<string>, issue: Issue, depth: nat,
                               bound: Bindings, file: File)
    decreases kids, 0
  {
    |kids| > 0 &&
    (|| Fails(kids[0], issue, depth, bound, file)
     || exists key ::
          SaysAt(kids[0], key, depth, bound, file) && FailsKey(kids, key, end, keys, issue, depth, bound, file))
  }

  /** What is wrong after a key that says something. */
  ghost predicate FailsKey(kids: seq<Tree>, key: Located, end: Marker, keys: seq<string>, issue: Issue, depth: nat,
                           bound: Bindings, file: File)
    requires |kids| > 0
    decreases kids, 0, 0
  {
    if !(key.LocLeaf? && key.atom.Text?) then issue == Issue(NotString, key.start)
    else if key.atom.s in keys then issue == Issue(Duplicate(key.atom.s), key.start)
    else FailsValue(kids[1..], end, keys + [key.atom.s], issue, depth, Bound(kids[0], key, bound, file), file)
  }

  ghost predicate FailsValue(kids: seq<Tree>, end: Marker, keys: seq<string>, issue: Issue, depth: nat,
                             bound: Bindings, file: File)
    decreases kids, 0
  {
    if |kids| == 0 then issue == Issue(ExpectedValue, file.Here(end))
    else
      || Fails(kids[0], issue, depth, bound, file)
      || exists n ::
           && SaysAt(kids[0], n, depth, bound, file)
           && FailsMembers(kids[1..], end, keys, issue, depth, Bound(kids[0], n, bound, file), file)
  }

  /** The evaluator's environment holds exactly the bound nodes, and they are sound. */
  ghost predicate Holds(env: Env, bound: Bindings, cfg: Config) {
    Agrees(env, bound, cfg) && Matches(env, bound) && ProperEnv(env)
  }

  /** What every anchor of these trees needs to be kept. */
  ghost predicate KeepsAll(t: Tree, cfg: Config) {
    Declared(t) - {0} <= cfg.keep && RealRefs(t)
  }

  ghost predicate KeepsAllOf(kids: seq<Tree>, cfg: Config) {
    DeclaredAll(kids) - {0} <= cfg.keep && AllRealRefs(kids)
  }

  lemma Succeeds(t: Tree, depth: nat, inKey: bool, env: Env, bound: Bindings, cfg: Config)
    requires Holds(env, bound, cfg) && KeepsAll(t, cfg) && Denote(t, depth, inKey, env, cfg).Ok?
    ensures
      var n := Denote(t, depth, inKey, env, cfg).value;
      SaysAt(t, n.node, depth, bound, FileOf(cfg)) && Holds(n.env, Bound(t, n.node, bound, FileOf(cfg)), cfg)
  {
    hide Denote, Depicts, Tagged, Proper, Agrees, Matches, ProperEnv, Bound, Declared, RealRefs;
    Denoted(t, depth, inKey, env, bound, cfg);
    Sound(t, depth, inKey, env, cfg);
    Depicted(t, Denote(t, depth, inKey, env, cfg).value.node, depth, inKey, env, bound, cfg);
  }

  lemma {:induction false} Failing(t: Tree, depth: nat, inKey: bool, env: Env, bound: Bindings, cfg: Config)
    requires Holds(env, bound, cfg) && KeepsAll(t, cfg) && Denote(t, depth, inKey, env, cfg).Err?
    ensures Fails(t, Denote(t, depth, inKey, env, cfg).issue, depth, bound, FileOf(cfg))
    decreases t, 1
  {
    hide DenoteItems, DenotePairs, FailsItems, FailsMembers, Holds, DeclaredAll, AllRealRefs;
    match t
    case Plain(_, _, _, _, _, _) =>
    case Ref(id, _) => HoldsAlias(env, bound, id, cfg);
    case List(_, tag, _, kids, _) =>
      if depth <= 128 && CoreTag(tag) { ItemsFailing(kids, [], depth + 1, inKey, env, bound, cfg); }
    case Dict(_, tag, _, kids, end) =>
      if depth <= 128 && CoreTag(tag) { PairsFailing(kids, end, [], depth + 1, inKey, env, bound, cfg); }
  }

  lemma HoldsAlias(env: Env, bound: Bindings, id: nat, cfg: Config)
    requires Holds(env, bound, cfg) && id != 0
    ensures (id in env <==> id in bound) && (id in env ==> bound[id] == env[id].node)
  {
  }

  lemma {:induction false} ItemsFailing(kids: seq<Tree>, done: seq<Located>, depth: nat, inKey: bool, env: Env,
                                        bound: Bindings, cfg: Config)
    requires Holds(env, bound, cfg) && KeepsAllOf(kids, cfg) && DenoteItems(kids, done, depth, inKey, env, cfg).Err?
    ensures FailsItems(kids, DenoteItems(kids, done, depth, inKey, env, cfg).issue, depth, bound, FileOf(cfg))
    decreases kids, 0
  {
    hide Denote, Fails, SaysAt, Bound, Holds, Declared, RealRefs;
    var first := Denote(kids[0], depth, inKey, env, cfg);
    if first.Err? {
      Failing(kids[0], depth, inKey, env, bound, cfg);
    } else {
      Succeeds(kids[0], depth, inKey, env, bound, cfg);
      var file := FileOf(cfg);
      ItemsFailing(kids[1..], done + [first.value.node], depth, inKey, first.value.env,
                   Bound(kids[0], first.value.node, bound, file), cfg);
    }
  }

  lemma {:induction false} PairsFailing(kids: seq<Tree>, end: Marker, done: seq<LocMember>, depth: nat, inKey: bool,
                                        env: Env, bound: Bindings, cfg: Config)
    requires Holds(env, bound, cfg) && KeepsAllOf(kids, cfg)
    requires DenotePairs(kids, end, done, depth, inKey, env, cfg).Err?
    ensures FailsMembers(kids, end, LocKeys(done), DenotePairs(kids, end, done, depth, inKey, env, cfg).issue, depth,
                         bound, FileOf(cfg))
    decreases kids, 1
  {
    hide Denote, Fails, SaysAt, Bound, Holds, Declared, RealRefs, FailsValue, DenoteValue, LocKeys;
    var key := Denote(kids[0], depth, true, env, cfg);
    if key.Err? {
      Failing(kids[0], depth, true, env, bound, cfg);
    } else {
      Succeeds(kids[0], depth, true, env, bound, cfg);
      var node := key.value.node;
      if node.LocLeaf? && node.atom.Text? {
        KeyIsIn(done, node.atom.s);
        if !HasMember(done, node.atom.s) {
          ValueFailing(kids[1..], node.atom.s, node.start, end, done, depth, inKey, key.value.env,
                       Bound(kids[0], node, bound, FileOf(cfg)), cfg);
        }
      }
    }
  }

  lemma KeyIsIn(done: seq<LocMember>, key: string)
    ensures HasMember(done, key) <==> key in LocKeys(done)
  {
    assert forall i :: 0 <= i < |done| ==> LocKeys(done)[i] == done[i].key;
  }

  lemma {:induction false} ValueFailing(kids: seq<Tree>, name: string, at: Location, end: Marker, done: seq<LocMember>,
                                        depth: nat, inKey: bool, env: Env, bound: Bindings, cfg: Config)
    requires Holds(env, bound, cfg) && KeepsAllOf(kids, cfg)
    requires DenoteValue(kids, name, at, end, done, depth, inKey, env, cfg).Err?
    ensures FailsValue(kids, end, LocKeys(done) + [name],
                       DenoteValue(kids, name, at, end, done, depth, inKey, env, cfg).issue, depth, bound, FileOf(cfg))
    decreases kids, 0
  {
    hide Denote, Fails, SaysAt, Bound, Holds, Declared, RealRefs, DenotePairs, FailsMembers;
    if |kids| > 0 {
      var value := Denote(kids[0], depth, inKey, env, cfg);
      if value.Err? {
        Failing(kids[0], depth, inKey, env, bound, cfg);
      } else {
        Succeeds(kids[0], depth, inKey, env, bound, cfg);
        var member := LocMember(name, value.value.node.(start := at));
        assert LocKeys(done + [member]) == LocKeys(done) + [name];
        PairsFailing(kids[1..], end, done + [member], depth, inKey, value.value.env,
                     Bound(kids[0], value.value.node, bound, FileOf(cfg)), cfg);
      }
    }
  }

  // ----- a tree with a fault is not evaluated -----

  lemma SaidIsEvaluated(t: Tree, n: Located, depth: nat, inKey: bool, env: Env, bound: Bindings, cfg: Config)
    requires Holds(env, bound, cfg) && KeepsAll(t, cfg) && SaysAt(t, n, depth, bound, FileOf(cfg))
    ensures
      var r := Denote(t, depth, inKey, env, cfg);
      r.Ok? && r.value.node == n && Holds(r.value.env, Bound(t, n, bound, FileOf(cfg)), cfg)
  {
    hide Denote, Depicts, Tagged, Proper, Agrees, Matches, ProperEnv, Bound, Declared, RealRefs;
    Depicted(t, n, depth, inKey, env, bound, cfg);
    Denoted(t, depth, inKey, env, bound, cfg);
    Sound(t, depth, inKey, env, cfg);
  }

  lemma {:induction false} FaultStops(t: Tree, issue: Issue, depth: nat, inKey: bool, env: Env, bound: Bindings,
                                      cfg: Config)
    requires Holds(env, bound, cfg) && KeepsAll(t, cfg) && Fails(t, issue, depth, bound, FileOf(cfg))
    ensures Denote(t, depth, inKey, env, cfg) == Err(issue)
    decreases t, 1
  {
    hide DenoteItems, DenotePairs, FailsItems, FailsMembers, Holds, DeclaredAll, AllRealRefs;
    match t
    case Plain(_, _, _, _, _, _) =>
    case Ref(id, _) => HoldsAlias(env, bound, id, cfg);
    case List(_, tag, _, kids, _) =>
      if depth <= 128 && CoreTag(tag) { ItemFaultStops(kids, [], issue, depth + 1, inKey, env, bound, cfg); }
    case Dict(_, tag, _, kids, end) =>
      if depth <= 128 && CoreTag(tag) { PairFaultStops(kids, end, [], issue, depth + 1, inKey, env, bound, cfg); }
  }

  lemma {:induction false} ItemFaultStops(kids: seq<Tree>, done: seq<Located>, issue: Issue, depth: nat, inKey: bool,
                                          env: Env, bound: Bindings, cfg: Config)
    requires Holds(env, bound, cfg) && KeepsAllOf(kids, cfg) && FailsItems(kids, issue, depth, bound, FileOf(cfg))
    ensures DenoteItems(kids, done, depth, inKey, env, cfg) == Err(issue)
    decreases kids, 0
  {
    hide Denote, Fails, SaysAt, Bound, Holds, Declared, RealRefs;
    var file := FileOf(cfg);
    if Fails(kids[0], issue, depth, bound, file) {
      FaultStops(kids[0], issue, depth, inKey, env, bound, cfg);
    } else {
      var n :| SaysAt(kids[0], n, depth, bound, file)
               && FailsItems(kids[1..], issue, depth, Bound(kids[0], n, bound, file), file);
      SaidIsEvaluated(kids[0], n, depth, inKey, env, bound, cfg);
      ItemFaultStops(kids[1..], done + [n], issue, depth, inKey, Denote(kids[0], depth, inKey, env, cfg).value.env,
                     Bound(kids[0], n, bound, file), cfg);
    }
  }

  lemma {:induction false} PairFaultStops(kids: seq<Tree>, end: Marker, done: seq<LocMember>, issue: Issue, depth: nat,
                                          inKey: bool, env: Env, bound: Bindings, cfg: Config)
    requires Holds(env, bound, cfg) && KeepsAllOf(kids, cfg)
    requires FailsMembers(kids, end, LocKeys(done), issue, depth, bound, FileOf(cfg))
    ensures DenotePairs(kids, end, done, depth, inKey, env, cfg) == Err(issue)
    decreases kids, 1
  {
    hide Denote, Fails, SaysAt, Bound, Holds, Declared, RealRefs, FailsValue, DenoteValue, LocKeys;
    var file := FileOf(cfg);
    if Fails(kids[0], issue, depth, bound, file) {
      FaultStops(kids[0], issue, depth, true, env, bound, cfg);
    } else {
      var key :| SaysAt(kids[0], key, depth, bound, file)
                 && FailsKey(kids, key, end, LocKeys(done), issue, depth, bound, file);
      SaidIsEvaluated(kids[0], key, depth, true, env, bound, cfg);
      if key.LocLeaf? && key.atom.Text? {
        KeyIsIn(done, key.atom.s);
        if !HasMember(done, key.atom.s) {
          ValueFaultStops(kids[1..], key.atom.s, key.start, end, done, issue, depth, inKey,
                          Denote(kids[0], depth, true, env, cfg).value.env, Bound(kids[0], key, bound, file), cfg);
        }
      }
    }
  }

  lemma {:induction false} ValueFaultStops(kids: seq<Tree>, name: string, at: Location, end: Marker,
                                           done: seq<LocMember>, issue: Issue, depth: nat, inKey: bool, env: Env,
                                           bound: Bindings, cfg: Config)
    requires Holds(env, bound, cfg) && KeepsAllOf(kids, cfg)
    requires FailsValue(kids, end, LocKeys(done) + [name], issue, depth, bound, FileOf(cfg))
    ensures DenoteValue(kids, name, at, end, done, depth, inKey, env, cfg) == Err(issue)
    decreases kids, 0
  {
    hide Denote, Fails, SaysAt, Bound, Holds, Declared, RealRefs, DenotePairs, FailsMembers;
    if |kids| > 0 {
      var file := FileOf(cfg);
      if Fails(kids[0], issue, depth, bound, file) {
        FaultStops(kids[0], issue, depth, inKey, env, bound, cfg);
      } else {
        var keys := LocKeys(done) + [name];
        var n :| SaysAt(kids[0], n, depth, bound, file)
                 && FailsMembers(kids[1..], end, keys, issue, depth, Bound(kids[0], n, bound, file), file);
        SaidIsEvaluated(kids[0], n, depth, inKey, env, bound, cfg);
        var member := LocMember(name, n.(start := at));
        assert LocKeys(done + [member]) == keys;
        PairFaultStops(kids[1..], end, done + [member], issue, depth, inKey,
                       Denote(kids[0], depth, inKey, env, cfg).value.env, Bound(kids[0], n, bound, file), cfg);
      }
    }
  }

  // ----- whole documents -----

  /** A builder that keeps every anchor fails on a document exactly as that says. */
  lemma DocumentFails(tokens: seq<Token>, t: Tree, rest: seq<Token>, issue: Issue, cfg: Config)
    requires IsDocument(tokens, t, rest) && KeepsAll(t, cfg)
    ensures Run(Before, tokens, cfg) == Failed(issue) <==> Fails(t, issue, 0, map[], FileOf(cfg))
  {
    hide Run, IsDocument, Denote, Fails, Declared, RealRefs;
    DocumentMeaning(tokens, t, rest, cfg);
    if Denote(t, 0, false, map[], cfg).Err? { Failing(t, 0, false, map[], map[], cfg); }
    if Fails(t, issue, 0, map[], FileOf(cfg)) { FaultStops(t, issue, 0, false, map[], map[], cfg); }
  }

  /** So does one that keeps the anchors that the scan names. */
  lemma ScannedFailure(tokens: seq<Token>, t: Tree, rest: seq<Token>, issue: Issue, budget: nat, cfg: Config)
    requires IsDocument(tokens, t, rest) && RealAliases(tokens) && ScanRun(START, tokens, budget).Aside?
    requires cfg.keep == ScanRun(START, tokens, budget).scan.aliased && |tokens| + budget < USIZE_MAX
    ensures Run(Before, tokens, cfg) == Failed(issue) <==> Fails(t, issue, 0, map[], FileOf(cfg))
  {
    hide Run, ScanRun, IsDocument, Fails, RealAliases, RealRefs;
    var all := cfg.(keep := cfg.keep + Declared(t));
    RealDocument(tokens, t, rest);
    DocumentFails(tokens, t, rest, issue, all);
    PruningInvisible(tokens, budget, cfg, all);
  }
}

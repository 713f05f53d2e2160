// What a document tree says: the relation between trees and located values, stated without
// the builder, and that the evaluator accepts exactly the trees that say something.

module YamlReading {
  import opened Common
  import opened YamlValues
  import opened YamlMachine
  import opened YamlTree
  import opened YamlMeaning
  import opened YamlDocument
  import opened YamlAccepts

  /** The nodes that anchors name; a later anchor of the same id replaces an earlier one. */
  type Bindings = map<nat, Located>

  /** Where a file comes from. Lines count from the file's first line, columns from 1. */
  datatype File = File(path: string, firstLine: nat) {
    function Here(at: Marker): Location {
      Location(path, at.line + firstLine - 1, at.col + 1)
    }
  }

  /** A quoted scalar and one tagged `str` are text. Any other is the data that it decodes to. */
  ghost predicate IsLeaf(atom: Atom, text: string, decoded: Option<Atom>, plain: bool, tag: Option<Tag>) {
    if plain && (tag.None? || tag.value.suffix != "str") then decoded == Some(atom) else atom == Text(text)
  }

  /** The tree says exactly this node, when aliases name the nodes bound before them. */
  ghost predicate Depicts(t: Tree, n: Located, bound: Bindings, file: File)
    decreases t
  {
    n.start == file.Here(t.at) &&
    match t
    case Plain(text, decoded, plain, _, tag, _) => n.LocLeaf? && IsLeaf(n.atom, text, decoded, plain, tag)
    case Ref(id, at) => id in bound && n == bound[id].(start := file.Here(at))
    case List(_, _, _, kids, _) => n.LocArray? && DepictsItems(kids, n.items, bound, file)
    case Dict(_, _, _, kids, _) => n.LocObject? && DepictsMembers(kids, n.members, bound, file)
  }

  ghost predicate DepictsItems(kids: seq<Tree>, items: seq<Located>, bound: Bindings, file: File)
    decreases kids
  {
    if |kids| == 0 then |items| == 0
    else
      && |items| > 0 && Depicts(kids[0], items[0], bound, file)
      && DepictsItems(kids[1..], items[1..], Bound(kids[0], items[0], bound, file), file)
  }

  /** Keys and values by turns: a key is a string, and its value is located at the key. */
  ghost predicate DepictsMembers(kids: seq<Tree>, members: seq<LocMember>, bound: Bindings, file: File)
    decreases kids
  {
    if |kids| < 2 then |kids| == |members| == 0
    else
      && |members| > 0 && members[0].node.start == file.Here(kids[0].at)
      && Depicts(kids[0], KeyNode(kids[0], members[0], file), bound, file)
      && Depicts(kids[1], ValueNode(kids[1], members[0], file), BoundKey(kids, members[0], bound, file), file)
      && DepictsMembers(kids[1..][1..], members[1..], BoundPair(kids, members[0], bound, file), file)
  }

  function KeyNode(key: Tree, member: LocMember, file: File): Located {
    LocLeaf(file.Here(key.at), Text(member.key))
  }

  /** A member's value, where it starts itself. */
  function ValueNode(value: Tree, member: LocMember, file: File): Located {
    member.node.(start := file.Here(value.at))
  }

  /** The bindings after a tree: those inside it, and then its own anchor. */
  function Bound(t: Tree, n: Located, bound: Bindings, file: File): Bindings
    decreases t, 1
  {
    match t
    case Plain(_, _, _, anchor, _, _) => bound[anchor := n]
    case Ref(_, _) => bound
    case List(anchor, _, _, kids, _) =>
      (if n.LocArray? then BoundItems(kids, n.items, bound, file) else bound)[anchor := n]
    case Dict(anchor, _, _, kids, _) =>
      (if n.LocObject? then BoundMembers(kids, n.members, bound, file) else bound)[anchor := n]
  }

  function BoundItems(kids: seq<Tree>, items: seq<Located>, bound: Bindings, file: File): Bindings
    decreases kids, 0
  {
    if |kids| == 0 || |items| == 0 then bound
    else BoundItems(kids[1..], items[1..], Bound(kids[0], items[0], bound, file), file)
  }

  function BoundMembers(kids: seq<Tree>, members: seq<LocMember>, bound: Bindings, file: File): Bindings
    decreases kids, 3
  {
    if |kids| < 2 || |members| == 0 then bound
    else
      BoundMembers(kids[1..][1..], members[1..], BoundPair(kids, members[0], bound, file), file)
  }

  function BoundKey(kids: seq<Tree>, member: LocMember, bound: Bindings, file: File): Bindings
    requires |kids| > 0
    decreases kids, 1
  {
    Bound(kids[0], KeyNode(kids[0], member, file), bound, file)
  }

  function BoundPair(kids: seq<Tree>, member: LocMember, bound: Bindings, file: File): Bindings
    requires |kids| > 1
    decreases kids, 2
  {
    Bound(kids[1], ValueNode(kids[1], member, file), BoundKey(kids, member, bound, file), file)
  }

  /** No tag but the core schema's, written in full or as `!!`. */
  ghost predicate CoreTag(tag: Option<Tag>) {
    tag.Some? ==> tag.value.handle == "tag:yaml.org,2002:" || tag.value.handle == "!!"
  }

  ghost predicate Tagged(t: Tree) {
    match t
    case Plain(_, _, _, _, tag, _) => CoreTag(tag)
    case Ref(_, _) => true
    case List(_, tag, _, kids, _) => CoreTag(tag) && TaggedAll(kids)
    case Dict(_, tag, _, kids, _) => CoreTag(tag) && TaggedAll(kids)
  }

  ghost predicate TaggedAll(kids: seq<Tree>) {
    |kids| > 0 ==> Tagged(kids[0]) && TaggedAll(kids[1..])
  }

  /** A valid document's meaning: keys are distinct and at most 128 levels are nested. */
  ghost predicate Reading(t: Tree, n: Located, file: File) {
    Depicts(t, n, map[], file) && Tagged(t) && Proper(n) && Height(ValueOf(n)) <= 128
  }

  function FileOf(cfg: Config): File {
    File(cfg.path, cfg.firstLine)
  }

  // ----- what is evaluated is depicted -----

  /** The evaluator's environment holds kept anchors, with the bound nodes. */
  ghost predicate Agrees(env: Env, bound: Bindings, cfg: Config) {
    forall a :: a in env ==> a in cfg.keep && a in bound && bound[a] == env[a].node
  }

  lemma BindAgrees(env: Env, bound: Bindings, anchor: nat, n: Located, full: bool, cfg: Config)
    requires Agrees(env, bound, cfg)
    ensures Agrees(Bind(env, anchor, n, full, cfg), bound[anchor := n], cfg)
  {
  }

  lemma {:induction false} Denoted(t: Tree, depth: nat, inKey: bool, env: Env, bound: Bindings, cfg: Config)
    requires Agrees(env, bound, cfg)
    ensures var r := Denote(t, depth, inKey, env, cfg);
            r.Ok? ==>
              && Depicts(t, r.value.node, bound, FileOf(cfg)) && Tagged(t)
              && Agrees(r.value.env, Bound(t, r.value.node, bound, FileOf(cfg)), cfg)
    decreases t, 1
  {
    hide DenoteItems, DenotePairs, DepictsItems, DepictsMembers, BoundItems, BoundMembers, TaggedAll, Bind, Agrees;
    var r := Denote(t, depth, inKey, env, cfg);
    if r.Ok? {
      match t
      case Plain(_, _, _, anchor, _, _) => BindAgrees(env, bound, anchor, r.value.node, true, cfg);
      case Ref(id, _) => RefAgrees(env, bound, id, cfg);
      case List(anchor, _, _, kids, _) =>
        var items := ItemsDenoted(kids, [], depth + 1, inKey, env, bound, cfg);
        assert [] + items == items;
        BindAgrees(DenoteItems(kids, [], depth + 1, inKey, env, cfg).value.1,
                   BoundItems(kids, items, bound, FileOf(cfg)), anchor, r.value.node, !inKey, cfg);
      case Dict(anchor, _, _, kids, end) =>
        var members := PairsDenoted(kids, end, [], depth + 1, inKey, env, bound, cfg);
        assert [] + members == members;
        BindAgrees(DenotePairs(kids, end, [], depth + 1, inKey, env, cfg).value.1,
                   BoundMembers(kids, members, bound, FileOf(cfg)), anchor, r.value.node, !inKey, cfg);
    }
  }

  lemma RefAgrees(env: Env, bound: Bindings, id: nat, cfg: Config)
    requires Agrees(env, bound, cfg) && id in env
    ensures id in bound && bound[id] == env[id].node
  {
  }

  lemma {:induction false} ItemsDenoted(kids: seq<Tree>, done: seq<Located>, depth: nat, inKey: bool, env: Env,
                                        bound: Bindings, cfg: Config) returns (items: seq<Located>)
    requires Agrees(env, bound, cfg) && DenoteItems(kids, done, depth, inKey, env, cfg).Ok?
    ensures DenoteItems(kids, done, depth, inKey, env, cfg).value.0 == done + items
    ensures DepictsItems(kids, items, bound, FileOf(cfg)) && TaggedAll(kids)
    ensures Agrees(DenoteItems(kids, done, depth, inKey, env, cfg).value.1, BoundItems(kids, items, bound, FileOf(cfg)),
                   cfg)
    decreases kids, 0
  {
    hide Denote, Depicts, Bound, Tagged, Agrees;
    items := [];
    if |kids| > 0 {
      Denoted(kids[0], depth, inKey, env, bound, cfg);
      var first := Denote(kids[0], depth, inKey, env, cfg).value;
      var rest := ItemsDenoted(kids[1..], done + [first.node], depth, inKey, first.env,
                               Bound(kids[0], first.node, bound, FileOf(cfg)), cfg);
      items := [first.node] + rest;
      assert done + items == done + [first.node] + rest;
      assert items[1..] == rest;
    }
  }

  lemma {:induction false} PairsDenoted(kids: seq<Tree>, end: Marker, done: seq<LocMember>, depth: nat, inKey: bool,
                                        env: Env, bound: Bindings, cfg: Config) returns (members: seq<LocMember>)
    requires Agrees(env, bound, cfg) && DenotePairs(kids, end, done, depth, inKey, env, cfg).Ok?
    ensures DenotePairs(kids, end, done, depth, inKey, env, cfg).value.0 == done + members
    ensures DepictsMembers(kids, members, bound, FileOf(cfg)) && TaggedAll(kids)
    ensures Agrees(DenotePairs(kids, end, done, depth, inKey, env, cfg).value.1,
                   BoundMembers(kids, members, bound, FileOf(cfg)), cfg)
    decreases kids, 0
  {
    hide Denote, Depicts, Bound, Tagged, Agrees, DenotePairs, DepictsMembers, BoundMembers;
    members := [];
    if |kids| == 0 {
      NoPairs(kids, end, done, depth, inKey, env, bound, cfg);
    } else {
      var file := FileOf(cfg);
      FirstPair(kids, end, done, depth, inKey, env, cfg);
      Denoted(kids[0], depth, true, env, bound, cfg);
      var key := Denote(kids[0], depth, true, env, cfg).value;
      StartsHere(kids[0], key.node, bound, file);
      Denoted(kids[1], depth, inKey, key.env, Bound(kids[0], key.node, bound, file), cfg);
      var value := Denote(kids[1], depth, inKey, key.env, cfg).value;
      StartsHere(kids[1], value.node, Bound(kids[0], key.node, bound, file), file);
      var member := LocMember(KeyName(key.node, done).value, value.node.(start := key.node.start));
      assert KeyNode(kids[0], member, file) == key.node;
      assert ValueNode(kids[1], member, file) == value.node;
      assert Agrees(value.env, BoundPair(kids, member, bound, file), cfg);
      var rest := PairsDenoted(kids[1..][1..], end, done + [member], depth, inKey, value.env,
                               BoundPair(kids, member, bound, file), cfg);
      members := [member] + rest;
      assert done + members == done + [member] + rest;
      PushDepicts(kids, member, rest, bound, file);
    }
  }

  lemma NoPairs(kids: seq<Tree>, end: Marker, done: seq<LocMember>, depth: nat, inKey: bool, env: Env,
                bound: Bindings, cfg: Config)
    requires |kids| == 0
    ensures DenotePairs(kids, end, done, depth, inKey, env, cfg) == Ok((done, env))
    ensures DepictsMembers(kids, [], bound, FileOf(cfg)) && BoundMembers(kids, [], bound, FileOf(cfg)) == bound
  {
  }

  lemma FirstPair(kids: seq<Tree>, end: Marker, done: seq<LocMember>, depth: nat, inKey: bool, env: Env, cfg: Config)
    requires |kids| > 0 && DenotePairs(kids, end, done, depth, inKey, env, cfg).Ok?
    ensures
      var key := Denote(kids[0], depth, true, env, cfg);
      && key.Ok? && KeyName(key.value.node, done).Ok? && |kids| > 1
      && key.value.node == LocLeaf(key.value.node.start, Text(KeyName(key.value.node, done).value))
      && var value := Denote(kids[1], depth, inKey, key.value.env, cfg);
         && value.Ok?
         && var member :=
              LocMember(KeyName(key.value.node, done).value, value.value.node.(start := key.value.node.start));
            DenotePairs(kids, end, done, depth, inKey, env, cfg) ==
            DenotePairs(kids[1..][1..], end, done + [member], depth, inKey, value.value.env, cfg)
  {
    hide Denote;
  }

  lemma PushDepicts(kids: seq<Tree>, member: LocMember, rest: seq<LocMember>, bound: Bindings, file: File)
    requires |kids| > 1 && member.node.start == file.Here(kids[0].at)
    requires Depicts(kids[0], KeyNode(kids[0], member, file), bound, file)
    requires Depicts(kids[1], ValueNode(kids[1], member, file), BoundKey(kids, member, bound, file), file)
    requires DepictsMembers(kids[1..][1..], rest, BoundPair(kids, member, bound, file), file)
    requires Tagged(kids[0]) && Tagged(kids[1]) && TaggedAll(kids[1..][1..])
    ensures DepictsMembers(kids, [member] + rest, bound, file) && TaggedAll(kids)
    ensures BoundMembers(kids, [member] + rest, bound, file) ==
            BoundMembers(kids[1..][1..], rest, BoundPair(kids, member, bound, file), file)
  {
    hide Depicts, Bound, Tagged;
    assert ([member] + rest)[1..] == rest;
  }

  lemma StartsHere(t: Tree, n: Located, bound: Bindings, file: File)
    requires Depicts(t, n, bound, file)
    ensures n.start == file.Here(t.at)
  {
  }

  // ----- what is depicted is evaluated -----

  /** No alias names 0, which means no anchor. */
  ghost predicate RealRefs(t: Tree) {
    match t
    case Plain(_, _, _, _, _, _) => true
    case Ref(id, _) => id != 0
    case List(_, _, _, kids, _) => AllRealRefs(kids)
    case Dict(_, _, _, kids, _) => AllRealRefs(kids)
  }

  ghost predicate AllRealRefs(kids: seq<Tree>) {
    |kids| > 0 ==> RealRefs(kids[0]) && AllRealRefs(kids[1..])
  }

  /** The environment holds exactly the bound nodes. */
  ghost predicate Matches(env: Env, bound: Bindings) {
    forall a :: a != 0 ==> (a in bound <==> a in env) && (a in env ==> bound[a] == env[a].node)
  }

  lemma BindMatches(env: Env, bound: Bindings, anchor: nat, n: Located, full: bool, cfg: Config)
    requires Matches(env, bound) && (anchor != 0 ==> anchor in cfg.keep)
    ensures Matches(Bind(env, anchor, n, full, cfg), bound[anchor := n])
  {
  }

  lemma RefMatches(env: Env, bound: Bindings, id: nat)
    requires Matches(env, bound) && id in bound && id != 0
    ensures id in env && bound[id] == env[id].node
  {
  }

  lemma {:induction false} Depicted(t: Tree, n: Located, depth: nat, inKey: bool, env: Env, bound: Bindings,
                                    cfg: Config)
    requires Matches(env, bound) && Declared(t) - {0} <= cfg.keep && RealRefs(t)
    requires Depicts(t, n, bound, FileOf(cfg)) && Tagged(t) && Proper(n)
    requires depth + Height(ValueOf(n)) <= MAX_DEPTH
    ensures var r := Denote(t, depth, inKey, env, cfg);
            r.Ok? && r.value.node == n && Matches(r.value.env, Bound(t, n, bound, FileOf(cfg)))
    decreases t, 1
  {
    hide Denote, DenoteItems, DenotePairs, DepictsItems, DepictsMembers, BoundItems, BoundMembers, TaggedAll,
      DeclaredAll, AllRealRefs, Bind, Matches, Proper, ItemsFit, MembersFit;
    match t
    case Plain(_, _, _, anchor, _, _) =>
      PlainEvaluates(t, n, depth, inKey, env, bound, cfg);
      BindMatches(env, bound, anchor, n, true, cfg);
    case Ref(id, at) =>
      RefMatches(env, bound, id);
      RefEvaluates(t, depth, inKey, env, cfg);
    case List(anchor, _, _, kids, _) =>
      assert Declared(t) == {anchor} + DeclaredAll(kids);
      ArrayFits(n, depth);
      ItemsDepicted(kids, n.items, [], depth + 1, inKey, env, bound, cfg);
      assert [] + n.items == n.items;
      ListEvaluates(t, depth, inKey, env, cfg);
      BindMatches(DenoteItems(kids, [], depth + 1, inKey, env, cfg).value.1,
                  BoundItems(kids, n.items, bound, FileOf(cfg)), anchor, n, !inKey, cfg);
    case Dict(anchor, _, _, kids, end) =>
      assert Declared(t) == {anchor} + DeclaredAll(kids);
      ObjectFits(n, depth);
      PairsDepicted(kids, end, n.members, [], depth + 1, inKey, env, bound, cfg);
      assert [] + n.members == n.members;
      DictEvaluates(t, depth, inKey, env, cfg);
      BindMatches(DenotePairs(kids, end, [], depth + 1, inKey, env, cfg).value.1,
                  BoundMembers(kids, n.members, bound, FileOf(cfg)), anchor, n, !inKey, cfg);
  }

  lemma PlainEvaluates(t: Tree, n: Located, depth: nat, inKey: bool, env: Env, bound: Bindings, cfg: Config)
    requires t.Plain? && depth <= MAX_DEPTH && Depicts(t, n, bound, FileOf(cfg)) && Tagged(t)
    ensures Denote(t, depth, inKey, env, cfg) == Ok(Evaluated(n, Bind(env, t.anchor, n, true, cfg)))
  {
  }

  lemma RefEvaluates(t: Tree, depth: nat, inKey: bool, env: Env, cfg: Config)
    requires t.Ref? && t.id in env && depth + Height(ValueOf(env[t.id].node.(start := At(t.at, cfg)))) <= MAX_DEPTH
    ensures Denote(t, depth, inKey, env, cfg) == Ok(Evaluated(env[t.id].node.(start := At(t.at, cfg)), env))
  {
    RestartedValue(env[t.id].node, At(t.at, cfg));
  }

  lemma ListEvaluates(t: Tree, depth: nat, inKey: bool, env: Env, cfg: Config)
    requires t.List? && depth <= MAX_DEPTH && Tagged(t)
    requires DenoteItems(t.kids, [], depth + 1, inKey, env, cfg).Ok?
    ensures
      var done := DenoteItems(t.kids, [], depth + 1, inKey, env, cfg).value;
      var node := LocArray(At(t.at, cfg), done.0);
      Denote(t, depth, inKey, env, cfg) == Ok(Evaluated(node, Bind(done.1, t.anchor, node, !inKey, cfg)))
  {
    hide DenoteItems;
  }

  lemma DictEvaluates(t: Tree, depth: nat, inKey: bool, env: Env, cfg: Config)
    requires t.Dict? && depth <= MAX_DEPTH && Tagged(t)
    requires DenotePairs(t.kids, t.end, [], depth + 1, inKey, env, cfg).Ok?
    ensures
      var done := DenotePairs(t.kids, t.end, [], depth + 1, inKey, env, cfg).value;
      var node := LocObject(At(t.at, cfg), done.0);
      Denote(t, depth, inKey, env, cfg) == Ok(Evaluated(node, Bind(done.1, t.anchor, node, !inKey, cfg)))
  {
    hide DenotePairs;
  }

  /** Proper items that fit below this depth. */
  ghost predicate ItemsFit(items: seq<Located>, depth: nat) {
    forall i :: 0 <= i < |items| ==> Proper(items[i]) && depth + Height(ValueOf(items[i])) <= MAX_DEPTH
  }

  lemma {:induction false} ItemsFitWithin(items: seq<Located>, depth: nat)
    requires depth + HeightAll(ValuesOf(items)) <= MAX_DEPTH
    ensures forall i :: 0 <= i < |items| ==> depth + 1 + Height(ValueOf(items[i])) <= MAX_DEPTH
    decreases |items|
  {
    if |items| > 0 { ItemsFitWithin(items[..|items| - 1], depth); }
  }

  lemma ArrayFits(n: Located, depth: nat)
    requires n.LocArray? && Proper(n) && depth + Height(ValueOf(n)) <= MAX_DEPTH
    ensures ItemsFit(n.items, depth + 1)
  {
    ItemsFitWithin(n.items, depth);
  }

  lemma {:induction false} ItemsDepicted(kids: seq<Tree>, items: seq<Located>, done: seq<Located>, depth: nat,
                                         inKey: bool, env: Env, bound: Bindings, cfg: Config)
    requires Matches(env, bound) && DeclaredAll(kids) - {0} <= cfg.keep && AllRealRefs(kids)
    requires DepictsItems(kids, items, bound, FileOf(cfg)) && TaggedAll(kids) && ItemsFit(items, depth)
    ensures var r := DenoteItems(kids, done, depth, inKey, env, cfg);
            r.Ok? && r.value.0 == done + items && Matches(r.value.1, BoundItems(kids, items, bound, FileOf(cfg)))
    decreases kids, 0
  {
    hide Denote, Depicts, Bound, Tagged, Declared, RealRefs, Matches, Proper;
    if |kids| > 0 {
      var first := items[0];
      Depicted(kids[0], first, depth, inKey, env, bound, cfg);
      ItemsDepicted(kids[1..], items[1..], done + [first], depth, inKey,
                    Denote(kids[0], depth, inKey, env, cfg).value.env, Bound(kids[0], first, bound, FileOf(cfg)), cfg);
      assert done + items == done + [first] + items[1..];
    }
  }

  /** Members with distinct new keys, whose values fit below this depth. */
  ghost predicate MembersFit(members: seq<LocMember>, done: seq<LocMember>, depth: nat) {
    && (forall i :: 0 <= i < |members| ==>
          Proper(members[i].node) && depth + Height(ValueOf(members[i].node)) <= MAX_DEPTH)
    && (forall i, j :: 0 <= i < j < |members| ==> members[i].key != members[j].key)
    && (forall i :: 0 <= i < |members| ==> !HasMember(done, members[i].key))
  }

  lemma {:induction false} MembersFitWithin(members: seq<LocMember>, depth: nat)
    requires depth + HeightMembers(MembersOf(members)) <= MAX_DEPTH
    ensures forall i :: 0 <= i < |members| ==> depth + 1 + Height(ValueOf(members[i].node)) <= MAX_DEPTH
    decreases |members|
  {
    if |members| > 0 { MembersFitWithin(members[..|members| - 1], depth); }
  }

  lemma ObjectFits(n: Located, depth: nat)
    requires n.LocObject? && Proper(n) && depth + Height(ValueOf(n)) <= MAX_DEPTH
    ensures MembersFit(n.members, [], depth + 1)
  {
    MembersFitWithin(n.members, depth);
  }

  lemma MembersFitNext(members: seq<LocMember>, done: seq<LocMember>, depth: nat)
    requires |members| > 0 && MembersFit(members, done, depth)
    ensures MembersFit(members[1..], done + [members[0]], depth)
  {
    forall i | 0 <= i < |members| - 1
      ensures !HasMember(done + [members[0]], members[1..][i].key)
    {
      assert !HasMember(done, members[i + 1].key) && members[0].key != members[i + 1].key;
    }
  }

  lemma {:induction false} PairsDepicted(kids: seq<Tree>, end: Marker, members: seq<LocMember>, done: seq<LocMember>,
                                         depth: nat, inKey: bool, env: Env, bound: Bindings, cfg: Config)
    requires Matches(env, bound) && DeclaredAll(kids) - {0} <= cfg.keep && AllRealRefs(kids)
    requires DepictsMembers(kids, members, bound, FileOf(cfg)) && TaggedAll(kids) && MembersFit(members, done, depth)
    ensures var r := DenotePairs(kids, end, done, depth, inKey, env, cfg);
            r.Ok? && r.value.0 == done + members && Matches(r.value.1, BoundMembers(kids, members, bound, FileOf(cfg)))
    decreases kids, 0
  {
    hide Denote, Depicts, Bound, Tagged, Declared, RealRefs, Matches, Proper, MembersFit;
    if |kids| > 0 {
      var (file, member) := (FileOf(cfg), members[0]);
      FirstFits(members, done, depth, file.Here(kids[1].at));
      var (key, value) := (KeyNode(kids[0], member, file), ValueNode(kids[1], member, file));
      LeafProper(key);
      Depicted(kids[0], key, depth, true, env, bound, cfg);
      var afterKey := Denote(kids[0], depth, true, env, cfg).value.env;
      Depicted(kids[1], value, depth, inKey, afterKey, BoundKey(kids, member, bound, file), cfg);
      var afterValue := Denote(kids[1], depth, inKey, afterKey, cfg).value.env;
      assert KeyName(key, done) == Ok(member.key);
      assert LocMember(member.key, value.(start := key.start)) == member;
      MembersFitNext(members, done, depth);
      PairsDepicted(kids[1..][1..], end, members[1..], done + [member], depth, inKey, afterValue,
                    BoundPair(kids, member, bound, file), cfg);
      assert done + members == done + [member] + members[1..];
    }
  }

  lemma LeafProper(n: Located)
    requires n.LocLeaf?
    ensures Proper(n) && Height(ValueOf(n)) == 0
  {
  }

  lemma FirstFits(members: seq<LocMember>, done: seq<LocMember>, depth: nat, start: Location)
    requires |members| > 0 && MembersFit(members, done, depth)
    ensures !HasMember(done, members[0].key) && depth <= MAX_DEPTH
    ensures Proper(members[0].node.(start := start))
    ensures depth + Height(ValueOf(members[0].node.(start := start))) <= MAX_DEPTH
  {
    RestartedProper(members[0].node, start);
    RestartedValue(members[0].node, start);
  }

  // ----- whole documents -----

  /** Whatever anchors are kept, an accepted stream is a valid document, built as it reads. */
  lemma BuiltReads(tokens: seq<Token>, cfg: Config) returns (t: Tree, rest: seq<Token>, n: Located)
    requires Run(Before, tokens, cfg).Built?
    ensures IsDocument(tokens, t, rest) && Reading(t, n, FileOf(cfg))
    ensures Run(Before, tokens, cfg) == Built(ValueOf(n), PlacesAt(n, ROOT))
  {
    hide Run, IsDocument, Depicts, Tagged, Proper;
    t, rest := AcceptedIsDocument(tokens, cfg);
    DocumentMeaning(tokens, t, rest, cfg);
    Denoted(t, 0, false, map[], map[], cfg);
    Sound(t, 0, false, map[], cfg);
    n := Denote(t, 0, false, map[], cfg).value.node;
  }

  /** A builder that keeps every anchor accepts each valid document, and builds it as it reads. */
  lemma ReadingBuilt(tokens: seq<Token>, t: Tree, rest: seq<Token>, n: Located, cfg: Config)
    requires IsDocument(tokens, t, rest) && Reading(t, n, FileOf(cfg))
    requires Declared(t) - {0} <= cfg.keep && RealRefs(t)
    ensures Run(Before, tokens, cfg) == Built(ValueOf(n), PlacesAt(n, ROOT))
  {
    hide Run, IsDocument, Depicts, Tagged, Proper;
    DocumentMeaning(tokens, t, rest, cfg);
    Depicted(t, n, 0, false, map[], map[], cfg);
  }
}

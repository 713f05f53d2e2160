// The meaning of a YAML document tree, and that the frame stack computes it.

module YamlTree {
  import opened Common
  import opened Pointers
  import opened YamlValues
  import opened YamlMachine

  // ----- document trees and their events -----

  /** A document as a tree; every node carries the markers of its events.
      A mapping's children alternate between keys and values. */
  datatype Tree =
    | Plain(text: string, decoded: Option<Atom>, plain: bool, anchor: nat, tag: Option<Tag>, at: Marker)
    | Ref(id: nat, at: Marker)
    | List(anchor: nat, tag: Option<Tag>, at: Marker, kids: seq<Tree>, end: Marker)
    | Dict(anchor: nat, tag: Option<Tag>, at: Marker, kids: seq<Tree>, end: Marker)

  /** The first event of a tree. */
  function Head(t: Tree): Event {
    match t
    case Plain(text, decoded, plain, anchor, tag, _) => Scalar(text, decoded, plain, anchor, tag)
    case Ref(id, _) => Alias(id)
    case List(anchor, tag, _, _, _) => SequenceStart(anchor, tag)
    case Dict(anchor, tag, _, _, _) => MappingStart(anchor, tag)
  }

  function Flatten(t: Tree): (tokens: seq<Token>)
    ensures |tokens| > 0
  {
    match t
    case Plain(_, _, _, _, _, at) => [Token(Head(t), at)]
    case Ref(_, at) => [Token(Head(t), at)]
    case List(_, _, at, kids, end) => [Token(Head(t), at)] + (FlattenAll(kids) + [Token(SequenceEnd, end)])
    case Dict(_, _, at, kids, end) => [Token(Head(t), at)] + (FlattenAll(kids) + [Token(MappingEnd, end)])
  }

  function FlattenAll(kids: seq<Tree>): seq<Token> {
    if |kids| == 0 then [] else Flatten(kids[0]) + FlattenAll(kids[1..])
  }

  /** The anchors that a tree declares. */
  function Declared(t: Tree): set<nat> {
    match t
    case Plain(_, _, _, anchor, _, _) => {anchor}
    case Ref(_, _) => {}
    case List(anchor, _, _, kids, _) => {anchor} + DeclaredAll(kids)
    case Dict(anchor, _, _, kids, _) => {anchor} + DeclaredAll(kids)
  }

  function DeclaredAll(kids: seq<Tree>): set<nat> {
    if |kids| == 0 then {} else Declared(kids[0]) + DeclaredAll(kids[1..])
  }

  // ----- located values -----

  /** A value whose every node knows its location. */
  datatype Located =
    | LocLeaf(start: Location, atom: Atom)
    | LocArray(start: Location, items: seq<Located>)
    | LocObject(start: Location, members: seq<LocMember>)

  datatype LocMember = LocMember(key: string, node: Located)

  function ValueOf(n: Located): Value {
    match n
    case LocLeaf(_, atom) => Leaf(atom)
    case LocArray(_, items) => Array(ValuesOf(items))
    case LocObject(_, members) => Object(MembersOf(members))
  }

  function ValuesOf(items: seq<Located>): (values: seq<Value>)
    ensures |values| == |items|
  {
    if |items| == 0 then [] else ValuesOf(items[..|items| - 1]) + [ValueOf(items[|items| - 1])]
  }

  function MembersOf(members: seq<LocMember>): (values: seq<Member>)
    ensures |values| == |members|
  {
    if |members| == 0 then []
    else
      var last := members[|members| - 1];
      MembersOf(members[..|members| - 1]) + [Member(last.key, ValueOf(last.node))]
  }

  /** Every node's location by its path below `at`. */
  function PlacesAt(n: Located, at: Path): Places {
    match n
    case LocLeaf(start, _) => map[at := Some(start)]
    case LocArray(start, items) => map[at := Some(start)] + ItemPlaces(items, at)
    case LocObject(start, members) => map[at := Some(start)] + MemberPlaces(members, at)
  }

  function ItemPlaces(items: seq<Located>, at: Path): Places {
    if |items| == 0 then map[]
    else ItemPlaces(items[..|items| - 1], at) + PlacesAt(items[|items| - 1], at + [Decimal(|items| - 1)])
  }

  function MemberPlaces(members: seq<LocMember>, at: Path): Places {
    if |members| == 0 then map[]
    else
      var last := members[|members| - 1];
      MemberPlaces(members[..|members| - 1], at) + PlacesAt(last.node, at + [Escape(last.key)])
  }

  // ----- the recursive evaluator -----

  /** An anchored node. Inside a mapping key only its own location is kept. */
  datatype Kept = Kept(node: Located, full: bool)

  type Env = map<nat, Kept>

  datatype Evaluated = Evaluated(node: Located, env: Env)

  /** Only the configured anchors are bound; without them an alias is unknown. */
  function Bind(env: Env, anchor: nat, node: Located, full: bool, cfg: Config): Env {
    if anchor in cfg.keep then env[anchor := Kept(node, full)] else env
  }

  predicate HasMember(members: seq<LocMember>, key: string) {
    exists i :: 0 <= i < |members| && members[i].key == key
  }

  /** Evaluate a tree at a depth, in the anchors declared before it. */
  function Denote(t: Tree, depth: nat, inKey: bool, env: Env, cfg: Config): Result<Evaluated> {
    var _ :- Within(depth, t.at, cfg);
    match t
    case Plain(_, _, _, anchor, tag, at) =>
      var _ :- CheckTag(tag, at, cfg);
      var atom :- Decode(Head(t), at, cfg);
      var node := LocLeaf(At(at, cfg), atom);
      Ok(Evaluated(node, Bind(env, anchor, node, true, cfg)))
    case Ref(id, at) =>
      if id !in env then Err(Issue(UnknownAlias, At(at, cfg)))
      else
        var _ :- Within(depth + Height(ValueOf(env[id].node)), at, cfg);
        Ok(Evaluated(env[id].node.(start := At(at, cfg)), env))
    case List(anchor, tag, at, kids, _) =>
      var _ :- CheckTag(tag, at, cfg);
      var done :- DenoteItems(kids, [], depth + 1, inKey, env, cfg);
      var node := LocArray(At(at, cfg), done.0);
      Ok(Evaluated(node, Bind(done.1, anchor, node, !inKey, cfg)))
    case Dict(anchor, tag, at, kids, end) =>
      var _ :- CheckTag(tag, at, cfg);
      var done :- DenotePairs(kids, end, [], depth + 1, inKey, env, cfg);
      var node := LocObject(At(at, cfg), done.0);
      Ok(Evaluated(node, Bind(done.1, anchor, node, !inKey, cfg)))
  }

  function DenoteItems(kids: seq<Tree>, done: seq<Located>, depth: nat, inKey: bool, env: Env, cfg: Config):
    Result<(seq<Located>, Env)>
  {
    if |kids| == 0 then Ok((done, env))
    else
      var first :- Denote(kids[0], depth, inKey, env, cfg);
      DenoteItems(kids[1..], done + [first.node], depth, inKey, first.env, cfg)
  }

  /** A key must be a new string and have a value, which takes the key's location. */
  function DenotePairs(kids: seq<Tree>, end: Marker, done: seq<LocMember>, depth: nat, inKey: bool, env: Env,
                       cfg: Config):
    Result<(seq<LocMember>, Env)>
  {
    if |kids| == 0 then Ok((done, env))
    else
      var key :- Denote(kids[0], depth, true, env, cfg);
      var name :- KeyName(key.node, done);
      DenoteValue(kids[1..], name, key.node.start, end, done, depth, inKey, key.env, cfg)
  }

  /** The value of the key `name`, and the members after it. */
  function DenoteValue(kids: seq<Tree>, name: string, at: Location, end: Marker, done: seq<LocMember>, depth: nat,
                       inKey: bool, env: Env, cfg: Config): Result<(seq<LocMember>, Env)>
  {
    if |kids| == 0 then Err(Issue(ExpectedValue, At(end, cfg)))
    else
      var value :- Denote(kids[0], depth, inKey, env, cfg);
      var member := LocMember(name, value.node.(start := at));
      DenotePairs(kids[1..], end, done + [member], depth, inKey, value.env, cfg)
  }

  function KeyName(key: Located, done: seq<LocMember>): Result<string> {
    var name := ValueOf(key);
    if !(name.Leaf? && name.atom.Text?) then Err(Issue(NotString, key.start))
    else if HasMember(done, name.atom.s) then Err(Issue(Duplicate(name.atom.s), key.start))
    else Ok(name.atom.s)
  }

  // ----- the builder's view of the evaluator's results -----

  ghost predicate AllFull(env: Env) {
    forall a :: a in env ==> env[a].full
  }

  /** The builder's anchor for a kept node. */
  function Remember(kept: Kept): Anchor {
    Anchor(ValueOf(kept.node),
           if kept.full then PlacesAt(kept.node, ROOT) else map[ROOT := Some(kept.node.start)],
           Height(ValueOf(kept.node)))
  }

  function Remembered(env: Env): Anchors {
    map a | a in env :: Remember(env[a])
  }

  function Recorded(places: Places, slot: Option<Path>, node: Located): Places {
    if slot.Some? then places + PlacesAt(node, slot.value) else places
  }

  /** The builder after a node: its value joins the frame below it. */
  function Delivered(frames: seq<Frame>, places: Places, node: Located, env: Env): State {
    Complete(frames, Recorded(places, TargetSlot(frames), node), Remembered(env), ValueOf(node), node.start)
  }

  // ----- paths of places -----

  lemma {:induction false} PlacesShift(n: Located, at: Path, q: Path)
    ensures q in PlacesAt(n, at) <==> at <= q && q[|at|..] in PlacesAt(n, ROOT)
    ensures q in PlacesAt(n, at) ==> PlacesAt(n, at)[q].Some? && PlacesAt(n, at)[q] == PlacesAt(n, ROOT)[q[|at|..]]
    decreases n
  {
    match n
    case LocLeaf(_, _) =>
      assert at <= q && q[|at|..] == ROOT ==> q == at;
    case LocArray(_, items) =>
      ItemShift(items, at, q);
      assert at <= q && q[|at|..] == ROOT ==> q == at;
    case LocObject(_, members) =>
      MemberShift(members, at, q);
      assert at <= q && q[|at|..] == ROOT ==> q == at;
  }

  lemma StepShift(n: Located, at: Path, segment: string, q: Path)
    requires q in PlacesAt(n, at + [segment]) <==> at + [segment] <= q && q[|at| + 1..] in PlacesAt(n, ROOT)
    requires q in PlacesAt(n, at + [segment]) ==> PlacesAt(n, at + [segment])[q].Some?
    requires q in PlacesAt(n, at + [segment]) ==> PlacesAt(n, at + [segment])[q] == PlacesAt(n, ROOT)[q[|at| + 1..]]
    requires at <= q ==>
               (q[|at|..] in PlacesAt(n, ROOT + [segment]) <==>
                  [segment] <= q[|at|..] && q[|at|..][1..] in PlacesAt(n, ROOT))
    requires at <= q && q[|at|..] in PlacesAt(n, ROOT + [segment]) ==>
               PlacesAt(n, ROOT + [segment])[q[|at|..]] == PlacesAt(n, ROOT)[q[|at|..][1..]]
    ensures q in PlacesAt(n, at + [segment]) <==> at <= q && q[|at|..] in PlacesAt(n, ROOT + [segment])
    ensures q in PlacesAt(n, at + [segment]) ==>
              PlacesAt(n, at + [segment])[q] == PlacesAt(n, ROOT + [segment])[q[|at|..]]
  {
  }

  lemma {:induction false} ItemShift(items: seq<Located>, at: Path, q: Path)
    ensures q in ItemPlaces(items, at) <==> at <= q && q[|at|..] in ItemPlaces(items, ROOT)
    ensures q in ItemPlaces(items, at) ==> at < q
    ensures q in ItemPlaces(items, at) ==> ItemPlaces(items, at)[q].Some?
    ensures q in ItemPlaces(items, at) ==> ItemPlaces(items, at)[q] == ItemPlaces(items, ROOT)[q[|at|..]]
    decreases items
  {
    if |items| > 0 {
      var last := items[|items| - 1];
      var segment := Decimal(|items| - 1);
      ItemShift(items[..|items| - 1], at, q);
      PlacesShift(last, at + [segment], q);
      if at <= q {
        PlacesShift(last, ROOT + [segment], q[|at|..]);
      }
      StepShift(last, at, segment, q);
    }
  }

  lemma {:induction false} MemberShift(members: seq<LocMember>, at: Path, q: Path)
    ensures q in MemberPlaces(members, at) <==> at <= q && q[|at|..] in MemberPlaces(members, ROOT)
    ensures q in MemberPlaces(members, at) ==> at < q
    ensures q in MemberPlaces(members, at) ==> MemberPlaces(members, at)[q].Some?
    ensures q in MemberPlaces(members, at) ==> MemberPlaces(members, at)[q] == MemberPlaces(members, ROOT)[q[|at|..]]
    decreases members
  {
    if |members| > 0 {
      var last := members[|members| - 1];
      var segment := Escape(last.key);
      MemberShift(members[..|members| - 1], at, q);
      PlacesShift(last.node, at + [segment], q);
      if at <= q {
        PlacesShift(last.node, ROOT + [segment], q[|at|..]);
      }
      StepShift(last.node, at, segment, q);
    }
  }

  // ----- places of a growing container -----

  /** Nothing is recorded strictly below the slot. */
  ghost predicate Fresh(places: Places, slot: Option<Path>) {
    slot.Some? ==> forall q :: q in places ==> !(slot.value < q)
  }

  lemma Restarted(n: Located, at: Path, start: Location)
    ensures PlacesAt(n.(start := start), at) == PlacesAt(n, at)[at := Some(start)]
  {
    if n.LocArray? { ItemShift(n.items, at, at); }
    if n.LocObject? { MemberShift(n.members, at, at); }
  }

  lemma HasRoot(n: Located, at: Path)
    ensures at in PlacesAt(n, at) && PlacesAt(n, at)[at] == Some(n.start)
  {
    Restarted(n, at, n.start);
  }

  lemma Sum(a: Places, b: Places, c: Places)
    ensures a + b + c == a + (b + c)
  {
  }

  lemma PushItem(base: Places, at: Path, start: Location, done: seq<Located>, n: Located)
    ensures base + PlacesAt(LocArray(start, done), at) + PlacesAt(n, at + [Decimal(|done|)])
         == base + PlacesAt(LocArray(start, done + [n]), at)
  {
    var all := done + [n];
    assert all[..|all| - 1] == done;
    Sum(map[at := Some(start)], ItemPlaces(done, at), PlacesAt(n, at + [Decimal(|done|)]));
    Sum(base, PlacesAt(LocArray(start, done), at), PlacesAt(n, at + [Decimal(|done|)]));
  }

  lemma PushMember(base: Places, at: Path, start: Location, done: seq<LocMember>, member: LocMember)
    ensures base + PlacesAt(LocObject(start, done), at) + PlacesAt(member.node, at + [Escape(member.key)])
         == base + PlacesAt(LocObject(start, done + [member]), at)
  {
    var all := done + [member];
    var p := PlacesAt(member.node, at + [Escape(member.key)]);
    assert all[..|all| - 1] == done;
    Sum(map[at := Some(start)], MemberPlaces(done, at), p);
    Sum(base, PlacesAt(LocObject(start, done), at), p);
  }

  /** The next item's slot is new, because decimal indices are distinct. */
  lemma {:induction false} FreshItem(done: seq<Located>, index: nat, at: Path, q: Path)
    requires |done| <= index
    requires q in ItemPlaces(done, at)
    ensures !(at + [Decimal(index)] <= q)
    decreases |done|
  {
    var last := |done| - 1;
    if q in PlacesAt(done[last], at + [Decimal(last)]) {
      PlacesShift(done[last], at + [Decimal(last)], q);
      DecimalRoundTrip(last);
      DecimalRoundTrip(index);
      assert q[|at|] == Decimal(last);
    } else {
      FreshItem(done[..last], index, at, q);
    }
  }

  /** A new key's slot is new, because escaped keys are distinct. */
  lemma {:induction false} FreshMember(done: seq<LocMember>, key: string, at: Path, q: Path)
    requires !HasMember(done, key)
    requires q in MemberPlaces(done, at)
    ensures !(at + [Escape(key)] <= q)
    decreases |done|
  {
    var last := done[|done| - 1];
    if q in PlacesAt(last.node, at + [Escape(last.key)]) {
      PlacesShift(last.node, at + [Escape(last.key)], q);
      assert q[|at|] == Escape(last.key);
      if Escape(key) == Escape(last.key) { EscapeInjective(key, last.key); }
    } else {
      FreshMember(done[..|done| - 1], key, at, q);
    }
  }

  lemma FreshArray(base: Places, at: Path, start: Location, done: seq<Located>)
    requires Fresh(base, Some(at))
    ensures Fresh(base + PlacesAt(LocArray(start, done), at), Some(at + [Decimal(|done|)]))
  {
    var path := at + [Decimal(|done|)];
    forall q | q in base + PlacesAt(LocArray(start, done), at)
      ensures !(path < q)
    {
      if q in ItemPlaces(done, at) { FreshItem(done, |done|, at, q); }
    }
  }

  lemma FreshObject(base: Places, at: Path, start: Location, done: seq<LocMember>, key: string)
    requires Fresh(base, Some(at)) && !HasMember(done, key)
    ensures var path := at + [Escape(key)];
            Fresh(AddChild(base + PlacesAt(LocObject(start, done), at), path), Some(path))
  {
    var path := at + [Escape(key)];
    forall q | q in base + PlacesAt(LocObject(start, done), at)
      ensures !(path < q)
    {
      if q in MemberPlaces(done, at) { FreshMember(done, key, at, q); }
    }
  }

  /** A child's slot is created before its places are recorded. */
  lemma Absorbed(places: Places, path: Path, n: Located)
    ensures AddChild(places, path) + PlacesAt(n, path) == places + PlacesAt(n, path)
  {
  }

  /** The copy of an anchored node holds exactly the node's own places. */
  lemma KeptCopy(base: Places, at: Path, n: Located)
    requires Fresh(base, Some(at))
    ensures at in base + PlacesAt(n, at)
    ensures Subtree(base + PlacesAt(n, at), at) == PlacesAt(n, ROOT)
  {
    var places := base + PlacesAt(n, at);
    HasRoot(n, at);
    HasRoot(n, ROOT);
    var copy := Subtree(places, at);
    forall q
      ensures q in copy <==> q in PlacesAt(n, ROOT)
      ensures q in copy ==> copy[q] == PlacesAt(n, ROOT)[q]
    {
      PlacesShift(n, at, at + q);
      assert (at + q)[|at|..] == q;
      if q != ROOT {
        assert at < at + q && ROOT < q;
        assert at + q[|ROOT|..] == at + q;
        if q in copy {
          assert q in Targets(ROOT, places, at);
          var r :| r in places && at < r && ROOT + r[|at|..] == q;
          assert r == at + q;
        }
        if at + q in places {
          assert ROOT + (at + q)[|at|..] == q;
        }
      }
    }
  }

  lemma TargetOf(source: Places, at: Path, q: Path)
    ensures q in Targets(at, source, ROOT) <==> at < q && q[|at|..] in source
  {
    if q in Targets(at, source, ROOT) {
      var r :| r in source && ROOT < r && at + r[|ROOT|..] == q;
      assert r[|ROOT|..] == r && q[|at|..] == r;
    }
    if at < q && q[|at|..] in source {
      var r := q[|at|..];
      assert ROOT < r && r[|ROOT|..] == r && at + r == q;
    }
  }

  lemma GraftOne(places: Places, at: Path, n: Located, q: Path)
    requires q != at
    ensures var g := Graft(places, at, PlacesAt(n, ROOT), ROOT);
            var w := places + PlacesAt(n, at);
            (q in g <==> q in w) && (q in g ==> g[q] == w[q])
  {
    var source := PlacesAt(n, ROOT);
    TargetOf(source, at, q);
    PlacesShift(n, at, q);
    if at < q {
      assert ROOT + q[|at|..] == q[|at|..];
      PlacesShift(n, ROOT, q[|at|..]);
    }
  }

  lemma SameBut(g: Places, places: Places, p: Places, at: Path, start: Location)
    requires forall q | q != at :: q in g <==> q in places + p
    requires forall q | q != at && q in g :: g[q] == (places + p)[q]
    ensures g[at := Some(start)] == places + p[at := Some(start)]
  {
  }

  /** Grafting a kept node and setting the alias's location records the copy. */
  lemma Grafted(places: Places, at: Path, n: Located, start: Location)
    ensures SetAt(Graft(places, at, PlacesAt(n, ROOT), ROOT), at, start) == places + PlacesAt(n.(start := start), at)
  {
    Restarted(n, at, start);
    var g := Graft(places, at, PlacesAt(n, ROOT), ROOT);
    var p := PlacesAt(n, at);
    forall q | q != at
      ensures q in g <==> q in places + p
      ensures q in g ==> g[q] == (places + p)[q]
    {
      GraftOne(places, at, n, q);
    }
    SameBut(g, places, p, at, start);
  }
}

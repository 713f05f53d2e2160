// Decoded YAML values and the work-list machines over them (yaml_value.rs).

module YamlValues {
  import opened Common

  /** What scalar decoding yields: JSON data that is not a container. */
  datatype Atom = Null | Bool(b: bool) | Number(n: real) | Text(s: string)

  /** A JSON value. An object holds its members in insertion order. */
  datatype Value =
    | Leaf(atom: Atom)
    | Array(items: seq<Value>)
    | Object(members: seq<Member>)

  datatype Member = Member(key: string, value: Value)

  function Values(members: seq<Member>): (values: seq<Value>)
    ensures |values| == |members|
  {
    seq(|members|, i requires 0 <= i < |members| => members[i].value)
  }

  function Keys(members: seq<Member>): (keys: seq<string>)
    ensures |keys| == |members|
  {
    seq(|members|, i requires 0 <= i < |members| => members[i].key)
  }

  /** The values one level below; an object's keys are not levels of the value. */
  function Kids(v: Value): seq<Value> {
    match v
    case Leaf(_) => []
    case Array(items) => items
    case Object(members) => Values(members)
  }

  // ----- recursive measures -----

  /** The height of a value: 0 for a leaf, mapping keys not counted. */
  function Height(v: Value): nat {
    match v
    case Leaf(_) => 0
    case Array(items) => HeightAll(items)
    case Object(members) => HeightMembers(members)
  }

  function HeightAll(values: seq<Value>): nat {
    if |values| == 0 then 0
    else Max(HeightAll(values[..|values| - 1]), Height(values[|values| - 1]) + 1)
  }

  function HeightMembers(members: seq<Member>): nat {
    if |members| == 0 then 0
    else Max(HeightMembers(members[..|members| - 1]), Height(members[|members| - 1].value) + 1)
  }

  /** Every node of a value, mapping keys included. */
  function Nodes(v: Value): nat {
    match v
    case Leaf(_) => 1
    case Array(items) => 1 + NodesAll(items)
    case Object(members) => 1 + NodesMembers(members)
  }

  function NodesAll(values: seq<Value>): nat {
    if |values| == 0 then 0
    else NodesAll(values[..|values| - 1]) + Nodes(values[|values| - 1])
  }

  function NodesMembers(members: seq<Member>): nat {
    if |members| == 0 then 0
    else NodesMembers(members[..|members| - 1]) + 1 + Nodes(members[|members| - 1].value)
  }

  /** The nodes that a release visits: mapping keys are not values. */
  function Size(v: Value): nat {
    match v
    case Leaf(_) => 1
    case Array(items) => 1 + SizeAll(items)
    case Object(members) => 1 + SizeMembers(members)
  }

  function SizeAll(values: seq<Value>): nat {
    if |values| == 0 then 0 else SizeAll(values[..|values| - 1]) + Size(values[|values| - 1])
  }

  function SizeMembers(members: seq<Member>): nat {
    if |members| == 0 then 0 else SizeMembers(members[..|members| - 1]) + Size(members[|members| - 1].value)
  }

  lemma {:induction false} MembersMeasure(members: seq<Member>)
    ensures HeightMembers(members) == HeightAll(Values(members))
    ensures SizeMembers(members) == SizeAll(Values(members))
  {
    if |members| > 0 {
      var init := members[..|members| - 1];
      assert Values(members)[..|members| - 1] == Values(init);
      MembersMeasure(init);
    }
  }

  lemma KidsMeasure(v: Value)
    ensures Height(v) == HeightAll(Kids(v))
    ensures Size(v) == 1 + SizeAll(Kids(v))
  {
    if v.Object? { MembersMeasure(v.members); }
  }

  lemma {:induction false} SizeAllSum(a: seq<Value>, b: seq<Value>)
    ensures SizeAll(a + b) == SizeAll(a) + SizeAll(b)
  {
    if |b| == 0 {
      assert a + b == a;
    } else {
      var init := b[..|b| - 1];
      assert (a + b)[..|a + b| - 1] == a + init;
      SizeAllSum(a, init);
    }
  }

  // ----- release -----

  /** The loop's turns are the value's nodes, so it ends whatever the nesting. */
  method Discard(value: Value) returns (ghost released: nat)
    ensures released == Size(value)
  {
    var pending := [value];
    released := 0;
    assert pending[..0] == [];
    while |pending| > 0
      invariant released + SizeAll(pending) == Size(value)
      decreases SizeAll(pending)
    {
      var last := pending[|pending| - 1];
      pending := pending[..|pending| - 1];
      released := released + 1;
      KidsMeasure(last);
      SizeAllSum(pending, Kids(last));
      pending := pending + Kids(last);
    }
  }

  // ----- height -----

  datatype Visit = Visit(value: Value, depth: nat)

  function Below(values: seq<Value>, depth: nat): (visits: seq<Visit>)
    ensures |visits| == |values|
  {
    seq(|values|, i requires 0 <= i < |values| => Visit(values[i], depth))
  }

  ghost function Deepest(pending: seq<Visit>): nat {
    if |pending| == 0 then 0
    else Max(Deepest(pending[..|pending| - 1]), pending[|pending| - 1].depth + Height(pending[|pending| - 1].value))
  }

  ghost function Waiting(pending: seq<Visit>): nat {
    if |pending| == 0 then 0
    else Waiting(pending[..|pending| - 1]) + Size(pending[|pending| - 1].value)
  }

  lemma {:induction false} DeepestBelow(pending: seq<Visit>, values: seq<Value>, depth: nat)
    ensures Waiting(pending + Below(values, depth + 1)) == Waiting(pending) + SizeAll(values)
    ensures Max(depth, Deepest(pending + Below(values, depth + 1)))
         == Max(Deepest(pending), depth + HeightAll(values))
  {
    var all := pending + Below(values, depth + 1);
    if |values| == 0 {
      assert all == pending;
    } else {
      var init := values[..|values| - 1];
      assert all[..|all| - 1] == pending + Below(init, depth + 1);
      DeepestBelow(pending, init, depth);
    }
  }

  /** The work-list height is the recursive height. */
  method HeightOf(value: Value) returns (deepest: nat)
    ensures deepest == Height(value)
  {
    deepest := 0;
    var pending := [Visit(value, 0)];
    assert pending[..0] == [];
    while |pending| > 0
      invariant Max(deepest, Deepest(pending)) == Height(value)
      decreases Waiting(pending)
    {
      var last := pending[|pending| - 1];
      pending := pending[..|pending| - 1];
      deepest := Max(deepest, last.depth);
      KidsMeasure(last.value);
      DeepestBelow(pending, Kids(last.value), last.depth);
      pending := pending + Below(Kids(last.value), last.depth + 1);
    }
  }

  // ----- copy -----

  /** An entry of the copier's stack: a value still to copy, or a container whose children are built. */
  datatype Task = Look(value: Value) | Items(count: nat) | Members(source: seq<Member>)

  /** A source object's keys, each with the built value at its place. */
  function Zip(source: seq<Member>, values: seq<Value>): (members: seq<Member>)
    requires |source| == |values|
    ensures |members| == |source|
  {
    seq(|source|, i requires 0 <= i < |source| => Member(source[i].key, values[i]))
  }

  function Looks(values: seq<Value>): (steps: seq<Task>)
    ensures |steps| == |values|
  {
    seq(|values|, i requires 0 <= i < |values| => Look(values[|values| - 1 - i]))
  }

  /** What the remaining tasks build when every visit yields its own value. */
  ghost function Finish(pending: seq<Task>, built: seq<Value>): Option<seq<Value>> {
    if |pending| == 0 then
      Some(built)
    else
      var rest := pending[..|pending| - 1];
      match pending[|pending| - 1]
      case Look(value) => Finish(rest, built + [value])
      case Items(count) =>
        if count > |built| then None
        else Finish(rest, built[..|built| - count] + [Array(built[|built| - count..])])
      case Members(source) =>
        if |source| > |built| then None
        else Finish(rest, built[..|built| - |source|] + [Object(Zip(source, built[|built| - |source|..]))])
  }

  ghost function TaskWork(task: Task): nat {
    if task.Look? then 2 * Size(task.value) else 1
  }

  ghost function Work(pending: seq<Task>): nat {
    if |pending| == 0 then 0
    else Work(pending[..|pending| - 1]) + TaskWork(pending[|pending| - 1])
  }

  lemma {:induction false} LooksBuild(pending: seq<Task>, values: seq<Value>, built: seq<Value>)
    ensures Finish(pending + Looks(values), built) == Finish(pending, built + values)
    ensures Work(pending + Looks(values)) == Work(pending) + 2 * SizeAll(values)
    decreases |values|
  {
    var all := pending + Looks(values);
    if |values| == 0 {
      assert all == pending && built + values == built;
    } else {
      // The first value is on top of the work list.
      assert all[..|all| - 1] == pending + Looks(values[1..]);
      assert all[|all| - 1] == Look(values[0]);
      LooksBuild(pending, values[1..], built + [values[0]]);
      assert built + [values[0]] + values[1..] == built + values;
      assert values == [values[0]] + values[1..];
      SizeAllSum([values[0]], values[1..]);
      assert [values[0]][..0] == [];
    }
  }

  /** The step that assembles a container once its children are built. */
  ghost function Assemble(value: Value): Task
    requires !value.Leaf?
  {
    if value.Array? then Items(|value.items|) else Members(value.members)
  }

  lemma Assembled(value: Value, rest: seq<Task>, built: seq<Value>)
    requires !value.Leaf?
    ensures Finish(rest + [Assemble(value)] + Looks(Kids(value)), built) == Finish(rest, built + [value])
    ensures Work(rest + [Assemble(value)] + Looks(Kids(value))) < Work(rest + [Look(value)])
  {
    var task := Assemble(value);
    LooksBuild(rest + [task], Kids(value), built);
    KidsMeasure(value);
    assert (rest + [task])[..|rest|] == rest && (rest + [Look(value)])[..|rest|] == rest;
    var all := built + Kids(value);
    assert all[..|built|] == built && all[|built|..] == Kids(value);
    if value.Object? {
      assert Zip(value.members, Kids(value)) == value.members;
    }
  }

  /** The work-list copy of any nesting is the value itself. */
  method Copy(value: Value) returns (copied: Value)
    ensures copied == value
  {
    var pending := [Look(value)];
    var built: seq<Value> := [];
    assert pending[..0] == [] && built + [value] == [value];
    while |pending| > 0
      invariant Finish(pending, built) == Some([value])
      decreases Work(pending)
    {
      var task := pending[|pending| - 1];
      var rest := pending[..|pending| - 1];
      match task {
        case Look(v) =>
          if v.Leaf? {
            pending := rest;
            built := built + [v];
          } else {
            assert pending == rest + [Look(v)];
            Assembled(v, rest, built);
            if v.Array? {
              pending := rest + [Items(|v.items|)] + Looks(v.items);
            } else {
              pending := rest + [Members(v.members)] + Looks(Values(v.members));
            }
          }
        case Items(count) =>
          pending := rest;
          built := built[..|built| - count] + [Array(built[|built| - count..])];
        case Members(source) =>
          pending := rest;
          built := built[..|built| - |source|] + [Object(Zip(source, built[|built| - |source|..]))];
      }
    }
    copied := if |built| > 0 then built[|built| - 1] else Leaf(Null);
  }
}

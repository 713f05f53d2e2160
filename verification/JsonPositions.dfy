// Locations of JSON values by pointer (locations.rs): a scanner that only looks for
// structure, against a printer that lays out any value with any whitespace.

module JsonPositions {
  import opened Common
  import Pointers

  type Path = Pointers.Path

  const QUOTE: Byte := 0x22
  const COMMA: Byte := 0x2c
  const COLON: Byte := 0x3a
  const BACKSLASH: Byte := 0x5c
  const OPEN_LIST: Byte := 0x5b
  const CLOSE_LIST: Byte := 0x5d
  const OPEN_OBJECT: Byte := 0x7b
  const CLOSE_OBJECT: Byte := 0x7d

  predicate IsSpace(b: Byte) {
    b in {0x20, 0x09, 0x0a, 0x0c, 0x0d}
  }

  predicate EndsToken(b: Byte) {
    IsSpace(b) || b in {COMMA, CLOSE_LIST, CLOSE_OBJECT}
  }

  // ----- the scanner -----

  /** The offset reached and the places found; pointers are kept as their segments. */
  datatype Scan = Scan(offset: nat, places: map<Path, nat>)

  predicate ByteIs(text: seq<Byte>, i: nat, b: Byte) {
    i < |text| && text[i] == b
  }

  function Left(text: seq<Byte>, offset: nat): nat {
    if offset <= |text| then |text| - offset else 0
  }

  function Space(text: seq<Byte>, offset: nat): (end: nat)
    ensures end >= offset
    ensures offset <= |text| ==> end <= |text|
    decreases Left(text, offset)
  {
    if offset < |text| && IsSpace(text[offset]) then Space(text, offset + 1) else offset
  }

  /** Past a string's closing quote, from inside it; an escape takes the next byte along. */
  function StringEnd(text: seq<Byte>, offset: nat): (end: nat)
    ensures end >= offset
    decreases Left(text, offset)
  {
    if offset >= |text| then offset
    else if text[offset] == BACKSLASH then StringEnd(text, offset + 2)
    else if text[offset] == QUOTE then offset + 1
    else StringEnd(text, offset + 1)
  }

  function TokenEnd(text: seq<Byte>, offset: nat): (end: nat)
    ensures end >= offset
    decreases Left(text, offset)
  {
    if offset < |text| && !EndsToken(text[offset]) then TokenEnd(text, offset + 1) else offset
  }

  /** A key's text; a slice that the text does not have is an empty string. */
  function KeyText(text: seq<Byte>, start: nat, end: nat, decode: seq<Byte> -> string): string {
    if start <= end <= |text| then decode(text[start..end]) else ""
  }

  function Entry(places: map<Path, nat>, path: Path, at: nat): map<Path, nat> {
    if path in places then places else places[path := at]
  }

  function ScanValue(text: seq<Byte>, s: Scan, path: Path, decode: seq<Byte> -> string): (r: Scan)
    ensures r.offset >= s.offset
    decreases Left(text, s.offset), 1
  {
    var at := Space(text, s.offset);
    var places := Entry(s.places, path, at);
    if ByteIs(text, at, OPEN_OBJECT) then
      var inner := ScanMembers(text, Scan(Space(text, at + 1), places), path, decode);
      inner.(offset := inner.offset + 1)
    else if ByteIs(text, at, OPEN_LIST) then
      var inner := ScanItems(text, Scan(Space(text, at + 1), places), path, 0, decode);
      inner.(offset := inner.offset + 1)
    else if ByteIs(text, at, QUOTE) then Scan(StringEnd(text, at + 1), places)
    else Scan(TokenEnd(text, at), places)
  }

  function ScanMembers(text: seq<Byte>, s: Scan, path: Path, decode: seq<Byte> -> string): (r: Scan)
    ensures r.offset >= s.offset
    decreases Left(text, s.offset), 0
  {
    if !ByteIs(text, s.offset, QUOTE) then s
    else
      var end := StringEnd(text, s.offset + 1);
      var member := path + [Pointers.Escape(KeyText(text, s.offset, end, decode))];
      var value := ScanValue(text, Scan(Space(text, end) + 1, s.places[member := s.offset]), member, decode);
      var after := Space(text, value.offset);
      if ByteIs(text, after, COMMA)
      then ScanMembers(text, Scan(Space(text, after + 1), value.places), path, decode)
      else Scan(after, value.places)
  }

  function ScanItems(text: seq<Byte>, s: Scan, path: Path, index: nat, decode: seq<Byte> -> string): (r: Scan)
    ensures r.offset >= s.offset
    decreases Left(text, s.offset), 2
  {
    if s.offset >= |text| || text[s.offset] == CLOSE_LIST then s
    else
      var value := ScanValue(text, s, path + [Pointers.Decimal(index)], decode);
      var after := Space(text, value.offset);
      if ByteIs(text, after, COMMA)
      then ScanItems(text, Scan(after + 1, value.places), path, index + 1, decode)
      else Scan(after, value.places)
  }

  /** The pointer strings of some places. */
  ghost predicate Spells(positions: map<string, nat>, places: map<Path, nat>) {
    && (forall path :: path in places ==> Pointers.SlashFree(path))
    && (forall path :: path in places ==>
          Pointers.Join(path) in positions && positions[Pointers.Join(path)] == places[path])
    && (forall pointer :: pointer in positions ==> exists path :: path in places && Pointers.Join(path) == pointer)
  }

  lemma {:induction false} JoinPush(path: Path, segment: string)
    ensures Pointers.Join(path + [segment]) == Pointers.Join(path) + "/" + segment
  {
    if |path| == 0 {
      assert path + [segment] == [segment] && [segment][1..] == [];
      assert Pointers.Join([segment]) == "/" + segment + "";
    } else {
      JoinPush(path[1..], segment);
      assert (path + [segment])[1..] == path[1..] + [segment];
      var (a, b) := ("/" + path[0], Pointers.Join(path[1..]));
      assert a + (b + "/" + segment) == a + b + "/" + segment;
    }
  }

  lemma JoinInjective(a: Path, b: Path)
    requires Pointers.SlashFree(a) && Pointers.SlashFree(b) && Pointers.Join(a) == Pointers.Join(b)
    ensures a == b
  {
    Pointers.PointerRoundTrip(Pointers.Join(a), a);
    Pointers.PointerRoundTrip(Pointers.Join(a), b);
  }

  lemma SpellsInsert(positions: map<string, nat>, places: map<Path, nat>, path: Path, at: nat)
    requires Spells(positions, places) && Pointers.SlashFree(path)
    ensures Spells(positions[Pointers.Join(path) := at], places[path := at])
    ensures Pointers.Join(path) in positions <==> path in places
  {
    hide Pointers.SlashFree, Pointers.Join;
    if Pointers.Join(path) in positions {
      var other :| other in places && Pointers.Join(other) == Pointers.Join(path);
      JoinInjective(other, path);
    }
    forall other | other in places && other != path
      ensures Pointers.Join(other) != Pointers.Join(path)
    {
      if Pointers.Join(other) == Pointers.Join(path) { JoinInjective(other, path); }
    }
  }

  /** The scanner's fields; `places` records which pointer each position is. */
  class Scanner {
    const text: seq<Byte>
    const decode: seq<Byte> -> string
    var offset: nat
    var positions: map<string, nat>
    ghost var places: map<Path, nat>

    constructor (text: seq<Byte>, decode: seq<Byte> -> string)
      ensures this.text == text && this.decode == decode && Value() == Scan(0, map[]) && Valid()
    {
      this.text, this.decode := text, decode;
      offset, positions, places := 0, map[], map[];
    }

    ghost function Value(): Scan
      reads this
    {
      Scan(offset, places)
    }

    ghost predicate Valid()
      reads this
    {
      Spells(positions, places)
    }

    method SkipSpace()
      modifies this`offset
      ensures offset == Space(text, old(offset))
    {
      while offset < |text| && IsSpace(text[offset])
        invariant Space(text, offset) == Space(text, old(offset))
        decreases Left(text, offset)
      {
        offset := offset + 1;
      }
    }

    method ReadString() returns (key: string)
      requires ByteIs(text, offset, QUOTE)
      modifies this`offset
      ensures offset == StringEnd(text, old(offset) + 1)
      ensures key == KeyText(text, old(offset), offset, decode)
    {
      var start := offset;
      offset := offset + 1;
      while offset < |text|
        invariant start < offset && StringEnd(text, offset) == StringEnd(text, start + 1)
        decreases Left(text, offset)
      {
        var c := text[offset];
        offset := offset + 1;
        if c == BACKSLASH {
          offset := offset + 1;
        } else if c == QUOTE {
          break;
        }
      }
      key := if offset <= |text| then decode(text[start..offset]) else "";
    }

    /** Insert unless the pointer has a position. */
    method Enter(pointer: string, ghost path: Path)
      requires Valid() && Pointers.SlashFree(path) && pointer == Pointers.Join(path)
      modifies this`positions, this`places
      ensures Valid() && places == Entry(old(places), path, offset)
    {
      hide Spells;
      SpellsInsert(positions, places, path, offset);
      if pointer !in positions {
        positions := positions[pointer := offset];
        places := places[path := offset];
      }
    }

    method ReadValue(pointer: string, ghost path: Path)
      requires Valid() && Pointers.SlashFree(path) && pointer == Pointers.Join(path)
      modifies this
      ensures Valid() && Value() == ScanValue(text, old(Value()), path, decode)
      decreases Left(text, offset), 1
    {
      hide Spells, Space, StringEnd, TokenEnd, ScanItems, ScanMembers;
      SkipSpace();
      Enter(pointer, path);
      if ByteIs(text, offset, OPEN_OBJECT) {
        offset := offset + 1;
        SkipSpace();
        ReadMembers(pointer, path);
        offset := offset + 1;
      } else if ByteIs(text, offset, OPEN_LIST) {
        offset := offset + 1;
        SkipSpace();
        ReadItems(pointer, path);
        offset := offset + 1;
      } else if ByteIs(text, offset, QUOTE) {
        var _ := ReadString();
      } else {
        ReadToken();
      }
    }

    method ReadToken()
      modifies this`offset
      ensures offset == TokenEnd(text, old(offset))
    {
      while offset < |text| && !EndsToken(text[offset])
        invariant TokenEnd(text, offset) == TokenEnd(text, old(offset))
        decreases Left(text, offset)
      {
        offset := offset + 1;
      }
    }

    /** A member's key, and its position at the key's start. */
    method ReadKey(pointer: string, ghost path: Path) returns (member: string, ghost inner: Path)
      requires Valid() && Pointers.SlashFree(path) && pointer == Pointers.Join(path)
      requires ByteIs(text, offset, QUOTE)
      modifies this
      ensures Valid() && offset == StringEnd(text, old(offset) + 1)
      ensures inner == path + [Pointers.Escape(KeyText(text, old(offset), offset, decode))]
      ensures Pointers.SlashFree(inner) && member == Pointers.Join(inner)
      ensures places == old(places)[inner := old(offset)]
    {
      hide Spells, StringEnd;
      var start := offset;
      var decoded := ReadString();
      var key := Pointers.Escape(decoded);
      Pointers.EscapeRoundTrip(decoded);
      JoinPush(path, key);
      member, inner := pointer + "/" + key, path + [key];
      SpellsInsert(positions, places, inner, start);
      positions := positions[member := start];
      places := places[inner := start];
    }

    method ReadMembers(pointer: string, ghost path: Path)
      requires Valid() && Pointers.SlashFree(path) && pointer == Pointers.Join(path)
      modifies this
      ensures Valid() && Value() == ScanMembers(text, old(Value()), path, decode)
      decreases Left(text, offset), 0
    {
      hide Spells, Space, StringEnd, TokenEnd, ScanItems, ScanValue, KeyText, Pointers.Escape, Pointers.Join,
        Pointers.SlashFree;
      while ByteIs(text, offset, QUOTE)
        invariant offset >= old(offset) && Valid()
        invariant ScanMembers(text, Value(), path, decode) == ScanMembers(text, old(Value()), path, decode)
        decreases Left(text, offset)
      {
        var member, inner := ReadKey(pointer, path);
        SkipSpace();
        offset := offset + 1;
        ReadValue(member, inner);
        SkipSpace();
        if !ByteIs(text, offset, COMMA) { break; }
        offset := offset + 1;
        SkipSpace();
      }
    }

    method ReadItems(pointer: string, ghost path: Path)
      requires Valid() && Pointers.SlashFree(path) && pointer == Pointers.Join(path)
      modifies this
      ensures Valid() && Value() == ScanItems(text, old(Value()), path, 0, decode)
      decreases Left(text, offset), 2
    {
      hide Spells, Space, StringEnd, TokenEnd, ScanMembers, ScanValue;
      var index: nat := 0;
      while offset < |text| && text[offset] != CLOSE_LIST
        invariant offset >= old(offset) && Valid()
        invariant ScanItems(text, Value(), path, index, decode) == ScanItems(text, old(Value()), path, 0, decode)
        decreases Left(text, offset)
      {
        Pointers.DecimalRoundTrip(index);
        JoinPush(path, Pointers.Decimal(index));
        ReadValue(pointer + "/" + Pointers.Decimal(index), path + [Pointers.Decimal(index)]);
        index := index + 1;
        SkipSpace();
        if !ByteIs(text, offset, COMMA) { break; }
        offset := offset + 1;
      }
    }
  }

  // ----- printed values -----

  /** A value with its layout: tokens, quoted strings, and lists and objects with whitespace around their items. */
  datatype Node =
    | Token(bytes: seq<Byte>)
    | Quoted(bytes: seq<Byte>)
    | List(blank: seq<Byte>, items: seq<Item>)
    | Object(blank: seq<Byte>, members: seq<Member>)

  datatype Item = Item(before: seq<Byte>, value: Node, after: seq<Byte>)

  /** `gap` is the whitespace between the key and its colon. */
  datatype Member = Member(before: seq<Byte>, key: seq<Byte>, gap: seq<Byte>, item: Item)

  predicate Blank(bytes: seq<Byte>) {
    forall i :: 0 <= i < |bytes| ==> bytes[i] in [0x09, 0x0a, 0x0d, 0x20, 0x0c]
  }

  predicate IsToken(bytes: seq<Byte>) {
    && |bytes| > 0 && bytes[0] !in {0x22, 0x5b, 0x7b}
    && forall i :: 0 <= i < |bytes| ==> bytes[i] !in [0x09, 0x0a, 0x0d, 0x20, 0x0c, 0x2c, 0x5d, 0x7d]
  }

  /** The inside of a string, with every escape complete. */
  predicate Body(bytes: seq<Byte>) {
    if |bytes| == 0 then true
    else if bytes[0] == 0x5c then |bytes| > 1 && Body(bytes[2..])
    else bytes[0] != 0x22 && Body(bytes[1..])
  }

  predicate IsString(bytes: seq<Byte>) {
    |bytes| > 1 && bytes[0] == 0x22 && bytes[|bytes| - 1] == 0x22 && Body(bytes[1..|bytes| - 1])
  }

  function Segment(member: Member, decode: seq<Byte> -> string): string {
    Pointers.Escape(decode(member.key))
  }

  /** Well laid out, with distinct keys in every object. */
  predicate WellFormed(node: Node, decode: seq<Byte> -> string) {
    match node
    case Token(bytes) => IsToken(bytes)
    case Quoted(bytes) => IsString(bytes)
    case List(blank, items) => Blank(blank) && forall i :: 0 <= i < |items| ==> WellPlaced(items[i], decode)
    case Object(blank, members) =>
      && Blank(blank)
      && (forall i :: 0 <= i < |members| ==>
            && Blank(members[i].before) && IsString(members[i].key) && Blank(members[i].gap) &&
               WellPlaced(members[i].item, decode))
      && (forall i, j :: 0 <= i < j < |members| ==> decode(members[i].key) != decode(members[j].key))
  }

  predicate WellPlaced(item: Item, decode: seq<Byte> -> string) {
    Blank(item.before) && WellFormed(item.value, decode) && Blank(item.after)
  }

  function Print(node: Node): seq<Byte> {
    match node
    case Token(bytes) => bytes
    case Quoted(bytes) => bytes
    case List(blank, items) => [0x5b] + (if |items| == 0 then blank else PrintItems(items)) + [0x5d]
    case Object(blank, members) =>
      [0x7b] + (if |members| == 0 then blank else PrintMembers(members)) + [0x7d]
  }

  function PrintItem(item: Item): seq<Byte> {
    item.before + Print(item.value) + item.after
  }

  function PrintItems(items: seq<Item>): seq<Byte> {
    if |items| == 0 then []
    else PrintItem(items[0]) + (if |items| == 1 then [] else [0x2c] + PrintItems(items[1..]))
  }

  function PrintMember(member: Member): seq<Byte> {
    member.before + member.key + member.gap + [0x3a] + PrintItem(member.item)
  }

  function PrintMembers(members: seq<Member>): seq<Byte> {
    if |members| == 0 then []
    else PrintMember(members[0]) + (if |members| == 1 then [] else [0x2c] + PrintMembers(members[1..]))
  }

  /** Where every value below a printed one begins: items at their value, members at their key. */
  function Below(node: Node, path: Path, at: nat, decode: seq<Byte> -> string): map<Path, nat> {
    match node
    case Token(_) => map[]
    case Quoted(_) => map[]
    case List(_, items) => BelowItems(items, path, 0, at + 1, decode)
    case Object(_, members) => BelowMembers(members, path, at + 1, decode)
  }

  function BelowItems(items: seq<Item>, path: Path, index: nat, at: nat, decode: seq<Byte> -> string): map<Path, nat> {
    if |items| == 0 then map[]
    else
      var (start, inner) := (at + |items[0].before|, path + [Pointers.Decimal(index)]);
      map[inner := start] + Below(items[0].value, inner, start, decode)
      + BelowItems(items[1..], path, index + 1, at + |PrintItem(items[0])| + 1, decode)
  }

  function BelowMembers(members: seq<Member>, path: Path, at: nat, decode: seq<Byte> -> string): map<Path, nat> {
    if |members| == 0 then map[]
    else
      var m := members[0];
      var (start, inner) := (at + |m.before|, path + [Segment(m, decode)]);
      map[inner := start] + Below(m.item.value, inner, start + |m.key| + |m.gap| + 1 + |m.item.before|, decode)
      + BelowMembers(members[1..], path, at + |PrintMember(m)| + 1, decode)
  }

  // ----- scanning what was printed -----

  lemma {:induction false} SpaceBlank(text: seq<Byte>, offset: nat, blank: seq<Byte>)
    requires HoldsAt(text, offset, blank) && Blank(blank)
    requires offset + |blank| < |text| ==> !IsSpace(text[offset + |blank|])
    ensures Space(text, offset) == offset + |blank|
    decreases |blank|
  {
    if |blank| > 0 {
      assert text[offset] == text[offset..offset + |blank|][0];
      assert blank[1..] == text[offset + 1..offset + |blank|];
      SpaceBlank(text, offset + 1, blank[1..]);
    }
  }

  lemma {:induction false} BodyEnd(text: seq<Byte>, offset: nat, body: seq<Byte>)
    requires HoldsAt(text, offset, body) && Body(body) && ByteIs(text, offset + |body|, QUOTE)
    ensures StringEnd(text, offset) == offset + |body| + 1
    decreases |body|
  {
    if |body| > 0 {
      assert text[offset] == text[offset..offset + |body|][0];
      var n := if body[0] == BACKSLASH then 2 else 1;
      assert body[n..] == text[offset + n..offset + |body|];
      BodyEnd(text, offset + n, body[n..]);
    }
  }

  lemma StringRead(text: seq<Byte>, offset: nat, bytes: seq<Byte>)
    requires HoldsAt(text, offset, bytes) && IsString(bytes)
    ensures ByteIs(text, offset, QUOTE) && StringEnd(text, offset + 1) == offset + |bytes|
  {
    var n := |bytes|;
    assert forall i :: 0 <= i < n ==> bytes[i] == text[offset + i];
    assert bytes[1..n - 1] == text[offset + 1..offset + n - 1];
    BodyEnd(text, offset + 1, bytes[1..n - 1]);
  }

  lemma {:induction false} TokenRead(text: seq<Byte>, offset: nat, bytes: seq<Byte>)
    requires HoldsAt(text, offset, bytes) && forall i :: 0 <= i < |bytes| ==> !EndsToken(bytes[i])
    requires offset + |bytes| < |text| ==> EndsToken(text[offset + |bytes|])
    ensures TokenEnd(text, offset) == offset + |bytes|
    decreases |bytes|
  {
    if |bytes| > 0 {
      assert text[offset] == text[offset..offset + |bytes|][0];
      assert bytes[1..] == text[offset + 1..offset + |bytes|];
      TokenRead(text, offset + 1, bytes[1..]);
    }
  }

  lemma TokenBytes(bytes: seq<Byte>)
    requires IsToken(bytes)
    ensures forall i :: 0 <= i < |bytes| ==> !EndsToken(bytes[i])
  {
  }

  // ----- pointers that are still free -----

  /** No place extends `path` by this segment. */
  ghost predicate Free(places: map<Path, nat>, path: Path, segment: string) {
    forall q :: q in places && |q| > |path| && q[..|path|] == path ==> q[|path|] != segment
  }

  ghost predicate NothingBelow(places: map<Path, nat>, path: Path) {
    forall q :: q in places && |q| > |path| ==> q[..|path|] != path
  }

  ghost predicate Under(places: map<Path, nat>, path: Path) {
    forall q :: q in places ==> |q| > |path| && q[..|path|] == path
  }

  ghost predicate IsIndex(segment: string, from: nat) {
    Pointers.Parsed(segment) >= from
  }

  ghost predicate IsKey(segment: string, members: seq<Member>, decode: seq<Byte> -> string) {
    exists i :: 0 <= i < |members| && segment == Segment(members[i], decode)
  }

  ghost predicate UnderItems(places: map<Path, nat>, path: Path, from: nat) {
    Under(places, path) && forall q :: q in places ==> IsIndex(q[|path|], from)
  }

  ghost predicate BySegment(places: map<Path, nat>, path: Path, segment: string) {
    Under(places, path) && forall q :: q in places ==> q[|path|] == segment
  }

  ghost predicate UnderMembers(places: map<Path, nat>, path: Path, members: seq<Member>, decode: seq<Byte> -> string) {
    Under(places, path) && forall q :: q in places ==> IsKey(q[|path|], members, decode)
  }

  lemma {:induction false} BelowUnder(node: Node, path: Path, at: nat, decode: seq<Byte> -> string)
    ensures Under(Below(node, path, at, decode), path)
    decreases node
  {
    match node
    case List(_, items) => ItemsUnder(items, path, 0, at + 1, decode);
    case Object(_, members) => MembersUnder(members, path, at + 1, decode);
    case _ =>
  }

  /** A value's place and what is below it are within the enclosing path, by the value's segment. */
  lemma UnderPush(places: map<Path, nat>, path: Path, segment: string, at: nat)
    requires Under(places, path + [segment])
    ensures
      BySegment(map[path + [segment] := at] + places, path, segment)
  {
  }

  lemma NoneUnder(path: Path, index: nat, members: seq<Member>, decode: seq<Byte> -> string)
    ensures UnderItems(map[], path, index) && UnderMembers(map[], path, members, decode)
  {
  }

  lemma ItemsUnderSum(a: map<Path, nat>, b: map<Path, nat>, path: Path, index: nat)
    requires BySegment(a, path, Pointers.Decimal(index)) && UnderItems(b, path, index + 1)
    ensures UnderItems(a + b, path, index)
  {
    Pointers.DecimalRoundTrip(index);
  }

  lemma MembersUnderSum(a: map<Path, nat>, b: map<Path, nat>, path: Path, members: seq<Member>,
                        decode: seq<Byte> -> string)
    requires |members| > 0 && BySegment(a, path, Segment(members[0], decode)) &&
             UnderMembers(b, path, members[1..], decode)
    ensures UnderMembers(a + b, path, members, decode)
  {
  }

  lemma {:induction false} ItemsUnder(items: seq<Item>, path: Path, index: nat, at: nat, decode: seq<Byte> -> string)
    ensures UnderItems(BelowItems(items, path, index, at, decode), path, index)
    decreases items
  {
    hide Print, Below, Under, UnderItems, BySegment, IsIndex, PrintItem;
    if |items| == 0 {
      NoneUnder(path, index, [], decode);
    } else {
      var (start, segment) := (at + |items[0].before|, Pointers.Decimal(index));
      BelowUnder(items[0].value, path + [segment], start, decode);
      UnderPush(Below(items[0].value, path + [segment], start, decode), path, segment, start);
      ItemsUnder(items[1..], path, index + 1, at + |PrintItem(items[0])| + 1, decode);
      ItemsUnderSum(map[path + [segment] := start] + Below(items[0].value, path + [segment], start, decode),
                    BelowItems(items[1..], path, index + 1, at + |PrintItem(items[0])| + 1, decode), path, index);
    }
  }

  lemma NoMembers(members: seq<Member>, path: Path, at: nat, decode: seq<Byte> -> string)
    requires |members| == 0
    ensures BelowMembers(members, path, at, decode) == map[]
  {
  }

  lemma BelowMembersStep(members: seq<Member>, path: Path, at: nat, decode: seq<Byte> -> string)
    requires |members| > 0
    ensures
      var here := MemberPlaces(members[0], path, at, decode);
      && BelowMembers(members, path, at, decode) ==
         here + BelowMembers(members[1..], path, at + |PrintMember(members[0])| + 1, decode)
      && (|members| == 1 ==> BelowMembers(members, path, at, decode) == here)
  {
    hide Below, PrintMember, Segment;
    var here := MemberPlaces(members[0], path, at, decode);
    assert here + map[] == here;
  }

  lemma {:induction false} MembersUnder(members: seq<Member>, path: Path, at: nat, decode: seq<Byte> -> string)
    ensures UnderMembers(BelowMembers(members, path, at, decode), path, members, decode)
    decreases members
  {
    hide Print, Below, BelowMembers, Under, UnderMembers, BySegment, PrintMember, Segment;
    if |members| == 0 {
      NoneUnder(path, 0, members, decode);
      NoMembers(members, path, at, decode);
    } else {
      var m := members[0];
      var segment := Segment(m, decode);
      var value := ItemBase(at, m) + |m.item.before|;
      var next := at + |PrintMember(m)| + 1;
      BelowUnder(m.item.value, path + [segment], value, decode);
      UnderPush(Below(m.item.value, path + [segment], value, decode), path, segment, at + |m.before|);
      MembersUnder(members[1..], path, next, decode);
      BelowMembersStep(members, path, at, decode);
      MembersUnderSum(MemberPlaces(m, path, at, decode), BelowMembers(members[1..], path, next, decode), path,
                      members, decode);
    }
  }

  /** Places by another segment leave one free. */
  lemma FreeAfter(places: map<Path, nat>, more: map<Path, nat>, path: Path, other: string, segment: string)
    requires Free(places, path, segment) && segment != other
    requires BySegment(more, path, other)
    ensures Free(places + more, path, segment)
  {
  }

  lemma FreeBelow(places: map<Path, nat>, path: Path, segment: string)
    requires Free(places, path, segment)
    ensures NothingBelow(places, path + [segment]) && path + [segment] !in places
  {
  }

  lemma NothingBelowFree(places: map<Path, nat>, path: Path, segment: string)
    requires NothingBelow(places, path)
    ensures Free(places, path, segment)
  {
  }

  lemma PlacesSum(a: map<Path, nat>, b: map<Path, nat>, c: map<Path, nat>)
    ensures a + b + c == a + (b + c)
  {
  }

  // ----- scanning what was printed -----

  /** A token before `i` ends there. */
  predicate Terminated(text: seq<Byte>, i: nat) {
    i < |text| ==> EndsToken(text[i])
  }

  lemma FirstByte(text: seq<Byte>, i: nat, part: seq<Byte>)
    requires HoldsAt(text, i, part) && |part| > 0
    ensures text[i] == part[0]
  {
  }

  /** A printed value begins with a byte that is neither whitespace nor a closing bracket. */
  lemma PrintFirst(node: Node, decode: seq<Byte> -> string)
    requires WellFormed(node, decode)
    ensures |Print(node)| > 0 && !EndsToken(Print(node)[0])
    ensures node.Token? ==> Print(node)[0] !in {QUOTE, OPEN_LIST, OPEN_OBJECT}
    ensures node.Quoted? ==> Print(node)[0] == QUOTE
    ensures node.List? ==> Print(node)[0] == OPEN_LIST
    ensures node.Object? ==> Print(node)[0] == OPEN_OBJECT
  {
  }

  /** What follows a printed item. */
  predicate Delimited(text: seq<Byte>, i: nat) {
    i < |text| && text[i] in {COMMA, CLOSE_LIST, CLOSE_OBJECT}
  }

  lemma Split3(text: seq<Byte>, i: nat, a: seq<Byte>, b: seq<Byte>, c: seq<Byte>)
    ensures HoldsAt(text, i, a + b + c) <==>
            HoldsAt(text, i, a) && HoldsAt(text, i + |a|, b) && HoldsAt(text, i + |a| + |b|, c)
  {
    HoldsAtSum(text, i, a + b, c);
    HoldsAtSum(text, i, a, b);
  }

  /** One printed value, from the whitespace before it. */
  lemma {:induction false} ScanPrinted(text: seq<Byte>, s: Scan, blank: seq<Byte>, node: Node, path: Path,
                                       decode: seq<Byte> -> string)
    requires Blank(blank) && WellFormed(node, decode) && HoldsAt(text, s.offset, blank + Print(node))
    requires Terminated(text, s.offset + |blank| + |Print(node)|) && NothingBelow(s.places, path)
    ensures
      var at := s.offset + |blank|;
      ScanValue(text, s, path, decode) ==
        Scan(at + |Print(node)|, Entry(s.places, path, at) + Below(node, path, at, decode))
    decreases node, 1
  {
    hide ScanItems, ScanMembers, StringEnd, TokenEnd, Space, NothingBelow, Print, WellFormed, Below;
    var at := s.offset + |blank|;
    HoldsAtSum(text, s.offset, blank, Print(node));
    PrintFirst(node, decode);
    FirstByte(text, at, Print(node));
    SpaceBlank(text, s.offset, blank);
    var places := Entry(s.places, path, at);
    EntryNothingBelow(s.places, path, at);
    ScanInside(text, places, at, node, path, decode);
  }

  /** The rest of a value, by its first byte. */
  ghost predicate Inside(text: seq<Byte>, places: map<Path, nat>, at: nat, node: Node, path: Path,
                         decode: seq<Byte> -> string)
  {
    var end := at + |Print(node)|;
    var all := places + Below(node, path, at, decode);
    match node
    case Token(_) => TokenEnd(text, at) == end && all == places
    case Quoted(_) => StringEnd(text, at + 1) == end && all == places
    case List(_, _) => ScanItems(text, Scan(Space(text, at + 1), places), path, 0, decode) == Scan(end - 1, all)
    case Object(_, _) => ScanMembers(text, Scan(Space(text, at + 1), places), path, decode) == Scan(end - 1, all)
  }

  lemma {:induction false} ScanInside(text: seq<Byte>, places: map<Path, nat>, at: nat, node: Node, path: Path,
                                      decode: seq<Byte> -> string)
    requires WellFormed(node, decode) && HoldsAt(text, at, Print(node))
    requires Terminated(text, at + |Print(node)|) && NothingBelow(places, path)
    ensures Inside(text, places, at, node, path, decode)
    decreases node, 0
  {
    hide ScanItems, ScanMembers, StringEnd, TokenEnd, Space, NothingBelow, HoldsAt, IsString, EndsToken, PrintItems,
      PrintMembers, BelowItems, BelowMembers;
    match node
    case Token(bytes) =>
      TokenBytes(bytes);
      TokenRead(text, at, bytes);
      NothingMore(places);
    case Quoted(bytes) =>
      StringRead(text, at, bytes);
      NothingMore(places);
    case List(blank, items) =>
      Bracketed(text, at, OPEN_LIST, if |items| == 0 then blank else PrintItems(items), CLOSE_LIST);
      ScanList(text, places, at + 1, blank, items, path, decode);
    case Object(blank, members) =>
      Bracketed(text, at, OPEN_OBJECT, if |members| == 0 then blank else PrintMembers(members), CLOSE_OBJECT);
      ScanObject(text, places, at + 1, blank, members, path, decode);
  }

  lemma NothingMore(places: map<Path, nat>)
    ensures places + map[] == places
  {
  }

  lemma Bracketed(text: seq<Byte>, at: nat, first: Byte, inner: seq<Byte>, last: Byte)
    requires HoldsAt(text, at, [first] + inner + [last])
    ensures HoldsAt(text, at + 1, inner) && ByteIs(text, at + 1 + |inner|, last)
  {
    hide HoldsAt;
    Split3(text, at, [first], inner, [last]);
    ByteAt(text, at + 1 + |inner|, last);
  }

  lemma EntryNothingBelow(places: map<Path, nat>, path: Path, at: nat)
    requires NothingBelow(places, path)
    ensures NothingBelow(Entry(places, path, at), path)
  {
  }

  lemma BlankFrom(text: seq<Byte>, base: nat, before: seq<Byte>, offset: nat)
    requires HoldsAt(text, base, before) && Blank(before) && base <= offset <= base + |before|
    ensures HoldsAt(text, offset, before[offset - base..]) && Blank(before[offset - base..])
    ensures offset < base + |before| ==> text[offset] != CLOSE_LIST
  {
  }

  /** An item's pieces, and the bytes that end the whitespace and the value. */
  lemma ItemParts(text: seq<Byte>, base: nat, item: Item, decode: seq<Byte> -> string)
    requires WellPlaced(item, decode) && HoldsAt(text, base, PrintItem(item))
    ensures
      var start := base + |item.before|;
      var end := start + |Print(item.value)|;
      && HoldsAt(text, base, item.before) && HoldsAt(text, start, Print(item.value)) && HoldsAt(text, end, item.after)
      && |PrintItem(item)| == end + |item.after| - base
      && start < end <= |text| && !EndsToken(text[start])
      && (Delimited(text, end + |item.after|) ==> Terminated(text, end))
  {
    hide WellFormed, Print, HoldsAt;
    var (before, value, after) := (item.before, Print(item.value), item.after);
    Split3(text, base, before, value, after);
    PrintFirst(item.value, decode);
    AtBound(text, base + |before|, value);
    FirstByte(text, base + |before|, value);
    if |after| > 0 { FirstByte(text, base + |before| + |value|, after); }
  }

  lemma AtBound(text: seq<Byte>, i: nat, part: seq<Byte>)
    requires HoldsAt(text, i, part)
    ensures i + |part| <= |text|
  {
  }

  /** One item, from anywhere in the whitespace before its value. */
  lemma {:induction false} ScanItem(text: seq<Byte>, s: Scan, base: nat, item: Item, inner: Path,
                                    decode: seq<Byte> -> string)
    requires WellPlaced(item, decode) && HoldsAt(text, base, PrintItem(item)) &&
             Delimited(text, base + |PrintItem(item)|)
    requires base <= s.offset <= base + |item.before| && NothingBelow(s.places, inner)
    ensures
      var start := base + |item.before|;
      var r := ScanValue(text, s, inner, decode);
      && Space(text, r.offset) == base + |PrintItem(item)|
      && r.places == Entry(s.places, inner, start) + Below(item.value, inner, start, decode)
    ensures s.offset < |text| && text[s.offset] != CLOSE_LIST
    decreases item
  {
    hide ScanValue, Space, NothingBelow, Print, PrintItem, WellFormed, Below, HoldsAt, Entry;
    ItemParts(text, base, item, decode);
    BlankFrom(text, base, item.before, s.offset);
    var blank := item.before[s.offset - base..];
    HoldsAtSum(text, s.offset, blank, Print(item.value));
    ScanPrinted(text, s, blank, item.value, inner, decode);
    SpaceBlank(text, base + |item.before| + |Print(item.value)|, item.after);
  }

  lemma PrintItemsFirst(text: seq<Byte>, base: nat, items: seq<Item>, last: Byte)
    requires |items| > 0 && HoldsAt(text, base, PrintItems(items)) && ByteIs(text, base + |PrintItems(items)|, last)
    requires last in {CLOSE_LIST, CLOSE_OBJECT}
    ensures HoldsAt(text, base, PrintItem(items[0]))
    ensures
      var end := base + |PrintItem(items[0])|;
      && Delimited(text, end)
      && (|items| == 1 ==> text[end] == last && end == base + |PrintItems(items)|)
      && (|items| > 1 ==>
            && text[end] == COMMA && HoldsAt(text, end + 1, PrintItems(items[1..]))
            && base + |PrintItems(items)| == end + 1 + |PrintItems(items[1..])|)
  {
    hide PrintItem;
    var (first, rest) := (PrintItem(items[0]), PrintItems(items[1..]));
    if |items| == 1 {
      assert first + [] == first;
    } else {
      HoldsAtSum(text, base, first, [COMMA] + rest);
      HoldsAtSum(text, base + |first|, [COMMA], rest);
      FirstByte(text, base + |first|, [COMMA]);
    }
  }

  ghost predicate FreeFrom(places: map<Path, nat>, path: Path, index: nat) {
    forall j: nat :: j >= index ==> Free(places, path, Pointers.Decimal(j))
  }

  lemma FreeHere(places: map<Path, nat>, path: Path, index: nat)
    requires FreeFrom(places, path, index)
    ensures NothingBelow(places, path + [Pointers.Decimal(index)]) && path + [Pointers.Decimal(index)] !in places
  {
  }

  lemma FreeItem(places: map<Path, nat>, more: map<Path, nat>, path: Path, index: nat)
    requires FreeFrom(places, path, index) && BySegment(more, path, Pointers.Decimal(index))
    ensures FreeFrom(places + more, path, index + 1)
  {
    hide Free, BySegment;
    forall j: nat | j > index
      ensures Free(places + more, path, Pointers.Decimal(j))
    {
      Pointers.DecimalRoundTrip(index);
      Pointers.DecimalRoundTrip(j);
      FreeAfter(places, more, path, Pointers.Decimal(index), Pointers.Decimal(j));
    }
  }

  /** An item's place and those below it. */
  function ItemPlaces(item: Item, inner: Path, start: nat, decode: seq<Byte> -> string): map<Path, nat> {
    map[inner := start] + Below(item.value, inner, start, decode)
  }

  lemma NewEntry(places: map<Path, nat>, inner: Path, start: nat, below: map<Path, nat>)
    requires inner !in places
    ensures Entry(places, inner, start) + below == places + (map[inner := start] + below)
  {
  }

  lemma ScanItemsStep(text: seq<Byte>, s: Scan, path: Path, index: nat, decode: seq<Byte> -> string)
    requires s.offset < |text| && text[s.offset] != CLOSE_LIST
    ensures
      var value := ScanValue(text, s, path + [Pointers.Decimal(index)], decode);
      var after := Space(text, value.offset);
      ScanItems(text, s, path, index, decode) ==
      if ByteIs(text, after, COMMA) then ScanItems(text, Scan(after + 1, value.places), path, index + 1, decode)
      else Scan(after, value.places)
  {
    hide ScanValue, Space;
  }

  lemma BelowItemsStep(items: seq<Item>, path: Path, index: nat, at: nat, decode: seq<Byte> -> string)
    requires |items| > 0
    ensures
      var here := ItemPlaces(items[0], path + [Pointers.Decimal(index)], at + |items[0].before|, decode);
      && BelowItems(items, path, index, at, decode) ==
         here + BelowItems(items[1..], path, index + 1, at + |PrintItem(items[0])| + 1, decode)
      && (|items| == 1 ==> BelowItems(items, path, index, at, decode) == here)
  {
  }

  lemma {:induction false} ScanItemsPrinted(text: seq<Byte>, s: Scan, base: nat, items: seq<Item>, path: Path,
                                            index: nat, decode: seq<Byte> -> string)
    requires |items| > 0 && (forall i :: 0 <= i < |items| ==> WellPlaced(items[i], decode))
    requires HoldsAt(text, base, PrintItems(items)) && ByteIs(text, base + |PrintItems(items)|, CLOSE_LIST)
    requires base <= s.offset <= base + |items[0].before| && FreeFrom(s.places, path, index)
    ensures ScanItems(text, s, path, index, decode) ==
            Scan(base + |PrintItems(items)|, s.places + BelowItems(items, path, index, base, decode))
    decreases items, 0
  {
    hide ScanValue, Space, Free, WellPlaced, Below, PrintItem, PrintItems, BySegment, HoldsAt, NothingBelow, FreeFrom,
      Entry, ScanItems, BelowItems;
    var item := items[0];
    var segment := Pointers.Decimal(index);
    var (inner, start) := (path + [segment], base + |item.before|);
    PrintItemsFirst(text, base, items, CLOSE_LIST);
    FreeHere(s.places, path, index);
    ScanItem(text, s, base, item, inner, decode);
    var here := ItemPlaces(item, inner, start, decode);
    NewEntry(s.places, inner, start, Below(item.value, inner, start, decode));
    ScanItemsStep(text, s, path, index, decode);
    BelowItemsStep(items, path, index, base, decode);
    if |items| > 1 {
      BelowUnder(item.value, inner, start, decode);
      UnderPush(Below(item.value, inner, start, decode), path, segment, start);
      FreeItem(s.places, here, path, index);
      var next := base + |PrintItem(item)| + 1;
      ScanItemsPrinted(text, Scan(next, s.places + here), next, items[1..], path, index + 1, decode);
      PlacesSum(s.places, here, BelowItems(items[1..], path, index + 1, next, decode));
    }
  }

  lemma {:induction false} ScanList(text: seq<Byte>, places: map<Path, nat>, offset: nat, blank: seq<Byte>,
                                    items: seq<Item>, path: Path, decode: seq<Byte> -> string)
    requires Blank(blank) && (forall i :: 0 <= i < |items| ==> WellPlaced(items[i], decode)) &&
             NothingBelow(places, path)
    requires
      var inner := if |items| == 0 then blank else PrintItems(items);
      HoldsAt(text, offset, inner) && ByteIs(text, offset + |inner|, CLOSE_LIST)
    ensures
      var inner := if |items| == 0 then blank else PrintItems(items);
      ScanItems(text, Scan(Space(text, offset), places), path, 0, decode) ==
      Scan(offset + |inner|, places + BelowItems(items, path, 0, offset, decode))
    decreases items, 1
  {
    hide Space, WellPlaced, PrintItems, PrintItem, NothingBelow, ScanValue;
    if |items| == 0 {
      SpaceBlank(text, offset, blank);
      assert places + map[] == places;
    } else {
      PrintItemsFirst(text, offset, items, CLOSE_LIST);
      SpaceBefore(text, offset, items[0], decode);
      forall j: nat
        ensures Free(places, path, Pointers.Decimal(j))
      {
        NothingBelowFree(places, path, Pointers.Decimal(j));
      }
      ScanItemsPrinted(text, Scan(Space(text, offset), places), offset, items, path, 0, decode);
    }
  }

  lemma SpaceBefore(text: seq<Byte>, base: nat, item: Item, decode: seq<Byte> -> string)
    requires WellPlaced(item, decode) && HoldsAt(text, base, PrintItem(item))
    ensures Space(text, base) == base + |item.before|
  {
    hide WellFormed, Print, Space;
    var (before, value, after) := (item.before, Print(item.value), item.after);
    Split3(text, base, before, value, after);
    PrintFirst(item.value, decode);
    FirstByte(text, base + |before|, value);
    SpaceBlank(text, base, before);
  }

  // ----- members -----

  ghost predicate Placed(members: seq<Member>, decode: seq<Byte> -> string) {
    forall i :: 0 <= i < |members| ==>
      Blank(members[i].before) && IsString(members[i].key) && Blank(members[i].gap) &&
      WellPlaced(members[i].item, decode)
  }

  ghost predicate DistinctKeys(members: seq<Member>, decode: seq<Byte> -> string) {
    forall i, j :: 0 <= i < j < |members| ==> decode(members[i].key) != decode(members[j].key)
  }

  ghost predicate FreeKeys(places: map<Path, nat>, path: Path, members: seq<Member>, decode: seq<Byte> -> string) {
    forall i :: 0 <= i < |members| ==> Free(places, path, Segment(members[i], decode))
  }

  /** Where a member's item begins. */
  function ItemBase(base: nat, m: Member): nat {
    base + |m.before| + |m.key| + |m.gap| + 1
  }

  lemma MemberParts(text: seq<Byte>, base: nat, m: Member)
    requires HoldsAt(text, base, PrintMember(m))
    ensures HoldsAt(text, base, m.before) && HoldsAt(text, base + |m.before|, m.key) &&
            HoldsAt(text, base + |m.before| + |m.key|, m.gap)
    ensures ByteIs(text, ItemBase(base, m) - 1, COLON) && HoldsAt(text, ItemBase(base, m), PrintItem(m.item))
    ensures |PrintMember(m)| == ItemBase(base, m) - base + |PrintItem(m.item)|
  {
    hide PrintItem, HoldsAt;
    HoldsAtSum(text, base, m.before + m.key + m.gap + [COLON], PrintItem(m.item));
    HoldsAtSum(text, base, m.before + m.key + m.gap, [COLON]);
    Split3(text, base, m.before, m.key, m.gap);
    ByteAt(text, ItemBase(base, m) - 1, COLON);
  }

  lemma ByteAt(text: seq<Byte>, i: nat, b: Byte)
    ensures HoldsAt(text, i, [b]) ==> ByteIs(text, i, b)
  {
  }

  lemma KeyRead(text: seq<Byte>, start: nat, key: seq<Byte>, decode: seq<Byte> -> string)
    requires HoldsAt(text, start, key)
    ensures KeyText(text, start, start + |key|, decode) == decode(key)
  {
  }

  /** A member's key and colon. */
  lemma ScanKey(text: seq<Byte>, base: nat, m: Member, decode: seq<Byte> -> string)
    requires Blank(m.before) && IsString(m.key) && Blank(m.gap) && HoldsAt(text, base, PrintMember(m))
    ensures
      var start := base + |m.before|;
      && ByteIs(text, start, QUOTE) && StringEnd(text, start + 1) == start + |m.key|
      && KeyText(text, start, start + |m.key|, decode) == decode(m.key)
      && Space(text, start + |m.key|) + 1 == ItemBase(base, m)
  {
    hide PrintMember, IsString, StringEnd, Space, KeyText, HoldsAt, Blank;
    var start := base + |m.before|;
    MemberParts(text, base, m);
    StringRead(text, start, m.key);
    KeyRead(text, start, m.key, decode);
    SpaceBlank(text, start + |m.key|, m.gap);
  }

  function MemberPlaces(m: Member, path: Path, base: nat, decode: seq<Byte> -> string): map<Path, nat> {
    var (start, inner) := (base + |m.before|, path + [Segment(m, decode)]);
    map[inner := start] + Below(m.item.value, inner, ItemBase(base, m) + |m.item.before|, decode)
  }

  /** A member's value, whose place is its key's. */
  lemma {:induction false} ScanMember(text: seq<Byte>, places: map<Path, nat>, base: nat, m: Member, path: Path,
                                      decode: seq<Byte> -> string)
    requires WellPlaced(m.item, decode)
    requires HoldsAt(text, base, PrintMember(m)) && Delimited(text, base + |PrintMember(m)|)
    requires Free(places, path, Segment(m, decode))
    ensures
      var inner := path + [Segment(m, decode)];
      var r := ScanValue(text, Scan(ItemBase(base, m), places[inner := base + |m.before|]), inner, decode);
      Space(text, r.offset) == base + |PrintMember(m)| && r.places == places + MemberPlaces(m, path, base, decode)
    decreases m
  {
    hide ScanValue, Free, WellPlaced, Below, PrintItem, PrintMember, Space, HoldsAt, Segment, NothingBelow, Delimited,
      Entry;
    var (start, inner) := (base + |m.before|, path + [Segment(m, decode)]);
    MemberParts(text, base, m);
    FreeBelow(places, path, Segment(m, decode));
    EnteredNothingBelow(places, inner, start);
    ScanItem(text, Scan(ItemBase(base, m), places[inner := start]), ItemBase(base, m), m.item, inner, decode);
    EnteredEntry(places, inner, start, ItemBase(base, m) + |m.item.before|);
    EnteredSum(places, inner, start, Below(m.item.value, inner, ItemBase(base, m) + |m.item.before|, decode));
  }

  lemma EnteredNothingBelow(places: map<Path, nat>, inner: Path, start: nat)
    requires NothingBelow(places, inner)
    ensures NothingBelow(places[inner := start], inner)
  {
  }

  lemma EnteredEntry(places: map<Path, nat>, inner: Path, start: nat, at: nat)
    ensures Entry(places[inner := start], inner, at) == places[inner := start]
  {
  }

  lemma EnteredSum(places: map<Path, nat>, inner: Path, start: nat, below: map<Path, nat>)
    ensures places[inner := start] + below == places + (map[inner := start] + below)
  {
  }

  lemma PrintMembersFirst(text: seq<Byte>, base: nat, members: seq<Member>)
    requires |members| > 0 && HoldsAt(text, base, PrintMembers(members)) &&
             ByteIs(text, base + |PrintMembers(members)|, CLOSE_OBJECT)
    ensures HoldsAt(text, base, PrintMember(members[0]))
    ensures
      var end := base + |PrintMember(members[0])|;
      && Delimited(text, end)
      && (|members| == 1 ==> text[end] == CLOSE_OBJECT && end == base + |PrintMembers(members)|)
      && (|members| > 1 ==>
            && text[end] == COMMA && HoldsAt(text, end + 1, PrintMembers(members[1..]))
            && base + |PrintMembers(members)| == end + 1 + |PrintMembers(members[1..])|)
  {
    hide PrintMember;
    var (first, rest) := (PrintMember(members[0]), PrintMembers(members[1..]));
    if |members| == 1 {
      assert first + [] == first;
    } else {
      HoldsAtSum(text, base, first, [COMMA] + rest);
      HoldsAtSum(text, base + |first|, [COMMA], rest);
      FirstByte(text, base + |first|, [COMMA]);
    }
  }

  lemma SegmentsDiffer(members: seq<Member>, i: nat, j: nat, decode: seq<Byte> -> string)
    requires i < j < |members| && DistinctKeys(members, decode)
    ensures Segment(members[i], decode) != Segment(members[j], decode)
  {
    if Segment(members[i], decode) == Segment(members[j], decode) {
      Pointers.EscapeInjective(decode(members[i].key), decode(members[j].key));
    }
  }

  lemma FreeMember(places: map<Path, nat>, members: seq<Member>, path: Path, base: nat, decode: seq<Byte> -> string)
    requires |members| > 0 && FreeKeys(places, path, members, decode) && DistinctKeys(members, decode)
    ensures FreeKeys(places + MemberPlaces(members[0], path, base, decode), path, members[1..], decode)
  {
    hide Free, BySegment, Below, Segment, Under;
    var m := members[0];
    var (start, inner) := (base + |m.before|, path + [Segment(m, decode)]);
    var value := ItemBase(base, m) + |m.item.before|;
    BelowUnder(m.item.value, inner, value, decode);
    UnderPush(Below(m.item.value, inner, value, decode), path, Segment(m, decode), start);
    forall i | 0 <= i < |members| - 1
      ensures Free(places + MemberPlaces(m, path, base, decode), path, Segment(members[1..][i], decode))
    {
      SegmentsDiffer(members, 0, i + 1, decode);
      FreeAfter(places, MemberPlaces(m, path, base, decode), path, Segment(m, decode), Segment(members[i + 1], decode));
    }
  }

  lemma SpaceBeforeMember(text: seq<Byte>, base: nat, m: Member)
    requires HoldsAt(text, base, PrintMember(m)) && Blank(m.before) && IsString(m.key)
    ensures Space(text, base) == base + |m.before|
  {
    hide PrintMember, Space, StringEnd, Body;
    MemberParts(text, base, m);
    StringRead(text, base + |m.before|, m.key);
    SpaceBlank(text, base, m.before);
  }

  lemma {:induction false} ScanMembersPrinted(text: seq<Byte>, places: map<Path, nat>, base: nat,
                                              members: seq<Member>, path: Path, decode: seq<Byte> -> string)
    requires |members| > 0 && Placed(members, decode) && DistinctKeys(members, decode) &&
             FreeKeys(places, path, members, decode)
    requires HoldsAt(text, base, PrintMembers(members)) && ByteIs(text, base + |PrintMembers(members)|, CLOSE_OBJECT)
    ensures ScanMembers(text, Scan(base + |members[0].before|, places), path, decode) ==
            Scan(base + |PrintMembers(members)|, places + BelowMembers(members, path, base, decode))
    decreases members, 0
  {
    hide ScanValue, Space, Free, WellPlaced, Below, PrintMember, PrintMembers, StringEnd, IsString, KeyText, HoldsAt,
      Segment, ScanMembers, BelowMembers, Pointers.Escape;
    var m := members[0];
    PrintMembersFirst(text, base, members);
    ScanKey(text, base, m, decode);
    ScanMember(text, places, base, m, path, decode);
    ScanMembersStep(text, Scan(base + |m.before|, places), path, decode);
    BelowMembersStep(members, path, base, decode);
    SegmentOf(m, decode);
    var here := MemberPlaces(m, path, base, decode);
    var next := base + |PrintMember(m)| + 1;
    if |members| > 1 {
      FreeMember(places, members, path, base, decode);
      MembersRest(members, decode);
      PrintMembersFirst(text, next, members[1..]);
      SpaceBeforeMember(text, next, members[1]);
      ScanMembersPrinted(text, places + here, next, members[1..], path, decode);
      PlacesSum(places, here, BelowMembers(members[1..], path, next, decode));
    }
  }

  lemma ScanMembersStep(text: seq<Byte>, s: Scan, path: Path, decode: seq<Byte> -> string)
    requires ByteIs(text, s.offset, QUOTE)
    ensures
      var end := StringEnd(text, s.offset + 1);
      var member := path + [Pointers.Escape(KeyText(text, s.offset, end, decode))];
      var value := ScanValue(text, Scan(Space(text, end) + 1, s.places[member := s.offset]), member, decode);
      var after := Space(text, value.offset);
      ScanMembers(text, s, path, decode) ==
      if ByteIs(text, after, COMMA) then ScanMembers(text, Scan(Space(text, after + 1), value.places), path, decode)
      else Scan(after, value.places)
  {
    hide ScanValue, Space, StringEnd, KeyText;
  }

  lemma SegmentOf(m: Member, decode: seq<Byte> -> string)
    ensures Segment(m, decode) == Pointers.Escape(decode(m.key))
  {
  }

  lemma MembersRest(members: seq<Member>, decode: seq<Byte> -> string)
    requires |members| > 1 && Placed(members, decode) && DistinctKeys(members, decode)
    ensures Placed(members[1..], decode) && DistinctKeys(members[1..], decode)
    ensures Blank(members[1].before) && IsString(members[1].key)
  {
  }

  lemma {:induction false} ScanObject(text: seq<Byte>, places: map<Path, nat>, offset: nat, blank: seq<Byte>,
                                      members: seq<Member>, path: Path, decode: seq<Byte> -> string)
    requires Blank(blank) && Placed(members, decode) && DistinctKeys(members, decode) && NothingBelow(places, path)
    requires
      var inner := if |members| == 0 then blank else PrintMembers(members);
      HoldsAt(text, offset, inner) && ByteIs(text, offset + |inner|, CLOSE_OBJECT)
    ensures
      var inner := if |members| == 0 then blank else PrintMembers(members);
      ScanMembers(text, Scan(Space(text, offset), places), path, decode) ==
      Scan(offset + |inner|, places + BelowMembers(members, path, offset, decode))
    decreases members, 1
  {
    hide Space, WellPlaced, PrintMembers, PrintMember, NothingBelow, ScanValue, IsString, Free;
    if |members| == 0 {
      SpaceBlank(text, offset, blank);
      assert places + map[] == places;
    } else {
      PrintMembersFirst(text, offset, members);
      SpaceBeforeMember(text, offset, members[0]);
      forall i | 0 <= i < |members|
        ensures Free(places, path, Segment(members[i], decode))
      {
        NothingBelowFree(places, path, Segment(members[i], decode));
      }
      ScanMembersPrinted(text, places, offset, members, path, decode);
    }
  }

  // ----- resolving pointers -----

  /** Where a pointer below a value leads, by following its segments: an item's value or a member's key. */
  function Locate(node: Node, path: Path, at: nat, decode: seq<Byte> -> string): Option<nat>
    requires |path| > 0
  {
    match node
    case Token(_) => None
    case Quoted(_) => None
    case List(_, items) => LocateItem(items, path, 0, at + 1, decode)
    case Object(_, members) => LocateMember(members, path, at + 1, decode)
  }

  function LocateItem(items: seq<Item>, path: Path, index: nat, at: nat, decode: seq<Byte> -> string): Option<nat>
    requires |path| > 0
  {
    if |items| == 0 then None
    else if path[0] != Pointers.Decimal(index)
    then LocateItem(items[1..], path, index + 1, at + |PrintItem(items[0])| + 1, decode)
    else if |path| == 1 then Some(at + |items[0].before|)
    else Locate(items[0].value, path[1..], at + |items[0].before|, decode)
  }

  function LocateMember(members: seq<Member>, path: Path, at: nat, decode: seq<Byte> -> string): Option<nat>
    requires |path| > 0
  {
    if |members| == 0 then None
    else
      var m := members[0];
      if path[0] != Segment(m, decode) then LocateMember(members[1..], path, at + |PrintMember(m)| + 1, decode)
      else if |path| == 1 then Some(at + |m.before|)
      else Locate(m.item.value, path[1..], ItemBase(at, m) + |m.item.before|, decode)
  }

  ghost predicate Answers(places: map<Path, nat>, path: Path, location: Option<nat>) {
    (path in places <==> location.Some?) && (path in places ==> places[path] == location.value)
  }

  /** One segment down: its own place, or what is below it. */
  lemma AnswersHere(prefix: Path, path: Path, start: nat, below: map<Path, nat>, location: Option<nat>)
    requires |path| > 0 && Under(below, prefix + [path[0]])
    requires |path| > 1 ==> Answers(below, prefix + [path[0]] + path[1..], location)
    ensures Answers(map[prefix + [path[0]] := start] + below, prefix + path,
                    if |path| == 1 then Some(start) else location)
  {
    var inner := prefix + [path[0]];
    if |path| == 1 {
      assert prefix + path == inner;
    } else {
      assert prefix + path == inner + path[1..];
      assert |prefix + path| > |inner|;
    }
  }

  lemma {:induction false} BelowAnswers(node: Node, prefix: Path, path: Path, at: nat, decode: seq<Byte> -> string)
    requires |path| > 0 && WellFormed(node, decode)
    ensures Answers(Below(node, prefix, at, decode), prefix + path, Locate(node, path, at, decode))
    decreases node
  {
    hide WellPlaced, IsString;
    match node
    case List(_, items) => ItemsAnswer(items, prefix, path, 0, at + 1, decode);
    case Object(_, members) => MembersAnswer(members, prefix, path, at + 1, decode);
    case _ =>
  }

  lemma Aside(a: map<Path, nat>, prefix: Path, path: Path, segment: string)
    requires |path| > 0 && BySegment(a, prefix, segment) && prefix + path in a
    ensures path[0] == segment
  {
  }

  lemma {:induction false} ItemAnswers(item: Item, prefix: Path, path: Path, at: nat, decode: seq<Byte> -> string)
    requires |path| > 0 && WellPlaced(item, decode)
    ensures Answers(Below(item.value, prefix, at, decode), prefix + path, Locate(item.value, path, at, decode))
    decreases item
  {
    BelowAnswers(item.value, prefix, path, at, decode);
  }

  lemma {:induction false} ItemsAnswer(items: seq<Item>, prefix: Path, path: Path, index: nat, at: nat,
                                       decode: seq<Byte> -> string)
    requires |path| > 0 && forall i :: 0 <= i < |items| ==> WellPlaced(items[i], decode)
    ensures Answers(BelowItems(items, prefix, index, at, decode), prefix + path,
                    LocateItem(items, path, index, at, decode))
    decreases items
  {
    hide Below, BelowItems, PrintItem, Under, BySegment, Locate, WellPlaced, UnderItems;
    if |items| == 0 {
      NoItems(items, prefix, index, at, decode);
    } else {
      var (item, segment) := (items[0], Pointers.Decimal(index));
      var (inner, start, next) := (prefix + [segment], at + |item.before|, at + |PrintItem(item)| + 1);
      BelowItemsStep(items, prefix, index, at, decode);
      BelowUnder(item.value, inner, start, decode);
      UnderPush(Below(item.value, inner, start, decode), prefix, segment, start);
      if path[0] == segment {
        if |path| > 1 { ItemAnswers(item, inner, path[1..], start, decode); }
        AnswersHere(prefix, path, start, Below(item.value, inner, start, decode),
                    if |path| > 1 then Locate(item.value, path[1..], start, decode) else None);
        ItemsUnder(items[1..], prefix, index + 1, next, decode);
        LaterItem(BelowItems(items[1..], prefix, index + 1, next, decode), prefix, path, index);
      } else {
        ItemsAnswer(items[1..], prefix, path, index + 1, next, decode);
        if prefix + path in ItemPlaces(item, inner, start, decode) {
          Aside(ItemPlaces(item, inner, start, decode), prefix, path, segment);
        }
      }
    }
  }

  lemma NoItems(items: seq<Item>, path: Path, index: nat, at: nat, decode: seq<Byte> -> string)
    requires |items| == 0
    ensures BelowItems(items, path, index, at, decode) == map[]
  {
  }

  lemma LaterItem(places: map<Path, nat>, prefix: Path, path: Path, index: nat)
    requires |path| > 0 && path[0] == Pointers.Decimal(index) && UnderItems(places, prefix, index + 1)
    ensures prefix + path !in places
  {
    Pointers.DecimalRoundTrip(index);
    assert (prefix + path)[|prefix|] == path[0];
  }

  lemma AnswersSum(first: map<Path, nat>, later: map<Path, nat>, path: Path, location: Option<nat>)
    requires (path !in later && Answers(first, path, location)) || (path !in first && Answers(later, path, location))
    ensures Answers(first + later, path, location)
  {
  }

  /** A member's own segment: its place, or what is below its value. */
  lemma {:induction false} MemberHere(m: Member, prefix: Path, path: Path, at: nat, decode: seq<Byte> -> string)
    requires |path| > 0 && path[0] == Segment(m, decode) && WellPlaced(m.item, decode)
    ensures Answers(MemberPlaces(m, prefix, at, decode), prefix + path, LocateMember([m], path, at, decode))
    decreases m
  {
    hide Below, Under, Locate, Segment, WellPlaced, Answers;
    var (inner, value) := (prefix + [path[0]], ItemBase(at, m) + |m.item.before|);
    BelowUnder(m.item.value, inner, value, decode);
    if |path| > 1 { ItemAnswers(m.item, inner, path[1..], value, decode); }
    AnswersHere(prefix, path, at + |m.before|, Below(m.item.value, inner, value, decode),
                if |path| > 1 then Locate(m.item.value, path[1..], value, decode) else None);
  }

  /** Nothing of a member has another member's segment. */
  lemma MemberAside(m: Member, prefix: Path, path: Path, at: nat, decode: seq<Byte> -> string)
    requires |path| > 0 && path[0] != Segment(m, decode)
    ensures prefix + path !in MemberPlaces(m, prefix, at, decode)
  {
    hide Below, Under, BySegment, Segment;
    var (inner, value) := (prefix + [Segment(m, decode)], ItemBase(at, m) + |m.item.before|);
    BelowUnder(m.item.value, inner, value, decode);
    UnderPush(Below(m.item.value, inner, value, decode), prefix, Segment(m, decode), at + |m.before|);
    if prefix + path in MemberPlaces(m, prefix, at, decode) {
      Aside(MemberPlaces(m, prefix, at, decode), prefix, path, Segment(m, decode));
    }
  }

  lemma {:induction false} MembersAnswer(members: seq<Member>, prefix: Path, path: Path, at: nat,
                                         decode: seq<Byte> -> string)
    requires |path| > 0 && Placed(members, decode) && DistinctKeys(members, decode)
    ensures Answers(BelowMembers(members, prefix, at, decode), prefix + path, LocateMember(members, path, at, decode))
    decreases members
  {
    hide BelowMembers, MemberPlaces, PrintMember, Locate, Segment, WellPlaced, IsString;
    if |members| == 0 {
      NoMembers(members, prefix, at, decode);
    } else {
      var (m, next) := (members[0], at + |PrintMember(members[0])| + 1);
      var (here, rest) := (MemberPlaces(m, prefix, at, decode), BelowMembers(members[1..], prefix, next, decode));
      BelowMembersStep(members, prefix, at, decode);
      if path[0] == Segment(m, decode) {
        MemberHere(m, prefix, path, at, decode);
        MembersUnder(members[1..], prefix, next, decode);
        LaterMember(rest, prefix, path, members, decode);
      } else {
        if |members| > 1 { MembersRest(members, decode); }
        MembersAnswer(members[1..], prefix, path, next, decode);
        MemberAside(m, prefix, path, at, decode);
      }
      AnswersSum(here, rest, prefix + path, LocateMember(members, path, at, decode));
    }
  }

  lemma LaterMember(places: map<Path, nat>, prefix: Path, path: Path, members: seq<Member>, decode: seq<Byte> -> string)
    requires |path| > 0 && |members| > 0 && path[0] == Segment(members[0], decode) && DistinctKeys(members, decode)
    requires UnderMembers(places, prefix, members[1..], decode)
    ensures prefix + path !in places
  {
    if prefix + path in places {
      assert (prefix + path)[|prefix|] == path[0];
      assert IsKey(path[0], members[1..], decode);
      var i :| 0 <= i < |members| - 1 && path[0] == Segment(members[1..][i], decode);
      SegmentsDiffer(members, 0, i + 1, decode);
    }
  }

  // ----- whole documents -----

  /** `json_positions`. */
  method Positions(text: seq<Byte>, decode: seq<Byte> -> string) returns (positions: map<string, nat>)
    ensures Spells(positions, ScanValue(text, Scan(0, map[]), [], decode).places)
  {
    var scanner := new Scanner(text, decode);
    scanner.ReadValue("", []);
    positions := scanner.positions;
  }

  /** A printed document's positions: its root, and exactly the pointers that lead to a value or a key. */
  lemma DocumentPositions(before: seq<Byte>, node: Node, after: seq<Byte>, decode: seq<Byte> -> string, path: Path)
    requires Blank(before) && WellFormed(node, decode) && Blank(after)
    ensures
      var text := before + Print(node) + after;
      var r := ScanValue(text, Scan(0, map[]), [], decode);
      && r.offset == |before + Print(node)|
      && Answers(r.places, path, if path == [] then Some(|before|) else Locate(node, path, |before|, decode))
  {
    hide ScanValue, Print, WellFormed, Below, Locate;
    var text := before + Print(node) + after;
    var (at, end) := (|before|, |before| + |Print(node)|);
    assert HoldsAt(text, 0, before + Print(node));
    if |after| > 0 { assert text[end] == after[0]; }
    ScanPrinted(text, Scan(0, map[]), before, node, [], decode);
    BelowUnder(node, [], at, decode);
    if path != [] {
      BelowAnswers(node, [], path, at, decode);
      assert [] + path == path;
    }
  }

  /** The same for pointer strings: what the finished map answers. */
  lemma DocumentPointers(before: seq<Byte>, node: Node, after: seq<Byte>, decode: seq<Byte> -> string,
                         positions: map<string, nat>, pointer: string)
    requires Blank(before) && WellFormed(node, decode) && Blank(after)
    requires Spells(positions, ScanValue(before + Print(node) + after, Scan(0, map[]), [], decode).places)
    ensures
      var path := Pointers.Segments(pointer);
      var location :=
        if path.None? then None else if path.value == [] then Some(|before|)
        else Locate(node, path.value, |before|, decode);
      (pointer in positions <==> location.Some?) && (pointer in positions ==> positions[pointer] == location.value)
  {
    hide ScanValue, Print, WellFormed, Locate, Blank;
    var places := ScanValue(before + Print(node) + after, Scan(0, map[]), [], decode).places;
    if pointer in positions {
      var path :| path in places && Pointers.Join(path) == pointer;
      Pointers.PointerRoundTrip(pointer, path);
      DocumentPositions(before, node, after, decode, path);
    }
    if Pointers.Segments(pointer).Some? {
      SegmentsJoin(pointer);
      DocumentPositions(before, node, after, decode, Pointers.Segments(pointer).value);
    }
  }

  lemma SegmentsJoin(pointer: string)
    requires Pointers.Segments(pointer).Some?
    ensures Pointers.Join(Pointers.Segments(pointer).value) == pointer
  {
    if |pointer| > 0 { Pointers.JoinSplit(pointer[1..]); }
  }
}

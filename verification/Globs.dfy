// Safe relative globs and their brace alternatives (globs.rs).

module Globs {
  import opened Common
  import Pointers

  // ----- expansion -----

  function Open(pattern: string): (i: nat)
    ensures i <= |pattern|
    ensures forall k :: 0 <= k < i ==> pattern[k] != '{'
    ensures i < |pattern| ==> pattern[i] == '{'
  {
    OpenFrom(pattern, 0)
  }

  function OpenFrom(pattern: string, from: nat): (i: nat)
    requires from <= |pattern|
    ensures from <= i <= |pattern|
    ensures forall k :: from <= k < i ==> pattern[k] != '{'
    ensures i < |pattern| ==> pattern[i] == '{'
    decreases |pattern| - from
  {
    if from == |pattern| || pattern[from] == '{' then from else OpenFrom(pattern, from + 1)
  }

  /** Inside `depth` open braces: the outermost pair's separators to come, then its closing brace. */
  function Stops(pattern: string, i: nat, depth: nat): (stops: Option<seq<nat>>)
    requires i <= |pattern| && depth > 0
    ensures stops.Some? ==> Increasing(stops.value, i, |pattern|)
    decreases |pattern| - i
  {
    if i == |pattern| then None
    else if pattern[i] == '{' then Stops(pattern, i + 1, depth + 1)
    else if pattern[i] == '}' then if depth == 1 then Some([i]) else Stops(pattern, i + 1, depth - 1)
    else if pattern[i] == ',' && depth == 1 then After([i], Stops(pattern, i + 1, depth))
    else Stops(pattern, i + 1, depth)
  }

  function After(found: seq<nat>, stops: Option<seq<nat>>): Option<seq<nat>> {
    if stops.None? then None else Some(found + stops.value)
  }

  ghost predicate Increasing(stops: seq<nat>, low: nat, high: nat) {
    && |stops| > 0
    && (forall k :: 0 <= k < |stops| ==> low <= stops[k] < high)
    && (forall j, k :: 0 <= j < k < |stops| ==> stops[j] < stops[k])
  }

  /** All alternatives of a pattern, the leftmost brace first; None for an unclosed brace. */
  function Expand(pattern: string): Option<seq<string>>
    decreases |pattern|, 1, 0
  {
    var start := Open(pattern);
    if start == |pattern| then Some([pattern])
    else
      match Stops(pattern, start + 1, 1)
      case None => None
      case Some(stops) => Alternatives(pattern, start, start + 1, stops)
  }

  function Alternatives(pattern: string, start: nat, previous: nat, stops: seq<nat>): Option<seq<string>>
    requires start < previous && Increasing(stops, previous, |pattern|)
    decreases |pattern|, 0, |stops|
  {
    var (first, last) := (stops[0], stops[|stops| - 1]);
    var next := pattern[..start] + pattern[previous..first] + pattern[last + 1..];
    match Expand(next)
    case None => None
    case Some(words) =>
      if |stops| == 1 then Some(words)
      else
        match Alternatives(pattern, start, stops[0] + 1, stops[1..])
        case None => None
        case Some(others) => Some(words + others)
  }

  function Joined(words: seq<string>, more: Option<seq<string>>): Option<seq<string>> {
    if more.None? then None else Some(words + more.value)
  }

  lemma AfterAfter(found: seq<nat>, i: nat, stops: Option<seq<nat>>)
    ensures After(found + [i], stops) == After(found, After([i], stops))
  {
    if stops.Some? { assert found + [i] + stops.value == found + ([i] + stops.value); }
  }

  /** The first loop of `expand`: the brace's separators and its end. */
  method FindStops(pattern: string, start: nat) returns (stops: Option<seq<nat>>)
    requires start < |pattern| && pattern[start] == '{'
    ensures stops == Stops(pattern, start + 1, 1)
  {
    hide Increasing;
    var depth: nat := 0;
    var separators: seq<nat> := [];
    var i := start;
    while i < |pattern|
      invariant start <= i <= |pattern|
      invariant i == start ==> depth == 0 && separators == []
      invariant i > start ==> depth > 0 && After(separators, Stops(pattern, i, depth)) == Stops(pattern, start + 1, 1)
    {
      if pattern[i] == '{' {
        depth := depth + 1;
      } else if pattern[i] == '}' {
        depth := depth - 1;
        if depth == 0 { return Some(separators + [i]); }
      } else if pattern[i] == ',' && depth == 1 {
        AfterAfter(separators, i, Stops(pattern, i + 1, depth));
        separators := separators + [i];
      }
      i := i + 1;
      if i == start + 1 && Stops(pattern, i, depth).Some? {
        assert [] + Stops(pattern, i, depth).value == Stops(pattern, i, depth).value;
      }
    }
    stops := None;
  }

  lemma AlternativesStep(pattern: string, start: nat, previous: nat, stops: seq<nat>, words: seq<string>)
    requires start < previous && Increasing(stops, previous, |pattern|)
    ensures |stops| > 1 ==>
              Increasing(stops[1..], stops[0] + 1, |pattern|) && stops[1..][|stops| - 2] == stops[|stops| - 1]
    ensures
      var (first, last) := (stops[0], stops[|stops| - 1]);
      var more := Expand(pattern[..start] + pattern[previous..first] + pattern[last + 1..]);
      && (more.None? ==> Alternatives(pattern, start, previous, stops).None?)
      && (more.Some? && |stops| > 1 ==>
            Joined(words, Alternatives(pattern, start, previous, stops)) ==
            Joined(words + more.value, Alternatives(pattern, start, first + 1, stops[1..])))
      && (more.Some? && |stops| == 1 ==> Alternatives(pattern, start, previous, stops) == more)
  {
    if |stops| > 1 {
      var (first, last) := (stops[0], stops[|stops| - 1]);
      var more := Expand(pattern[..start] + pattern[previous..first] + pattern[last + 1..]);
      var others := Alternatives(pattern, start, first + 1, stops[1..]);
      if more.Some? && others.Some? { assert words + (more.value + others.value) == words + more.value + others.value; }
    }
  }

  /** `expand`. */
  method ExpandBraces(pattern: string) returns (alternatives: Option<seq<string>>)
    ensures alternatives == Expand(pattern)
    decreases |pattern|
  {
    hide Stops, Alternatives, Increasing;
    var start := OpenFrom(pattern, 0);
    if start == |pattern| { return Some([pattern]); }
    var stops := FindStops(pattern, start);
    if stops.None? { return None; }
    StopsWithin(stops.value, start + 1, |pattern|);
    var end := stops.value[|stops.value| - 1];
    var words: seq<string> := [];
    var previous := start + 1;
    ghost var left := stops.value;
    JoinedNone(Alternatives(pattern, start, previous, left));
    for k := 0 to |stops.value|
      invariant left == stops.value[k..]
      invariant k < |stops.value| ==>
                  && start < previous && Increasing(left, previous, |pattern|)
                  && Joined(words, Alternatives(pattern, start, previous, left)) == Expand(pattern)
      invariant k == |stops.value| ==> Some(words) == Expand(pattern)
    {
      var stop := stops.value[k];
      StopsWithin(left, previous, |pattern|);
      AlternativesStep(pattern, start, previous, left, words);
      var next := pattern[..start] + pattern[previous..stop] + pattern[end + 1..];
      var more := ExpandBraces(next);
      if more.None? { return None; }
      words := words + more.value;
      previous := stop + 1;
      left := left[1..];
    }
    alternatives := Some(words);
  }

  lemma JoinedNone(more: Option<seq<string>>)
    ensures Joined([], more) == more
  {
    if more.Some? { assert [] + more.value == more.value; }
  }

  lemma StopsWithin(stops: seq<nat>, low: nat, high: nat)
    requires Increasing(stops, low, high)
    ensures |stops| > 0 && low <= stops[0] <= stops[|stops| - 1] < high
  {
  }

  // ----- what a pattern means -----

  /** A pattern's parts: characters, and braces around alternatives. */
  datatype Part = Text(c: char) | Group(alternatives: seq<Pattern>)

  datatype Pattern = Pattern(parts: seq<Part>)

  function Print(parts: seq<Part>): string {
    if |parts| == 0 then "" else PrintPart(parts[0]) + Print(parts[1..])
  }

  function PrintPart(part: Part): string {
    match part
    case Text(c) => [c]
    case Group(alternatives) => "{" + PrintAll(alternatives) + "}"
  }

  function PrintAll(alternatives: seq<Pattern>): string {
    if |alternatives| == 0 then ""
    else if |alternatives| == 1 then Print(alternatives[0].parts)
    else Print(alternatives[0].parts) + "," + PrintAll(alternatives[1..])
  }

  /** Characters that stand for themselves; a comma or a closing brace does so only outside braces. */
  predicate Plain(c: char, inside: bool) {
    c != '{' && (inside ==> c != ',' && c != '}')
  }

  predicate WellFormed(parts: seq<Part>, inside: bool) {
    forall i :: 0 <= i < |parts| ==>
      match parts[i]
      case Text(c) => Plain(c, inside)
      case Group(alternatives) => |alternatives| > 0 && forall j :: 0 <= j < |alternatives| ==>
        WellFormed(alternatives[j].parts, true)
  }

  /** Every choice from a pattern, the leftmost brace's alternatives varying slowest. */
  function Words(parts: seq<Part>): seq<string> {
    if |parts| == 0 then [""] else Cross(Choices(parts[0]), Words(parts[1..]))
  }

  function Choices(part: Part): seq<string> {
    match part
    case Text(c) => [[c]]
    case Group(alternatives) => AllWords(alternatives)
  }

  function AllWords(alternatives: seq<Pattern>): seq<string> {
    if |alternatives| == 0 then [] else Words(alternatives[0].parts) + AllWords(alternatives[1..])
  }

  function Prefixed(x: string, ys: seq<string>): (r: seq<string>)
    ensures |r| == |ys| && forall i :: 0 <= i < |ys| ==> r[i] == x + ys[i]
  {
    seq(|ys|, i requires 0 <= i < |ys| => x + ys[i])
  }

  function Cross(xs: seq<string>, ys: seq<string>): seq<string> {
    if |xs| == 0 then [] else Prefixed(xs[0], ys) + Cross(xs[1..], ys)
  }

  lemma Associative<T>(a: seq<T>, b: seq<T>, c: seq<T>)
    ensures a + b + c == a + (b + c)
  {
  }

  lemma {:induction false} CrossSum(xs: seq<string>, others: seq<string>, ys: seq<string>)
    ensures Cross(xs + others, ys) == Cross(xs, ys) + Cross(others, ys)
  {
    if |xs| == 0 {
      assert xs + others == others;
    } else {
      CrossSum(xs[1..], others, ys);
      assert (xs + others)[1..] == xs[1..] + others;
      Associative(Prefixed(xs[0], ys), Cross(xs[1..], ys), Cross(others, ys));
    }
  }

  lemma {:induction false} CrossCross(xs: seq<string>, ys: seq<string>, zs: seq<string>)
    ensures Cross(Cross(xs, ys), zs) == Cross(xs, Cross(ys, zs))
  {
    if |xs| > 0 {
      CrossSum(Prefixed(xs[0], ys), Cross(xs[1..], ys), zs);
      PrefixedCross(xs[0], ys, zs);
      CrossCross(xs[1..], ys, zs);
    }
  }

  lemma {:induction false} PrefixedCross(x: string, ys: seq<string>, zs: seq<string>)
    ensures Cross(Prefixed(x, ys), zs) == Prefixed(x, Cross(ys, zs))
  {
    if |ys| > 0 {
      PrefixedCross(x, ys[1..], zs);
      assert Prefixed(x, ys)[1..] == Prefixed(x, ys[1..]);
      var all := Cross(ys, zs);
      forall i | 0 <= i < |zs|
        ensures Prefixed(x + ys[0], zs)[i] == x + Prefixed(ys[0], zs)[i]
      {
        Associative(x, ys[0], zs[i]);
      }
      assert Prefixed(x, all) == Prefixed(x + ys[0], zs) + Prefixed(x, Cross(ys[1..], zs));
    }
  }

  lemma {:induction false} WordsSum(parts: seq<Part>, rest: seq<Part>)
    ensures Words(parts + rest) == Cross(Words(parts), Words(rest))
  {
    if |parts| == 0 {
      assert parts + rest == rest;
      assert forall y: string :: "" + y == y;
      assert Prefixed("", Words(rest)) == Words(rest);
      assert [""][1..] == [];
    } else {
      WordsSum(parts[1..], rest);
      assert (parts + rest)[1..] == parts[1..] + rest;
      CrossCross(Choices(parts[0]), Words(parts[1..]), Words(rest));
    }
  }

  lemma {:induction false} PrintSum(parts: seq<Part>, rest: seq<Part>)
    ensures Print(parts + rest) == Print(parts) + Print(rest)
  {
    if |parts| == 0 {
      assert parts + rest == rest;
    } else {
      PrintSum(parts[1..], rest);
      assert (parts + rest)[1..] == parts[1..] + rest;
      Associative(PrintPart(parts[0]), Print(parts[1..]), Print(rest));
    }
  }

  // ----- scanning a printed group -----

  /** Parts inside braces have no stops of their own. */
  lemma {:induction false} ScanParts(pattern: string, i: nat, depth: nat, parts: seq<Part>)
    requires depth > 0 && WellFormed(parts, true) && HoldsAt(pattern, i, Print(parts))
    ensures Stops(pattern, i, depth) == Stops(pattern, i + |Print(parts)|, depth)
    decreases parts
  {
    hide Increasing;
    if |parts| > 0 {
      var first := PrintPart(parts[0]);
      HoldsAtSum(pattern, i, first, Print(parts[1..]));
      ScanParts(pattern, i + |first|, depth, parts[1..]);
      ScanPart(pattern, i, depth, parts[0]);
    }
  }

  lemma {:induction false} ScanPart(pattern: string, i: nat, depth: nat, part: Part)
    requires depth > 0 && WellFormed([part], true) && HoldsAt(pattern, i, PrintPart(part))
    ensures Stops(pattern, i, depth) == Stops(pattern, i + |PrintPart(part)|, depth)
    decreases part
  {
    hide Increasing, PrintAll;
    assert [part][0] == part;
    assert pattern[i] == pattern[i..i + |PrintPart(part)|][0];
    if part.Group? {
      var inner := PrintAll(part.alternatives);
      HoldsAtSum(pattern, i, "{" + inner, "}");
      HoldsAtSum(pattern, i, "{", inner);
      assert pattern[i + 1 + |inner|] == pattern[i + 1 + |inner|..i + 2 + |inner|][0];
      ScanNested(pattern, i + 1, depth + 1, part.alternatives);
    }
  }

  lemma {:induction false} ScanNested(pattern: string, i: nat, depth: nat, alternatives: seq<Pattern>)
    requires depth > 1 && HoldsAt(pattern, i, PrintAll(alternatives))
    requires forall j :: 0 <= j < |alternatives| ==> WellFormed(alternatives[j].parts, true)
    ensures Stops(pattern, i, depth) == Stops(pattern, i + |PrintAll(alternatives)|, depth)
    decreases alternatives
  {
    hide Increasing;
    if |alternatives| == 1 {
      ScanParts(pattern, i, depth, alternatives[0].parts);
    } else if |alternatives| > 1 {
      var first := Print(alternatives[0].parts);
      var rest := PrintAll(alternatives[1..]);
      HoldsAtSum(pattern, i, first + ",", rest);
      HoldsAtSum(pattern, i, first, ",");
      assert first + "," + rest == PrintAll(alternatives);
      ScanParts(pattern, i, depth, alternatives[0].parts);
      assert pattern[i + |first|] == pattern[i + |first|..i + |first| + 1][0];
      ScanNested(pattern, i + |first| + 1, depth, alternatives[1..]);
    }
  }

  /** Where the separators and the end of printed alternatives lie. */
  function GroupStops(i: nat, alternatives: seq<Pattern>): (stops: seq<nat>)
    requires |alternatives| > 0
    ensures |stops| == |alternatives| && stops[0] == i + |Print(alternatives[0].parts)|
    ensures stops[|stops| - 1] == i + |PrintAll(alternatives)|
    decreases |alternatives|
  {
    var stop := i + |Print(alternatives[0].parts)|;
    if |alternatives| == 1 then [stop] else [stop] + GroupStops(stop + 1, alternatives[1..])
  }

  lemma PrintAllFirst(alternatives: seq<Pattern>)
    requires |alternatives| > 1
    ensures PrintAll(alternatives) + "}" == Print(alternatives[0].parts) + ("," + (PrintAll(alternatives[1..]) + "}"))
  {
  }

  lemma {:induction false} ScanGroup(pattern: string, i: nat, alternatives: seq<Pattern>)
    requires |alternatives| > 0 && HoldsAt(pattern, i, PrintAll(alternatives) + "}")
    requires forall j :: 0 <= j < |alternatives| ==> WellFormed(alternatives[j].parts, true)
    ensures Stops(pattern, i, 1) == Some(GroupStops(i, alternatives))
    decreases |alternatives|
  {
    hide Increasing, WellFormed, Print;
    var first := Print(alternatives[0].parts);
    var stop := i + |first|;
    if |alternatives| == 1 {
      HoldsAtSum(pattern, i, first, "}");
    } else {
      var rest := PrintAll(alternatives[1..]) + "}";
      PrintAllFirst(alternatives);
      HoldsAtSum(pattern, i, first, "," + rest);
      HoldsAtSum(pattern, stop, ",", rest);
      ScanGroup(pattern, stop + 1, alternatives[1..]);
    }
    assert pattern[stop] == pattern[stop..stop + 1][0];
    ScanParts(pattern, i, 1, alternatives[0].parts);
  }

  // ----- expansion of a printed pattern -----

  /** The words of a pattern whose first brace is replaced by each alternative in turn. */
  ghost function Chosen(texts: seq<Part>, alternatives: seq<Pattern>, rest: seq<Part>): seq<string> {
    if |alternatives| == 0 then []
    else Words(texts + alternatives[0].parts + rest) + Chosen(texts, alternatives[1..], rest)
  }

  ghost predicate ChoicesExpand(texts: seq<Part>, alternatives: seq<Pattern>, rest: seq<Part>) {
    forall j :: 0 <= j < |alternatives| ==>
      Expand(Print(texts + alternatives[j].parts + rest)) == Some(Words(texts + alternatives[j].parts + rest))
  }

  /** A printed group with its place in a pattern. */
  ghost predicate Placed(pattern: string, texts: seq<Part>, previous: nat, alternatives: seq<Pattern>, rest: seq<Part>)
    requires |alternatives| > 0
  {
    && |Print(texts)| < previous && HoldsAt(pattern, 0, Print(texts))
    && HoldsAt(pattern, previous, PrintAll(alternatives) + "}")
    && pattern[previous + |PrintAll(alternatives)| + 1..] == Print(rest)
    && Increasing(GroupStops(previous, alternatives), previous, |pattern|)
  }

  lemma PlacedNext(pattern: string, texts: seq<Part>, previous: nat, alternatives: seq<Pattern>, rest: seq<Part>)
    requires |alternatives| > 0 && Placed(pattern, texts, previous, alternatives, rest)
    ensures
      var stops := GroupStops(previous, alternatives);
      var (first, last) := (stops[0], stops[|stops| - 1]);
      && |Print(texts)| <= previous <= first <= last < |pattern|
      && pattern[..|Print(texts)|] + pattern[previous..first] + pattern[last + 1..] ==
         Print(texts + alternatives[0].parts + rest)
    ensures |alternatives| > 1 ==>
              && Placed(pattern, texts, GroupStops(previous, alternatives)[0] + 1, alternatives[1..], rest)
              && GroupStops(previous, alternatives)[1..] ==
                 GroupStops(GroupStops(previous, alternatives)[0] + 1, alternatives[1..])
  {
    hide Print, PrintAll, WellFormed;
    var stops := GroupStops(previous, alternatives);
    PrintSum(texts + alternatives[0].parts, rest);
    PrintSum(texts, alternatives[0].parts);
    FirstAt(pattern, previous, alternatives);
    StopsWithin(stops, previous, |pattern|);
    if |alternatives| > 1 {
      assert stops[1..] == GroupStops(stops[0] + 1, alternatives[1..]);
    }
  }

  lemma {:induction false} ExpandChoices(pattern: string, texts: seq<Part>, previous: nat, alternatives: seq<Pattern>,
                                         rest: seq<Part>)
    requires |alternatives| > 0 && ChoicesExpand(texts, alternatives, rest)
    requires Placed(pattern, texts, previous, alternatives, rest)
    ensures Alternatives(pattern, |Print(texts)|, previous, GroupStops(previous, alternatives)) ==
            Some(Chosen(texts, alternatives, rest))
    decreases |alternatives|
  {
    hide WellFormed, Words, Expand, Print, PrintAll, Alternatives, HoldsAt;
    var stops := GroupStops(previous, alternatives);
    var whole := texts + alternatives[0].parts + rest;
    PlacedNext(pattern, texts, previous, alternatives, rest);
    AlternativesStep(pattern, |Print(texts)|, previous, stops, []);
    assert Expand(Print(whole)) == Some(Words(whole));
    if |alternatives| > 1 {
      assert ChoicesExpand(texts, alternatives[1..], rest);
      ExpandChoices(pattern, texts, stops[0] + 1, alternatives[1..], rest);
      JoinedNone(Alternatives(pattern, |Print(texts)|, previous, stops));
      assert [] + Words(whole) == Words(whole);
    } else {
      assert Words(whole) + [] == Words(whole);
    }
  }

  lemma FirstAt(pattern: string, i: nat, alternatives: seq<Pattern>)
    requires |alternatives| > 0 && HoldsAt(pattern, i, PrintAll(alternatives) + "}")
    ensures HoldsAt(pattern, i, Print(alternatives[0].parts))
    ensures |alternatives| > 1 ==>
              && HoldsAt(pattern, i + |Print(alternatives[0].parts)| + 1, PrintAll(alternatives[1..]) + "}")
              && i + |PrintAll(alternatives)| == i + |Print(alternatives[0].parts)| + 1 + |PrintAll(alternatives[1..])|
  {
    hide Print, HoldsAt;
    var first := Print(alternatives[0].parts);
    if |alternatives| == 1 {
      HoldsAtSum(pattern, i, first, "}");
    } else {
      var rest := PrintAll(alternatives[1..]) + "}";
      PrintAllFirst(alternatives);
      HoldsAtSum(pattern, i, first, "," + rest);
      HoldsAtSum(pattern, i + |first|, ",", rest);
    }
  }

  lemma {:induction false} CrossOne(x: string, ys: seq<string>)
    ensures Cross([x], ys) == Prefixed(x, ys)
  {
  }

  /** Choosing first and crossing then is crossing all choices. */
  lemma {:induction false} ChosenCross(texts: seq<Part>, t: string, alternatives: seq<Pattern>, rest: seq<Part>)
    requires Words(texts) == [t]
    ensures Chosen(texts, alternatives, rest) == Prefixed(t, Cross(AllWords(alternatives), Words(rest)))
    decreases |alternatives|
  {
    if |alternatives| > 0 {
      var first := alternatives[0].parts;
      ChosenCross(texts, t, alternatives[1..], rest);
      assert texts + first + rest == texts + (first + rest);
      WordsSum(texts, first + rest);
      WordsSum(first, rest);
      CrossOne(t, Words(first + rest));
      CrossSum(Words(first), AllWords(alternatives[1..]), Words(rest));
      PrefixedSum(t, Cross(Words(first), Words(rest)), Cross(AllWords(alternatives[1..]), Words(rest)));
    }
  }

  lemma PrefixedSum(t: string, xs: seq<string>, ys: seq<string>)
    ensures Prefixed(t, xs + ys) == Prefixed(t, xs) + Prefixed(t, ys)
  {
  }

  /** The parts before the first brace. */
  function Leading(parts: seq<Part>): (k: nat)
    ensures k <= |parts| && (k < |parts| ==> parts[k].Group?)
    ensures forall i :: 0 <= i < k ==> parts[i].Text?
  {
    if |parts| == 0 || parts[0].Group? then 0 else 1 + Leading(parts[1..])
  }

  lemma {:induction false} TextsOnly(texts: seq<Part>)
    requires WellFormed(texts, false) && forall i :: 0 <= i < |texts| ==> texts[i].Text?
    ensures Words(texts) == [Print(texts)] && '{' !in Print(texts)
  {
    if |texts| > 0 {
      TextsOnly(texts[1..]);
      CrossOne([texts[0].c], Words(texts[1..]));
    }
  }

  lemma {:induction false} PrintAllHas(alternatives: seq<Pattern>, j: nat)
    requires j < |alternatives|
    ensures |Print(alternatives[j].parts)| <= |PrintAll(alternatives)|
    decreases |alternatives|
  {
    if j > 0 { PrintAllHas(alternatives[1..], j - 1); }
  }

  /** A text around an opening brace and what follows it. */
  lemma Around(t: string, inner: string, rest: string)
    requires '{' !in t
    ensures
      var pattern := t + ("{" + inner) + rest;
      && |pattern| == |t| + 1 + |inner| + |rest| && Open(pattern) == |t|
      && HoldsAt(pattern, 0, t) && HoldsAt(pattern, |t| + 1, inner) && pattern[|t| + 1 + |inner|..] == rest
  {
    var pattern := t + ("{" + inner) + rest;
    assert forall k :: 0 <= k < |t| ==> pattern[k] == t[k];
    assert pattern[|t|] == '{';
  }

  /** The printed pattern around its first brace. */
  lemma PrintAround(texts: seq<Part>, alternatives: seq<Pattern>, rest: seq<Part>)
    requires |alternatives| > 0 && WellFormed(texts, false) && forall i :: 0 <= i < |texts| ==> texts[i].Text?
    requires forall j :: 0 <= j < |alternatives| ==> WellFormed(alternatives[j].parts, true)
    ensures
      var pattern := Print(texts + [Group(alternatives)] + rest);
      var t := |Print(texts)|;
      && t < |pattern| && Open(pattern) == t
      && |pattern| == t + |PrintAll(alternatives)| + 2 + |Print(rest)|
      && Stops(pattern, t + 1, 1) == Some(GroupStops(t + 1, alternatives))
      && Placed(pattern, texts, t + 1, alternatives, rest)
  {
    hide PrintAll, Print, HoldsAt, Open, OpenFrom, WellFormed, Stops, GroupStops;
    PrintSum(texts + [Group(alternatives)], rest);
    PrintSum(texts, [Group(alternatives)]);
    TextsOnly(texts);
    PrintOne(alternatives);
    Around(Print(texts), PrintAll(alternatives) + "}", Print(rest));
    ScanGroup(Print(texts + [Group(alternatives)] + rest), |Print(texts)| + 1, alternatives);
  }

  lemma PrintOne(alternatives: seq<Pattern>)
    ensures Print([Group(alternatives)]) == "{" + (PrintAll(alternatives) + "}")
  {
  }

  lemma Shorter(texts: seq<Part>, alternatives: seq<Pattern>, rest: seq<Part>, j: nat)
    requires j < |alternatives| && WellFormed(texts, false) && WellFormed(rest, false) &&
             WellFormed(alternatives[j].parts, true)
    requires |Print(texts + [Group(alternatives)] + rest)| ==
             |Print(texts)| + |PrintAll(alternatives)| + 2 + |Print(rest)|
    ensures |Print(texts + alternatives[j].parts + rest)| < |Print(texts + [Group(alternatives)] + rest)|
    ensures WellFormed(texts + alternatives[j].parts + rest, false)
  {
    hide Print, PrintAll;
    PrintAllHas(alternatives, j);
    PrintSum(texts + alternatives[j].parts, rest);
    PrintSum(texts, alternatives[j].parts);
  }

  /** Expansion returns exactly a pattern's words, the leftmost brace's alternatives varying slowest. */
  lemma {:induction false} ExpandPrint(parts: seq<Part>)
    requires WellFormed(parts, false)
    ensures Expand(Print(parts)) == Some(Words(parts))
    decreases |Print(parts)|
  {
    hide Print, Words, Stops, Alternatives, Placed, GroupStops, PrintAll;
    var k := Leading(parts);
    var texts := parts[..k];
    TextsOnly(texts);
    if k == |parts| {
      assert texts == parts;
    } else {
      var alternatives := parts[k].alternatives;
      var rest := parts[k + 1..];
      assert parts == texts + [Group(alternatives)] + rest;
      PrintAround(texts, alternatives, rest);
      forall j | 0 <= j < |alternatives|
        ensures Expand(Print(texts + alternatives[j].parts + rest)) == Some(Words(texts + alternatives[j].parts + rest))
      {
        Shorter(texts, alternatives, rest, j);
        ExpandPrint(texts + alternatives[j].parts + rest);
      }
      ExpandChoices(Print(parts), texts, |Print(texts)| + 1, alternatives, rest);
      ChosenCross(texts, Print(texts), alternatives, rest);
      WordsAround(texts, alternatives, rest);
    }
  }

  lemma WordsAround(texts: seq<Part>, alternatives: seq<Pattern>, rest: seq<Part>)
    requires Words(texts) == [Print(texts)]
    ensures Words(texts + [Group(alternatives)] + rest) ==
            Prefixed(Print(texts), Cross(AllWords(alternatives), Words(rest)))
  {
    hide Print;
    var tail := [Group(alternatives)] + rest;
    assert texts + [Group(alternatives)] + rest == texts + tail;
    WordsSum(texts, tail);
    assert tail[1..] == rest;
    CrossOne(Print(texts), Words(tail));
  }

  // ----- which texts expand at all -----

  /** Open braces after a text; a closing brace without an open one counts for nothing. */
  function Depth(s: string, depth: nat): nat
    decreases |s|
  {
    if |s| == 0 then depth
    else
      var before := Depth(s[..|s| - 1], depth);
      if s[|s| - 1] == '{' then before + 1
      else if s[|s| - 1] == '}' && before > 0 then before - 1
      else before
  }

  lemma {:induction false} DepthSum(s: string, t: string, depth: nat)
    ensures Depth(s + t, depth) == Depth(t, Depth(s, depth))
    decreases |t|
  {
    if |t| == 0 {
      assert s + t == s;
    } else {
      DepthSum(s, t[..|t| - 1], depth);
      assert (s + t)[..|s + t| - 1] == s + t[..|t| - 1];
    }
  }

  lemma {:induction false} DepthFlat(s: string)
    requires '{' !in s
    ensures Depth(s, 0) == 0
  {
    if |s| > 0 { DepthFlat(s[..|s| - 1]); }
  }

  lemma DepthNext(pattern: string, from: nat, i: nat, depth: nat)
    requires from <= i < |pattern|
    ensures
      var before := Depth(pattern[from..i], depth);
      Depth(pattern[from..i + 1], depth) ==
      if pattern[i] == '{' then before + 1 else if pattern[i] == '}' && before > 0 then before - 1 else before
  {
    var longer := pattern[from..i + 1];
    assert longer[..|longer| - 1] == pattern[from..i] && longer[|longer| - 1] == pattern[i];
  }

  /** Between one stop and the next, every brace is closed. */
  ghost predicate Balanced(pattern: string, previous: nat, stops: seq<nat>)
    decreases |stops|
  {
    |stops| > 0 ==>
      && previous <= stops[0] <= |pattern| && Depth(pattern[previous..stops[0]], 0) == 0
      && Balanced(pattern, stops[0] + 1, stops[1..])
  }

  function End(stops: seq<nat>): nat {
    if |stops| == 0 then 0 else stops[|stops| - 1]
  }

  /** What the scan finds: stops with balanced pieces, the last one where depth zero is reached. */
  ghost predicate Scanned(pattern: string, previous: nat, i: nat, depth: nat, stops: Option<seq<nat>>)
    requires i <= |pattern|
  {
    match stops
    case None => Depth(pattern[i..], depth) > 0
    case Some(found) =>
      && |found| > 0 && i <= End(found) < |pattern| && Balanced(pattern, previous, found)
      && Depth(pattern[i..End(found) + 1], depth) == 0
  }

  lemma DepthFirst(pattern: string, i: nat, high: nat, depth: nat)
    requires i < high <= |pattern|
    ensures Depth(pattern[i..high], depth) == Depth(pattern[i + 1..high], Depth([pattern[i]], depth))
  {
    assert pattern[i..high] == [pattern[i]] + pattern[i + 1..high];
    DepthSum([pattern[i]], pattern[i + 1..high], depth);
  }

  lemma {:induction false} StopsScanned(pattern: string, previous: nat, i: nat, depth: nat)
    requires previous <= i <= |pattern| && depth > 0 && Depth(pattern[previous..i], 0) == depth - 1
    ensures Scanned(pattern, previous, i, depth, Stops(pattern, i, depth))
    decreases |pattern| - i
  {
    if i < |pattern| {
      DepthNext(pattern, previous, i, 0);
      DepthOne(pattern[i], depth);
      if pattern[i] == '}' && depth == 1 {
        assert pattern[i..i + 1] == [pattern[i]];
        assert [i][1..] == [];
      } else if pattern[i] == ',' && depth == 1 {
        assert pattern[i + 1..i + 1] == "";
        StopsScanned(pattern, i + 1, i + 1, depth);
        ScannedComma(pattern, previous, i, Stops(pattern, i + 1, depth));
      } else {
        var depth' := Depth([pattern[i]], depth);
        StopsScanned(pattern, previous, i + 1, depth');
        ScannedOther(pattern, previous, i, depth, Stops(pattern, i + 1, depth'));
      }
    }
  }

  lemma ScannedComma(pattern: string, previous: nat, i: nat, later: Option<seq<nat>>)
    requires previous <= i < |pattern| && pattern[i] == ',' && Depth(pattern[previous..i], 0) == 0
    requires Scanned(pattern, i + 1, i + 1, 1, later)
    ensures Scanned(pattern, previous, i, 1, After([i], later))
  {
    hide Depth;
    DepthOne(pattern[i], 1);
    if later.None? {
      assert pattern[i..] == pattern[i..|pattern|] && pattern[i + 1..] == pattern[i + 1..|pattern|];
      DepthFirst(pattern, i, |pattern|, 1);
    } else {
      var found := [i] + later.value;
      assert found[1..] == later.value;
      DepthFirst(pattern, i, End(later.value) + 1, 1);
    }
  }

  lemma ScannedOther(pattern: string, previous: nat, i: nat, depth: nat, later: Option<seq<nat>>)
    requires i < |pattern| && Scanned(pattern, previous, i + 1, Depth([pattern[i]], depth), later)
    ensures Scanned(pattern, previous, i, depth, later)
  {
    hide Depth, Balanced;
    if later.None? {
      assert pattern[i..] == pattern[i..|pattern|] && pattern[i + 1..] == pattern[i + 1..|pattern|];
      DepthFirst(pattern, i, |pattern|, depth);
    } else {
      DepthFirst(pattern, i, End(later.value) + 1, depth);
    }
  }

  lemma DepthOne(c: char, depth: nat)
    ensures Depth([c], depth) == if c == '{' then depth + 1 else if c == '}' && depth > 0 then depth - 1 else depth
  {
  }

  /** A pattern expands exactly when no opening brace stays open. */
  lemma {:induction false} ExpandsWhenClosed(pattern: string)
    ensures Expand(pattern).Some? <==> Depth(pattern, 0) == 0
    decreases |pattern|, 1, 0
  {
    hide Depth, Stops, Alternatives;
    var start := Open(pattern);
    if start == |pattern| {
      DepthFlat(pattern);
    } else {
      assert pattern[..start] + pattern[start..] == pattern;
      DepthSum(pattern[..start], pattern[start..], 0);
      DepthFlat(pattern[..start]);
      assert pattern[start..] == pattern[start..|pattern|] && pattern[start + 1..] == pattern[start + 1..|pattern|];
      DepthFirst(pattern, start, |pattern|, 0);
      DepthOne('{', 0);
      DepthEmpty(pattern, start + 1);
      StopsScanned(pattern, start + 1, start + 1, 1);
      var stops := Stops(pattern, start + 1, 1);
      if stops.Some? {
        var end := End(stops.value);
        assert pattern[start + 1..] == pattern[start + 1..end + 1] + pattern[end + 1..];
        DepthSum(pattern[start + 1..end + 1], pattern[end + 1..], 1);
        AlternativesWhenClosed(pattern, start, start + 1, stops.value);
      }
    }
  }

  lemma DepthEmpty(pattern: string, i: nat)
    requires i <= |pattern|
    ensures Depth(pattern[i..i], 0) == 0
  {
  }

  lemma {:induction false} AlternativesWhenClosed(pattern: string, start: nat, previous: nat, stops: seq<nat>)
    requires start < previous && Increasing(stops, previous, |pattern|) && Balanced(pattern, previous, stops)
    requires '{' !in pattern[..start]
    ensures Alternatives(pattern, start, previous, stops).Some? <==> Depth(pattern[End(stops) + 1..], 0) == 0
    decreases |pattern|, 0, |stops|
  {
    hide Depth, Expand;
    var (first, last) := (stops[0], stops[|stops| - 1]);
    var (before, piece, after) := (pattern[..start], pattern[previous..first], pattern[last + 1..]);
    DepthSum(before + piece, after, 0);
    DepthSum(before, piece, 0);
    DepthFlat(before);
    ExpandsWhenClosed(before + piece + after);
    if |stops| > 1 {
      AlternativesStep(pattern, start, previous, stops, []);
      AlternativesWhenClosed(pattern, start, first + 1, stops[1..]);
    }
  }

  /** No alternative has an opening brace left. */
  lemma {:induction false} NoBraceLeft(pattern: string)
    ensures Expand(pattern).Some? ==> forall w :: w in Expand(pattern).value ==> '{' !in w
    decreases |pattern|, 1, 0
  {
    hide Alternatives, Stops;
    var start := Open(pattern);
    if start < |pattern| && Stops(pattern, start + 1, 1).Some? {
      NoBraceInAlternatives(pattern, start, start + 1, Stops(pattern, start + 1, 1).value);
    }
  }

  lemma {:induction false} NoBraceInAlternatives(pattern: string, start: nat, previous: nat, stops: seq<nat>)
    requires start < previous && Increasing(stops, previous, |pattern|)
    ensures
      var words := Alternatives(pattern, start, previous, stops);
      words.Some? ==> forall w :: w in words.value ==> '{' !in w
    decreases |pattern|, 0, |stops|
  {
    hide Expand;
    var (first, last) := (stops[0], stops[|stops| - 1]);
    NoBraceLeft(pattern[..start] + pattern[previous..first] + pattern[last + 1..]);
    if |stops| > 1 {
      AlternativesStep(pattern, start, previous, stops, []);
      NoBraceInAlternatives(pattern, start, first + 1, stops[1..]);
    }
  }

  // ----- safe patterns -----

  predicate IsControl(c: char) {
    c as int < 0x20 || 0x7f <= c as int <= 0x9f
  }

  predicate IsWhitespace(c: char) {
    || 0x09 <= c as int <= 0x0d || c as int in {0x20, 0x85, 0xa0, 0x1680, 0x2028, 0x2029, 0x202f, 0x205f, 0x3000}
    || 0x2000 <= c as int <= 0x200a
  }

  predicate IsBlank(s: string) {
    forall c :: c in s ==> IsWhitespace(c)
  }

  predicate StepsNowhere(segment: string) {
    segment in {"", ".", ".."}
  }

  /** `validate`: a relative POSIX glob that cannot leave its root. */
  predicate Safe(pattern: string) {
    && !IsBlank(pattern) && pattern[0] !in {'!', '#', '/'}
    && (forall c :: c in pattern ==> c != '\\' && c != ':' && !IsControl(c))
    && (forall segment :: segment in Pointers.Split(pattern) ==> !StepsNowhere(segment))
  }

  datatype Refusal =
    | Duplicate(pattern: string)
    | Unsafe(pattern: string)
    | Unclosed(pattern: string)
    | Malformed(pattern: string)
    | Rejected

  datatype Compiled = GlobSet(patterns: seq<string>) | Refused(why: Refusal)

  /** Whether a pattern and all its alternatives are safe. */
  predicate SafeThroughout(pattern: string) {
    Safe(pattern) && Expand(pattern).Some? && forall w :: w in Expand(pattern).value ==> Safe(w)
  }

  predicate Accepts(patterns: seq<string>, i: nat, builds: string -> bool)
    requires i < |patterns|
  {
    patterns[i] !in patterns[..i] && SafeThroughout(patterns[i]) && builds(patterns[i])
  }

  /** Why a pattern is refused, in the order of the checks. */
  predicate Explains(why: Refusal, patterns: seq<string>, i: nat, builds: string -> bool)
    requires i < |patterns|
  {
    var pattern := patterns[i];
    match why
    case Duplicate(p) => p == pattern && pattern in patterns[..i]
    case Unsafe(p) =>
      && pattern !in patterns[..i] && !Safe(p)
      && (p == pattern || (Safe(pattern) && Expand(pattern).Some? && p in Expand(pattern).value))
    case Unclosed(p) => p == pattern && pattern !in patterns[..i] && Safe(pattern) && Depth(pattern, 0) > 0
    case Malformed(p) => p == pattern && pattern !in patterns[..i] && SafeThroughout(pattern) && !builds(pattern)
    case Rejected => false
  }

  lemma ExplainsRefusal(why: Refusal, patterns: seq<string>, i: nat, builds: string -> bool)
    requires i < |patterns| && Explains(why, patterns, i, builds)
    ensures !Accepts(patterns, i, builds)
  {
    hide Safe, Expand, Depth;
    ExpandsWhenClosed(patterns[i]);
  }

  /** `compile`: `builds` and `joins` are the glob library's own verdicts. */
  method Compile(patterns: seq<string>, builds: string -> bool, joins: seq<string> -> bool) returns (r: Compiled)
    ensures r.GlobSet? <==> (forall i :: 0 <= i < |patterns| ==> Accepts(patterns, i, builds)) && joins(patterns)
    ensures r.GlobSet? ==> r.patterns == patterns
    ensures r.Refused? && r.why.Rejected? ==> forall i :: 0 <= i < |patterns| ==> Accepts(patterns, i, builds)
    ensures r.Refused? && !r.why.Rejected? ==>
              exists i :: 0 <= i < |patterns| && Explains(r.why, patterns, i, builds)
                          && forall j :: 0 <= j < i ==> Accepts(patterns, j, builds)
  {
    hide Expand, Safe, Depth;
    for i := 0 to |patterns|
      invariant forall j :: 0 <= j < i ==> Accepts(patterns, j, builds)
    {
      var pattern := patterns[i];
      if pattern in patterns[..i] {
        ExplainsRefusal(Duplicate(pattern), patterns, i, builds);
        return Refused(Duplicate(pattern));
      }
      if !Safe(pattern) {
        ExplainsRefusal(Unsafe(pattern), patterns, i, builds);
        return Refused(Unsafe(pattern));
      }
      var alternatives := ExpandBraces(pattern);
      ExpandsWhenClosed(pattern);
      if alternatives.None? {
        ExplainsRefusal(Unclosed(pattern), patterns, i, builds);
        return Refused(Unclosed(pattern));
      }
      for k := 0 to |alternatives.value|
        invariant forall m :: 0 <= m < k ==> Safe(alternatives.value[m])
      {
        if !Safe(alternatives.value[k]) {
          ExplainsRefusal(Unsafe(alternatives.value[k]), patterns, i, builds);
          return Refused(Unsafe(alternatives.value[k]));
        }
      }
      if !builds(pattern) {
        ExplainsRefusal(Malformed(pattern), patterns, i, builds);
        return Refused(Malformed(pattern));
      }
    }
    r := if joins(patterns) then GlobSet(patterns) else Refused(Rejected);
  }

  /** A relative path of named segments below its root, without escapes, drives, negation or comment. */
  ghost predicate StaysBelow(word: string) {
    && (forall c :: c in word ==> c !in {'{', '\\', ':'} && c as int >= 0x20 && !(0x7f <= c as int <= 0x9f))
    && (exists c :: c in word && c != ' ') && word[0] !in {'!', '#', '/'}
    && "" !in Pointers.Split(word) && "." !in Pointers.Split(word) && ".." !in Pointers.Split(word)
  }

  /** Whatever braces are chosen, an accepted pattern names a path below its root. */
  lemma AcceptedWordsAreSafe(parts: seq<Part>)
    requires WellFormed(parts, false) && SafeThroughout(Print(parts))
    ensures forall w :: w in Words(parts) ==> StaysBelow(w)
  {
    hide Expand, Words, Print;
    ExpandPrint(parts);
    NoBraceLeft(Print(parts));
  }
}

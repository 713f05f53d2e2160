// Command suggestions (output.rs): the row-by-row distance is the fewest edits between
// two strings, and a suggestion is the one command nearest to what was typed.

module EditDistance {
  import opened Common

  // ----- the recursive distance -----

  function Cost(a: char, b: char): nat { if a == b then 0 else 1 }

  function Min3(a: nat, b: nat, c: nat): nat { Min(Min(a, b), c) }

  function Init<T>(s: seq<T>): (r: seq<T>)
    requires |s| > 0
    ensures |r| == |s| - 1
  {
    s[..|s| - 1]
  }

  function Last<T>(s: seq<T>): T
    requires |s| > 0
  {
    s[|s| - 1]
  }

  /** The distance, by the last characters of both strings. */
  function Lev(a: string, b: string): nat
    decreases |a| + |b|
  {
    if |a| == 0 then |b|
    else if |b| == 0 then |a|
    else Min3(Lev(Init(a), Init(b)) + Cost(Last(a), Last(b)), Lev(Init(a), b) + 1, Lev(a, Init(b)) + 1)
  }

  // ----- the rows -----

  /** The distance between two strings, one row of prefixes at a time. */
  method Distance(left: string, right: string) returns (d: nat)
    ensures d == Lev(left, right)
  {
    hide Lev;
    var row: seq<nat> := seq(|right| + 1, k requires 0 <= k => k);
    LevEmpty(right);
    for index := 0 to |left|
      invariant |row| == |right| + 1
      invariant forall k :: 0 <= k <= |right| ==> row[k] == Lev(left[..index], right[..k])
    {
      var next: seq<nat> := [index + 1];
      LevStep(left, right, index, 0);
      for column := 0 to |right|
        invariant |next| == column + 1
        invariant forall k :: 0 <= k <= column ==> next[k] == Lev(left[..index + 1], right[..k])
      {
        LevStep(left, right, index, column + 1);
        next := next + [Min3(row[column] + Cost(left[index], right[column]), row[column + 1] + 1, next[column] + 1)];
      }
      row := next;
    }
    assert left[..|left|] == left && right[..|right|] == right;
    d := row[|right|];
  }

  lemma {:induction false} LevEmpty(right: string)
    ensures forall k :: 0 <= k <= |right| ==> Lev("", right[..k]) == k
  {
  }

  lemma {:induction false} LevUnfolded(s: string, t: string)
    requires |s| > 0
    ensures |t| == 0 ==> Lev(s, t) == |s|
    ensures |t| > 0 ==>
              Lev(s, t) ==
                Min3(Lev(Init(s), Init(t)) + Cost(Last(s), Last(t)), Lev(Init(s), t) + 1, Lev(s, Init(t)) + 1)
  {
  }

  /** One cell of the table, from its three neighbours. */
  lemma {:induction false} LevStep(left: string, right: string, i: nat, k: nat)
    requires i < |left| && k <= |right|
    ensures k == 0 ==> Lev(left[..i + 1], right[..k]) == i + 1
    ensures k > 0 ==>
              Lev(left[..i + 1], right[..k]) ==
              Min3(Lev(left[..i], right[..k - 1]) + Cost(left[i], right[k - 1]),
                   Lev(left[..i], right[..k]) + 1, Lev(left[..i + 1], right[..k - 1]) + 1)
  {
    hide Lev;
    LevUnfolded(left[..i + 1], right[..k]);
    assert Init(left[..i + 1]) == left[..i];
    if k > 0 { assert Init(right[..k]) == right[..k - 1]; }
  }

  // ----- edits -----

  datatype Edit = Insert(at: nat, c: char) | Delete(at: nat) | Replace(at: nat, c: char)

  predicate Fits(s: string, e: Edit) {
    if e.Insert? then e.at <= |s| else e.at < |s|
  }

  function Apply(s: string, e: Edit): string
    requires Fits(s, e)
  {
    match e
    case Insert(at, c) => s[..at] + [c] + s[at..]
    case Delete(at) => s[..at] + s[at + 1..]
    case Replace(at, c) => s[..at] + [c] + s[at + 1..]
  }

  /** What a sequence of edits makes of a string, if each edit fits. */
  function Edited(s: string, edits: seq<Edit>): Option<string> {
    if |edits| == 0 then Some(s)
    else
      match Edited(s, Init(edits))
      case None => None
      case Some(t) => if Fits(t, Last(edits)) then Some(Apply(t, Last(edits))) else None
  }

  /** Changing at most one character of a string moves it at most one further from another. */
  lemma {:induction false} OneChange(a: string, x: string, u: string, v: string, y: string)
    requires |u| <= 1 && |v| <= 1
    ensures Lev(a, x + v + y) <= Lev(a, x + u + y) + 1
    decreases |a| + |y|
  {
    if |a| > 0 && |y| > 0 {
      assert Init(x + u + y) == x + u + Init(y) && Init(x + v + y) == x + v + Init(y);
      OneChange(Init(a), x, u, v, y);
      OneChange(a, x, u, v, Init(y));
      OneChange(Init(a), x, u, v, Init(y));
    } else if |a| > 0 {
      OneChange(Init(a), x, u, v, y);
      assert x + u + y == x + u && x + v + y == x + v;
      if |u| == 1 { assert Init(x + u) == x; }
      if |v| == 1 { assert Init(x + v) == x; }
      if |u| == 0 { assert x + u == x; }
      if |v| == 0 { assert x + v == x; }
    }
  }

  lemma EditMoves(a: string, s: string, e: Edit)
    requires Fits(s, e)
    ensures Lev(a, Apply(s, e)) <= Lev(a, s) + 1
  {
    hide Lev;
    var x := s[..e.at];
    match e
    case Insert(at, c) =>
      OneChange(a, x, [], [c], s[at..]);
      assert x + [] + s[at..] == s;
    case Delete(at) =>
      OneChange(a, x, [s[at]], [], s[at + 1..]);
      assert x + [s[at]] + s[at + 1..] == s && x + [] + s[at + 1..] == Apply(s, e);
    case Replace(at, c) =>
      OneChange(a, x, [s[at]], [c], s[at + 1..]);
      assert x + [s[at]] + s[at + 1..] == s;
  }

  lemma {:induction false} LevSelf(a: string)
    ensures Lev(a, a) == 0
  {
    if |a| > 0 { LevSelf(Init(a)); }
  }

  /** No shorter sequence of edits leads from one string to the other. */
  lemma {:induction false} NoFewerEdits(left: string, right: string, edits: seq<Edit>)
    requires Edited(left, edits) == Some(right)
    ensures Lev(left, right) <= |edits|
    decreases |edits|
  {
    if |edits| == 0 {
      LevSelf(left);
    } else {
      var before := Edited(left, Init(edits)).value;
      NoFewerEdits(left, before, Init(edits));
      EditMoves(left, before, Last(edits));
    }
  }

  lemma ApplyPrefix(s: string, tail: string, e: Edit)
    requires Fits(s, e)
    ensures Fits(s + tail, e) && Apply(s + tail, e) == Apply(s, e) + tail
  {
    assert (s + tail)[..e.at] == s[..e.at];
    if e.Insert? {
      assert (s + tail)[e.at..] == s[e.at..] + tail;
    } else {
      assert (s + tail)[e.at + 1..] == s[e.at + 1..] + tail;
    }
  }

  /** Edits of a prefix leave what follows it. */
  lemma {:induction false} EditedPrefix(s: string, tail: string, edits: seq<Edit>)
    requires Edited(s, edits).Some?
    ensures Edited(s + tail, edits) == Some(Edited(s, edits).value + tail)
    decreases |edits|
  {
    hide Apply, Fits;
    if |edits| > 0 {
      EditedPrefix(s, tail, Init(edits));
      ApplyPrefix(Edited(s, Init(edits)).value, tail, Last(edits));
    }
  }

  lemma EditedThen(s: string, edits: seq<Edit>, e: Edit)
    requires Edited(s, edits).Some? && Fits(Edited(s, edits).value, e)
    ensures Edited(s, edits + [e]) == Some(Apply(Edited(s, edits).value, e))
  {
    assert Init(edits + [e]) == edits;
  }

  /** Edits that turn a string without its last character, then one more. */
  lemma EditedLonger(left: string, right: string, shorter: seq<Edit>, e: Edit)
    requires |left| > 0 && Edited(Init(left), shorter) == Some(right) && Fits(right + [Last(left)], e)
    ensures Edited(left, shorter) == Some(right + [Last(left)])
    ensures Edited(left, shorter + [e]) == Some(Apply(right + [Last(left)], e))
  {
    hide Apply, Fits, Edited;
    assert left == Init(left) + [Last(left)];
    EditedPrefix(Init(left), [Last(left)], shorter);
    EditedThen(left, shorter, e);
  }

  lemma LastEdits(right: string, c: char)
    ensures Apply(right + [c], Delete(|right|)) == right
    ensures |right| > 0 ==>
              && Apply(Init(right), Insert(|right| - 1, Last(right))) == right
              && Apply(Init(right) + [c], Replace(|right| - 1, Last(right))) == right
              && Init(right) + [Last(right)] == right
  {
  }

  /** As many edits as the distance lead from one string to the other. */
  lemma {:induction false} EnoughEdits(left: string, right: string) returns (edits: seq<Edit>)
    ensures Edited(left, edits) == Some(right) && |edits| == Lev(left, right)
    decreases |left| + |right|
  {
    hide Apply;
    LastEdits(right, if |left| > 0 then Last(left) else ' ');
    if |left| == 0 && |right| == 0 {
      edits := [];
    } else if |left| > 0 && (|right| == 0 || Lev(left, right) == Lev(Init(left), right) + 1) {
      var shorter := EnoughEdits(Init(left), right);
      EditedLonger(left, right, shorter, Delete(|right|));
      edits := shorter + [Delete(|right|)];
    } else if |left| == 0 || Lev(left, right) == Lev(left, Init(right)) + 1 {
      var shorter := EnoughEdits(left, Init(right));
      EditedThen(left, shorter, Insert(|right| - 1, Last(right)));
      edits := shorter + [Insert(|right| - 1, Last(right))];
    } else {
      var shorter := EnoughEdits(Init(left), Init(right));
      EditedLonger(left, Init(right), shorter, Replace(|right| - 1, Last(right)));
      edits := if Last(left) == Last(right) then shorter else shorter + [Replace(|right| - 1, Last(right))];
    }
  }

  ghost predicate Reaches(left: string, right: string, count: nat) {
    exists edits :: |edits| == count && Edited(left, edits) == Some(right)
  }

  /** The distance is the fewest single-character insertions, deletions and replacements. */
  lemma FewestEdits(left: string, right: string)
    ensures Reaches(left, right, Lev(left, right))
    ensures forall count :: Reaches(left, right, count) ==> Lev(left, right) <= count
  {
    var enough := EnoughEdits(left, right);
    forall count | Reaches(left, right, count)
      ensures Lev(left, right) <= count
    {
      var edits :| |edits| == count && Edited(left, edits) == Some(right);
      NoFewerEdits(left, right, edits);
    }
  }

  // ----- the suggestion -----

  const COMMANDS: seq<string> := ["serve", "build", "publish"]

  datatype Scored = Scored(distance: nat, command: string)

  /** Three sorted by distance; the order of equals plays no part below. */
  function Sorted(a: Scored, b: Scored, c: Scored): (r: (Scored, Scored, Scored))
    ensures {r.0, r.1, r.2} == {a, b, c}
    ensures r.0.distance <= r.1.distance <= r.2.distance
  {
    var (low, high) := if b.distance < a.distance then (b, a) else (a, b);
    if c.distance < low.distance then (c, low, high)
    else if c.distance < high.distance then (low, c, high)
    else (low, high, c)
  }

  function Near(candidate: string, command: string): nat { Lev(candidate, command) }

  /** Whether a command is within 3 edits and nearer than every other one. */
  predicate OnlyNearest(candidate: string, command: string) {
    && command in COMMANDS && Near(candidate, command) <= 3
    && forall other :: other in COMMANDS && other != command ==> Near(candidate, command) < Near(candidate, other)
  }

  /** Some command exactly when it is near enough and the only nearest one. */
  method ClosestCommand(candidate: string) returns (closest: Option<string>)
    ensures closest.Some? ==> OnlyNearest(candidate, closest.value)
    ensures closest.None? ==> forall command :: command in COMMANDS ==> !OnlyNearest(candidate, command)
  {
    hide Lev;
    var serve := Distance(candidate, COMMANDS[0]);
    var build := Distance(candidate, COMMANDS[1]);
    var publish := Distance(candidate, COMMANDS[2]);
    var a, b, c := Scored(serve, COMMANDS[0]), Scored(build, COMMANDS[1]), Scored(publish, COMMANDS[2]);
    var (first, second, third) := Sorted(a, b, c);
    assert COMMANDS[0] != COMMANDS[1] && COMMANDS[1] != COMMANDS[2] && COMMANDS[0] != COMMANDS[2];
    NearestOf(candidate, a, b, c);
    closest := if first.distance <= 3 && first.distance < second.distance then Some(first.command) else None;
  }

  lemma NearestOf(candidate: string, a: Scored, b: Scored, c: Scored)
    requires a == Scored(Near(candidate, COMMANDS[0]), COMMANDS[0]) &&
             b == Scored(Near(candidate, COMMANDS[1]), COMMANDS[1])
    requires c == Scored(Near(candidate, COMMANDS[2]), COMMANDS[2])
    requires a.command != b.command && a.command != c.command && b.command != c.command
    ensures forall x :: x in {a, b, c} ==>
              (OnlyNearest(candidate, x.command) <==>
               x.distance <= 3 && forall y :: y in {a, b, c} && y != x ==> x.distance < y.distance)
    ensures forall command :: command in COMMANDS <==>
            command == a.command || command == b.command || command == c.command
  {
    hide Lev;
  }
}

// Slots that point to their children by segment, and the paths that they stand for (yaml_positions.rs).

module YamlPositions {
  import opened Common
  import opened Pointers
  import opened YamlMachine

  datatype Slot = Slot(location: Option<Location>, children: map<string, nat>)

  const EMPTY_SLOT: Slot := Slot(None, map[])

  ghost predicate Distinct(paths: seq<Path>) {
    forall i, j :: 0 <= i < j < |paths| ==> paths[i] != paths[j]
  }

  /** A child segment leads to the slot of the longer path. */
  ghost predicate Down(slots: seq<Slot>, paths: seq<Path>)
    requires |slots| == |paths|
  {
    forall i, s :: 0 <= i < |slots| && s in slots[i].children ==>
      0 < slots[i].children[s] < |slots| && paths[slots[i].children[s]] == paths[i] + [s]
  }

  /** Every slot but the root hangs below an earlier one. */
  ghost predicate Up(slots: seq<Slot>, paths: seq<Path>, parents: seq<nat>)
    requires |slots| == |paths| == |parents|
  {
    forall c :: 0 < c < |slots| ==> Hangs(slots, paths, parents[c], c)
  }

  ghost predicate Hangs(slots: seq<Slot>, paths: seq<Path>, p: nat, c: nat)
    requires c < |slots| == |paths|
  {
    && p < c
    && |paths[c]| > 0
    && paths[p] == paths[c][..|paths[c]| - 1]
    && paths[c][|paths[c]| - 1] in slots[p].children
    && slots[p].children[paths[c][|paths[c]| - 1]] == c
  }

  /** Slot `i` stands for `paths[i]`; `parents` says where it hangs. */
  ghost predicate IsTree(slots: seq<Slot>, paths: seq<Path>, parents: seq<nat>) {
    && |slots| == |paths| == |parents| > 0
    && paths[0] == ROOT
    && Distinct(paths)
    && Down(slots, paths)
    && Up(slots, paths, parents)
  }

  ghost function PlacesOf(slots: seq<Slot>, paths: seq<Path>): Places
    requires |slots| == |paths| && Distinct(paths)
  {
    map i | 0 <= i < |slots| :: paths[i] := slots[i].location
  }

  lemma Recorded(slots: seq<Slot>, paths: seq<Path>, i: nat)
    requires i < |slots| == |paths| && Distinct(paths)
    ensures paths[i] in PlacesOf(slots, paths) && PlacesOf(slots, paths)[paths[i]] == slots[i].location
  {
  }

  /** A path's slot is reached from its parent's children, and only from there. */
  lemma ChildOf(slots: seq<Slot>, paths: seq<Path>, parents: seq<nat>, i: nat, s: string, c: nat)
    requires IsTree(slots, paths, parents) && i < |slots| && c < |slots|
    requires paths[c] == paths[i] + [s]
    ensures s in slots[i].children && slots[i].children[s] == c
  {
    assert paths[c] != ROOT;
    assert Hangs(slots, paths, parents[c], c);
    assert paths[parents[c]] == paths[i];
  }

  /** A recorded path's prefixes are recorded. */
  lemma {:induction false} Prefixes(slots: seq<Slot>, paths: seq<Path>, parents: seq<nat>, c: nat, k: nat)
    requires IsTree(slots, paths, parents) && c < |slots| && k <= |paths[c]|
    ensures exists i :: 0 <= i < |slots| && paths[i] == paths[c][..k]
    decreases c
  {
    if k == |paths[c]| {
      assert paths[c] == paths[c][..k];
    } else {
      assert Hangs(slots, paths, parents[c], c);
      Prefixes(slots, paths, parents, parents[c], k);
      assert paths[parents[c]][..k] == paths[c][..k];
    }
  }

  /** A slot without the next segment's child ends every longer pointer. */
  lemma NoChild(slots: seq<Slot>, paths: seq<Path>, parents: seq<nat>, slot: nat, path: Path)
    requires IsTree(slots, paths, parents) && slot < |slots|
    requires paths[slot] < path && path[|paths[slot]|] !in slots[slot].children
    ensures path !in PlacesOf(slots, paths)
  {
    hide Down, Up;
    if path in PlacesOf(slots, paths) {
      var k := |paths[slot]|;
      var c :| 0 <= c < |slots| && paths[c] == path;
      Prefixes(slots, paths, parents, c, k + 1);
      var i :| 0 <= i < |slots| && paths[i] == path[..k + 1];
      assert path[..k + 1] == paths[slot] + [path[k]];
      ChildOf(slots, paths, parents, slot, path[k], i);
    }
  }

  lemma NewChild(slots: seq<Slot>, paths: seq<Path>, parents: seq<nat>, parent: nat, segment: string)
    requires IsTree(slots, paths, parents) && parent < |slots| && segment !in slots[parent].children
    ensures paths[parent] + [segment] !in PlacesOf(slots, paths)
    ensures paths[parent] + [segment] !in paths
  {
    var path := paths[parent] + [segment];
    if path in paths {
      var c :| 0 <= c < |slots| && paths[c] == path;
      ChildOf(slots, paths, parents, parent, segment, c);
    }
  }

  lemma Located(slots: seq<Slot>, paths: seq<Path>, parents: seq<nat>, slot: nat, location: Option<Location>)
    requires IsTree(slots, paths, parents) && slot < |slots|
    ensures var set' := slots[slot := slots[slot].(location := location)];
            IsTree(set', paths, parents) && PlacesOf(set', paths) == PlacesOf(slots, paths)[paths[slot] := location]
  {
    var set' := slots[slot := slots[slot].(location := location)];
    assert forall i :: 0 <= i < |slots| ==> set'[i].children == slots[i].children;
    forall c | 0 < c < |slots|
      ensures Hangs(set', paths, parents[c], c)
    {
      assert Hangs(slots, paths, parents[c], c);
    }
    assert Down(set', paths);
    SameElsewhere(slots, set', paths, slot);
  }

  lemma SameElsewhere(slots: seq<Slot>, set': seq<Slot>, paths: seq<Path>, slot: nat)
    requires |slots| == |set'| == |paths| && Distinct(paths) && slot < |slots|
    requires forall i :: 0 <= i < |slots| && i != slot ==> set'[i].location == slots[i].location
    ensures PlacesOf(set', paths) == PlacesOf(slots, paths)[paths[slot] := set'[slot].location]
  {
  }

  lemma Appended(slots: seq<Slot>, paths: seq<Path>, slot: Slot, path: Path)
    requires |slots| == |paths| && Distinct(paths) && path !in paths
    ensures Distinct(paths + [path])
    ensures PlacesOf(slots + [slot], paths + [path]) == PlacesOf(slots, paths)[path := slot.location]
  {
    var before, after := PlacesOf(slots, paths), PlacesOf(slots + [slot], paths + [path]);
    Recorded(slots + [slot], paths + [path], |slots|);
    forall q | q in before
      ensures q in after && q != path && after[q] == before[q]
    {
      var i :| 0 <= i < |slots| && paths[i] == q;
      Recorded(slots, paths, i);
      Recorded(slots + [slot], paths + [path], i);
    }
    forall q | q in after
      ensures q in before || q == path
    {
      var i :| 0 <= i < |slots| + 1 && (paths + [path])[i] == q;
      if i < |slots| { Recorded(slots, paths, i); }
    }
  }

  /** The recorded paths after adding a path and its prefixes. */
  function AddPath(places: Places, path: Path): Places {
    if |path| == 0 then places else AddChild(AddPath(places, path[..|path| - 1]), path)
  }

  lemma GrownPlaces(slots: seq<Slot>, linked: seq<Slot>, paths: seq<Path>, parent: nat, path: Path)
    requires |slots| == |linked| == |paths| && Distinct(paths) && parent < |slots| && path !in paths
    requires forall i :: 0 <= i < |slots| ==> linked[i].location == slots[i].location
    ensures Distinct(paths + [path])
    ensures PlacesOf(linked + [EMPTY_SLOT], paths + [path]) == PlacesOf(slots, paths)[path := None]
  {
    hide Distinct, PlacesOf;
    SameElsewhere(slots, linked, paths, parent);
    Recorded(slots, paths, parent);
    Appended(linked, paths, EMPTY_SLOT, path);
  }

  /** Appending a slot below `parent` adds exactly its path. */
  lemma Grown(slots: seq<Slot>, paths: seq<Path>, parents: seq<nat>, parent: nat, segment: string)
    requires IsTree(slots, paths, parents) && parent < |slots| && segment !in slots[parent].children
    ensures var linked := slots[parent := slots[parent].(children := slots[parent].children[segment := |slots|])];
            var path := paths[parent] + [segment];
            && IsTree(linked + [EMPTY_SLOT], paths + [path], parents + [parent])
            && PlacesOf(linked + [EMPTY_SLOT], paths + [path]) == PlacesOf(slots, paths)[path := None]
            && path !in PlacesOf(slots, paths)
  {
    var linked := slots[parent := slots[parent].(children := slots[parent].children[segment := |slots|])];
    var path := paths[parent] + [segment];
    NewChild(slots, paths, parents, parent, segment);
    GrownTree(slots, paths, parents, parent, segment);
    GrownPlaces(slots, linked, paths, parent, path);
  }

  lemma GrownTree(slots: seq<Slot>, paths: seq<Path>, parents: seq<nat>, parent: nat, segment: string)
    requires IsTree(slots, paths, parents) && parent < |slots| && segment !in slots[parent].children
    ensures var linked := slots[parent := slots[parent].(children := slots[parent].children[segment := |slots|])];
            var path := paths[parent] + [segment];
            Down(linked + [EMPTY_SLOT], paths + [path]) && Up(linked + [EMPTY_SLOT], paths + [path], parents + [parent])
  {
    var linked := slots[parent := slots[parent].(children := slots[parent].children[segment := |slots|])];
    var path := paths[parent] + [segment];
    var slots', paths', parents' := linked + [EMPTY_SLOT], paths + [path], parents + [parent];
    forall i, s | 0 <= i < |slots'| && s in slots'[i].children
      ensures 0 < slots'[i].children[s] < |slots'| && paths'[slots'[i].children[s]] == paths'[i] + [s]
    {
      if i == parent && s == segment {
      } else {
        assert s in slots[i].children;
      }
    }
    forall c | 0 < c < |slots'|
      ensures Hangs(slots', paths', parents'[c], c)
    {
      if c < |slots| {
        assert Hangs(slots, paths, parents[c], c);
        var last := paths[c][|paths[c]| - 1];
        assert parents[c] == parent ==> last != segment;
      } else {
        assert path[..|path| - 1] == paths[parent];
      }
    }
  }

  // ----- the work list of a graft -----

  /** The places of some of the slots. */
  ghost function Picked(slots: seq<Slot>, paths: seq<Path>, done: set<nat>): Places
    requires |slots| == |paths| && Distinct(paths)
  {
    map i: nat | i in done && i < |slots| :: paths[i] := slots[i].location
  }

  ghost function KidSlots(f: nat, parents: seq<nat>): set<nat> {
    set c: nat | 0 < c < |parents| && parents[c] == f
  }

  ghost function Froms(pending: seq<(nat, nat)>): set<nat> {
    set k | 0 <= k < |pending| :: pending[k].0
  }

  ghost predicate Once(pending: seq<(nat, nat)>) {
    forall i, j :: 0 <= i < j < |pending| ==> pending[i].0 != pending[j].0
  }

  /** Each pending pair is a source slot at or below `above` and its copy at or below `to`. */
  ghost predicate Matched(pending: seq<(nat, nat)>, paths: seq<Path>, to: Path, source: seq<Path>, above: Path) {
    forall k :: 0 <= k < |pending| ==>
      && pending[k].0 < |source| && pending[k].1 < |paths|
      && above <= source[pending[k].0]
      && paths[pending[k].1] == to + source[pending[k].0][|above|..]
  }

  /** The copied slots are the children of the expanded ones; each is expanded or waits. */
  ghost predicate Frontier(waiting: set<nat>, expanded: set<nat>, done: set<nat>, from: nat, parents: seq<nat>) {
    && waiting !! expanded
    && (forall c :: c in done <==> 0 < c < |parents| && parents[c] in expanded)
    && waiting + expanded == done + {from}
  }

  lemma TargetsIff(to: Path, source: Places, above: Path, q: Path)
    ensures q in Targets(to, source, above) <==> to < q && above + q[|to|..] in source
  {
    if q in Targets(to, source, above) {
      var r :| r in source && above < r && to + r[|above|..] == q;
      assert above + q[|to|..] == r;
    }
    if to < q && above + q[|to|..] in source {
      var r := above + q[|to|..];
      assert above < r && to + r[|above|..] == q;
    }
  }

  ghost predicate InRange(s: set<nat>, n: nat) {
    forall i :: i in s ==> i < n
  }

  lemma {:induction false} Bounded(s: set<nat>, n: nat)
    requires InRange(s, n)
    ensures |s| <= n
    decreases n
  {
    if n > 0 {
      Bounded(s - {n - 1}, n - 1);
    } else {
      assert s == {};
    }
  }

  /** A graft depends on its source only below `above`. */
  lemma SameGraft(places: Places, to: Path, a: Places, b: Places, above: Path)
    requires forall r :: above < r ==> (r in a <==> r in b) && (r in a ==> a[r] == b[r])
    ensures Graft(places, to, a, above) == Graft(places, to, b, above)
  {
    forall q
      ensures q in Targets(to, a, above) <==> q in Targets(to, b, above)
      ensures to < q ==> above < above + q[|to|..]
    {
      TargetsIff(to, a, above, q);
      TargetsIff(to, b, above, q);
    }
  }

  lemma NothingPicked(places: Places, to: Path, slots: seq<Slot>, paths: seq<Path>, above: Path)
    requires |slots| == |paths| && Distinct(paths)
    ensures Graft(places, to, Picked(slots, paths, {}), above) == places
  {
  }

  lemma PickedIff(slots: seq<Slot>, paths: seq<Path>, done: set<nat>, i: nat)
    requires i < |slots| == |paths| && Distinct(paths)
    ensures paths[i] in Picked(slots, paths, done) <==> i in done
    ensures i in done ==> Picked(slots, paths, done)[paths[i]] == slots[i].location
  {
  }

  lemma PickedMore(slots: seq<Slot>, paths: seq<Path>, done: set<nat>, i: nat)
    requires i < |slots| == |paths| && Distinct(paths)
    ensures Picked(slots, paths, done + {i}) == Picked(slots, paths, done)[paths[i] := slots[i].location]
  {
  }

  /** Copying one more slot creates its target and sets its location, if it has one. */
  lemma PickMore(places: Places, to: Path, slots: seq<Slot>, paths: seq<Path>, above: Path, done: set<nat>, i: nat)
    requires i < |slots| == |paths| && Distinct(paths) && i !in done && above < paths[i]
    ensures var before := Graft(places, to, Picked(slots, paths, done), above);
            var q := to + paths[i][|above|..];
            Graft(places, to, Picked(slots, paths, done + {i}), above) ==
            if slots[i].location.Some? then AddChild(before, q)[q := slots[i].location] else AddChild(before, q)
  {
    PickedMore(slots, paths, done, i);
    PickedIff(slots, paths, done, i);
    GraftMore(places, to, Picked(slots, paths, done), above, paths[i], slots[i].location);
  }

  lemma OtherTarget(to: Path, above: Path, r: Path, p: Path)
    requires above < r && to < p && p != to + r[|above|..]
    ensures above + p[|to|..] != r
  {
  }

  /** What a graft holds at one path. */
  lemma GraftAt(places: Places, to: Path, source: Places, above: Path, p: Path)
    ensures var copied := to < p && above + p[|to|..] in source;
            && (p in Graft(places, to, source, above) <==> p in places || copied)
            && (copied ==> Graft(places, to, source, above)[p] ==
                           if source[above + p[|to|..]].Some? || p !in places then source[above + p[|to|..]]
                           else places[p])
            && (!copied && p in places ==> Graft(places, to, source, above)[p] == places[p])
  {
    TargetsIff(to, source, above, p);
  }

  lemma GraftMore(places: Places, to: Path, source: Places, above: Path, r: Path, location: Option<Location>)
    requires r !in source && above < r
    ensures var before := Graft(places, to, source, above);
            var q := to + r[|above|..];
            Graft(places, to, source[r := location], above) ==
            if location.Some? then AddChild(before, q)[q := location] else AddChild(before, q)
  {
    hide Graft;
    var more := source[r := location];
    var q := to + r[|above|..];
    var before := Graft(places, to, source, above);
    var after := Graft(places, to, more, above);
    assert above + q[|to|..] == r && to < q;
    GraftAt(places, to, source, above, q);
    GraftAt(places, to, more, above, q);
    forall p | p != q
      ensures p in after <==> p in before
      ensures p in after ==> after[p] == before[p]
    {
      GraftAt(places, to, source, above, p);
      GraftAt(places, to, more, above, p);
      if to < p { OtherTarget(to, above, r, p); }
    }
  }

  lemma MatchedGrows(pending: seq<(nat, nat)>, paths: seq<Path>, grown: seq<Path>, to: Path, source: seq<Path>,
                     above: Path)
    requires Matched(pending, paths, to, source, above) && paths <= grown
    ensures Matched(pending, grown, to, source, above)
  {
  }

  lemma NoFroms()
    ensures Froms([]) == {}
  {
  }

  lemma StartList(from: nat, slot: nat, paths: seq<Path>, to: Path, source: seq<Path>, above: Path, parents: seq<nat>)
    requires from < |source| && slot < |paths| && paths[slot] == to && source[from] == above
    ensures Matched([(from, slot)], paths, to, source, above) && Once([(from, slot)])
    ensures Frontier(Froms([(from, slot)]), {}, {}, from, parents)
  {
    var pending := [(from, slot)];
    assert pending[0].0 == from;
    assert Froms(pending) == {from};
    assert to + above[|above|..] == to;
  }

  lemma MatchedPop(pending: seq<(nat, nat)>, paths: seq<Path>, to: Path, source: seq<Path>, above: Path)
    requires Matched(pending, paths, to, source, above) && |pending| > 0
    ensures Matched(pending[..|pending| - 1], paths, to, source, above)
    ensures var (f, t) := pending[|pending| - 1];
            && f < |source| && t < |paths| && above <= source[f]
            && paths[t] == to + source[f][|above|..]
  {
  }

  /** The last waiting pair may be expanded; its children are new to the work list. */
  lemma PopNext(pending: seq<(nat, nat)>, paths: seq<Path>, to: Path, source: seq<Slot>, names: seq<Path>,
                parents: seq<nat>, above: Path, expanded: set<nat>, done: set<nat>, from: nat)
    requires IsTree(source, names, parents) && from < |source| && names[from] == above
    requires Matched(pending, paths, to, names, above) && |pending| > 0 && Once(pending)
    requires Frontier(Froms(pending), expanded, done, from, parents)
    requires InRange(expanded, |source|)
    ensures var (f, t) := pending[|pending| - 1];
            var rest := pending[..|pending| - 1];
            && f < |source| && t < |paths| && above <= names[f] && paths[t] == to + names[f][|above|..]
            && Matched(rest, paths, to, names, above) && Once(rest)
            && Froms(rest) !! KidSlots(f, parents) && done !! KidSlots(f, parents)
            && |expanded| < |expanded + {f}| <= |source| && InRange(expanded + {f}, |source|)
            && Frontier(Froms(rest) + KidSlots(f, parents), expanded + {f}, done + KidSlots(f, parents), from, parents)
  {
    hide Down, Up, Distinct, Matched, Once, Froms, KidSlots, Frontier;
    var (f, t) := pending[|pending| - 1];
    Popped(pending);
    MatchedPop(pending, paths, to, names, above);
    FreshKids(Froms(pending), expanded, done, from, f, source, names, parents);
    Bounded(expanded + {f}, |source|);
  }

  lemma MatchedPush(pending: seq<(nat, nat)>, f: nat, t: nat, paths: seq<Path>, to: Path, source: seq<Path>,
                    above: Path)
    requires Matched(pending, paths, to, source, above)
    requires f < |source| && t < |paths| && above <= source[f] && paths[t] == to + source[f][|above|..]
    requires Once(pending) && f !in Froms(pending)
    ensures Matched(pending + [(f, t)], paths, to, source, above)
    ensures Once(pending + [(f, t)]) && Froms(pending + [(f, t)]) == Froms(pending) + {f}
  {
    var all := pending + [(f, t)];
    forall i | 0 <= i < |pending|
      ensures all[i].0 in Froms(pending)
    {
      assert all[i] == pending[i];
    }
    assert all[|pending|].0 == f;
    forall x | x in Froms(pending)
      ensures x in Froms(all)
    {
      var k :| 0 <= k < |pending| && pending[k].0 == x;
      assert all[k].0 == x;
    }
  }

  lemma Popped(pending: seq<(nat, nat)>)
    requires |pending| > 0 && Once(pending)
    ensures var last := |pending| - 1;
            && Once(pending[..last])
            && pending[last].0 in Froms(pending)
            && Froms(pending[..last]) == Froms(pending) - {pending[last].0}
  {
  }

  lemma KidOf(f: nat, segment: string, slots: seq<Slot>, paths: seq<Path>, parents: seq<nat>)
    requires IsTree(slots, paths, parents) && f < |slots| && segment in slots[f].children
    ensures slots[f].children[segment] < |slots| && slots[f].children[segment] in KidSlots(f, parents)
    ensures paths[slots[f].children[segment]] == paths[f] + [segment]
  {
    var c := slots[f].children[segment];
    assert Hangs(slots, paths, parents[c], c);
    assert paths[c] == paths[f] + [segment];
    assert paths[c][..|paths[c]| - 1] == paths[f];
    assert paths[parents[c]] == paths[f];
  }

  ghost function CopiedKids(children: map<string, nat>, rest: set<string>): set<nat> {
    set s | s in children && s !in rest :: children[s]
  }

  /** The next child is new, because a child's path tells its segment. */
  lemma NextKid(f: nat, rest: set<string>, segment: string, slots: seq<Slot>, paths: seq<Path>, parents: seq<nat>)
    requires IsTree(slots, paths, parents) && f < |slots| && segment in rest && segment in slots[f].children
    ensures var children := slots[f].children;
            && children[segment] !in CopiedKids(children, rest)
            && CopiedKids(children, rest - {segment}) == CopiedKids(children, rest) + {children[segment]}
  {
    var children := slots[f].children;
    forall s | s in children && s !in rest
      ensures children[s] != children[segment]
    {
      assert paths[children[s]] == paths[f] + [s];
      assert paths[children[segment]] == paths[f] + [segment];
      assert (paths[f] + [s])[|paths[f]|] == s;
    }
  }

  lemma AllKids(f: nat, slots: seq<Slot>, paths: seq<Path>, parents: seq<nat>)
    requires IsTree(slots, paths, parents) && f < |slots|
    ensures CopiedKids(slots[f].children, {}) == KidSlots(f, parents)
    ensures forall c :: c in KidSlots(f, parents) ==>
              c < |slots| && |paths[c]| > 0 && paths[f] == paths[c][..|paths[c]| - 1]
  {
    forall c | c in KidSlots(f, parents)
      ensures exists s :: s in slots[f].children && slots[f].children[s] == c
      ensures c < |slots| && |paths[c]| > 0 && paths[f] == paths[c][..|paths[c]| - 1]
    {
      assert Hangs(slots, paths, f, c);
    }
    forall s | s in slots[f].children
      ensures slots[f].children[s] in KidSlots(f, parents)
    {
      KidOf(f, s, slots, paths, parents);
    }
  }

  /** The children of a waiting slot are new to the work list. */
  lemma FreshKids(waiting: set<nat>, expanded: set<nat>, done: set<nat>, from: nat, f: nat, slots: seq<Slot>,
                  paths: seq<Path>, parents: seq<nat>)
    requires IsTree(slots, paths, parents) && from < |slots| && f < |slots| && paths[from] <= paths[f]
    requires Frontier(waiting, expanded, done, from, parents) && f in waiting
    ensures f !in expanded
    ensures waiting !! KidSlots(f, parents) && done !! KidSlots(f, parents)
    ensures Frontier(waiting - {f} + KidSlots(f, parents), expanded + {f}, done + KidSlots(f, parents), from, parents)
  {
    AllKids(f, slots, paths, parents);
    forall c | c in KidSlots(f, parents)
      ensures c !in waiting && c !in expanded && c != from && c !in done
    {
      assert |paths[c]| == |paths[f]| + 1;
      assert c !in done;
    }
  }

  /** With nothing waiting, every slot below the start is copied. */
  lemma {:induction false} Covered(expanded: set<nat>, done: set<nat>, from: nat, slots: seq<Slot>, paths: seq<Path>,
                                   parents: seq<nat>)
    requires IsTree(slots, paths, parents) && from < |slots|
    requires Frontier({}, expanded, done, from, parents)
    ensures forall c :: 0 <= c < |slots| && paths[from] < paths[c] ==> c in done
  {
    forall c | 0 <= c < |slots| && paths[from] < paths[c]
      ensures c in done
    {
      CoveredAt(expanded, done, from, c, slots, paths, parents);
    }
  }

  lemma {:induction false} CoveredAt(expanded: set<nat>, done: set<nat>, from: nat, c: nat, slots: seq<Slot>,
                                     paths: seq<Path>, parents: seq<nat>)
    requires IsTree(slots, paths, parents) && from < |slots| && c < |slots| && paths[from] < paths[c]
    requires Frontier({}, expanded, done, from, parents)
    ensures c in done
    decreases c
  {
    var p := parents[c];
    assert Hangs(slots, paths, p, c);
    assert expanded == done + {from};
    if paths[p] == paths[from] {
      assert p == from;
    } else {
      assert paths[from] < paths[p];
      CoveredAt(expanded, done, from, p, slots, paths, parents);
    }
  }

  lemma AllPicked(places: Places, to: Path, slots: seq<Slot>, paths: seq<Path>, above: Path, done: set<nat>)
    requires |slots| == |paths| && Distinct(paths)
    requires forall c :: 0 <= c < |slots| && above < paths[c] ==> c in done
    ensures Graft(places, to, Picked(slots, paths, done), above) == Graft(places, to, PlacesOf(slots, paths), above)
  {
    var picked, all := Picked(slots, paths, done), PlacesOf(slots, paths);
    hide Graft;
    forall r | above < r
      ensures (r in picked <==> r in all) && (r in picked ==> picked[r] == all[r])
    {
      if r in all {
        var i :| 0 <= i < |slots| && paths[i] == r;
        PickedIff(slots, paths, done, i);
      }
      if r in picked {
        var i: nat :| i in done && i < |slots| && paths[i] == r;
        Recorded(slots, paths, i);
      }
    }
    SameGraft(places, to, picked, all, above);
  }

  lemma AddRoot(places: Places)
    ensures AddPath(places, ROOT) == places
  {
  }

  lemma AddNext(places: Places, path: Path, k: nat)
    requires k < |path|
    ensures path[..k + 1] == path[..k] + [path[k]]
    ensures AddPath(places, path[..k + 1]) == AddChild(AddPath(places, path[..k]), path[..k + 1])
  {
  }

  class Positions {
    var slots: seq<Slot>
    ghost var paths: seq<Path>
    ghost var parents: seq<nat>

    ghost predicate Valid()
      reads this
    {
      IsTree(slots, paths, parents)
    }

    ghost function Places(): Places
      reads this
      requires Valid()
    {
      PlacesOf(slots, paths)
    }

    lemma SameCount()
      requires Valid()
      ensures |slots| == |paths| > 0 && paths[0] == ROOT
    {
    }

    /** The places so far of a graft that has copied the source slots `done`. */
    ghost predicate Copied(places: Places, to: Path, source: Positions, above: Path, done: set<nat>)
      reads this, source
      requires Valid() && source.Valid()
    {
      Places() == YamlMachine.Graft(places, to, Picked(source.slots, source.paths, done), above)
    }

    constructor ()
      ensures Valid() && Places() == EMPTY && |slots| == 1 && paths == [ROOT]
    {
      slots := [EMPTY_SLOT];
      paths := [ROOT];
      parents := [0];
    }

    /** The one place of a tree is its root, already located. */
    constructor At(location: Location)
      ensures Valid() && Places() == map[ROOT := Some(location)]
    {
      slots := [EMPTY_SLOT.(location := Some(location))];
      paths := [ROOT];
      parents := [0];
    }

    /** Walks from the root, segment by segment, as far as there are slots. */
    method Get(pointer: string) returns (at: Option<Location>)
      requires Valid()
      ensures at == LookUp(Places(), pointer)
    {
      var slot: nat := 0;
      if |pointer| > 0 {
        if pointer[0] != '/' { return None; }
        var pieces := Split(pointer[1..]);
        var k := 0;
        while k < |pieces|
          invariant k <= |pieces| && slot < |slots| && paths[slot] == pieces[..k]
        {
          if pieces[k] !in slots[slot].children {
            NoChild(slots, paths, parents, slot, pieces);
            return None;
          }
          slot := slots[slot].children[pieces[k]];
          assert pieces[..k + 1] == pieces[..k] + [pieces[k]];
          k := k + 1;
        }
        assert pieces[..k] == pieces;
      }
      Recorded(slots, paths, slot);
      return slots[slot].location;
    }

    /** Sets the pointer's path and adds the paths before it; a string that is no pointer changes nothing. */
    method Insert(pointer: string, location: Location)
      requires Valid()
      modifies this
      ensures Valid()
      ensures Places() == match Segments(pointer) {
                            case None => old(Places())
                            case Some(path) => SetAt(AddPath(old(Places()), path), path, location)
                          }
    {
      var slot: nat := 0;
      if |pointer| > 0 {
        if pointer[0] != '/' { return; }
        var pieces := Split(pointer[1..]);
        var k := 0;
        SameCount();
        hide IsTree, PlacesOf, AddPath;
        AddRoot(Places());
        while k < |pieces|
          invariant Valid() && k <= |pieces| && slot < |slots| == |paths| && paths[slot] == pieces[..k]
          invariant Places() == AddPath(old(Places()), pieces[..k])
        {
          AddNext(old(Places()), pieces, k);
          slot := Child(slot, pieces[k]);
          SameCount();
          k := k + 1;
        }
        assert pieces[..k] == pieces;
      }
      Set(slot, location);
    }

    /** The child's slot: at most one path is new, and no slot moves. */
    method Child(parent: nat, segment: string) returns (slot: nat)
      requires Valid() && parent < |slots|
      modifies this
      ensures Valid() && slot < |slots| && paths[slot] == old(paths[parent]) + [segment]
      ensures old(paths) <= paths
      ensures Places() == AddChild(old(Places()), paths[slot])
    {
      if segment in slots[parent].children {
        slot := slots[parent].children[segment];
        Recorded(slots, paths, slot);
        return;
      }
      slot := |slots|;
      Grown(slots, paths, parents, parent, segment);
      slots := slots[parent := slots[parent].(children := slots[parent].children[segment := slot])] + [EMPTY_SLOT];
      paths := paths + [paths[parent] + [segment]];
      parents := parents + [parent];
    }

    /** Only the slot's own path changes. */
    method Set(slot: nat, location: Location)
      requires Valid() && slot < |slots|
      modifies this`slots
      ensures Valid() && |slots| == old(|slots|)
      ensures Places() == SetAt(old(Places()), paths[slot], location)
    {
      Located(slots, paths, parents, slot, Some(location));
      slots := slots[slot := slots[slot].(location := Some(location))];
    }

    /** A separate tree: the slot's own place at its root and the places under it. */
    method Subtree(slot: nat) returns (copy: Positions)
      requires Valid() && slot < |slots|
      ensures fresh(copy) && copy.Valid()
      ensures paths[slot] in Places() && copy.Places() == YamlMachine.Subtree(Places(), paths[slot])
    {
      copy := new Positions();
      Recorded(slots, paths, slot);
      hide IsTree, PlacesOf, YamlMachine.Graft;
      if slots[slot].location.Some? {
        copy.Set(0, slots[slot].location.value);
      }
      assert copy.Places() == map[ROOT := Places()[paths[slot]]];
      copy.Graft(0, this, slot);
    }

    /** The work list pairs slots of the two trees until every place under `from` has a counterpart. */
    method Graft(slot: nat, source: Positions, from: nat)
      requires Valid() && source.Valid() && source != this
      requires slot < |slots| && from < |source.slots|
      modifies this
      ensures Valid() && old(paths) <= paths
      ensures Places() == YamlMachine.Graft(old(Places()), old(paths[slot]), source.Places(), source.paths[from])
    {
      ghost var places, to := Places(), paths[slot];
      ghost var done: set<nat>, expanded: set<nat> := {}, {};
      var pending := [(from, slot)];
      GraftStart(slot, source, from);
      hide Valid, Grafting;
      while |pending| > 0
        invariant Grafting(pending, places, to, source, from, done, expanded) && old(paths) <= paths
        decreases |source.slots| - |expanded|
      {
        pending, done, expanded := Visit(pending, source, places, to, from, done, expanded);
      }
      GraftDone(places, to, source, from, done, expanded);
    }

    /** A graft under way: the copied slots, the pairs that wait, and the expanded slots. */
    ghost predicate Grafting(pending: seq<(nat, nat)>, places: Places, to: Path, source: Positions, from: nat,
                             done: set<nat>, expanded: set<nat>)
      reads this, source
    {
      && Valid() && source.Valid() && from < |source.slots|
      && Copied(places, to, source, source.paths[from], done)
      && Matched(pending, paths, to, source.paths, source.paths[from])
      && Once(pending)
      && Frontier(Froms(pending), expanded, done, from, source.parents)
      && InRange(expanded, |source.slots|)
    }

    lemma GraftStart(slot: nat, source: Positions, from: nat)
      requires Valid() && source.Valid() && slot < |slots| && from < |source.slots|
      ensures Grafting([(from, slot)], Places(), paths[slot], source, from, {}, {})
    {
      NothingPicked(Places(), paths[slot], source.slots, source.paths, source.paths[from]);
      StartList(from, slot, paths, paths[slot], source.paths, source.paths[from], source.parents);
    }

    /** Take the last pair off the work list and copy its children. */
    method Visit(pending: seq<(nat, nat)>, source: Positions, ghost places: Places, ghost to: Path, ghost from: nat,
                 ghost done: set<nat>, ghost expanded: set<nat>)
      returns (next: seq<(nat, nat)>, ghost done': set<nat>, ghost expanded': set<nat>)
      requires source != this && |pending| > 0 && Grafting(pending, places, to, source, from, done, expanded)
      modifies this
      ensures Grafting(next, places, to, source, from, done', expanded') && old(paths) <= paths
      ensures |expanded| < |expanded'| <= |source.slots|
    {
      var (f, t) := pending[|pending| - 1];
      PopNext(pending, paths, to, source.slots, source.paths, source.parents, source.paths[from], expanded, done, from);
      assert |slots| == |paths|;
      hide IsTree, Copied, Matched, Once, Froms, KidSlots, Frontier, InRange;
      done', expanded' := done + KidSlots(f, source.parents), expanded + {f};
      next := Expand(f, t, source, pending[..|pending| - 1], places, to, source.paths[from], done);
    }

    lemma GraftDone(places: Places, to: Path, source: Positions, from: nat, done: set<nat>, expanded: set<nat>)
      requires Grafting([], places, to, source, from, done, expanded)
      ensures Valid() && source.Valid() && from < |source.slots|
      ensures Places() == YamlMachine.Graft(places, to, source.Places(), source.paths[from])
    {
      NoFroms();
      Covered(expanded, done, from, source.slots, source.paths, source.parents);
      AllPicked(places, to, source.slots, source.paths, source.paths[from], done);
    }

    /** Copy the children of the source slot `f` below `t`, and leave them to visit. */
    method Expand(f: nat, t: nat, source: Positions, waiting: seq<(nat, nat)>, ghost places: Places, ghost to: Path,
                  ghost above: Path, ghost done: set<nat>) returns (pending: seq<(nat, nat)>)
      requires Valid() && source.Valid() && source != this
      requires f < |source.slots| && t < |slots|
      requires above <= source.paths[f] && paths[t] == to + source.paths[f][|above|..]
      requires Once(waiting) && Froms(waiting) !! KidSlots(f, source.parents) && done !! KidSlots(f, source.parents)
      requires Matched(waiting, paths, to, source.paths, above)
      requires Copied(places, to, source, above, done)
      modifies this
      ensures Valid() && old(paths) <= paths
      ensures Copied(places, to, source, above, done + KidSlots(f, source.parents))
      ensures Matched(pending, paths, to, source.paths, above)
      ensures Once(pending) && Froms(pending) == Froms(waiting) + KidSlots(f, source.parents)
    {
      hide Down, Up, Distinct, Matched, Once, Froms, Picked, YamlMachine.Graft, PlacesOf, KidSlots;
      pending := waiting;
      ghost var copied: set<nat> := {};
      var rest := source.slots[f].children.Keys;
      assert done + copied == done && Froms(waiting) + copied == Froms(waiting);
      while rest != {}
        invariant Valid() && old(paths) <= paths
        invariant rest <= source.slots[f].children.Keys
        invariant copied == CopiedKids(source.slots[f].children, rest)
        invariant Copied(places, to, source, above, done + copied)
        invariant Matched(pending, paths, to, source.paths, above)
        invariant Once(pending) && Froms(pending) == Froms(waiting) + copied
        decreases rest
      {
        var segment :| segment in rest;
        var child := source.slots[f].children[segment];
        KidOf(f, segment, source.slots, source.paths, source.parents);
        NextKid(f, rest, segment, source.slots, source.paths, source.parents);
        ghost var before := paths;
        assert source.paths[child][|above|..] == source.paths[f][|above|..] + [segment];
        assert child in KidSlots(f, source.parents) && child !in done + copied;
        var slot := CopyChild(t, child, segment, source, places, to, above, done + copied);
        MatchedGrows(pending, before, paths, to, source.paths, above);
        MatchedPush(pending, child, slot, paths, to, source.paths, above);
        pending := pending + [(child, slot)];
        rest := rest - {segment};
        assert done + copied + {child} == done + (copied + {child});
        assert Froms(waiting) + copied + {child} == Froms(waiting) + (copied + {child});
        copied := copied + {child};
      }
      AllKids(f, source.slots, source.paths, source.parents);
      assert copied == KidSlots(f, source.parents);
    }

    /** Copy one source slot below `t`: create its slot and, if it has one, set its location. */
    method CopyChild(t: nat, child: nat, segment: string, source: Positions, ghost places: Places, ghost to: Path,
                     ghost above: Path, ghost done: set<nat>) returns (slot: nat)
      requires Valid() && source.Valid() && source != this
      requires t < |slots| && child < |source.slots| && child !in done
      requires above < source.paths[child] && paths[t] + [segment] == to + source.paths[child][|above|..]
      requires Copied(places, to, source, above, done)
      modifies this
      ensures Valid() && old(paths) <= paths && slot < |slots|
      ensures paths[slot] == to + source.paths[child][|above|..]
      ensures Copied(places, to, source, above, done + {child})
    {
      hide Down, Up, Distinct, Picked, YamlMachine.Graft, PlacesOf;
      PickMore(places, to, source.slots, source.paths, above, done, child);
      slot := Child(t, segment);
      if source.slots[child].location.Some? {
        Set(slot, source.slots[child].location.value);
      }
    }
  }
}

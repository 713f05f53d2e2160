// The catalogue's canonical order (prepare_sources.rs): entries by kind and path, each
// followed by its variants.

module CatalogueOrder {
  import opened Common
  import opened CatalogueIdentity
  import opened Sorting

  // ----- the order of parents -----

  function Rank(kind: Kind): nat {
    match kind
    case Component => 0
    case Document => 1
    case Page => 2
    case Screen => 3
    case UseCase => 4
  }

  /** The sort key: the kind's rank, then the path's UTF-16 units. */
  function Key(e: Entry): seq<nat> {
    [Rank(e.kind)] + Units(e.path)
  }

  /** Components before documents, pages, screens and use cases; one kind by path in UTF-16 code units. */
  ghost predicate Precedes(a: Entry, b: Entry) {
    var kinds := [Component, Document, Page, Screen, UseCase];
    || (exists i, j :: 0 <= i < j < |kinds| && kinds[i] == a.kind && kinds[j] == b.kind)
    || (a.kind == b.kind && Before(Units(a.path), Units(b.path)))
  }

  lemma KeyPrecedes(a: Entry, b: Entry)
    ensures Less(Key(a), Key(b)) <==> Precedes(a, b)
  {
    LessIsBefore(Units(a.path), Units(b.path));
    assert Key(a)[1..] == Units(a.path) && Key(b)[1..] == Units(b.path);
    var kinds := [Component, Document, Page, Screen, UseCase];
    assert kinds[Rank(a.kind)] == a.kind && kinds[Rank(b.kind)] == b.kind;
  }

  // ----- parents and variants -----

  function Parents(entries: seq<Entry>): seq<Entry> {
    if |entries| == 0 then []
    else
      var last := entries[|entries| - 1];
      Parents(entries[..|entries| - 1]) + if last.variantOf.None? then [last] else []
  }

  /** The variants of some parents, in order. */
  function VariantsOf(entries: seq<Entry>, parents: set<string>): seq<Entry> {
    if |entries| == 0 then []
    else
      var last := entries[|entries| - 1];
      VariantsOf(entries[..|entries| - 1], parents) +
        if last.variantOf.Some? && last.variantOf.value in parents then [last] else []
  }

  /** Each group with its variants; a path's variants go to its first group. */
  function Blocks(groups: seq<Entry>, entries: seq<Entry>): seq<Entry> {
    if |groups| == 0 then []
    else
      var (init, last) := (groups[..|groups| - 1], groups[|groups| - 1]);
      Blocks(init, entries) + [last] + if last.path in Paths(init) then [] else VariantsOf(entries, {last.path})
  }

  function Paths(entries: seq<Entry>): set<string> {
    set i | 0 <= i < |entries| :: entries[i].path
  }

  function Ordered(entries: seq<Entry>): seq<Entry> {
    Blocks(Sorted(Parents(entries), Key), entries)
  }

  function Waiting(variants: map<string, seq<Entry>>, path: string): seq<Entry> {
    if path in variants then variants[path] else []
  }

  lemma VariantsStep(entries: seq<Entry>, k: nat, parents: set<string>)
    requires k < |entries|
    ensures VariantsOf(entries[..k + 1], parents) ==
            VariantsOf(entries[..k], parents) +
            (if entries[k].variantOf.Some? && entries[k].variantOf.value in parents then [entries[k]] else [])
    ensures Parents(entries[..k + 1]) == Parents(entries[..k]) + if entries[k].variantOf.None? then [entries[k]] else []
  {
    assert entries[..k + 1][..k] == entries[..k];
  }

  lemma BlocksStep(groups: seq<Entry>, entries: seq<Entry>, k: nat)
    requires k < |groups|
    ensures Blocks(groups[..k + 1], entries) ==
            Blocks(groups[..k], entries) + [groups[k]] +
            (if groups[k].path in Paths(groups[..k]) then [] else VariantsOf(entries, {groups[k].path}))
    ensures Paths(groups[..k + 1]) == Paths(groups[..k]) + {groups[k].path}
  {
    assert groups[..k + 1][..k] == groups[..k];
    assert groups[..k + 1] == groups[..k] + [groups[k]];
    PathsPush(groups[..k], groups[k]);
  }

  lemma PathsPush(entries: seq<Entry>, e: Entry)
    ensures Paths(entries + [e]) == Paths(entries) + {e.path}
  {
    var all := entries + [e];
    forall p | p in Paths(entries) + {e.path}
      ensures p in Paths(all)
    {
      if p in Paths(entries) {
        var i :| 0 <= i < |entries| && entries[i].path == p;
        assert all[i].path == p;
      } else {
        assert all[|entries|].path == p;
      }
    }
  }

  /** Take the variants out, in input order. */
  method SplitVariants(entries: seq<Entry>) returns (groups: seq<Entry>, variants: map<string, seq<Entry>>)
    ensures groups == Parents(entries)
    ensures forall path :: Waiting(variants, path) == VariantsOf(entries, {path})
  {
    hide Parents, VariantsOf;
    groups, variants := [], map[];
    NoneSplit(entries);
    for k := 0 to |entries|
      invariant groups == Parents(entries[..k])
      invariant forall path :: Waiting(variants, path) == VariantsOf(entries[..k], {path})
    {
      var entry := entries[k];
      ghost var before := variants;
      if entry.variantOf.Some? {
        var parent := entry.variantOf.value;
        variants := variants[parent := (if parent in variants then variants[parent] else []) + [entry]];
      } else {
        groups := groups + [entry];
      }
      VariantsStep(entries, k, {});
      forall path
        ensures Waiting(variants, path) == VariantsOf(entries[..k + 1], {path})
      {
        VariantsStep(entries, k, {path});
        assert Waiting(before, path) == VariantsOf(entries[..k], {path});
      }
    }
    assert entries[..|entries|] == entries;
  }

  lemma NoneSplit(entries: seq<Entry>)
    ensures Parents(entries[..0]) == [] && forall path :: VariantsOf(entries[..0], {path}) == []
  {
  }

  /** `canonical_order`. */
  method CanonicalOrder(entries: seq<Entry>) returns (ordered: seq<Entry>)
    ensures ordered == Ordered(entries)
  {
    hide Parents, VariantsOf, Blocks, Paths, Sorted;
    var groups, variants := SplitVariants(entries);
    groups := Sorted(groups, Key);
    ordered := [];
    NoBlocks(groups, entries);
    for k := 0 to |groups|
      invariant ordered == Blocks(groups[..k], entries)
      invariant forall path ::
                  Waiting(variants, path) == if path in Paths(groups[..k]) then [] else VariantsOf(entries, {path})
    {
      var parent := groups[k];
      ghost var before := variants;
      BlocksStep(groups, entries, k);
      var children := if parent.path in variants then variants[parent.path] else [];
      assert children == Waiting(before, parent.path);
      variants := variants - {parent.path};
      ordered := ordered + [parent] + children;
      assert forall path :: Waiting(variants, path) == if path == parent.path then [] else Waiting(before, path);
    }
    assert groups[..|groups|] == groups;
  }

  lemma NoBlocks(groups: seq<Entry>, entries: seq<Entry>)
    ensures Blocks(groups[..0], entries) == [] && Paths(groups[..0]) == {}
  {
  }

  // ----- what the order promises -----

  lemma {:induction false} ParentsSum(a: seq<Entry>, b: seq<Entry>)
    ensures Parents(a + b) == Parents(a) + Parents(b)
    decreases |b|
  {
    if |b| == 0 {
      assert a + b == a;
    } else {
      ParentsSum(a, b[..|b| - 1]);
      assert (a + b)[..|a + b| - 1] == a + b[..|b| - 1];
    }
  }

  lemma {:induction false} VariantsSum(a: seq<Entry>, b: seq<Entry>, parents: set<string>)
    ensures VariantsOf(a + b, parents) == VariantsOf(a, parents) + VariantsOf(b, parents)
    decreases |b|
  {
    if |b| == 0 {
      assert a + b == a;
    } else {
      VariantsSum(a, b[..|b| - 1], parents);
      assert (a + b)[..|a + b| - 1] == a + b[..|b| - 1];
    }
  }

  predicate AllParents(s: seq<Entry>) {
    forall i :: 0 <= i < |s| ==> s[i].variantOf.None?
  }

  lemma {:induction false} OnlyParents(entries: seq<Entry>)
    ensures AllParents(Parents(entries))
    ensures forall e :: e in Parents(entries) <==> e in entries && e.variantOf.None?
  {
    if |entries| > 0 {
      OnlyParents(entries[..|entries| - 1]);
      assert entries == entries[..|entries| - 1] + [entries[|entries| - 1]];
    }
  }

  /** A parent's variants, looked up among some parents' variants. */
  lemma {:induction false} VariantsAgain(entries: seq<Entry>, q: string, p: string)
    ensures Parents(VariantsOf(entries, {q})) == []
    ensures VariantsOf(VariantsOf(entries, {q}), {p}) == if p == q then VariantsOf(entries, {q}) else []
  {
    if |entries| > 0 {
      var (init, last) := (VariantsOf(entries[..|entries| - 1], {q}), entries[|entries| - 1]);
      VariantsAgain(entries[..|entries| - 1], q, p);
      if last.variantOf == Some(q) {
        ParentsSum(init, [last]);
        VariantsSum(init, [last], {p});
        One(last, p);
      } else {
        assert init + [] == init;
      }
    }
  }

  lemma Nothing(p: string)
    ensures Parents([]) == [] && VariantsOf([], {p}) == []
  {
  }

  lemma One(e: Entry, p: string)
    ensures Parents([e]) == if e.variantOf.None? then [e] else []
    ensures VariantsOf([e], {p}) == if e.variantOf == Some(p) then [e] else []
  {
  }

  /** One more block: a parent, and either no variants or all of its own. */
  lemma BlockKeeps(before: seq<Entry>, last: Entry, children: seq<Entry>, entries: seq<Entry>, p: string)
    requires last.variantOf.None? && (children == [] || children == VariantsOf(entries, {last.path}))
    ensures Parents(before + [last] + children) == Parents(before) + [last]
    ensures VariantsOf(before + [last] + children, {p}) ==
            VariantsOf(before, {p}) + (if p == last.path then children else [])
  {
    hide Parents, VariantsOf;
    ParentsSum(before + [last], children);
    ParentsSum(before, [last]);
    VariantsSum(before + [last], children, {p});
    VariantsSum(before, [last], {p});
    One(last, p);
    Nothing(p);
    VariantsAgain(entries, last.path, p);
  }

  /** The blocks keep the groups in order and each group's variants in input order. */
  lemma {:induction false} BlocksKeep(groups: seq<Entry>, entries: seq<Entry>, p: string)
    requires AllParents(groups)
    ensures Parents(Blocks(groups, entries)) == groups
    ensures VariantsOf(Blocks(groups, entries), {p}) == if p in Paths(groups) then VariantsOf(entries, {p}) else []
    decreases |groups|
  {
    hide Parents, VariantsOf, Blocks, Paths;
    if |groups| > 0 {
      var k := |groups| - 1;
      var (init, last) := (groups[..k], groups[k]);
      BlocksKeep(init, entries, p);
      BlocksStep(groups, entries, k);
      assert groups[..k + 1] == groups && groups == init + [last];
      BlockKeeps(Blocks(init, entries), last,
                 if last.path in Paths(init) then [] else VariantsOf(entries, {last.path}), entries, p);
    } else {
      Nothing(p);
      NoBlocks(groups, entries);
      assert groups[..0] == groups;
    }
  }

  /** A group's variants follow it directly, when no earlier group has its path. */
  lemma {:induction false} BlockAt(groups: seq<Entry>, entries: seq<Entry>, k: nat)
    requires k < |groups|
    ensures Blocks(groups[..k], entries) + [groups[k]] +
            (if groups[k].path in Paths(groups[..k]) then [] else VariantsOf(entries, {groups[k].path}))
         <= Blocks(groups, entries)
    decreases |groups|
  {
    hide Paths, VariantsOf, Blocks;
    var n := |groups| - 1;
    BlocksStep(groups, entries, n);
    assert groups[..n + 1] == groups;
    if k < n {
      BlockAt(groups[..n], entries, k);
      assert groups[..n][..k] == groups[..k];
    }
  }

  lemma {:induction false} PathsOf(s: seq<Entry>, t: seq<Entry>)
    requires multiset(s) == multiset(t)
    ensures Paths(s) == Paths(t)
  {
    forall i | 0 <= i < |s|
      ensures s[i].path in Paths(t)
    {
      assert s[i] in multiset(t);
    }
    forall i | 0 <= i < |t|
      ensures t[i].path in Paths(s)
    {
      assert t[i] in multiset(s);
    }
  }

  lemma SortedParents(entries: seq<Entry>)
    ensures AllParents(Sorted(Parents(entries), Key)) && Ascending(Sorted(Parents(entries), Key), Key)
    ensures multiset(Sorted(Parents(entries), Key)) == multiset(Parents(entries))
    ensures Paths(Sorted(Parents(entries), Key)) == Paths(Parents(entries))
  {
    hide Sorted, Parents, Ascending;
    var (groups, sorted) := (Parents(entries), Sorted(Parents(entries), Key));
    OnlyParents(entries);
    SortedAscends(groups, Key);
    PathsOf(sorted, groups);
    forall i | 0 <= i < |sorted|
      ensures sorted[i].variantOf.None?
    {
      assert sorted[i] in multiset(groups);
    }
  }

  /** Parents come out sorted, and each parent's variants in input order. */
  lemma OrderedParts(entries: seq<Entry>, p: string)
    ensures Parents(Ordered(entries)) == Sorted(Parents(entries), Key)
    ensures
      var parents := Parents(Ordered(entries));
      forall i, j :: 0 <= i < j < |parents| ==> !Precedes(parents[j], parents[i])
    ensures VariantsOf(Ordered(entries), {p}) == if p in Paths(Parents(entries)) then VariantsOf(entries, {p}) else []
  {
    hide Sorted, Parents, VariantsOf, Paths, Precedes, Less, Key;
    SortedParents(entries);
    BlocksKeep(Sorted(Parents(entries), Key), entries, p);
    forall a, b
      ensures Less(Key(a), Key(b)) <==> Precedes(a, b)
    {
      KeyPrecedes(a, b);
    }
  }

  lemma {:induction false} BlocksSame(groups: seq<Entry>, entries: seq<Entry>, others: seq<Entry>)
    requires forall p :: p in Paths(groups) ==> VariantsOf(entries, {p}) == VariantsOf(others, {p})
    ensures Blocks(groups, entries) == Blocks(groups, others)
    decreases |groups|
  {
    hide VariantsOf;
    if |groups| > 0 {
      var init := groups[..|groups| - 1];
      assert groups == init + [groups[|groups| - 1]];
      PathsPush(init, groups[|groups| - 1]);
      BlocksSame(init, entries, others);
    }
  }

  /** Ordering again changes nothing. */
  lemma OrderedTwice(entries: seq<Entry>)
    ensures Ordered(Ordered(entries)) == Ordered(entries)
  {
    hide Sorted, Parents, VariantsOf, Paths, Blocks;
    var ordered := Ordered(entries);
    OrderedParts(entries, "");
    SortedAscends(Parents(entries), Key);
    SortedAgain(Parents(ordered), Key);
    SortedParents(entries);
    forall p | p in Paths(Sorted(Parents(entries), Key))
      ensures VariantsOf(entries, {p}) == VariantsOf(ordered, {p})
    {
      OrderedParts(entries, p);
    }
    BlocksSame(Sorted(Parents(entries), Key), entries, ordered);
  }

  // ----- nothing is lost -----

  /** Every variant's parent path is a non-variant entry's. */
  predicate AllParented(entries: seq<Entry>, parents: set<string>) {
    forall i :: 0 <= i < |entries| && entries[i].variantOf.Some? ==> entries[i].variantOf.value in parents
  }

  lemma {:induction false} VariantsUnion(entries: seq<Entry>, parents: set<string>, q: string)
    requires q !in parents
    ensures multiset(VariantsOf(entries, parents + {q})) ==
            multiset(VariantsOf(entries, parents)) + multiset(VariantsOf(entries, {q}))
  {
    if |entries| > 0 { VariantsUnion(entries[..|entries| - 1], parents, q); }
  }

  lemma {:induction false} NoVariants(entries: seq<Entry>)
    ensures VariantsOf(entries, {}) == []
  {
    if |entries| > 0 { NoVariants(entries[..|entries| - 1]); }
  }

  lemma {:induction false} BlocksHold(groups: seq<Entry>, entries: seq<Entry>)
    ensures multiset(Blocks(groups, entries)) == multiset(groups) + multiset(VariantsOf(entries, Paths(groups)))
    decreases |groups|
  {
    hide VariantsOf;
    if |groups| == 0 {
      NoVariants(entries);
      assert Paths(groups) == {};
    } else {
      var (init, last) := (groups[..|groups| - 1], groups[|groups| - 1]);
      BlocksHold(init, entries);
      assert groups == init + [last];
      PathsPush(init, last);
      if last.path in Paths(init) {
        assert Paths(init) + {last.path} == Paths(init);
      } else {
        VariantsUnion(entries, Paths(init), last.path);
      }
    }
  }

  lemma {:induction false} Divided(entries: seq<Entry>, parents: set<string>)
    ensures |Parents(entries)| + |VariantsOf(entries, parents)| <= |entries|
    ensures AllParented(entries, parents) <==> |Parents(entries)| + |VariantsOf(entries, parents)| == |entries|
    ensures AllParented(entries, parents) ==>
              multiset(Parents(entries)) + multiset(VariantsOf(entries, parents)) == multiset(entries)
  {
    if |entries| > 0 {
      var (init, last) := (entries[..|entries| - 1], entries[|entries| - 1]);
      Divided(init, parents);
      assert entries == init + [last];
    }
  }

  /** The order holds the parents and the variants that have one, as often as the input does. */
  lemma OrderedContents(entries: seq<Entry>)
    ensures multiset(Ordered(entries)) ==
            multiset(Parents(entries)) + multiset(VariantsOf(entries, Paths(Parents(entries))))
  {
    hide Sorted, Parents, VariantsOf, Paths, Blocks;
    SortedParents(entries);
    BlocksHold(Sorted(Parents(entries), Key), entries);
  }

  /** The order is a permutation exactly when no variant lacks its parent; other variants are dropped. */
  lemma OrderedPermutation(entries: seq<Entry>)
    ensures multiset(Ordered(entries)) == multiset(entries) <==> AllParented(entries, Paths(Parents(entries)))
  {
    hide Sorted, Parents, VariantsOf, Paths, Blocks, AllParented;
    var parents := Paths(Parents(entries));
    OrderedContents(entries);
    Divided(entries, parents);
    assert |multiset(Ordered(entries))| == |Parents(entries)| + |VariantsOf(entries, parents)|;
    assert |multiset(entries)| == |entries|;
  }

  lemma {:induction false} PartMembers(entries: seq<Entry>, parents: set<string>, e: Entry)
    ensures e in Parents(entries) <==> e in entries && e.variantOf.None?
    ensures e in VariantsOf(entries, parents) <==> e in entries && e.variantOf.Some? && e.variantOf.value in parents
  {
    if |entries| > 0 {
      var (init, last) := (entries[..|entries| - 1], entries[|entries| - 1]);
      PartMembers(init, parents, e);
      assert entries == init + [last];
    }
  }

  /** Exactly the variants without a parent in the input are missing from the order. */
  lemma OrphansDropped(entries: seq<Entry>, e: Entry)
    requires e in entries
    ensures e !in Ordered(entries) <==> e.variantOf.Some? && e.variantOf.value !in Paths(Parents(entries))
  {
    hide Ordered, Parents, VariantsOf, Paths;
    OrderedContents(entries);
    PartMembers(entries, Paths(Parents(entries)), e);
    assert e in Ordered(entries) <==> e in multiset(Ordered(entries));
  }

  /** Such an input: a variant on its own. */
  lemma Orphan()
    ensures
      var orphan := Entry("buttons/primary", Component, Some("buttons"), false, "buttons.html");
      Ordered([orphan]) == []
  {
  }
}

// Relative targets and reciprocal flow membership (relationships.rs).

module Relationships {
  import opened Common
  import opened CatalogueIdentity
  import Pointers

  // ----- entry paths -----

  predicate IsAlphanumeric(c: char) {
    'a' <= c <= 'z' || 'A' <= c <= 'Z' || '0' <= c <= '9'
  }

  predicate IsDeviceName(segment: string) {
    var lower := Lower(segment);
    || lower in {"aux", "con", "nul", "prn"}
    || (|lower| == 4 && lower[..3] in {"com", "lpt"} && '1' <= lower[3] <= '9')
  }

  predicate IsPathSegment(segment: string) {
    && segment != "" && !IsDeviceName(segment)
    && forall i :: 0 <= i < |segment| ==> IsAlphanumeric(segment[i]) || segment[i] == '_' || segment[i] == '-'
  }

  predicate IsEntryPath(path: string) {
    var segments := Pointers.Split(path);
    && (forall i :: 0 <= i < |segments| ==> IsPathSegment(segments[i]))
    && Lower(segments[0]) != "mokly-generated"
  }

  // ----- resolution -----

  function JoinSlash(segments: seq<string>): string {
    if |segments| == 0 then ""
    else if |segments| == 1 then segments[0]
    else JoinSlash(segments[..|segments| - 1]) + "/" + segments[|segments| - 1]
  }

  predicate IsRelative(target: string) {
    (|target| >= 2 && target[..2] == "./") || (|target| >= 3 && target[..3] == "../")
  }

  /** Follow the parts of a relative target from a folder; None for an empty part or a step above the root. */
  function Follow(segments: seq<string>, parts: seq<string>): Option<seq<string>>
    decreases |parts|
  {
    if |parts| == 0 then Some(segments)
    else if parts[0] == "." then Follow(segments, parts[1..])
    else if parts[0] == ".." then if |segments| == 0 then None else Follow(segments[..|segments| - 1], parts[1..])
    else if parts[0] == "" then None
    else Follow(segments + [parts[0]], parts[1..])
  }

  function FolderSegments(base: string): seq<string> {
    if base == "" then [] else Pointers.Split(base)
  }

  function Resolved(target: string, base: string): Option<string> {
    var path :=
      if !IsRelative(target) then Some(target)
      else
        match Follow(FolderSegments(base), Pointers.Split(target))
        case None => None
        case Some(segments) => Some(JoinSlash(segments));
    if path.Some? && IsEntryPath(path.value) then path else None
  }

  /** `resolve`, with its segment stack. */
  method Resolve(target: string, base: string) returns (path: Option<string>)
    ensures path == Resolved(target, base)
  {
    var resolved := target;
    if IsRelative(target) {
      var segments := FolderSegments(base);
      var parts := Pointers.Split(target);
      for k := 0 to |parts|
        invariant Follow(segments, parts[k..]) == Follow(FolderSegments(base), parts)
      {
        var part := parts[k];
        assert parts[k..][0] == part && parts[k..][1..] == parts[k + 1..];
        if part == "." {
        } else if part == ".." {
          if |segments| == 0 { return None; }
          segments := segments[..|segments| - 1];
        } else if part == "" {
          return None;
        } else {
          segments := segments + [part];
        }
      }
      resolved := JoinSlash(segments);
    }
    path := if IsEntryPath(resolved) then Some(resolved) else None;
  }

  /** The depth below the root along a target's parts; None above it. */
  function Depth(depth: nat, parts: seq<string>): Option<nat>
    decreases |parts|
  {
    if |parts| == 0 then Some(depth)
    else if parts[0] == "." then Depth(depth, parts[1..])
    else if parts[0] == ".." then if depth == 0 then None else Depth(depth - 1, parts[1..])
    else Depth(depth + 1, parts[1..])
  }

  /** The least depth along the parts: what is kept of the folder. */
  function Kept(depth: nat, parts: seq<string>): nat
    decreases |parts|
  {
    if |parts| == 0 then depth
    else if parts[0] == "." then Kept(depth, parts[1..])
    else if parts[0] == ".." then if depth == 0 then 0 else Kept(depth - 1, parts[1..])
    else Min(depth, Kept(depth + 1, parts[1..]))
  }

  /** A target resolves exactly when no part is empty and no step leaves the root; the folder it climbs to
      stays its beginning. */
  lemma {:induction false} FollowStaysInside(segments: seq<string>, parts: seq<string>)
    ensures Follow(segments, parts).Some? <==> "" !in parts && Depth(|segments|, parts).Some?
    ensures Follow(segments, parts).Some? ==>
              var (end, kept) := (Follow(segments, parts).value, Kept(|segments|, parts));
              |end| == Depth(|segments|, parts).value && kept <= |segments| && kept <= |end| &&
              end[..kept] == segments[..kept]
    decreases |parts|
  {
    if |parts| > 0 {
      assert parts == [parts[0]] + parts[1..];
      if parts[0] == "." {
        FollowStaysInside(segments, parts[1..]);
      } else if parts[0] == ".." {
        if |segments| > 0 { FollowStaysInside(segments[..|segments| - 1], parts[1..]); }
      } else if parts[0] != "" {
        FollowStaysInside(segments + [parts[0]], parts[1..]);
      }
    }
  }

  // ----- what relative targets mean -----

  lemma {:induction false} FollowSum(segments: seq<string>, a: seq<string>, b: seq<string>)
    ensures Follow(segments, a + b) ==
            if Follow(segments, a).None? then None else Follow(Follow(segments, a).value, b)
    decreases |a|
  {
    if |a| == 0 {
      assert a + b == b;
    } else {
      assert (a + b)[1..] == a[1..] + b;
      if a[0] == "." {
        FollowSum(segments, a[1..], b);
      } else if a[0] == ".." {
        if |segments| > 0 { FollowSum(segments[..|segments| - 1], a[1..], b); }
      } else if a[0] != "" {
        FollowSum(segments + [a[0]], a[1..], b);
      }
    }
  }

  ghost predicate AreNames(parts: seq<string>) {
    forall i :: 0 <= i < |parts| ==> parts[i] !in {"", ".", ".."} && '/' !in parts[i]
  }

  lemma {:induction false} FollowNames(segments: seq<string>, names: seq<string>)
    requires AreNames(names)
    ensures Follow(segments, names) == Some(segments + names)
    decreases |names|
  {
    if |names| == 0 {
      assert segments + names == segments;
    } else {
      FollowNames(segments + [names[0]], names[1..]);
      assert segments + [names[0]] + names[1..] == segments + names;
    }
  }

  function Ups(n: nat): (parts: seq<string>)
    ensures |parts| == n && forall i :: 0 <= i < n ==> parts[i] == ".."
  {
    seq(n, i => "..")
  }

  lemma {:induction false} FollowUps(segments: seq<string>, n: nat)
    ensures Follow(segments, Ups(n)) == if n <= |segments| then Some(segments[..|segments| - n]) else None
    decreases n
  {
    if n == 0 {
      assert segments[..|segments|] == segments;
    } else {
      assert Ups(n)[1..] == Ups(n - 1);
      if |segments| > 0 {
        var up := segments[..|segments| - 1];
        FollowUps(up, n - 1);
        if n <= |segments| { assert up[..|up| - (n - 1)] == segments[..|segments| - n]; }
      }
    }
  }

  lemma SplitFirst(s: string)
    requires |s| > 0
    ensures
      var rest := Pointers.Split(s[1..]);
      Pointers.Split(s) == if s[0] == '/' then [""] + rest else [[s[0]] + rest[0]] + rest[1..]
  {
  }

  lemma {:induction false} SplitSum(a: string, b: string)
    ensures Pointers.Split(a + "/" + b) == Pointers.Split(a) + Pointers.Split(b)
    decreases |a|
  {
    hide Pointers.Split;
    SplitFirst(a + "/" + b);
    if |a| == 0 {
      assert (a + "/" + b)[1..] == b;
      SplitWord(a);
    } else {
      SplitFirst(a);
      SplitSum(a[1..], b);
      assert (a + "/" + b)[1..] == a[1..] + "/" + b;
    }
  }

  lemma {:induction false} SplitWord(word: string)
    requires '/' !in word
    ensures Pointers.Split(word) == [word]
  {
    if |word| > 0 {
      SplitWord(word[1..]);
      assert [word[0]] + word[1..] == word;
    }
  }

  /** Joined with slashes, slash-free segments are split again. */
  lemma {:induction false} SplitJoined(segments: seq<string>)
    requires |segments| > 0 && forall i :: 0 <= i < |segments| ==> '/' !in segments[i]
    ensures Pointers.Split(JoinSlash(segments)) == segments
    decreases |segments|
  {
    var (init, last) := (segments[..|segments| - 1], segments[|segments| - 1]);
    SplitWord(last);
    if |init| > 0 {
      SplitJoined(init);
      SplitSum(JoinSlash(init), last);
    }
  }

  /** A target of `n` steps up (none is written `.`) and then names leads from a folder to those names in the folder
      `n` levels up. It resolves when there are so many levels and the result is an entry path. */
  lemma RelativeTarget(folder: seq<string>, n: nat, names: seq<string>)
    requires AreNames(folder) && AreNames(names) && |names| > 0
    ensures
      var target := JoinSlash((if n == 0 then ["."] else Ups(n)) + names);
      var end := folder[..if n <= |folder| then |folder| - n else 0] + names;
      Resolved(target, JoinSlash(folder)) ==
      if n <= |folder| && IsEntryPath(JoinSlash(end)) then Some(JoinSlash(end)) else None
  {
    hide IsEntryPath;
    var start := if n == 0 then ["."] else Ups(n);
    SplitJoined(start + names);
    TargetStarts(start, names);
    if |folder| > 0 { SplitJoined(folder); JoinedNotEmpty(folder); }
    assert FolderSegments(JoinSlash(folder)) == folder;
    FollowSum(folder, start, names);
    FollowUps(folder, n);
    if n == 0 {
      assert Follow(folder, ["."]) == Follow(folder, []);
      assert folder[..|folder|] == folder;
      FollowNames(folder, names);
    } else if n <= |folder| {
      FollowNames(folder[..|folder| - n], names);
    }
  }

  lemma JoinedNotEmpty(segments: seq<string>)
    requires AreNames(segments) && |segments| > 0
    ensures JoinSlash(segments) != ""
  {
  }

  lemma {:induction false} JoinedPrefix(a: seq<string>, b: seq<string>)
    requires |a| > 0 && |b| > 0
    ensures JoinSlash(a) + "/" <= JoinSlash(a + b)
    decreases |b|
  {
    var all := a + b;
    if |b| == 1 {
      assert all[..|all| - 1] == a;
    } else {
      JoinedPrefix(a, b[..|b| - 1]);
      assert all[..|all| - 1] == a + b[..|b| - 1];
    }
  }

  lemma TargetStarts(start: seq<string>, names: seq<string>)
    requires |start| > 0 && |names| > 0 && start[0] in {".", ".."}
    ensures IsRelative(JoinSlash(start + names))
  {
    hide JoinSlash, IsRelative;
    var rest := start[1..] + names;
    assert start + names == [start[0]] + rest;
    JoinedPrefix([start[0]], rest);
    JoinedOne(start[0]);
    DotsAreRelative(start[0], JoinSlash(start + names));
  }

  lemma JoinedOne(segment: string)
    ensures JoinSlash([segment]) == segment
  {
  }

  lemma DotsAreRelative(dots: string, target: string)
    requires dots in {".", ".."} && dots + "/" <= target
    ensures IsRelative(target)
  {
    assert target[..|dots| + 1] == dots + "/";
  }

  // ----- entry paths and letter case -----

  lemma LowerPush(c: char, s: string)
    ensures Lower([c] + s) == [LowerChar(c)] + Lower(s)
  {
  }

  lemma {:induction false} SplitLower(s: string)
    ensures
      var (pieces, lower) := (Pointers.Split(s), Pointers.Split(Lower(s)));
      |pieces| == |lower| && forall i :: 0 <= i < |pieces| ==> lower[i] == Lower(pieces[i])
  {
    hide Lower;
    if |s| == 0 {
      LowerNone();
    } else {
      SplitLower(s[1..]);
      LowerPush(s[0], s[1..]);
      LowerNone();
      assert [s[0]] + s[1..] == s;
      if s[0] != '/' { LowerPush(s[0], Pointers.Split(s[1..])[0]); }
    }
  }

  lemma LowerNone()
    ensures Lower("") == ""
  {
  }

  lemma SegmentCase(a: string, b: string)
    requires Lower(a) == Lower(b) && IsPathSegment(a)
    ensures IsPathSegment(b)
  {
  }

  /** Whether a text is an entry path does not depend on letter case. */
  lemma EntryPathCase(a: string, b: string)
    requires Lower(a) == Lower(b) && IsEntryPath(a)
    ensures IsEntryPath(b)
  {
    hide IsPathSegment, Lower;
    SplitLower(a);
    SplitLower(b);
    var (x, y) := (Pointers.Split(a), Pointers.Split(b));
    forall i | 0 <= i < |y|
      ensures IsPathSegment(y[i])
    {
      SegmentCase(x[i], y[i]);
    }
  }

  /** A name that no system reserves, of letters, digits, `_` and `-`. */
  ghost predicate IsSlug(name: string) {
    && name != "" && (forall c :: c in name ==> 'a' <= c <= 'z' || 'A' <= c <= 'Z' || '0' <= c <= '9' || c in "_-")
    && Lower(name) !in {"aux", "con", "nul", "prn"}
    && forall digit :: digit in "123456789" ==> Lower(name) != "com" + [digit] && Lower(name) != "lpt" + [digit]
  }

  lemma SlugIsSegment(name: string)
    ensures IsPathSegment(name) <==> IsSlug(name)
  {
    hide Lower, IsDeviceName;
    DeviceNames(name);
    assert (forall i :: 0 <= i < |name| ==> name[i] in name) && forall c :: c in "_-" <==> c == '_' || c == '-';
  }

  lemma DeviceNames(name: string)
    ensures IsDeviceName(name) <==>
              || Lower(name) in {"aux", "con", "nul", "prn"}
              || exists digit :: digit in "123456789" &&
                   (Lower(name) == "com" + [digit] || Lower(name) == "lpt" + [digit])
  {
    hide Lower;
    var lower := Lower(name);
    if |lower| == 4 { assert lower == lower[..3] + [lower[3]]; }
    Digits();
  }

  lemma Digits()
    ensures forall c :: c in "123456789" <==> '1' <= c <= '9'
  {
    forall c | '1' <= c <= '9'
      ensures c in "123456789"
    {
      assert c == "123456789"[c as int - '1' as int];
    }
  }

  /** Names joined with slashes are an entry path exactly when each is a slug and the first is not the generated
      output's own. */
  lemma EntryPathIs(names: seq<string>)
    requires |names| > 0 && forall i :: 0 <= i < |names| ==> '/' !in names[i]
    ensures IsEntryPath(JoinSlash(names)) <==>
            (forall i :: 0 <= i < |names| ==> IsSlug(names[i])) && Lower(names[0]) != "mokly-generated"
  {
    hide IsPathSegment, IsSlug, Lower;
    SplitJoined(names);
    forall i | 0 <= i < |names|
      ensures IsPathSegment(names[i]) <==> IsSlug(names[i])
    {
      SlugIsSegment(names[i]);
    }
  }

  /** An entry path resolves to itself from anywhere. */
  lemma EntryPathResolves(path: string, base: string)
    requires IsEntryPath(path)
    ensures Resolved(path, base) == Some(path)
  {
    if |path| > 0 && path[0] == '.' { FirstPiece(path); }
  }

  lemma FirstPiece(s: string)
    requires |s| > 0 && s[0] != '/'
    ensures var first := Pointers.Split(s)[0]; |first| > 0 && first[0] == s[0]
  {
  }

  // ----- bases -----

  /** An entry with its targets: a screen's flows, or a flow's screens in step order. */
  datatype Node = Node(entry: Entry, targets: seq<string>)

  predicate HasPath(nodes: seq<Node>, i: int, path: string) {
    0 <= i < |nodes| && nodes[i].entry.path == path
  }

  /** The first entry with a path. */
  function Find(nodes: seq<Node>, path: string): (found: Option<Entry>)
    ensures found.None? ==> forall i :: 0 <= i < |nodes| ==> nodes[i].entry.path != path
    ensures found.Some? ==> found.value.path == path
  {
    if |nodes| == 0 then None
    else if nodes[0].entry.path == path then Some(nodes[0].entry)
    else Find(nodes[1..], path)
  }

  /** `base`: the folder that an entry's relative targets start from; a variant has its parent's. */
  function Base(entry: Entry, nodes: seq<Node>): string {
    var parent := if entry.variantOf.Some? then Find(nodes, entry.variantOf.value) else None;
    var owner := if parent.Some? then parent.value else entry;
    if owner.isIndex then owner.path else Directory(owner.path)
  }

  /** Whose folder counts for an entry: its parent's when it is a variant and the parent is there. */
  ghost predicate Stands(owner: Entry, entry: Entry, nodes: seq<Node>) {
    if entry.variantOf.Some? && exists i :: HasPath(nodes, i, entry.variantOf.value) then
      exists i :: HasPath(nodes, i, entry.variantOf.value) && owner == nodes[i].entry &&
                  forall j :: 0 <= j < i ==> !HasPath(nodes, j, entry.variantOf.value)
    else owner == entry
  }

  lemma {:induction false} FindIs(nodes: seq<Node>, path: string, i: nat)
    requires HasPath(nodes, i, path) && forall j :: 0 <= j < i ==> !HasPath(nodes, j, path)
    ensures Find(nodes, path) == Some(nodes[i].entry)
    decreases |nodes|
  {
    if i > 0 {
      assert !HasPath(nodes, 0, path);
      assert forall j :: 0 <= j < i - 1 ==> HasPath(nodes[1..], j, path) ==> HasPath(nodes, j + 1, path);
      FindIs(nodes[1..], path, i - 1);
    }
  }

  ghost predicate InFolder(path: string, folder: string, name: string) {
    '/' !in name && path == folder + "/" + name
  }

  lemma DirectoryIs(path: string)
    ensures '/' !in path ==> Directory(path) == ""
    ensures '/' in path ==> exists name :: InFolder(path, Directory(path), name)
  {
    LastSlashIs(path);
    if '/' in path {
      var at := LastSlash(path).value;
      assert Directory(path) == path[..at];
      assert '/' !in path[at + 1..];
      assert path == path[..at] + "/" + path[at + 1..];
      assert InFolder(path, path[..at], path[at + 1..]);
    }
  }

  /** An index stands for its own folder; any other entry's folder is its path up to the last slash. */
  lemma BaseIs(owner: Entry, entry: Entry, nodes: seq<Node>)
    requires Stands(owner, entry, nodes)
    ensures owner.isIndex ==> Base(entry, nodes) == owner.path
    ensures !owner.isIndex && '/' !in owner.path ==> Base(entry, nodes) == ""
    ensures !owner.isIndex && '/' in owner.path ==>
              exists name :: InFolder(owner.path, Base(entry, nodes), name)
  {
    if entry.variantOf.Some? {
      var parent := entry.variantOf.value;
      if exists i :: HasPath(nodes, i, parent) {
        var i :| HasPath(nodes, i, parent) && owner == nodes[i].entry &&
                 forall j :: 0 <= j < i ==> !HasPath(nodes, j, parent);
        FindIs(nodes, parent, i);
      } else if Find(nodes, parent).Some? {
        FindHas(nodes, parent);
      }
    }
    if !owner.isIndex {
      DirectoryIs(owner.path);
      assert Base(entry, nodes) == Directory(owner.path);
    }
  }

  lemma {:induction false} FindHas(nodes: seq<Node>, path: string)
    requires Find(nodes, path).Some?
    ensures exists i :: HasPath(nodes, i, path)
  {
    if nodes[0].entry.path == path {
      assert HasPath(nodes, 0, path);
    } else {
      FindHas(nodes[1..], path);
      var i :| HasPath(nodes[1..], i, path);
      assert HasPath(nodes, i + 1, path);
    }
  }

  // ----- targets -----

  function Wanted(kind: Kind): Option<Kind> {
    if kind.Screen? then Some(UseCase) else if kind.UseCase? then Some(Screen) else None
  }

  /** The last entry with a path, letter case aside. */
  function Lookup(nodes: seq<Node>, lower: string): (found: Option<Entry>)
    ensures found.None? ==> forall i :: 0 <= i < |nodes| ==> Lower(nodes[i].entry.path) != lower
    ensures found.Some? ==>
              Lower(found.value.path) == lower && exists i :: 0 <= i < |nodes| && nodes[i].entry == found.value
  {
    if |nodes| == 0 then None
    else if Lower(nodes[|nodes| - 1].entry.path) == lower then Some(nodes[|nodes| - 1].entry)
    else Lookup(nodes[..|nodes| - 1], lower)
  }

  /** The entry of the wanted kind that a target names. */
  function Named(nodes: seq<Node>, target: string, folder: string, kind: Kind): (found: Option<Entry>) {
    var path := Resolved(target, folder);
    var entry := if path.Some? then Lookup(nodes, Lower(path.value)) else None;
    if entry.Some? && entry.value.kind == kind then entry else None
  }

  /** A target after the rewrite: the exact path it names, or as it was. */
  function Rewritten(nodes: seq<Node>, target: string, folder: string, kind: Kind): string {
    var named := Named(nodes, target, folder, kind);
    if named.Some? then named.value.path else target
  }

  function RewrittenAll(nodes: seq<Node>, targets: seq<string>, folder: string, kind: Kind): (out: seq<string>)
    ensures |out| == |targets| && forall k :: 0 <= k < |targets| ==>
              out[k] == Rewritten(nodes, targets[k], folder, kind)
  {
    seq(|targets|, k requires 0 <= k < |targets| => Rewritten(nodes, targets[k], folder, kind))
  }

  /** An entry that failed before keeps its targets; an entry of another kind has none to rewrite. */
  predicate Checked(node: Node, failed: set<string>) {
    node.entry.path !in failed && Wanted(node.entry.kind).Some?
  }

  function RewrittenNode(nodes: seq<Node>, node: Node, failed: set<string>): Node {
    if !Checked(node, failed) then node
    else node.(targets := RewrittenAll(nodes, node.targets, Base(node.entry, nodes), Wanted(node.entry.kind).value))
  }

  function RewrittenNodes(nodes: seq<Node>, failed: set<string>): (out: seq<Node>)
    ensures |out| == |nodes| && forall i :: 0 <= i < |nodes| ==> out[i] == RewrittenNode(nodes, nodes[i], failed)
  {
    seq(|nodes|, i requires 0 <= i < |nodes| => RewrittenNode(nodes, nodes[i], failed))
  }

  /** Every target names an entry of the wanted kind. */
  predicate AllNamed(nodes: seq<Node>, node: Node, failed: set<string>) {
    Checked(node, failed) ==>
      forall k :: 0 <= k < |node.targets| ==>
        Named(nodes, node.targets[k], Base(node.entry, nodes), Wanted(node.entry.kind).value).Some?
  }

  ghost predicate EveryTargetNamed(nodes: seq<Node>, failed: set<string>) {
    forall i :: 0 <= i < |nodes| ==> AllNamed(nodes, nodes[i], failed)
  }

  // ----- membership -----

  function Elements(s: seq<string>): set<string> {
    set x | x in s
  }

  /** The targets of each entry of a kind; the last entry with a path counts. */
  function Members(nodes: seq<Node>, kind: Kind): map<string, set<string>> {
    if |nodes| == 0 then map[]
    else
      var before := Members(nodes[..|nodes| - 1], kind);
      var last := nodes[|nodes| - 1];
      if last.entry.kind == kind then before[last.entry.path := Elements(last.targets)] else before
  }

  /** Entries on one side list no valid entry of the other that does not list them back. */
  ghost predicate ListedBack(ours: map<string, set<string>>, theirs: map<string, set<string>>, invalid: set<string>) {
    forall a, b :: a in ours && b in ours[a] && a !in invalid && b !in invalid && b in theirs ==> a in theirs[b]
  }

  ghost predicate Reciprocal(nodes: seq<Node>, invalid: set<string>) {
    && ListedBack(Members(nodes, Screen), Members(nodes, UseCase), invalid)
    && ListedBack(Members(nodes, UseCase), Members(nodes, Screen), invalid)
  }

  datatype Issue = Unnamed(path: string, target: string) | Unanswered(path: string, target: string)

  method LookupTable(nodes: seq<Node>) returns (table: map<string, Entry>)
    ensures forall lower :: Lookup(nodes, lower) == if lower in table then Some(table[lower]) else None
  {
    hide Lower;
    table := map[];
    for k := 0 to |nodes|
      invariant forall lower :: Lookup(nodes[..k], lower) == if lower in table then Some(table[lower]) else None
    {
      assert nodes[..k + 1][..k] == nodes[..k];
      table := table[Lower(nodes[k].entry.path) := nodes[k].entry];
    }
    assert nodes[..|nodes|] == nodes;
  }

  /** The report of a target that names nothing of the kind. */
  ghost predicate IsUnnamed(nodes: seq<Node>, node: Node, kind: Kind, k: nat, issue: Issue)
    requires k < |node.targets|
  {
    && Named(nodes, node.targets[k], Base(node.entry, nodes), kind).None?
    && issue == Unnamed(node.entry.path, node.targets[k])
  }

  ghost predicate SomeUnnamed(nodes: seq<Node>, node: Node, kind: Kind, count: nat, issue: Issue)
    requires count <= |node.targets|
  {
    exists k :: 0 <= k < count && IsUnnamed(nodes, node, kind, k, issue)
  }

  lemma UnnamedStep(nodes: seq<Node>, node: Node, kind: Kind, k: nat, issue: Issue)
    requires k < |node.targets|
    ensures SomeUnnamed(nodes, node, kind, k + 1, issue) <==>
            SomeUnnamed(nodes, node, kind, k, issue) || IsUnnamed(nodes, node, kind, k, issue)
  {
    hide IsUnnamed;
  }

  /** The inner loop of `validate`: rewrite one entry's targets. */
  method RewriteTargets(nodes: seq<Node>, table: map<string, Entry>, node: Node, kind: Kind)
    returns (targets: seq<string>, issues: seq<Issue>)
    requires forall lower :: Lookup(nodes, lower) == if lower in table then Some(table[lower]) else None
    ensures targets == RewrittenAll(nodes, node.targets, Base(node.entry, nodes), kind)
    ensures issues == [] <==>
            forall k :: 0 <= k < |node.targets| ==> Named(nodes, node.targets[k], Base(node.entry, nodes), kind).Some?
    ensures forall issue :: issue in issues <==>
              SomeUnnamed(nodes, node, kind, |node.targets|, issue)
  {
    hide Resolved, Lower, Base, Lookup, SomeUnnamed;
    NoneUnnamed(nodes, node, kind);
    var folder := Base(node.entry, nodes);
    targets, issues := [], [];
    for k := 0 to |node.targets|
      invariant |targets| == k && forall j :: 0 <= j < k ==>
                  targets[j] == Rewritten(nodes, node.targets[j], folder, kind)
      invariant issues == [] <==> forall j :: 0 <= j < k ==> Named(nodes, node.targets[j], folder, kind).Some?
      invariant forall issue :: issue in issues <==>
                  SomeUnnamed(nodes, node, kind, k, issue)
    {
      forall issue
        ensures SomeUnnamed(nodes, node, kind, k + 1, issue) <==>
                SomeUnnamed(nodes, node, kind, k, issue) || IsUnnamed(nodes, node, kind, k, issue)
      {
        UnnamedStep(nodes, node, kind, k, issue);
      }
      var path := Resolve(node.targets[k], folder);
      if path.Some? && Lower(path.value) in table && table[Lower(path.value)].kind == kind {
        targets := targets + [table[Lower(path.value)].path];
        assert forall issue :: !IsUnnamed(nodes, node, kind, k, issue);
      } else {
        targets := targets + [node.targets[k]];
        var issue := Unnamed(node.entry.path, node.targets[k]);
        assert forall other :: IsUnnamed(nodes, node, kind, k, other) <==> other == issue;
        PushHolds(issues, issue);
        issues := issues + [issue];
      }
    }
  }

  lemma PushHolds(issues: seq<Issue>, issue: Issue)
    ensures forall other :: other in issues + [issue] <==> other in issues || other == issue
  {
  }

  lemma NoneUnnamed(nodes: seq<Node>, node: Node, kind: Kind)
    ensures forall issue :: !SomeUnnamed(nodes, node, kind, 0, issue)
  {
  }

  method MembersTable(nodes: seq<Node>, kind: Kind) returns (table: map<string, set<string>>)
    ensures table == Members(nodes, kind)
  {
    table := map[];
    for k := 0 to |nodes|
      invariant table == Members(nodes[..k], kind)
    {
      assert nodes[..k + 1][..k] == nodes[..k];
      if nodes[k].entry.kind == kind {
        table := table[nodes[k].entry.path := Elements(nodes[k].targets)];
      }
    }
    assert nodes[..|nodes|] == nodes;
  }

  /** One side lists a valid entry of the other that does not list it back. */
  ghost predicate Missing(ours: map<string, set<string>>, theirs: map<string, set<string>>, invalid: set<string>,
                          a: string, b: string)
  {
    a in ours && b in ours[a] && a !in invalid && b !in invalid && b in theirs && a !in theirs[b]
  }

  ghost predicate IsUnanswered(ours: map<string, set<string>>, theirs: map<string, set<string>>, invalid: set<string>,
                               issue: Issue)
  {
    issue.Unanswered? && Missing(ours, theirs, invalid, issue.path, issue.target)
  }

  /** One of the two reciprocity loops: it reports exactly the pairs that are missing. */
  method Unlisted(ours: map<string, set<string>>, theirs: map<string, set<string>>, invalid: set<string>)
    returns (issues: seq<Issue>)
    ensures forall issue :: issue in issues <==> IsUnanswered(ours, theirs, invalid, issue)
  {
    issues := [];
    var paths := ours.Keys;
    while paths != {}
      invariant paths <= ours.Keys
      invariant forall issue :: issue in issues <==>
                  IsUnanswered(ours, theirs, invalid, issue) && issue.path !in paths
      decreases |paths|
    {
      var a :| a in paths;
      var targets := ours[a];
      while targets != {}
        invariant targets <= ours[a]
        invariant forall issue :: issue in issues <==>
                    && IsUnanswered(ours, theirs, invalid, issue)
                    && (issue.path !in paths || (issue.path == a && issue.target !in targets))
        decreases |targets|
      {
        var b :| b in targets;
        targets := targets - {b};
        if a !in invalid && b !in invalid && b in theirs && a !in theirs[b] {
          PushHolds(issues, Unanswered(a, b));
          issues := issues + [Unanswered(a, b)];
        }
      }
      paths := paths - {a};
    }
  }

  /** A report about one of the first entries' targets. */
  ghost predicate Reports(nodes: seq<Node>, failed: set<string>, count: nat, issue: Issue)
    requires count <= |nodes|
  {
    exists i :: 0 <= i < count && NodeReports(nodes, failed, i, issue)
  }

  ghost predicate NodeReports(nodes: seq<Node>, failed: set<string>, i: nat, issue: Issue)
    requires i < |nodes|
  {
    && Checked(nodes[i], failed)
    && SomeUnnamed(nodes, nodes[i], Wanted(nodes[i].entry.kind).value, |nodes[i].targets|, issue)
  }

  lemma ReportsStep(nodes: seq<Node>, failed: set<string>, k: nat)
    requires k < |nodes|
    ensures forall issue :: Reports(nodes, failed, k + 1, issue) <==>
              Reports(nodes, failed, k, issue) || NodeReports(nodes, failed, k, issue)
  {
    hide NodeReports;
  }

  ghost predicate NodeFaulty(nodes: seq<Node>, failed: set<string>, i: nat, path: string)
    requires i < |nodes|
  {
    path == nodes[i].entry.path && !AllNamed(nodes, nodes[i], failed)
  }

  /** The paths of entries with a target that names nothing. */
  ghost predicate Faulty(nodes: seq<Node>, failed: set<string>, count: nat, path: string)
    requires count <= |nodes|
  {
    exists i :: 0 <= i < count && NodeFaulty(nodes, failed, i, path)
  }

  lemma NothingReported(nodes: seq<Node>, failed: set<string>)
    ensures forall issue :: !Reports(nodes, failed, 0, issue)
    ensures forall path :: !Faulty(nodes, failed, 0, path)
  {
  }

  lemma FaultyStep(nodes: seq<Node>, failed: set<string>, k: nat)
    requires k < |nodes|
    ensures forall path :: Faulty(nodes, failed, k + 1, path) <==>
              Faulty(nodes, failed, k, path) || NodeFaulty(nodes, failed, k, path)
  {
    hide NodeFaulty;
  }

  /** `validate`: rewrites every target in place, then compares both sides among the entries without a fault. */
  method Validate(nodes: seq<Node>, failed: set<string>)
    returns (out: seq<Node>, issues: seq<Issue>, ghost invalid: set<string>)
    ensures out == RewrittenNodes(nodes, failed)
    ensures forall path :: path in invalid <==> path in failed || Faulty(nodes, failed, |nodes|, path)
    ensures forall issue :: issue in issues <==>
              || Reports(nodes, failed, |nodes|, issue)
              || IsUnanswered(Members(out, Screen), Members(out, UseCase), invalid, issue)
              || IsUnanswered(Members(out, UseCase), Members(out, Screen), invalid, issue)
    ensures issues == [] <==> EveryTargetNamed(nodes, failed) && Reciprocal(out, failed)
  {
    hide Reciprocal, Members, Base, Named, Rewritten, Lookup, RewrittenAll, Reports, Faulty, AllNamed, IsUnanswered,
      SomeUnnamed;
    var table := LookupTable(nodes);
    var bad := failed;
    out, issues := [], [];
    NothingReported(nodes, failed);
    for k := 0 to |nodes|
      invariant |out| == k && forall i :: 0 <= i < k ==> out[i] == RewrittenNode(nodes, nodes[i], failed)
      invariant forall issue :: issue in issues <==> Reports(nodes, failed, k, issue)
      invariant forall path :: path in bad <==> path in failed || Faulty(nodes, failed, k, path)
    {
      ReportsStep(nodes, failed, k);
      FaultyStep(nodes, failed, k);
      NodeIsNamed(nodes, nodes[k], failed);
      var node := nodes[k];
      if Checked(node, failed) {
        var targets, more := RewriteTargets(nodes, table, node, Wanted(node.entry.kind).value);
        if more != [] {
          assert more[0] in more;
          bad := bad + {node.entry.path};
        }
        assert forall issue :: issue in more <==> NodeReports(nodes, failed, k, issue);
        JoinHolds(issues, more);
        issues := issues + more;
        node := node.(targets := targets);
      }
      out := out + [node];
    }
    var memberships := MembersTable(out, Screen);
    var flows := MembersTable(out, UseCase);
    var unnamed := Unlisted(memberships, flows, bad);
    var unlisted := Unlisted(flows, memberships, bad);
    JoinHolds(issues, unnamed);
    JoinHolds(issues + unnamed, unlisted);
    issues := issues + unnamed + unlisted;
    invalid := bad;
    SilentIff(nodes, failed, out, bad, issues);
  }

  lemma JoinHolds(a: seq<Issue>, b: seq<Issue>)
    ensures forall issue :: issue in a + b <==> issue in a || issue in b
  {
  }

  /** An entry's targets are all named exactly when none of them is reported. */
  lemma NodeIsNamed(nodes: seq<Node>, node: Node, failed: set<string>)
    ensures !Checked(node, failed) ==> AllNamed(nodes, node, failed)
    ensures Checked(node, failed) ==>
              (AllNamed(nodes, node, failed) <==>
               forall issue :: !SomeUnnamed(nodes, node, Wanted(node.entry.kind).value, |node.targets|, issue))
  {
    hide Named, Base;
    if Checked(node, failed) {
      var kind := Wanted(node.entry.kind).value;
      if k :| 0 <= k < |node.targets| && Named(nodes, node.targets[k], Base(node.entry, nodes), kind).None? {
        assert IsUnnamed(nodes, node, kind, k, Unnamed(node.entry.path, node.targets[k]));
        assert SomeUnnamed(nodes, node, kind, |node.targets|, Unnamed(node.entry.path, node.targets[k]));
      }
    }
  }

  /** Nothing is reported exactly when every target is named and both sides list each other. */
  lemma SilentIff(nodes: seq<Node>, failed: set<string>, out: seq<Node>, invalid: set<string>, issues: seq<Issue>)
    requires forall path :: path in invalid <==> path in failed || Faulty(nodes, failed, |nodes|, path)
    requires forall issue :: issue in issues <==>
               || Reports(nodes, failed, |nodes|, issue)
               || IsUnanswered(Members(out, Screen), Members(out, UseCase), invalid, issue)
               || IsUnanswered(Members(out, UseCase), Members(out, Screen), invalid, issue)
    ensures issues == [] <==> EveryTargetNamed(nodes, failed) && Reciprocal(out, failed)
  {
    hide Members, AllNamed, SomeUnnamed;
    assert issues != [] ==> issues[0] in issues;
    if EveryTargetNamed(nodes, failed) {
      assert invalid == failed;
      forall issue
        ensures !Reports(nodes, failed, |nodes|, issue)
      {
        forall i | 0 <= i < |nodes|
          ensures !NodeReports(nodes, failed, i, issue)
        {
          NodeIsNamed(nodes, nodes[i], failed);
        }
      }
      if !ListedBack(Members(out, Screen), Members(out, UseCase), failed) {
        var issue := NotListed(Members(out, Screen), Members(out, UseCase), failed);
      }
      if !ListedBack(Members(out, UseCase), Members(out, Screen), failed) {
        var issue := NotListed(Members(out, UseCase), Members(out, Screen), failed);
      }
    } else {
      var i :| 0 <= i < |nodes| && !AllNamed(nodes, nodes[i], failed);
      NodeIsNamed(nodes, nodes[i], failed);
      var issue :| SomeUnnamed(nodes, nodes[i], Wanted(nodes[i].entry.kind).value, |nodes[i].targets|, issue);
      assert NodeReports(nodes, failed, i, issue);
      assert issue in issues;
    }
  }

  lemma NotListed(ours: map<string, set<string>>, theirs: map<string, set<string>>, invalid: set<string>)
    returns (issue: Issue)
    requires !ListedBack(ours, theirs, invalid)
    ensures IsUnanswered(ours, theirs, invalid, issue)
  {
    var a, b :| a in ours && b in ours[a] && a !in invalid && b !in invalid && b in theirs && a !in theirs[b];
    issue := Unanswered(a, b);
  }

  // ----- which targets are rewritten, and to what -----

  /** Screens list flows, and flows list screens. */
  ghost predicate Linked(kind: Kind, other: Kind) {
    (kind.Screen? && other.UseCase?) || (kind.UseCase? && other.Screen?)
  }

  /** The entry at `j` is of the other kind, and the last one with the path that a target leads to, letter case
      aside. */
  ghost predicate Points(nodes: seq<Node>, node: Node, target: string, j: int) {
    var path := Resolved(target, Base(node.entry, nodes));
    && path.Some? && 0 <= j < |nodes| && Lower(nodes[j].entry.path) == Lower(path.value)
    && (forall later :: j < later < |nodes| ==> Lower(nodes[later].entry.path) != Lower(path.value))
    && Linked(node.entry.kind, nodes[j].entry.kind)
  }

  lemma {:induction false} LookupLast(nodes: seq<Node>, lower: string, j: nat)
    requires j < |nodes| && Lower(nodes[j].entry.path) == lower
    requires forall later :: j < later < |nodes| ==> Lower(nodes[later].entry.path) != lower
    ensures Lookup(nodes, lower) == Some(nodes[j].entry)
    decreases |nodes|
  {
    hide Lower;
    if j < |nodes| - 1 { LookupLast(nodes[..|nodes| - 1], lower, j); }
  }

  lemma {:induction false} LookupHas(nodes: seq<Node>, lower: string) returns (j: nat)
    requires Lookup(nodes, lower).Some?
    ensures j < |nodes| && nodes[j].entry == Lookup(nodes, lower).value && Lower(nodes[j].entry.path) == lower
    ensures forall later :: j < later < |nodes| ==> Lower(nodes[later].entry.path) != lower
    decreases |nodes|
  {
    hide Lower;
    j := |nodes| - 1;
    if Lower(nodes[j].entry.path) != lower { j := LookupHas(nodes[..j], lower); }
  }

  lemma PointsIsNamed(nodes: seq<Node>, node: Node, target: string, j: int)
    requires Points(nodes, node, target, j)
    ensures Wanted(node.entry.kind).Some?
    ensures Named(nodes, target, Base(node.entry, nodes), Wanted(node.entry.kind).value) == Some(nodes[j].entry)
  {
    hide Resolved, Base, Lower;
    LookupLast(nodes, Lower(Resolved(target, Base(node.entry, nodes)).value), j);
  }

  lemma NamedPoints(nodes: seq<Node>, node: Node, target: string) returns (j: nat)
    requires Wanted(node.entry.kind).Some?
    requires Named(nodes, target, Base(node.entry, nodes), Wanted(node.entry.kind).value).Some?
    ensures Points(nodes, node, target, j)
  {
    hide Resolved, Base, Lower, Lookup;
    j := LookupHas(nodes, Lower(Resolved(target, Base(node.entry, nodes)).value));
  }

  /** What a target becomes: the path of the entry that it points at, unless it points at nothing or its own entry
      failed before. */
  ghost predicate Becomes(nodes: seq<Node>, failed: set<string>, node: Node, target: string, after: string) {
    || (node.entry.path !in failed && exists j :: Points(nodes, node, target, j) && after == nodes[j].entry.path)
    || ((node.entry.path in failed || forall j :: !Points(nodes, node, target, j)) && after == target)
  }

  lemma TargetBecomes(nodes: seq<Node>, failed: set<string>, node: Node, k: nat)
    requires k < |node.targets|
    ensures Becomes(nodes, failed, node, node.targets[k], RewrittenNode(nodes, node, failed).targets[k])
  {
    hide Named, Points, Base;
    var target := node.targets[k];
    if j :| Points(nodes, node, target, j) {
      PointsIsNamed(nodes, node, target, j);
    } else if Wanted(node.entry.kind).Some? &&
              Named(nodes, target, Base(node.entry, nodes), Wanted(node.entry.kind).value).Some? {
      var j := NamedPoints(nodes, node, target);
    }
  }

  /** The rewrite changes targets only, each as that says. */
  lemma TargetsBecome(nodes: seq<Node>, failed: set<string>)
    ensures
      var out := RewrittenNodes(nodes, failed);
      && |out| == |nodes|
      && (forall i :: 0 <= i < |nodes| ==> out[i].entry == nodes[i].entry && |out[i].targets| == |nodes[i].targets|)
      && forall i, k :: 0 <= i < |nodes| && 0 <= k < |nodes[i].targets| ==>
           Becomes(nodes, failed, nodes[i], nodes[i].targets[k], out[i].targets[k])
  {
    hide Named, Becomes, Base;
    forall i, k | 0 <= i < |nodes| && 0 <= k < |nodes[i].targets|
      ensures Becomes(nodes, failed, nodes[i], nodes[i].targets[k],
                      RewrittenNode(nodes, nodes[i], failed).targets[k])
    {
      TargetBecomes(nodes, failed, nodes[i], k);
    }
  }

  /** A target of a screen or a flow that did not fail before, and that points at nothing. */
  ghost predicate Dangling(nodes: seq<Node>, failed: set<string>, i: int, k: int) {
    && 0 <= i < |nodes| && 0 <= k < |nodes[i].targets| && nodes[i].entry.path !in failed
    && (nodes[i].entry.kind.Screen? || nodes[i].entry.kind.UseCase?)
    && forall j :: !Points(nodes, nodes[i], nodes[i].targets[k], j)
  }

  /** Exactly those targets are reported. */
  lemma ReportedAreDangling(nodes: seq<Node>, failed: set<string>, issue: Issue)
    ensures Reports(nodes, failed, |nodes|, issue) <==>
            exists i, k :: Dangling(nodes, failed, i, k) && issue == Unnamed(nodes[i].entry.path, nodes[i].targets[k])
  {
    hide Named, Points, Base;
    if Reports(nodes, failed, |nodes|, issue) {
      var i :| 0 <= i < |nodes| && NodeReports(nodes, failed, i, issue);
      var kind := Wanted(nodes[i].entry.kind).value;
      var k :| 0 <= k < |nodes[i].targets| && IsUnnamed(nodes, nodes[i], kind, k, issue);
      forall j
        ensures !Points(nodes, nodes[i], nodes[i].targets[k], j)
      {
        if Points(nodes, nodes[i], nodes[i].targets[k], j) {
          PointsIsNamed(nodes, nodes[i], nodes[i].targets[k], j);
        }
      }
      assert Dangling(nodes, failed, i, k);
    }
    if i, k :| Dangling(nodes, failed, i, k) && issue == Unnamed(nodes[i].entry.path, nodes[i].targets[k]) {
      var kind := Wanted(nodes[i].entry.kind).value;
      if Named(nodes, nodes[i].targets[k], Base(nodes[i].entry, nodes), kind).Some? {
        var j := NamedPoints(nodes, nodes[i], nodes[i].targets[k]);
      }
      assert IsUnnamed(nodes, nodes[i], kind, k, issue);
      assert SomeUnnamed(nodes, nodes[i], kind, |nodes[i].targets|, issue);
      assert NodeReports(nodes, failed, i, issue);
    }
  }

  // ----- what a run without issues leaves -----

  ghost predicate UniquePaths(nodes: seq<Node>) {
    forall i, j :: 0 <= i < j < |nodes| ==> Lower(nodes[i].entry.path) != Lower(nodes[j].entry.path)
  }

  lemma {:induction false} LookupUnique(nodes: seq<Node>, i: nat)
    requires UniquePaths(nodes) && i < |nodes|
    ensures Lookup(nodes, Lower(nodes[i].entry.path)) == Some(nodes[i].entry)
    decreases |nodes|
  {
  }

  lemma {:induction false} MembersUnique(nodes: seq<Node>, kind: Kind)
    requires UniquePaths(nodes)
    ensures forall i :: 0 <= i < |nodes| && nodes[i].entry.kind == kind ==>
              nodes[i].entry.path in Members(nodes, kind) &&
              Members(nodes, kind)[nodes[i].entry.path] == Elements(nodes[i].targets)
  {
    hide Lower, Elements;
    if |nodes| > 0 {
      var last := nodes[|nodes| - 1];
      MembersUnique(nodes[..|nodes| - 1], kind);
      forall i | 0 <= i < |nodes| - 1
        ensures nodes[i].entry.path != last.entry.path
      {
        assert Lower(nodes[i].entry.path) != Lower(last.entry.path);
      }
      assert forall i :: 0 <= i < |nodes| - 1 ==> nodes[..|nodes| - 1][i] == nodes[i];
    }
  }

  /** A target is the exact path of an entry of the wanted kind. */
  ghost predicate Exact(nodes: seq<Node>, target: string, kind: Kind) {
    IsEntryPath(target) && exists j :: HasPath(nodes, j, target) && nodes[j].entry.kind == kind
  }

  ghost predicate AllExact(nodes: seq<Node>) {
    forall i, k :: 0 <= i < |nodes| && Wanted(nodes[i].entry.kind).Some? && 0 <= k < |nodes[i].targets| ==>
      Exact(nodes, nodes[i].targets[k], Wanted(nodes[i].entry.kind).value)
  }

  lemma RewrittenExact(nodes: seq<Node>, target: string, folder: string, kind: Kind)
    requires Named(nodes, target, folder, kind).Some?
    ensures Exact(RewrittenNodes(nodes, {}), Rewritten(nodes, target, folder, kind), kind)
  {
    hide IsEntryPath, Lower, RewrittenNode;
    var (resolved, entry) := (Resolved(target, folder).value, Named(nodes, target, folder, kind).value);
    ResolvedIsEntryPath(target, folder);
    EntryPathCase(resolved, entry.path);
    var j :| 0 <= j < |nodes| && nodes[j].entry == entry;
    SameEntries(nodes, {}, j);
    assert HasPath(RewrittenNodes(nodes, {}), j, entry.path);
  }

  lemma ResolvedIsEntryPath(target: string, folder: string)
    ensures Resolved(target, folder).Some? ==> IsEntryPath(Resolved(target, folder).value)
  {
  }

  lemma SameEntries(nodes: seq<Node>, failed: set<string>, j: nat)
    requires j < |nodes|
    ensures RewrittenNodes(nodes, failed)[j].entry == nodes[j].entry
  {
  }

  lemma RewriteIsExact(nodes: seq<Node>)
    requires EveryTargetNamed(nodes, {})
    ensures AllExact(RewrittenNodes(nodes, {}))
  {
    hide Named, Rewritten, Base, Exact;
    var out := RewrittenNodes(nodes, {});
    forall i, k | 0 <= i < |out| && Wanted(out[i].entry.kind).Some? && 0 <= k < |out[i].targets|
      ensures Exact(out, out[i].targets[k], Wanted(out[i].entry.kind).value)
    {
      SameEntries(nodes, {}, i);
      assert AllNamed(nodes, nodes[i], {});
      RewrittenExact(nodes, nodes[i].targets[k], Base(nodes[i].entry, nodes), Wanted(nodes[i].entry.kind).value);
    }
  }

  /** An exact target names its entry, from any folder, and stays as it is. */
  lemma ExactStays(nodes: seq<Node>, target: string, folder: string, kind: Kind)
    requires UniquePaths(nodes) && Exact(nodes, target, kind)
    ensures Named(nodes, target, folder, kind).Some? && Rewritten(nodes, target, folder, kind) == target
  {
    hide IsEntryPath, Lower, Resolved;
    var j :| HasPath(nodes, j, target) && nodes[j].entry.kind == kind;
    EntryPathResolves(target, folder);
    LookupUnique(nodes, j);
  }

  lemma RunAgain(nodes: seq<Node>)
    requires UniquePaths(nodes) && AllExact(nodes)
    ensures EveryTargetNamed(nodes, {}) && RewrittenNodes(nodes, {}) == nodes
  {
    hide Named, Rewritten, Base, Exact, UniquePaths;
    var out := RewrittenNodes(nodes, {});
    forall i | 0 <= i < |nodes|
      ensures AllNamed(nodes, nodes[i], {}) && out[i] == nodes[i]
    {
      if Wanted(nodes[i].entry.kind).Some? {
        var kind := Wanted(nodes[i].entry.kind).value;
        forall k | 0 <= k < |nodes[i].targets|
          ensures Named(nodes, nodes[i].targets[k], Base(nodes[i].entry, nodes), kind).Some?
          ensures Rewritten(nodes, nodes[i].targets[k], Base(nodes[i].entry, nodes), kind) == nodes[i].targets[k]
        {
          ExactStays(nodes, nodes[i].targets[k], Base(nodes[i].entry, nodes), kind);
        }
        assert RewrittenAll(nodes, nodes[i].targets, Base(nodes[i].entry, nodes), kind) == nodes[i].targets;
      }
    }
  }

  /** A screen lists a flow exactly when the flow steps through the screen. */
  lemma BothWays(nodes: seq<Node>, s: nat, f: nat)
    requires UniquePaths(nodes) && Reciprocal(nodes, {})
    requires s < |nodes| && f < |nodes| && nodes[s].entry.kind.Screen? && nodes[f].entry.kind.UseCase?
    ensures nodes[f].entry.path in nodes[s].targets <==> nodes[s].entry.path in nodes[f].targets
  {
    hide Members, UniquePaths;
    MembersUnique(nodes, Screen);
    MembersUnique(nodes, UseCase);
  }

  /** With unique paths and nothing failed before, a run without issues leaves exact, reciprocal targets,
      and another run changes nothing and reports nothing. */
  lemma CleanRelationships(nodes: seq<Node>)
    requires UniquePaths(nodes) && EveryTargetNamed(nodes, {}) && Reciprocal(RewrittenNodes(nodes, {}), {})
    ensures
      var out := RewrittenNodes(nodes, {});
      && AllExact(out)
      && (forall s, f :: 0 <= s < |out| && 0 <= f < |out| && out[s].entry.kind.Screen? && out[f].entry.kind.UseCase? ==>
            (out[f].entry.path in out[s].targets <==> out[s].entry.path in out[f].targets))
      && RewrittenNodes(out, {}) == out && EveryTargetNamed(out, {}) && Reciprocal(RewrittenNodes(out, {}), {})
  {
    hide RewrittenNode, EveryTargetNamed, Reciprocal, AllExact, Lower;
    var out := RewrittenNodes(nodes, {});
    RewriteIsExact(nodes);
    forall i | 0 <= i < |nodes|
      ensures out[i].entry == nodes[i].entry
    {
      SameEntries(nodes, {}, i);
    }
    assert UniquePaths(out);
    RunAgain(out);
    forall s, f | 0 <= s < |out| && 0 <= f < |out| && out[s].entry.kind.Screen? && out[f].entry.kind.UseCase?
      ensures out[f].entry.path in out[s].targets <==> out[s].entry.path in out[f].targets
    {
      BothWays(out, s, f);
    }
  }
}

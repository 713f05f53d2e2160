// The directory walk of one root (discovery_walk.rs, discovery.rs): a work stack with a
// truncated list of inherited exclusions, against the recursive pre-order traversal.

module DiscoveryWalk {
  import opened Common
  import opened Sorting

  /** Path components; absolute, or relative to the root's directory where said so. */
  type Path = seq<string>

  /** A compiled pattern set. */
  type Globs = nat

  // ----- the source tree -----

  datatype Listing = Vanished | Unreadable | Listed(children: seq<Child>)

  datatype Child = Child(name: string, node: Node)

  /** What a directory's listing says an entry is; links and devices are neither files nor directories. */
  datatype Node = File | Other | Directory(listing: Listing)

  /** What a path projects to: its physical identity, and whether path and target are plain files. */
  datatype Projection = Missing | Broken | Found(isFile: bool, identity: Path)

  /** A folder record: gone when read, refused, or parsed with its exclusions. */
  datatype Record = Gone | Refused | Parsed(exclude: Globs)

  /** One root, and the tree's answers, which stay the same during a pass. */
  datatype Env = Env(directory: Path, identity: Path, index: nat, files: Globs, output: Option<Path>, repoRoot: Path,
                     matches: (Globs, Path) -> bool, project: Path -> Projection, record: Path -> Record)

  const FOLDER_RECORD := "_folder.json"

  predicate DeniedDirectory(name: string) {
    name in {".git", "node_modules", "dist", "coverage", "target", "test-results", "playwright-report", ".context"}
  }

  function NameKey(child: Child): seq<nat> { Units(child.name) }

  // ----- sizes -----

  function Weight(listing: Listing): nat {
    2 + if listing.Listed? then WeightAll(listing.children) else 0
  }

  function WeightAll(children: seq<Child>): nat {
    if |children| == 0 then 0 else ChildWeight(children[0]) + WeightAll(children[1..])
  }

  function ChildWeight(child: Child): nat {
    1 + if child.node.Directory? then Weight(child.node.listing) else 0
  }

  lemma {:induction false} WeightSum(a: seq<Child>, b: seq<Child>)
    ensures WeightAll(a + b) == WeightAll(a) + WeightAll(b)
  {
    if |a| == 0 {
      assert a + b == b;
    } else {
      WeightSum(a[1..], b);
      assert (a + b)[1..] == a[1..] + b;
    }
  }

  lemma WeightPush(s: seq<Child>, e: Child)
    ensures WeightAll(s + [e]) == WeightAll(s) + ChildWeight(e)
  {
    WeightSum(s, [e]);
    assert [e][1..] == [];
  }

  lemma {:induction false} InsertWeight(s: seq<Child>, e: Child)
    ensures WeightAll(Insert(s, e, NameKey)) == WeightAll(s) + ChildWeight(e)
    decreases |s|
  {
    hide WeightAll, Less, ChildWeight;
    WeightPush(s, e);
    if |s| > 0 {
      var (init, last) := (s[..|s| - 1], s[|s| - 1]);
      assert s == init + [last];
      WeightPush(init, last);
      InsertWeight(init, e);
      WeightPush(Insert(init, e, NameKey), last);
    }
  }

  lemma {:induction false} SortedWeight(s: seq<Child>)
    ensures WeightAll(Sorted(s, NameKey)) == WeightAll(s)
  {
    hide WeightAll, ChildWeight, Insert;
    if |s| > 0 {
      var (init, last) := (s[..|s| - 1], s[|s| - 1]);
      assert s == init + [last];
      SortedWeight(init);
      WeightPush(init, last);
      InsertWeight(Sorted(init, NameKey), last);
    } else {
      assert Sorted(s, NameKey) == s;
    }
  }

  // ----- what the walk collects -----

  datatype SourceFile = SourceFile(path: Path, identity: Path, root: nat, excluded: bool)

  datatype State = State(files: seq<SourceFile>, owners: map<Path, (Path, nat)>, candidates: map<Path, Projection>,
                         notSearched: seq<Path>, folders: seq<Path>)

  datatype Failure =
    | CannotRead(path: Path)
    | OutsideRepository(path: Path)
    | TwiceOwned(path: Path, first: Path, root: nat)
    | BadFolder(path: Path)
    | NoFile(root: nat)

  datatype Result<T> = Done(value: T) | Failed(why: Failure)

  /** Inherited exclusions: directories relative to the root, with their records' patterns. */
  type Exclusions = seq<(Path, Globs)>

  function Skip(s: State, path: Path): State {
    s.(notSearched := s.notSearched + [path])
  }

  function Answer(env: Env, s: State, path: Path): Projection {
    if path in s.candidates then s.candidates[path] else env.project(path)
  }

  /** `project_file`: the identity of a plain file that nobody owns yet. */
  function Claim(env: Env, s: State, path: Path): Result<(State, Option<Path>)> {
    var node := Answer(env, s, path);
    if node.Broken? then Failed(CannotRead(path))
    else
      var seen := s.(candidates := s.candidates[path := node]);
      if node.Missing? || !node.isFile then Done((Skip(seen, path), None))
      else if !(env.repoRoot <= node.identity) then Failed(OutsideRepository(path))
      else if node.identity in s.owners
      then Failed(TwiceOwned(path, s.owners[node.identity].0, s.owners[node.identity].1))
      else Done((seen.(owners := s.owners[node.identity := (path, env.index)]), Some(node.identity)))
  }

  function From(rel: Path, directory: Path): Path {
    if |directory| <= |rel| then rel[|directory|..] else rel
  }

  predicate Excluded(env: Env, exclusions: Exclusions, rel: Path) {
    exists i :: 0 <= i < |exclusions| && env.matches(exclusions[i].1, From(rel, exclusions[i].0))
  }

  /** `file`. */
  function AddFile(env: Env, s: State, rel: Path, exclusions: Exclusions): Result<State> {
    var path := env.directory + rel;
    match Claim(env, s, path)
    case Failed(why) => Failed(why)
    case Done((claimed, identity)) =>
      if identity.None? then Done(claimed)
      else Done(claimed.(files := claimed.files +
                         [SourceFile(path, identity.value, env.index, Excluded(env, exclusions, rel))]))
  }

  /** `folder`: a parsed record adds its directory's exclusions. */
  function AddFolder(env: Env, s: State, rel: Path, exclusions: Exclusions): Result<(State, Exclusions)> {
    var path := env.directory + rel + [FOLDER_RECORD];
    match Claim(env, s, path)
    case Failed(why) => Failed(why)
    case Done((claimed, identity)) =>
      if identity.None? then Done((claimed, exclusions))
      else
        match env.record(path)
        case Gone => Done((claimed, exclusions))
        case Refused => Failed(BadFolder(path))
        case Parsed(exclude) => Done((claimed.(folders := claimed.folders + [rel]), exclusions + [(rel, exclude)]))
  }

  predicate HasRecord(children: seq<Child>) {
    exists i :: 0 <= i < |children| && children[i].name == FOLDER_RECORD && children[i].node.File?
  }

  /** Directories that the walk does not enter. */
  predicate Pruned(env: Env, rel: Path, name: string) {
    DeniedDirectory(name) || env.output == Some(env.directory + rel) || env.output == Some(env.identity + rel)
  }

  // ----- the recursive traversal -----

  function VisitDirectory(env: Env, rel: Path, listing: Listing, exclusions: Exclusions, s: State): Result<State>
    decreases Weight(listing), 1
  {
    match listing
    case Vanished => Done(Skip(s, env.directory + rel))
    case Unreadable => Failed(CannotRead(env.directory + rel))
    case Listed(children) =>
      SortedWeight(children);
      var entered := if HasRecord(children) then AddFolder(env, s, rel, exclusions) else Done((s, exclusions));
      match entered
      case Failed(why) => Failed(why)
      case Done((t, inner)) => VisitChildren(env, rel, Sorted(children, NameKey), inner, t)
  }

  function VisitChildren(env: Env, rel: Path, children: seq<Child>, exclusions: Exclusions, s: State): Result<State>
    decreases WeightAll(children), 1
  {
    if |children| == 0 then Done(s)
    else
      match VisitChild(env, rel + [children[0].name], children[0], exclusions, s)
      case Failed(why) => Failed(why)
      case Done(t) => VisitChildren(env, rel, children[1..], exclusions, t)
  }

  function VisitChild(env: Env, rel: Path, child: Child, exclusions: Exclusions, s: State): Result<State>
    decreases ChildWeight(child), 0
  {
    match child.node
    case File =>
      if child.name != FOLDER_RECORD && env.matches(env.files, rel) then AddFile(env, s, rel, exclusions) else Done(s)
    case Other => Done(s)
    case Directory(listing) =>
      if Pruned(env, rel, child.name) then Done(Skip(s, env.directory + rel))
      else VisitDirectory(env, rel, listing, exclusions, s)
  }

  // ----- the work stack -----

  datatype Work = Enter(rel: Path, listing: Listing) | Visit(rel: Path, child: Child) | Leave(length: nat)

  function WorkWeight(work: Work): nat {
    match work
    case Enter(_, listing) => Weight(listing)
    case Visit(_, child) => ChildWeight(child)
    case Leave(_) => 1
  }

  function Pending(stack: seq<Work>): nat {
    if |stack| == 0 then 0 else Pending(stack[..|stack| - 1]) + WorkWeight(stack[|stack| - 1])
  }

  /** Children pushed last first, so that the first one is popped first. */
  function Visits(rel: Path, children: seq<Child>): (work: seq<Work>)
    ensures |work| == |children|
  {
    if |children| == 0 then [] else Visits(rel, children[1..]) + [Visit(rel + [children[0].name], children[0])]
  }

  function Truncated(exclusions: Exclusions, length: nat): Exclusions {
    if length <= |exclusions| then exclusions[..length] else exclusions
  }

  /** What is left to do, with each piece of work done as the recursive traversal does it. */
  ghost function Rest(env: Env, stack: seq<Work>, exclusions: Exclusions, s: State): Result<State>
    decreases |stack|, 0
  {
    if |stack| == 0 then Done(s) else Step(env, stack[..|stack| - 1], stack[|stack| - 1], exclusions, s)
  }

  ghost function Step(env: Env, stack: seq<Work>, top: Work, exclusions: Exclusions, s: State): Result<State>
    decreases |stack|, 2
  {
    match top
    case Leave(length) => Rest(env, stack, Truncated(exclusions, length), s)
    case Enter(rel, listing) => Then(env, stack, exclusions, VisitDirectory(env, rel, listing, exclusions, s))
    case Visit(rel, child) => Then(env, stack, exclusions, VisitChild(env, rel, child, exclusions, s))
  }

  ghost function Then(env: Env, stack: seq<Work>, exclusions: Exclusions, r: Result<State>): Result<State>
    decreases |stack|, 1
  {
    match r
    case Failed(why) => Failed(why)
    case Done(t) => Rest(env, stack, exclusions, t)
  }

  lemma RestPush(env: Env, stack: seq<Work>, top: Work, exclusions: Exclusions, s: State)
    ensures Rest(env, stack + [top], exclusions, s) == Step(env, stack, top, exclusions, s)
  {
    assert (stack + [top])[..|stack|] == stack;
  }

  /** Children on the stack are visited like the recursion visits them. */
  lemma {:induction false} RestVisits(env: Env, stack: seq<Work>, rel: Path, children: seq<Child>,
                                      exclusions: Exclusions, s: State)
    ensures Rest(env, stack + Visits(rel, children), exclusions, s) ==
            Then(env, stack, exclusions, VisitChildren(env, rel, children, exclusions, s))
    decreases |children|
  {
    hide Rest, VisitChild, VisitDirectory;
    if |children| == 0 {
      assert stack + [] == stack;
    } else {
      var first := Visit(rel + [children[0].name], children[0]);
      var rest := Visits(rel, children[1..]);
      assert stack + (rest + [first]) == stack + rest + [first];
      RestPush(env, stack + rest, first, exclusions, s);
      var r := VisitChild(env, first.rel, first.child, exclusions, s);
      if r.Done? { RestVisits(env, stack, rel, children[1..], exclusions, r.value); }
    }
  }

  lemma {:induction false} PendingSum(a: seq<Work>, b: seq<Work>)
    ensures Pending(a + b) == Pending(a) + Pending(b)
    decreases |b|
  {
    if |b| == 0 {
      assert a + b == a;
    } else {
      PendingSum(a, b[..|b| - 1]);
      assert (a + b)[..|a + b| - 1] == a + b[..|b| - 1];
    }
  }

  lemma PendingPush(stack: seq<Work>, top: Work)
    ensures Pending(stack + [top]) == Pending(stack) + WorkWeight(top)
  {
    assert (stack + [top])[..|stack|] == stack;
  }

  lemma {:induction false} PendingVisits(rel: Path, children: seq<Child>)
    ensures Pending(Visits(rel, children)) == WeightAll(children)
    decreases |children|
  {
    if |children| > 0 {
      PendingVisits(rel, children[1..]);
      PendingPush(Visits(rel, children[1..]), Visit(rel + [children[0].name], children[0]));
    }
  }

  /** Entering a listed directory: its children above a mark that restores the exclusions. */
  lemma EnterListed(env: Env, stack: seq<Work>, rel: Path, children: seq<Child>, exclusions: Exclusions,
                    inner: Exclusions, s: State)
    requires exclusions <= inner
    ensures
      var pending := stack + [Leave(|exclusions|)] + Visits(rel, Sorted(children, NameKey));
      && Rest(env, pending, inner, s) ==
         Then(env, stack, exclusions, VisitChildren(env, rel, Sorted(children, NameKey), inner, s))
      && Pending(pending) < Pending(stack) + Weight(Listed(children))
  {
    hide Rest, VisitChildren, Pending, WeightAll, Sorted;
    var sorted := Sorted(children, NameKey);
    var marked := stack + [Leave(|exclusions|)];
    RestVisits(env, marked, rel, sorted, inner, s);
    var r := VisitChildren(env, rel, sorted, inner, s);
    if r.Done? {
      RestPush(env, stack, Leave(|exclusions|), inner, r.value);
      assert Truncated(inner, |exclusions|) == exclusions;
    }
    SortedWeight(children);
    PendingVisits(rel, sorted);
    PendingPush(stack, Leave(|exclusions|));
    PendingSum(marked, Visits(rel, sorted));
  }

  /** The walk's fields. */
  class Walk {
    const env: Env
    var files: seq<SourceFile>
    var owners: map<Path, (Path, nat)>
    var candidates: map<Path, Projection>
    var notSearched: seq<Path>
    var folders: seq<Path>

    constructor (env: Env, s: State)
      ensures this.env == env && Value() == s
    {
      this.env := env;
      files, owners, candidates, notSearched, folders := s.files, s.owners, s.candidates, s.notSearched, s.folders;
    }

    function Value(): State
      reads this
    {
      State(files, owners, candidates, notSearched, folders)
    }

    method ProjectFile(path: Path) returns (r: Result<Option<Path>>)
      modifies this
      ensures
        match Claim(env, old(Value()), path)
        case Failed(why) => r == Failed(why)
        case Done((t, identity)) => r == Done(identity) && Value() == t
    {
      var node;
      if path in candidates {
        node := candidates[path];
      } else {
        node := env.project(path);
      }
      if node.Broken? { return Failed(CannotRead(path)); }
      candidates := candidates[path := node];
      if node.Missing? || !node.isFile {
        notSearched := notSearched + [path];
        return Done(None);
      }
      if !(env.repoRoot <= node.identity) { return Failed(OutsideRepository(path)); }
      if node.identity in owners {
        return Failed(TwiceOwned(path, owners[node.identity].0, owners[node.identity].1));
      }
      owners := owners[node.identity := (path, env.index)];
      r := Done(Some(node.identity));
    }

    method ReadFile(rel: Path, exclusions: Exclusions) returns (r: Result<()>)
      modifies this
      ensures
        match AddFile(env, old(Value()), rel, exclusions)
        case Failed(why) => r == Failed(why)
        case Done(t) => r.Done? && Value() == t
    {
      var identity := ProjectFile(env.directory + rel);
      if identity.Failed? { return Failed(identity.why); }
      if identity.value.Some? {
        files := files +
          [SourceFile(env.directory + rel, identity.value.value, env.index, Excluded(env, exclusions, rel))];
      }
      r := Done(());
    }

    method ReadFolder(rel: Path, exclusions: Exclusions) returns (r: Result<Exclusions>)
      modifies this
      ensures
        match AddFolder(env, old(Value()), rel, exclusions)
        case Failed(why) => r == Failed(why)
        case Done((t, inner)) => r == Done(inner) && Value() == t && exclusions <= inner
    {
      var path := env.directory + rel + [FOLDER_RECORD];
      var identity := ProjectFile(path);
      if identity.Failed? { return Failed(identity.why); }
      if identity.value.None? { return Done(exclusions); }
      match env.record(path)
      case Gone => r := Done(exclusions);
      case Refused => r := Failed(BadFolder(path));
      case Parsed(exclude) =>
        folders := folders + [rel];
        r := Done(exclusions + [(rel, exclude)]);
    }

    /** `directory`: the work loop does what the recursive traversal does. */
    method Directory(rel: Path, listing: Listing, inherited: Exclusions) returns (r: Result<()>)
      modifies this
      ensures
        match VisitDirectory(env, rel, listing, inherited, old(Value()))
        case Failed(why) => r == Failed(why)
        case Done(t) => r.Done? && Value() == t
    {
      hide Rest, VisitChildren, AddFile, AddFolder, Pending, Sorted, Visits, Pruned;
      var exclusions := inherited;
      var pending := [Enter(rel, listing)];
      ghost var goal := VisitDirectory(env, rel, listing, inherited, Value());
      RestOne(env, pending[0], exclusions, Value());
      while |pending| > 0
        invariant Rest(env, pending, exclusions, Value()) == goal
        decreases Pending(pending)
      {
        var (rest, work) := (pending[..|pending| - 1], pending[|pending| - 1]);
        assert pending == rest + [work];
        RestPush(env, rest, work, exclusions, Value());
        PendingPush(rest, work);
        pending := rest;
        match work
        case Leave(length) =>
          exclusions := if length <= |exclusions| then exclusions[..length] else exclusions;
        case Visit(path, Child(name, Directory(inner))) =>
          if Pruned(env, path, name) {
            notSearched := notSearched + [env.directory + path];
          } else {
            RestPush(env, rest, Enter(path, inner), exclusions, Value());
            PendingPush(rest, Enter(path, inner));
            pending := pending + [Enter(path, inner)];
          }
        case Visit(path, Child(name, File)) =>
          if name != FOLDER_RECORD && env.matches(env.files, path) {
            var added := ReadFile(path, exclusions);
            if added.Failed? { return Failed(added.why); }
          }
        case Visit(_, _) =>
        case Enter(path, Vanished) => notSearched := notSearched + [env.directory + path];
        case Enter(path, Unreadable) => return Failed(CannotRead(env.directory + path));
        case Enter(path, Listed(children)) =>
          ghost var outer := exclusions;
          var length := |exclusions|;
          if HasRecord(children) {
            var inner := ReadFolder(path, exclusions);
            if inner.Failed? { return Failed(inner.why); }
            exclusions := inner.value;
          }
          EnterListed(env, rest, path, children, outer, exclusions, Value());
          pending := pending + [Leave(length)] + Visits(path, Sorted(children, NameKey));
      }
      RestNone(env, exclusions, Value());
      r := Done(());
    }
  }

  lemma RestOne(env: Env, work: Work, exclusions: Exclusions, s: State)
    requires work.Enter?
    ensures Rest(env, [work], exclusions, s) == VisitDirectory(env, work.rel, work.listing, exclusions, s)
  {
    hide VisitDirectory;
    RestPush(env, [], work, exclusions, s);
    assert [] + [work] == [work];
    var r := VisitDirectory(env, work.rel, work.listing, exclusions, s);
    if r.Done? { RestNone(env, exclusions, r.value); }
  }

  lemma RestNone(env: Env, exclusions: Exclusions, s: State)
    ensures Rest(env, [], exclusions, s) == Done(s)
  {
  }

  // ----- the files of a directory, in pre-order -----

  /** The exclusions that a directory's own record adds. */
  function RecordAt(env: Env, rel: Path, children: seq<Child>): Exclusions {
    var path := env.directory + rel + [FOLDER_RECORD];
    var node := env.project(path);
    if HasRecord(children) && node.Found? && node.isFile && env.record(path).Parsed?
    then [(rel, env.record(path).exclude)] else []
  }

  /** The walk's files below a directory: children in name order, each directory's files in its place. */
  function Files(env: Env, rel: Path, listing: Listing, exclusions: Exclusions): seq<SourceFile>
    decreases Weight(listing), 1
  {
    if !listing.Listed? then []
    else
      SortedWeight(listing.children);
      FilesIn(env, rel, Sorted(listing.children, NameKey), exclusions + RecordAt(env, rel, listing.children))
  }

  function FilesIn(env: Env, rel: Path, children: seq<Child>, exclusions: Exclusions): seq<SourceFile>
    decreases WeightAll(children), 1
  {
    if |children| == 0 then []
    else FilesOf(env, rel + [children[0].name], children[0], exclusions) + FilesIn(env, rel, children[1..], exclusions)
  }

  function FilesOf(env: Env, rel: Path, child: Child, exclusions: Exclusions): seq<SourceFile>
    decreases ChildWeight(child), 0
  {
    match child.node
    case File =>
      if Matched(env, rel, child.name)
      then [SourceFile(env.directory + rel, env.project(env.directory + rel).identity, env.index,
                       Excluded(env, exclusions, rel))]
      else []
    case Other => []
    case Directory(listing) => if Pruned(env, rel, child.name) then [] else Files(env, rel, listing, exclusions)
  }

  /** A plain file that the root's patterns select. */
  predicate Matched(env: Env, rel: Path, name: string) {
    name != FOLDER_RECORD && env.matches(env.files, rel)
    && env.project(env.directory + rel).Found? && env.project(env.directory + rel).isFile
  }

  ghost predicate Remembers(env: Env, s: State) {
    forall path :: path in s.candidates ==> s.candidates[path] == env.project(path)
  }

  /** Every collected file is owned, and no identity is collected twice. */
  ghost predicate Owned(s: State) {
    && (forall i :: 0 <= i < |s.files| ==> s.files[i].identity in s.owners)
    && (forall i, j :: 0 <= i < j < |s.files| ==> s.files[i].identity != s.files[j].identity)
  }

  /** What a successful step does: it adds these files, keeps every owner, and remembers true answers. */
  ghost predicate Adds(env: Env, s: State, t: State, files: seq<SourceFile>) {
    && Remembers(env, t) && t.files == s.files + files
    && (forall id :: id in s.owners ==> id in t.owners)
    && (Owned(s) ==> Owned(t))
  }

  lemma AddsThen(env: Env, s: State, t: State, u: State, a: seq<SourceFile>, b: seq<SourceFile>)
    requires Adds(env, s, t, a) && Adds(env, t, u, b)
    ensures Adds(env, s, u, a + b)
  {
    hide Owned;
  }

  lemma ClaimAdds(env: Env, s: State, path: Path)
    requires Remembers(env, s)
    ensures
      var r := Claim(env, s, path);
      r.Done? ==>
        && Remembers(env, r.value.0) && r.value.0.files == s.files
        && (forall id :: id in s.owners ==> id in r.value.0.owners)
        && (r.value.1.Some? <==> env.project(path).Found? && env.project(path).isFile)
        && (r.value.1.Some? ==> r.value.1.value == env.project(path).identity && r.value.1.value !in s.owners
                                && r.value.1.value in r.value.0.owners)
  {
  }

  lemma AddFileAdds(env: Env, s: State, rel: Path, name: string, exclusions: Exclusions)
    requires Remembers(env, s) && name != FOLDER_RECORD && env.matches(env.files, rel)
    ensures
      var r := AddFile(env, s, rel, exclusions);
      r.Done? ==> Adds(env, s, r.value, FilesOf(env, rel, Child(name, File), exclusions))
  {
    hide Claim, Excluded;
    ClaimAdds(env, s, env.directory + rel);
  }

  lemma AddFolderAdds(env: Env, s: State, rel: Path, children: seq<Child>, exclusions: Exclusions)
    requires Remembers(env, s) && HasRecord(children)
    ensures
      var r := AddFolder(env, s, rel, exclusions);
      r.Done? ==> Adds(env, s, r.value.0, []) && r.value.1 == exclusions + RecordAt(env, rel, children)
  {
    hide Claim, HasRecord;
    ClaimAdds(env, s, env.directory + rel + [FOLDER_RECORD]);
  }

  lemma NothingAdded(env: Env, s: State, path: Path)
    requires Remembers(env, s)
    ensures Adds(env, s, s, []) && Adds(env, s, Skip(s, path), [])
  {
  }

  /** A successful traversal collects exactly its directory's files, and owns each identity once. */
  lemma {:induction false} DirectoryFiles(env: Env, rel: Path, listing: Listing, exclusions: Exclusions, s: State)
    requires Remembers(env, s)
    ensures
      var r := VisitDirectory(env, rel, listing, exclusions, s);
      r.Done? ==> Adds(env, s, r.value, Files(env, rel, listing, exclusions))
    decreases Weight(listing), 1
  {
    hide Remembers, Adds, AddFolder, HasRecord, RecordAt, VisitChildren, FilesIn, Sorted;
    NothingAdded(env, s, env.directory + rel);
    if listing.Listed? {
      var children := listing.children;
      SortedWeight(children);
      var sorted := Sorted(children, NameKey);
      var entered := if HasRecord(children) then AddFolder(env, s, rel, exclusions) else Done((s, exclusions));
      if HasRecord(children) {
        AddFolderAdds(env, s, rel, children, exclusions);
      } else {
        NoRecord(env, rel, children, exclusions);
      }
      if entered.Done? {
        AddsRemember(env, s, entered.value.0, []);
        ChildrenFiles(env, rel, sorted, entered.value.1, entered.value.0);
        var r := VisitChildren(env, rel, sorted, entered.value.1, entered.value.0);
        if r.Done? {
          var files := FilesIn(env, rel, sorted, entered.value.1);
          AddsThen(env, s, entered.value.0, r.value, [], files);
          assert [] + files == files;
        }
      }
    }
  }

  lemma NoRecord(env: Env, rel: Path, children: seq<Child>, exclusions: Exclusions)
    requires !HasRecord(children)
    ensures exclusions + RecordAt(env, rel, children) == exclusions
  {
  }

  lemma AddsRemember(env: Env, s: State, t: State, files: seq<SourceFile>)
    requires Adds(env, s, t, files)
    ensures Remembers(env, t)
  {
  }

  lemma {:induction false} ChildrenFiles(env: Env, rel: Path, children: seq<Child>, exclusions: Exclusions, s: State)
    requires Remembers(env, s)
    ensures
      var r := VisitChildren(env, rel, children, exclusions, s);
      r.Done? ==> Adds(env, s, r.value, FilesIn(env, rel, children, exclusions))
    decreases WeightAll(children), 1
  {
    hide Remembers, Adds, VisitChild, FilesOf;
    if |children| == 0 {
      NothingAdded(env, s, rel);
    } else {
      var path := rel + [children[0].name];
      ChildFiles(env, path, children[0], exclusions, s);
      var r := VisitChild(env, path, children[0], exclusions, s);
      if r.Done? {
        AddsRemember(env, s, r.value, FilesOf(env, path, children[0], exclusions));
        ChildrenFiles(env, rel, children[1..], exclusions, r.value);
        var u := VisitChildren(env, rel, children[1..], exclusions, r.value);
        if u.Done? {
          AddsThen(env, s, r.value, u.value, FilesOf(env, path, children[0], exclusions),
                   FilesIn(env, rel, children[1..], exclusions));
        }
      }
    }
  }

  lemma {:induction false} ChildFiles(env: Env, rel: Path, child: Child, exclusions: Exclusions, s: State)
    requires Remembers(env, s)
    ensures
      var r := VisitChild(env, rel, child, exclusions, s);
      r.Done? ==> Adds(env, s, r.value, FilesOf(env, rel, child, exclusions))
    decreases ChildWeight(child), 0
  {
    hide Remembers, Adds, AddFile, VisitDirectory, Files, Pruned, Excluded;
    NothingAdded(env, s, env.directory + rel);
    match child.node
    case File =>
      if child.name != FOLDER_RECORD && env.matches(env.files, rel) {
        AddFileAdds(env, s, rel, child.name, exclusions);
      }
    case Other =>
    case Directory(listing) => DirectoryFiles(env, rel, listing, exclusions, s);
  }

  // ----- which files those are -----

  /** The listings from a directory down to a file: no step enters a pruned directory. */
  ghost predicate Route(env: Env, base: Path, dirs: seq<Listing>, path: Path)
    decreases |path|
  {
    && |dirs| == |path| > 0 && dirs[0].Listed?
    && if |path| == 1 then Child(path[0], File) in dirs[0].children
       else
         && Child(path[0], Directory(dirs[1])) in dirs[0].children && !Pruned(env, base + [path[0]], path[0])
         && Route(env, base + [path[0]], dirs[1..], path[1..])
  }

  /** The exclusions of every record on the way to a file, its own directory's last. */
  ghost function RecordsOn(env: Env, base: Path, dirs: seq<Listing>, path: Path): Exclusions
    requires Route(env, base, dirs, path)
    decreases |path|
  {
    RecordAt(env, base, dirs[0].children) +
      if |path| == 1 then [] else RecordsOn(env, base + [path[0]], dirs[1..], path[1..])
  }

  /** A selected file with a route; it is excluded when an inherited record or one on its route matches it. */
  ghost predicate Reached(env: Env, base: Path, listing: Listing, exclusions: Exclusions, f: SourceFile,
                          dirs: seq<Listing>, path: Path)
  {
    && Route(env, base, dirs, path) && dirs[0] == listing && Matched(env, base + path, path[|path| - 1])
    && f == SourceFile(env.directory + (base + path), env.project(env.directory + (base + path)).identity, env.index,
                       Excluded(env, exclusions + RecordsOn(env, base, dirs, path), base + path))
  }

  lemma {:induction false} FilesInHave(env: Env, rel: Path, children: seq<Child>, exclusions: Exclusions,
                                       f: SourceFile) returns (child: Child)
    requires f in FilesIn(env, rel, children, exclusions)
    ensures child in children && f in FilesOf(env, rel + [child.name], child, exclusions)
    decreases |children|
  {
    hide FilesOf;
    if f in FilesOf(env, rel + [children[0].name], children[0], exclusions) {
      child := children[0];
    } else {
      child := FilesInHave(env, rel, children[1..], exclusions, f);
    }
  }

  lemma {:induction false} FilesInHold(env: Env, rel: Path, children: seq<Child>, exclusions: Exclusions,
                                       f: SourceFile, child: Child)
    requires child in children && f in FilesOf(env, rel + [child.name], child, exclusions)
    ensures f in FilesIn(env, rel, children, exclusions)
    decreases |children|
  {
    hide FilesOf;
    if child != children[0] { FilesInHold(env, rel, children[1..], exclusions, f, child); }
  }

  lemma SortedHolds(children: seq<Child>, child: Child)
    ensures child in Sorted(children, NameKey) <==> child in children
  {
    SortedAscends(children, NameKey);
    assert child in multiset(Sorted(children, NameKey)) <==> child in multiset(children);
  }

  /** One level up: a route through a child directory. */
  lemma ReachedUp(env: Env, base: Path, listing: Listing, exclusions: Exclusions, f: SourceFile, name: string,
                  dirs: seq<Listing>, path: Path)
    requires listing.Listed? && |dirs| > 0 && Child(name, Directory(dirs[0])) in listing.children &&
             !Pruned(env, base + [name], name)
    ensures
      var inner := exclusions + RecordAt(env, base, listing.children);
      Reached(env, base + [name], dirs[0], inner, f, dirs, path) <==>
      |path| > 0 && Reached(env, base, listing, exclusions, f, [listing] + dirs, [name] + path)
  {
    hide Pruned, Matched, Excluded, RecordAt;
    var (up, all) := ([listing] + dirs, [name] + path);
    assert up[1..] == dirs && all[1..] == path;
    assert base + [name] + path == base + all;
    if |path| > 0 && Route(env, base, up, all) {
      var own := RecordAt(env, base, listing.children);
      var below := RecordsOn(env, base + [name], dirs, path);
      assert exclusions + own + below == exclusions + (own + below);
    }
  }

  /** A file of its own directory. */
  lemma ReachedHere(env: Env, base: Path, listing: Listing, exclusions: Exclusions, f: SourceFile, name: string)
    requires listing.Listed? && Child(name, File) in listing.children
    ensures
      var inner := exclusions + RecordAt(env, base, listing.children);
      f in FilesOf(env, base + [name], Child(name, File), inner) <==>
        Reached(env, base, listing, exclusions, f, [listing], [name])
  {
    hide Pruned, Excluded, RecordAt;
    var own := RecordAt(env, base, listing.children);
    assert own + [] == own;
    assert RecordsOn(env, base, [listing], [name]) == own;
  }

  lemma {:induction false} FileHasRoute(env: Env, base: Path, listing: Listing, exclusions: Exclusions, f: SourceFile)
    returns (dirs: seq<Listing>, path: Path)
    requires f in Files(env, base, listing, exclusions)
    ensures Reached(env, base, listing, exclusions, f, dirs, path)
    decreases Weight(listing)
  {
    hide FilesIn, Reached, Pruned, RecordAt, Matched, Sorted;
    var inner := exclusions + RecordAt(env, base, listing.children);
    SortedWeight(listing.children);
    var child := FilesInHave(env, base, Sorted(listing.children, NameKey), inner, f);
    SortedHolds(listing.children, child);
    match child.node
    case File =>
      dirs, path := [listing], [child.name];
      ReachedHere(env, base, listing, exclusions, f, child.name);
    case Directory(below) =>
      ChildSmaller(listing.children, child);
      dirs, path := FileHasRoute(env, base + [child.name], below, inner, f);
      RouteStarts(env, base + [child.name], below, inner, f, dirs, path);
      ReachedUp(env, base, listing, exclusions, f, child.name, dirs, path);
      dirs, path := [listing] + dirs, [child.name] + path;
  }

  lemma RouteStarts(env: Env, base: Path, listing: Listing, exclusions: Exclusions, f: SourceFile, dirs: seq<Listing>,
                    path: Path)
    requires Reached(env, base, listing, exclusions, f, dirs, path)
    ensures |dirs| == |path| > 0 && dirs[0] == listing
  {
  }

  lemma {:induction false} ChildSmaller(children: seq<Child>, child: Child)
    requires child in children
    ensures ChildWeight(child) <= WeightAll(children)
  {
    if child != children[0] { ChildSmaller(children[1..], child); }
  }

  lemma {:induction false} RouteIsFile(env: Env, base: Path, listing: Listing, exclusions: Exclusions, f: SourceFile,
                                       dirs: seq<Listing>, path: Path)
    requires Reached(env, base, listing, exclusions, f, dirs, path)
    ensures f in Files(env, base, listing, exclusions)
    decreases |path|
  {
    hide FilesIn, Pruned, RecordAt, Matched, Sorted, Excluded;
    var inner := exclusions + RecordAt(env, base, listing.children);
    var child := if |path| == 1 then Child(path[0], File) else Child(path[0], Directory(dirs[1]));
    SortedHolds(listing.children, child);
    if |path| == 1 {
      assert dirs == [listing] && path == [path[0]];
      ReachedHere(env, base, listing, exclusions, f, path[0]);
    } else {
      assert dirs == [listing] + dirs[1..] && path == [path[0]] + path[1..];
      ReachedUp(env, base, listing, exclusions, f, path[0], dirs[1..], path[1..]);
      RouteIsFile(env, base + [path[0]], dirs[1], inner, f, dirs[1..], path[1..]);
    }
    FilesInHold(env, base, Sorted(listing.children, NameKey), inner, f, child);
  }

  /** The walk's files are exactly the selected ones that it can reach, each excluded exactly when a record
      on its ancestor chain matches it. */
  lemma FilesAreReached(env: Env, base: Path, listing: Listing, exclusions: Exclusions, f: SourceFile)
    ensures f in Files(env, base, listing, exclusions) <==>
            exists dirs, path :: Reached(env, base, listing, exclusions, f, dirs, path)
  {
    hide Files, Reached;
    if f in Files(env, base, listing, exclusions) {
      var dirs, path := FileHasRoute(env, base, listing, exclusions, f);
    }
    if dirs, path :| Reached(env, base, listing, exclusions, f, dirs, path) {
      RouteIsFile(env, base, listing, exclusions, f, dirs, path);
    }
  }

  // ----- the same, read off the route -----

  /** The directory after `j` steps is not denied by name, and it is not where the output goes. */
  ghost predicate Searched(env: Env, base: Path, path: Path, j: nat)
    requires 0 < j <= |path|
  {
    && path[j - 1] !in
         [".git", "node_modules", "dist", "coverage", "target", "test-results", "playwright-report", ".context"]
    && env.output != Some(env.directory + (base + path[..j]))
    && env.output != Some(env.identity + (base + path[..j]))
  }

  /** Each listing holds the next directory of the path, which may be searched, and the last one holds the file. */
  ghost predicate Leads(env: Env, base: Path, dirs: seq<Listing>, path: Path) {
    && |dirs| == |path| > 0
    && (forall j :: 0 <= j < |path| ==> dirs[j].Listed?)
    && (forall j :: 0 < j < |path| ==> Child(path[j - 1], Directory(dirs[j])) in dirs[j - 1].children)
    && Child(path[|path| - 1], File) in dirs[|path| - 1].children
    && (forall j :: 0 < j < |path| ==> Searched(env, base, path, j))
  }

  /** The record of the file's `j`th directory is a plain file that parses, and it matches the rest of the path. */
  ghost predicate ExcludedAt(env: Env, base: Path, dirs: seq<Listing>, path: Path, j: nat)
    requires j < |dirs| == |path| && dirs[j].Listed?
  {
    var file := env.directory + (base + path[..j]) + ["_folder.json"];
    && Child("_folder.json", File) in dirs[j].children
    && env.project(file).Found? && env.project(file).isFile
    && env.record(file).Parsed? && env.matches(env.record(file).exclude, path[j..])
  }

  ghost predicate ExcludedOn(env: Env, base: Path, dirs: seq<Listing>, path: Path)
    requires |dirs| == |path| && forall j :: 0 <= j < |path| ==> dirs[j].Listed?
  {
    exists j :: 0 <= j < |path| && ExcludedAt(env, base, dirs, path, j)
  }

  /** The entry of a selected plain file at the end of a route. */
  ghost predicate Selected(env: Env, f: SourceFile, dirs: seq<Listing>, path: Path)
    requires |dirs| == |path| > 0 && forall j :: 0 <= j < |path| ==> dirs[j].Listed?
  {
    var file := env.project(env.directory + path);
    && path[|path| - 1] != "_folder.json" && env.matches(env.files, path) && file.Found? && file.isFile
    && f.path == env.directory + path && f.identity == file.identity && f.root == env.index
    && (f.excluded <==> ExcludedOn(env, [], dirs, path))
  }

  lemma {:induction false} RouteLeads(env: Env, base: Path, dirs: seq<Listing>, path: Path)
    ensures Route(env, base, dirs, path) <==> Leads(env, base, dirs, path)
    decreases |path|
  {
    if |dirs| == |path| > 1 {
      RouteLeads(env, base + [path[0]], dirs[1..], path[1..]);
      LeadsUp(env, base, dirs, path);
    }
  }

  lemma SearchedUp(env: Env, base: Path, path: Path, j: nat)
    requires 0 < j < |path|
    ensures Searched(env, base + [path[0]], path[1..], j) <==> Searched(env, base, path, j + 1)
  {
    assert base + [path[0]] + path[1..][..j] == base + path[..j + 1];
  }

  lemma SearchedFirst(env: Env, base: Path, path: Path)
    requires |path| > 0
    ensures Searched(env, base, path, 1) <==> !Pruned(env, base + [path[0]], path[0])
  {
    assert path[..1] == [path[0]];
  }

  lemma LeadsUp(env: Env, base: Path, dirs: seq<Listing>, path: Path)
    requires |dirs| == |path| > 1
    ensures Leads(env, base, dirs, path) <==>
              && dirs[0].Listed? && Child(path[0], Directory(dirs[1])) in dirs[0].children
              && !Pruned(env, base + [path[0]], path[0])
              && Leads(env, base + [path[0]], dirs[1..], path[1..])
  {
    hide Searched, Pruned;
    var (inner, below, rest) := (base + [path[0]], dirs[1..], path[1..]);
    SearchedFirst(env, base, path);
    forall j | 0 < j < |rest|
      ensures Searched(env, inner, rest, j) <==> Searched(env, base, path, j + 1)
    {
      SearchedUp(env, base, path, j);
    }
    if Leads(env, base, dirs, path) {
      forall j | 0 < j < |rest|
        ensures Searched(env, inner, rest, j)
      {
        assert Searched(env, base, path, j + 1);
      }
      forall j | 0 < j < |rest|
        ensures Child(rest[j - 1], Directory(below[j])) in below[j - 1].children
      {
        assert Child(path[j + 1 - 1], Directory(dirs[j + 1])) in dirs[j + 1 - 1].children;
      }
    }
    if dirs[0].Listed? && Child(path[0], Directory(dirs[1])) in dirs[0].children
       && !Pruned(env, base + [path[0]], path[0]) && Leads(env, inner, below, rest) {
      forall j | 0 < j < |path|
        ensures Searched(env, base, path, j)
      {
        if j > 1 { assert Searched(env, inner, rest, j - 1); }
      }
      forall j | 0 < j < |path|
        ensures Child(path[j - 1], Directory(dirs[j])) in dirs[j - 1].children
      {
        if j > 1 { assert Child(rest[j - 1 - 1], Directory(below[j - 1])) in below[j - 1 - 1].children; }
      }
      forall j | 0 <= j < |path|
        ensures dirs[j].Listed?
      {
        if j > 0 { assert below[j - 1].Listed?; }
      }
    }
  }

  lemma ExcludedAtUp(env: Env, base: Path, dirs: seq<Listing>, path: Path, j: nat)
    requires j + 1 < |dirs| == |path| && dirs[j + 1].Listed?
    ensures ExcludedAt(env, base + [path[0]], dirs[1..], path[1..], j) <==> ExcludedAt(env, base, dirs, path, j + 1)
  {
    assert base + [path[0]] + path[1..][..j] == base + path[..j + 1];
  }

  /** A directory's own record, matched from that directory. */
  lemma ExcludedHere(env: Env, base: Path, dirs: seq<Listing>, path: Path)
    requires |dirs| == |path| > 0 && dirs[0].Listed?
    ensures Excluded(env, RecordAt(env, base, dirs[0].children), base + path) <==> ExcludedAt(env, base, dirs, path, 0)
  {
    assert base + path[..0] == base && path[0..] == path;
    assert (base + path)[|base|..] == path;
    var own := RecordAt(env, base, dirs[0].children);
    if ExcludedAt(env, base, dirs, path, 0) {
      assert HasRecord(dirs[0].children);
      assert env.matches(own[0].1, From(base + path, own[0].0));
    }
  }

  lemma ExcludedSum(env: Env, a: Exclusions, b: Exclusions, rel: Path)
    ensures Excluded(env, a + b, rel) <==> Excluded(env, a, rel) || Excluded(env, b, rel)
  {
    hide From;
    if i :| 0 <= i < |a| && env.matches(a[i].1, From(rel, a[i].0)) {
      assert env.matches((a + b)[i].1, From(rel, (a + b)[i].0));
    }
    if i :| 0 <= i < |b| && env.matches(b[i].1, From(rel, b[i].0)) {
      assert env.matches((a + b)[|a| + i].1, From(rel, (a + b)[|a| + i].0));
    }
  }

  /** The inherited exclusions are the records on the way, each matched from its own directory. */
  lemma {:induction false} ExcludedSplits(env: Env, base: Path, dirs: seq<Listing>, path: Path)
    requires Route(env, base, dirs, path) && forall j :: 0 <= j < |path| ==> dirs[j].Listed?
    ensures Excluded(env, RecordsOn(env, base, dirs, path), base + path) <==> ExcludedOn(env, base, dirs, path)
    decreases |path|
  {
    hide Excluded, ExcludedAt, RecordAt, Pruned;
    var own := RecordAt(env, base, dirs[0].children);
    ExcludedHere(env, base, dirs, path);
    if |path| == 1 {
      assert own + [] == own;
    } else {
      var (inner, below, rest) := (base + [path[0]], dirs[1..], path[1..]);
      assert inner + rest == base + path;
      ExcludedSplits(env, inner, below, rest);
      ExcludedSum(env, own, RecordsOn(env, inner, below, rest), base + path);
      forall j | 0 <= j < |rest|
        ensures ExcludedAt(env, inner, below, rest, j) <==> ExcludedAt(env, base, dirs, path, j + 1)
      {
        ExcludedAtUp(env, base, dirs, path, j);
      }
      if j :| 0 <= j < |path| && ExcludedAt(env, base, dirs, path, j) {
        if j > 0 { assert ExcludedAt(env, inner, below, rest, j - 1); }
      }
    }
  }

  /** A file that the walk finds, with the way to it. */
  ghost predicate FoundOn(env: Env, listing: Listing, f: SourceFile, dirs: seq<Listing>, path: Path) {
    Leads(env, [], dirs, path) && dirs[0] == listing && Selected(env, f, dirs, path)
  }

  lemma ReachedIsFound(env: Env, listing: Listing, f: SourceFile, dirs: seq<Listing>, path: Path)
    ensures Reached(env, [], listing, [], f, dirs, path) <==> FoundOn(env, listing, f, dirs, path)
  {
    hide Excluded, ExcludedAt, RecordAt, Pruned, Searched;
    RouteLeads(env, [], dirs, path);
    if Route(env, [], dirs, path) {
      assert [] + path == path;
      assert [] + RecordsOn(env, [], dirs, path) == RecordsOn(env, [], dirs, path);
      ExcludedSplits(env, [], dirs, path);
    }
  }

  /** A root's files are exactly the selected plain files with a way to them that enters no denied or output
      directory. One is excluded exactly when the record of a directory on that way matches the path from there on. */
  lemma FilesAreFound(env: Env, listing: Listing, f: SourceFile)
    ensures f in Files(env, [], listing, []) <==> exists dirs, path :: FoundOn(env, listing, f, dirs, path)
  {
    hide Files, Reached, FoundOn;
    FilesAreReached(env, [], listing, [], f);
    forall dirs, path
      ensures Reached(env, [], listing, [], f, dirs, path) <==> FoundOn(env, listing, f, dirs, path)
    {
      ReachedIsFound(env, listing, f, dirs, path);
    }
  }

  // ----- all roots -----

  /** The configured roots' common tree; `text` writes a path relative to the repository. */
  datatype Tree = Tree(output: Option<Path>, repoRoot: Path, matches: (Globs, Path) -> bool,
                       project: Path -> Projection, record: Path -> Record, text: Path -> string)

  datatype Root = Root(directory: Path, identity: Path, files: Globs, listing: Listing)

  function EnvOf(tree: Tree, root: Root, index: nat): Env {
    Env(root.directory, root.identity, index, root.files, tree.output, tree.repoRoot, tree.matches, tree.project,
        tree.record)
  }

  function RootFiles(tree: Tree, roots: seq<Root>, index: nat): seq<SourceFile>
    requires index < |roots|
  {
    Files(EnvOf(tree, roots[index], index), [], roots[index].listing, [])
  }

  /** The files of the first roots, in order. */
  function AllFiles(tree: Tree, roots: seq<Root>, count: nat): seq<SourceFile>
    requires count <= |roots|
  {
    if count == 0 then [] else AllFiles(tree, roots, count - 1) + RootFiles(tree, roots, count - 1)
  }

  predicate SomeIncluded(files: seq<SourceFile>) {
    exists i :: 0 <= i < |files| && !files[i].excluded
  }

  const NOTHING := State([], map[], map[], [], [])

  function NewFiles(s: State, t: State): seq<SourceFile> {
    if |s.files| <= |t.files| then t.files[|s.files|..] else []
  }

  /** The first roots walked one after another, up to the first failure. */
  function Collected(tree: Tree, roots: seq<Root>, count: nat): Result<State>
    requires count <= |roots|
  {
    if count == 0 then Done(NOTHING)
    else
      match Collected(tree, roots, count - 1)
      case Failed(why) => Failed(why)
      case Done(s) => Onward(tree, roots, count - 1, s)
  }

  /** One more root; without an included file it fails. */
  function Onward(tree: Tree, roots: seq<Root>, k: nat, s: State): Result<State>
    requires k < |roots|
  {
    match VisitDirectory(EnvOf(tree, roots[k], k), [], roots[k].listing, [], s)
    case Failed(why) => Failed(why)
    case Done(t) => if SomeIncluded(NewFiles(s, t)) then Done(t) else Failed(NoFile(k))
  }

  lemma CollectedStep(tree: Tree, roots: seq<Root>, k: nat)
    requires k < |roots| && Collected(tree, roots, k).Done?
    ensures Collected(tree, roots, k + 1) == Onward(tree, roots, k, Collected(tree, roots, k).value)
  {
    hide Onward;
  }

  lemma {:induction false} FailureStays(tree: Tree, roots: seq<Root>, k: nat, count: nat)
    requires k <= count <= |roots| && Collected(tree, roots, k).Failed?
    ensures Collected(tree, roots, count) == Collected(tree, roots, k)
    decreases count
  {
    hide Onward;
    if k < count { FailureStays(tree, roots, k, count - 1); }
  }

  function FileKey(tree: Tree): SourceFile -> seq<nat> {
    (f: SourceFile) => Units(tree.text(f.path))
  }

  /** What `discover` answers: the first failure, or all files sorted by path. */
  function Discovered(tree: Tree, roots: seq<Root>): Result<seq<SourceFile>> {
    var all := Collected(tree, roots, |roots|);
    if all.Failed? then Failed(all.why) else Done(Sorted(all.value.files, FileKey(tree)))
  }

  /** `discover`, root by root with shared owners and answers. */
  method Discover(tree: Tree, roots: seq<Root>) returns (r: Result<seq<SourceFile>>)
    ensures r == Discovered(tree, roots)
  {
    hide VisitDirectory, Sorted, Collected, SomeIncluded;
    var s := NOTHING;
    CollectedNone(tree, roots);
    for k := 0 to |roots|
      invariant Collected(tree, roots, k) == Done(s)
    {
      CollectedStep(tree, roots, k);
      var walk := new Walk(EnvOf(tree, roots[k], k), s);
      var walked := walk.Directory([], roots[k].listing, []);
      if walked.Failed? {
        FailureStays(tree, roots, k + 1, |roots|);
        return Failed(walked.why);
      }
      if !SomeIncluded(NewFiles(s, walk.Value())) {
        FailureStays(tree, roots, k + 1, |roots|);
        return Failed(NoFile(k));
      }
      s := walk.Value();
    }
    r := Done(Sorted(s.files, FileKey(tree)));
  }

  lemma CollectedNone(tree: Tree, roots: seq<Root>)
    ensures Collected(tree, roots, 0) == Done(NOTHING)
  {
  }

  lemma {:induction false} CollectedFiles(tree: Tree, roots: seq<Root>, count: nat)
    requires count <= |roots| && Collected(tree, roots, count).Done?
    ensures
      var s := Collected(tree, roots, count).value;
      && s.files == AllFiles(tree, roots, count) && Owned(s)
      && (forall path :: path in s.candidates ==> s.candidates[path] == tree.project(path))
    ensures forall k :: 0 <= k < count ==> SomeIncluded(RootFiles(tree, roots, k))
    decreases count
  {
    hide Files, Owned, VisitDirectory, SomeIncluded;
    if count == 0 {
      OwnedNone(NOTHING);
    } else {
      CollectedFiles(tree, roots, count - 1);
      var (env, listing) := (EnvOf(tree, roots[count - 1], count - 1), roots[count - 1].listing);
      var (s, t) := (Collected(tree, roots, count - 1).value, Collected(tree, roots, count).value);
      DirectoryFiles(env, [], listing, [], s);
      AddedFiles(env, s, t, RootFiles(tree, roots, count - 1));
    }
  }

  /** A successful discovery lists every root's files sorted by path, each physical file once, and no root
      without an included file. */
  lemma DiscoveredFiles(tree: Tree, roots: seq<Root>)
    requires Discovered(tree, roots).Done?
    ensures
      var files := Discovered(tree, roots).value;
      && multiset(files) == multiset(AllFiles(tree, roots, |roots|))
      && (forall i, j :: 0 <= i < j < |files| ==>
            !Before(Units(tree.text(files[j].path)), Units(tree.text(files[i].path))))
      && (forall i, j :: 0 <= i < j < |files| ==> files[i].identity != files[j].identity)
      && (forall k :: 0 <= k < |roots| ==> SomeIncluded(RootFiles(tree, roots, k)))
  {
    hide Files, Owned, Sorted, Less, Before, SomeIncluded, Collected;
    CollectedFiles(tree, roots, |roots|);
    var s := Collected(tree, roots, |roots|).value;
    var files := Sorted(s.files, FileKey(tree));
    SortedAscends(s.files, FileKey(tree));
    DistinctSorted(s, files);
    forall i, j | 0 <= i < j < |files|
      ensures !Before(Units(tree.text(files[j].path)), Units(tree.text(files[i].path)))
    {
      LessIsBefore(Units(tree.text(files[j].path)), Units(tree.text(files[i].path)));
    }
  }

  lemma OwnedNone(s: State)
    requires s.files == []
    ensures Owned(s)
  {
  }

  lemma AddedFiles(env: Env, s: State, t: State, files: seq<SourceFile>)
    requires Adds(env, s, t, files) && Owned(s)
    ensures t.files == s.files + files && t.files[|s.files|..] == files && Owned(t)
    ensures forall path :: path in t.candidates ==> t.candidates[path] == env.project(path)
  {
  }

  /** Distinct identities stay distinct in any order. */
  lemma DistinctSorted(s: State, files: seq<SourceFile>)
    requires Owned(s) && multiset(files) == multiset(s.files)
    ensures forall i, j :: 0 <= i < j < |files| ==> files[i].identity != files[j].identity
  {
    forall i, j | 0 <= i < j < |files|
      ensures files[i].identity != files[j].identity
    {
      if files[i].identity == files[j].identity {
        assert files[i] in multiset(s.files) && files[j] in multiset(s.files);
        var a :| 0 <= a < |s.files| && s.files[a] == files[i];
        var b :| 0 <= b < |s.files| && s.files[b] == files[j];
        TwiceIn(files, i, j);
        OnceIn(s, a);
      }
    }
  }

  lemma TwiceIn(files: seq<SourceFile>, i: nat, j: nat)
    requires i < j < |files| && files[i] == files[j]
    ensures multiset(files)[files[i]] >= 2
  {
    assert files == files[..i] + [files[i]] + files[i + 1..j] + [files[j]] + files[j + 1..];
  }

  lemma OnceIn(s: State, a: nat)
    requires Owned(s) && a < |s.files|
    ensures multiset(s.files)[s.files[a]] <= 1
  {
    assert s.files == s.files[..a] + [s.files[a]] + s.files[a + 1..];
  }
}

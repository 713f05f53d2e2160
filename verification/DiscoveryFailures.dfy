// When discovery succeeds and with which failure it ends otherwise (discovery_walk.rs,
// discovery.rs), read off what the walk asks of the tree, question by question.

module DiscoveryFailures {
  import opened Common
  import opened Sorting
  import opened DiscoveryWalk

  /** A directory that cannot be listed, a folder record or a selected file, with the root that asks. */
  datatype Question = AskList(path: Path, root: nat) | AskRecord(path: Path, root: nat) | AskFile(path: Path, root: nat)

  type Owners = map<Path, (Path, nat)>

  // ----- the questions of a traversal, in its order -----

  function Asks(env: Env, rel: Path, listing: Listing): seq<Question>
    decreases Weight(listing), 1
  {
    match listing
    case Vanished => []
    case Unreadable => [AskList(env.directory + rel, env.index)]
    case Listed(children) =>
      SortedWeight(children);
      (if HasRecord(children) then [AskRecord(env.directory + rel + [FOLDER_RECORD], env.index)] else [])
      + AsksIn(env, rel, Sorted(children, NameKey))
  }

  function AsksIn(env: Env, rel: Path, children: seq<Child>): seq<Question>
    decreases WeightAll(children), 1
  {
    if |children| == 0 then [] else AsksOf(env, rel + [children[0].name], children[0]) + AsksIn(env, rel, children[1..])
  }

  function AsksOf(env: Env, rel: Path, child: Child): seq<Question>
    decreases ChildWeight(child), 0
  {
    match child.node
    case File =>
      if child.name != FOLDER_RECORD && env.matches(env.files, rel) then [AskFile(env.directory + rel, env.index)]
      else []
    case Other => []
    case Directory(listing) => if Pruned(env, rel, child.name) then [] else Asks(env, rel, listing)
  }

  // ----- the answers, one after another -----

  /** What one question does to the owners of the physical files. */
  function Told(tree: Tree, owners: Owners, q: Question): Result<Owners> {
    var node := tree.project(q.path);
    if q.AskList? || node.Broken? then Failed(CannotRead(q.path))
    else if node.Missing? || !node.isFile then Done(owners)
    else if !(tree.repoRoot <= node.identity) then Failed(OutsideRepository(q.path))
    else if node.identity in owners
    then Failed(TwiceOwned(q.path, owners[node.identity].0, owners[node.identity].1))
    else if q.AskRecord? && tree.record(q.path).Refused? then Failed(BadFolder(q.path))
    else Done(owners[node.identity := (q.path, q.root)])
  }

  function ToldAll(tree: Tree, owners: Owners, asks: seq<Question>): Result<Owners> {
    if |asks| == 0 then Done(owners)
    else
      match ToldAll(tree, owners, asks[..|asks| - 1])
      case Failed(why) => Failed(why)
      case Done(before) => Told(tree, before, asks[|asks| - 1])
  }

  function Onwards(tree: Tree, before: Result<Owners>, asks: seq<Question>): Result<Owners> {
    match before
    case Failed(why) => Failed(why)
    case Done(owners) => ToldAll(tree, owners, asks)
  }

  lemma {:induction false} ToldSum(tree: Tree, owners: Owners, a: seq<Question>, b: seq<Question>)
    ensures ToldAll(tree, owners, a + b) == Onwards(tree, ToldAll(tree, owners, a), b)
    decreases |b|
  {
    hide Told;
    if |b| == 0 {
      assert a + b == a;
    } else {
      var all := a + b;
      assert all[..|all| - 1] == a + b[..|b| - 1];
      ToldSum(tree, owners, a, b[..|b| - 1]);
    }
  }

  lemma ToldOne(tree: Tree, owners: Owners, q: Question)
    ensures ToldAll(tree, owners, [q]) == Told(tree, owners, q)
  {
    hide Told;
    assert [q][..0] == [];
  }

  /** A traversal ends as the answers to its questions do. */
  ghost predicate EndsAs(r: Result<State>, told: Result<Owners>) {
    if r.Failed? then told == Failed(r.why) else told == Done(r.value.owners)
  }

  ghost predicate Answers(env: Env, tree: Tree) {
    env.project == tree.project && env.record == tree.record && env.repoRoot == tree.repoRoot
  }

  lemma FileTold(tree: Tree, env: Env, s: State, rel: Path, exclusions: Exclusions)
    requires Answers(env, tree) && Remembers(env, s)
    ensures EndsAs(AddFile(env, s, rel, exclusions), Told(tree, s.owners, AskFile(env.directory + rel, env.index)))
  {
    hide Excluded;
  }

  lemma FolderTold(tree: Tree, env: Env, s: State, rel: Path, exclusions: Exclusions)
    requires Answers(env, tree) && Remembers(env, s)
    ensures
      var r := AddFolder(env, s, rel, exclusions);
      var told := Told(tree, s.owners, AskRecord(env.directory + rel + [FOLDER_RECORD], env.index));
      if r.Failed? then told == Failed(r.why) else told == Done(r.value.0.owners)
  {
  }

  lemma {:induction false} DirectoryTold(tree: Tree, env: Env, rel: Path, listing: Listing, exclusions: Exclusions,
                                         s: State)
    requires Answers(env, tree) && Remembers(env, s)
    ensures EndsAs(VisitDirectory(env, rel, listing, exclusions, s), ToldAll(tree, s.owners, Asks(env, rel, listing)))
    decreases Weight(listing), 1
  {
    hide Remembers, Adds, AddFolder, HasRecord, RecordAt, VisitChildren, AsksIn, Sorted, Told, ToldAll;
    match listing
    case Vanished => ToldNone(tree, s.owners);
    case Unreadable => UnreadableTold(tree, s.owners, AskList(env.directory + rel, env.index));
    case Listed(children) =>
      SortedWeight(children);
      var sorted := Sorted(children, NameKey);
      if HasRecord(children) {
        var q := AskRecord(env.directory + rel + [FOLDER_RECORD], env.index);
        FolderTold(tree, env, s, rel, exclusions);
        ToldSum(tree, s.owners, [q], AsksIn(env, rel, sorted));
        ToldOne(tree, s.owners, q);
        var entered := AddFolder(env, s, rel, exclusions);
        if entered.Done? {
          AddFolderAdds(env, s, rel, children, exclusions);
          AddsRemember(env, s, entered.value.0, []);
          ChildrenTold(tree, env, rel, sorted, entered.value.1, entered.value.0);
        }
      } else {
        ChildrenTold(tree, env, rel, sorted, exclusions, s);
        assert [] + AsksIn(env, rel, sorted) == AsksIn(env, rel, sorted);
      }
  }

  lemma ToldNone(tree: Tree, owners: Owners)
    ensures ToldAll(tree, owners, []) == Done(owners)
  {
  }

  lemma UnreadableTold(tree: Tree, owners: Owners, q: Question)
    requires q.AskList?
    ensures ToldAll(tree, owners, [q]) == Failed(CannotRead(q.path))
  {
    ToldOne(tree, owners, q);
  }

  lemma {:induction false} ChildrenTold(tree: Tree, env: Env, rel: Path, children: seq<Child>, exclusions: Exclusions,
                                        s: State)
    requires Answers(env, tree) && Remembers(env, s)
    ensures
      EndsAs(VisitChildren(env, rel, children, exclusions, s), ToldAll(tree, s.owners, AsksIn(env, rel, children)))
    decreases WeightAll(children), 1
  {
    hide Remembers, Adds, VisitChild, AsksOf, Told, ToldAll;
    if |children| == 0 {
      ToldNone(tree, s.owners);
    } else {
      var path := rel + [children[0].name];
      ChildTold(tree, env, path, children[0], exclusions, s);
      ToldSum(tree, s.owners, AsksOf(env, path, children[0]), AsksIn(env, rel, children[1..]));
      var r := VisitChild(env, path, children[0], exclusions, s);
      if r.Done? {
        ChildFiles(env, path, children[0], exclusions, s);
        AddsRemember(env, s, r.value, FilesOf(env, path, children[0], exclusions));
        ChildrenTold(tree, env, rel, children[1..], exclusions, r.value);
      }
    }
  }

  lemma {:induction false} ChildTold(tree: Tree, env: Env, rel: Path, child: Child, exclusions: Exclusions, s: State)
    requires Answers(env, tree) && Remembers(env, s)
    ensures EndsAs(VisitChild(env, rel, child, exclusions, s), ToldAll(tree, s.owners, AsksOf(env, rel, child)))
    decreases ChildWeight(child), 0
  {
    hide Remembers, AddFile, VisitDirectory, Asks, Pruned, Told, ToldAll;
    ToldNone(tree, s.owners);
    match child.node
    case File =>
      FileTold(tree, env, s, rel, exclusions);
      ToldOne(tree, s.owners, AskFile(env.directory + rel, env.index));
    case Other =>
    case Directory(listing) => DirectoryTold(tree, env, rel, listing, exclusions, s);
  }

  // ----- the first fault -----

  /** The question leads to a plain file. */
  ghost predicate Plain(tree: Tree, q: Question) {
    !q.AskList? && tree.project(q.path).Found? && tree.project(q.path).isFile
  }

  ghost predicate SameFile(tree: Tree, a: Question, b: Question) {
    Plain(tree, a) && Plain(tree, b) && tree.project(a.path).identity == tree.project(b.path).identity
  }

  ghost predicate Inside(tree: Tree, q: Question) {
    Plain(tree, q) && tree.repoRoot <= tree.project(q.path).identity
  }

  /** What is wrong with the question at `i`: no answer, a file outside the repository, one that an earlier question
      has led to, or a record that is refused. */
  ghost predicate Fault(tree: Tree, asks: seq<Question>, i: nat, why: Failure)
    requires i < |asks|
  {
    var q := asks[i];
    match why
    case CannotRead(path) => path == q.path && (q.AskList? || tree.project(path).Broken?)
    case OutsideRepository(path) => path == q.path && Plain(tree, q) && !Inside(tree, q)
    case TwiceOwned(path, first, root) =>
      path == q.path && Inside(tree, q) &&
      exists j :: 0 <= j < i && SameFile(tree, asks[j], q) && first == asks[j].path && root == asks[j].root
    case BadFolder(path) =>
      && path == q.path && Inside(tree, q) && (forall j :: 0 <= j < i ==> !SameFile(tree, asks[j], q))
      && q.AskRecord? && tree.record(path).Refused?
    case NoFile(_) => false
  }

  ghost predicate Faultless(tree: Tree, asks: seq<Question>, i: nat)
    requires i < |asks|
  {
    forall why :: !Fault(tree, asks, i, why)
  }

  /** Every question is answered, and nothing is wrong with any. */
  ghost predicate NoFault(tree: Tree, asks: seq<Question>) {
    forall i :: 0 <= i < |asks| ==> Faultless(tree, asks, i)
  }

  /** The first fault. */
  ghost predicate FirstFault(tree: Tree, asks: seq<Question>, i: nat, why: Failure) {
    i < |asks| && Fault(tree, asks, i, why) && forall j :: 0 <= j < i ==> Faultless(tree, asks, j)
  }

  /** The questions so far own exactly their files. */
  ghost predicate OwnersOf(tree: Tree, asks: seq<Question>, owners: Owners) {
    && (forall j :: 0 <= j < |asks| && Plain(tree, asks[j]) ==>
          tree.project(asks[j].path).identity in owners
          && owners[tree.project(asks[j].path).identity] == (asks[j].path, asks[j].root))
    && (forall id :: id in owners ==>
          exists j :: 0 <= j < |asks| && Plain(tree, asks[j]) && tree.project(asks[j].path).identity == id)
  }

  lemma FaultBefore(tree: Tree, asks: seq<Question>, i: nat, n: nat, why: Failure)
    requires i < n <= |asks|
    ensures Fault(tree, asks[..n], i, why) <==> Fault(tree, asks, i, why)
  {
    hide Plain, SameFile, Inside;
    assert forall j :: 0 <= j < n ==> asks[..n][j] == asks[j];
  }

  lemma FaultlessBefore(tree: Tree, asks: seq<Question>, i: nat, n: nat)
    requires i < n <= |asks|
    ensures Faultless(tree, asks[..n], i) <==> Faultless(tree, asks, i)
  {
    hide Fault;
    if Faultless(tree, asks[..n], i) {
      forall why
        ensures !Fault(tree, asks, i, why)
      {
        FaultBefore(tree, asks, i, n, why);
      }
    }
    if Faultless(tree, asks, i) {
      forall why
        ensures !Fault(tree, asks[..n], i, why)
      {
        FaultBefore(tree, asks, i, n, why);
      }
    }
  }

  /** One more question after faultless ones. */
  lemma ToldStep(tree: Tree, before: seq<Question>, owners: Owners, q: Question)
    requires OwnersOf(tree, before, owners)
    ensures
      match Told(tree, owners, q)
      case Failed(why) => Fault(tree, before + [q], |before|, why)
      case Done(next) => Faultless(tree, before + [q], |before|) && OwnersOf(tree, before + [q], next)
  {
    var all := before + [q];
    assert forall j :: 0 <= j < |before| ==> all[j] == before[j];
    if Plain(tree, q) && tree.project(q.path).identity in owners {
      var j :| 0 <= j < |before| && Plain(tree, before[j])
               && tree.project(before[j].path).identity == tree.project(q.path).identity;
      assert SameFile(tree, all[j], q);
    }
  }

  lemma {:induction false} ToldFaults(tree: Tree, asks: seq<Question>)
    ensures
      var told := ToldAll(tree, map[], asks);
      && (told.Failed? ==> exists i :: FirstFault(tree, asks, i, told.why))
      && (told.Done? ==> NoFault(tree, asks) && OwnersOf(tree, asks, told.value))
  {
    hide Told, Fault, OwnersOf, Faultless;
    if |asks| == 0 {
      NobodyOwns(tree);
    } else {
      var n := |asks| - 1;
      var (before, q) := (asks[..n], asks[n]);
      assert asks == before + [q];
      ToldFaults(tree, before);
      forall j | 0 <= j < n
        ensures Faultless(tree, before, j) ==> Faultless(tree, asks, j)
      {
        FaultlessBefore(tree, asks, j, n);
      }
      match ToldAll(tree, map[], before)
      case Failed(why) =>
        var i :| FirstFault(tree, before, i, why);
        FaultBefore(tree, asks, i, n, why);
        assert FirstFault(tree, asks, i, why);
      case Done(owners) =>
        ToldStep(tree, before, owners, q);
        var told := Told(tree, owners, q);
        assert forall j :: 0 <= j < n ==> Faultless(tree, before, j);
        assert ToldAll(tree, map[], asks) == told;
        if told.Failed? { assert FirstFault(tree, asks, n, told.why); }
    }
  }

  lemma NobodyOwns(tree: Tree)
    ensures OwnersOf(tree, [], map[])
  {
  }

  // ----- which questions those are -----

  /** From one directory to the next, which may be searched. */
  ghost predicate Down(env: Env, base: Path, dirs: seq<Listing>, path: Path, j: nat)
    requires j < |path| == |dirs| - 1
  {
    && dirs[j].Listed? && Child(path[j], Directory(dirs[j + 1])) in dirs[j].children
    && Searched(env, base, path, j + 1)
  }

  /** The listings from a directory down to another one. */
  ghost predicate Way(env: Env, base: Path, dirs: seq<Listing>, path: Path) {
    |dirs| == |path| + 1 && forall j :: 0 <= j < |path| ==> Down(env, base, dirs, path, j)
  }

  /** What is asked in one directory: itself when it cannot be listed, its folder record, its selected files. */
  ghost predicate AskedIn(env: Env, rel: Path, listing: Listing, q: Question) {
    q.root == env.index &&
    match q
    case AskList(path, _) => listing.Unreadable? && path == env.directory + rel
    case AskRecord(path, _) =>
      && listing.Listed? && Child("_folder.json", File) in listing.children
      && path == env.directory + rel + ["_folder.json"]
    case AskFile(path, _) =>
      && listing.Listed? && |path| > 0 && Child(path[|path| - 1], File) in listing.children
      && path[|path| - 1] != "_folder.json" && path == env.directory + (rel + [path[|path| - 1]])
      && env.matches(env.files, rel + [path[|path| - 1]])
  }

  ghost predicate AskedOn(env: Env, base: Path, listing: Listing, q: Question, dirs: seq<Listing>, path: Path) {
    Way(env, base, dirs, path) && dirs[0] == listing && AskedIn(env, base + path, dirs[|path|], q)
  }

  lemma DownUp(env: Env, base: Path, dirs: seq<Listing>, path: Path, j: nat)
    requires 0 < j < |path| == |dirs| - 1
    ensures Down(env, base + [path[0]], dirs[1..], path[1..], j - 1) <==> Down(env, base, dirs, path, j)
  {
    hide Searched;
    SearchedUp(env, base, path, j);
  }

  lemma DownFirst(env: Env, base: Path, dirs: seq<Listing>, path: Path)
    requires 0 < |path| == |dirs| - 1
    ensures Down(env, base, dirs, path, 0) <==>
              && dirs[0].Listed? && Child(path[0], Directory(dirs[1])) in dirs[0].children
              && !Pruned(env, base + [path[0]], path[0])
  {
    hide Searched, Pruned;
    SearchedFirst(env, base, path);
  }

  lemma WayUp(env: Env, base: Path, dirs: seq<Listing>, path: Path)
    requires 0 < |path| == |dirs| - 1
    ensures Way(env, base, dirs, path) <==>
              && dirs[0].Listed? && Child(path[0], Directory(dirs[1])) in dirs[0].children
              && !Pruned(env, base + [path[0]], path[0]) && Way(env, base + [path[0]], dirs[1..], path[1..])
  {
    hide Down, Pruned;
    var (inner, below, rest) := (base + [path[0]], dirs[1..], path[1..]);
    DownFirst(env, base, dirs, path);
    if Way(env, base, dirs, path) {
      forall j | 0 <= j < |rest|
        ensures Down(env, inner, below, rest, j)
      {
        DownUp(env, base, dirs, path, j + 1);
      }
    }
    if Down(env, base, dirs, path, 0) && Way(env, inner, below, rest) {
      forall j | 0 <= j < |path|
        ensures Down(env, base, dirs, path, j)
      {
        if j > 0 { DownUp(env, base, dirs, path, j); }
      }
    }
  }

  lemma {:induction false} AsksInHave(env: Env, rel: Path, children: seq<Child>, q: Question) returns (child: Child)
    requires q in AsksIn(env, rel, children)
    ensures child in children && q in AsksOf(env, rel + [child.name], child)
    decreases |children|
  {
    hide AsksOf;
    if q in AsksOf(env, rel + [children[0].name], children[0]) {
      child := children[0];
    } else {
      child := AsksInHave(env, rel, children[1..], q);
    }
  }

  lemma {:induction false} AsksInHold(env: Env, rel: Path, children: seq<Child>, q: Question, child: Child)
    requires child in children && q in AsksOf(env, rel + [child.name], child)
    ensures q in AsksIn(env, rel, children)
    decreases |children|
  {
    hide AsksOf;
    if child != children[0] { AsksInHold(env, rel, children[1..], q, child); }
  }

  /** What a directory asks itself, apart from the directories below it. */
  lemma AskedHere(env: Env, rel: Path, listing: Listing, q: Question)
    requires AskedIn(env, rel, listing, q)
    ensures q in Asks(env, rel, listing)
  {
    hide AsksIn, Sorted, Pruned;
    if listing.Listed? {
      if q.AskRecord? {
        assert HasRecord(listing.children);
      } else {
        var name := q.path[|q.path| - 1];
        SortedHolds(listing.children, Child(name, File));
        AsksInHold(env, rel, Sorted(listing.children, NameKey), q, Child(name, File));
      }
    }
  }

  lemma {:induction false} WayIsAsked(env: Env, base: Path, listing: Listing, q: Question, dirs: seq<Listing>,
                                      path: Path)
    requires AskedOn(env, base, listing, q, dirs, path)
    ensures q in Asks(env, base, listing)
    decreases |path|
  {
    hide AsksIn, Pruned, Sorted, AskedIn, HasRecord, Way;
    WayLength(env, base, dirs, path);
    if |path| == 0 {
      assert base + path == base;
      AskedHere(env, base, listing, q);
    } else {
      var child := Child(path[0], Directory(dirs[1]));
      WayUp(env, base, dirs, path);
      assert base + [path[0]] + path[1..] == base + path;
      WayIsAsked(env, base + [path[0]], dirs[1], q, dirs[1..], path[1..]);
      SortedHolds(listing.children, child);
      AsksInHold(env, base, Sorted(listing.children, NameKey), q, child);
    }
  }

  lemma WayLength(env: Env, base: Path, dirs: seq<Listing>, path: Path)
    requires Way(env, base, dirs, path)
    ensures |dirs| == |path| + 1
  {
  }

  lemma {:induction false} AskedHasWay(env: Env, base: Path, listing: Listing, q: Question)
    returns (dirs: seq<Listing>, path: Path)
    requires q in Asks(env, base, listing)
    ensures AskedOn(env, base, listing, q, dirs, path)
    decreases Weight(listing)
  {
    hide AsksIn, Pruned, Sorted, Way;
    dirs, path := [listing], [];
    WayHere(env, base, listing);
    assert base + path == base;
    if listing.Listed? && !AskedIn(env, base, listing, q) {
      SortedWeight(listing.children);
      var child := AsksInHave(env, base, Sorted(listing.children, NameKey), q);
      SortedHolds(listing.children, child);
      ChildSmaller(listing.children, child);
      var inner := base + [child.name];
      dirs, path := AskedHasWay(env, inner, child.node.listing, q);
      WayLength(env, inner, dirs, path);
      assert ([listing] + dirs)[1..] == dirs && ([child.name] + path)[1..] == path;
      WayUp(env, base, [listing] + dirs, [child.name] + path);
      assert inner + path == base + ([child.name] + path);
      dirs, path := [listing] + dirs, [child.name] + path;
    }
  }

  lemma WayHere(env: Env, base: Path, listing: Listing)
    ensures Way(env, base, [listing], [])
  {
  }

  /** A root asks exactly these questions: on a way that enters no denied or output directory, each directory that
      cannot be listed, each folder record and each file that its patterns select. */
  lemma AsksAreAsked(env: Env, listing: Listing, q: Question)
    ensures q in Asks(env, [], listing) <==> exists dirs, path :: AskedOn(env, [], listing, q, dirs, path)
  {
    hide Asks, AskedOn;
    if q in Asks(env, [], listing) {
      var dirs, path := AskedHasWay(env, [], listing, q);
    }
    if dirs, path :| AskedOn(env, [], listing, q, dirs, path) {
      WayIsAsked(env, [], listing, q, dirs, path);
    }
  }

  // ----- all roots -----

  function RootAsks(tree: Tree, roots: seq<Root>, k: nat): seq<Question>
    requires k < |roots|
  {
    Asks(EnvOf(tree, roots[k], k), [], roots[k].listing)
  }

  /** The first roots' questions, in order. */
  function AllAsks(tree: Tree, roots: seq<Root>, count: nat): seq<Question>
    requires count <= |roots|
  {
    if count == 0 then [] else AllAsks(tree, roots, count - 1) + RootAsks(tree, roots, count - 1)
  }

  lemma CollectedOwners(tree: Tree, roots: seq<Root>, k: nat)
    requires k < |roots| && Collected(tree, roots, k).Done?
    requires ToldAll(tree, map[], AllAsks(tree, roots, k)) == Done(Collected(tree, roots, k).value.owners)
    ensures
      var env := EnvOf(tree, roots[k], k);
      var r := VisitDirectory(env, [], roots[k].listing, [], Collected(tree, roots, k).value);
      EndsAs(r, ToldAll(tree, map[], AllAsks(tree, roots, k + 1)))
  {
    hide Collected, VisitDirectory, Asks, ToldAll, Files;
    CollectedFiles(tree, roots, k);
    var (env, s) := (EnvOf(tree, roots[k], k), Collected(tree, roots, k).value);
    DirectoryTold(tree, env, [], roots[k].listing, [], s);
    ToldSum(tree, map[], AllAsks(tree, roots, k), RootAsks(tree, roots, k));
  }

  /** The roots before `count` have no fault and an included file each. */
  ghost predicate Passed(tree: Tree, roots: seq<Root>, count: nat)
    requires count <= |roots|
  {
    NoFault(tree, AllAsks(tree, roots, count)) && forall k :: 0 <= k < count ==> SomeIncluded(RootFiles(tree, roots, k))
  }

  ghost predicate FailsWith(tree: Tree, asks: seq<Question>, why: Failure) {
    exists i :: FirstFault(tree, asks, i, why)
  }

  /** Why discovery ends at a root: the first fault of all questions so far, or no included file. */
  ghost predicate Ends(tree: Tree, roots: seq<Root>, k: nat, why: Failure)
    requires k < |roots|
  {
    && Passed(tree, roots, k)
    && match why
       case NoFile(root) =>
         root == k && NoFault(tree, AllAsks(tree, roots, k + 1)) && !SomeIncluded(RootFiles(tree, roots, k))
       case _ => FailsWith(tree, AllAsks(tree, roots, k + 1), why)
  }

  lemma {:induction false} AsksPrefix(tree: Tree, roots: seq<Root>, k: nat, count: nat)
    requires k <= count <= |roots|
    ensures AllAsks(tree, roots, k) <= AllAsks(tree, roots, count)
    decreases count
  {
    hide Asks;
    if k < count { AsksPrefix(tree, roots, k, count - 1); }
  }

  /** What ends discovery at a root keeps every longer list of roots from passing. */
  lemma EndsForGood(tree: Tree, roots: seq<Root>, k: nat, count: nat, why: Failure)
    requires k < count <= |roots| && Ends(tree, roots, k, why)
    ensures !Passed(tree, roots, count)
  {
    hide Faultless, Fault, AllAsks, RootFiles, SomeIncluded;
    AsksPrefix(tree, roots, k + 1, count);
    var (some, all) := (AllAsks(tree, roots, k + 1), AllAsks(tree, roots, count));
    if !why.NoFile? {
      var i :| FirstFault(tree, some, i, why);
      FaultBefore(tree, all, i, |some|, why);
      assert some == all[..|some|];
      HasFault(tree, all, i, why);
    }
  }

  lemma HasFault(tree: Tree, asks: seq<Question>, i: nat, why: Failure)
    requires i < |asks| && Fault(tree, asks, i, why)
    ensures !NoFault(tree, asks)
  {
    hide Fault;
    assert !Faultless(tree, asks, i);
  }

  lemma {:induction false} CollectedEnds(tree: Tree, roots: seq<Root>, count: nat)
    requires count <= |roots|
    ensures
      var r := Collected(tree, roots, count);
      && (r.Done? ==>
            Passed(tree, roots, count) && ToldAll(tree, map[], AllAsks(tree, roots, count)) == Done(r.value.owners))
      && (r.Failed? ==> exists k :: 0 <= k < count && Ends(tree, roots, k, r.why))
  {
    hide VisitDirectory, ToldAll, RootAsks, RootFiles, SomeIncluded, NoFault, FirstFault;
    if count == 0 {
      NoQuestions(tree, roots);
    } else {
      CollectedEnds(tree, roots, count - 1);
      if Collected(tree, roots, count - 1).Done? {
        LastRootEnds(tree, roots, count - 1);
      }
    }
  }

  lemma NoQuestions(tree: Tree, roots: seq<Root>)
    ensures Passed(tree, roots, 0) && ToldAll(tree, map[], AllAsks(tree, roots, 0)) == Done(map[])
  {
  }

  lemma FaultsAreAsked(tree: Tree, asks: seq<Question>, why: Failure)
    requires FailsWith(tree, asks, why)
    ensures !why.NoFile?
  {
  }

  lemma LastRootEnds(tree: Tree, roots: seq<Root>, k: nat)
    requires k < |roots| && Collected(tree, roots, k).Done? && Passed(tree, roots, k)
    requires ToldAll(tree, map[], AllAsks(tree, roots, k)) == Done(Collected(tree, roots, k).value.owners)
    ensures
      var r := Collected(tree, roots, k + 1);
      if r.Failed? then Ends(tree, roots, k, r.why)
      else
        Passed(tree, roots, k + 1) && ToldAll(tree, map[], AllAsks(tree, roots, k + 1)) == Done(r.value.owners)
  {
    hide VisitDirectory, ToldAll, AllAsks, SomeIncluded, NoFault, FirstFault, Files, Owned;
    CollectedOwners(tree, roots, k);
    ToldFaults(tree, AllAsks(tree, roots, k + 1));
    CollectedFiles(tree, roots, k);
    var (env, s) := (EnvOf(tree, roots[k], k), Collected(tree, roots, k).value);
    var r := VisitDirectory(env, [], roots[k].listing, [], s);
    if r.Failed? {
      assert FailsWith(tree, AllAsks(tree, roots, k + 1), r.why);
      FaultsAreAsked(tree, AllAsks(tree, roots, k + 1), r.why);
    } else {
      DirectoryFiles(env, [], roots[k].listing, [], s);
      AddedFiles(env, s, r.value, RootFiles(tree, roots, k));
    }
  }

  /** Discovery succeeds exactly when no question of any root has a fault and every root has an included file.
      Otherwise it ends at the first root where either fails, with that root's first fault or its lack of files. */
  lemma DiscoveryEnds(tree: Tree, roots: seq<Root>)
    ensures Discovered(tree, roots).Done? <==> Passed(tree, roots, |roots|)
    ensures Discovered(tree, roots).Failed? ==>
              exists k :: 0 <= k < |roots| && Ends(tree, roots, k, Discovered(tree, roots).why)
  {
    hide Collected, Passed, Ends, Sorted;
    CollectedEnds(tree, roots, |roots|);
    var r := Discovered(tree, roots);
    if r.Failed? {
      var k :| 0 <= k < |roots| && Ends(tree, roots, k, r.why);
      EndsForGood(tree, roots, k, |roots|, r.why);
    }
  }

  lemma LeadsIsWay(env: Env, listing: Listing, f: SourceFile, dirs: seq<Listing>, path: Path)
    requires FoundOn(env, listing, f, dirs, path)
    ensures AskedOn(env, [], listing, AskFile(f.path, f.root), dirs, path[..|path| - 1])
  {
    hide ExcludedOn;
    var (init, name) := (path[..|path| - 1], path[|path| - 1]);
    assert [] + init == init && init + [name] == path;
    assert f.path[|f.path| - 1] == name;
    forall j | 0 <= j < |init|
      ensures Down(env, [], dirs, init, j)
    {
      assert Searched(env, [], path, j + 1) && init[..j + 1] == path[..j + 1];
    }
  }

  lemma {:induction false} FileIsAsked(tree: Tree, roots: seq<Root>, count: nat, f: SourceFile) returns (i: nat)
    requires count <= |roots| && f in AllFiles(tree, roots, count)
    ensures i < |AllAsks(tree, roots, count)| && AllAsks(tree, roots, count)[i] == AskFile(f.path, f.root)
    ensures Plain(tree, AskFile(f.path, f.root)) && f.identity == tree.project(f.path).identity
    decreases count
  {
    hide Files, Asks;
    var k := count - 1;
    if f in RootFiles(tree, roots, k) {
      var (env, listing) := (EnvOf(tree, roots[k], k), roots[k].listing);
      FilesAreFound(env, listing, f);
      var dirs, path :| FoundOn(env, listing, f, dirs, path);
      LeadsIsWay(env, listing, f, dirs, path);
      WayIsAsked(env, [], listing, AskFile(f.path, f.root), dirs, path[..|path| - 1]);
      var j :| 0 <= j < |RootAsks(tree, roots, k)| && RootAsks(tree, roots, k)[j] == AskFile(f.path, f.root);
      i := |AllAsks(tree, roots, k)| + j;
    } else {
      i := FileIsAsked(tree, roots, k, f);
    }
  }

  /** Every file of a successful discovery lies inside the repository. */
  lemma FilesStayInside(tree: Tree, roots: seq<Root>, f: SourceFile)
    requires Discovered(tree, roots).Done? && f in Discovered(tree, roots).value
    ensures tree.repoRoot <= f.identity
  {
    hide Collected, Sorted, AllFiles, AllAsks, SomeIncluded;
    DiscoveryEnds(tree, roots);
    DiscoveredFiles(tree, roots);
    assert f in multiset(AllFiles(tree, roots, |roots|));
    var i := FileIsAsked(tree, roots, |roots|, f);
    var asks := AllAsks(tree, roots, |roots|);
    assert Faultless(tree, asks, i);
    assert !Fault(tree, asks, i, OutsideRepository(f.path));
  }
}

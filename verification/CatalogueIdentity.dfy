// Catalogue-wide identity (identity.rs, prepare_sources.rs): paths that differ only by
// letter case, paths that are both a leaf and a folder, and index documents.

module CatalogueIdentity {
  import opened Common

  datatype Kind = Component | Document | Page | Screen | UseCase

  /** An entry: its path, its parent when it is a variant, and the file it comes from. */
  datatype Entry = Entry(path: string, kind: Kind, variantOf: Option<string>, isIndex: bool, source: string)

  datatype SourceFile = SourceFile(path: string, document: bool, excluded: bool)

  function LowerChar(c: char): char {
    if 'A' <= c <= 'Z' then c + 32 as char else c
  }

  function Lower(s: string): (lower: string)
    ensures |lower| == |s| && forall i :: 0 <= i < |s| ==> lower[i] == LowerChar(s[i])
  {
    seq(|s|, i requires 0 <= i < |s| => LowerChar(s[i]))
  }

  // ----- folders of a path -----

  /** The folder `p` is a proper prefix of the path, up to a slash. */
  predicate Folder(path: string, p: string) {
    |p| < |path| && path[|p|] == '/' && path[..|p|] == p
  }

  function LastSlash(s: string): Option<nat> {
    if |s| == 0 then None
    else if s[|s| - 1] == '/' then Some(|s| - 1)
    else LastSlash(s[..|s| - 1])
  }

  lemma {:induction false} LastSlashIs(s: string)
    ensures LastSlash(s).Some? ==>
              LastSlash(s).value < |s| && s[LastSlash(s).value] == '/' && forall k :: LastSlash(s).value < k < |s| ==>
                s[k] != '/'
    ensures LastSlash(s).None? ==> '/' !in s
  {
    if |s| > 0 && s[|s| - 1] != '/' { LastSlashIs(s[..|s| - 1]); }
  }

  /** The part before the last slash. */
  function Parent(s: string): (p: Option<string>)
    ensures p.Some? ==> |p.value| < |s|
  {
    LastSlashIs(s);
    if LastSlash(s).Some? then Some(s[..LastSlash(s).value]) else None
  }

  /** The parent is the longest folder, and the others are its own. */
  lemma ParentIsLongest(s: string, p: string)
    ensures Parent(s).None? ==> !Folder(s, p)
    ensures Parent(s).Some? ==>
              Folder(s, Parent(s).value) && (Folder(s, p) <==> p == Parent(s).value || Folder(Parent(s).value, p))
  {
    LastSlashIs(s);
  }

  function Directory(path: string): string {
    if Parent(path).Some? then Parent(path).value else ""
  }

  // ----- index documents -----

  function Name(path: string): string {
    LastSlashIs(path);
    if LastSlash(path).Some? then path[LastSlash(path).value + 1..] else path
  }

  predicate IndexFile(file: SourceFile) {
    !file.excluded && file.document && Lower(Name(file.path)) in {"readme.md", "index.md"}
  }

  /** An index file is a present document whose last path component is `readme.md` or `index.md` in any case. */
  lemma IndexFileIs(file: SourceFile, folder: string, name: string)
    requires file.path == folder + name && '/' !in name && (folder == "" || folder[|folder| - 1] == '/')
    ensures IndexFile(file) <==>
            file.document && !file.excluded && (Lower(name) == "readme.md" || Lower(name) == "index.md")
  {
    hide Lower, Name;
    NameAfter(file.path, folder, name);
  }

  lemma NameAfter(path: string, folder: string, name: string)
    requires path == folder + name && '/' !in name && (folder == "" || folder[|folder| - 1] == '/')
    ensures Name(path) == name
  {
    LastSlashIs(path);
    if folder != "" { assert path[|folder| - 1] == '/'; }
    assert forall k :: |folder| <= k < |path| ==> path[k] == name[k - |folder|];
  }

  datatype TwoIndices = TwoIndices(directory: string, first: string, second: string)

  /** No directory has two index documents. */
  ghost predicate OneIndexPerDirectory(files: seq<SourceFile>) {
    forall a, b :: 0 <= a < b < |files| && IndexFile(files[a]) && IndexFile(files[b]) ==>
      Directory(files[a].path) != Directory(files[b].path)
  }

  /** A report names an index document and the next one of its directory. */
  ghost predicate Paired(files: seq<SourceFile>, a: nat, b: nat, issue: TwoIndices)
    requires a < b < |files|
  {
    && IndexFile(files[a]) && IndexFile(files[b]) && Directory(files[a].path) == Directory(files[b].path)
    && (forall c :: a < c < b && IndexFile(files[c]) ==> Directory(files[c].path) != Directory(files[b].path))
    && issue == TwoIndices(Directory(files[b].path), Name(files[a].path), Name(files[b].path))
  }

  ghost predicate Twice(files: seq<SourceFile>, k: nat, issue: TwoIndices)
    requires k <= |files|
  {
    exists a, b :: 0 <= a < b < k && Paired(files, a, b, issue)
  }

  /** No index document before `k` shares the directory. */
  ghost predicate FirstIndex(files: seq<SourceFile>, k: nat)
    requires k < |files|
  {
    forall a :: 0 <= a < k && IndexFile(files[a]) ==> Directory(files[a].path) != Directory(files[k].path)
  }

  lemma OneMoreFile(files: seq<SourceFile>, k: nat)
    requires k < |files|
    ensures OneIndexPerDirectory(files[..k + 1]) <==>
            OneIndexPerDirectory(files[..k]) && (IndexFile(files[k]) ==> FirstIndex(files, k))
  {
    hide IndexFile, Directory;
    assert files[..k + 1] == files[..k] + [files[k]];
  }

  /** The last index document of a directory before `k`. */
  ghost predicate LatestIndex(files: seq<SourceFile>, k: nat, directory: string, a: nat)
    requires a < k <= |files|
  {
    && IndexFile(files[a]) && Directory(files[a].path) == directory
    && forall c :: a < c < k && IndexFile(files[c]) ==> Directory(files[c].path) != directory
  }

  ghost predicate PairedAt(files: seq<SourceFile>, k: nat, issue: TwoIndices)
    requires k < |files|
  {
    exists a :: 0 <= a < k && Paired(files, a, k, issue)
  }

  /** The reports of the first files. */
  ghost predicate ListsTwice(files: seq<SourceFile>, k: nat, issues: seq<TwoIndices>)
    requires k <= |files|
  {
    forall issue :: issue in issues <==> Twice(files, k, issue)
  }

  lemma TwiceStep(files: seq<SourceFile>, k: nat)
    requires k < |files|
    ensures forall issue :: Twice(files, k + 1, issue) <==> Twice(files, k, issue) || PairedAt(files, k, issue)
  {
    hide Paired;
  }

  lemma NotPaired(files: seq<SourceFile>, k: nat)
    requires k < |files| && (!IndexFile(files[k]) || FirstIndex(files, k))
    ensures forall issue :: !PairedAt(files, k, issue)
  {
    hide IndexFile, Directory, Name;
  }

  lemma NothingMore(files: seq<SourceFile>, k: nat, issues: seq<TwoIndices>)
    requires k < |files| && ListsTwice(files, k, issues) && (!IndexFile(files[k]) || FirstIndex(files, k))
    ensures ListsTwice(files, k + 1, issues)
  {
    hide IndexFile, FirstIndex, Twice, PairedAt;
    TwiceStep(files, k);
    NotPaired(files, k);
  }

  lemma PairedOnce(files: seq<SourceFile>, k: nat, a: nat)
    requires a < k < |files| && IndexFile(files[k]) && LatestIndex(files, k, Directory(files[k].path), a)
    ensures forall issue :: PairedAt(files, k, issue) <==>
              issue == TwoIndices(Directory(files[k].path), Name(files[a].path), Name(files[k].path))
  {
    hide IndexFile, Directory, Name;
    assert Paired(files, a, k, TwoIndices(Directory(files[k].path), Name(files[a].path), Name(files[k].path)));
  }

  lemma OneMore(files: seq<SourceFile>, k: nat, a: nat, issues: seq<TwoIndices>, issue: TwoIndices)
    requires a < k < |files| && IndexFile(files[k]) && LatestIndex(files, k, Directory(files[k].path), a)
    requires ListsTwice(files, k, issues)
    requires issue == TwoIndices(Directory(files[k].path), Name(files[a].path), Name(files[k].path))
    ensures ListsTwice(files, k + 1, issues + [issue])
  {
    hide IndexFile, Directory, Name, Twice, PairedAt, LatestIndex;
    TwiceStep(files, k);
    PairedOnce(files, k, a);
    PushHolds(issues, issue);
    forall other
      ensures other in issues + [issue] <==> Twice(files, k + 1, other)
    {
      assert Twice(files, k + 1, other) <==> Twice(files, k, other) || PairedAt(files, k, other);
      assert PairedAt(files, k, other) <==> other == issue;
    }
  }

  /** `duplicate_indices`: reports exactly each index document with the next one of its directory, so nothing exactly
      when no directory has two. */
  method DuplicateIndices(files: seq<SourceFile>) returns (issues: seq<TwoIndices>)
    ensures issues == [] <==> OneIndexPerDirectory(files)
    ensures forall issue :: issue in issues <==> Twice(files, |files|, issue)
  {
    hide IndexFile, Directory, Name, OneIndexPerDirectory, ListsTwice;
    var directories: map<string, string> := map[];
    ghost var latest: map<string, nat> := map[];
    issues := [];
    OneIndexAmongNone(files);
    for k := 0 to |files|
      invariant latest.Keys == directories.Keys
      invariant forall d :: d in latest ==> latest[d] < k && LatestIndex(files, k, d, latest[d])
      invariant forall d :: d in latest ==> directories[d] == Name(files[latest[d]].path)
      invariant forall a :: 0 <= a < k && IndexFile(files[a]) ==> Directory(files[a].path) in latest
      invariant issues == [] <==> OneIndexPerDirectory(files[..k])
      invariant ListsTwice(files, k, issues)
    {
      var file := files[k];
      OneMoreFile(files, k);
      if IndexFile(file) {
        var directory := Directory(file.path);
        if directory in directories {
          var issue := TwoIndices(directory, directories[directory], Name(file.path));
          OneMore(files, k, latest[directory], issues, issue);
          issues := issues + [issue];
        } else {
          NothingMore(files, k, issues);
        }
        directories := directories[directory := Name(file.path)];
        latest := latest[directory := k];
      } else {
        NothingMore(files, k, issues);
      }
    }
    assert files[..|files|] == files;
    ListedTwice(files, issues);
  }

  lemma ListedTwice(files: seq<SourceFile>, issues: seq<TwoIndices>)
    requires ListsTwice(files, |files|, issues)
    ensures forall issue :: issue in issues <==> Twice(files, |files|, issue)
  {
  }

  lemma PushHolds(issues: seq<TwoIndices>, issue: TwoIndices)
    ensures forall other :: other in issues + [issue] <==> other in issues || other == issue
  {
  }

  lemma OneIndexAmongNone(files: seq<SourceFile>)
    ensures OneIndexPerDirectory(files[..0]) && ListsTwice(files, 0, [])
  {
  }

  // ----- collisions -----

  datatype Code = CaseCollision | DuplicatePath

  /** Two spellings of one path or folder; they are equal for a path that is defined twice. */
  datatype Collision = Collision(code: Code, first: string, second: string)

  predicate IndexDocument(e: Entry) {
    e.isIndex && e.kind.Document?
  }

  /** Entries at one path, letter case aside, may only be the index documents of one directory, reported elsewhere. */
  ghost predicate DistinctPaths(entries: seq<Entry>) {
    forall i, j :: 0 <= i < j < |entries| && Lower(entries[i].path) == Lower(entries[j].path) ==>
      SameDirectoryIndices(entries[i], entries[j])
  }

  predicate SameDirectoryIndices(a: Entry, b: Entry) {
    IndexDocument(a) && IndexDocument(b) && Directory(a.source) == Directory(b.source)
  }

  predicate IsFolder(entries: seq<Entry>, i: int, p: string) {
    0 <= i < |entries| && Folder(entries[i].path, p)
  }

  /** Every folder has one spelling. */
  ghost predicate OneSpelling(entries: seq<Entry>) {
    forall i, j, p, q :: IsFolder(entries, i, p) && IsFolder(entries, j, q) && Lower(p) == Lower(q) ==> p == q
  }

  /** The entry that owns a lower-case path is the last one with it. */
  ghost predicate Owns(entries: seq<Entry>, o: int, lower: string) {
    && 0 <= o < |entries| && Lower(entries[o].path) == lower
    && forall k :: o < k < |entries| ==> Lower(entries[k].path) != lower
  }

  predicate MayHold(owner: Entry, folder: string, e: Entry) {
    owner.path == folder && (owner.isIndex || e.variantOf == Some(folder))
  }

  /** An entry at another entry's folder is spelled alike, and is an index or that variant's parent. */
  ghost predicate FoldersAreIndices(entries: seq<Entry>) {
    forall i, o, p :: IsFolder(entries, i, p) && Owns(entries, o, Lower(p)) ==> MayHold(entries[o], p, entries[i])
  }

  /** Some entry's path or folder is spelled so. */
  ghost predicate Spelled(entries: seq<Entry>, p: string) {
    exists i :: 0 <= i < |entries| && (entries[i].path == p || IsFolder(entries, i, p))
  }

  /** A report names two real spellings that agree letter case aside. */
  ghost predicate Real(entries: seq<Entry>, issue: Collision) {
    && Spelled(entries, issue.first) && Spelled(entries, issue.second) && Lower(issue.first) == Lower(issue.second)
    && (issue.code.CaseCollision? <==> issue.first != issue.second)
  }

  ghost predicate ReportedAt(issues: seq<Collision>, lower: string) {
    exists i :: 0 <= i < |issues| && Lower(issues[i].first) == lower
  }

  /** Every report is real, and no path is reported twice. */
  ghost predicate Reports(entries: seq<Entry>, issues: seq<Collision>, reported: set<string>) {
    && (forall i :: 0 <= i < |issues| ==> Real(entries, issues[i]))
    && (forall i, j :: 0 <= i < j < |issues| ==> Lower(issues[i].first) != Lower(issues[j].first))
    && (forall lower :: lower in reported <==> ReportedAt(issues, lower))
  }

  ghost predicate NoCollisions(entries: seq<Entry>) {
    DistinctPaths(entries) && OneSpelling(entries) && FoldersAreIndices(entries)
  }

  /** Two entries at one lower-case path that are not index documents of one directory. */
  ghost predicate SharedPath(entries: seq<Entry>, lower: string) {
    exists i, j :: 0 <= i < j < |entries| && Lower(entries[i].path) == lower && Lower(entries[j].path) == lower
                   && !SameDirectoryIndices(entries[i], entries[j])
  }

  /** Two spellings of one lower-case folder. */
  ghost predicate TwoSpellings(entries: seq<Entry>, lower: string) {
    exists i, j, p, q ::
      IsFolder(entries, i, p) && IsFolder(entries, j, q) && Lower(p) == lower && Lower(q) == lower && p != q
  }

  /** An entry below a folder whose owner may not hold it. */
  ghost predicate Misplaced(entries: seq<Entry>, lower: string) {
    exists i, o, p ::
      IsFolder(entries, i, p) && Lower(p) == lower && Owns(entries, o, lower) && !MayHold(entries[o], p, entries[i])
  }

  ghost predicate Clashes(entries: seq<Entry>, lower: string) {
    SharedPath(entries, lower) || TwoSpellings(entries, lower) || Misplaced(entries, lower)
  }

  lemma NoClashes(entries: seq<Entry>)
    ensures NoCollisions(entries) <==> forall lower :: !Clashes(entries, lower)
  {
    hide Lower, IsFolder, Owns, MayHold, SameDirectoryIndices;
    if forall lower :: !Clashes(entries, lower) {
      forall i, j | 0 <= i < j < |entries| && Lower(entries[i].path) == Lower(entries[j].path)
        ensures SameDirectoryIndices(entries[i], entries[j])
      {
        assert !Clashes(entries, Lower(entries[i].path));
      }
      forall i, j, p, q | IsFolder(entries, i, p) && IsFolder(entries, j, q) && Lower(p) == Lower(q)
        ensures p == q
      {
        assert !Clashes(entries, Lower(p));
      }
      forall i, o, p | IsFolder(entries, i, p) && Owns(entries, o, Lower(p))
        ensures IsFolder(entries, i, p) && Owns(entries, o, Lower(p))
        ensures 0 <= i < |entries| && 0 <= o < |entries| && MayHold(entries[o], p, entries[i])
      {
        FolderAndOwner(entries, i, o, p);
        assert !Clashes(entries, Lower(p));
      }
    }
  }

  lemma FolderAndOwner(entries: seq<Entry>, i: int, o: int, p: string)
    requires IsFolder(entries, i, p) && Owns(entries, o, Lower(p))
    ensures 0 <= i < |entries| && 0 <= o < |entries|
  {
  }

  // ----- entries with one path, letter case aside -----

  /** The entries before `n` with a lower-case path, in order. */
  function Group(entries: seq<Entry>, lower: string, n: nat): (group: seq<nat>)
    requires n <= |entries|
    ensures forall k :: 0 <= k < |group| ==> group[k] < n && Lower(entries[group[k]].path) == lower
  {
    if n == 0 then []
    else Group(entries, lower, n - 1) + if Lower(entries[n - 1].path) == lower then [n - 1] else []
  }

  lemma {:induction false} GroupHas(entries: seq<Entry>, lower: string, n: nat, i: nat)
    requires i < n <= |entries| && Lower(entries[i].path) == lower
    ensures i in Group(entries, lower, n)
  {
    if i < n - 1 { GroupHas(entries, lower, n - 1, i); }
  }

  function Listed(paths: map<string, seq<nat>>, lower: string): seq<nat> {
    if lower in paths then paths[lower] else []
  }

  lemma GroupStep(entries: seq<Entry>, lower: string, k: nat)
    requires k < |entries|
    ensures Group(entries, lower, k + 1) == Group(entries, lower, k) +
            if Lower(entries[k].path) == lower then [k] else []
  {
  }

  method Grouped(entries: seq<Entry>) returns (paths: map<string, seq<nat>>)
    ensures forall lower :: lower in paths ==> paths[lower] == Group(entries, lower, |entries|)
    ensures forall i :: 0 <= i < |entries| ==> Lower(entries[i].path) in paths
  {
    hide Lower, Group;
    paths := map[];
    NoGroups(entries);
    for k := 0 to |entries|
      invariant forall lower :: Listed(paths, lower) == Group(entries, lower, k)
      invariant forall i :: 0 <= i < k ==> Lower(entries[i].path) in paths
    {
      var lower := Lower(entries[k].path);
      ghost var before := paths;
      paths := paths[lower := (if lower in paths then paths[lower] else []) + [k]];
      forall other
        ensures Listed(paths, other) == Group(entries, other, k + 1)
      {
        GroupStep(entries, other, k);
        assert Listed(before, other) == Group(entries, other, k);
      }
    }
    assert forall lower :: lower in paths ==> Listed(paths, lower) == paths[lower];
  }

  lemma NoGroups(entries: seq<Entry>)
    ensures forall lower :: Group(entries, lower, 0) == []
  {
  }

  /** A group that is reported elsewhere: the index documents of one directory. */
  predicate Exempt(entries: seq<Entry>, group: seq<nat>)
    requires forall k :: 0 <= k < |group| ==> group[k] < |entries|
  {
    forall k :: 0 <= k < |group| ==> SameDirectoryIndices(entries[group[k]], entries[group[0]])
  }

  predicate Fine(entries: seq<Entry>, lower: string) {
    var group := Group(entries, lower, |entries|);
    |group| <= 1 || Exempt(entries, group)
  }

  lemma PairFine(entries: seq<Entry>, i: nat, j: nat)
    requires i < j < |entries| && Lower(entries[i].path) == Lower(entries[j].path)
    ensures Fine(entries, Lower(entries[i].path)) ==> SameDirectoryIndices(entries[i], entries[j])
  {
    hide Lower, Directory, IndexDocument;
    var group := Group(entries, Lower(entries[i].path), |entries|);
    GroupHas(entries, Lower(entries[i].path), |entries|, i);
    GroupHas(entries, Lower(entries[i].path), |entries|, j);
    var a :| 0 <= a < |group| && group[a] == i;
    var b :| 0 <= b < |group| && group[b] == j;
  }

  lemma FineIff(entries: seq<Entry>, lower: string)
    ensures Fine(entries, lower) <==> !SharedPath(entries, lower)
  {
    hide Lower, Directory, IndexDocument;
    var group := Group(entries, lower, |entries|);
    GroupAscends(entries, lower, |entries|);
    if SharedPath(entries, lower) {
      var i, j :| 0 <= i < j < |entries| && Lower(entries[i].path) == lower && Lower(entries[j].path) == lower
                  && !SameDirectoryIndices(entries[i], entries[j]);
      PairFine(entries, i, j);
    } else if |group| > 1 {
      assert SameDirectoryIndices(entries[group[0]], entries[group[1]]);
    }
  }

  lemma UnlistedFine(entries: seq<Entry>, paths: map<string, seq<nat>>, lower: string)
    requires forall i :: 0 <= i < |entries| ==> Lower(entries[i].path) in paths
    requires lower !in paths
    ensures Fine(entries, lower)
  {
  }

  lemma {:induction false} GroupAscends(entries: seq<Entry>, lower: string, n: nat)
    requires n <= |entries|
    ensures forall j, k :: 0 <= j < k < |Group(entries, lower, n)| ==>
              Group(entries, lower, n)[j] < Group(entries, lower, n)[k]
  {
    if n > 0 { GroupAscends(entries, lower, n - 1); }
  }

  /** What a group of several entries reports, if it is not exempt. */
  method GroupIssue(entries: seq<Entry>, group: seq<nat>, ghost lower: string) returns (issue: Option<Collision>)
    requires |group| > 1 && group == Group(entries, lower, |entries|)
    ensures issue.None? <==> Exempt(entries, group)
    ensures issue.Some? ==> Real(entries, issue.value) && Lower(issue.value.first) == lower
  {
    hide Lower, IndexDocument, Directory;
    var first := entries[group[0]];
    var exempt, k := true, 0;
    while k < |group| && exempt
      invariant 0 <= k <= |group|
      invariant exempt <==> forall j :: 0 <= j < k ==> SameDirectoryIndices(entries[group[j]], first)
    {
      exempt := SameDirectoryIndices(entries[group[k]], first);
      k := k + 1;
    }
    if exempt { return None; }
    var second := first.path;
    k := 0;
    while k < |group| && second == first.path
      invariant 0 <= k <= |group|
      invariant Lower(second) == lower && Spelled(entries, second)
    {
      second := entries[group[k]].path;
      k := k + 1;
    }
    issue := Some(Collision(if second != first.path then CaseCollision else DuplicatePath, first.path, second));
  }

  lemma ReportsMore(entries: seq<Entry>, issues: seq<Collision>, reported: set<string>, issue: Collision)
    requires Reports(entries, issues, reported) && Real(entries, issue) && Lower(issue.first) !in reported
    ensures Reports(entries, issues + [issue], reported + {Lower(issue.first)})
  {
    hide Lower, Real;
    var all := issues + [issue];
    forall lower
      ensures ReportedAt(all, lower) <==> ReportedAt(issues, lower) || lower == Lower(issue.first)
    {
      assert all[|issues|] == issue;
      if i :| 0 <= i < |issues| && Lower(issues[i].first) == lower { assert Lower(all[i].first) == lower; }
    }
    forall i | 0 <= i < |issues|
      ensures Lower(issues[i].first) != Lower(issue.first)
    {
      assert ReportedAt(issues, Lower(issues[i].first));
    }
  }

  /** The first loop of `collisions`: one report for every path that is not exempt. */
  method PathCollisions(entries: seq<Entry>) returns (issues: seq<Collision>, reported: set<string>)
    ensures Reports(entries, issues, reported)
    ensures forall lower :: lower in reported <==> SharedPath(entries, lower)
  {
    hide Lower, Real, Reports, Exempt, Group, SharedPath;
    var paths := Grouped(entries);
    var remaining := paths.Keys;
    issues, reported := [], {};
    NoReports(entries);
    while remaining != {}
      invariant remaining <= paths.Keys && reported <= paths.Keys - remaining
      invariant Reports(entries, issues, reported)
      invariant forall lower :: lower in paths.Keys - remaining ==> (lower in reported <==> !Fine(entries, lower))
      decreases |remaining|
    {
      var lower :| lower in remaining;
      remaining := remaining - {lower};
      if |paths[lower]| > 1 {
        var issue := GroupIssue(entries, paths[lower], lower);
        if issue.Some? {
          ReportsMore(entries, issues, reported, issue.value);
          issues := issues + [issue.value];
          reported := reported + {lower};
        }
      }
    }
    forall lower
      ensures lower in reported <==> SharedPath(entries, lower)
    {
      if lower !in paths { UnlistedFine(entries, paths, lower); }
      FineIff(entries, lower);
    }
  }

  lemma NoReports(entries: seq<Entry>)
    ensures Reports(entries, [], {})
  {
  }

  // ----- folders -----

  method Owners(entries: seq<Entry>) returns (owners: map<string, nat>)
    ensures forall lower :: lower in owners ==> Owns(entries, owners[lower], lower)
    ensures forall o, lower :: Owns(entries, o, lower) ==> lower in owners && owners[lower] == o
  {
    hide Lower;
    owners := map[];
    for k := 0 to |entries|
      invariant forall lower :: lower in owners ==> Owns(entries[..k], owners[lower], lower)
      invariant forall i :: 0 <= i < k ==> Lower(entries[i].path) in owners
    {
      owners := owners[Lower(entries[k].path) := k];
    }
    assert entries[..|entries|] == entries;
  }

  /** The folders already looked at: those of earlier entries, and this entry's beyond `rest`. */
  ghost predicate Done(entries: seq<Entry>, k: nat, rest: string, i: int, p: string) {
    IsFolder(entries, i, p) && (i < k || (i == k && !Folder(rest, p)))
  }

  /** Every owner of a folder may hold an entry below it. */
  ghost predicate Allowed(entries: seq<Entry>, i: int, p: string)
    requires 0 <= i < |entries|
  {
    forall o :: Owns(entries, o, Lower(p)) ==> MayHold(entries[o], p, entries[i])
  }

  /** Each listed folder is some entry's. */
  ghost predicate Known(entries: seq<Entry>, folders: map<string, string>) {
    forall lower :: lower in folders ==>
      Lower(folders[lower]) == lower && exists i :: IsFolder(entries, i, folders[lower])
  }

  ghost predicate Looked(entries: seq<Entry>, i: int, p: string, folders: map<string, string>, reported: set<string>)
    requires 0 <= i < |entries|
  {
    Lower(p) in folders && (Lower(p) !in reported ==> folders[Lower(p)] == p && Allowed(entries, i, p))
  }

  /** The folder loop's state: each folder's first spelling, and what the walk has shown. */
  ghost predicate Walked(entries: seq<Entry>, k: nat, rest: string, folders: map<string, string>,
                         issues: seq<Collision>, reported: set<string>)
  {
    && Reports(entries, issues, reported) && Known(entries, folders)
    && (forall i, p :: Done(entries, k, rest, i, p) ==> Looked(entries, i, p, folders, reported))
    && (forall lower :: lower in reported ==> Clashes(entries, lower))
  }

  lemma DoneStep(entries: seq<Entry>, k: nat, rest: string, i: int, p: string)
    requires k < |entries| && (rest == entries[k].path || Folder(entries[k].path, rest)) && Parent(rest).Some?
    ensures IsFolder(entries, k, Parent(rest).value)
    ensures Done(entries, k, Parent(rest).value, i, p) <==>
            Done(entries, k, rest, i, p) || (i == k && p == Parent(rest).value)
  {
    ParentIsLongest(rest, p);
    ParentIsLongest(rest, Parent(rest).value);
  }

  lemma WalkedStep(entries: seq<Entry>, k: nat, rest: string, folders: map<string, string>, issues: seq<Collision>,
                   reported: set<string>, folders': map<string, string>, issues': seq<Collision>,
                     reported': set<string>)
    requires k < |entries| && (rest == entries[k].path || Folder(entries[k].path, rest)) && Parent(rest).Some?
    requires Walked(entries, k, rest, folders, issues, reported)
    requires Reports(entries, issues', reported') && Known(entries, folders')
    requires (forall lower :: lower in folders ==> lower in folders' && folders'[lower] == folders[lower]) &&
             reported <= reported'
    requires Looked(entries, k, Parent(rest).value, folders', reported')
    requires forall lower :: lower in reported' ==> lower in reported || Clashes(entries, lower)
    ensures Walked(entries, k, Parent(rest).value, folders', issues', reported')
  {
    hide Lower, Folder, Parent, Reports, Known, Allowed, Clashes, Done;
    forall i, p | Done(entries, k, Parent(rest).value, i, p)
      ensures 0 <= i < |entries| && Looked(entries, i, p, folders', reported')
    {
      DoneStep(entries, k, rest, i, p);
      DoneIsFolder(entries, k, Parent(rest).value, i, p);
    }
  }

  lemma DoneIsFolder(entries: seq<Entry>, k: nat, rest: string, i: int, p: string)
    requires Done(entries, k, rest, i, p)
    ensures 0 <= i < |entries| && IsFolder(entries, i, p)
  {
  }

  /** Two spellings of one folder clash. */
  method Spelling(entries: seq<Entry>, k: nat, parent: string, folders0: map<string, string>, issues0: seq<Collision>,
                  reported0: set<string>)
    returns (folders: map<string, string>, issues: seq<Collision>, reported: set<string>)
    requires IsFolder(entries, k, parent) && Reports(entries, issues0, reported0) && Known(entries, folders0)
    ensures Reports(entries, issues, reported) && Known(entries, folders) && reported0 <= reported
    ensures forall lower :: lower in folders0 ==> lower in folders && folders[lower] == folders0[lower]
    ensures Lower(parent) in folders && (Lower(parent) !in reported ==> folders[Lower(parent)] == parent)
    ensures forall lower :: lower in reported ==> lower in reported0 || TwoSpellings(entries, lower)
  {
    hide Lower, Folder, Reports;
    folders, issues, reported := folders0, issues0, reported0;
    var lower := Lower(parent);
    if lower in folders {
      var spelling := folders[lower];
      if spelling != parent {
        if lower !in reported {
          ReportsMore(entries, issues, reported, Collision(CaseCollision, spelling, parent));
          reported := reported + {lower};
          issues := issues + [Collision(CaseCollision, spelling, parent)];
        }
      }
    } else {
      folders := folders[lower := parent];
    }
  }

  /** An owner of a folder that may not hold the entry below it clashes. */
  method Ownership(entries: seq<Entry>, owners: map<string, nat>, k: nat, parent: string, issues0: seq<Collision>,
                   reported0: set<string>)
    returns (issues: seq<Collision>, reported: set<string>)
    requires IsFolder(entries, k, parent) && Reports(entries, issues0, reported0)
    requires forall lower :: lower in owners ==> Owns(entries, owners[lower], lower)
    requires forall o, lower :: Owns(entries, o, lower) ==> lower in owners && owners[lower] == o
    ensures Reports(entries, issues, reported) && reported0 <= reported
    ensures Lower(parent) !in reported ==> Allowed(entries, k, parent)
    ensures forall lower :: lower in reported ==> lower in reported0 || Misplaced(entries, lower)
  {
    hide Lower, Folder, Reports;
    issues, reported := issues0, reported0;
    var lower := Lower(parent);
    if lower in owners {
      var owner := entries[owners[lower]];
      if owner.path != parent || (!owner.isIndex && entries[k].variantOf != Some(parent)) {
        if lower !in reported {
          var issue := Collision(if owner.path != parent then CaseCollision else DuplicatePath, owner.path, parent);
          assert Spelled(entries, owner.path) && Spelled(entries, parent);
          ReportsMore(entries, issues, reported, issue);
          reported := reported + {lower};
          issues := issues + [issue];
        }
      }
    }
  }

  function Start(entries: seq<Entry>, k: nat): string {
    if k < |entries| then entries[k].path else ""
  }

  /** The loop over one entry's folders, from the longest to the shortest. */
  method WalkFolders(entries: seq<Entry>, owners: map<string, nat>, k: nat,
                     folders0: map<string, string>, issues0: seq<Collision>, reported0: set<string>)
    returns (folders: map<string, string>, issues: seq<Collision>, reported: set<string>)
    requires k < |entries| && Walked(entries, k, Start(entries, k), folders0, issues0, reported0)
    requires forall lower :: lower in owners ==> Owns(entries, owners[lower], lower)
    requires forall o, lower :: Owns(entries, o, lower) ==> lower in owners && owners[lower] == o
    ensures Walked(entries, k + 1, Start(entries, k + 1), folders, issues, reported) && reported0 <= reported
  {
    hide Lower, Folder, Parent, Reports, Known, Allowed, SharedPath, TwoSpellings, Misplaced, Done;
    folders, issues, reported := folders0, issues0, reported0;
    var rest := entries[k].path;
    var parent := Parent(rest);
    while parent.Some?
      invariant rest == entries[k].path || Folder(entries[k].path, rest)
      invariant parent == Parent(rest)
      invariant Walked(entries, k, rest, folders, issues, reported) && reported0 <= reported
      decreases |rest|
    {
      DoneStep(entries, k, rest, k, parent.value);
      ghost var before, listed, known := issues, reported, folders;
      folders, issues, reported := Spelling(entries, k, parent.value, folders, issues, reported);
      issues, reported := Ownership(entries, owners, k, parent.value, issues, reported);
      WalkedStep(entries, k, rest, known, before, listed, folders, issues, reported);
      assert IsFolder(entries, k, parent.value);
      FolderOf(entries, k, rest, parent.value);
      rest := parent.value;
      parent := Parent(rest);
    }
    WalkedEntry(entries, k, rest, folders, issues, reported);
  }

  lemma FolderOf(entries: seq<Entry>, k: nat, rest: string, p: string)
    requires IsFolder(entries, k, p)
    ensures k < |entries| && Folder(entries[k].path, p)
  {
  }

  lemma WalkedEntry(entries: seq<Entry>, k: nat, rest: string, folders: map<string, string>, issues: seq<Collision>,
                    reported: set<string>)
    requires Walked(entries, k, rest, folders, issues, reported) && Parent(rest).None?
    ensures Walked(entries, k + 1, Start(entries, k + 1), folders, issues, reported)
  {
    hide Lower, Reports, Known, Looked, Clashes;
    var (k', rest') := (k + 1, Start(entries, k + 1));
    forall i, p | Done(entries, k', rest', i, p)
      ensures 0 <= i < |entries| && Looked(entries, i, p, folders, reported)
    {
      ParentIsLongest(rest, p);
      assert Done(entries, k, rest, i, p);
    }
  }

  /** After the walk, what is not reported does not clash. */
  lemma WalkedAll(entries: seq<Entry>, folders: map<string, string>, issues: seq<Collision>, reported: set<string>,
                  lower: string)
    requires Walked(entries, |entries|, "", folders, issues, reported) && lower !in reported
    ensures !TwoSpellings(entries, lower) && !Misplaced(entries, lower)
  {
    hide Lower, Reports, Known, IsFolder, Clashes, MayHold;
    forall i, p | IsFolder(entries, i, p)
      ensures 0 <= i < |entries| && Looked(entries, i, p, folders, reported)
    {
      FolderDone(entries, i, p);
      DoneIsFolder(entries, |entries|, "", i, p);
    }
  }

  lemma FolderDone(entries: seq<Entry>, i: int, p: string)
    requires IsFolder(entries, i, p)
    ensures Done(entries, |entries|, "", i, p)
  {
  }

  /** `collisions`: one report for each lower-case path or folder that clashes, and no other. */
  method Collisions(entries: seq<Entry>) returns (issues: seq<Collision>)
    ensures forall lower :: ReportedAt(issues, lower) <==> Clashes(entries, lower)
    ensures forall i :: 0 <= i < |issues| ==> Real(entries, issues[i])
    ensures forall i, j :: 0 <= i < j < |issues| ==> Lower(issues[i].first) != Lower(issues[j].first)
    ensures issues == [] <==> NoCollisions(entries)
  {
    hide Lower, Real, Walked, SharedPath, TwoSpellings, Misplaced, NoCollisions;
    var reported: set<string>;
    issues, reported := PathCollisions(entries);
    var owners := Owners(entries);
    var folders: map<string, string> := map[];
    ghost var shared := reported;
    NothingWalked(entries, issues, reported);
    for k := 0 to |entries|
      invariant Walked(entries, k, Start(entries, k), folders, issues, reported) && shared <= reported
    {
      folders, issues, reported := WalkFolders(entries, owners, k, folders, issues, reported);
    }
    WalkedReports(entries, folders, issues, reported);
    forall lower
      ensures ReportedAt(issues, lower) <==> Clashes(entries, lower)
    {
      if lower !in reported { WalkedAll(entries, folders, issues, reported, lower); }
    }
    NoClashes(entries);
    assert issues != [] ==> ReportedAt(issues, Lower(issues[0].first));
  }

  lemma NothingWalked(entries: seq<Entry>, issues: seq<Collision>, reported: set<string>)
    requires Reports(entries, issues, reported)
    requires forall lower :: lower in reported <==> SharedPath(entries, lower)
    ensures Walked(entries, 0, Start(entries, 0), map[], issues, reported)
  {
  }

  lemma WalkedReports(entries: seq<Entry>, folders: map<string, string>, issues: seq<Collision>, reported: set<string>)
    requires Walked(entries, |entries|, "", folders, issues, reported)
    ensures Reports(entries, issues, reported) && forall lower :: lower in reported ==> Clashes(entries, lower)
  {
  }

  // ----- what a clean catalogue promises -----

  /** Each index document is read from an index file of its own. */
  ghost predicate FromFiles(entries: seq<Entry>, files: seq<SourceFile>, origin: seq<nat>) {
    && |origin| == |entries|
    && (forall i :: 0 <= i < |entries| && IndexDocument(entries[i]) ==>
          origin[i] < |files| && IndexFile(files[origin[i]]) && files[origin[i]].path == entries[i].source)
    && (forall i, j :: 0 <= i < j < |entries| && IndexDocument(entries[i]) && IndexDocument(entries[j]) ==>
          origin[i] != origin[j])
  }

  lemma OwnFiles(entries: seq<Entry>, files: seq<SourceFile>, origin: seq<nat>, i: nat, j: nat)
    requires OneIndexPerDirectory(files) && FromFiles(entries, files, origin)
    requires i < j < |entries| && IndexDocument(entries[i]) && IndexDocument(entries[j])
    ensures Directory(entries[i].source) != Directory(entries[j].source)
  {
    hide IndexFile, Directory;
    var (a, b) := (origin[i], origin[j]);
    assert a < b || b < a;
  }

  /** With no report from either check, identities are unique: paths differ beyond letter case, folders have
      one spelling, and an entry at another's folder is an index or that variant's parent. */
  lemma CleanIdentity(entries: seq<Entry>, files: seq<SourceFile>, origin: seq<nat>)
    requires NoCollisions(entries) && OneIndexPerDirectory(files) && FromFiles(entries, files, origin)
    ensures forall i, j :: 0 <= i < j < |entries| ==> Lower(entries[i].path) != Lower(entries[j].path)
    ensures OneSpelling(entries)
    ensures forall i, o, p :: IsFolder(entries, i, p) && 0 <= o < |entries| && Lower(entries[o].path) == Lower(p) ==>
              MayHold(entries[o], p, entries[i])
  {
    hide Lower, IndexFile, Directory, Folder;
    forall i, j | 0 <= i < j < |entries|
      ensures Lower(entries[i].path) != Lower(entries[j].path)
    {
      if Lower(entries[i].path) == Lower(entries[j].path) {
        assert SameDirectoryIndices(entries[i], entries[j]);
        OwnFiles(entries, files, origin, i, j);
      }
    }
    assert forall o :: 0 <= o < |entries| ==> Owns(entries, o, Lower(entries[o].path));
  }
}

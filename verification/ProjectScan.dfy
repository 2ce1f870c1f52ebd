/**
 The bounded breadth-first scan of a project (CodebaseModel.scan in packages/education/src/project-model.ts)
 and what its `truncated` flag means. A path is its sequence of names; the depth of a directory is their number.
 */
module ProjectScan {
  import opened Common
  import Sorting

  type Path = seq<string>

  /**
   The sandbox at one moment. Without a listing capability nothing can be listed; without stat a name
   without a dot counts as a directory; a failing stat counts as "not a directory".
   */
  datatype World = World(
    hasListing: bool, list: Path -> Option<seq<string>>,
    hasStat: bool, stat: Path -> bool,
    excluded: string -> bool)

  const MAX_VISITS := 60
  const MAX_FILES := 1200
  const MAX_QUEUE := 1200
  const MAX_DIRECTORIES := 240
  const MAX_NAMES := 200
  const MAX_DEPTH := 3

  predicate Kept(w: World, name: string) {
    !w.excluded(name) && !(name != "" && name[0] == '.') && '/' !in name && '\\' !in name
  }

  predicate IsDirectory(w: World, p: Path)
    requires p != []
  {
    if w.hasStat then w.stat(p) else '.' !in p[|p| - 1]
  }

  /** JavaScript's default order of strings. */
  predicate StringLeq(a: string, b: string) {
    a == "" || (b != "" && (a[0] < b[0] || (a[0] == b[0] && StringLeq(a[1..], b[1..]))))
  }

  function Considered(names: seq<string>): seq<string> {
    Take(Sorting.Sort(StringLeq, names), MAX_NAMES)
  }

  /** The kept names of one directory, as paths: its directories, or everything else. */
  function Children(w: World, d: Path, names: seq<string>, directories: bool): seq<Path> {
    if names == [] then [] else
    var name := names[|names| - 1];
    Children(w, d, names[..|names| - 1], directories)
    + if Kept(w, name) && IsDirectory(w, d + [name]) == directories then [d + [name]] else []
  }

  /** What listing one directory leaves unread. */
  predicate Exceeds(w: World, d: Path, names: seq<string>, files: seq<Path>, directories: seq<Path>, queue: seq<Path>) {
    || |files| + |Children(w, d, names, false)| > MAX_FILES
    || |directories| + |Children(w, d, names, true)| > MAX_DIRECTORIES
    || (Children(w, d, names, true) != [] && |d| >= MAX_DEPTH)
    || |queue| + |Children(w, d, names, true)| > MAX_QUEUE
  }

  function Enqueued(w: World, d: Path, names: seq<string>, queue: seq<Path>): seq<Path> {
    if |d| < MAX_DEPTH then Take(queue + Children(w, d, names, true), MAX_QUEUE) else queue
  }

  /** One entry of a directory: pushed where there is room, otherwise flagged. */
  method AddEntry(w: World, d: Path, name: string, files: seq<Path>, directories: seq<Path>, queue: seq<Path>)
    returns (files': seq<Path>, directories': seq<Path>, queue': seq<Path>, truncated: bool)
    requires |files| <= MAX_FILES && |directories| <= MAX_DIRECTORIES && |queue| <= MAX_QUEUE
    ensures files' == Take(files + Children(w, d, [name], false), MAX_FILES)
    ensures directories' == Take(directories + Children(w, d, [name], true), MAX_DIRECTORIES)
    ensures queue' == Enqueued(w, d, [name], queue)
    ensures truncated <==> Exceeds(w, d, [name], files, directories, queue)
  {
    files', directories', queue', truncated := files, directories, queue, false;
    ChildrenOfOne(w, d, name);
    if !Kept(w, name) { return; }
    if IsDirectory(w, d + [name]) {
      if |directories| < MAX_DIRECTORIES { directories' := directories + [d + [name]]; } else { truncated := true; }
      if |d| < MAX_DEPTH && |queue| < MAX_QUEUE { queue' := queue + [d + [name]]; } else { truncated := true; }
    } else if |files| < MAX_FILES {
      files' := files + [d + [name]];
    } else {
      truncated := true;
    }
  }

  lemma ChildrenOfOne(w: World, d: Path, name: string)
    ensures forall k :: Children(w, d, [name], k) == if Kept(w, name) && IsDirectory(w, d + [name]) == k
              then [d + [name]] else []
  {
    assert forall k :: Children(w, d, [name][..0], k) == [];
  }

  lemma TakeTwice<T>(a: seq<T>, b: seq<T>, c: seq<T>, n: nat)
    ensures Take(Take(a + b, n) + c, n) == Take(a + (b + c), n)
  {
    assert a + (b + c) == (a + b) + c;
  }

  lemma ChildrenSnoc(w: World, d: Path, names: seq<string>, i: nat, k: bool)
    requires i < |names|
    ensures Children(w, d, names[..i + 1], k) == Children(w, d, names[..i], k) + Children(w, d, [names[i]], k)
  {
    assert names[..i + 1][..i] == names[..i];
    ChildrenOfOne(w, d, names[i]);
  }

  method ListDirectory(w: World, d: Path, names: seq<string>, files: seq<Path>, directories: seq<Path>,
                       queue: seq<Path>)
    returns (files': seq<Path>, directories': seq<Path>, queue': seq<Path>, truncated: bool)
    requires |files| <= MAX_FILES && |directories| <= MAX_DIRECTORIES && |queue| <= MAX_QUEUE
    ensures files' == Take(files + Children(w, d, names, false), MAX_FILES)
    ensures directories' == Take(directories + Children(w, d, names, true), MAX_DIRECTORIES)
    ensures queue' == Enqueued(w, d, names, queue)
    ensures truncated <==> Exceeds(w, d, names, files, directories, queue)
  {
    files', directories', queue', truncated := files, directories, queue, false;
    for i := 0 to |names|
      invariant files' == Take(files + Children(w, d, names[..i], false), MAX_FILES)
      invariant directories' == Take(directories + Children(w, d, names[..i], true), MAX_DIRECTORIES)
      invariant queue' == Enqueued(w, d, names[..i], queue)
      invariant truncated <==> Exceeds(w, d, names[..i], files, directories, queue)
    {
      ChildrenSnoc(w, d, names, i, true);
      ChildrenSnoc(w, d, names, i, false);
      TakeTwice(files, Children(w, d, names[..i], false), Children(w, d, [names[i]], false), MAX_FILES);
      TakeTwice(directories, Children(w, d, names[..i], true), Children(w, d, [names[i]], true), MAX_DIRECTORIES);
      TakeTwice(queue, Children(w, d, names[..i], true), Children(w, d, [names[i]], true), MAX_QUEUE);
      var more;
      files', directories', queue', more := AddEntry(w, d, names[i], files', directories', queue');
      truncated := truncated || more;
    }
    assert names[..|names|] == names;
  }

  datatype Listing = Listing(files: seq<Path>, directories: seq<Path>, truncated: bool, errors: seq<Path>)

  /** The breadth-first loop: it stops with an empty queue, at a limit, or when nothing can be listed. */
  method Walk(w: World)
    returns (queue: seq<Path>, files: seq<Path>, directories: seq<Path>, truncated: bool, errors: seq<Path>,
        ghost visited: seq<Path>)
    requires NamesDistinct(w)
    ensures |visited| <= MAX_VISITS && BreadthFirst(queue, files)
    ensures Inv(w, Scan(visited, queue, files, directories, truncated, errors))
    ensures queue == [] || |visited| >= MAX_VISITS || |files| >= MAX_FILES || errors != []
  {
    files, directories, truncated, errors, queue := [], [], false, [], [[]];
    visited := [];
    var visits := 0;
    StartInv(w);
    while queue != [] && visits < MAX_VISITS && |files| < MAX_FILES
      invariant |visited| == visits <= MAX_VISITS
      invariant Inv(w, Scan(visited, queue, files, directories, truncated, errors))
      invariant BreadthFirst(queue, files)
      decreases MAX_VISITS - visits
    {
      ghost var before := Scan(visited, queue, files, directories, truncated, errors);
      var d := queue[0];
      queue := queue[1..];
      visited := visited + [d];
      visits := visits + 1;
      if !w.hasListing || w.list(d).None? {
        FailedVisit(w, before);
        errors := errors + [d];
        if !w.hasListing { return; }
        continue;
      }
      var names := w.list(d).value;
      var more;
      files, directories, queue, more := ListDirectory(w, d, Considered(names), files, directories, queue);
      truncated := truncated || |names| > MAX_NAMES || more;
      VisitKeepsOrder(w, before, Scan(visited, queue, files, directories, truncated, errors));
      VisitKeepsInv(w, before, Scan(visited, queue, files, directories, truncated, errors));
    }
  }

  /**
   The scan. Unless it says it was truncated or met an error, it has found exactly the files and directories of the
   tree; and short of the limit on files it says it was truncated exactly when the tree exceeds a limit.
   */
  method ScanTree(w: World) returns (r: Listing, ghost visited: seq<Path>)
    requires NamesDistinct(w)
    ensures |visited| <= MAX_VISITS && |r.files| <= MAX_FILES && |r.directories| <= MAX_DIRECTORIES
    ensures Sound(w, r.files, r.directories) && ShallowFirst(r.files)
    ensures !r.truncated && r.errors == [] ==> CoversTree(w, r.files, r.directories)
    ensures r.errors == [] && |r.files| < MAX_FILES ==> (r.truncated <==> !FitsLimits(w))
    ensures FitsLimits(w) ==> |r.files| < MAX_FILES
    ensures forall e :: e in r.errors ==> ReachableDirectory(w, e) && (!w.hasListing || w.list(e).None?)
  {
    var queue, files, directories, truncated, errors;
    queue, files, directories, truncated, errors, visited := Walk(w);
    ghost var last := Scan(visited, queue, files, directories, truncated, errors);
    ScanEnds(w, last);
    FewFiles(w, last);
    r := Listing(files, directories, truncated || queue != [], errors);
  }

  // ----- The tree a scan should find -----

  ghost predicate NamesDistinct(w: World) {
    forall p :: w.list(p).Some? ==> NoRepeats(w.list(p).value)
  }

  /** p is listed, under a kept name, in a directory reachable from the root. */
  ghost predicate Present(w: World, p: Path)
    decreases |p|, 0
  {
    && p != [] && ReachableDirectory(w, p[..|p| - 1])
    && w.list(p[..|p| - 1]).Some? && p[|p| - 1] in w.list(p[..|p| - 1]).value && Kept(w, p[|p| - 1])
  }

  ghost predicate ReachableDirectory(w: World, p: Path)
    decreases |p|, 1
  {
    p == [] || (Present(w, p) && IsDirectory(w, p))
  }

  ghost predicate ReachableFile(w: World, p: Path) {
    Present(w, p) && !IsDirectory(w, p)
  }

  ghost predicate Sound(w: World, files: seq<Path>, directories: seq<Path>) {
    && NoRepeats(files) && (forall p :: p in files ==> ReachableFile(w, p))
    && NoRepeats(directories) && (forall p :: p in directories ==> p != [] && ReachableDirectory(w, p))
  }

  ghost predicate ShallowFirst(paths: seq<Path>) {
    forall i, j :: 0 <= i < j < |paths| ==> |paths[i]| <= |paths[j]|
  }

  ghost predicate CoversTree(w: World, files: seq<Path>, directories: seq<Path>) {
    && (forall p :: p in files <==> ReachableFile(w, p))
    && (forall p :: p in directories <==> p != [] && ReachableDirectory(w, p))
  }

  /** The tree stays within every limit of the scan. */
  ghost predicate FitsLimits(w: World) {
    exists dirs: seq<Path>, files: seq<Path> :: WithinLimits(w, dirs, files)
  }

  ghost predicate WithinLimits(w: World, dirs: seq<Path>, files: seq<Path>) {
    && |dirs| <= MAX_VISITS && |files| < MAX_FILES && NoRepeats(dirs) && NoRepeats(files)
    && (forall d :: ReachableDirectory(w, d) ==> d in dirs && |d| <= MAX_DEPTH)
    && (forall p :: ReachableFile(w, p) ==> p in files)
    && (forall d :: ReachableDirectory(w, d) && w.list(d).Some? ==> |w.list(d).value| <= MAX_NAMES)
  }

  // ----- The loop's invariant -----

  datatype Scan = Scan(visited: seq<Path>, queue: seq<Path>, files: seq<Path>, directories: seq<Path>, truncated: bool,
      errors: seq<Path>)

  function Init(p: Path): Path {
    if p == [] then [] else p[..|p| - 1]
  }

  /** Everything found hangs from a visited directory; nothing is queued, visited or found twice. */
  ghost predicate Shape(w: World, s: Scan) {
    && |s.files| <= MAX_FILES && |s.directories| <= MAX_DIRECTORIES && |s.queue| <= MAX_QUEUE
    && Sound(w, s.files, s.directories)
    && NoRepeats(s.visited + s.queue)
    && (forall p :: p in s.visited + s.queue ==>
        ReachableDirectory(w, p) && |p| <= MAX_DEPTH && (p == [] || Init(p) in s.visited))
    && (forall p :: p in s.files || p in s.directories ==> Init(p) in s.visited)
    && (forall e :: e in s.errors ==> ReachableDirectory(w, e) && (!w.hasListing || w.list(e).None?))
  }

  /** Nothing under a visited directory has been dropped. */
  ghost predicate Complete(w: World, s: Scan) {
    && [] in s.visited + s.queue
    && (forall d :: d in s.visited ==> ChildrenFound(w, s, d))
  }

  ghost predicate ChildrenFound(w: World, s: Scan, d: Path) {
    && w.list(d).Some? && |w.list(d).value| <= MAX_NAMES
    && (forall p :: p in Children(w, d, w.list(d).value, false) ==> p in s.files)
    && (forall p :: p in Children(w, d, w.list(d).value, true) ==> p in s.directories && p in s.visited + s.queue)
  }

  ghost predicate Inv(w: World, s: Scan) {
    && Shape(w, s)
    && (!s.truncated && s.errors == [] ==> Complete(w, s))
    && (s.truncated ==> !FitsLimits(w))
  }

  lemma StartInv(w: World)
    ensures Inv(w, Scan([], [[]], [], [], false, []))
  {
    var s := Scan([], [[]], [], [], false, []);
    assert s.visited + s.queue == [[]];
  }

  lemma {:induction false} ChildrenAre(w: World, d: Path, names: seq<string>, directories: bool, p: Path)
    ensures p in Children(w, d, names, directories) <==>
              p != [] && Init(p) == d && p[|p| - 1] in names && Kept(w, p[|p| - 1]) && IsDirectory(w, p) == directories
  {
    if names != [] {
      var name := names[|names| - 1];
      ChildrenAre(w, d, names[..|names| - 1], directories, p);
      assert names == names[..|names| - 1] + [name];
      if p != [] && Init(p) == d && p[|p| - 1] == name { assert p == d + [name]; }
    }
  }

  lemma {:induction false} ChildrenDistinct(w: World, d: Path, names: seq<string>, directories: bool)
    requires NoRepeats(names)
    ensures NoRepeats(Children(w, d, names, directories))
  {
    if names != [] {
      var init := names[..|names| - 1];
      ChildrenDistinct(w, d, init, directories);
      ChildrenAre(w, d, init, directories, d + [names[|names| - 1]]);
    }
  }

  lemma ConsideredAre(names: seq<string>)
    requires NoRepeats(names)
    ensures NoRepeats(Considered(names))
    ensures forall n :: n in Considered(names) ==> n in names
    ensures |names| <= MAX_NAMES ==> forall n :: n in names ==> n in Considered(names)
  {
    var sorted := Sorting.Sort(StringLeq, names);
    Sorting.SortMultiset(StringLeq, names);
    NoRepeatsByContents(names, sorted);
    forall n ensures n in sorted <==> n in names {
      assert n in multiset(sorted) <==> n in multiset(names);
    }
  }

  lemma AppendNoRepeats<T(!new)>(a: seq<T>, b: seq<T>)
    requires NoRepeats(a) && NoRepeats(b) && forall x :: x in b ==> x !in a
    ensures NoRepeats(a + b)
  {
    forall i, j | 0 <= i < j < |a + b| ensures (a + b)[i] != (a + b)[j] {
      if i < |a| <= j { assert b[j - |a|] in b; }
    }
  }

  lemma TakeAppend<T>(s: seq<T>, t: seq<T>, n: nat)
    requires |s| <= n
    ensures Take(s + t, n) == s + Take(t, n - |s|)
  {
  }

  lemma TakeNoRepeats<T(!new)>(s: seq<T>, n: nat)
    requires NoRepeats(s)
    ensures NoRepeats(Take(s, n)) && forall x :: x in Take(s, n) ==> x in s
  {
  }

  lemma SplitHead<T>(a: seq<T>, b: seq<T>)
    requires b != []
    ensures a + b == a + [b[0]] + b[1..]
  {
  }

  lemma HeadIsApart<T(!new)>(a: seq<T>, b: seq<T>)
    requires NoRepeats(a + b) && b != []
    ensures b[0] !in a && b[0] in a + b
  {
    assert (a + b)[|a|] == b[0];
    assert forall i :: 0 <= i < |a| ==> (a + b)[i] == a[i];
  }

  /** The next directory in the queue has not been visited. */
  lemma HeadIsNew(w: World, s: Scan)
    requires Shape(w, s) && s.queue != []
    ensures s.queue[0] !in s.visited && ReachableDirectory(w, s.queue[0])
    ensures s.visited + s.queue == s.visited + [s.queue[0]] + s.queue[1..]
  {
    SplitHead(s.visited, s.queue);
    HeadIsApart(s.visited, s.queue);
  }

  /** One visit, of a directory that could be listed. */
  ghost predicate Visit(w: World, s: Scan, s': Scan) {
    && s.queue != [] && w.list(s.queue[0]).Some?
    && var d := s.queue[0];
       var names := w.list(d).value;
       && s'.visited == s.visited + [d] && s'.errors == s.errors
       && s'.files == Take(s.files + Children(w, d, Considered(names), false), MAX_FILES)
       && s'.directories == Take(s.directories + Children(w, d, Considered(names), true), MAX_DIRECTORIES)
       && s'.queue == Enqueued(w, d, Considered(names), s.queue[1..])
       && (s'.truncated <==>
           s.truncated || |names| > MAX_NAMES || Exceeds(w, d, Considered(names), s.files, s.directories, s.queue[1..]))
  }

  /** What a listing gives is present in the tree, and new. */
  lemma ChildrenAreNew(w: World, s: Scan, directories: bool)
    requires NamesDistinct(w) && Shape(w, s) && s.queue != [] && w.list(s.queue[0]).Some?
    ensures NoRepeats(Children(w, s.queue[0], Considered(w.list(s.queue[0]).value), directories))
    ensures forall p :: p in Children(w, s.queue[0], Considered(w.list(s.queue[0]).value), directories) ==>
              Present(w, p) && IsDirectory(w, p) == directories && Init(p) == s.queue[0]
              && p !in s.files && p !in s.directories && p !in s.visited + s.queue
  {
    var d := s.queue[0];
    var names := w.list(d).value;
    HeadIsNew(w, s);
    ConsideredAre(names);
    ChildrenDistinct(w, d, Considered(names), directories);
    forall p | p in Children(w, d, Considered(names), directories)
      ensures Present(w, p) && IsDirectory(w, p) == directories && Init(p) == d
              && p !in s.files && p !in s.directories && p !in s.visited + s.queue {
      ChildrenAre(w, d, Considered(names), directories, p);
      assert p[..|p| - 1] == d;
    }
  }

  lemma Grow(found: seq<Path>, children: seq<Path>, n: nat)
    requires |found| <= n && NoRepeats(found) && NoRepeats(children) && forall p :: p in children ==> p !in found
    ensures NoRepeats(Take(found + children, n)) && |Take(found + children, n)| <= n
    ensures forall p :: p in found ==> p in Take(found + children, n)
    ensures forall p :: p in Take(found + children, n) ==> p in found || p in children
    ensures |found| + |children| <= n ==> Take(found + children, n) == found + children
  {
    TakeAppend(found, children, n);
    TakeNoRepeats(children, n - |found|);
    AppendNoRepeats(found, Take(children, n - |found|));
  }

  lemma VisitKeepsFound(w: World, s: Scan, s': Scan)
    requires NamesDistinct(w) && Shape(w, s) && Visit(w, s, s')
    ensures |s'.files| <= MAX_FILES && |s'.directories| <= MAX_DIRECTORIES
    ensures Sound(w, s'.files, s'.directories)
    ensures forall p :: p in s'.files || p in s'.directories ==> Init(p) in s'.visited
  {
    var d := s.queue[0];
    var names := Considered(w.list(d).value);
    ChildrenAreNew(w, s, false);
    ChildrenAreNew(w, s, true);
    Grow(s.files, Children(w, d, names, false), MAX_FILES);
    Grow(s.directories, Children(w, d, names, true), MAX_DIRECTORIES);
  }

  function NewInQueue(w: World, d: Path, names: seq<string>, queued: nat): seq<Path>
    requires queued <= MAX_QUEUE
  {
    if |d| < MAX_DEPTH then Take(Children(w, d, names, true), MAX_QUEUE - queued) else []
  }

  lemma EnqueuedIs(w: World, d: Path, names: seq<string>, queue: seq<Path>)
    requires |queue| <= MAX_QUEUE
    ensures Enqueued(w, d, names, queue) == queue + NewInQueue(w, d, names, |queue|)
  {
    TakeAppend(queue, Children(w, d, names, true), MAX_QUEUE);
  }

  /** Visited and queued directories together only grow, by children of the visited one. */
  lemma KnownGrows(w: World, s: Scan, s': Scan)
    requires NamesDistinct(w) && Shape(w, s) && Visit(w, s, s')
    ensures s'.visited + s'.queue
         == s.visited + s.queue + NewInQueue(w, s.queue[0], Considered(w.list(s.queue[0]).value), |s.queue| - 1)
    ensures |s'.queue| <= MAX_QUEUE
  {
    var names := Considered(w.list(s.queue[0]).value);
    var added := NewInQueue(w, s.queue[0], names, |s.queue| - 1);
    HeadIsNew(w, s);
    EnqueuedIs(w, s.queue[0], names, s.queue[1..]);
    NewInQueueIsShort(w, s.queue[0], names, |s.queue| - 1);
    Regroup(s.visited, s.queue[0], s.queue[1..], added);
  }

  lemma NewInQueueIsShort(w: World, d: Path, names: seq<string>, queued: nat)
    requires queued <= MAX_QUEUE
    ensures |NewInQueue(w, d, names, queued)| <= MAX_QUEUE - queued
  {
  }

  lemma Regroup<T>(a: seq<T>, x: T, b: seq<T>, c: seq<T>)
    ensures (a + [x]) + (b + c) == (a + [x] + b) + c
  {
  }

  lemma NewInQueueAre(w: World, s: Scan)
    requires NamesDistinct(w) && Shape(w, s) && s.queue != [] && w.list(s.queue[0]).Some?
    ensures var added := NewInQueue(w, s.queue[0], Considered(w.list(s.queue[0]).value), |s.queue| - 1);
            NoRepeats(added) && forall p :: p in added ==>
              ReachableDirectory(w, p) && |p| <= MAX_DEPTH && Init(p) == s.queue[0] && p !in s.visited + s.queue
  {
    ChildrenAreNew(w, s, true);
    TakeNoRepeats(Children(w, s.queue[0], Considered(w.list(s.queue[0]).value), true), MAX_QUEUE - (|s.queue| - 1));
  }

  lemma VisitKeepsQueue(w: World, s: Scan, s': Scan)
    requires NamesDistinct(w) && Shape(w, s) && Visit(w, s, s')
    ensures |s'.queue| <= MAX_QUEUE && NoRepeats(s'.visited + s'.queue)
    ensures forall p :: p in s'.visited + s'.queue ==>
              ReachableDirectory(w, p) && |p| <= MAX_DEPTH && (p == [] || Init(p) in s'.visited)
    ensures forall p :: p in s.visited + s.queue ==> p in s'.visited + s'.queue
  {
    var known, added := s.visited + s.queue,
        NewInQueue(w, s.queue[0], Considered(w.list(s.queue[0]).value), |s.queue| - 1);
    KnownGrows(w, s, s');
    NewInQueueAre(w, s);
    AppendNoRepeats(known, added);
    assert forall p :: p in known + added <==> p in known || p in added;
  }

  lemma VisitKeepsShape(w: World, s: Scan, s': Scan)
    requires NamesDistinct(w) && Shape(w, s) && Visit(w, s, s')
    ensures Shape(w, s')
  {
    VisitKeepsFound(w, s, s');
    VisitKeepsQueue(w, s, s');
  }

  lemma ConsideredChildren(w: World, d: Path, all: seq<string>, directories: bool, p: Path)
    requires NoRepeats(all) && |all| <= MAX_NAMES && p in Children(w, d, all, directories)
    ensures p in Children(w, d, Considered(all), directories)
  {
    ConsideredAre(all);
    ChildrenAre(w, d, all, directories, p);
    ChildrenAre(w, d, Considered(all), directories, p);
  }

  /** A visit that sets no flag has taken over every child. */
  lemma NothingDropped(w: World, s: Scan, s': Scan)
    requires NamesDistinct(w) && Shape(w, s) && Visit(w, s, s') && !s'.truncated
    ensures s'.files == s.files + Children(w, s.queue[0], Considered(w.list(s.queue[0]).value), false)
    ensures s'.directories == s.directories + Children(w, s.queue[0], Considered(w.list(s.queue[0]).value), true)
    ensures s'.queue == s.queue[1..] + Children(w, s.queue[0], Considered(w.list(s.queue[0]).value), true)
    ensures |w.list(s.queue[0]).value| <= MAX_NAMES
  {
  }

  lemma VisitedIsComplete(w: World, s: Scan, s': Scan)
    requires NamesDistinct(w) && Shape(w, s) && Visit(w, s, s') && !s'.truncated
    ensures ChildrenFound(w, s', s.queue[0])
    ensures forall p :: p in s.files ==> p in s'.files
    ensures forall p :: p in s.directories ==> p in s'.directories
  {
    NothingDropped(w, s, s');
    var d := s.queue[0];
    var all := w.list(d).value;
    forall p | p in Children(w, d, all, false) ensures p in s'.files {
      ConsideredChildren(w, d, all, false, p);
    }
    forall p | p in Children(w, d, all, true) ensures p in s'.directories && p in s'.visited + s'.queue {
      ConsideredChildren(w, d, all, true, p);
    }
  }

  lemma VisitKeepsComplete(w: World, s: Scan, s': Scan)
    requires NamesDistinct(w) && Shape(w, s) && Complete(w, s) && Visit(w, s, s') && !s'.truncated
    ensures Complete(w, s')
  {
    VisitKeepsQueue(w, s, s');
    VisitedIsComplete(w, s, s');
    forall d | d in s'.visited ensures ChildrenFound(w, s', d) {
      if d in s.visited {
        assert ChildrenFound(w, s, d);
      }
    }
  }

  lemma NoRepeatsWithin<T(!new)>(s: seq<T>, all: seq<T>)
    requires NoRepeats(s) && NoRepeats(all) && forall x :: x in s ==> x in all
    ensures |s| <= |all|
  {
    var domain := set x | x in all;
    PigeonHole(s, domain);
    SetOfSequence(all);
  }

  lemma FilesWithin(w: World, s: Scan, dirs: seq<Path>, all: seq<Path>)
    requires NamesDistinct(w) && Shape(w, s) && s.queue != [] && w.list(s.queue[0]).Some? && WithinLimits(w, dirs, all)
    ensures |s.files| + |Children(w, s.queue[0], Considered(w.list(s.queue[0]).value), false)| < MAX_FILES
  {
    var files := Children(w, s.queue[0], Considered(w.list(s.queue[0]).value), false);
    ChildrenAreNew(w, s, false);
    AppendNoRepeats(s.files, files);
    forall p | p in s.files + files ensures p in all { assert ReachableFile(w, p); }
    NoRepeatsWithin(s.files + files, all);
  }

  lemma DirectoriesWithin(w: World, s: Scan, found: seq<Path>, dirs: seq<Path>, all: seq<Path>)
    requires NamesDistinct(w) && Shape(w, s) && s.queue != [] && w.list(s.queue[0]).Some? && WithinLimits(w, dirs, all)
    requires found == s.directories || found == s.visited + s.queue
    ensures |found| + |Children(w, s.queue[0], Considered(w.list(s.queue[0]).value), true)| <= MAX_VISITS
  {
    var inner := Children(w, s.queue[0], Considered(w.list(s.queue[0]).value), true);
    ChildrenAreNew(w, s, true);
    AppendNoRepeats(found, inner);
    forall p | p in found + inner ensures p in dirs { assert ReachableDirectory(w, p); }
    NoRepeatsWithin(found + inner, dirs);
  }

  lemma ChildrenNotDeep(w: World, s: Scan, dirs: seq<Path>, all: seq<Path>)
    requires NamesDistinct(w) && Shape(w, s) && s.queue != [] && w.list(s.queue[0]).Some? && WithinLimits(w, dirs, all)
    ensures Children(w, s.queue[0], Considered(w.list(s.queue[0]).value), true) != [] ==> |s.queue[0]| < MAX_DEPTH
  {
    var inner := Children(w, s.queue[0], Considered(w.list(s.queue[0]).value), true);
    ChildrenAreNew(w, s, true);
    if inner != [] {
      assert inner[0] in inner;
      assert ReachableDirectory(w, inner[0]) && Init(inner[0]) == s.queue[0];
    }
  }

  /** In a tree within the limits no visit exceeds one. */
  lemma NothingExceeds(w: World, s: Scan)
    requires NamesDistinct(w) && Shape(w, s) && s.queue != [] && w.list(s.queue[0]).Some? && FitsLimits(w)
    ensures |w.list(s.queue[0]).value| <= MAX_NAMES
    ensures !Exceeds(w, s.queue[0], Considered(w.list(s.queue[0]).value), s.files, s.directories, s.queue[1..])
  {
    var dirs, all :| WithinLimits(w, dirs, all);
    HeadIsNew(w, s);
    FilesWithin(w, s, dirs, all);
    DirectoriesWithin(w, s, s.directories, dirs, all);
    DirectoriesWithin(w, s, s.visited + s.queue, dirs, all);
    ChildrenNotDeep(w, s, dirs, all);
  }

  lemma VisitKeepsInv(w: World, s: Scan, s': Scan)
    requires NamesDistinct(w) && Inv(w, s) && Visit(w, s, s')
    ensures Inv(w, s')
  {
    VisitKeepsShape(w, s, s');
    if !s'.truncated && s'.errors == [] { VisitKeepsComplete(w, s, s'); }
    if FitsLimits(w) { NothingExceeds(w, s); }
  }

  lemma FailedVisit(w: World, s: Scan)
    requires Inv(w, s) && s.queue != [] && (!w.hasListing || w.list(s.queue[0]).None?)
    ensures Inv(w, Scan(s.visited + [s.queue[0]], s.queue[1..], s.files, s.directories, s.truncated,
              s.errors + [s.queue[0]]))
  {
    HeadIsNew(w, s);
    var s' := Scan(s.visited + [s.queue[0]], s.queue[1..], s.files, s.directories, s.truncated,
        s.errors + [s.queue[0]]);
    assert s'.visited + s'.queue == s.visited + s.queue;
  }

  // ----- Breadth first -----

  /** The queue spans at most two levels, and no file lies below the second. */
  ghost predicate BreadthFirst(queue: seq<Path>, files: seq<Path>) {
    && ShallowFirst(queue) && ShallowFirst(files)
    && (queue != [] ==> forall p :: p in queue || p in files ==> |p| <= |queue[0]| + 1)
  }

  lemma {:induction false} ChildrenLevel(w: World, d: Path, names: seq<string>, directories: bool)
    ensures forall p :: p in Children(w, d, names, directories) ==> |p| == |d| + 1
  {
    if names != [] { ChildrenLevel(w, d, names[..|names| - 1], directories); }
  }

  lemma AppendLevel(found: seq<Path>, added: seq<Path>, level: nat)
    requires ShallowFirst(found) && (forall p :: p in found ==> |p| <= level) && forall p :: p in added ==> |p| == level
    ensures ShallowFirst(found + added) && forall p :: p in found + added ==> |p| <= level
  {
  }

  lemma OrderStep(queue: seq<Path>, files: seq<Path>, added: seq<Path>, more: seq<Path>)
    requires BreadthFirst(queue, files) && queue != []
    requires (forall p :: p in added ==> |p| == |queue[0]| + 1) && forall p :: p in more ==> |p| == |queue[0]| + 1
    ensures BreadthFirst(queue[1..] + added, files + more)
  {
    var level := |queue[0]| + 1;
    AppendLevel(files, more, level);
    AppendLevel(queue[1..], added, level);
    if |queue| > 1 {
      assert (queue[1..] + added)[0] == queue[1];
    }
  }

  function NewFiles(w: World, d: Path, names: seq<string>, found: nat): seq<Path>
    requires found <= MAX_FILES
  {
    Take(Children(w, d, names, false), MAX_FILES - found)
  }

  lemma NewLevel(w: World, d: Path, names: seq<string>, found: nat, queued: nat)
    requires found <= MAX_FILES && queued <= MAX_QUEUE
    ensures forall p :: p in NewFiles(w, d, names, found) ==> |p| == |d| + 1
    ensures forall p :: p in NewInQueue(w, d, names, queued) ==> |p| == |d| + 1
  {
    ChildrenLevel(w, d, names, false);
    ChildrenLevel(w, d, names, true);
  }

  lemma VisitParts(w: World, s: Scan, s': Scan)
    requires Visit(w, s, s') && |s.files| <= MAX_FILES && |s.queue| <= MAX_QUEUE
    ensures s'.files == s.files + NewFiles(w, s.queue[0], Considered(w.list(s.queue[0]).value), |s.files|)
    ensures s'.queue == s.queue[1..] + NewInQueue(w, s.queue[0], Considered(w.list(s.queue[0]).value), |s.queue| - 1)
  {
    var names := Considered(w.list(s.queue[0]).value);
    TakeAppend(s.files, Children(w, s.queue[0], names, false), MAX_FILES);
    EnqueuedIs(w, s.queue[0], names, s.queue[1..]);
  }

  lemma VisitKeepsOrder(w: World, s: Scan, s': Scan)
    requires Visit(w, s, s') && BreadthFirst(s.queue, s.files) && |s.files| <= MAX_FILES && |s.queue| <= MAX_QUEUE
    ensures BreadthFirst(s'.queue, s'.files)
  {
    var names := Considered(w.list(s.queue[0]).value);
    VisitParts(w, s, s');
    NewLevel(w, s.queue[0], names, |s.files|, |s.queue| - 1);
    OrderStep(s.queue, s.files, NewInQueue(w, s.queue[0], names, |s.queue| - 1),
        NewFiles(w, s.queue[0], names, |s.files|));
  }

  // ----- The end of the loop -----

  /** With an empty queue and nothing dropped, everything reachable was visited. */
  lemma {:induction false} AllVisited(w: World, s: Scan, p: Path)
    requires Complete(w, s) && s.queue == []
    ensures ReachableDirectory(w, p) ==> p in s.visited
    decreases |p|
  {
    assert s.visited + s.queue == s.visited;
    if p != [] && ReachableDirectory(w, p) {
      assert Present(w, p);
      AllVisited(w, s, Init(p));
      assert ChildrenFound(w, s, Init(p));
      ChildrenAre(w, Init(p), w.list(Init(p)).value, true, p);
    }
  }

  lemma AllFound(w: World, s: Scan, p: Path)
    requires Complete(w, s) && s.queue == []
    ensures ReachableFile(w, p) ==> p in s.files
    ensures p != [] && ReachableDirectory(w, p) ==> p in s.directories
  {
    if Present(w, p) {
      AllVisited(w, s, Init(p));
      assert ChildrenFound(w, s, Init(p));
      ChildrenAre(w, Init(p), w.list(Init(p)).value, IsDirectory(w, p), p);
    }
  }

  lemma CompleteCovers(w: World, s: Scan)
    requires Shape(w, s) && Complete(w, s) && s.queue == []
    ensures CoversTree(w, s.files, s.directories)
    ensures |s.visited| <= MAX_VISITS && |s.files| < MAX_FILES ==> FitsLimits(w)
  {
    forall p ensures ReachableFile(w, p) ==> p in s.files {
      AllFound(w, s, p);
    }
    forall p ensures p != [] && ReachableDirectory(w, p) ==> p in s.directories {
      AllFound(w, s, p);
    }
    if |s.visited| <= MAX_VISITS && |s.files| < MAX_FILES {
      assert s.visited + s.queue == s.visited;
      forall d | ReachableDirectory(w, d) ensures d in s.visited && |d| <= MAX_DEPTH && ChildrenFound(w, s, d) {
        AllVisited(w, s, d);
      }
      assert WithinLimits(w, s.visited, s.files);
    }
  }

  /** In a tree within the limits there are never more directories at hand than visits. */
  lemma KnownWithin(w: World, s: Scan)
    requires Shape(w, s) && FitsLimits(w)
    ensures |s.visited| + |s.queue| <= MAX_VISITS
  {
    var dirs, all :| WithinLimits(w, dirs, all);
    NoRepeatsWithin(s.visited + s.queue, dirs);
  }

  lemma FewFiles(w: World, s: Scan)
    requires Shape(w, s)
    ensures FitsLimits(w) ==> |s.files| < MAX_FILES
  {
    if FitsLimits(w) {
      var dirs, all :| WithinLimits(w, dirs, all);
      NoRepeatsWithin(s.files, all);
    }
  }

  lemma ScanEnds(w: World, s: Scan)
    requires Inv(w, s) && |s.visited| <= MAX_VISITS
    requires s.queue == [] || |s.visited| >= MAX_VISITS || |s.files| >= MAX_FILES || s.errors != []
    ensures !s.truncated && s.queue == [] && s.errors == [] ==> CoversTree(w, s.files, s.directories)
    ensures s.errors == [] && |s.files| < MAX_FILES ==> (s.truncated || s.queue != [] <==> !FitsLimits(w))
  {
    if !s.truncated && s.queue == [] && s.errors == [] { CompleteCovers(w, s); }
    if FitsLimits(w) { KnownWithin(w, s); }
  }
}

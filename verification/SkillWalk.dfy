/**
 * The walk over the workspace's skill folders (src/agent/runtime.ts): a depth-first walk that follows
 * links, with a loop check against the real paths of the folders it is in and a cap on folders read.
 */
module SkillFolders {
  import opened Wrappers

  const MAX_SKILL_ENTRY_FOLDERS: nat := 5_000

  /** A path by its names, from the filesystem's root. */
  type Path = seq<string>

  datatype Child = Child(name: string, link: bool, directory: bool, file: bool)

  /** What one folder shows: a SKILL.md ends it, otherwise the children that are not ignored. */
  datatype Listing = Skill | Children(children: seq<Child>)

  /**
   * The filesystem the walk sees: `list` is `readSkillFolder` and `realPath` is `realpathSync`, each `None`
   * when it throws. `folders` are the real folders there are.
   */
  datatype World = World(list: Path -> Option<Listing>, realPath: Path -> Option<Path>, folders: set<Path>)

  /** Real paths are of the finitely many folders, and a child that is no link lies in its parent. */
  ghost predicate Grounded(w: World) {
    && (forall p :: w.realPath(p).Some? ==> w.realPath(p).value in w.folders)
    && (forall p, c | PlainChild(w, p, c) :: w.realPath(p).Some? ==> w.realPath(p + [c.name]) == Some(w.realPath(p).value + [c.name]))
  }

  ghost predicate PlainChild(w: World, p: Path, c: Child) {
    w.list(p).Some? && w.list(p).value.Children? && c in w.list(p).value.children && c.directory && !c.link
  }

  predicate ContainsRealPath(folder: Path, path: Path) {
    folder <= path
  }

  /** No folder on the chain is, or contains, an earlier one. */
  ghost predicate NoLoop(chain: seq<Path>) {
    forall i, j | 0 <= i < j < |chain| :: !ContainsRealPath(chain[j], chain[i])
  }

  /** The chain leads to `dir`: its last member is where `dir` really is. */
  ghost predicate Leads(w: World, dir: Path, chain: seq<Path>) {
    chain != [] && NoLoop(chain) && w.realPath(dir) == Some(chain[|chain| - 1])
  }

  /** A recorded loop, under the real folder of the link that makes it. */
  datatype Loop = Loop(key: Path, path: Path, loopsTo: Path)

  datatype Walk = Walk(folders: nat, overCap: bool, files: seq<Path>, loops: seq<Loop>, unreadable: seq<Path>)

  const Unstarted := Walk(0, false, [], [], [])

  /** `Map.set` on the loops and on the unreadable paths, in the order the keys came in. */
  predicate HasKey(loops: seq<Loop>, key: Path) {
    exists i | 0 <= i < |loops| :: loops[i].key == key
  }

  function Noted(unreadable: seq<Path>, path: Path): seq<Path> {
    if path in unreadable then unreadable else unreadable + [path]
  }

  ghost function Ahead(w: World, chain: seq<Path>): nat {
    |w.folders - (set a | a in chain)|
  }

  function ChildReal(w: World, dir: Path, last: Path, c: Child): Option<Path> {
    if c.link then w.realPath(dir + [c.name]) else Some(last + [c.name])
  }

  predicate LoopsBack(target: Path, chain: seq<Path>) {
    exists i | 0 <= i < |chain| :: ContainsRealPath(target, chain[i])
  }

  predicate IsMarkdown(name: string) {
    |name| >= 3 && name[|name| - 3..] == ".md"
  }

  /** Following a child that does not loop back keeps the chain's invariant and leaves fewer folders ahead. */
  lemma ChainExtends(w: World, dir: Path, chain: seq<Path>, c: Child)
    requires Grounded(w) && Leads(w, dir, chain)
    requires w.list(dir).Some? && w.list(dir).value.Children? && c in w.list(dir).value.children && c.directory
    requires ChildReal(w, dir, chain[|chain| - 1], c).Some?
    requires !LoopsBack(ChildReal(w, dir, chain[|chain| - 1], c).value, chain)
    ensures var target := ChildReal(w, dir, chain[|chain| - 1], c).value;
            && Leads(w, dir + [c.name], chain + [target])
            && Ahead(w, chain + [target]) < Ahead(w, chain)
  {
    var target := ChildReal(w, dir, chain[|chain| - 1], c).value;
    assert !c.link ==> PlainChild(w, dir, c);
    assert w.realPath(dir + [c.name]) == Some(target);
    var (before, after) := (set a | a in chain, set a | a in chain + [target]);
    assert after == before + {target};
    assert target !in before;
    assert w.folders - before == (w.folders - after) + {target};
  }

  /** The unrecorded skip never happens: a child that is no link never loops back. */
  lemma OnlyLinksLoopBack(w: World, dir: Path, chain: seq<Path>, c: Child)
    requires Leads(w, dir, chain) && !c.link
    ensures !LoopsBack(ChildReal(w, dir, chain[|chain| - 1], c).value, chain)
  {
  }

  // ---------------------------------------------------------------- the walk

  function Visit(walk: Walk): Walk {
    walk.(folders := walk.folders + 1)
  }

  /** `walkSkillFolder`. It ends without the cap's help: each step down puts another real folder on the chain. */
  ghost function WalkFolder(w: World, dir: Path, chain: seq<Path>, walk: Walk, rootFiles: bool): Walk
    requires Grounded(w) && Leads(w, dir, chain)
    decreases Ahead(w, chain), 1, 0
  {
    if walk.overCap then walk
    else if walk.folders + 1 > MAX_SKILL_ENTRY_FOLDERS then Visit(walk).(overCap := true)
    else
      match w.list(dir)
      case None => Visit(walk).(unreadable := Noted(walk.unreadable, dir))
      case Some(Skill) => Visit(walk).(files := walk.files + [dir + ["SKILL.md"]])
      case Some(Children(children)) => WalkChildren(w, dir, chain, Visit(walk), rootFiles, children, 0)
  }

  ghost function WalkChildren(w: World, dir: Path, chain: seq<Path>, walk: Walk, rootFiles: bool, children: seq<Child>, i: nat): Walk
    requires Grounded(w) && Leads(w, dir, chain) && w.list(dir) == Some(Children(children)) && i <= |children|
    decreases Ahead(w, chain), 0, |children| - i
  {
    if i == |children| then walk
    else
      var next := WalkChild(w, dir, chain, walk, rootFiles, children, i);
      if next.overCap && children[i].directory then next
      else WalkChildren(w, dir, chain, next, rootFiles, children, i + 1)
  }

  ghost function WalkChild(w: World, dir: Path, chain: seq<Path>, walk: Walk, rootFiles: bool, children: seq<Child>, i: nat): Walk
    requires Grounded(w) && Leads(w, dir, chain) && w.list(dir) == Some(Children(children)) && i < |children|
    decreases Ahead(w, chain), 0, 0
  {
    var c := children[i];
    var path := dir + [c.name];
    var last := chain[|chain| - 1];
    if c.directory then
      match ChildReal(w, dir, last, c)
      case None => walk.(unreadable := Noted(walk.unreadable, path))
      case Some(target) =>
        if LoopsBack(target, chain) then
          var key := last + [c.name];
          if c.link && !HasKey(walk.loops, key) then walk.(loops := walk.loops + [Loop(key, path, target)]) else walk
        else
          ChainExtends(w, dir, chain, c);
          WalkFolder(w, path, chain + [target], walk, false)
    else if rootFiles && c.file && IsMarkdown(c.name) then walk.(files := walk.files + [path])
    else walk
  }

  /** The same walk as the source writes it, over one walk object and one array of ancestors. */
  class SkillWalk {
    const w: World
    var folders: nat
    var overCap: bool
    var files: seq<Path>
    var loops: seq<Loop>
    var unreadable: seq<Path>
    var realAncestors: seq<Path>

    ghost function View(): Walk
      reads this
    {
      Walk(folders, overCap, files, loops, unreadable)
    }

    constructor (w: World, realAncestors: seq<Path>)
      ensures View() == Unstarted && this.w == w && this.realAncestors == realAncestors
    {
      this.w := w;
      folders, overCap, files, loops, unreadable := 0, false, [], [], [];
      this.realAncestors := realAncestors;
    }

    method WalkSkillFolder(dir: Path, includeRootFiles: bool)
      requires Grounded(w) && Leads(w, dir, realAncestors)
      modifies this
      ensures View() == WalkFolder(w, dir, old(realAncestors), old(View()), includeRootFiles)
      ensures realAncestors == old(realAncestors)
      decreases Ahead(w, realAncestors), 1
    {
      if overCap {
        return;
      }
      folders := folders + 1;
      if folders > MAX_SKILL_ENTRY_FOLDERS {
        overCap := true;
        return;
      }
      var listing := w.list(dir);
      if listing == None {
        unreadable := Noted(unreadable, dir);
        return;
      }
      if listing.value.Skill? {
        files := files + [dir + ["SKILL.md"]];
        return;
      }
      var children := listing.value.children;
      ghost var chain := realAncestors;
      var i := 0;
      while i < |children|
        invariant i <= |children| && realAncestors == chain
        invariant WalkFolder(w, dir, chain, old(View()), includeRootFiles) == WalkChildren(w, dir, chain, View(), includeRootFiles, children, i)
      {
        WalkSkillChild(dir, includeRootFiles, children, i);
        if children[i].directory && overCap {
          return;
        }
        i := i + 1;
      }
    }

    method WalkSkillChild(dir: Path, includeRootFiles: bool, children: seq<Child>, i: nat)
      requires Grounded(w) && Leads(w, dir, realAncestors) && w.list(dir) == Some(Children(children)) && i < |children|
      modifies this
      ensures View() == WalkChild(w, dir, old(realAncestors), old(View()), includeRootFiles, children, i)
      ensures realAncestors == old(realAncestors)
      decreases Ahead(w, realAncestors), 0
    {
      var child := children[i];
      var path := dir + [child.name];
      var last := realAncestors[|realAncestors| - 1];
      if child.directory {
        var target := ChildReal(w, dir, last, child);
        if target == None {
          unreadable := Noted(unreadable, path);
          return;
        }
        if LoopsBack(target.value, realAncestors) {
          var key := last + [child.name];
          if child.link && !HasKey(loops, key) {
            loops := loops + [Loop(key, path, target.value)];
          }
          return;
        }
        ghost var chain := realAncestors;
        ChainExtends(w, dir, chain, child);
        hide Leads, Grounded, Ahead, LoopsBack, HasKey;
        realAncestors := realAncestors + [target.value];
        assert chain == realAncestors[..|realAncestors| - 1];
        WalkSkillFolder(path, false);
        realAncestors := realAncestors[..|realAncestors| - 1];
      } else if includeRootFiles && child.file && IsMarkdown(child.name) {
        files := files + [path];
      }
    }
  }

  // ---------------------------------------------------------------- what the walk keeps

  /** Records only grow, and the cap bounds the folders counted: at most 5000 are read. */
  ghost predicate Grows(walk: Walk, walk': Walk) {
    && walk.folders <= walk'.folders
    && walk.loops <= walk'.loops
    && walk.unreadable <= walk'.unreadable
    && walk.files <= walk'.files
    && (walk.overCap ==> walk' == walk)
    && (Capped(walk) ==> Capped(walk'))
  }

  ghost predicate Capped(walk: Walk) {
    walk.folders <= MAX_SKILL_ENTRY_FOLDERS + (if walk.overCap then 1 else 0)
  }

  lemma {:induction false} FolderGrows(w: World, dir: Path, chain: seq<Path>, walk: Walk, rootFiles: bool)
    requires Grounded(w) && Leads(w, dir, chain)
    ensures Grows(walk, WalkFolder(w, dir, chain, walk, rootFiles))
    decreases Ahead(w, chain), 1, 0
  {
    if !walk.overCap && walk.folders + 1 <= MAX_SKILL_ENTRY_FOLDERS && w.list(dir).Some? && w.list(dir).value.Children? {
      ChildrenGrow(w, dir, chain, Visit(walk), rootFiles, w.list(dir).value.children, 0);
    }
  }

  lemma {:induction false} ChildrenGrow(w: World, dir: Path, chain: seq<Path>, walk: Walk, rootFiles: bool, children: seq<Child>, i: nat)
    requires Grounded(w) && Leads(w, dir, chain) && w.list(dir) == Some(Children(children)) && i <= |children|
    requires !walk.overCap
    ensures Grows(walk, WalkChildren(w, dir, chain, walk, rootFiles, children, i))
    decreases Ahead(w, chain), 0, |children| - i
  {
    if i < |children| {
      var next := WalkChild(w, dir, chain, walk, rootFiles, children, i);
      ChildGrows(w, dir, chain, walk, rootFiles, children, i);
      if !next.overCap {
        ChildrenGrow(w, dir, chain, next, rootFiles, children, i + 1);
      }
    }
  }

  lemma {:induction false} ChildGrows(w: World, dir: Path, chain: seq<Path>, walk: Walk, rootFiles: bool, children: seq<Child>, i: nat)
    requires Grounded(w) && Leads(w, dir, chain) && w.list(dir) == Some(Children(children)) && i < |children|
    requires !walk.overCap
    ensures Grows(walk, WalkChild(w, dir, chain, walk, rootFiles, children, i))
    ensures WalkChild(w, dir, chain, walk, rootFiles, children, i).overCap ==> children[i].directory
    decreases Ahead(w, chain), 0, 0
  {
    var c := children[i];
    var target := ChildReal(w, dir, chain[|chain| - 1], c);
    if c.directory && target.Some? && !LoopsBack(target.value, chain) {
      ChainExtends(w, dir, chain, c);
      FolderGrows(w, dir + [c.name], chain + [target.value], walk, false);
    }
  }

  /** A walk counts at most 5000 folders, and one more exactly when it gives up. */
  lemma AtMostTheCap(w: World, dir: Path, chain: seq<Path>, rootFiles: bool)
    requires Grounded(w) && Leads(w, dir, chain)
    ensures var walk := WalkFolder(w, dir, chain, Unstarted, rootFiles);
            walk.folders <= MAX_SKILL_ENTRY_FOLDERS + (if walk.overCap then 1 else 0)
  {
    FolderGrows(w, dir, chain, Unstarted, rootFiles);
  }

  // ---------------------------------------------------------------- the plain walk

  /** What a walk finds, and what it passes over because it cannot be read. */
  datatype Found = Found(files: seq<Path>, missed: set<Path>)

  function Joined(a: Option<Found>, b: Option<Found>): Option<Found> {
    if a == None || b == None then None else Some(Found(a.value.files + b.value.files, a.value.missed + b.value.missed))
  }

  /** Depth-first past what cannot be read, with no check at all, as deep as `fuel`; `None` when that is not deep enough. */
  function PlainWalk(w: World, dir: Path, rootFiles: bool, fuel: nat): Option<Found>
    decreases fuel, 1, 0
  {
    if fuel == 0 then None
    else match w.list(dir)
      case None => Some(Found([], {dir}))
      case Some(Skill) => Some(Found([dir + ["SKILL.md"]], {}))
      case Some(Children(children)) => PlainChildren(w, dir, rootFiles, children, fuel - 1)
  }

  function PlainChildren(w: World, dir: Path, rootFiles: bool, children: seq<Child>, fuel: nat): Option<Found>
    decreases fuel, 2, |children|
  {
    if children == [] then Some(Found([], {}))
    else Joined(PlainOne(w, dir, rootFiles, children[0], fuel), PlainChildren(w, dir, rootFiles, children[1..], fuel))
  }

  function PlainOne(w: World, dir: Path, rootFiles: bool, c: Child, fuel: nat): Option<Found>
    decreases fuel, 2, 0
  {
    var path := dir + [c.name];
    if c.directory then
      if c.link && w.realPath(path) == None then Some(Found([], {path})) else PlainWalk(w, path, false, fuel)
    else Some(Found(if rootFiles && c.file && IsMarkdown(c.name) then [path] else [], {}))
  }

  /** More fuel changes no answer, so the plain walk finds one thing or none. */
  lemma {:induction false} MoreFuel(w: World, dir: Path, rootFiles: bool, fuel: nat, more: nat)
    requires PlainWalk(w, dir, rootFiles, fuel).Some? && fuel <= more
    ensures PlainWalk(w, dir, rootFiles, more) == PlainWalk(w, dir, rootFiles, fuel)
    decreases fuel, 1, 0
  {
    if w.list(dir).Some? && w.list(dir).value.Children? {
      MoreFuelChildren(w, dir, rootFiles, w.list(dir).value.children, fuel - 1, more - 1);
    }
  }

  lemma {:induction false} MoreFuelChildren(w: World, dir: Path, rootFiles: bool, children: seq<Child>, fuel: nat, more: nat)
    requires PlainChildren(w, dir, rootFiles, children, fuel).Some? && fuel <= more
    ensures PlainChildren(w, dir, rootFiles, children, more) == PlainChildren(w, dir, rootFiles, children, fuel)
    decreases fuel, 2, |children|
  {
    if children != [] {
      if children[0].directory && !(children[0].link && w.realPath(dir + [children[0].name]) == None) {
        MoreFuel(w, dir + [children[0].name], false, fuel, more);
      }
      MoreFuelChildren(w, dir, rootFiles, children[1..], fuel, more);
    }
  }

  /** No loop was met and nothing given up. */
  ghost predicate Quiet(walk: Walk) {
    !walk.overCap && walk.loops == []
  }

  ghost predicate Agrees(walk: Walk, walk': Walk, plain: Option<Found>) {
    && plain.Some? && walk'.files == walk.files + plain.value.files
    && forall p :: p in walk'.unreadable <==> p in walk.unreadable || p in plain.value.missed
  }

  lemma {:induction false} QuietFolderIsPlain(w: World, dir: Path, chain: seq<Path>, walk: Walk, rootFiles: bool, fuel: nat)
    requires Grounded(w) && Leads(w, dir, chain) && Ahead(w, chain) < fuel
    requires Quiet(WalkFolder(w, dir, chain, walk, rootFiles))
    ensures Agrees(walk, WalkFolder(w, dir, chain, walk, rootFiles), PlainWalk(w, dir, rootFiles, fuel))
    decreases Ahead(w, chain), 1, 0
  {
    if w.list(dir).Some? && w.list(dir).value.Children? && !walk.overCap && walk.folders + 1 <= MAX_SKILL_ENTRY_FOLDERS {
      var children := w.list(dir).value.children;
      QuietChildrenArePlain(w, dir, chain, Visit(walk), rootFiles, children, 0, fuel - 1);
      assert children[0..] == children;
    }
  }

  lemma {:induction false} AgreesTwice(walk: Walk, next: Walk, last: Walk, one: Option<Found>, rest: Option<Found>)
    requires Agrees(walk, next, one) && Agrees(next, last, rest)
    ensures Agrees(walk, last, Joined(one, rest))
  {
  }

  lemma {:induction false} QuietChildrenArePlain(w: World, dir: Path, chain: seq<Path>, walk: Walk, rootFiles: bool, children: seq<Child>, i: nat, fuel: nat)
    requires Grounded(w) && Leads(w, dir, chain) && w.list(dir) == Some(Children(children)) && i <= |children|
    requires Ahead(w, chain) <= fuel && !walk.overCap
    requires Quiet(WalkChildren(w, dir, chain, walk, rootFiles, children, i))
    ensures Agrees(walk, WalkChildren(w, dir, chain, walk, rootFiles, children, i), PlainChildren(w, dir, rootFiles, children[i..], fuel))
    decreases Ahead(w, chain), 0, |children| - i
  {
    if i < |children| {
      var next := WalkChild(w, dir, chain, walk, rootFiles, children, i);
      ChildGrows(w, dir, chain, walk, rootFiles, children, i);
      assert !next.overCap;
      ChildrenGrow(w, dir, chain, next, rootFiles, children, i + 1);
      assert Quiet(next);
      QuietChildIsPlain(w, dir, chain, walk, rootFiles, children, i, fuel);
      QuietChildrenArePlain(w, dir, chain, next, rootFiles, children, i + 1, fuel);
      assert children[i..][1..] == children[i + 1..];
      hide PlainOne, WalkChild, Agrees;
      AgreesTwice(walk, next, WalkChildren(w, dir, chain, next, rootFiles, children, i + 1),
                  PlainOne(w, dir, rootFiles, children[i], fuel), PlainChildren(w, dir, rootFiles, children[i + 1..], fuel));
    }
  }

  lemma {:induction false} QuietChildIsPlain(w: World, dir: Path, chain: seq<Path>, walk: Walk, rootFiles: bool, children: seq<Child>, i: nat, fuel: nat)
    requires Grounded(w) && Leads(w, dir, chain) && w.list(dir) == Some(Children(children)) && i < |children|
    requires Ahead(w, chain) <= fuel && !walk.overCap
    requires Quiet(WalkChild(w, dir, chain, walk, rootFiles, children, i))
    ensures Agrees(walk, WalkChild(w, dir, chain, walk, rootFiles, children, i), PlainOne(w, dir, rootFiles, children[i], fuel))
    decreases Ahead(w, chain), 0, 0
  {
    var c := children[i];
    if c.directory {
      var last := chain[|chain| - 1];
      var target := ChildReal(w, dir, last, c);
      if target == None {
        assert walk.files + [] == walk.files;
      } else if LoopsBack(target.value, chain) {
        if !c.link {
          OnlyLinksLoopBack(w, dir, chain, c);
        }
      } else {
        ChainExtends(w, dir, chain, c);
        QuietFolderIsPlain(w, dir + [c.name], chain + [target.value], walk, false, fuel);
      }
    }
  }

  // ---------------------------------------------------------------- what loads of the workspace's entries

  datatype SkippedLink = RootLoop(entry: string, target: Path) | InnerLoop(entry: string, loop: Loop)
  datatype SkippedEntry = Unreadable(path: Path) | TooManyFolders(entry: string)

  datatype Selected = Selected(paths: seq<Path>, links: seq<SkippedLink>, entries: seq<SkippedEntry>)

  function InnerLoops(entry: string, loops: seq<Loop>): seq<SkippedLink> {
    seq(|loops|, i requires 0 <= i < |loops| => InnerLoop(entry, loops[i]))
  }

  function AllUnreadable(paths: seq<Path>): seq<SkippedEntry> {
    seq(|paths|, i requires 0 <= i < |paths| => Unreadable(paths[i]))
  }

  /** What an entry's walk adds: what it could not read, then its loops, its cap or its files. */
  function Counted(s: Selected, entry: string, walk: Walk): Selected {
    var s := s.(entries := s.entries + AllUnreadable(walk.unreadable));
    if walk.loops != [] then s.(links := s.links + InnerLoops(entry, walk.loops))
    else if walk.overCap then s.(entries := s.entries + [TooManyFolders(entry)])
    else s.(paths := s.paths + walk.files)
  }

  /** `workspaceSkillEntries.take`, of a child of the folder `root` that really is `realRoot`. */
  ghost function Taken(w: World, root: Path, realRoot: Path, c: Child, entryFiles: bool, s: Selected): Selected
    requires Grounded(w)
  {
    var path := root + [c.name];
    if !c.directory then
      if c.file && IsMarkdown(c.name) then s.(paths := s.paths + [path]) else s
    else
      match w.realPath(path)
      case None => s.(entries := s.entries + [Unreadable(path)])
      case Some(target) =>
        if ContainsRealPath(target, realRoot) then
          if c.link then s.(links := s.links + [RootLoop(c.name, target)]) else s
        else Counted(s, c.name, WalkFolder(w, path, [realRoot, target], Unstarted, entryFiles))
  }

  /** All the entries of the workspace's skill folder, in its order. */
  ghost function TakenAll(w: World, root: Path, realRoot: Path, children: seq<Child>, s: Selected): Selected
    requires Grounded(w)
    decreases |children|
  {
    if children == [] then s
    else TakenAll(w, root, realRoot, children[1..], Taken(w, root, realRoot, children[0], false, s))
  }

  class SkillSelection {
    var paths: seq<Path>
    var skippedLinks: seq<SkippedLink>
    var skippedEntries: seq<SkippedEntry>

    function View(): Selected
      reads this
    {
      Selected(paths, skippedLinks, skippedEntries)
    }

    constructor ()
      ensures View() == Selected([], [], [])
    {
      paths, skippedLinks, skippedEntries := [], [], [];
    }

    method Take(w: World, root: Path, realRoot: Path, c: Child, includeEntryFiles: bool)
      requires Grounded(w)
      modifies this
      ensures View() == Taken(w, root, realRoot, c, includeEntryFiles, old(View()))
    {
      var path := root + [c.name];
      if !c.directory {
        if c.file && IsMarkdown(c.name) {
          paths := paths + [path];
        }
        return;
      }
      var target := w.realPath(path);
      if target == None {
        skippedEntries := skippedEntries + [Unreadable(path)];
        return;
      }
      if ContainsRealPath(target.value, realRoot) {
        if c.link {
          skippedLinks := skippedLinks + [RootLoop(c.name, target.value)];
        }
        return;
      }
      var walk := new SkillWalk(w, [realRoot, target.value]);
      walk.WalkSkillFolder(path, includeEntryFiles);
      skippedEntries := skippedEntries + AllUnreadable(walk.unreadable);
      if walk.loops != [] {
        skippedLinks := skippedLinks + InnerLoops(c.name, walk.loops);
      } else if walk.overCap {
        skippedEntries := skippedEntries + [TooManyFolders(c.name)];
      } else {
        paths := paths + walk.files;
      }
    }

    method TakeAll(w: World, root: Path, realRoot: Path, children: seq<Child>)
      requires Grounded(w)
      modifies this
      ensures View() == TakenAll(w, root, realRoot, children, old(View()))
    {
      var i := 0;
      while i < |children|
        invariant i <= |children|
        invariant TakenAll(w, root, realRoot, children, old(View())) == TakenAll(w, root, realRoot, children[i..], View())
      {
        Take(w, root, realRoot, children[i], false);
        assert children[i..][1..] == children[i + 1..];
        i := i + 1;
      }
    }
  }

  /** No new notice but of what could not be read. */
  ghost predicate LeavesNothingOut(s: Selected, s': Selected) {
    s'.links == s.links && forall i | |s.entries| <= i < |s'.entries| :: s'.entries[i].Unreadable?
  }

  ghost predicate ReportsMore(s: Selected, s': Selected) {
    s.links <= s'.links && s.entries <= s'.entries && s.paths <= s'.paths
  }

  /** Exactly these places are newly noted as unreadable. */
  ghost predicate NotesUnreadable(s: Selected, s': Selected, missed: set<Path>) {
    |s.entries| <= |s'.entries| && forall p :: Unreadable(p) in s'.entries[|s.entries|..] <==> p in missed
  }

  /** All that `s` reports stays; and with no notice of a loop or of too many folders, just what a plain walk finds is added. */
  ghost predicate Adds(s: Selected, s': Selected, plain: Option<Found>) {
    && ReportsMore(s, s')
    && (LeavesNothingOut(s, s') ==>
          plain.Some? && s'.paths == s.paths + plain.value.files && NotesUnreadable(s, s', plain.value.missed))
  }

  lemma {:induction false} AddsTwice(s: Selected, one: Selected, s': Selected, a: Option<Found>, b: Option<Found>)
    requires Adds(s, one, a) && Adds(one, s', b)
    ensures Adds(s, s', Joined(a, b))
  {
    hide NotesUnreadable;
    if LeavesNothingOut(s, s') {
      NothingLeftOutTwice(s, one, s');
      NotedTwice(s, one, s', a.value.missed, b.value.missed);
    }
  }

  /** What an entry should add, read without any check. */
  function PlainEntry(w: World, root: Path, c: Child, entryFiles: bool): Option<Found> {
    var path := root + [c.name];
    if !c.directory then Some(Found(if c.file && IsMarkdown(c.name) then [path] else [], {}))
    else if w.realPath(path) == None then Some(Found([], {path}))
    else PlainWalk(w, path, entryFiles, |w.folders| + 1)
  }

  lemma {:induction false} CountedNotes(s: Selected, entry: string, walk: Walk)
    ensures var s' := Counted(s, entry, walk);
            && NotesUnreadable(s, s', set p | p in walk.unreadable)
            && (forall l :: InnerLoop(entry, l) in s'.links[|s.links|..] <==> l in walk.loops)
            && (TooManyFolders(entry) in s'.entries[|s.entries|..] <==> walk.loops == [] && walk.overCap)
            && (LeavesNothingOut(s, s') <==> Quiet(walk))
            && s'.paths == if Quiet(walk) then s.paths + walk.files else s.paths
  {
    var (s', n) := (Counted(s, entry, walk), |s.entries|);
    var added := AllUnreadable(walk.unreadable);
    assert forall p :: Unreadable(p) in added <==> p in walk.unreadable by {
      forall p | p in walk.unreadable
        ensures Unreadable(p) in added
      {
        var i :| 0 <= i < |walk.unreadable| && walk.unreadable[i] == p;
        assert added[i] == Unreadable(p);
      }
    }
    var loops := InnerLoops(entry, walk.loops);
    assert forall l :: InnerLoop(entry, l) in loops <==> l in walk.loops by {
      forall l | l in walk.loops
        ensures InnerLoop(entry, l) in loops
      {
        var i :| 0 <= i < |walk.loops| && walk.loops[i] == l;
        assert loops[i] == InnerLoop(entry, l);
      }
    }
    if walk.loops != [] {
      assert s'.links[|s.links|..] == loops && s'.entries[n..] == added;
    } else if walk.overCap {
      assert s'.entries[n..] == added + [TooManyFolders(entry)] && s'.links[|s.links|..] == [];
      assert s'.entries[n + |added|] == TooManyFolders(entry);
    } else {
      assert s'.entries[n..] == added && s'.links[|s.links|..] == [];
    }
  }

  /**
   * Nothing is dropped in silence: an entry that adds no notice of a loop or of too many folders adds exactly the files
   * of the plain walk, and notes exactly what that passes over. An entry with such a notice adds no file.
   */
  lemma {:induction false} TakeDropsNothingSilently(w: World, root: Path, realRoot: Path, children: seq<Child>, c: Child, entryFiles: bool, s: Selected)
    requires Grounded(w) && w.realPath(root) == Some(realRoot)
    requires w.list(root) == Some(Children(children)) && c in children
    ensures var s' := Taken(w, root, realRoot, c, entryFiles, s);
            && Adds(s, s', PlainEntry(w, root, c, entryFiles))
            && (!LeavesNothingOut(s, s') ==> s'.paths == s.paths)
  {
    var (path, s') := (root + [c.name], Taken(w, root, realRoot, c, entryFiles, s));
    if !c.directory {
      assert s'.entries[|s.entries|..] == [];
    } else if w.realPath(path) == None {
      assert s'.entries[|s.entries|..] == [Unreadable(path)];
      assert s.paths + [] == s.paths;
    } else {
      assert !c.link ==> PlainChild(w, root, c);
      if !ContainsRealPath(w.realPath(path).value, realRoot) {
        hide Adds, LeavesNothingOut, Counted, WalkFolder;
        EntryIsWalked(w, root, realRoot, c, entryFiles, s);
      }
    }
  }

  lemma {:induction false} EntryIsWalked(w: World, root: Path, realRoot: Path, c: Child, entryFiles: bool, s: Selected)
    requires Grounded(w) && c.directory && w.realPath(root + [c.name]).Some?
    requires !ContainsRealPath(w.realPath(root + [c.name]).value, realRoot)
    ensures var (path, target) := (root + [c.name], w.realPath(root + [c.name]).value);
            var s' := Counted(s, c.name, WalkFolder(w, path, [realRoot, target], Unstarted, entryFiles));
            && Adds(s, s', PlainEntry(w, root, c, entryFiles))
            && (!LeavesNothingOut(s, s') ==> s'.paths == s.paths)
  {
    hide Adds, Counted, LeavesNothingOut, WalkFolder, PlainWalk, Agrees;
    var (path, target) := (root + [c.name], w.realPath(root + [c.name]).value);
    var (chain, fuel) := ([realRoot, target], |w.folders| + 1);
    assert Leads(w, path, chain);
    var walk := WalkFolder(w, path, chain, Unstarted, entryFiles);
    FewerAhead(w, chain);
    if Quiet(walk) {
      QuietFolderIsPlain(w, path, chain, Unstarted, entryFiles, fuel);
    }
    CountedAdds(s, c.name, walk, PlainWalk(w, path, entryFiles, fuel));
  }

  lemma {:induction false} CountedAdds(s: Selected, entry: string, walk: Walk, plain: Option<Found>)
    requires Quiet(walk) ==> Agrees(Unstarted, walk, plain)
    ensures Adds(s, Counted(s, entry, walk), plain)
    ensures !LeavesNothingOut(s, Counted(s, entry, walk)) ==> Counted(s, entry, walk).paths == s.paths
  {
    CountedNotes(s, entry, walk);
    assert ReportsMore(s, Counted(s, entry, walk));
    hide Counted, LeavesNothingOut, ReportsMore;
    if Quiet(walk) {
      assert (set p | p in walk.unreadable) == plain.value.missed;
    }
  }

  lemma FewerAhead(w: World, chain: seq<Path>)
    ensures Ahead(w, chain) <= |w.folders|
  {
    SubsetIsSmaller(w.folders - (set a | a in chain), w.folders);
  }

  lemma {:induction false} SubsetIsSmaller<T>(a: set<T>, b: set<T>)
    requires a <= b
    ensures |a| <= |b|
  {
    assert b == a + (b - a);
  }

  /** A whole skill folder that yields no such notice loads exactly what the plain walk finds, and notes what it passes over. */
  lemma {:induction false} AllTakenIsThePlainWalk(w: World, root: Path, realRoot: Path, all: seq<Child>, children: seq<Child>, s: Selected)
    requires Grounded(w) && w.realPath(root) == Some(realRoot)
    requires w.list(root) == Some(Children(all)) && forall c | c in children :: c in all
    ensures Adds(s, TakenAll(w, root, realRoot, children, s), PlainChildren(w, root, true, children, |w.folders| + 1))
    decreases |children|
  {
    if children == [] {
      assert s.entries[|s.entries|..] == [] && s.paths + [] == s.paths;
    } else {
      hide Adds, Taken, PlainWalk, PlainEntry, LeavesNothingOut;
      var (one, fuel) := (Taken(w, root, realRoot, children[0], false, s), |w.folders| + 1);
      TakeDropsNothingSilently(w, root, realRoot, all, children[0], false, s);
      assert forall c | c in children[1..] :: c in children;
      PlainEntryIsOne(w, root, realRoot, all, children[0]);
      AllTakenIsThePlainWalk(w, root, realRoot, all, children[1..], one);
      AddsTwice(s, one, TakenAll(w, root, realRoot, children[1..], one),
                PlainEntry(w, root, children[0], false), PlainChildren(w, root, true, children[1..], fuel));
    }
  }

  lemma {:induction false} PlainEntryIsOne(w: World, root: Path, realRoot: Path, all: seq<Child>, c: Child)
    requires Grounded(w) && w.realPath(root) == Some(realRoot) && w.list(root) == Some(Children(all)) && c in all
    ensures PlainEntry(w, root, c, false) == PlainOne(w, root, true, c, |w.folders| + 1)
  {
    hide PlainWalk;
    assert c.directory && !c.link ==> PlainChild(w, root, c);
  }

  lemma {:induction false} NothingLeftOutTwice(s: Selected, one: Selected, s': Selected)
    requires ReportsMore(s, one) && ReportsMore(one, s') && LeavesNothingOut(s, s')
    ensures LeavesNothingOut(s, one) && LeavesNothingOut(one, s')
  {
    assert forall i | |s.entries| <= i < |one.entries| :: s'.entries[i] == one.entries[i];
  }

  lemma {:induction false} NotedTwice(s: Selected, one: Selected, s': Selected, a: set<Path>, b: set<Path>)
    requires ReportsMore(s, one) && ReportsMore(one, s') && NotesUnreadable(s, one, a) && NotesUnreadable(one, s', b)
    ensures NotesUnreadable(s, s', a + b)
  {
    assert s'.entries[|s.entries|..] == one.entries[|s.entries|..] + s'.entries[|one.entries|..];
  }

  // ---------------------------------------------------------------- what is noted is so

  /** A real folder that a walk from `from`, itself inside the folders `above`, is in when it is at `dir`. */
  ghost predicate Inside(w: World, from: Path, above: seq<Path>, dir: Path, a: Path) {
    a in above || exists n :: |from| <= n <= |dir| && w.realPath(dir[..n]) == Some(a)
  }

  ghost predicate ChainIsInside(w: World, from: Path, above: seq<Path>, dir: Path, chain: seq<Path>) {
    from <= dir && forall a | a in chain :: Inside(w, from, above, dir, a)
  }

  /** The link at this path really leads to a folder that contains one the walk is in. */
  ghost predicate TrueLoop(w: World, from: Path, above: seq<Path>, l: Loop) {
    && l.path != [] && w.realPath(l.path) == Some(l.loopsTo)
    && var dir := l.path[..|l.path| - 1];
    && w.list(dir).Some? && w.list(dir).value.Children?
    && (exists c :: c in w.list(dir).value.children && c.link && c.directory && l.path == dir + [c.name])
    && exists a :: Inside(w, from, above, dir, a) && l.loopsTo <= a
  }

  ghost predicate NoticesAreTrue(w: World, from: Path, above: seq<Path>, walk: Walk) {
    && (forall l | l in walk.loops :: TrueLoop(w, from, above, l))
    && (forall p | p in walk.unreadable :: w.list(p) == None || w.realPath(p) == None)
    && (walk.overCap ==> walk.folders == MAX_SKILL_ENTRY_FOLDERS + 1)
  }

  lemma {:induction false} InsideBelow(w: World, from: Path, above: seq<Path>, dir: Path, chain: seq<Path>, name: string, target: Path)
    requires ChainIsInside(w, from, above, dir, chain) && w.realPath(dir + [name]) == Some(target)
    ensures ChainIsInside(w, from, above, dir + [name], chain + [target])
  {
    var below := dir + [name];
    forall a | a in chain + [target]
      ensures Inside(w, from, above, below, a)
    {
      if a in chain {
        assert Inside(w, from, above, dir, a);
        if a !in above {
          var n :| |from| <= n <= |dir| && w.realPath(dir[..n]) == Some(a);
          assert below[..n] == dir[..n];
        }
      } else {
        assert below[..|below|] == below;
      }
    }
  }

  lemma {:induction false} FolderNotesTruly(w: World, from: Path, above: seq<Path>, dir: Path, chain: seq<Path>, walk: Walk, rootFiles: bool)
    requires Grounded(w) && Leads(w, dir, chain) && ChainIsInside(w, from, above, dir, chain)
    requires NoticesAreTrue(w, from, above, walk) && Capped(walk)
    ensures NoticesAreTrue(w, from, above, WalkFolder(w, dir, chain, walk, rootFiles))
    decreases Ahead(w, chain), 1, 0
  {
    hide TrueLoop, ChainIsInside;
    if !walk.overCap && walk.folders + 1 <= MAX_SKILL_ENTRY_FOLDERS && w.list(dir).Some? && w.list(dir).value.Children? {
      ChildrenNoteTruly(w, from, above, dir, chain, Visit(walk), rootFiles, w.list(dir).value.children, 0);
    }
  }

  lemma {:induction false} ChildrenNoteTruly(w: World, from: Path, above: seq<Path>, dir: Path, chain: seq<Path>, walk: Walk, rootFiles: bool, children: seq<Child>, i: nat)
    requires Grounded(w) && Leads(w, dir, chain) && w.list(dir) == Some(Children(children)) && i <= |children|
    requires ChainIsInside(w, from, above, dir, chain) && NoticesAreTrue(w, from, above, walk) && Capped(walk) && !walk.overCap
    ensures NoticesAreTrue(w, from, above, WalkChildren(w, dir, chain, walk, rootFiles, children, i))
    decreases Ahead(w, chain), 0, |children| - i
  {
    hide NoticesAreTrue, ChainIsInside;
    if i < |children| {
      var next := WalkChild(w, dir, chain, walk, rootFiles, children, i);
      ChildNotesTruly(w, from, above, dir, chain, walk, rootFiles, children, i);
      ChildGrows(w, dir, chain, walk, rootFiles, children, i);
      if !next.overCap {
        ChildrenNoteTruly(w, from, above, dir, chain, next, rootFiles, children, i + 1);
      }
    }
  }

  lemma {:induction false} ChildNotesTruly(w: World, from: Path, above: seq<Path>, dir: Path, chain: seq<Path>, walk: Walk, rootFiles: bool, children: seq<Child>, i: nat)
    requires Grounded(w) && Leads(w, dir, chain) && w.list(dir) == Some(Children(children)) && i < |children|
    requires ChainIsInside(w, from, above, dir, chain) && NoticesAreTrue(w, from, above, walk) && Capped(walk) && !walk.overCap
    ensures NoticesAreTrue(w, from, above, WalkChild(w, dir, chain, walk, rootFiles, children, i))
    decreases Ahead(w, chain), 0, 0
  {
    hide TrueLoop, ChainIsInside;
    var (c, last) := (children[i], chain[|chain| - 1]);
    var target := ChildReal(w, dir, last, c);
    if c.directory && target.Some? {
      if LoopsBack(target.value, chain) {
        if c.link {
          LinkLoops(w, from, above, dir, chain, children, i);
        }
      } else {
        ChainExtends(w, dir, chain, c);
        InsideBelow(w, from, above, dir, chain, c.name, target.value);
        FolderNotesTruly(w, from, above, dir + [c.name], chain + [target.value], walk, false);
      }
    }
  }

  lemma {:induction false} LinkLoops(w: World, from: Path, above: seq<Path>, dir: Path, chain: seq<Path>, children: seq<Child>, i: nat)
    requires w.list(dir) == Some(Children(children)) && i < |children| && ChainIsInside(w, from, above, dir, chain)
    requires children[i].link && children[i].directory && w.realPath(dir + [children[i].name]).Some?
    requires LoopsBack(w.realPath(dir + [children[i].name]).value, chain)
    ensures forall key :: TrueLoop(w, from, above, Loop(key, dir + [children[i].name], w.realPath(dir + [children[i].name]).value))
  {
    var path := dir + [children[i].name];
    var target := w.realPath(path).value;
    var j :| 0 <= j < |chain| && target <= chain[j];
    assert path[..|path| - 1] == dir && chain[j] in chain && children[i] in children;
    assert Inside(w, from, above, dir, chain[j]);
  }

  /** Every loop, unreadable place and full count that a skill entry's walk notes is one. */
  lemma {:induction false} EntryNotesTruly(w: World, path: Path, realRoot: Path, target: Path, entryFiles: bool)
    requires Grounded(w) && w.realPath(path) == Some(target) && !ContainsRealPath(target, realRoot)
    ensures Leads(w, path, [realRoot, target])
    ensures NoticesAreTrue(w, path, [realRoot], WalkFolder(w, path, [realRoot, target], Unstarted, entryFiles))
  {
    assert path[..|path|] == path;
    FolderNotesTruly(w, path, [realRoot], path, [realRoot, target], Unstarted, entryFiles);
  }

  // ---------------------------------------------------------------- the count is of folders read

  function Sum(a: Option<nat>, b: Option<nat>): Option<nat> {
    if a == None || b == None then None else Some(a.value + b.value)
  }

  /** How many folders the plain walk reads, as deep as `fuel`; `None` when that is not deep enough. */
  function PlainCount(w: World, dir: Path, fuel: nat): Option<nat>
    decreases fuel, 1, 0
  {
    if fuel == 0 then None
    else match w.list(dir)
      case Some(Children(children)) => Sum(Some(1), CountChildren(w, dir, children, fuel - 1))
      case _ => Some(1)
  }

  function CountChildren(w: World, dir: Path, children: seq<Child>, fuel: nat): Option<nat>
    decreases fuel, 2, |children|
  {
    if children == [] then Some(0)
    else
      var c := children[0];
      Sum(if !c.directory || (c.link && w.realPath(dir + [c.name]) == None) then Some(0) else PlainCount(w, dir + [c.name], fuel),
          CountChildren(w, dir, children[1..], fuel))
  }

  lemma {:induction false} FolderCounts(w: World, dir: Path, chain: seq<Path>, walk: Walk, rootFiles: bool, fuel: nat)
    requires Grounded(w) && Leads(w, dir, chain)
    ensures PlainCount(w, dir, fuel).Some? ==>
              WalkFolder(w, dir, chain, walk, rootFiles).folders <= walk.folders + PlainCount(w, dir, fuel).value
    decreases Ahead(w, chain), 1, 0
  {
    if !walk.overCap && walk.folders + 1 <= MAX_SKILL_ENTRY_FOLDERS && w.list(dir).Some? && w.list(dir).value.Children? && fuel > 0 {
      var children := w.list(dir).value.children;
      ChildrenCount(w, dir, chain, Visit(walk), rootFiles, children, 0, fuel - 1);
      assert children[0..] == children;
    }
  }

  lemma {:induction false} ChildrenCount(w: World, dir: Path, chain: seq<Path>, walk: Walk, rootFiles: bool, children: seq<Child>, i: nat, fuel: nat)
    requires Grounded(w) && Leads(w, dir, chain) && w.list(dir) == Some(Children(children)) && i <= |children|
    ensures CountChildren(w, dir, children[i..], fuel).Some? ==>
              WalkChildren(w, dir, chain, walk, rootFiles, children, i).folders <= walk.folders + CountChildren(w, dir, children[i..], fuel).value
    decreases Ahead(w, chain), 0, |children| - i
  {
    if i < |children| {
      var c := children[i];
      var next := WalkChild(w, dir, chain, walk, rootFiles, children, i);
      assert children[i..][1..] == children[i + 1..];
      var target := ChildReal(w, dir, chain[|chain| - 1], c);
      if c.directory && target.Some? && !LoopsBack(target.value, chain) {
        ChainExtends(w, dir, chain, c);
        FolderCounts(w, dir + [c.name], chain + [target.value], walk, false, fuel);
      }
      ChildrenCount(w, dir, chain, next, rootFiles, children, i + 1, fuel);
    }
  }

  /** A walk gives up only on a folder whose plain walk reads more than 5000 folders, or does not end. */
  lemma {:induction false} GivesUpOnlyPastTheCap(w: World, path: Path, realRoot: Path, target: Path, entryFiles: bool, fuel: nat)
    requires Grounded(w) && w.realPath(path) == Some(target) && !ContainsRealPath(target, realRoot)
    requires Leads(w, path, [realRoot, target]) && WalkFolder(w, path, [realRoot, target], Unstarted, entryFiles).overCap
    ensures PlainCount(w, path, fuel).Some? ==> PlainCount(w, path, fuel).value > MAX_SKILL_ENTRY_FOLDERS
  {
    EntryNotesTruly(w, path, realRoot, target, entryFiles);
    FolderCounts(w, path, [realRoot, target], Unstarted, entryFiles, fuel);
  }
}

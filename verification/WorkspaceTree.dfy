/** The Gateway's listing of the workspace (src/workspace/files.ts, `tree`). */
module WorkspaceListing {
  const MAX_WORKSPACE_TREE_ENTRIES: nat := 5_000

  /** A workspace-relative path by its names; no name holds a slash, so its text and its names say the same. */
  type Path = seq<string>

  /** What a folder's directory entries say, links and other kinds left out. */
  datatype Node = File(name: string) | Folder(name: string, children: seq<Node>)

  datatype Entry = Entry(path: Path, directory: bool)

  /**
   * The names' order, the names refused at the root, and the entries passed over when their turn comes: vanished or
   * turned into a link since the folder was read, or at the root the same file as a reserved one.
   */
  datatype Rules = Rules(before: (string, string) -> bool, reserved: string -> bool, passed: Path -> bool)

  // ---------------------------------------------------------------- the order of a folder

  predicate Precedes(r: Rules, a: Node, b: Node) {
    if a.Folder? != b.Folder? then a.Folder? else a.name == b.name || r.before(a.name, b.name)
  }

  ghost predicate TotalOrder(r: Rules) {
    && (forall a, b | a != b :: r.before(a, b) != r.before(b, a))
    && (forall a, b, c :: r.before(a, b) && r.before(b, c) ==> r.before(a, c))
    && (forall a :: !r.before(a, a))
  }

  function Insert(r: Rules, n: Node, sorted: seq<Node>): (s: seq<Node>)
    ensures multiset(s) == multiset{n} + multiset(sorted)
    ensures |s| == |sorted| + 1 && forall m | m in s :: m == n || m in sorted
  {
    if sorted == [] then [n]
    else if Precedes(r, n, sorted[0]) then [n] + sorted
    else
      assert sorted == [sorted[0]] + sorted[1..];
      [sorted[0]] + Insert(r, n, sorted[1..])
  }

  function Sort(r: Rules, nodes: seq<Node>): (s: seq<Node>)
    ensures multiset(s) == multiset(nodes) && |s| == |nodes|
    ensures forall m | m in s :: m in nodes
  {
    if nodes == [] then []
    else
      assert nodes == [nodes[0]] + nodes[1..];
      Insert(r, nodes[0], Sort(r, nodes[1..]))
  }

  predicate Kept(r: Rules, prefix: Path, n: Node) {
    !("." <= n.name) && !(prefix == [] && r.reserved(n.name))
  }

  function Filter(r: Rules, prefix: Path, nodes: seq<Node>): (s: seq<Node>)
    ensures forall n | n in s :: n in nodes && Kept(r, prefix, n)
  {
    if nodes == [] then [] else (if Kept(r, prefix, nodes[0]) then [nodes[0]] else []) + Filter(r, prefix, nodes[1..])
  }

  function Shown(r: Rules, prefix: Path, nodes: seq<Node>): (s: seq<Node>)
    ensures forall n | n in s :: n in nodes
  {
    Sort(r, Filter(r, prefix, nodes))
  }

  ghost predicate Ordered(r: Rules, nodes: seq<Node>) {
    forall i, j | 0 <= i < j < |nodes| :: Precedes(r, nodes[i], nodes[j])
  }

  lemma {:induction false} InsertOrdered(r: Rules, n: Node, sorted: seq<Node>)
    requires TotalOrder(r) && Ordered(r, sorted)
    ensures Ordered(r, Insert(r, n, sorted))
    decreases |sorted|
  {
    if sorted != [] && !Precedes(r, n, sorted[0]) {
      var rest := Insert(r, n, sorted[1..]);
      InsertOrdered(r, n, sorted[1..]);
      forall j | 0 <= j < |rest|
        ensures Precedes(r, sorted[0], rest[j])
      {
        assert rest[j] in rest;
        if rest[j] != n {
          var k :| 0 <= k < |sorted[1..]| && sorted[1..][k] == rest[j];
          assert sorted[k + 1] == rest[j];
        }
      }
    }
  }

  /** A folder's entries come folders first, and each kind by name. */
  lemma {:induction false} SortOrdered(r: Rules, nodes: seq<Node>)
    requires TotalOrder(r)
    ensures Ordered(r, Sort(r, nodes))
    decreases |nodes|
  {
    if nodes != [] {
      SortOrdered(r, nodes[1..]);
      InsertOrdered(r, nodes[0], Sort(r, nodes[1..]));
    }
  }

  // ---------------------------------------------------------------- the full listing

  /** Every entry below a folder, each folder before what is in it. */
  function Listing(r: Rules, folder: Node, prefix: Path): seq<Entry>
    requires folder.Folder?
    decreases folder, 1
  {
    ListingOf(r, folder, Shown(r, prefix, folder.children), prefix)
  }

  function ListingOf(r: Rules, folder: Node, nodes: seq<Node>, prefix: Path): seq<Entry>
    requires folder.Folder? && forall n | n in nodes :: n in folder.children
    decreases folder, 0, |nodes|
  {
    if nodes == [] then [] else Branch(r, folder, nodes[0], prefix) + ListingOf(r, folder, nodes[1..], prefix)
  }

  function Branch(r: Rules, folder: Node, n: Node, prefix: Path): seq<Entry>
    requires folder.Folder? && n in folder.children
    decreases folder, 0, 0
  {
    var path := prefix + [n.name];
    if r.passed(path) then []
    else [Entry(path, n.Folder?)] + if n.Folder? then Listing(r, n, path) else []
  }

  // ---------------------------------------------------------------- what the listing holds

  /** There is a node at this path below the folder, told by the names alone. */
  ghost predicate Reaches(folder: Node, rel: Path, n: Node)
    requires folder.Folder?
    decreases folder
  {
    rel != [] && exists c :: c in folder.children && Leads(folder, c, rel, n)
  }

  ghost predicate Leads(folder: Node, c: Node, rel: Path, n: Node)
    requires folder.Folder? && c in folder.children && rel != []
    decreases folder, 0
  {
    c.name == rel[0] && if |rel| == 1 then c == n else c.Folder? && Reaches(c, rel[1..], n)
  }

  /** A name that may be listed at this place: not hidden, not reserved at the root, and not passed over. */
  ghost predicate Open(r: Rules, at: Path, name: string) {
    (name == "" || name[0] != '.') && (at == [] ==> !r.reserved(name)) && !r.passed(at + [name])
  }

  /** Every name on the way is such a name. */
  ghost predicate OpenTo(r: Rules, prefix: Path, rel: Path)
    decreases |rel|
  {
    rel != [] ==> Open(r, prefix, rel[0]) && OpenTo(r, prefix + [rel[0]], rel[1..])
  }

  lemma {:induction false} InFilter(r: Rules, prefix: Path, nodes: seq<Node>, n: Node)
    ensures n in Filter(r, prefix, nodes) <==> n in nodes && Kept(r, prefix, n)
    decreases |nodes|
  {
    if nodes != [] {
      InFilter(r, prefix, nodes[1..], n);
      assert n in nodes <==> n == nodes[0] || n in nodes[1..];
    }
  }

  lemma {:induction false} InShown(r: Rules, prefix: Path, nodes: seq<Node>, n: Node)
    ensures n in Shown(r, prefix, nodes) <==> n in nodes && Kept(r, prefix, n)
  {
    var kept := Filter(r, prefix, nodes);
    InFilter(r, prefix, nodes, n);
    assert n in Sort(r, kept) <==> n in multiset(Sort(r, kept));
    assert n in kept <==> n in multiset(kept);
  }

  lemma {:induction false} InListingOf(r: Rules, folder: Node, nodes: seq<Node>, prefix: Path, e: Entry)
    requires folder.Folder? && forall n | n in nodes :: n in folder.children
    ensures e in ListingOf(r, folder, nodes, prefix) <==> exists n :: n in nodes && e in Branch(r, folder, n, prefix)
    decreases |nodes|
  {
    if nodes != [] {
      hide Branch;
      var (first, rest) := (nodes[0], nodes[1..]);
      InListingOf(r, folder, rest, prefix, e);
      assert first in nodes && forall n | n in rest :: n in nodes;
      if n :| n in nodes && e in Branch(r, folder, n, prefix) {
        assert n == first || n in rest;
      }
    }
  }

  /** Every entry lies below the folder that is listed. */
  lemma {:induction false} ListedBelow(r: Rules, folder: Node, prefix: Path, e: Entry)
    requires folder.Folder? && e in Listing(r, folder, prefix)
    ensures prefix < e.path
    decreases folder
  {
    InListingOf(r, folder, Shown(r, prefix, folder.children), prefix, e);
    var n :| n in folder.children && e in Branch(r, folder, n, prefix);
    BranchBelow(r, folder, n, prefix, e);
  }

  lemma {:induction false} BranchBelow(r: Rules, folder: Node, n: Node, prefix: Path, e: Entry)
    requires folder.Folder? && n in folder.children && e in Branch(r, folder, n, prefix)
    ensures prefix + [n.name] <= e.path && (prefix + [n.name] == e.path ==> e == Entry(prefix + [n.name], n.Folder?))
    decreases folder, 0
  {
    var path := prefix + [n.name];
    if e != Entry(path, n.Folder?) {
      ListedBelow(r, n, path, e);
    }
  }

  /** What a child's part of the listing holds of the paths below the folder. */
  lemma {:induction false} BranchIff(r: Rules, folder: Node, n: Node, prefix: Path, rel: Path, directory: bool)
    requires folder.Folder? && n in folder.children && rel != []
    ensures Entry(prefix + rel, directory) in Branch(r, folder, n, prefix) <==>
            && n.name == rel[0] && !r.passed(prefix + [n.name])
            && if |rel| == 1 then directory == n.Folder?
               else n.Folder? && Entry(prefix + [n.name] + rel[1..], directory) in Listing(r, n, prefix + [n.name])
  {
    hide Listing;
    var (path, e) := (prefix + [n.name], Entry(prefix + rel, directory));
    if e in Branch(r, folder, n, prefix) {
      BranchBelow(r, folder, n, prefix, e);
      assert n.name == (prefix + rel)[|prefix|] == rel[0];
    }
    assert n.name == rel[0] ==> path + rel[1..] == prefix + rel && (|rel| == 1 ==> path == prefix + rel);
    assert |rel| > 1 ==> |prefix + rel| > |path|;
    if n.Folder? && |rel| == 1 && e in Listing(r, n, path) {
      ListedBelow(r, n, path, e);
    }
  }

  /**
   * The full listing holds exactly what is there and may be shown: a path is listed, as a folder or a file, if and only
   * if a node of that kind is at it and no name on the way is hidden, reserved at the root or passed over.
   */
  lemma {:induction false} ListedIffThere(r: Rules, folder: Node, prefix: Path, rel: Path, directory: bool)
    requires folder.Folder? && rel != []
    ensures Entry(prefix + rel, directory) in Listing(r, folder, prefix) <==>
            OpenTo(r, prefix, rel) && exists n :: Reaches(folder, rel, n) && n.Folder? == directory
    decreases folder
  {
    var (e, shown) := (Entry(prefix + rel, directory), Shown(r, prefix, folder.children));
    hide Shown, Branch, Listing;
    assert Listing(r, folder, prefix) == ListingOf(r, folder, shown, prefix) by { ListingIsOf(r, folder, prefix); }
    InListingOf(r, folder, shown, prefix, e);
    forall c | c in folder.children
      ensures c in shown && e in Branch(r, folder, c, prefix) <==>
              OpenTo(r, prefix, rel) && exists n :: Leads(folder, c, rel, n) && n.Folder? == directory
    {
      ChildIffThere(r, folder, prefix, rel, directory, c);
    }
    forall n
      ensures Reaches(folder, rel, n) <==> exists c :: c in folder.children && Leads(folder, c, rel, n)
    {
    }
  }

  lemma ListingIsOf(r: Rules, folder: Node, prefix: Path)
    requires folder.Folder?
    ensures forall n | n in Shown(r, prefix, folder.children) :: n in folder.children
    ensures Listing(r, folder, prefix) == ListingOf(r, folder, Shown(r, prefix, folder.children), prefix)
  {
  }

  lemma {:induction false} ChildIffThere(r: Rules, folder: Node, prefix: Path, rel: Path, directory: bool, c: Node)
    requires folder.Folder? && rel != [] && c in folder.children
    ensures c in Shown(r, prefix, folder.children) && Entry(prefix + rel, directory) in Branch(r, folder, c, prefix) <==>
            OpenTo(r, prefix, rel) && exists n :: Leads(folder, c, rel, n) && n.Folder? == directory
    decreases folder, 0
  {
    hide Shown, Branch, Listing;
    InShown(r, prefix, folder.children, c);
    assert "." <= c.name <==> c.name != "" && c.name[0] == '.';
    BranchIff(r, folder, c, prefix, rel, directory);
    if |rel| == 1 {
      assert Leads(folder, c, rel, c) <==> c.name == rel[0];
    } else if c.Folder? {
      ListedIffThere(r, c, prefix + [c.name], rel[1..], directory);
    }
  }

  function Take<T>(s: seq<T>, n: nat): seq<T> {
    if |s| <= n then s else s[..n]
  }

  /** `more` went behind `before` as far as there is room: all of it when `complete`, otherwise there is no room left. */
  ghost predicate Fitted(r: Rules, before: seq<Entry>, more: seq<Entry>, entries: seq<Entry>, complete: bool) {
    && entries == Take(before + more, MAX_WORKSPACE_TREE_ENTRIES)
    && (complete ==> |before + more| <= MAX_WORKSPACE_TREE_ENTRIES)
    && (!complete ==> |entries| == MAX_WORKSPACE_TREE_ENTRIES)
    && (NonePassed(r) ==> (complete <==> |before + more| <= MAX_WORKSPACE_TREE_ENTRIES))
  }

  ghost predicate NonePassed(r: Rules) {
    forall p :: !r.passed(p)
  }

  lemma NothingDone(r: Rules, entries: seq<Entry>)
    requires |entries| <= MAX_WORKSPACE_TREE_ENTRIES
    ensures Fitted(r, entries, [], entries, true)
  {
    assert entries + [] == entries;
  }

  lemma BranchShows(r: Rules, folder: Node, n: Node, prefix: Path)
    requires folder.Folder? && n in folder.children
    ensures NonePassed(r) ==> Branch(r, folder, n, prefix) != []
  {
  }

  lemma NoRoom(r: Rules, before: seq<Entry>, done: seq<Entry>, entries: seq<Entry>, branch: seq<Entry>, rest: seq<Entry>)
    requires Fitted(r, before, done, entries, true) && |entries| == MAX_WORKSPACE_TREE_ENTRIES
    requires NonePassed(r) ==> branch != []
    ensures Fitted(r, before, done + branch + rest, entries, false)
  {
    assert before + (done + branch + rest) == before + done + (branch + rest);
  }

  lemma OneMore(r: Rules, before: seq<Entry>, done: seq<Entry>, middle: seq<Entry>, branch: seq<Entry>, entries: seq<Entry>,
                whole: bool, rest: seq<Entry>)
    requires Fitted(r, before, done, middle, true) && Fitted(r, middle, branch, entries, whole)
    ensures Fitted(r, before, done + branch, entries, whole)
    ensures !whole ==> Fitted(r, before, done + branch + rest, entries, false)
  {
    assert before + (done + branch) == middle + branch;
    assert before + (done + branch + rest) == middle + branch + rest;
  }

  class WorkspaceTree {
    const r: Rules
    var entries: seq<Entry>

    constructor (r: Rules)
      ensures this.r == r && entries == []
    {
      this.r, entries := r, [];
    }

    /** `visit`: the folder's part of the listing as far as there is room, and whether none was left out for want of it. */
    method Visit(folder: Node, prefix: Path) returns (complete: bool)
      requires folder.Folder? && |entries| <= MAX_WORKSPACE_TREE_ENTRIES
      modifies this
      ensures Fitted(r, old(entries), Listing(r, folder, prefix), entries, complete)
      decreases folder, 1
    {
      hide Branch, Fitted, Shown;
      var children := Shown(r, prefix, folder.children);
      var i := 0;
      assert children[0..] == children;
      ghost var done: seq<Entry> := [];
      assert Fitted(r, old(entries), done, entries, true) by { NothingDone(r, entries); }
      while i < |children|
        invariant i <= |children| && |entries| <= MAX_WORKSPACE_TREE_ENTRIES
        invariant Fitted(r, old(entries), done, entries, true)
        invariant done + ListingOf(r, folder, children[i..], prefix) == Listing(r, folder, prefix)
      {
        var child := children[i];
        assert child in folder.children;
        ghost var (branch, rest) := (Branch(r, folder, child, prefix), ListingOf(r, folder, children[i + 1..], prefix));
        assert children[i..][1..] == children[i + 1..];
        assert done + (branch + rest) == done + branch + rest;
        BranchShows(r, folder, child, prefix);
        if |entries| == MAX_WORKSPACE_TREE_ENTRIES {
          NoRoom(r, old(entries), done, entries, branch, rest);
          return false;
        }
        i := i + 1;
        ghost var before := entries;
        var whole := VisitChild(folder, child, prefix);
        OneMore(r, old(entries), done, before, branch, entries, whole, rest);
        if !whole {
          return false;
        }
        done := done + branch;
      }
      assert children[i..] == [] && done + [] == done;
      return true;
    }

    /** The loop's body, once there is room. */
    method VisitChild(folder: Node, child: Node, prefix: Path) returns (whole: bool)
      requires folder.Folder? && child in folder.children && |entries| < MAX_WORKSPACE_TREE_ENTRIES
      modifies this
      ensures Fitted(r, old(entries), Branch(r, folder, child, prefix), entries, whole)
      ensures |entries| <= MAX_WORKSPACE_TREE_ENTRIES
      decreases folder, 0
    {
      var path := prefix + [child.name];
      if r.passed(path) {
        return true;
      }
      entries := entries + [Entry(path, child.Folder?)];
      if !child.Folder? {
        return true;
      }
      ghost var all := entries + Listing(r, child, path);
      assert all == old(entries) + Branch(r, folder, child, prefix);
      whole := Visit(child, path);
    }

    /** `tree`: the first entries of the full listing, all of them unless it says truncated. */
    method Tree(root: Node) returns (truncated: bool)
      requires root.Folder? && entries == []
      modifies this
      ensures entries == Take(Listing(r, root, []), MAX_WORKSPACE_TREE_ENTRIES)
      ensures !truncated ==> entries == Listing(r, root, [])
      ensures NonePassed(r) ==> (truncated <==> |Listing(r, root, [])| > MAX_WORKSPACE_TREE_ENTRIES)
    {
      var complete := Visit(root, []);
      assert [] + Listing(r, root, []) == Listing(r, root, []);
      return !complete;
    }
  }
}

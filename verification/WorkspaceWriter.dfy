/**
 * One workspace write at the Gateway (src/workspace/files.ts, `writeNow`) over a filesystem in which any
 * call may fail. Writes are serialized, so nothing else changes the tree meanwhile; the calls that
 * clean up after a failure are taken to succeed.
 */
module WorkspaceWriter {
  import opened Wrappers
  import opened WorkspaceEditor

  const MAX_PATH_BYTES: nat := 1_023
  const TEMPORARY_NAME_BYTES: nat := 29
  const RESERVED_NAMES: seq<string> := ["AGENTS.md", "artifacts", "skills"]

  /** Names below the workspace root, as the filesystem compares them. */
  type Path = seq<string>

  /** `id` is the (device, inode) pair. */
  datatype Node = Folder(id: nat) | Regular(id: nat, content: string, mode: nat) | Link(id: nat)

  type Tree = map<Path, Node>

  datatype Refusal =
    | TooLong
    | TooLarge
    | NotFound
    | ReservedPath
    | SymlinkRejected
    | InvalidPath
    | FileChanged
    | Fault

  /** `Uncertain`: the write took effect and a later call failed. `Leaked`: the new root file could not be closed. */
  datatype Outcome = Written(created: bool) | Refused(error: Refusal) | Uncertain | Leaked

  /** Every node but those at the root lies in a folder. */
  ghost predicate Closed(nodes: Tree) {
    && [] !in nodes
    && forall p | p in nodes && |p| > 1 :: p[..|p| - 1] in nodes && nodes[p[..|p| - 1]].Folder?
  }

  /** How the filesystem compares names; hidden names stay hidden. */
  ghost predicate KeepsHidden(fold: string -> string) {
    forall name :: Hidden(name) <==> Hidden(fold(name))
  }

  predicate Hidden(name: string) {
    name != "" && name[0] == '.'
  }

  class Disk {
    var nodes: Tree
    var clock: nat
    const fails: nat -> bool
    const fold: string -> string

    constructor (nodes: Tree, fails: nat -> bool, fold: string -> string)
      ensures this.nodes == nodes && this.fails == fails && this.fold == fold && clock == 0
    {
      this.nodes, this.fails, this.fold, clock := nodes, fails, fold, 0;
    }

    /** No call made since `from` has failed. */
    ghost predicate Granted(from: nat)
      reads this
    {
      forall k | from <= k < clock :: !fails(k)
    }

    /** Of the calls made since `from` the last has failed and no other. */
    ghost predicate OnlyLastFailed(from: nat)
      reads this
    {
      from < clock && fails(clock - 1) && forall k | from <= k < clock - 1 :: !fails(k)
    }

    /** A call that changes nothing: it fails when its turn says so. */
    method Call() returns (ok: bool)
      modifies this`clock
      ensures clock == old(clock) + 1 && ok == !fails(old(clock))
    {
      ok := !fails(clock);
      clock := clock + 1;
    }

    method Lstat(path: Path) returns (ok: bool, node: Option<Node>)
      modifies this`clock
      ensures clock == old(clock) + 1 && ok == !fails(old(clock))
      ensures ok ==> node == if path in nodes then Some(nodes[path]) else None
    {
      ok := Call();
      node := if path in nodes then Some(nodes[path]) else None;
    }

    method Put(path: Path, node: Node) returns (ok: bool)
      modifies this
      ensures clock == old(clock) + 1 && ok == !fails(old(clock))
      ensures nodes == if ok then old(nodes)[path := node] else old(nodes)
    {
      ok := Call();
      if ok {
        nodes := nodes[path := node];
      }
    }

    method Rename(from: Path, to: Path) returns (ok: bool)
      requires from in nodes && from != to
      modifies this
      ensures clock == old(clock) + 1 && ok == !fails(old(clock))
      ensures nodes == if ok then (old(nodes) - {from})[to := old(nodes)[from]] else old(nodes)
    {
      ok := Call();
      if ok {
        nodes := (nodes - {from})[to := nodes[from]];
      }
    }

    /** Cleanup: `rm` with `force`. */
    method Remove(path: Path)
      modifies this`nodes
      ensures nodes == old(nodes) - {path}
    {
      nodes := nodes - {path};
    }

    /** Cleanup: `rmdir`, whose refusal of a folder that is not empty is swallowed. */
    method RemoveFolder(path: Path)
      modifies this`nodes
      ensures nodes == if Empty(old(nodes), path) then old(nodes) - {path} else old(nodes)
    {
      if Empty(nodes, path) {
        nodes := nodes - {path};
      }
    }
  }

  predicate Empty(nodes: Tree, path: Path) {
    forall p | p in nodes :: !(path < p)
  }

  /** The entry a root name reaches is one of the harness's own, whatever its spelling. */
  predicate ReachesReserved(nodes: Tree, fold: string -> string, name: string) {
    [fold(name)] in nodes &&
    exists r | r in RESERVED_NAMES :: [fold(r)] in nodes && nodes[[fold(r)]].id == nodes[[fold(name)]].id
  }

  /** The same of a name whose entry is made first, with this identity, when it is missing. */
  ghost predicate Reserves(nodes: Tree, fold: string -> string, name: string, id: nat) {
    var key := [fold(name)];
    var mine := if key in nodes then nodes[key].id else id;
    exists r | r in RESERVED_NAMES :: [fold(r)] == key || ([fold(r)] in nodes && nodes[[fold(r)]].id == mine)
  }

  lemma ReservesReaches(nodes: Tree, fold: string -> string, name: string, node: Node)
    ensures var key := [fold(name)];
            Reserves(nodes, fold, name, node.id) <==> ReachesReserved(if key in nodes then nodes else nodes[key := node], fold, name)
    ensures ReachesReserved(nodes, fold, name) ==> [fold(name)] in nodes && Reserves(nodes, fold, name, node.id)
  {
  }

  /** A name the write goes through as a folder: missing, or a folder already. */
  predicate Passable(nodes: Tree, path: Path) {
    path in nodes ==> nodes[path].Folder?
  }

  predicate PassableAt(nodes: Tree, path: Path, k: nat) {
    k <= |path| ==> Passable(nodes, path[..k])
  }

  /** `nodes` is `before` with the folders of `path` longer than `m` and up to `n` made, and nothing else. */
  ghost predicate OnlyMade(before: Tree, nodes: Tree, path: Path, m: nat, n: nat) {
    && m <= n <= |path|
    && (forall p :: p in nodes <==> p in before || IsMade(path, m, n, p))
    && (forall p | p in before :: nodes[p] == before[p])
    && (forall p | IsMade(path, m, n, p) :: p !in before && nodes[p].Folder?)
  }

  ghost predicate IsMade(path: Path, m: nat, n: nat, p: Path) {
    m < |p| <= n && p <= path
  }

  /** The list of the folders made, outermost first. */
  function Prefixes(path: Path, m: nat, n: nat): seq<Path>
    requires m <= n <= |path|
  {
    seq(n - m, i requires 0 <= i < n - m => path[..m + 1 + i])
  }

  lemma PrefixAt(path: Path, m: nat, n: nat, i: nat)
    requires m <= n <= |path| && i < n - m
    ensures |Prefixes(path, m, n)| == n - m && Prefixes(path, m, n)[i] == path[..m + i + 1]
  {
  }

  lemma MadeBounds(before: Tree, nodes: Tree, path: Path, m: nat, n: nat)
    requires OnlyMade(before, nodes, path, m, n)
    ensures m <= n <= |path| && |Prefixes(path, m, n)| == n - m
  {
  }

  lemma PrefixesGrow(path: Path, m: nat, n: nat)
    requires m <= n < |path|
    ensures Prefixes(path, m, n) + [path[..n + 1]] == Prefixes(path, m, n + 1)
    ensures Prefixes(path, n, n) == Prefixes(path, n + 1, n + 1) == []
  {
  }

  function Key(fold: string -> string, segments: seq<string>): Path {
    seq(|segments|, i requires 0 <= i < |segments| => fold(segments[i]))
  }

  function PathBytes(bytes: string -> nat, segments: seq<string>): nat {
    if segments == [] then 0 else PathBytes(bytes, segments[..|segments| - 1]) + 1 + bytes(segments[|segments| - 1])
  }

  class WorkspaceFiles {
    const disk: Disk
    const rootBytes: nat
    const maxChars: nat
    const bytes: string -> nat

    constructor (disk: Disk, rootBytes: nat, maxChars: nat, bytes: string -> nat)
      ensures this.disk == disk && this.rootBytes == rootBytes && this.maxChars == maxChars && this.bytes == bytes
    {
      this.disk, this.rootBytes, this.maxChars, this.bytes := disk, rootBytes, maxChars, bytes;
    }

    /** An identity the reserved names do not have; `None` when a call failed. */
    method Reserved(name: string) returns (reserved: Option<bool>)
      modifies disk`clock
      ensures reserved.Some? ==> reserved.value == ReachesReserved(disk.nodes, disk.fold, name)
      ensures disk.clock > old(disk.clock) && (reserved.Some? <==> disk.Granted(old(disk.clock)))
      ensures [disk.fold(name)] !in disk.nodes ==> disk.clock == old(disk.clock) + 1
    {
      var ok, node := disk.Lstat([disk.fold(name)]);
      if !ok {
        return None;
      }
      if node == None {
        return Some(false);
      }
      var found := false;
      var i := 0;
      while i < |RESERVED_NAMES|
        invariant i <= |RESERVED_NAMES| && disk.clock > old(disk.clock) && disk.Granted(old(disk.clock))
        invariant found <==> exists r | r in RESERVED_NAMES[..i] ::
                    [disk.fold(r)] in disk.nodes && disk.nodes[[disk.fold(r)]].id == node.value.id
      {
        var okay, other := disk.Lstat([disk.fold(RESERVED_NAMES[i])]);
        if !okay {
          return None;
        }
        found := found || (other.Some? && other.value.id == node.value.id);
        assert RESERVED_NAMES[..i + 1] == RESERVED_NAMES[..i] + [RESERVED_NAMES[i]];
        i := i + 1;
      }
      assert RESERVED_NAMES[..i] == RESERVED_NAMES;
      return Some(found);
    }

    /** One folder on the way: made when it is missing. */
    method Enter(path: Path, index: nat, id: nat, ghost before: Tree, ghost m: nat) returns (error: Option<Refusal>, node: Node, made: bool)
      requires Closed(before) && OnlyMade(before, disk.nodes, path, m, index) && index < |path|
      requires index > 0 ==> path[..index] in disk.nodes && disk.nodes[path[..index]].Folder?
      modifies disk
      ensures made ==> OnlyMade(before, disk.nodes, path, m, index + 1)
      ensures made ==> disk.nodes == old(disk.nodes)[path[..index + 1] := Node.Folder(id)]
      ensures !made ==> disk.nodes == old(disk.nodes)
      ensures disk.clock > old(disk.clock) && (error == None <==> disk.Granted(old(disk.clock)))
      ensures error == None ==> path[..index + 1] in disk.nodes && node == disk.nodes[path[..index + 1]]
      ensures error == None ==> (made <==> path[..index + 1] !in old(disk.nodes))
      ensures error == None && !made ==> m == index && OnlyMade(before, disk.nodes, path, index + 1, index + 1)
    {
      hide Closed, OnlyMade;
      var folder := path[..index + 1];
      made := false;
      node := Link(0);
      var ok, found := disk.Lstat(folder);
      if !ok {
        return Some(Fault), node, made;
      }
      if found == None {
        made := disk.Put(folder, Node.Folder(id));
        if !made {
          return Some(Fault), node, made;
        }
        MadeOneMore(before, old(disk.nodes), path, m, index, id);
        ok, found := disk.Lstat(folder);
        if !ok {
          return Some(Fault), node, made;
        }
      } else {
        NothingMadeAbove(before, disk.nodes, path, m, index);
      }
      return None, found.value, made;
    }

    /** One turn of the walk: the folder is entered, and refused if it is reserved, a link or a file. */
    method Visit(segments: seq<string>, path: Path, index: nat, id: nat, ghost before: Tree, ghost m: nat) returns (error: Option<Refusal>, made: bool)
      requires Closed(before) && OnlyMade(before, disk.nodes, path, m, index) && index < |path|
      requires index > 0 ==> path[..index] in disk.nodes && disk.nodes[path[..index]].Folder?
      requires segments != [] && path[0] == disk.fold(segments[0])
      modifies disk
      ensures made ==> OnlyMade(before, disk.nodes, path, m, index + 1)
      ensures !made ==> disk.nodes == old(disk.nodes)
      ensures error == None ==> path[..index + 1] in disk.nodes && disk.nodes[path[..index + 1]].Folder?
      ensures error == None && !made ==> m == index && OnlyMade(before, disk.nodes, path, index + 1, index + 1)
      ensures error == None && (index > 0 ==> !ReachesReserved(old(disk.nodes), disk.fold, segments[0])) ==>
                !ReachesReserved(disk.nodes, disk.fold, segments[0])
      ensures disk.clock > old(disk.clock)
      ensures error == None <==>
                && disk.Granted(old(disk.clock))
                && Passable(old(disk.nodes), path[..index + 1])
                && (index == 0 ==> !Reserves(old(disk.nodes), disk.fold, segments[0], id))
    {
      var node: Node;
      error, node, made := Enter(path, index, id, before, m);
      if error.Some? {
        return;
      }
      if index == 0 {
        assert path[..1] == [disk.fold(segments[0])];
        ReservesReaches(old(disk.nodes), disk.fold, segments[0], Node.Folder(id));
        var reserved := Reserved(segments[0]);
        if reserved == None {
          return Some(Fault), made;
        }
        if reserved.value {
          return Some(ReservedPath), made;
        }
      }
      if node.Link? {
        return Some(SymlinkRejected), made;
      }
      if !node.Folder? {
        return Some(InvalidPath), made;
      }
    }

    /** Every name on the way can be passed, and the first is not one of the harness's own. */
    ghost predicate WayIsClear(nodes: Tree, segments: seq<string>, id: nat)
      requires segments != []
    {
      |segments| > 1 ==>
        && !Reserves(nodes, disk.fold, segments[0], id)
        && forall k | 0 < k < |segments| :: PassableAt(nodes, Key(disk.fold, segments), k)
    }

    /** Walks to the path's folder and makes the missing ones. */
    method ParentOf(segments: seq<string>, id: nat) returns (error: Option<Refusal>, folder: Path, made: seq<Path>, ghost m: nat, ghost n: nat)
      requires |segments| > 0 && Closed(disk.nodes)
      modifies disk
      ensures folder == Key(disk.fold, segments[..|segments| - 1])
      ensures OnlyMade(old(disk.nodes), disk.nodes, folder, m, n) && made == Prefixes(folder, m, n)
      ensures error == None ==> n == |folder| && (folder == [] || (folder in disk.nodes && disk.nodes[folder].Folder?))
      ensures error == None && |segments| > 1 ==> !ReachesReserved(disk.nodes, disk.fold, segments[0])
      ensures disk.clock >= old(disk.clock) && (|segments| == 1 ==> disk.clock == old(disk.clock))
      ensures error == None <==> disk.Granted(old(disk.clock)) && WayIsClear(old(disk.nodes), segments, id)
    {
      hide Closed, ReachesReserved, Reserves, OnlyMade, Prefixes, Passable;
      folder := Key(disk.fold, segments[..|segments| - 1]);
      made, m, n := [], 0, 0;
      ghost var before := disk.nodes;
      NothingMadeYet(before, folder);
      ghost var all := Key(disk.fold, segments);
      assert forall k | 0 <= k < |segments| :: folder[..k] == all[..k];
      var index := 0;
      while index < |segments| - 1
        invariant index <= |segments| - 1 && n == index && m <= n
        invariant OnlyMade(before, disk.nodes, folder, m, n) && made == Prefixes(folder, m, n)
        invariant index > 0 ==> folder[..index] in disk.nodes && disk.nodes[folder[..index]].Folder?
        invariant index > 0 ==> !ReachesReserved(disk.nodes, disk.fold, segments[0])
        invariant disk.clock >= old(disk.clock) && (index == 0 ==> disk.clock == old(disk.clock)) && disk.Granted(old(disk.clock))
        invariant forall k | 0 < k <= index :: PassableAt(before, all, k)
        invariant index > 0 ==> !Reserves(before, disk.fold, segments[0], id)
      {
        NotYetMade(before, disk.nodes, folder, m, index);
        PrefixesGrow(folder, m, index);
        assert PassableAt(before, all, index + 1) == Passable(before, folder[..index + 1]);
        var isNew: bool;
        error, isNew := Visit(segments, folder, index, id, before, m);
        if isNew {
          made := made + [folder[..index + 1]];
          n := n + 1;
        }
        if error.Some? {
          return;
        }
        if !isNew {
          m, n := index + 1, index + 1;
        }
        index := index + 1;
      }
      assert folder[..index] == folder;
      error := None;
    }

    /** What a write may replace: nothing, or a regular file that is not too large. */
    predicate Replaceable(nodes: Tree, target: Path) {
      target in nodes ==> nodes[target].Regular? && bytes(nodes[target].content) <= MAX_UTF8_BYTES * maxChars
    }

    /** The file a write replaces, refused when it is not a regular file or too large. */
    method ReadCurrent(target: Path) returns (error: Option<Refusal>, current: Option<Node>)
      modifies disk`clock
      ensures error == None ==> current == (if target in disk.nodes then Some(disk.nodes[target]) else None)
      ensures error == None && current.Some? ==> current.value.Regular?
      ensures disk.clock > old(disk.clock) && (target !in disk.nodes ==> disk.clock == old(disk.clock) + 1)
      ensures error == None <==> disk.Granted(old(disk.clock)) && Replaceable(disk.nodes, target)
    {
      var ok, node := disk.Lstat(target);
      if !ok {
        return Some(Fault), None;
      }
      if node == None {
        return None, None;
      }
      if node.value.Link? {
        return Some(SymlinkRejected), None;
      }
      if !node.value.Regular? {
        return Some(InvalidPath), None;
      }
      if bytes(node.value.content) > MAX_UTF8_BYTES * maxChars {
        return Some(TooLarge), None;
      }
      var isOpen := disk.Call();
      if !isOpen {
        return Some(Fault), None;
      }
      var read := disk.Call();
      var stated := false;
      if read {
        stated := disk.Call();
      }
      var closed := disk.Call();
      if !read || !stated || !closed {
        return Some(Fault), None;
      }
      return None, node;
    }

    /** The folders a failed write made go again, innermost first. */
    method RemoveMade(made: seq<Path>, ghost folder: Path, ghost m: nat, ghost n: nat, ghost before: Tree)
      requires Closed(before) && OnlyMade(before, disk.nodes, folder, m, n) && made == Prefixes(folder, m, n)
      modifies disk`nodes
      ensures disk.nodes == before
    {
      hide Closed, OnlyMade, Empty, Prefixes;
      var left := |made|;
      MadeBounds(before, disk.nodes, folder, m, n);
      while left > 0
        invariant 0 <= left <= |made|
        invariant OnlyMade(before, disk.nodes, folder, m, m + left)
      {
        left := left - 1;
        UnmadeOne(before, disk.nodes, folder, m, m + left);
        PrefixAt(folder, m, n, left);
        disk.RemoveFolder(made[left]);
      }
      NothingLeft(before, disk.nodes, folder, m);
    }

    /** Puts the content in a hidden file beside the target and renames it over; a failure takes the hidden file away. */
    method Replace(temporary: Path, target: Path, current: Option<Node>, content: string, id: nat) returns (ok: bool)
      requires temporary != target
      requires current.Some? ==> current.value.Regular?
      modifies disk
      ensures disk.nodes == if ok then old(disk.nodes)[target := Regular(id, content, NewMode(current))] else old(disk.nodes)
      ensures disk.clock >= old(disk.clock)
      ensures ok <==> temporary !in old(disk.nodes) && disk.Granted(old(disk.clock))
    {
      if temporary in disk.nodes {
        return false;
      }
      ghost var before := disk.nodes;
      ok := disk.Put(temporary, Regular(id, "", 0x180));
      if !ok {
        return;
      }
      ok := Fill(temporary, current, content, id);
      if ok {
        ok := disk.Rename(temporary, target);
      }
      if ok {
        assert disk.nodes == before[target := Regular(id, content, NewMode(current))];
      } else {
        disk.Remove(temporary);
        assert disk.nodes == before;
      }
    }

    /** Mode, content, sync and close, on a file that is already there. */
    method Fill(temporary: Path, current: Option<Node>, content: string, id: nat) returns (ok: bool)
      requires temporary in disk.nodes && disk.nodes[temporary] == Regular(id, "", 0x180)
      requires current.Some? ==> current.value.Regular?
      modifies disk
      ensures temporary in disk.nodes && disk.nodes == old(disk.nodes)[temporary := disk.nodes[temporary]]
      ensures ok ==> disk.nodes[temporary] == Regular(id, content, NewMode(current))
      ensures disk.clock > old(disk.clock) && (ok <==> disk.Granted(old(disk.clock)))
    {
      ok := true;
      if current.Some? {
        ok := disk.Put(temporary, Regular(id, "", NewMode(current)));
      }
      if ok {
        ok := disk.Put(temporary, Regular(id, content, NewMode(current)));
      }
      if ok {
        ok := disk.Call();
      }
      var closed := disk.Call();
      ok := ok && closed;
    }

    predicate PathTooLong(segments: seq<string>)
      requires segments != []
    {
      var name := bytes(segments[|segments| - 1]);
      rootBytes + PathBytes(bytes, segments[..|segments| - 1]) + 1
        + (if name > TEMPORARY_NAME_BYTES then name else TEMPORARY_NAME_BYTES) > MAX_PATH_BYTES
    }

    /** Neither the file's own path nor that of the hidden file beside it may be longer than the system allows. */
    lemma PathFits(segments: seq<string>)
      requires segments != []
      ensures !PathTooLong(segments) <==>
              && rootBytes + PathBytes(bytes, segments) <= MAX_PATH_BYTES
              && rootBytes + PathBytes(bytes, segments[..|segments| - 1]) + 1 + TEMPORARY_NAME_BYTES <= MAX_PATH_BYTES
    {
    }

    /** The write is within the limits and meets no link, no file as a folder, no reserved name, no other base and no namesake. */
    ghost predicate Writable(nodes: Tree, segments: seq<string>, content: string, baseRevision: Option<Revision>, temporary: string, id: nat)
      requires segments != []
    {
      var target := Key(disk.fold, segments);
      && !PathTooLong(segments) && |content| <= maxChars
      && WayIsClear(nodes, segments, id)
      && Admits(nodes, segments, baseRevision, temporary, id)
    }

    /** The part of it that is about the file itself. */
    ghost predicate Admits(nodes: Tree, segments: seq<string>, baseRevision: Option<Revision>, temporary: string, id: nat)
      requires segments != []
    {
      var target := Key(disk.fold, segments);
      && (|segments| == 1 ==> !Reserves(nodes, disk.fold, segments[0], id))
      && Replaceable(nodes, target)
      && (baseRevision.Some? ==> StoredRevision(nodes, target) == baseRevision)
      && ParentPath(target) + [disk.fold(temporary)] !in nodes
    }

    /**
     * The one way to leave something behind: a new root file, within the limits and with no base, whose calls are
     * all granted up to the opening of its empty placeholder, and the call that closes it fails.
     */
    ghost predicate PlaceholderStays(nodes: Tree, clock: nat, segments: seq<string>, content: string, baseRevision: Option<Revision>)
      requires segments != []
    {
      && |segments| == 1 && Key(disk.fold, segments) !in nodes
      && !PathTooLong(segments) && |content| <= maxChars && baseRevision == None
      && (forall k | clock <= k < clock + 4 :: !disk.fails(k)) && disk.fails(clock + 4)
    }

    /**
     * A write either takes effect as a whole or leaves the tree exactly as it was, with the one exception above. It
     * is written exactly when nothing forbids it and no call fails.
     */
    method WriteNow(segments: seq<string>, content: string, baseRevision: Option<Revision>, temporary: string, id: nat)
      returns (outcome: Outcome)
      requires segments != [] && (forall name | name in segments :: !Hidden(name))
      requires Hidden(temporary) && KeepsHidden(disk.fold)
      requires Closed(disk.nodes)
      modifies disk
      ensures Effect(old(disk.nodes), disk.nodes, Key(disk.fold, segments), content, id, outcome)
      ensures baseRevision.Some? && StoredRevision(old(disk.nodes), Key(disk.fold, segments)) != baseRevision ==> outcome.Refused?
      ensures outcome.Written? && |segments| > 1 ==> !ReachesReserved(disk.nodes, disk.fold, segments[0])
      ensures outcome.Written? <==>
                disk.Granted(old(disk.clock)) && Writable(old(disk.nodes), segments, content, baseRevision, temporary, id)
      ensures outcome == Uncertain ==>
                disk.OnlyLastFailed(old(disk.clock)) && Writable(old(disk.nodes), segments, content, baseRevision, temporary, id)
      ensures outcome == Leaked <==> PlaceholderStays(old(disk.nodes), old(disk.clock), segments, content, baseRevision)
    {
      hide Closed, Reserves, ReachesReserved, Admits, OnlyMade, WroteExactly, PathTooLong, StoredRevision;
      ghost var before := disk.nodes;
      var located := disk.Call();
      if !located {
        return Refused(Fault);
      }
      if PathTooLong(segments) {
        return Refused(TooLong);
      }
      if |content| > maxChars {
        return Refused(TooLarge);
      }
      var error, folder, made, m, n := ParentOf(segments, id);
      if error.Some? {
        RemoveMade(made, folder, m, n, before);
        return Refused(error.value);
      }
      outcome := WriteIn(segments, folder, content, baseRevision, temporary, id, before, m);
      if outcome.Refused? {
        RemoveMade(made, folder, m, n, before);
      } else if baseRevision.Some? {
        AdmitsTheBase(before, segments, content, baseRevision, temporary, id);
      }
    }

    lemma AdmitsTheBase(nodes: Tree, segments: seq<string>, content: string, baseRevision: Option<Revision>, temporary: string, id: nat)
      requires segments != [] && Writable(nodes, segments, content, baseRevision, temporary, id) && baseRevision.Some?
      ensures StoredRevision(nodes, Key(disk.fold, segments)) == baseRevision
    {
    }

    /** The refusals that come before anything is put at the target. */
    method Permit(name: string, target: Path, atRoot: bool, baseRevision: Option<Revision>) returns (error: Option<Refusal>, current: Option<Node>)
      modifies disk`clock
      ensures error == None ==> current == (if target in disk.nodes then Some(disk.nodes[target]) else None)
      ensures error == None && current.Some? ==> current.value.Regular?
      ensures disk.clock > old(disk.clock)
      ensures error == None <==>
                && disk.Granted(old(disk.clock))
                && (atRoot ==> !ReachesReserved(disk.nodes, disk.fold, name))
                && Replaceable(disk.nodes, target)
                && (baseRevision.Some? ==> StoredRevision(disk.nodes, target) == baseRevision)
      ensures atRoot && target == [disk.fold(name)] && target !in disk.nodes ==>
                disk.clock <= old(disk.clock) + 2 && (error == None ==> disk.clock == old(disk.clock) + 2)
    {
      current := None;
      if atRoot {
        var reserved := Reserved(name);
        if reserved == None {
          return Some(Fault), None;
        }
        if reserved.value {
          return Some(ReservedPath), None;
        }
      }
      error, current := ReadCurrent(target);
      if error.Some? {
        return;
      }
      var revision := if current == None then None else Some(RevisionOf(current.value.content));
      if baseRevision.Some? && baseRevision != revision {
        error := Some(FileChanged);
      }
    }

    /** A new root file is created empty first, so that its identity can be compared. */
    method Place(name: string, target: Path, id: nat) returns (failure: Option<Outcome>)
      requires target !in disk.nodes && target == [disk.fold(name)]
      modifies disk
      ensures match failure
              case None => disk.nodes == old(disk.nodes)[target := Regular(id, "", 0x180)]
              case Some(Refused(_)) => disk.nodes == old(disk.nodes)
              case Some(Leaked) => disk.nodes == old(disk.nodes)[target := Regular(id, "", 0x180)]
              case _ => false
      ensures disk.clock > old(disk.clock)
      ensures failure == None <==> disk.Granted(old(disk.clock)) && !Reserves(old(disk.nodes), disk.fold, name, id)
      ensures failure == Some(Leaked) <==> !disk.fails(old(disk.clock)) && disk.fails(old(disk.clock) + 1)
    {
      ghost var before := disk.nodes;
      var isOpen := disk.Put(target, Regular(id, "", 0x180));
      if !isOpen {
        return Some(Refused(Fault));
      }
      var closed := disk.Call();
      if !closed {
        return Some(Leaked);
      }
      ReservesReaches(before, disk.fold, name, Regular(id, "", 0x180));
      var reserved := Reserved(name);
      if reserved == None || reserved.value {
        disk.Remove(target);
        assert disk.nodes == before;
        return Some(Refused(if reserved == None then Fault else ReservedPath));
      }
      return None;
    }

    /** All that comes before the content: what may be replaced, and the empty placeholder of a new root file. */
    method Prepare(name: string, target: Path, atRoot: bool, baseRevision: Option<Revision>, id: nat)
      returns (failure: Option<Outcome>, current: Option<Node>, placeholder: bool)
      requires atRoot ==> target == [disk.fold(name)]
      modifies disk
      ensures match failure
              case None =>
                && current == (if target in old(disk.nodes) then Some(old(disk.nodes)[target]) else None)
                && (current.Some? ==> current.value.Regular?)
                && placeholder == (current == None && atRoot)
                && disk.nodes == (if placeholder then old(disk.nodes)[target := Regular(id, "", 0x180)] else old(disk.nodes))
              case Some(Refused(_)) => disk.nodes == old(disk.nodes)
              case Some(Leaked) => disk.nodes == old(disk.nodes)[target := Regular(id, "", 0x180)]
              case _ => false
      ensures disk.clock > old(disk.clock)
      ensures failure == None <==>
                && disk.Granted(old(disk.clock))
                && (atRoot ==> !Reserves(old(disk.nodes), disk.fold, name, id))
                && Replaceable(old(disk.nodes), target)
                && (baseRevision.Some? ==> StoredRevision(old(disk.nodes), target) == baseRevision)
      ensures failure == Some(Leaked) <==>
                && atRoot && target !in old(disk.nodes) && baseRevision == None
                && (forall k | old(disk.clock) <= k < old(disk.clock) + 3 :: !disk.fails(k)) && disk.fails(old(disk.clock) + 3)
    {
      hide ReachesReserved, Reserves;
      ReservesReaches(disk.nodes, disk.fold, name, Node.Folder(id));
      var error;
      error, current := Permit(name, target, atRoot, baseRevision);
      placeholder := current == None && atRoot;
      if error.Some? {
        return Some(Refused(error.value)), None, false;
      }
      if placeholder {
        failure := Place(name, target, id);
      } else {
        failure := None;
      }
    }

    /** The write once its folder is there. */
    method WriteIn(segments: seq<string>, folder: Path, content: string, baseRevision: Option<Revision>, temporary: string, id: nat,
                   ghost before: Tree, ghost m: nat)
      returns (outcome: Outcome)
      requires segments != [] && (forall name | name in segments :: !Hidden(name))
      requires Hidden(temporary) && KeepsHidden(disk.fold)
      requires Closed(before) && folder == Key(disk.fold, segments[..|segments| - 1])
      requires OnlyMade(before, disk.nodes, folder, m, |folder|)
      requires |segments| > 1 ==> !ReachesReserved(disk.nodes, disk.fold, segments[0])
      modifies disk
      ensures outcome.Refused? ==> disk.nodes == old(disk.nodes)
      ensures !outcome.Refused? ==> Effect(before, disk.nodes, Key(disk.fold, segments), content, id, outcome)
      ensures outcome.Written? && |segments| > 1 ==> !ReachesReserved(disk.nodes, disk.fold, segments[0])
      ensures disk.clock > old(disk.clock)
      ensures outcome.Written? <==> disk.Granted(old(disk.clock)) && Admits(before, segments, baseRevision, temporary, id)
      ensures outcome == Uncertain ==> disk.OnlyLastFailed(old(disk.clock)) && Admits(before, segments, baseRevision, temporary, id)
      ensures outcome == Leaked <==>
                && |segments| == 1 && Key(disk.fold, segments) !in before && baseRevision == None
                && (forall k | old(disk.clock) <= k < old(disk.clock) + 3 :: !disk.fails(k)) && disk.fails(old(disk.clock) + 3)
    {
      hide Closed, ReachesReserved, OnlyMade, WroteExactly, Reserves, Replaceable, StoredRevision;
      var name := segments[|segments| - 1];
      var target := folder + [disk.fold(name)];
      var hidden := folder + [disk.fold(temporary)];
      FolderMadeOnly(before, segments, folder, target, hidden, m);
      hide Key;
      var failure, current, placeholder := Prepare(name, target, |segments| == 1, baseRevision, id);
      if failure.Some? {
        return failure.value;
      }
      assert name in segments;
      assert Hidden(disk.fold(temporary)) && !Hidden(disk.fold(name));
      assert hidden[|folder|] != target[|folder|];
      outcome := Publish(hidden, target, current, content, id, placeholder);
      if !outcome.Refused? {
        WroteIntoMade(before, old(disk.nodes), disk.nodes, folder, m, target, content, id);
        if |segments| > 1 {
          DeeperKeepsReserved(old(disk.nodes), disk.nodes, disk.fold, segments[0], target);
        }
      }
    }

    /** Making the folders changes nothing about the target, the name beside it or, at the root, anything. */
    lemma {:induction false} FolderMadeOnly(before: Tree, segments: seq<string>, folder: Path, target: Path, hidden: Path, m: nat)
      requires segments != [] && folder == Key(disk.fold, segments[..|segments| - 1])
      requires target == folder + [disk.fold(segments[|segments| - 1])] && |hidden| > |folder|
      requires OnlyMade(before, disk.nodes, folder, m, |folder|)
      ensures target == Key(disk.fold, segments) && ParentPath(target) == folder && |target| == |segments|
      ensures target in disk.nodes <==> target in before
      ensures target in before ==> disk.nodes[target] == before[target]
      ensures Replaceable(disk.nodes, target) <==> Replaceable(before, target)
      ensures StoredRevision(disk.nodes, target) == StoredRevision(before, target)
      ensures hidden in disk.nodes <==> hidden in before
      ensures |segments| == 1 ==> disk.nodes == before && target == [disk.fold(segments[0])]
    {
      TargetUntouched(before, disk.nodes, folder, m, target);
      TargetUntouched(before, disk.nodes, folder, m, hidden);
      if |segments| == 1 {
        NothingMadeAtRoot(before, disk.nodes, folder, m);
      }
    }

    /** The hidden file takes the target's place, or everything this attempt put there goes. */
    method Publish(hidden: Path, target: Path, current: Option<Node>, content: string, id: nat, placeholder: bool) returns (outcome: Outcome)
      requires hidden != target && (current.Some? ==> current.value.Regular?)
      modifies disk
      ensures outcome.Refused? ==> disk.nodes == if placeholder then old(disk.nodes) - {target} else old(disk.nodes)
      ensures !outcome.Refused? ==>
                && (outcome == Written(current == None) || outcome == Uncertain)
                && disk.nodes == old(disk.nodes)[target := Regular(id, content, NewMode(current))]
      ensures disk.clock >= old(disk.clock)
      ensures outcome.Written? <==> hidden !in old(disk.nodes) && disk.Granted(old(disk.clock))
      ensures outcome == Uncertain ==> hidden !in old(disk.nodes) && disk.OnlyLastFailed(old(disk.clock))
    {
      var replaced := Replace(hidden, target, current, content, id);
      if !replaced {
        if placeholder {
          disk.Remove(target);
        }
        return Refused(Fault);
      }
      var stated, _ := disk.Lstat(target);
      if !stated {
        return Uncertain;
      }
      return Written(current == None);
    }
  }

  /** The exception at one disk: an empty workspace whose fifth call, the closing of the placeholder, fails. */
  method PlaceholderLeft(bytes: string -> nat, id: nat) returns (outcome: Outcome, nodes: Tree)
    requires bytes("a") <= TEMPORARY_NAME_BYTES
    ensures outcome == Leaked && nodes == map[["a"] := Regular(id, "", 0x180)]
  {
    var disk := new Disk(map[], n => n == 4, name => name);
    var files := new WorkspaceFiles(disk, 1, 1_000_000, bytes);
    assert Key(disk.fold, ["a"]) == ["a"];
    outcome := files.WriteNow(["a"], "text", None, ".a", id);
    nodes := disk.nodes;
  }

  lemma DeeperKeepsReserved(nodes: Tree, nodes': Tree, fold: string -> string, name: string, target: Path)
    requires |target| > 1 && target in nodes' && nodes' == nodes[target := nodes'[target]]
    ensures ReachesReserved(nodes', fold, name) <==> ReachesReserved(nodes, fold, name)
  {
  }

  const MAX_UTF8_BYTES: nat := 4

  /** A replaced file keeps its permission bits; a new one is the owner's alone. */
  function NewMode(current: Option<Node>): nat
    requires current.Some? ==> current.value.Regular?
  {
    if current == None then 0x180 else current.value.mode % 0x200
  }

  function StoredRevision(nodes: Tree, target: Path): Option<Revision> {
    if target in nodes && nodes[target].Regular? then Some(RevisionOf(nodes[target].content)) else None
  }

  /**
   * The target holds the content under the permission bits it had, or the owner's alone when it is new; the missing
   * folders above it are there, and every other node is as it was.
   */
  ghost predicate WroteExactly(before: Tree, nodes: Tree, target: Path, content: string, id: nat) {
    && target != []
    && (target in before ==> before[target].Regular?)
    && target in nodes
    && nodes[target] == Regular(id, content, if target in before then before[target].mode % 0x200 else 0x180)
    && exists m :: AllMade(before, Others(before, nodes, target), ParentPath(target), m)
  }

  function ParentPath(path: Path): Path
    requires path != []
  {
    path[..|path| - 1]
  }

  /** Every folder of `path` longer than `m` was missing and has been made. */
  ghost predicate AllMade(before: Tree, nodes: Tree, path: Path, m: nat) {
    OnlyMade(before, nodes, path, m, |path|)
  }

  /** `nodes` with the target as it was before. */
  function Others(before: Tree, nodes: Tree, target: Path): Tree {
    if target in before then nodes[target := before[target]] else nodes - {target}
  }

  /** What a write that ended with `outcome` has done to the tree. */
  ghost predicate Effect(before: Tree, nodes: Tree, target: Path, content: string, id: nat, outcome: Outcome) {
    match outcome
    case Written(created) => WroteExactly(before, nodes, target, content, id) && created == (target !in before)
    case Uncertain => WroteExactly(before, nodes, target, content, id)
    case Refused(_) => nodes == before
    case Leaked => |target| == 1 && target !in before && nodes == before[target := Regular(id, "", 0x180)]
  }

  lemma TargetUntouched(before: Tree, nodes: Tree, folder: Path, m: nat, target: Path)
    requires OnlyMade(before, nodes, folder, m, |folder|) && |target| > |folder|
    ensures target in nodes <==> target in before
    ensures target in before ==> nodes[target] == before[target]
  {
  }

  lemma WroteIntoMade(before: Tree, with: Tree, nodes: Tree, folder: Path, m: nat, target: Path, content: string, id: nat)
    requires OnlyMade(before, with, folder, m, |folder|) && target != [] && folder == ParentPath(target)
    requires target in before ==> before[target].Regular?
    requires forall p | p != target :: p in nodes <==> p in with
    requires forall p | p != target && p in nodes :: nodes[p] == with[p]
    requires target in nodes
    requires nodes[target] == Regular(id, content, NewMode(if target in before then Some(before[target]) else None))
    ensures WroteExactly(before, nodes, target, content, id)
  {
    assert AllMade(before, Others(before, nodes, target), folder, m);
  }

  lemma NothingLeft(before: Tree, nodes: Tree, path: Path, m: nat)
    requires OnlyMade(before, nodes, path, m, m)
    ensures nodes == before
  {
  }

  lemma NothingMadeAtRoot(before: Tree, nodes: Tree, folder: Path, m: nat)
    requires folder == [] && OnlyMade(before, nodes, folder, m, |folder|)
    ensures nodes == before
  {
  }

  lemma UnmadeOne(before: Tree, nodes: Tree, path: Path, m: nat, n: nat)
    requires Closed(before) && OnlyMade(before, nodes, path, m, n + 1) && m <= n
    ensures path[..n + 1] in nodes && Empty(nodes, path[..n + 1])
    ensures OnlyMade(before, nodes - {path[..n + 1]}, path, m, n)
  {
    var last := path[..n + 1];
    assert IsMade(path, m, n + 1, last);
    MissingBelow(before, last);
    forall p
      ensures IsMade(path, m, n, p) <==> IsMade(path, m, n + 1, p) && p != last
    {
      assert |p| == n + 1 && p <= path ==> p == last;
    }
  }

  lemma MadeOneMore(before: Tree, nodes: Tree, path: Path, m: nat, n: nat, id: nat)
    requires OnlyMade(before, nodes, path, m, n) && n < |path| && path[..n + 1] !in nodes
    ensures OnlyMade(before, nodes[path[..n + 1] := Node.Folder(id)], path, m, n + 1)
  {
    forall p
      ensures IsMade(path, m, n + 1, p) <==> IsMade(path, m, n, p) || p == path[..n + 1]
    {
      assert |p| == n + 1 && p <= path ==> p == path[..n + 1];
    }
  }

  lemma NothingMadeYet(nodes: Tree, path: Path)
    ensures OnlyMade(nodes, nodes, path, 0, 0) && Prefixes(path, 0, 0) == []
  {
  }

  lemma NotYetMade(before: Tree, nodes: Tree, path: Path, m: nat, n: nat)
    requires OnlyMade(before, nodes, path, m, n) && n < |path|
    ensures Passable(nodes, path[..n + 1]) <==> Passable(before, path[..n + 1])
    ensures n == 0 ==> nodes == before
  {
    if n == 0 {
      NothingLeft(before, nodes, path, m);
    }
  }

  /** A folder that is already there has nothing made above it. */
  lemma NothingMadeAbove(before: Tree, nodes: Tree, path: Path, m: nat, n: nat)
    requires Closed(before) && OnlyMade(before, nodes, path, m, n) && n < |path| && path[..n + 1] in nodes
    ensures m == n && OnlyMade(before, nodes, path, n + 1, n + 1)
  {
    assert path[..n + 1] in before;
    assert path[..n + 1][..n] == path[..n];
  }

  lemma MissingBelow(nodes: Tree, path: Path)
    requires Closed(nodes) && path != [] && path !in nodes
    ensures forall p | p in nodes :: !(path < p)
  {
    forall p | p in nodes
      ensures !(path < p)
    {
      NoPathThrough(nodes, path, p);
    }
  }

  lemma {:induction false} NoPathThrough(nodes: Tree, path: Path, p: Path)
    requires Closed(nodes) && path != [] && path !in nodes && p in nodes
    ensures !(path < p)
  {
    if path < p {
      var parent := p[..|p| - 1];
      if path != parent {
        NoPathThrough(nodes, path, parent);
      }
    }
  }
}

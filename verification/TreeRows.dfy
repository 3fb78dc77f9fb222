/** The rows of the workspace tree on the page and its keys (apps/web/src/lib/workspace-tree.ts). */
module TreeRows {
  import opened Wrappers
  import opened WorkspaceListing
  import G = GatewayStream

  type ChatId = string

  datatype Chat = Chat(id: ChatId, title: string)

  /** Rows are told apart by kind and then by chat or path, which is all their keys spell out. */
  datatype RowId = ChatsRow | ChatRow(chat: ChatId) | FilesRow | EntryRow(path: Path)

  datatype Row = Row(id: RowId, caption: string, depth: nat, isDirectory: bool, isExpanded: bool, isLocal: bool)

  datatype Intent = Focus(id: RowId) | Toggle(id: RowId) | Activate(id: RowId)

  // ---------------------------------------------------------------- the visible rows

  predicate AncestorsOpen(path: Path, expanded: set<RowId>) {
    forall k | 0 < k < |path| :: EntryRow(path[..k]) in expanded
  }

  method AncestorsExpanded(path: Path, expanded: set<RowId>) returns (all: bool)
    ensures all <==> AncestorsOpen(path, expanded)
  {
    if path == [] {
      return true;
    }
    var parent := path[..|path| - 1];
    while parent != []
      invariant |parent| < |path| && parent == path[..|parent|]
      invariant forall k | |parent| < k < |path| :: EntryRow(path[..k]) in expanded
    {
      if EntryRow(parent) !in expanded {
        assert EntryRow(path[..|parent|]) !in expanded;
        return false;
      }
      parent := parent[..|parent| - 1];
    }
    return true;
  }

  function EntryRowOf(e: Entry, expanded: set<RowId>): Row {
    Row(EntryRow(e.path), if e.path == [] then "" else e.path[|e.path| - 1], |e.path|, e.directory,
        e.directory && EntryRow(e.path) in expanded, false)
  }

  function RowIfVisible(e: Entry, expanded: set<RowId>): seq<Row> {
    if AncestorsOpen(e.path, expanded) then [EntryRowOf(e, expanded)] else []
  }

  function EntryRows(entries: seq<Entry>, expanded: set<RowId>): seq<Row> {
    if entries == [] then [] else RowIfVisible(entries[0], expanded) + EntryRows(entries[1..], expanded)
  }

  function ChatRows(chats: seq<Chat>, localChats: set<ChatId>): (rows: seq<Row>)
    ensures |rows| == |chats|
    ensures forall i | 0 <= i < |rows| :: rows[i] == Row(ChatRow(chats[i].id), chats[i].title, 1, false, false, chats[i].id in localChats)
  {
    if chats == [] then []
    else [Row(ChatRow(chats[0].id), chats[0].title, 1, false, false, chats[0].id in localChats)] + ChatRows(chats[1..], localChats)
  }

  function Section(id: RowId, caption: string, inside: seq<Row>, expanded: set<RowId>): seq<Row> {
    [Row(id, caption, 0, true, id in expanded, false)] + if id in expanded then inside else []
  }

  function Visible(tree: Option<seq<Entry>>, expanded: set<RowId>, chats: Option<seq<Chat>>, localChats: set<ChatId>): seq<Row> {
    (if tree == None then [] else Section(FilesRow, "Files", EntryRows(tree.value, expanded), expanded))
    + (if chats == None then [] else Section(ChatsRow, "Chats", ChatRows(chats.value, localChats), expanded))
  }

  method PushEntries(entries: seq<Entry>, expanded: set<RowId>, before: seq<Row>) returns (rows: seq<Row>)
    ensures rows == before + EntryRows(entries, expanded)
  {
    hide AncestorsOpen;
    rows := before;
    assert entries[0..] == entries;
    var i := 0;
    while i < |entries|
      invariant i <= |entries|
      invariant rows + EntryRows(entries[i..], expanded) == before + EntryRows(entries, expanded)
    {
      assert entries[i..][1..] == entries[i + 1..];
      var all := AncestorsExpanded(entries[i].path, expanded);
      if all {
        rows := rows + [EntryRowOf(entries[i], expanded)];
      }
      i := i + 1;
    }
    assert entries[i..] == [];
  }

  method PushChats(chats: seq<Chat>, localChats: set<ChatId>, before: seq<Row>) returns (rows: seq<Row>)
    ensures rows == before + ChatRows(chats, localChats)
  {
    rows := before;
    assert chats[0..] == chats;
    var i := 0;
    while i < |chats|
      invariant i <= |chats|
      invariant rows + ChatRows(chats[i..], localChats) == before + ChatRows(chats, localChats)
    {
      assert chats[i..][1..] == chats[i + 1..];
      rows := rows + [Row(ChatRow(chats[i].id), chats[i].title, 1, false, false, chats[i].id in localChats)];
      i := i + 1;
    }
    assert chats[i..] == [] && rows + [] == rows;
  }

  method FlattenVisible(tree: Option<seq<Entry>>, expanded: set<RowId>, chats: Option<seq<Chat>>, localChats: set<ChatId>)
      returns (rows: seq<Row>)
    ensures rows == Visible(tree, expanded, chats, localChats)
  {
    hide EntryRows, ChatRows;
    rows := [];
    if tree.Some? {
      rows := rows + [Row(FilesRow, "Files", 0, true, FilesRow in expanded, false)];
      if FilesRow in expanded {
        rows := PushEntries(tree.value, expanded, rows);
      }
    }
    if chats.Some? {
      ghost var files := rows;
      rows := rows + [Row(ChatsRow, "Chats", 0, true, ChatsRow in expanded, false)];
      if ChatsRow in expanded {
        rows := PushChats(chats.value, localChats, rows);
      }
      assert rows == files + Section(ChatsRow, "Chats", ChatRows(chats.value, localChats), expanded);
    }
  }

  // ---------------------------------------------------------------- the rows are a walk of the open folders

  /** The rows a reader would draw: walk the tree, and go into a folder only when it is open. */
  function Drawn(r: Rules, folder: Node, nodes: seq<Node>, prefix: Path, expanded: set<RowId>): seq<Row>
    requires folder.Folder? && forall n | n in nodes :: n in folder.children
    decreases folder, |nodes|
  {
    if nodes == [] then []
    else
      assert nodes[0] in folder.children;
      var (n, path) := (nodes[0], prefix + [nodes[0].name]);
      (if r.passed(path) then []
       else
         [Row(EntryRow(path), n.name, |path|, n.Folder?, n.Folder? && EntryRow(path) in expanded, false)]
         + if n.Folder? && EntryRow(path) in expanded then Drawn(r, n, Shown(r, path, n.children), path, expanded) else [])
      + Drawn(r, folder, nodes[1..], prefix, expanded)
  }

  lemma {:induction false} EntryRowsSplit(a: seq<Entry>, b: seq<Entry>, expanded: set<RowId>)
    ensures EntryRows(a + b, expanded) == EntryRows(a, expanded) + EntryRows(b, expanded)
    decreases |a|
  {
    hide RowIfVisible;
    if a == [] {
      assert a + b == b;
    } else {
      assert (a + b)[1..] == a[1..] + b && (a + b)[0] == a[0];
      EntryRowsSplit(a[1..], b, expanded);
    }
  }

  lemma OpenBelow(path: Path, name: string, expanded: set<RowId>)
    ensures AncestorsOpen(path + [name], expanded) <==> AncestorsOpen(path, expanded) && (path != [] ==> EntryRow(path) in expanded)
  {
    var p := path + [name];
    assert forall k | 0 < k <= |path| :: p[..k] == path[..k];
    assert path[..|path|] == path;
    if AncestorsOpen(p, expanded) {
      forall k | 0 < k < |path|
        ensures EntryRow(path[..k]) in expanded
      {
        assert EntryRow(p[..k]) in expanded;
      }
      if path != [] {
        assert EntryRow(p[..|path|]) in expanded;
      }
    }
  }

  /** Below a folder that is closed, or hidden itself, nothing shows. */
  lemma {:induction false} HiddenBelow(r: Rules, folder: Node, nodes: seq<Node>, prefix: Path, expanded: set<RowId>)
    requires folder.Folder? && forall n | n in nodes :: n in folder.children
    requires prefix != [] && !(AncestorsOpen(prefix, expanded) && EntryRow(prefix) in expanded)
    ensures EntryRows(ListingOf(r, folder, nodes, prefix), expanded) == []
    decreases folder, |nodes|
  {
    hide AncestorsOpen;
    if nodes != [] {
      assert nodes[0] in folder.children;
      var (n, path) := (nodes[0], prefix + [nodes[0].name]);
      OpenBelow(prefix, n.name, expanded);
      if n.Folder? && !r.passed(path) {
        HiddenBelow(r, n, Shown(r, path, n.children), path, expanded);
        EntryRowsSplit([Entry(path, true)], Listing(r, n, path), expanded);
      }
      HiddenBelow(r, folder, nodes[1..], prefix, expanded);
      EntryRowsSplit(Branch(r, folder, n, prefix), ListingOf(r, folder, nodes[1..], prefix), expanded);
      assert [Entry(path, n.Folder?)] + [] == [Entry(path, n.Folder?)];
      assert [Entry(path, n.Folder?)][1..] == [];
    }
  }

  /** Picking the visible entries out of the flat listing draws the same rows as walking the open folders. */
  lemma {:induction false} RowsAreDrawn(r: Rules, folder: Node, nodes: seq<Node>, prefix: Path, expanded: set<RowId>)
    requires folder.Folder? && forall n | n in nodes :: n in folder.children
    requires prefix != [] ==> AncestorsOpen(prefix, expanded) && EntryRow(prefix) in expanded
    ensures EntryRows(ListingOf(r, folder, nodes, prefix), expanded) == Drawn(r, folder, nodes, prefix, expanded)
    decreases folder, |nodes|
  {
    if nodes != [] {
      assert nodes[0] in folder.children;
      var (n, path) := (nodes[0], prefix + [nodes[0].name]);
      OpenBelow(prefix, n.name, expanded);
      assert prefix == [] ==> AncestorsOpen(prefix, expanded);
      hide AncestorsOpen;
      var head := [Entry(path, n.Folder?)];
      assert head[1..] == [] && head + [] == head && EntryRows([], expanded) == [];
      assert EntryRows(head, expanded) == [EntryRowOf(head[0], expanded)];
      if n.Folder? && !r.passed(path) {
        var below := Shown(r, path, n.children);
        if EntryRow(path) in expanded {
          RowsAreDrawn(r, n, below, path, expanded);
        } else {
          HiddenBelow(r, n, below, path, expanded);
        }
        EntryRowsSplit(head, Listing(r, n, path), expanded);
      }
      RowsAreDrawn(r, folder, nodes[1..], prefix, expanded);
      EntryRowsSplit(Branch(r, folder, n, prefix), ListingOf(r, folder, nodes[1..], prefix), expanded);
    }
  }

  /** Of a listing cut off at its limit, the rows are the first of those. */
  lemma RowsOfTheListing(r: Rules, root: Node, expanded: set<RowId>, n: nat)
    requires root.Folder?
    ensures var drawn := Drawn(r, root, Shown(r, [], root.children), [], expanded);
            && EntryRows(Listing(r, root, []), expanded) == drawn
            && EntryRows(Take(Listing(r, root, []), n), expanded) <= drawn
  {
    hide AncestorsOpen, EntryRows, Drawn, ListingOf;
    var listing := Listing(r, root, []);
    RowsAreDrawn(r, root, Shown(r, [], root.children), [], expanded);
    if n < |listing| {
      EntryRowsSplit(listing[..n], listing[n..], expanded);
      assert listing == listing[..n] + listing[n..];
    }
  }

  // ---------------------------------------------------------------- parents

  /** The row a row belongs under: its folder's, or its section's. */
  function ParentId(id: RowId): Option<RowId> {
    match id
    case EntryRow(path) => if |path| <= 1 then Some(FilesRow) else Some(EntryRow(path[..|path| - 1]))
    case ChatRow(_) => Some(ChatsRow)
    case _ => None
  }

  /** Row `j` is the open row that row `i` belongs under, and nothing less deep than `i` comes between. */
  ghost predicate ParentRow(rows: seq<Row>, j: nat, i: nat)
    requires j < i < |rows|
  {
    && ParentId(rows[i].id) == Some(rows[j].id) && rows[j].isDirectory && rows[j].isExpanded
    && rows[i].depth == rows[j].depth + 1
    && forall k | j < k < i :: rows[k].depth >= rows[i].depth
  }

  ghost predicate HasParent(rows: seq<Row>, i: nat)
    requires i < |rows|
  {
    exists j: nat | j < i :: ParentRow(rows, j, i)
  }

  /** Rows to be drawn under a row: each has its parent among them, or belongs right under that row. */
  ghost predicate Hangs(rows: seq<Row>, parent: RowId, depth: nat) {
    forall i | 0 <= i < |rows| ::
      rows[i].depth > depth && ((rows[i].depth == depth + 1 && ParentId(rows[i].id) == Some(parent)) || HasParent(rows, i))
  }

  lemma ShiftedParent(before: seq<Row>, rows: seq<Row>, after: seq<Row>, i: nat)
    requires i < |rows| && HasParent(rows, i)
    ensures HasParent(before + rows + after, |before| + i)
  {
    var all := before + rows + after;
    var j: nat :| j < i && ParentRow(rows, j, i);
    assert forall k | 0 <= k < |rows| :: all[|before| + k] == rows[k];
    forall k | |before| + j < k < |before| + i
      ensures all[k].depth >= rows[i].depth
    {
      assert all[k] == rows[k - |before|];
    }
    assert ParentRow(all, |before| + j, |before| + i);
  }

  lemma HangsJoin(a: seq<Row>, b: seq<Row>, parent: RowId, depth: nat)
    requires Hangs(a, parent, depth) && Hangs(b, parent, depth)
    ensures Hangs(a + b, parent, depth)
  {
    hide HasParent;
    forall i | 0 <= i < |a + b|
      ensures if i < |a| then HasParent(a, i) ==> HasParent(a + b, i) else HasParent(b, i - |a|) ==> HasParent(a + b, i)
    {
      if i < |a| {
        if HasParent(a, i) {
          ShiftedParent([], a, b, i);
          assert [] + a + b == a + b;
        }
      } else if HasParent(b, i - |a|) {
        ShiftedParent(a, b, [], i - |a|);
        assert a + b + [] == a + b;
      }
    }
  }

  lemma HeadIsParent(head: Row, below: seq<Row>, i: nat)
    requires i < |below| && below[i].depth == head.depth + 1 && ParentId(below[i].id) == Some(head.id)
    requires head.isDirectory && head.isExpanded && forall k | 0 <= k < i :: below[k].depth > head.depth
    ensures HasParent([head] + below, i + 1)
  {
    var all := [head] + below;
    forall k | 0 < k < i + 1
      ensures all[k].depth >= all[i + 1].depth
    {
      assert all[k] == below[k - 1];
    }
    assert ParentRow(all, 0, i + 1);
  }

  /** An open row with its own rows after it. */
  lemma HeadedHas(head: Row, below: seq<Row>, i: nat)
    requires Hangs(below, head.id, head.depth) && head.isDirectory && (below != [] ==> head.isExpanded) && i < |below|
    ensures HasParent([head] + below, i + 1)
  {
    hide HasParent;
    if HasParent(below, i) {
      ShiftedParent([head], below, [], i);
      assert [head] + below + [] == [head] + below;
    } else {
      HeadIsParent(head, below, i);
    }
  }

  lemma HeadedHangs(head: Row, below: seq<Row>, parent: RowId, depth: nat)
    requires Hangs(below, head.id, head.depth) && head.isDirectory && (below != [] ==> head.isExpanded)
    requires head.depth == depth + 1 && ParentId(head.id) == Some(parent)
    ensures Hangs([head] + below, parent, depth)
  {
    hide HasParent;
    var all := [head] + below;
    forall i | 0 <= i < |below|
      ensures HasParent(all, i + 1) && all[i + 1] == below[i]
    {
      HeadedHas(head, below, i);
    }
    assert forall i | 0 < i < |all| :: all[i] == below[i - 1] && HasParent(all, i - 1 + 1);
  }

  lemma LeafHangs(leaf: Row, parent: RowId, depth: nat)
    requires leaf.depth == depth + 1 && ParentId(leaf.id) == Some(parent)
    ensures Hangs([leaf], parent, depth)
  {
  }

  function Under(prefix: Path): RowId {
    if prefix == [] then FilesRow else EntryRow(prefix)
  }

  lemma {:induction false} DrawnHangs(r: Rules, folder: Node, nodes: seq<Node>, prefix: Path, expanded: set<RowId>)
    requires folder.Folder? && forall n | n in nodes :: n in folder.children
    ensures Hangs(Drawn(r, folder, nodes, prefix, expanded), Under(prefix), |prefix|)
    decreases folder, |nodes|
  {
    if nodes != [] {
      hide Hangs;
      assert nodes[0] in folder.children;
      var (n, path) := (nodes[0], prefix + [nodes[0].name]);
      var row := EntryRowOf(Entry(path, n.Folder?), expanded);
      assert path[..|path| - 1] == prefix;
      NothingHangs(Under(prefix), |prefix|);
      if !r.passed(path) {
        if row.isExpanded {
          var below := Shown(r, path, n.children);
          DrawnHangs(r, n, below, path, expanded);
          HeadedHangs(row, Drawn(r, n, below, path, expanded), Under(prefix), |prefix|);
        } else {
          LeafHangs(row, Under(prefix), |prefix|);
          assert [row] + [] == [row];
        }
      }
      DrawnHangs(r, folder, nodes[1..], prefix, expanded);
      var all := Drawn(r, folder, nodes, prefix, expanded);
      var rest := Drawn(r, folder, nodes[1..], prefix, expanded);
      HangsJoin(all[..|all| - |rest|], rest, Under(prefix), |prefix|);
    } else {
      NothingHangs(Under(prefix), |prefix|);
    }
  }

  lemma NothingHangs(parent: RowId, depth: nat)
    ensures Hangs([], parent, depth)
  {
  }

  /** Every row but the sections' own has its parent among the rows before it. */
  ghost predicate Parented(rows: seq<Row>) {
    forall i | 0 <= i < |rows| :: if ParentId(rows[i].id) == None then rows[i].depth == 0 else HasParent(rows, i)
  }

  lemma {:induction false} FirstRowsHang(rows: seq<Row>, n: nat, parent: RowId, depth: nat)
    requires Hangs(rows, parent, depth) && n <= |rows|
    ensures Hangs(rows[..n], parent, depth)
  {
    forall i | 0 <= i < n && HasParent(rows, i)
      ensures HasParent(rows[..n], i)
    {
      var j: nat :| j < i && ParentRow(rows, j, i);
      assert ParentRow(rows[..n], j, i);
    }
  }

  lemma SectionParented(id: RowId, caption: string, inside: seq<Row>, expanded: set<RowId>)
    requires ParentId(id) == None && Hangs(inside, id, 0) && forall row | row in inside :: ParentId(row.id).Some?
    ensures Parented(Section(id, caption, inside, expanded))
  {
    hide HasParent;
    var head := Row(id, caption, 0, true, id in expanded, false);
    if id in expanded {
      var all := Section(id, caption, inside, expanded);
      forall i | 0 < i < |all|
        ensures HasParent(all, i) && all[i] in inside
      {
        HeadedHas(head, inside, i - 1);
        assert i - 1 + 1 == i && all[i] == inside[i - 1];
      }
    }
  }

  lemma ParentedJoin(a: seq<Row>, b: seq<Row>)
    requires Parented(a) && Parented(b)
    ensures Parented(a + b)
  {
    hide HasParent;
    forall i | 0 <= i < |a + b|
      ensures if i < |a| then HasParent(a, i) ==> HasParent(a + b, i) else HasParent(b, i - |a|) ==> HasParent(a + b, i)
    {
      if i < |a| {
        if HasParent(a, i) {
          ShiftedParent([], a, b, i);
          assert [] + a + b == a + b;
        }
      } else if HasParent(b, i - |a|) {
        ShiftedParent(a, b, [], i - |a|);
        assert a + b + [] == a + b;
      }
    }
  }

  lemma {:induction false} EntryRowsAreEntries(entries: seq<Entry>, expanded: set<RowId>)
    ensures forall row | row in EntryRows(entries, expanded) :: row.id.EntryRow?
    decreases |entries|
  {
    if entries != [] {
      EntryRowsAreEntries(entries[1..], expanded);
    }
  }

  /** The rows on the page, for any listing the Gateway sends, cut off or not: each has its parent before it. */
  lemma VisibleRowsAreParented(r: Rules, root: Node, n: nat, expanded: set<RowId>, chats: Option<seq<Chat>>, localChats: set<ChatId>)
    requires root.Folder?
    ensures Parented(Visible(Some(Take(Listing(r, root, []), n)), expanded, chats, localChats))
  {
    var entries := Take(Listing(r, root, []), n);
    var rows := EntryRows(entries, expanded);
    var nodes := Shown(r, [], root.children);
    var drawn := Drawn(r, root, nodes, [], expanded);
    assert rows == drawn[..|rows|] by { RowsOfTheListing(r, root, expanded, n); }
    DrawnHangs(r, root, nodes, [], expanded);
    FirstRowsHang(drawn, |rows|, FilesRow, 0);
    EntryRowsAreEntries(entries, expanded);
    hide Hangs, Parented, EntryRows, Drawn;
    SectionParented(FilesRow, "Files", rows, expanded);
    if chats.Some? {
      ChatRowsHang(chats.value, localChats);
      SectionParented(ChatsRow, "Chats", ChatRows(chats.value, localChats), expanded);
      ParentedJoin(Section(FilesRow, "Files", rows, expanded), Section(ChatsRow, "Chats", ChatRows(chats.value, localChats), expanded));
    } else {
      var files := Section(FilesRow, "Files", rows, expanded);
      assert files + [] == files;
    }
  }

  lemma ChatRowsHang(chats: seq<Chat>, localChats: set<ChatId>)
    ensures Hangs(ChatRows(chats, localChats), ChatsRow, 0)
    ensures forall row | row in ChatRows(chats, localChats) :: ParentId(row.id).Some?
  {
  }

  // ---------------------------------------------------------------- the keys

  /** The keys that move or act, and any other by its name. */
  datatype Key = ArrowDown | ArrowUp | Home | End | Enter | ArrowRight | ArrowLeft | Other(name: string)

  function IndexOfRow(rows: seq<Row>, focused: Option<RowId>): (i: int)
    ensures -1 <= i < |rows|
    ensures i >= 0 ==> focused == Some(rows[i].id)
    ensures i == -1 ==> forall k | 0 <= k < |rows| :: focused != Some(rows[k].id)
  {
    if rows == [] then -1
    else if focused == Some(rows[0].id) then 0
    else var i := IndexOfRow(rows[1..], focused); if i == -1 then -1 else i + 1
  }

  function FocusAt(rows: seq<Row>, index: int): Option<Intent>
    requires rows != []
  {
    Some(Focus(rows[if index < 0 then 0 else if index >= |rows| then |rows| - 1 else index].id))
  }

  /** The last row before this one that is less deep. */
  function Shallower(rows: seq<Row>, i: nat, depth: nat): (j: int)
    requires i <= |rows|
    ensures -1 <= j < i
    ensures j >= 0 ==> rows[j].depth < depth
    ensures forall k | j < k < i :: rows[k].depth >= depth
  {
    if i == 0 then -1 else if rows[i - 1].depth < depth then i - 1 else Shallower(rows, i - 1, depth)
  }

  // Type-ahead: the next row, round the end, whose caption starts with the character typed.

  predicate Starts(lower: string -> string, row: Row, key: string) {
    lower(key) <= lower(row.caption)
  }

  /** The row `step` rows on from `from`, which is -1 when no row has the focus. */
  function RowAhead(n: nat, from: int, step: nat): (i: nat)
    requires n > 0 && -1 <= from < n && 1 <= step <= n
    ensures i == if from + step < n then from + step else from + step - n
  {
    Wraps(from + step + n, n, if from + step < n then 1 else 2);
    (from + step + n) % n
  }

  lemma {:induction false} Wraps(x: int, n: nat, times: nat)
    requires n > 0 && times * n <= x < times * n + n
    ensures x % n == x - times * n
  {
    var q := x / n;
    if q < times {
      OneLess(q, times, n);
    } else if q > times {
      OneLess(times, q, n);
    }
  }

  lemma OneLess(a: int, b: int, n: nat)
    requires a < b
    ensures a * n + n <= b * n
  {
    assert (b - a) * n == b * n - a * n && (b - a - 1) * n >= 0;
    assert (b - a) * n == (b - a - 1) * n + n;
  }

  /** The least number of steps, from `step` on, to a row that starts with the key; `None` when no row does. */
  function StepsToMatch(rows: seq<Row>, lower: string -> string, from: int, key: string, step: nat): (r: Option<nat>)
    requires rows != [] && -1 <= from < |rows| && 1 <= step <= |rows| + 1
    ensures r.Some? ==> step <= r.value <= |rows| && Starts(lower, rows[RowAhead(|rows|, from, r.value)], key)
    ensures forall k | step <= k <= |rows| && (r.Some? ==> k < r.value) :: !Starts(lower, rows[RowAhead(|rows|, from, k)], key)
    decreases |rows| + 1 - step
  {
    if step > |rows| then None
    else if Starts(lower, rows[RowAhead(|rows|, from, step)], key) then Some(step)
    else StepsToMatch(rows, lower, from, key, step + 1)
  }

  /** Where one press of the key moves to. */
  function Typed(rows: seq<Row>, lower: string -> string, from: int, key: string): (i: Option<nat>)
    requires rows != [] && -1 <= from < |rows|
    ensures i.Some? ==> i.value < |rows|
  {
    var steps := StepsToMatch(rows, lower, from, key, 1);
    if steps == None then None else Some(RowAhead(|rows|, from, steps.value))
  }

  method Typeahead(rows: seq<Row>, lower: string -> string, from: int, key: string) returns (intent: Option<Intent>)
    requires rows != [] && -1 <= from < |rows|
    ensures var i := Typed(rows, lower, from, key); intent == if i == None then None else Some(Focus(rows[i.value].id))
  {
    for step := 1 to |rows| + 1
      invariant StepsToMatch(rows, lower, from, key, 1) == StepsToMatch(rows, lower, from, key, step)
    {
      var row := rows[RowAhead(|rows|, from, step)];
      if Starts(lower, row, key) {
        return Some(Focus(row.id));
      }
    }
    return None;
  }

  /** The row that has the focus after so many presses of one key. */
  function AfterPresses(rows: seq<Row>, lower: string -> string, from: int, key: string, presses: nat): (i: int)
    requires rows != [] && -1 <= from < |rows|
    ensures -1 <= i < |rows|
    decreases presses
  {
    if presses == 0 then from
    else
      var next := Typed(rows, lower, from, key);
      if next == None then from else AfterPresses(rows, lower, next.value, key, presses - 1)
  }

  /** Pressing the key again and again comes to every row that starts with it, within as many presses as there are rows. */
  lemma {:induction false} TypingReachesEveryMatch(rows: seq<Row>, lower: string -> string, from: int, key: string, ahead: nat)
    returns (presses: nat)
    requires rows != [] && -1 <= from < |rows| && 1 <= ahead <= |rows|
    requires Starts(lower, rows[RowAhead(|rows|, from, ahead)], key)
    ensures 1 <= presses <= ahead && AfterPresses(rows, lower, from, key, presses) == RowAhead(|rows|, from, ahead)
    decreases ahead
  {
    hide Starts;
    var steps := StepsToMatch(rows, lower, from, key, 1).value;
    var next := RowAhead(|rows|, from, steps);
    if steps == ahead {
      presses := 1;
      assert AfterPresses(rows, lower, next, key, 0) == next;
    } else {
      assert RowAhead(|rows|, next, ahead - steps) == RowAhead(|rows|, from, ahead);
      presses := TypingReachesEveryMatch(rows, lower, next, key, ahead - steps);
      presses := presses + 1;
    }
  }

  /** `treeKeyIntent`, `lower` being the locale's lower case. */
  method TreeKeyIntent(rows: seq<Row>, lower: string -> string, focused: Option<RowId>, key: Key) returns (intent: Option<Intent>)
    ensures intent == IntentOf(rows, lower, focused, key)
  {
    if rows == [] {
      return None;
    }
    var index := IndexOfRow(rows, focused);
    match key {
      case ArrowDown => return FocusAt(rows, index + 1);
      case ArrowUp => return FocusAt(rows, if index <= 0 then 0 else index - 1);
      case Home => return FocusAt(rows, 0);
      case End => return FocusAt(rows, |rows| - 1);
      case Enter => return if index == -1 then None else Some(Activate(rows[index].id));
      case ArrowRight =>
        if index == -1 || !rows[index].isDirectory {
          return None;
        }
        if !rows[index].isExpanded {
          return Some(Toggle(rows[index].id));
        }
        if index + 1 < |rows| && rows[index + 1].depth > rows[index].depth {
          return Some(Focus(rows[index + 1].id));
        }
        return None;
      case ArrowLeft =>
        if index == -1 {
          return None;
        }
        if rows[index].isDirectory && rows[index].isExpanded {
          return Some(Toggle(rows[index].id));
        }
        var candidate := index - 1;
        while candidate >= 0
          invariant -1 <= candidate < index
          invariant Shallower(rows, index, rows[index].depth) == Shallower(rows, candidate + 1, rows[index].depth)
        {
          if rows[candidate].depth < rows[index].depth {
            return Some(Focus(rows[candidate].id));
          }
          candidate := candidate - 1;
        }
        return None;
      case Other(name) =>
        if |name| != 1 || G.Trim(name) == "" {
          return None;
        }
        intent := Typeahead(rows, lower, index, name);
    }
  }

  function IntentOf(rows: seq<Row>, lower: string -> string, focused: Option<RowId>, key: Key): Option<Intent> {
    if rows == [] then None
    else
      var index := IndexOfRow(rows, focused);
      match key
      case ArrowDown => FocusAt(rows, index + 1)
      case ArrowUp => FocusAt(rows, if index <= 0 then 0 else index - 1)
      case Home => FocusAt(rows, 0)
      case End => FocusAt(rows, |rows| - 1)
      case Enter => if index == -1 then None else Some(Activate(rows[index].id))
      case ArrowRight =>
        if index == -1 || !rows[index].isDirectory then None
        else if !rows[index].isExpanded then Some(Toggle(rows[index].id))
        else if index + 1 < |rows| && rows[index + 1].depth > rows[index].depth then Some(Focus(rows[index + 1].id))
        else None
      case ArrowLeft =>
        if index == -1 then None
        else if rows[index].isDirectory && rows[index].isExpanded then Some(Toggle(rows[index].id))
        else
          var j := Shallower(rows, index, rows[index].depth);
          if j == -1 then None else Some(Focus(rows[j].id))
      case Other(name) =>
        var i := if |name| == 1 && G.Trim(name) != "" then Typed(rows, lower, index, name) else None;
        if i == None then None else Some(Focus(rows[i.value].id))
  }

  /** The vertical keys move by one row and stop at the ends, Home and End go there, and Enter opens the focused row. */
  lemma PlainKeys(rows: seq<Row>, lower: string -> string, focused: Option<RowId>, i: nat)
    requires i < |rows| && IndexOfRow(rows, focused) == i
    ensures IntentOf(rows, lower, focused, ArrowDown) == Some(Focus(rows[if i + 1 < |rows| then i + 1 else i].id))
    ensures IntentOf(rows, lower, focused, ArrowUp) == Some(Focus(rows[if i > 0 then i - 1 else i].id))
    ensures IntentOf(rows, lower, focused, Home) == Some(Focus(rows[0].id))
    ensures IntentOf(rows, lower, focused, End) == Some(Focus(rows[|rows| - 1].id))
    ensures IntentOf(rows, lower, focused, Enter) == Some(Activate(rows[i].id))
  {
  }

  /** Without a focused row they go to the first row or the last, and nothing can be opened. */
  lemma KeysWithoutFocus(rows: seq<Row>, lower: string -> string)
    requires rows != []
    ensures forall key | key == ArrowDown || key == ArrowUp || key == Home ::
              IntentOf(rows, lower, None, key) == Some(Focus(rows[0].id))
    ensures IntentOf(rows, lower, None, End) == Some(Focus(rows[|rows| - 1].id))
    ensures forall key | key == Enter || key == ArrowLeft || key == ArrowRight :: IntentOf(rows, lower, None, key) == None
  {
    assert IndexOfRow(rows, None) == -1;
  }

  lemma NearestIsParent(rows: seq<Row>, i: nat)
    requires i < |rows| && HasParent(rows, i)
    ensures var j := Shallower(rows, i, rows[i].depth); j >= 0 && ParentId(rows[i].id) == Some(rows[j].id)
  {
    hide Shallower, ParentId;
    var j: nat :| j < i && ParentRow(rows, j, i);
  }

  /** ArrowLeft on any row that is not an open folder goes to the row it belongs under; a section's row has none. */
  lemma ArrowLeftGoesToTheParent(rows: seq<Row>, lower: string -> string, focused: RowId)
    requires Parented(rows) && IndexOfRow(rows, Some(focused)) >= 0
    requires var row := rows[IndexOfRow(rows, Some(focused))]; !(row.isDirectory && row.isExpanded)
    ensures IntentOf(rows, lower, Some(focused), ArrowLeft) ==
              if ParentId(focused) == None then None else Some(Focus(ParentId(focused).value))
  {
    hide IndexOfRow, Shallower, ParentId, HasParent;
    var i := IndexOfRow(rows, Some(focused));
    if ParentId(focused).Some? {
      NearestIsParent(rows, i);
    }
  }

  lemma DeeperNextIsOwn(rows: seq<Row>, i: nat)
    requires i + 1 < |rows| && HasParent(rows, i + 1) && rows[i + 1].depth > rows[i].depth
    ensures ParentId(rows[i + 1].id) == Some(rows[i].id)
  {
    hide ParentId;
    var j: nat :| j < i + 1 && ParentRow(rows, j, i + 1);
  }

  /** ArrowRight moves from an open folder only to a row of its own. */
  lemma ArrowRightGoesToAChild(rows: seq<Row>, lower: string -> string, focused: RowId, id: RowId)
    requires Parented(rows) && IntentOf(rows, lower, Some(focused), ArrowRight) == Some(Focus(id))
    ensures ParentId(id) == Some(focused)
  {
    hide IndexOfRow, ParentId, HasParent;
    DeeperNextIsOwn(rows, IndexOfRow(rows, Some(focused)));
  }
}

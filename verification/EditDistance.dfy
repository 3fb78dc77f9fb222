/** Names near a misspelt one (src/state/query.ts): the two-row edit distance and the ranking on top of it. */
module EditDistance {
  import opened Wrappers

  /** The table the two rows walk through: the distance between the first `i` units of `left` and the first `j` of `right`. */
  function Dist<T(==)>(left: seq<T>, right: seq<T>): nat
    decreases |left| + |right|
  {
    if left == [] then |right|
    else if right == [] then |left|
    else
      var (l, r) := (left[..|left| - 1], right[..|right| - 1]);
      Min3(Dist(l, right) + 1, Dist(left, r) + 1,
           Dist(l, r) + if left[|left| - 1] == right[|right| - 1] then 0 else 1)
  }

  function Min3(a: nat, b: nat, c: nat): nat {
    var ab := if a < b then a else b;
    if ab < c then ab else c
  }

  ghost function Cell<T>(left: seq<T>, right: seq<T>, i: nat, j: nat): nat
    requires i <= |left| && j <= |right|
  {
    Dist(left[..i], right[..j])
  }

  lemma CellEdges<T>(left: seq<T>, right: seq<T>)
    ensures forall j | 0 <= j <= |right| :: Cell(left, right, 0, j) == j
    ensures forall i | 0 <= i <= |left| :: Cell(left, right, i, 0) == i
    ensures Cell(left, right, |left|, |right|) == Dist(left, right)
  {
    assert left[..|left|] == left && right[..|right|] == right;
  }

  lemma CellStep<T>(left: seq<T>, right: seq<T>, i: nat, j: nat)
    requires 0 < i <= |left| && 0 < j <= |right|
    ensures Cell(left, right, i, j)
         == Min3(Cell(left, right, i - 1, j) + 1, Cell(left, right, i, j - 1) + 1,
                 Cell(left, right, i - 1, j - 1) + if left[i - 1] == right[j - 1] then 0 else 1)
  {
    assert left[..i][..i - 1] == left[..i - 1] && right[..j][..j - 1] == right[..j - 1];
  }

  method EditDistance<T(==)>(left: seq<T>, right: seq<T>) returns (distance: nat)
    ensures distance == Dist(left, right)
  {
    hide Dist, Cell;
    CellEdges(left, right);
    var previous: seq<nat> := seq(|right| + 1, index => index);
    var i := 1;
    while i <= |left|
      invariant 1 <= i <= |left| + 1
      invariant |previous| == |right| + 1
      invariant forall j | 0 <= j <= |right| :: previous[j] == Cell(left, right, i - 1, j)
    {
      var current: seq<nat> := [i];
      var j := 1;
      while j <= |right|
        invariant 1 <= j <= |right| + 1 && |current| == j
        invariant forall k | 0 <= k < j :: current[k] == Cell(left, right, i, k)
      {
        CellStep(left, right, i, j);
        current := current + [Min3(previous[j] + 1, current[j - 1] + 1,
                                   previous[j - 1] + if left[i - 1] == right[j - 1] then 0 else 1)];
        j := j + 1;
      }
      previous := current;
      i := i + 1;
    }
    return previous[|right|];
  }

  // ---------------------------------------------------------------- edit scripts

  /** One insertion, deletion or substitution at some place. */
  datatype Edit<T> = Insert(at: nat, unit: T) | Delete(at: nat) | Substitute(at: nat, unit: T)

  predicate Fits<T>(s: seq<T>, edit: Edit<T>) {
    match edit
    case Insert(at, _) => at <= |s|
    case Delete(at) => at < |s|
    case Substitute(at, _) => at < |s|
  }

  function ApplyEdit<T>(s: seq<T>, edit: Edit<T>): seq<T>
    requires Fits(s, edit)
  {
    match edit
    case Insert(at, unit) => s[..at] + [unit] + s[at..]
    case Delete(at) => s[..at] + s[at + 1..]
    case Substitute(at, unit) => s[..at] + [unit] + s[at + 1..]
  }

  /** `script` turns `left` into `right`. */
  predicate Turns<T(==)>(left: seq<T>, script: seq<Edit<T>>, right: seq<T>)
    decreases |script|
  {
    if script == [] then left == right
    else Fits(left, script[0]) && Turns(ApplyEdit(left, script[0]), script[1..], right)
  }

  lemma {:induction false} DistSelf<T>(s: seq<T>)
    ensures Dist(s, s) == 0
  {
    if s != [] {
      DistSelf(s[..|s| - 1]);
    }
  }

  lemma {:induction false} DistZero<T>(left: seq<T>, right: seq<T>)
    requires Dist(left, right) == 0
    ensures left == right
    decreases |left|
  {
    if left != [] && right != [] {
      DistZero(left[..|left| - 1], right[..|right| - 1]);
      assert left == left[..|left| - 1] + [left[|left| - 1]];
      assert right == right[..|right| - 1] + [right[|right| - 1]];
    }
  }

  lemma {:induction false} Symmetric<T>(left: seq<T>, right: seq<T>)
    ensures Dist(left, right) == Dist(right, left)
    decreases |left| + |right|
  {
    if left != [] && right != [] {
      Symmetric(left[..|left| - 1], right);
      Symmetric(left, right[..|right| - 1]);
      Symmetric(left[..|left| - 1], right[..|right| - 1]);
    }
  }

  /** Dropping the last unit of one side changes the distance by at most one. */
  lemma {:induction false} DropLast<T>(left: seq<T>, right: seq<T>)
    requires left != []
    ensures Dist(left, right) <= Dist(left[..|left| - 1], right) + 1
    ensures Dist(left[..|left| - 1], right) <= Dist(left, right) + 1
    decreases |left| + |right|
  {
    var l := left[..|left| - 1];
    if right != [] {
      var r := right[..|right| - 1];
      DropLast(left, r);
      if l != [] {
        DropLast(l, right);
      }
      DropLastRight(l, right);
    }
  }

  lemma {:induction false} DropLastRight<T>(left: seq<T>, right: seq<T>)
    requires right != []
    ensures Dist(left, right) <= Dist(left, right[..|right| - 1]) + 1
    ensures Dist(left, right[..|right| - 1]) <= Dist(left, right) + 1
    decreases |left| + |right|
  {
    var r := right[..|right| - 1];
    if left != [] {
      DropLastRight(left[..|left| - 1], right);
      DropLast(left, r);
      if r != [] {
        DropLastRight(left, r);
      }
    }
  }

  lemma {:induction false} ByLastUnits<T>(left: seq<T>, right: seq<T>)
    requires left != [] && right != []
    ensures var (l, r) := (left[..|left| - 1], right[..|right| - 1]);
            Dist(left, right) == Min3(Dist(l, right) + 1, Dist(left, r) + 1,
                                      Dist(l, r) + if left[|left| - 1] == right[|right| - 1] then 0 else 1)
  {
  }

  /** The triangle inequality. */
  lemma {:induction false} Triangle<T>(a: seq<T>, b: seq<T>, c: seq<T>)
    ensures Dist(a, c) <= Dist(a, b) + Dist(b, c)
    decreases |a| + |b| + |c|
  {
    if a == [] || b == [] || c == [] {
      LengthBound(a, b);
      LengthBound(b, c);
      LengthBound(a, c);
    } else {
      hide Dist;
      var (a', b', c') := (a[..|a| - 1], b[..|b| - 1], c[..|c| - 1]);
      ByLastUnits(a, b);
      ByLastUnits(b, c);
      ByLastUnits(a, c);
      if Dist(a, b) == Dist(a', b) + 1 {
        Triangle(a', b, c);
      } else if Dist(b, c) == Dist(b, c') + 1 {
        Triangle(a, b, c');
      } else if Dist(a, b) == Dist(a, b') + 1 {
        if Dist(b, c) == Dist(b', c) + 1 {
          Triangle(a, b', c);
        } else {
          Triangle(a, b', c');
        }
      } else if Dist(b, c) == Dist(b', c) + 1 {
        Triangle(a', b', c);
      } else {
        Triangle(a', b', c');
      }
    }
  }

  lemma {:induction false} LengthBound<T>(left: seq<T>, right: seq<T>)
    ensures |left| <= |right| + Dist(left, right)
    ensures |right| <= |left| + Dist(left, right)
    ensures Dist(left, right) <= |left| + |right|
    decreases |left| + |right|
  {
    if left != [] && right != [] {
      LengthBound(left[..|left| - 1], right);
      LengthBound(left, right[..|right| - 1]);
      LengthBound(left[..|left| - 1], right[..|right| - 1]);
    }
  }

  /** A common suffix adds nothing. */
  lemma {:induction false} CommonSuffix<T>(left: seq<T>, right: seq<T>, suffix: seq<T>)
    ensures Dist(left + suffix, right + suffix) <= Dist(left, right)
    decreases |suffix|
  {
    if suffix == [] {
      assert left + suffix == left && right + suffix == right;
    } else {
      var init := suffix[..|suffix| - 1];
      CommonSuffix(left, right, init);
      assert (left + suffix)[..|left + suffix| - 1] == left + init;
      assert (right + suffix)[..|right + suffix| - 1] == right + init;
    }
  }

  lemma {:induction false} OneEditIsNear<T>(s: seq<T>, edit: Edit<T>)
    requires Fits(s, edit)
    ensures Dist(s, ApplyEdit(s, edit)) <= 1
  {
    var head := s[..edit.at];
    DistSelf(head);
    match edit
    case Insert(at, unit) =>
      assert s == head + s[at..];
      assert (head + [unit])[..at] == head;
      DropLast(head + [unit], head);
      Symmetric(head, head + [unit]);
      CommonSuffix(head, head + [unit], s[at..]);
    case Delete(at) =>
      var longer := head + [s[at]];
      assert s == longer + s[at + 1..];
      assert longer[..at] == head;
      DropLast(longer, head);
      CommonSuffix(longer, head, s[at + 1..]);
    case Substitute(at, unit) =>
      var (was, now) := (head + [s[at]], head + [unit]);
      assert s == was + s[at + 1..];
      assert was[..at] == head && now[..at] == head;
      CommonSuffix(was, now, s[at + 1..]);
  }

  /** No script is shorter than the distance. */
  lemma {:induction false} ScriptsAreNoShorter<T>(left: seq<T>, script: seq<Edit<T>>, right: seq<T>)
    requires Turns(left, script, right)
    ensures Dist(left, right) <= |script|
    decreases |script|
  {
    if script == [] {
      DistSelf(left);
    } else {
      var next := ApplyEdit(left, script[0]);
      OneEditIsNear(left, script[0]);
      ScriptsAreNoShorter(next, script[1..], right);
      Triangle(left, next, right);
    }
  }

  lemma {:induction false} TurnsThenTurns<T>(a: seq<T>, first: seq<Edit<T>>, b: seq<T>, second: seq<Edit<T>>, c: seq<T>)
    requires Turns(a, first, b) && Turns(b, second, c)
    ensures Turns(a, first + second, c)
    decreases |first|
  {
    hide ApplyEdit, Fits;
    if first == [] {
      assert first + second == second;
    } else {
      assert (first + second)[0] == first[0];
      TurnsThenTurns(ApplyEdit(a, first[0]), first[1..], b, second, c);
      assert (first + second)[1..] == first[1..] + second;
    }
  }

  lemma EditBeforeSuffix<T>(s: seq<T>, edit: Edit<T>, suffix: seq<T>)
    requires Fits(s, edit)
    ensures Fits(s + suffix, edit) && ApplyEdit(s + suffix, edit) == ApplyEdit(s, edit) + suffix
  {
    var at := edit.at;
    assert (s + suffix)[..at] == s[..at] && (s + suffix)[at..] == s[at..] + suffix;
    if at < |s| {
      assert (s + suffix)[at + 1..] == s[at + 1..] + suffix;
    }
  }

  /** A script works unchanged in front of a common suffix. */
  lemma {:induction false} TurnsBeforeSuffix<T>(left: seq<T>, script: seq<Edit<T>>, right: seq<T>, suffix: seq<T>)
    requires Turns(left, script, right)
    ensures Turns(left + suffix, script, right + suffix)
    decreases |script|
  {
    if script != [] {
      EditBeforeSuffix(left, script[0], suffix);
      TurnsBeforeSuffix(ApplyEdit(left, script[0]), script[1..], right, suffix);
    }
  }

  /** A last edit after a script. */
  lemma EndWith<T>(left: seq<T>, script: seq<Edit<T>>, mid: seq<T>, last: Edit<T>)
    requires Turns(left, script, mid) && Fits(mid, last)
    ensures Turns(left, script + [last], ApplyEdit(mid, last))
  {
    assert Turns(ApplyEdit(mid, last), [last][1..], ApplyEdit(mid, last));
    TurnsThenTurns(left, script, mid, [last], ApplyEdit(mid, last));
  }

  /** A script of exactly the distance exists. */
  lemma {:induction false} ShortestScript<T>(left: seq<T>, right: seq<T>) returns (script: seq<Edit<T>>)
    ensures Turns(left, script, right) && |script| == Dist(left, right)
    decreases |left| + |right|
  {
    if left == [] && right == [] {
      script := [];
    } else if right != [] && Dist(left, right) == Dist(left, right[..|right| - 1]) + 1 {
      script := ShortestByInsertion(left, right);
    } else if left != [] && Dist(left, right) == Dist(left[..|left| - 1], right) + 1 {
      script := ShortestByDeletion(left, right);
    } else {
      script := ShortestByLastUnits(left, right);
    }
  }

  lemma {:induction false} ShortestByInsertion<T>(left: seq<T>, right: seq<T>) returns (script: seq<Edit<T>>)
    requires right != [] && Dist(left, right) == Dist(left, right[..|right| - 1]) + 1
    ensures Turns(left, script, right) && |script| == Dist(left, right)
    decreases |left| + |right|, 0
  {
    hide Dist, Turns;
    var init := right[..|right| - 1];
    var rest := ShortestScript(left, init);
    var last: Edit<T> := Insert(|init|, right[|right| - 1]);
    assert ApplyEdit(init, last) == right;
    EndWith(left, rest, init, last);
    script := rest + [last];
  }

  lemma {:induction false} ShortestByDeletion<T>(left: seq<T>, right: seq<T>) returns (script: seq<Edit<T>>)
    requires left != [] && Dist(left, right) == Dist(left[..|left| - 1], right) + 1
    ensures Turns(left, script, right) && |script| == Dist(left, right)
    decreases |left| + |right|, 0
  {
    hide Dist;
    var init := left[..|left| - 1];
    var rest := ShortestScript(init, right);
    var first: Edit<T> := Delete(|init|);
    assert Fits(left, first) && ApplyEdit(left, first) == init;
    script := [first] + rest;
    assert script[1..] == rest;
  }

  lemma {:induction false} ShortestByLastUnits<T>(left: seq<T>, right: seq<T>) returns (script: seq<Edit<T>>)
    requires left != [] && right != []
    requires Dist(left, right) == Dist(left[..|left| - 1], right[..|right| - 1]) + if left[|left| - 1] == right[|right| - 1] then 0 else 1
    ensures Turns(left, script, right) && |script| == Dist(left, right)
    decreases |left| + |right|, 0
  {
    var (l, r) := (left[..|left| - 1], right[..|right| - 1]);
    var (x, y) := (left[|left| - 1], right[|right| - 1]);
    assert left == l + [x] && right == r + [y];
    script := ShortestScript(l, r);
    TurnsBeforeSuffix(l, script, r, [x]);
    if x != y {
      var last: Edit<T> := Substitute(|r|, y);
      assert ApplyEdit(r + [x], last) == right;
      EndWith(left, script, r + [x], last);
      script := script + [last];
    }
  }

  /** The distance is the least number of edits over all scripts. */
  lemma DistIsLeast<T>(left: seq<T>, right: seq<T>)
    ensures exists script :: Turns(left, script, right) && |script| == Dist(left, right)
    ensures forall script | Turns(left, script, right) :: Dist(left, right) <= |script|
  {
    var script := ShortestScript(left, right);
    forall other | Turns(left, other, right)
      ensures Dist(left, right) <= |other|
    {
      ScriptsAreNoShorter(left, other, right);
    }
  }

  /** `n` edits do, and no fewer. */
  ghost predicate LeastEdits<T(!new)>(left: seq<T>, right: seq<T>, n: nat) {
    (exists script :: Turns(left, script, right) && |script| == n) && forall script | Turns(left, script, right) :: n <= |script|
  }

  lemma {:induction false} DistIsLeastEdits<T(!new)>(left: seq<T>, right: seq<T>)
    ensures LeastEdits(left, right, Dist(left, right))
  {
    var script := ShortestScript(left, right);
    forall other | Turns(left, other, right)
      ensures Dist(left, right) <= |other|
    {
      ScriptsAreNoShorter(left, other, right);
    }
  }
}

/** The three table names nearest to a wanted one (src/state/query.ts, `nearest`). */
module NearestNames {
  import opened EditDistance

  /** `lower` and `compare` are the language's lower-casing and its locale order. */
  datatype Language = Language(lower: string -> string, compare: (string, string) -> int)

  datatype Candidate = Candidate(name: string, score: nat)

  const FARTHEST: nat := 3
  const MOST: nat := 3

  /** `compare` orders names like any comparator a sort accepts. */
  ghost predicate Orders(compare: (string, string) -> int) {
    && (forall a, b :: compare(a, b) <= 0 || compare(b, a) <= 0)
    && (forall a, b, c :: compare(a, b) <= 0 && compare(b, c) <= 0 ==> compare(a, c) <= 0)
  }

  predicate Includes(text: string, part: string) {
    exists i | 0 <= i <= |text| :: PartAt(text, part, i)
  }

  predicate PartAt(text: string, part: string, i: nat) {
    i + |part| <= |text| && text[i..i + |part|] == part
  }

  function Score(lang: Language, wanted: string, name: string): nat {
    var (target, table) := (lang.lower(wanted), lang.lower(name));
    if Includes(table, target) || Includes(target, table) then 0 else Dist(target, table)
  }

  /** One text holds another: it is the other between two more. */
  ghost predicate Contains(text: string, part: string) {
    exists before, after :: text == before + part + after
  }

  lemma {:induction false} IncludesSays(text: string, part: string)
    ensures Includes(text, part) <==> Contains(text, part)
  {
    if Includes(text, part) {
      var i :| 0 <= i <= |text| && PartAt(text, part, i);
      assert text == text[..i] + part + text[i + |part|..];
    }
    if Contains(text, part) {
      var before, after :| text == before + part + after;
      assert text[|before|..|before| + |part|] == part;
      assert PartAt(text, part, |before|);
    }
  }

  /** A name scores nothing when it and the wanted one hold one another, and otherwise the edits it takes, letter case aside. */
  lemma {:induction false} ScoreSays(lang: Language, wanted: string, name: string)
    ensures var (target, table, score) := (lang.lower(wanted), lang.lower(name), Score(lang, wanted, name));
            if Contains(table, target) || Contains(target, table) then score == 0 else LeastEdits(target, table, score)
  {
    var (target, table) := (lang.lower(wanted), lang.lower(name));
    IncludesSays(table, target);
    IncludesSays(target, table);
    hide Includes, Contains, Dist, LeastEdits;
    DistIsLeastEdits(target, table);
  }

  function Candidates(lang: Language, wanted: string, tables: seq<string>): seq<Candidate> {
    if tables == [] then []
    else
      var score := Score(lang, wanted, tables[0]);
      (if score <= FARTHEST then [Candidate(tables[0], score)] else []) + Candidates(lang, wanted, tables[1..])
  }

  predicate NoLater(lang: Language, a: Candidate, b: Candidate) {
    a.score < b.score || (a.score == b.score && lang.compare(a.name, b.name) <= 0)
  }

  function Insert(lang: Language, c: Candidate, sorted: seq<Candidate>): seq<Candidate> {
    if sorted == [] || NoLater(lang, c, sorted[0]) then [c] + sorted
    else [sorted[0]] + Insert(lang, c, sorted[1..])
  }

  function Sort(lang: Language, list: seq<Candidate>): seq<Candidate> {
    if list == [] then [] else Insert(lang, list[0], Sort(lang, list[1..]))
  }

  function Names(list: seq<Candidate>): seq<string> {
    seq(|list|, i requires 0 <= i < |list| => list[i].name)
  }

  function Nearest(lang: Language, wanted: string, tables: seq<string>): seq<string> {
    var ranked := Sort(lang, Candidates(lang, wanted, tables));
    Names(if |ranked| > MOST then ranked[..MOST] else ranked)
  }

  ghost predicate Ranked(lang: Language, list: seq<Candidate>) {
    forall i, j | 0 <= i < j < |list| :: NoLater(lang, list[i], list[j])
  }

  lemma {:induction false} InsertIsFrom(lang: Language, c: Candidate, sorted: seq<Candidate>)
    ensures forall d | d in Insert(lang, c, sorted) :: d == c || d in sorted
  {
    if sorted != [] {
      InsertIsFrom(lang, c, sorted[1..]);
    }
  }

  lemma HeadRanks(lang: Language, head: Candidate, rest: seq<Candidate>)
    requires Ranked(lang, rest) && forall d | d in rest :: NoLater(lang, head, d)
    ensures Ranked(lang, [head] + rest)
  {
    hide NoLater;
  }

  lemma {:induction false} InsertRanks(lang: Language, c: Candidate, sorted: seq<Candidate>)
    requires Orders(lang.compare) && Ranked(lang, sorted)
    ensures Ranked(lang, Insert(lang, c, sorted))
    ensures multiset(Insert(lang, c, sorted)) == multiset{c} + multiset(sorted)
  {
    if sorted != [] {
      var (head, tail) := (sorted[0], sorted[1..]);
      assert sorted == [head] + tail;
      if !NoLater(lang, c, head) {
        InsertRanks(lang, c, tail);
        InsertIsFrom(lang, c, tail);
        HeadRanks(lang, head, Insert(lang, c, tail));
      } else {
        HeadRanks(lang, c, sorted);
      }
    }
  }

  lemma {:induction false} SortRanks(lang: Language, list: seq<Candidate>)
    requires Orders(lang.compare)
    ensures Ranked(lang, Sort(lang, list))
    ensures multiset(Sort(lang, list)) == multiset(list)
  {
    if list != [] {
      assert list == [list[0]] + list[1..];
      SortRanks(lang, list[1..]);
      InsertRanks(lang, list[0], Sort(lang, list[1..]));
    }
  }

  /** The candidates are exactly the names within reach, each with its score and as often as it is listed. */
  lemma {:induction false} CandidatesAreNear(lang: Language, wanted: string, tables: seq<string>, c: Candidate)
    ensures multiset(Candidates(lang, wanted, tables))[c]
         == if c.score == Score(lang, wanted, c.name) && c.score <= FARTHEST then multiset(tables)[c.name] else 0
  {
    if tables != [] {
      CandidatesAreNear(lang, wanted, tables[1..], c);
      assert tables == [tables[0]] + tables[1..];
    }
  }

  /** `best` ranks before `rest`, and together they are the candidates; `rest` is empty unless `best` is full. */
  ghost predicate Split(lang: Language, best: seq<Candidate>, rest: seq<Candidate>, near: seq<Candidate>) {
    && multiset(best) + multiset(rest) == multiset(near)
    && Ranked(lang, best)
    && (|best| == MOST || (|best| < MOST && rest == []))
    && forall b, r | b in best && r in rest :: NoLater(lang, b, r)
  }

  lemma RankedSplits(lang: Language, ranked: seq<Candidate>, n: nat)
    requires Ranked(lang, ranked) && n <= |ranked|
    ensures Ranked(lang, ranked[..n])
    ensures forall b, r | b in ranked[..n] && r in ranked[n..] :: NoLater(lang, b, r)
  {
    hide NoLater;
    forall b, r | b in ranked[..n] && r in ranked[n..]
      ensures NoLater(lang, b, r)
    {
      var i :| 0 <= i < n && ranked[i] == b;
      var j :| n <= j < |ranked| && ranked[j] == r;
    }
  }

  /**
   * `Nearest` answers at most three names within reach, best first, and everything within reach that it
   * leaves out ranks no earlier than everything it answers.
   */
  lemma NearestAreBest(lang: Language, wanted: string, tables: seq<string>)
    requires Orders(lang.compare)
    ensures exists best, rest :: Nearest(lang, wanted, tables) == Names(best) && Split(lang, best, rest, Candidates(lang, wanted, tables))
  {
    hide Ranked, NoLater, Orders, Sort, Candidates, Names;
    var near := Candidates(lang, wanted, tables);
    var ranked := Sort(lang, near);
    SortRanks(lang, near);
    var n := if |ranked| > MOST then MOST else |ranked|;
    var (best, rest) := (ranked[..n], ranked[n..]);
    assert ranked == best + rest;
    RankedSplits(lang, ranked, n);
    assert best == if |ranked| > MOST then ranked[..MOST] else ranked;
    assert Split(lang, best, rest, near);
  }
}

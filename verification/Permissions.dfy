/** The permission policy and the edits that bring the owner's document to it (packages/contracts/src/permissions.ts). */
module Permissions {
  import opened Wrappers
  import opened PropertyLists

  datatype Action = Allow | Ask | Deny

  datatype Mode = AllowAll | AskFirst | ReadOnly

  /**
   * What a pattern maps to: a state, a generated deny (with whatever else the owner's document holds beside its
   * action and reason), or anything else the owner wrote.
   */
  datatype Rule = State(action: Action) | Protected(extra: string) | Owner(text: string)

  type Rules = Properties<Rule>

  /** What a surface maps to: a map of patterns, or anything else. */
  datatype Surface = Patterns(rules: Rules) | Scalar(text: string)

  type Permission = Properties<Surface>

  const READ_SURFACES := ["read", "grep", "find", "ls", "skill"]
  const CHANGE_SURFACES := ["edit", "write"]
  const MANAGED_SURFACES := ["read", "grep", "find", "ls", "skill", "edit", "write", "external_directory", "bash"]
  const RETIRED_SURFACES := ["query_database", "save_note"]
  const AGENT_CLI_RULES := ["pi-template db *", "pi-template docs *", "pi-template notes *", "pi-template schedule *",
                            "pi-template status *", "pi-template doctor *"]

  const GENERATED := Protected("")

  // ---------------------------------------------------------------- the pieces of the policy

  function RulesOf(s: Option<Surface>): Rules {
    if s.Some? && s.value.Patterns? then s.value.rules else []
  }

  predicate HasPatterns(s: Option<Surface>) {
    s.Some? && s.value.Patterns?
  }

  function ActionText(a: Action): string {
    match a case Allow => "allow" case Ask => "ask" case Deny => "deny"
  }

  function ChangeAction(mode: Mode): Action {
    match mode case AllowAll => Allow case ReadOnly => Deny case AskFirst => Ask
  }

  function WithDefault(existing: Option<Surface>, action: Action): Rules {
    [Property("*", State(action))] + Without(RulesOf(existing), "*")
  }

  /** The generated command rules that the owner has not written himself. */
  function MissingCli(rules: seq<string>, owner: Rules): Rules {
    if rules == [] then []
    else (if Find(owner, rules[0]) == None then [Property(rules[0], State(Allow))] else []) + MissingCli(rules[1..], owner)
  }

  function WithAgentCliRules(cli: seq<string>, action: Action, owner: Rules): Rules {
    [Property("*", State(action))] + MissingCli(cli, owner) + owner
  }

  function PathWriteRules(existing: Option<Surface>, mode: Mode): Option<Rules> {
    if mode != AllowAll then Some(WithDefault(existing, ChangeAction(mode)))
    else
      var owner := Without(RulesOf(existing), "*");
      if owner == [] then None else Some(owner)
  }

  /** The default a surface gets: reading is allowed in every mode, changing goes by the mode. */
  function SurfaceAction(surface: string, mode: Mode): Action {
    if surface in READ_SURFACES || surface == "external_directory" then Allow else ChangeAction(mode)
  }

  function NextRules(existing: Permission, surface: string, mode: Mode): Rules {
    var current := Find(existing, surface);
    var action := SurfaceAction(surface, mode);
    if surface == "bash" then WithAgentCliRules(AGENT_CLI_RULES, action, Without(RulesOf(current), "*")) else WithDefault(current, action)
  }

  function NextSurfaces(existing: Permission, surfaces: seq<string>, mode: Mode): Permission {
    if surfaces == [] then []
    else [Property(surfaces[0], Patterns(NextRules(existing, surfaces[0], mode)))] + NextSurfaces(existing, surfaces[1..], mode)
  }

  /** The owner's path rules: neither the default nor a deny an earlier reconciliation generated. */
  function OwnerRules(rules: Rules): Rules {
    if rules == [] then []
    else (if rules[0].key != "*" && !rules[0].value.Protected? then [rules[0]] else []) + OwnerRules(rules[1..])
  }

  /** Every identity of every blocked path, each with the pattern for what lies below it. */
  function GeneratedPatterns(identities: seq<string>): seq<string> {
    if identities == [] then [] else [identities[0], identities[0] + "/*"] + GeneratedPatterns(identities[1..])
  }

  function DenyAll(rules: Rules, patterns: seq<string>): Rules
    decreases |patterns|
  {
    if patterns == [] then rules else DenyAll(Put(rules, patterns[0], GENERATED), patterns[1..])
  }

  function PathRules(existing: Rules, identities: seq<string>): Rules {
    PutAll(DenyAll([Property("*", State(Allow))], GeneratedPatterns(identities)), OwnerRules(existing))
  }

  function PutOrDrop(p: Permission, key: string, rules: Option<Rules>): Permission {
    if rules.Some? then Put(p, key, Patterns(rules.value)) else Without(p, key)
  }

  /** `permissionPolicy`, `identities` being those of all the blocked paths. */
  function Policy(existing: Permission, identities: seq<string>, mode: Mode): Permission {
    var base := WithoutAll(Put(existing, "*", Scalar(ActionText(ChangeAction(mode)))), RETIRED_SURFACES);
    var managed := PutAll(base, NextSurfaces(existing, MANAGED_SURFACES, mode));
    Put(PutOrDrop(managed, "path_write", PathWriteRules(Find(existing, "path_write"), mode)),
        "path", Patterns(PathRules(RulesOf(Find(existing, "path")), identities)))
  }

  // ---------------------------------------------------------------- what the policy holds

  /** The policy by key: what each surface becomes, and that every other stays. */
  function PolicyAt(existing: Permission, identities: seq<string>, mode: Mode, key: string): Option<Surface> {
    if key == "*" then Some(Scalar(ActionText(ChangeAction(mode))))
    else if key in RETIRED_SURFACES then None
    else if key in MANAGED_SURFACES then Some(Patterns(NextRules(existing, key, mode)))
    else if key == "path_write" then
      var rules := PathWriteRules(Find(existing, key), mode);
      if rules.Some? then Some(Patterns(rules.value)) else None
    else if key == "path" then Some(Patterns(PathRules(RulesOf(Find(existing, key)), identities)))
    else Find(existing, key)
  }

  lemma {:induction false} FindNextSurfaces(existing: Permission, surfaces: seq<string>, mode: Mode, key: string)
    ensures Find(NextSurfaces(existing, surfaces, mode), key)
         == if key in surfaces then Some(Patterns(NextRules(existing, key, mode))) else None
    ensures |NextSurfaces(existing, surfaces, mode)| == |surfaces|
    ensures forall i | 0 <= i < |surfaces| ::
              NextSurfaces(existing, surfaces, mode)[i] == Property(surfaces[i], Patterns(NextRules(existing, surfaces[i], mode)))
    decreases |surfaces|
  {
    hide NextRules;
    if surfaces != [] {
      FindNextSurfaces(existing, surfaces[1..], mode, key);
      FindFirst(surfaces[0], Patterns(NextRules(existing, surfaces[0], mode)), NextSurfaces(existing, surfaces[1..], mode), key);
      assert key in surfaces <==> key == surfaces[0] || key in surfaces[1..];
    }
  }

  lemma FindPutOrDrop(p: Permission, key: string, rules: Option<Rules>, k: string)
    ensures Find(PutOrDrop(p, key, rules), k)
         == if k != key then Find(p, k) else if rules.Some? then Some(Patterns(rules.value)) else None
  {
    if rules.Some? {
      FindPut(p, key, Patterns(rules.value), k);
    } else {
      FindWithout(p, key, k);
    }
  }

  lemma PolicyByKey(existing: Permission, identities: seq<string>, mode: Mode, key: string)
    ensures Find(Policy(existing, identities, mode), key) == PolicyAt(existing, identities, mode, key)
  {
    hide NextRules, PathRules, PathWriteRules, ActionText, NextSurfaces, Find, Put, PutAll, WithoutAll, Without, PutOrDrop;
    var action := Scalar(ActionText(ChangeAction(mode)));
    var base := WithoutAll(Put(existing, "*", action), RETIRED_SURFACES);
    FindPut(existing, "*", action, key);
    FindWithoutAll(Put(existing, "*", action), RETIRED_SURFACES, key);
    var next := NextSurfaces(existing, MANAGED_SURFACES, mode);
    FindNextSurfaces(existing, MANAGED_SURFACES, mode, key);
    FindPutAll(base, next, key);
    var managed := PutAll(base, next);
    var write := PathWriteRules(Find(existing, "path_write"), mode);
    FindPutOrDrop(managed, "path_write", write, key);
    FindPut(PutOrDrop(managed, "path_write", write), "path",
            Patterns(PathRules(RulesOf(Find(existing, "path")), identities)), key);
  }

  // ---------------------------------------------------------------- who wins in bash

  /** The permission system goes by the last rule whose pattern matches. */
  function LastMatch(rules: Rules, matches: string -> bool): Option<Rule> {
    if rules == [] then None
    else
      var later := LastMatch(rules[1..], matches);
      if later.Some? then later else if matches(rules[0].key) then Some(rules[0].value) else None
  }

  lemma {:induction false} LastMatchSplits(a: Rules, b: Rules, matches: string -> bool)
    ensures LastMatch(a + b, matches) == if LastMatch(b, matches).Some? then LastMatch(b, matches) else LastMatch(a, matches)
    decreases |a|
  {
    if a == [] {
      assert a + b == b;
    } else {
      assert (a + b)[1..] == a[1..] + b;
      LastMatchSplits(a[1..], b, matches);
    }
  }

  lemma {:induction false} MissingCliMatch(cli: seq<string>, owner: Rules, matches: string -> bool)
    ensures LastMatch(MissingCli(cli, owner), matches)
         == if exists r | r in cli :: Find(owner, r) == None && matches(r) then Some(State(Allow)) else None
    decreases |cli|
  {
    if cli != [] {
      MissingCliMatch(cli[1..], owner, matches);
      assert forall r :: r in cli <==> r == cli[0] || r in cli[1..];
      var (head, rest) := ([Property(cli[0], State(Allow))], MissingCli(cli[1..], owner));
      assert (head + rest)[1..] == rest && [] + rest == rest;
    }
  }

  /**
   * A bash command is decided by the owner's last matching rule when he has one, so his deny wins; otherwise the
   * agent's own commands are allowed in every mode, and everything else goes by the mode.
   */
  lemma OwnerDecidesFirst(cli: seq<string>, action: Action, owner: Rules, matches: string -> bool)
    requires matches("*")
    ensures LastMatch(WithAgentCliRules(cli, action, owner), matches) == (
              if LastMatch(owner, matches).Some? then LastMatch(owner, matches)
              else if exists r | r in cli :: Find(owner, r) == None && matches(r) then Some(State(Allow))
              else Some(State(action)))
  {
    var (fallback, missing) := ([Property("*", State(action))], MissingCli(cli, owner));
    MissingCliMatch(cli, owner, matches);
    LastMatchSplits(fallback + missing, owner, matches);
    LastMatchSplits(fallback, missing, matches);
    assert fallback[1..] == [] && LastMatch(fallback, matches) == Some(State(action));
  }

  // ---------------------------------------------------------------- idempotence

  lemma DefaultIsKept(rules: Rules, action: Action)
    ensures Without([Property("*", State(action))] + Without(rules, "*"), "*") == Without(rules, "*")
  {
    FindWithout(rules, "*", "*");
    WithoutAbsent(Without(rules, "*"), "*");
    assert ([Property("*", State(action))] + Without(rules, "*"))[1..] == Without(rules, "*");
  }

  lemma {:induction false} MissingCliFound(rules: seq<string>, owner: Rules, key: string)
    ensures Find(MissingCli(rules, owner), key) == if key in rules && Find(owner, key) == None then Some(State(Allow)) else None
    decreases |rules|
  {
    if rules != [] {
      MissingCliFound(rules[1..], owner, key);
      assert key in rules <==> key == rules[0] || key in rules[1..];
      FindFirst(rules[0], State(Allow), MissingCli(rules[1..], owner), key);
      assert [] + MissingCli(rules[1..], owner) == MissingCli(rules[1..], owner);
    }
  }

  lemma {:induction false} NothingMissing(rules: seq<string>, owner: Rules)
    requires forall r | r in rules :: Find(owner, r).Some?
    ensures MissingCli(rules, owner) == []
    decreases |rules|
  {
    if rules != [] {
      NothingMissing(rules[1..], owner);
    }
  }

  lemma MissingCliIsThere(cli: seq<string>, owner: Rules)
    requires Find(owner, "*") == None && "*" !in cli
    ensures var rest := MissingCli(cli, owner) + owner;
            && Without(rest, "*") == rest
            && MissingCli(cli, rest) == []
  {
    var rest := MissingCli(cli, owner) + owner;
    forall key
      ensures Find(rest, key) == if key in cli && Find(owner, key) == None then Some(State(Allow)) else Find(owner, key)
    {
      MissingCliFound(cli, owner, key);
      FindSplits(MissingCli(cli, owner), owner, key);
    }
    WithoutAbsent(rest, "*");
    NothingMissing(cli, rest);
  }

  lemma WithoutHead(p: Property<Rule>, l: Rules)
    ensures Without([p] + l, p.key) == Without(l, p.key)
  {
    assert ([p] + l)[1..] == l;
  }

  lemma CliRulesAreKept(cli: seq<string>, action: Action, owner: Rules)
    requires Find(owner, "*") == None && "*" !in cli
    ensures WithAgentCliRules(cli, action, Without(WithAgentCliRules(cli, action, owner), "*")) == WithAgentCliRules(cli, action, owner)
  {
    hide MissingCli, Find, Without;
    var (fallback, missing) := (Property("*", State(action)), MissingCli(cli, owner));
    MissingCliIsThere(cli, owner);
    WithoutHead(fallback, missing + owner);
    assert [fallback] + missing + owner == [fallback] + (missing + owner);
    assert [fallback] + [] + (missing + owner) == [fallback] + (missing + owner);
  }

  lemma NoCliRuleIsTheDefault()
    ensures "*" !in AGENT_CLI_RULES
  {
    assert forall r | r in AGENT_CLI_RULES :: |r| > 1;
  }

  lemma RulesAreKept(existing: Permission, next: Permission, surface: string, mode: Mode)
    requires Find(next, surface) == Some(Patterns(NextRules(existing, surface, mode)))
    ensures NextRules(next, surface, mode) == NextRules(existing, surface, mode)
  {
    var (rules, action) := (RulesOf(Find(existing, surface)), SurfaceAction(surface, mode));
    if surface == "bash" {
      FindWithout(rules, "*", "*");
      NoCliRuleIsTheDefault();
      CliRulesAreKept(AGENT_CLI_RULES, action, Without(rules, "*"));
    } else {
      DefaultIsKept(rules, action);
    }
  }

  lemma PathWriteIsKept(existing: Option<Surface>, mode: Mode)
    ensures var rules := PathWriteRules(existing, mode);
            PathWriteRules(if rules.Some? then Some(Patterns(rules.value)) else None, mode) == rules
  {
    if mode != AllowAll {
      DefaultIsKept(RulesOf(existing), ChangeAction(mode));
    } else {
      FindWithout(RulesOf(existing), "*", "*");
      WithoutAbsent(Without(RulesOf(existing), "*"), "*");
    }
  }

  predicate OwnersRule(p: Property<Rule>) {
    p.key != "*" && !p.value.Protected?
  }

  lemma {:induction false} OwnerRulesAreOwners(rules: Rules)
    ensures forall p | p in OwnerRules(rules) :: OwnersRule(p) && p in rules
    ensures Unique(rules) ==> Unique(OwnerRules(rules))
    decreases |rules|
  {
    if rules != [] {
      OwnerRulesAreOwners(rules[1..]);
      assert forall p | p in rules[1..] :: p in rules;
      if Unique(rules) {
        UniqueHead(rules);
        NotFound(rules[1..], rules[0].key);
        var rest := OwnerRules(rules[1..]);
        assert forall j | 0 <= j < |rest| :: rest[j] in rules[1..];
      }
    }
  }

  lemma {:induction false} FindOwner(rules: Rules, key: string)
    requires Unique(rules)
    ensures var found := Find(rules, key);
            Find(OwnerRules(rules), key) == if found.Some? && OwnersRule(Property(key, found.value)) then found else None
    decreases |rules|
  {
    if rules != [] {
      UniqueHead(rules);
      FindOwner(rules[1..], key);
      var rest := OwnerRules(rules[1..]);
      assert [] + rest == rest;
      FindFirst(rules[0].key, rules[0].value, rest, key);
    }
  }

  lemma {:induction false} OwnerRulesSplit(a: Rules, b: Rules)
    ensures OwnerRules(a + b) == OwnerRules(a) + OwnerRules(b)
    decreases |a|
  {
    if a == [] {
      assert a + b == b;
    } else {
      assert (a + b)[1..] == a[1..] + b;
      OwnerRulesSplit(a[1..], b);
    }
  }

  lemma {:induction false} AllOwners(rules: Rules)
    requires forall p | p in rules :: OwnersRule(p)
    ensures OwnerRules(rules) == rules
    decreases |rules|
  {
    if rules != [] {
      assert rules[0] in rules && forall p | p in rules[1..] :: p in rules;
      AllOwners(rules[1..]);
    }
  }

  lemma {:induction false} ExtraIsNew(l: Rules, more: Rules)
    requires Unique(more)
    ensures Unique(Extra(l, more)) && forall p | p in Extra(l, more) :: p in more && Find(l, p.key) == None
    decreases |more|
  {
    if more != [] {
      UniqueHead(more);
      ExtraIsNew(l, more[1..]);
      NotFound(more[1..], more[0].key);
    }
  }

  lemma {:induction false} AllExtra(l: Rules, more: Rules)
    requires forall p | p in more :: Find(l, p.key) == None
    ensures Extra(l, more) == more
    decreases |more|
  {
    if more != [] {
      assert more[0] in more && forall p | p in more[1..] :: p in more;
      AllExtra(l, more[1..]);
    }
  }

  lemma {:induction false} NoneExtra(l: Rules, more: Rules)
    requires forall p | p in more :: Find(l, p.key).Some?
    ensures Extra(l, more) == []
    decreases |more|
  {
    if more != [] {
      assert more[0] in more && forall p | p in more[1..] :: p in more;
      NoneExtra(l, more[1..]);
    }
  }

  /** Laying the owner's rules over generated ones, and then the owner's rules of the result, is laying them over once. */
  lemma OwnersLaidTwice(generated: Rules, owner: Rules)
    requires Unique(generated) && Unique(owner)
    requires forall p | p in generated :: !OwnersRule(p)
    requires forall p | p in owner :: OwnersRule(p)
    ensures PutAll(generated, OwnerRules(PutAll(generated, owner))) == PutAll(generated, owner)
  {
    var (laid, extra) := (Updated(generated, owner), Extra(generated, owner));
    PutAllShape(generated, owner);
    ExtraIsNew(generated, owner);
    assert Unique(laid);
    OwnerRulesSplit(laid, extra);
    AllOwners(extra);
    var again := OwnerRules(laid);
    OwnerRulesAreOwners(laid);
    PutAllSplits(generated, again, extra);
    assert PutAll(generated, again) == laid by { LaidAgain(generated, owner); }
    forall p | p in extra
      ensures Find(laid, p.key) == None
    {
      FindUpdated(generated, owner, p.key);
    }
    AllExtra(laid, extra);
    PutAllShape(laid, extra);
    assert Updated(laid, extra) == laid by { LaidAndDone(laid, extra); }
  }

  lemma LaidAndDone(laid: Rules, extra: Rules)
    requires forall p | p in extra :: Find(laid, p.key) == None
    ensures Updated(laid, extra) == laid
  {
    forall i | 0 <= i < |laid|
      ensures Updated(laid, extra)[i] == laid[i]
    {
      UpdatedAt(laid, extra, i);
      NotFound(extra, laid[i].key);
      forall j | 0 <= j < |extra|
        ensures extra[j].key != laid[i].key
      {
        assert extra[j] in extra;
        NotFound(laid, extra[j].key);
      }
    }
  }

  lemma LaidAgain(generated: Rules, owner: Rules)
    requires Unique(generated) && Unique(owner)
    requires forall p | p in generated :: !OwnersRule(p)
    requires forall p | p in owner :: OwnersRule(p)
    ensures PutAll(generated, OwnerRules(Updated(generated, owner))) == Updated(generated, owner)
  {
    var laid := Updated(generated, owner);
    var again := OwnerRules(laid);
    OwnerRulesAreOwners(laid);
    PutAllShape(generated, again);
    forall p | p in again
      ensures Find(generated, p.key).Some?
    {
      NotFound(generated, p.key);
      var i :| 0 <= i < |laid| && laid[i] == p;
      assert generated[i].key == p.key;
    }
    NoneExtra(generated, again);
    forall i | 0 <= i < |generated|
      ensures Updated(generated, again)[i] == laid[i]
    {
      var key := generated[i].key;
      assert generated[i] in generated;
      UpdatedAt(generated, again, i);
      UpdatedAt(generated, owner, i);
      FindOwner(laid, key);
      FindUpdated(generated, owner, key);
      FindAt(generated, i);
      FindIn(owner, key);
    }
  }

  lemma {:induction false} FindAt(rules: Rules, i: nat)
    requires Unique(rules) && i < |rules|
    ensures Find(rules, rules[i].key) == Some(rules[i].value)
    decreases i
  {
    if i > 0 {
      UniqueHead(rules);
      FindAt(rules[1..], i - 1);
    }
  }

  lemma {:induction false} FindIn(rules: Rules, key: string)
    ensures Find(rules, key).Some? ==> Property(key, Find(rules, key).value) in rules
    decreases |rules|
  {
    if rules != [] && rules[0].key != key {
      FindIn(rules[1..], key);
    }
  }

  lemma {:induction false} PutAllSplits(l: Rules, a: Rules, b: Rules)
    ensures PutAll(l, a + b) == PutAll(PutAll(l, a), b)
    decreases |a|
  {
    if a == [] {
      assert a + b == b;
    } else {
      assert (a + b)[1..] == a[1..] + b;
      PutAllSplits(Put(l, a[0].key, a[0].value), a[1..], b);
    }
  }

  lemma {:induction false} DenyAllIsGenerated(rules: Rules, patterns: seq<string>)
    requires Unique(rules) && forall p | p in rules :: !OwnersRule(p)
    ensures Unique(DenyAll(rules, patterns)) && forall p | p in DenyAll(rules, patterns) :: !OwnersRule(p)
    decreases |patterns|
  {
    if patterns != [] {
      PutIsUnique(rules, patterns[0], GENERATED);
      PutAddsOnly(rules, patterns[0], GENERATED);
      DenyAllIsGenerated(Put(rules, patterns[0], GENERATED), patterns[1..]);
    }
  }

  lemma {:induction false} PutAddsOnly(rules: Rules, key: string, value: Rule)
    ensures forall p | p in Put(rules, key, value) :: p in rules || p == Property(key, value)
    decreases |rules|
  {
    if rules != [] {
      PutAddsOnly(rules[1..], key, value);
    }
  }

  lemma PathRulesAreKept(existing: Rules, identities: seq<string>)
    requires Unique(existing)
    ensures PathRules(PathRules(existing, identities), identities) == PathRules(existing, identities)
  {
    DenyAllIsGenerated([Property("*", State(Allow))], GeneratedPatterns(identities));
    OwnerRulesAreOwners(existing);
    OwnersLaidTwice(DenyAll([Property("*", State(Allow))], GeneratedPatterns(identities)), OwnerRules(existing));
  }

  /** Reconciling twice gives the very same policy: the same surfaces and rules, in the same order. */
  lemma PolicyIsIdempotent(existing: Permission, identities: seq<string>, mode: Mode)
    requires Unique(RulesOf(Find(existing, "path")))
    ensures Policy(Policy(existing, identities, mode), identities, mode) == Policy(existing, identities, mode)
  {
    hide NextRules, PathRules, PathWriteRules, ActionText, NextSurfaces, Find, Put, PutAll, WithoutAll, Without, Policy;
    var next := Policy(existing, identities, mode);
    forall key
      ensures Find(next, key) == PolicyAt(existing, identities, mode, key)
    {
      PolicyByKey(existing, identities, mode, key);
    }
    PathRulesAreKept(RulesOf(Find(existing, "path")), identities);
    PathWriteIsKept(Find(existing, "path_write"), mode);
    forall surface | surface in MANAGED_SURFACES
      ensures Find(next, surface) == Some(Patterns(NextRules(next, surface, mode)))
    {
      RulesAreKept(existing, next, surface, mode);
    }
    ReconciledIsKept(next, identities, mode);
  }

  /** A permission that already is what the policy asks for is left as it is. */
  lemma ReconciledIsKept(p: Permission, identities: seq<string>, mode: Mode)
    requires Find(p, "*") == Some(Scalar(ActionText(ChangeAction(mode))))
    requires forall surface | surface in RETIRED_SURFACES :: Find(p, surface) == None
    requires forall surface | surface in MANAGED_SURFACES :: Find(p, surface) == Some(Patterns(NextRules(p, surface, mode)))
    requires var rules := PathWriteRules(Find(p, "path_write"), mode);
             Find(p, "path_write") == if rules.Some? then Some(Patterns(rules.value)) else None
    requires Find(p, "path") == Some(Patterns(PathRules(RulesOf(Find(p, "path")), identities)))
    ensures Policy(p, identities, mode) == p
  {
    hide NextRules, PathRules, PathWriteRules, ActionText, NextSurfaces, Find, Put, PutAll, WithoutAll, Without;
    PutSame(p, "*", Scalar(ActionText(ChangeAction(mode))));
    WithoutAllAbsent(p, RETIRED_SURFACES);
    FindNextSurfaces(p, MANAGED_SURFACES, mode, "");
    PutAllSame(p, NextSurfaces(p, MANAGED_SURFACES, mode));
    var rules := PathWriteRules(Find(p, "path_write"), mode);
    if rules.Some? {
      PutSame(p, "path_write", Patterns(rules.value));
    } else {
      WithoutAbsent(p, "path_write");
    }
    PutSame(p, "path", Patterns(PathRules(RulesOf(Find(p, "path")), identities)));
  }

  // ---------------------------------------------------------------- the document's edits

  /** `setJsoncDefaultFirst`: a default that is not first is taken out and put back first. */
  function DefaultFirst(rules: Rules, value: Rule): Rules {
    PutAt(if IndexOf(rules, "*") > 0 then Without(rules, "*") else rules, "*", value, 0)
  }

  function PutAfter(rules: Rules, key: string, value: Rule, after: string): Rules {
    PutAt(rules, key, value, IndexOf(rules, after) + 1)
  }

  /** The command rules the document lacks, each after the one before it, the first after the default. */
  function InsertCli(rules: Rules, cli: seq<string>, existing: Rules, previous: string): Rules
    decreases |cli|
  {
    if cli == [] then rules
    else if Find(existing, cli[0]).Some? then InsertCli(rules, cli[1..], existing, previous)
    else InsertCli(PutAfter(rules, cli[0], State(Allow), previous), cli[1..], existing, cli[0])
  }

  predicate IsGenerated(r: Option<Rule>) {
    r.Some? && r.value.Protected?
  }

  /** Generated rules of paths no longer blocked go. */
  function DropStale(rules: Rules, existing: Rules, next: Rules): Rules
    decreases |existing|
  {
    if existing == [] then rules
    else
      var p := existing[0];
      DropStale(if p.value.Protected? && !IsGenerated(Find(next, p.key)) then Without(rules, p.key) else rules, existing[1..], next)
  }

  /** Generated rules the document lacks come in after the default. */
  function AddMissing(rules: Rules, existing: Rules, next: Rules): Rules
    decreases |next|
  {
    if next == [] then rules
    else
      var p := next[0];
      AddMissing(if p.value.Protected? && !IsGenerated(Find(existing, p.key)) then PutAfter(rules, p.key, p.value, "*") else rules,
                 existing, next[1..])
  }

  function DefaultOf(rules: Rules): Rule {
    if Find(rules, "*").Some? then Find(rules, "*").value else State(Allow)
  }

  function EditedManaged(surface: string, existing: Option<Surface>, next: Rules): Rules {
    if !HasPatterns(existing) then next
    else
      var rules := DefaultFirst(RulesOf(existing), DefaultOf(next));
      if surface == "bash" then InsertCli(rules, AGENT_CLI_RULES, RulesOf(existing), "*") else rules
  }

  function EditedPathWrite(existing: Option<Surface>, next: Option<Rules>): Option<Rules> {
    if next == None || !HasPatterns(existing) then next
    else if Find(next.value, "*").Some? then Some(DefaultFirst(RulesOf(existing), DefaultOf(next.value)))
    else Some(Without(RulesOf(existing), "*"))
  }

  function EditedPath(existing: Option<Surface>, next: Rules): Rules {
    if !HasPatterns(existing) then next
    else
      var rules := RulesOf(existing);
      AddMissing(DropStale(DefaultFirst(rules, DefaultOf(next)), rules, next), rules, next)
  }

  // ---------------------------------------------------------------- where the edits meet the policy in full

  lemma {:induction false} IndexOfFound<V>(l: Properties<V>, key: string)
    ensures var i := IndexOf(l, key);
            && -1 <= i < |l| && (i == -1 <==> Find(l, key) == None)
            && (i >= 0 ==> l[i].key == key && forall j | 0 <= j < i :: l[j].key != key)
    decreases |l|
  {
    if l != [] {
      IndexOfFound(l[1..], key);
    }
  }

  lemma {:induction false} PutAtFront(rules: Rules, key: string, value: Rule)
    requires rules == [] || rules[0].key == key || Find(rules, key) == None
    ensures PutAt(rules, key, value, 0)
         == [Property(key, value)] + if rules != [] && rules[0].key == key then rules[1..] else rules
  {
    assert rules[..0] == [] && rules[0..] == rules;
  }

  lemma {:induction false} DefaultFirstShape(rules: Rules, value: Rule)
    requires Unique(rules)
    ensures DefaultFirst(rules, value) == [Property("*", value)] + Without(rules, "*")
  {
    IndexOfFound(rules, "*");
    FindWithout(rules, "*", "*");
    if Find(rules, "*") == None {
      WithoutAbsent(rules, "*");
      PutAtFront(rules, "*", value);
    } else if IndexOf(rules, "*") == 0 {
      UniqueHead(rules);
      WithoutAbsent(rules[1..], "*");
      assert [] + Without(rules[1..], "*") == Without(rules[1..], "*");
      PutAtFront(rules, "*", value);
    } else {
      NotFound(Without(rules, "*"), "*");
      PutAtFront(Without(rules, "*"), "*", value);
    }
  }

  ghost predicate Distinct(keys: seq<string>) {
    forall i, j | 0 <= i < j < |keys| :: keys[i] != keys[j]
  }

  lemma {:induction false} FirstIndex(before: Rules, last: Property<Rule>, after: Rules)
    requires Find(before, last.key) == None
    ensures IndexOf(before + [last] + after, last.key) == |before|
  {
    var l := before + [last] + after;
    IndexOfFound(l, last.key);
    NotFound(before, last.key);
    NotFound(l, last.key);
    assert l[|before|] == last;
    assert forall j | 0 <= j < |before| :: l[j] == before[j];
  }

  lemma {:induction false} PutAfterLast(before: Rules, last: Property<Rule>, after: Rules, key: string, value: Rule)
    requires Find(before, last.key) == None && Find(before + [last] + after, key) == None
    ensures PutAfter(before + [last] + after, key, value, last.key) == before + [last] + [Property(key, value)] + after
  {
    hide Find, IndexOf;
    var l := before + [last] + after;
    FirstIndex(before, last, after);
    assert l[..|before| + 1] == before + [last] && l[|before| + 1..] == after;
  }

  lemma {:induction false} InsertCliShape(before: Rules, last: Property<Rule>, owner: Rules, cli: seq<string>, existing: Rules)
    requires Distinct(cli) && last.key !in cli && forall p | p in before :: p.key != last.key && p.key !in cli
    requires forall k | k in cli :: Find(existing, k) == Find(owner, k)
    ensures InsertCli(before + [last] + owner, cli, existing, last.key) == before + [last] + MissingCli(cli, owner) + owner
    decreases |cli|
  {
    hide PutAfter;
    var l := before + [last] + owner;
    if cli == [] {
      assert before + [last] + [] + owner == l;
    } else {
      var (rule, rest) := (cli[0], cli[1..]);
      assert rule in cli && forall k | k in rest :: k in cli;
      assert Distinct(rest) && rule !in rest;
      NotFound(before, last.key);
      if Find(existing, rule).Some? {
        InsertCliShape(before, last, owner, rest, existing);
        assert [] + MissingCli(rest, owner) == MissingCli(rest, owner);
      } else {
        var p := Property(rule, State(Allow));
        NotFound(before + [last], rule);
        FindSplits(before + [last], owner, rule);
        PutAfterLast(before, last, owner, rule, State(Allow));
        InsertCliShape(before + [last], p, owner, rest, existing);
        assert before + [last] + [p] + MissingCli(rest, owner) + owner == before + [last] + ([p] + MissingCli(rest, owner)) + owner;
      }
    }
  }

  lemma CliRulesAreDistinct()
    ensures Distinct(AGENT_CLI_RULES)
  {
    var r := AGENT_CLI_RULES;
    assert r[0][12] == 'd' && r[1][12] == 'd' && r[2][12] == 'n' && r[3][12..14] == "sc" && r[4][12..14] == "st" && r[5][12] == 'd';
    assert r[0][13] == 'b' && r[1][14] == 'c' && r[5][14] == 'c' && |r[1]| != |r[5]|;
  }

  /** On every managed surface the edited document holds the policy's rules, in the policy's order. */
  lemma ManagedEditsMeetThePolicy(existing: Permission, surface: string, mode: Mode)
    requires Unique(RulesOf(Find(existing, surface)))
    ensures EditedManaged(surface, Find(existing, surface), NextRules(existing, surface, mode)) == NextRules(existing, surface, mode)
  {
    hide AGENT_CLI_RULES, InsertCli, MissingCli;
    var (current, action) := (Find(existing, surface), State(SurfaceAction(surface, mode)));
    var rules := RulesOf(current);
    if HasPatterns(current) {
      var owner := Without(rules, "*");
      DefaultFirstShape(rules, action);
      if surface == "bash" {
        CliRulesAreDistinct();
        NoCliRuleIsTheDefault();
        forall k | k in AGENT_CLI_RULES
          ensures Find(rules, k) == Find(owner, k)
        {
          FindWithout(rules, "*", k);
        }
        InsertCliShape([], Property("*", action), owner, AGENT_CLI_RULES, rules);
        assert [] + [Property("*", action)] == [Property("*", action)];
      }
    }
  }

  lemma PathWriteEditsMeetThePolicy(existing: Option<Surface>, mode: Mode)
    requires Unique(RulesOf(existing))
    ensures EditedPathWrite(existing, PathWriteRules(existing, mode)) == PathWriteRules(existing, mode)
  {
    var rules := RulesOf(existing);
    if mode != AllowAll {
      DefaultFirstShape(rules, State(ChangeAction(mode)));
    } else {
      FindWithout(rules, "*", "*");
    }
  }

  /** The edits of the path rules, by key. */
  function PathEditAt(existing: Rules, next: Rules, key: string): Option<Rule> {
    if IsGenerated(Find(next, key)) && !IsGenerated(Find(existing, key)) then Find(next, key)
    else if IsGenerated(Find(existing, key)) && !IsGenerated(Find(next, key)) then None
    else if key == "*" then Some(DefaultOf(next))
    else Find(existing, key)
  }

  lemma {:induction false} FindDropStale(rules: Rules, existing: Rules, next: Rules, key: string)
    requires Unique(existing)
    ensures Find(DropStale(rules, existing, next), key)
         == if IsGenerated(Find(existing, key)) && !IsGenerated(Find(next, key)) then None else Find(rules, key)
    decreases |existing|
  {
    if existing != [] {
      var p := existing[0];
      UniqueHead(existing);
      FindWithout(rules, p.key, key);
      FindDropStale(if p.value.Protected? && !IsGenerated(Find(next, p.key)) then Without(rules, p.key) else rules, existing[1..], next, key);
    }
  }

  lemma {:induction false} FindAddMissing(rules: Rules, existing: Rules, next: Rules, key: string)
    requires Unique(next)
    ensures Find(AddMissing(rules, existing, next), key)
         == if IsGenerated(Find(next, key)) && !IsGenerated(Find(existing, key)) then Find(next, key) else Find(rules, key)
    decreases |next|
  {
    if next != [] {
      var p := next[0];
      UniqueHead(next);
      FindPutAt(rules, p.key, p.value, IndexOf(rules, "*") + 1, key);
      FindAddMissing(if p.value.Protected? && !IsGenerated(Find(existing, p.key)) then PutAfter(rules, p.key, p.value, "*") else rules,
                     existing, next[1..], key);
    }
  }

  lemma FindEditedPath(existing: Rules, next: Rules, key: string)
    requires Unique(existing) && Unique(next)
    ensures Find(EditedPath(Some(Patterns(existing)), next), key) == PathEditAt(existing, next, key)
  {
    var first := DefaultFirst(existing, DefaultOf(next));
    DefaultFirstShape(existing, DefaultOf(next));
    FindFirst("*", DefaultOf(next), Without(existing, "*"), key);
    FindWithout(existing, "*", key);
    FindDropStale(first, existing, next, key);
    FindAddMissing(DropStale(first, existing, next), existing, next, key);
  }

  lemma {:induction false} FindDenyAll(rules: Rules, patterns: seq<string>, key: string)
    ensures Find(DenyAll(rules, patterns), key) == if key in patterns then Some(GENERATED) else Find(rules, key)
    decreases |patterns|
  {
    if patterns != [] {
      FindPut(rules, patterns[0], GENERATED, key);
      FindDenyAll(Put(rules, patterns[0], GENERATED), patterns[1..], key);
      assert key in patterns <==> key == patterns[0] || key in patterns[1..];
    }
  }

  lemma {:induction false} DefaultIsNoPattern(identities: seq<string>)
    requires "*" !in identities
    ensures "*" !in GeneratedPatterns(identities)
    decreases |identities|
  {
    if identities != [] {
      DefaultIsNoPattern(identities[1..]);
      assert |identities[0] + "/*"| > 1;
      assert identities[0] in identities;
    }
  }

  /** The policy's path rules by key: the owner's where he has one, and otherwise a deny for what is blocked. */
  lemma FindPathRules(existing: Rules, identities: seq<string>, key: string)
    requires Unique(existing) && "*" !in identities
    ensures var mine := Find(existing, key);
            Find(PathRules(existing, identities), key) == (
              if key == "*" then Some(State(Allow))
              else if mine.Some? && !mine.value.Protected? then mine
              else if key in GeneratedPatterns(identities) then Some(GENERATED)
              else None)
    ensures Unique(PathRules(existing, identities))
  {
    var (base, patterns) := ([Property("*", State(Allow))], GeneratedPatterns(identities));
    DefaultIsNoPattern(identities);
    FindDenyAll(base, patterns, key);
    DenyAllIsGenerated(base, patterns);
    OwnerRulesAreOwners(existing);
    FindPutAll(DenyAll(base, patterns), OwnerRules(existing), key);
    FindOwner(existing, key);
    FindFirst("*", State(Allow), [], key);
    PutAllIsUnique(DenyAll(base, patterns), OwnerRules(existing));
  }

  lemma {:induction false} PutAllIsUnique(l: Rules, more: Rules)
    requires Unique(l)
    ensures Unique(PutAll(l, more))
    decreases |more|
  {
    if more != [] {
      PutIsUnique(l, more[0].key, more[0].value);
      PutAllIsUnique(Put(l, more[0].key, more[0].value), more[1..]);
    }
  }

  /**
   * The generated denies in the document are as the harness writes them: none stands for the default, and one that
   * is still wanted has nothing beside its action and its reason.
   */
  ghost predicate Clean(existing: Rules, identities: seq<string>) {
    forall p | p in existing ::
      p.value.Protected? ==> p.key != "*" && (p.key in GeneratedPatterns(identities) ==> p.value == GENERATED)
  }

  /**
   * The edited path rules have the policy's value for every pattern exactly when the document was clean. Otherwise
   * the edits take out the default they have just set, or leave a generated deny that the policy would rewrite.
   */
  lemma PathEditsMeetThePolicy(existing: Rules, identities: seq<string>)
    requires Unique(existing) && "*" !in identities
    ensures SameValues(EditedPath(Some(Patterns(existing)), PathRules(existing, identities)), PathRules(existing, identities))
       <==> Clean(existing, identities)
  {
    var next := PathRules(existing, identities);
    var edited := EditedPath(Some(Patterns(existing)), next);
    FindPathRules(existing, identities, "*");
    forall key
      ensures Find(edited, key) == Find(next, key) <==>
              (IsGenerated(Find(existing, key)) ==>
                 key != "*" && (key in GeneratedPatterns(identities) ==> Find(existing, key) == Some(GENERATED)))
    {
      FindPathRules(existing, identities, key);
      FindEditedPath(existing, next, key);
      DefaultIsNoPattern(identities);
    }
    forall key
      ensures Find(existing, key).Some? ==> Property(key, Find(existing, key).value) in existing
    {
      FindIn(existing, key);
    }
    forall p | p in existing
      ensures Find(existing, p.key) == Some(p.value)
    {
      var i :| 0 <= i < |existing| && existing[i] == p;
      FindAt(existing, i);
    }
  }

  /** A document whose default path rule is a generated deny ends without any default: the edits set it and drop it. */
  lemma DeniedDefaultIsLost()
    ensures var denied := [Property("*", GENERATED)];
            && EditedPath(Some(Patterns(denied)), PathRules(denied, [])) == []
            && PathRules(denied, []) == [Property("*", State(Allow))]
  {
    var denied := [Property("*", GENERATED)];
    assert denied[1..] == [];
    var next := PathRules(denied, []);
    assert OwnerRules(denied) == [] + OwnerRules([]);
    assert PutAll([Property("*", State(Allow))], []) == next;
    assert next[1..] == [];
    DefaultFirstShape(denied, State(Allow));
    var first := [Property("*", State(Allow))] + Without(denied, "*");
    assert first == next && Without(next, "*") == [];
    assert DropStale(first, denied, next) == DropStale(Without(first, "*"), [], next);
    assert AddMissing([], denied, next) == AddMissing([], denied, []);
  }

  /** A generated deny the owner added a field to keeps it, where the policy asks for the plain deny. */
  lemma AmendedDenyStays(identity: string, extra: string)
    requires identity != "*" && extra != ""
    ensures var amended := [Property("*", State(Allow)), Property(identity, Protected(extra))];
            var next := PathRules(amended, [identity]);
            && Find(EditedPath(Some(Patterns(amended)), next), identity) == Some(Protected(extra))
            && Find(next, identity) == Some(GENERATED)
  {
    var amended := [Property("*", State(Allow)), Property(identity, Protected(extra))];
    assert amended[1..] == [Property(identity, Protected(extra))];
    assert Unique(amended) && Find(amended, identity) == Some(Protected(extra));
    assert GeneratedPatterns([identity])[0] == identity;
    FindPathRules(amended, [identity], identity);
    FindEditedPath(amended, PathRules(amended, [identity]), identity);
  }

  // ---------------------------------------------------------------- the owner's rules stay

  lemma {:induction false} OwnerWithout(rules: Rules, key: string)
    requires forall p | p in rules && p.key == key :: !OwnersRule(p)
    ensures OwnerRules(Without(rules, key)) == OwnerRules(rules)
    decreases |rules|
  {
    if rules != [] {
      var (p, rest) := (rules[0], rules[1..]);
      assert p in rules && forall q | q in rest :: q in rules;
      OwnerWithout(rest, key);
      OwnerRulesSplit([p], Without(rest, key));
      OwnerRulesSplit([p], rest);
      assert [p] + rest == rules && [] + Without(rest, key) == Without(rest, key);
      assert [p][1..] == [];
    }
  }

  lemma {:induction false} OwnerPutInPlace(rules: Rules, key: string, value: Rule)
    requires Find(rules, key).Some? && !OwnersRule(Property(key, value))
    requires !OwnersRule(Property(key, Find(rules, key).value))
    ensures OwnerRules(Put(rules, key, value)) == OwnerRules(rules)
    decreases |rules|
  {
    if rules[0].key != key {
      OwnerPutInPlace(rules[1..], key, value);
    }
  }

  lemma OwnerPutAt(rules: Rules, key: string, value: Rule, index: nat)
    requires !OwnersRule(Property(key, value))
    requires Find(rules, key).Some? ==> !OwnersRule(Property(key, Find(rules, key).value))
    ensures OwnerRules(PutAt(rules, key, value, index)) == OwnerRules(rules)
  {
    if Find(rules, key).Some? {
      OwnerPutInPlace(rules, key, value);
    } else {
      var i := if index <= |rules| then index else |rules|;
      OwnerInserted(rules[..i], Property(key, value), rules[i..]);
      assert rules == rules[..i] + rules[i..];
    }
  }

  lemma OwnerInserted(a: Rules, p: Property<Rule>, b: Rules)
    requires !OwnersRule(p)
    ensures OwnerRules(a + [p] + b) == OwnerRules(a + b)
  {
    assert a + [p] + b == a + ([p] + b);
    OwnerRulesSplit(a, b);
    OwnerRulesSplit(a, [p] + b);
    assert ([p] + b)[1..] == b && [] + OwnerRules(b) == OwnerRules(b);
  }

  lemma {:induction false} OwnerDropStale(rules: Rules, existing: Rules, next: Rules)
    requires forall p, q | p in existing && q in rules && p.value.Protected? && q.key == p.key :: !OwnersRule(q)
    ensures OwnerRules(DropStale(rules, existing, next)) == OwnerRules(rules)
    decreases |existing|
  {
    if existing != [] {
      var p := existing[0];
      assert p in existing && forall q | q in existing[1..] :: q in existing;
      if p.value.Protected? && !IsGenerated(Find(next, p.key)) {
        OwnerWithout(rules, p.key);
        WithoutIsLess(rules, p.key);
        OwnerDropStale(Without(rules, p.key), existing[1..], next);
      } else {
        OwnerDropStale(rules, existing[1..], next);
      }
    }
  }

  lemma {:induction false} WithoutIsLess(rules: Rules, key: string)
    ensures forall p | p in Without(rules, key) :: p in rules
    decreases |rules|
  {
    if rules != [] {
      WithoutIsLess(rules[1..], key);
      assert forall p | p in rules[1..] :: p in rules;
    }
  }

  lemma {:induction false} OwnerAddMissing(rules: Rules, existing: Rules, next: Rules)
    requires Unique(next)
    requires forall p | p in next && p.value.Protected? && !IsGenerated(Find(existing, p.key)) :: Find(rules, p.key) == None
    ensures OwnerRules(AddMissing(rules, existing, next)) == OwnerRules(rules)
    decreases |next|
  {
    if next != [] {
      var (p, rest) := (next[0], next[1..]);
      assert p in next && forall q | q in rest :: q in next;
      UniqueHead(next);
      NotFound(rest, p.key);
      if p.value.Protected? && !IsGenerated(Find(existing, p.key)) {
        var more := PutAfter(rules, p.key, p.value, "*");
        OwnerPutAt(rules, p.key, p.value, IndexOf(rules, "*") + 1);
        forall q | q in rest && q.value.Protected? && !IsGenerated(Find(existing, q.key))
          ensures Find(more, q.key) == None
        {
          FindPutAt(rules, p.key, p.value, IndexOf(rules, "*") + 1, q.key);
        }
        OwnerAddMissing(more, existing, rest);
      } else {
        OwnerAddMissing(rules, existing, rest);
      }
    }
  }

  /** The edits of the path rules keep every rule of the owner's, as it was and in its order. */
  lemma OwnerRulesStay(existing: Rules, identities: seq<string>)
    requires Unique(existing) && "*" !in identities
    ensures OwnerRules(EditedPath(Some(Patterns(existing)), PathRules(existing, identities))) == OwnerRules(existing)
  {
    hide PathRules, OwnerRules;
    var next := PathRules(existing, identities);
    FindPathRules(existing, identities, "*");
    var rest := Without(existing, "*");
    var first := DefaultFirst(existing, DefaultOf(next));
    DefaultFirstShape(existing, DefaultOf(next));
    OwnerWithout(existing, "*");
    OwnerOfDefault(DefaultOf(next), rest);
    WithoutIsLess(existing, "*");
    forall p, q | p in existing && q in first && p.value.Protected? && q.key == p.key
      ensures !OwnersRule(q)
    {
      if q.key != "*" {
        assert q in existing;
        var i :| 0 <= i < |existing| && existing[i] == p;
        var j :| 0 <= j < |existing| && existing[j] == q;
        assert i == j;
      }
    }
    OwnerDropStale(first, existing, next);
    var kept := DropStale(first, existing, next);
    forall p | p in next && p.value.Protected? && !IsGenerated(Find(existing, p.key))
      ensures Find(kept, p.key) == None
    {
      var i :| 0 <= i < |next| && next[i] == p;
      FindAt(next, i);
      FindPathRules(existing, identities, p.key);
      FindFirst("*", DefaultOf(next), rest, p.key);
      FindWithout(existing, "*", p.key);
      FindDropStale(first, existing, next, p.key);
    }
    OwnerAddMissing(kept, existing, next);
  }

  lemma OwnerOfDefault(value: Rule, rest: Rules)
    ensures OwnerRules([Property("*", value)] + rest) == OwnerRules(rest)
  {
    assert ([Property("*", value)] + rest)[1..] == rest && [] + OwnerRules(rest) == OwnerRules(rest);
  }

  // ---------------------------------------------------------------- the whole document

  function EditedSurfaces(existing: Permission, surfaces: seq<string>, mode: Mode): Permission {
    if surfaces == [] then []
    else
      var current := Find(existing, surfaces[0]);
      [Property(surfaces[0], Patterns(EditedManaged(surfaces[0], current, NextRules(existing, surfaces[0], mode))))]
      + EditedSurfaces(existing, surfaces[1..], mode)
  }

  /** `reconcilePermissionDocument` on the properties of an existing `permission`. */
  function Edited(existing: Permission, identities: seq<string>, mode: Mode): Permission {
    var base := WithoutAll(PutAt(existing, "*", Scalar(ActionText(ChangeAction(mode))), 0), RETIRED_SURFACES);
    var managed := PutAll(base, EditedSurfaces(existing, MANAGED_SURFACES, mode));
    var write := Find(existing, "path_write");
    var path := Find(existing, "path");
    Put(PutOrDrop(managed, "path_write", EditedPathWrite(write, PathWriteRules(write, mode))),
        "path", Patterns(EditedPath(path, PathRules(RulesOf(path), identities))))
  }

  /** A JavaScript object has each key once, and so have the objects in it. */
  ghost predicate AllUnique(p: Permission) {
    forall key :: Unique(RulesOf(Find(p, key)))
  }

  lemma {:induction false} EditedSurfacesMeetThePolicy(existing: Permission, surfaces: seq<string>, mode: Mode)
    requires AllUnique(existing)
    ensures EditedSurfaces(existing, surfaces, mode) == NextSurfaces(existing, surfaces, mode)
    decreases |surfaces|
  {
    hide EditedManaged, NextRules;
    if surfaces != [] {
      ManagedEditsMeetThePolicy(existing, surfaces[0], mode);
      EditedSurfacesMeetThePolicy(existing, surfaces[1..], mode);
    }
  }

  ghost predicate SameSurface(a: Option<Surface>, b: Option<Surface>) {
    if HasPatterns(a) && HasPatterns(b) then SameValues(a.value.rules, b.value.rules) else a == b
  }

  /** The document by key: outside `path` what the policy says, and there the edited rules. */
  lemma {:induction false} EditedByKey(existing: Permission, identities: seq<string>, mode: Mode, key: string)
    requires AllUnique(existing)
    ensures var path := Find(existing, "path");
            Find(Edited(existing, identities, mode), key) == (
              if key == "path" then Some(Patterns(EditedPath(path, PathRules(RulesOf(path), identities))))
              else PolicyAt(existing, identities, mode, key))
  {
    hide NextRules, PathRules, PathWriteRules, EditedPathWrite, EditedPath, EditedSurfaces, ActionText, NextSurfaces,
         Find, Put, PutAt, PutAll, WithoutAll, Without, PutOrDrop;
    var action := Scalar(ActionText(ChangeAction(mode)));
    var base := WithoutAll(PutAt(existing, "*", action, 0), RETIRED_SURFACES);
    FindPutAt(existing, "*", action, 0, key);
    FindWithoutAll(PutAt(existing, "*", action, 0), RETIRED_SURFACES, key);
    EditedSurfacesMeetThePolicy(existing, MANAGED_SURFACES, mode);
    var next := NextSurfaces(existing, MANAGED_SURFACES, mode);
    FindNextSurfaces(existing, MANAGED_SURFACES, mode, key);
    FindPutAll(base, next, key);
    var (managed, write, path) := (PutAll(base, next), Find(existing, "path_write"), Find(existing, "path"));
    PathWriteEditsMeetThePolicy(write, mode);
    FindPutOrDrop(managed, "path_write", PathWriteRules(write, mode), key);
    FindPut(PutOrDrop(managed, "path_write", PathWriteRules(write, mode)), "path",
            Patterns(EditedPath(path, PathRules(RulesOf(path), identities))), key);
  }

  /**
   * The edited document says what the policy says. Every surface but `path` is the policy's to the letter; the path
   * rules have the policy's value for every pattern exactly when the document's generated denies were clean.
   */
  lemma DocumentMeetsThePolicy(existing: Permission, identities: seq<string>, mode: Mode)
    requires AllUnique(existing) && "*" !in identities
    ensures var (edited, next) := (Edited(existing, identities, mode), Policy(existing, identities, mode));
            && (forall key | key != "path" :: Find(edited, key) == Find(next, key))
            && (SameSurface(Find(edited, "path"), Find(next, "path")) <==> Clean(RulesOf(Find(existing, "path")), identities))
  {
    hide PathRules, EditedPath, Find, Clean, SameValues, Edited, Policy, PolicyAt;
    forall key
      ensures key != "path" ==> Find(Edited(existing, identities, mode), key) == Find(Policy(existing, identities, mode), key)
    {
      EditedByKey(existing, identities, mode, key);
      PolicyByKey(existing, identities, mode, key);
    }
    EditedByKey(existing, identities, mode, "path");
    PolicyByKey(existing, identities, mode, "path");
    PolicyAtPath(existing, identities, mode);
    var path := Find(existing, "path");
    if HasPatterns(path) {
      PathEditsMeetThePolicy(RulesOf(path), identities);
    } else {
      NoRulesAreClean(path, PathRules(RulesOf(path), identities), identities);
    }
  }

  lemma PolicyAtPath(existing: Permission, identities: seq<string>, mode: Mode)
    ensures PolicyAt(existing, identities, mode, "path") == Some(Patterns(PathRules(RulesOf(Find(existing, "path")), identities)))
  {
  }

  lemma NoRulesAreClean(path: Option<Surface>, next: Rules, identities: seq<string>)
    requires !HasPatterns(path)
    ensures Clean(RulesOf(path), identities) && EditedPath(path, next) == next && SameValues(next, next)
  {
  }

  // ---------------------------------------------------------------- as the source runs it

  /** `permissionPolicy`: the next permission, built up from a copy of the existing one. */
  method PermissionPolicy(existing: Permission, identities: seq<string>, mode: Mode) returns (next: Permission)
    ensures next == Policy(existing, identities, mode)
  {
    hide NextRules, PathWriteRules, ActionText, Find, Put, Without;
    next := Put(existing, "*", Scalar(ActionText(ChangeAction(mode))));
    ghost var first := next;
    var i := 0;
    while i < |RETIRED_SURFACES|
      invariant i <= |RETIRED_SURFACES|
      invariant WithoutAll(next, RETIRED_SURFACES[i..]) == WithoutAll(first, RETIRED_SURFACES)
    {
      assert RETIRED_SURFACES[i..][1..] == RETIRED_SURFACES[i + 1..];
      next := Without(next, RETIRED_SURFACES[i]);
      i := i + 1;
    }
    assert RETIRED_SURFACES[i..] == [];
    ghost var base := next;
    i := 0;
    while i < |MANAGED_SURFACES|
      invariant i <= |MANAGED_SURFACES|
      invariant PutAll(next, NextSurfaces(existing, MANAGED_SURFACES[i..], mode)) == PutAll(base, NextSurfaces(existing, MANAGED_SURFACES, mode))
    {
      var surface := MANAGED_SURFACES[i];
      assert MANAGED_SURFACES[i..][1..] == MANAGED_SURFACES[i + 1..];
      assert NextSurfaces(existing, MANAGED_SURFACES[i..], mode)[1..] == NextSurfaces(existing, MANAGED_SURFACES[i + 1..], mode);
      next := Put(next, surface, Patterns(NextRules(existing, surface, mode)));
      i := i + 1;
    }
    assert MANAGED_SURFACES[i..] == [];
    var pathWrite := PathWriteRules(Find(existing, "path_write"), mode);
    if pathWrite.Some? {
      next := Put(next, "path_write", Patterns(pathWrite.value));
    } else {
      next := Without(next, "path_write");
    }
    var pathRules := PolicyPathRules(RulesOf(Find(existing, "path")), identities);
    next := Put(next, "path", Patterns(pathRules));
  }

  /** The path rules: the default, the generated denies, and the owner's rules assigned over them. */
  method PolicyPathRules(current: Rules, identities: seq<string>) returns (pathRules: Rules)
    ensures pathRules == PathRules(current, identities)
  {
    var owner: Rules := [];
    var i := 0;
    while i < |current|
      invariant i <= |current|
      invariant owner + OwnerRules(current[i..]) == OwnerRules(current)
    {
      assert current[i..][1..] == current[i + 1..];
      if current[i].key != "*" && !current[i].value.Protected? {
        owner := owner + [current[i]];
      }
      i := i + 1;
    }
    pathRules := [Property("*", State(Allow))];
    ghost var base := pathRules;
    i := 0;
    while i < |identities|
      invariant i <= |identities|
      invariant DenyAll(pathRules, GeneratedPatterns(identities[i..])) == DenyAll(base, GeneratedPatterns(identities))
    {
      var (identity, rest) := (identities[i], GeneratedPatterns(identities[i + 1..]));
      assert identities[i..][1..] == identities[i + 1..];
      assert GeneratedPatterns(identities[i..])[1..] == [identity + "/*"] + rest;
      assert ([identity + "/*"] + rest)[1..] == rest;
      pathRules := Put(pathRules, identity, GENERATED);
      pathRules := Put(pathRules, identity + "/*", GENERATED);
      i := i + 1;
    }
    assert identities[i..] == [];
    pathRules := PutAll(pathRules, owner);
    assert owner == OwnerRules(current);
  }

  lemma PolicySurfaces(existing: Permission, identities: seq<string>, mode: Mode)
    ensures var next := Policy(existing, identities, mode);
            var write := PathWriteRules(Find(existing, "path_write"), mode);
            && Find(next, "*") == Some(Scalar(ActionText(ChangeAction(mode))))
            && (forall i | 0 <= i < |MANAGED_SURFACES| ::
                  Find(next, MANAGED_SURFACES[i]) == Some(Patterns(NextRules(existing, MANAGED_SURFACES[i], mode))))
            && Find(next, "path_write") == (if write.Some? then Some(Patterns(write.value)) else None)
            && Find(next, "path") == Some(Patterns(PathRules(RulesOf(Find(existing, "path")), identities)))
  {
    hide Policy, NextRules, PathRules, PathWriteRules, Find, ActionText;
    PolicyByKey(existing, identities, mode, "*");
    PolicyByKey(existing, identities, mode, "path_write");
    PolicyByKey(existing, identities, mode, "path");
    forall i | 0 <= i < |MANAGED_SURFACES|
      ensures Find(Policy(existing, identities, mode), MANAGED_SURFACES[i]) == Some(Patterns(NextRules(existing, MANAGED_SURFACES[i], mode)))
    {
      PolicyByKey(existing, identities, mode, MANAGED_SURFACES[i]);
    }
  }

  /** `reconcilePermissionDocument`: the same end reached by edits of the document the owner wrote. */
  method ReconcilePermissionDocument(existing: Permission, identities: seq<string>, mode: Mode, next: Permission) returns (doc: Permission)
    requires AllUnique(existing) && next == Policy(existing, identities, mode)
    ensures doc == Edited(existing, identities, mode)
  {
    hide NextRules, PathWriteRules, ActionText, Find, Put, PutAt, Without, EditedManaged, EditedPath, EditedPathWrite, Policy, PathRules;
    PolicySurfaces(existing, identities, mode);
    doc := PutAt(existing, "*", Find(next, "*").value, 0);
    ghost var first := doc;
    var i := 0;
    while i < |RETIRED_SURFACES|
      invariant i <= |RETIRED_SURFACES|
      invariant WithoutAll(doc, RETIRED_SURFACES[i..]) == WithoutAll(first, RETIRED_SURFACES)
    {
      assert RETIRED_SURFACES[i..][1..] == RETIRED_SURFACES[i + 1..];
      doc := Without(doc, RETIRED_SURFACES[i]);
      i := i + 1;
    }
    assert RETIRED_SURFACES[i..] == [];
    ghost var base := doc;
    i := 0;
    while i < |MANAGED_SURFACES|
      invariant i <= |MANAGED_SURFACES|
      invariant PutAll(doc, EditedSurfaces(existing, MANAGED_SURFACES[i..], mode)) == PutAll(base, EditedSurfaces(existing, MANAGED_SURFACES, mode))
    {
      var surface := MANAGED_SURFACES[i];
      assert MANAGED_SURFACES[i..][1..] == MANAGED_SURFACES[i + 1..];
      assert EditedSurfaces(existing, MANAGED_SURFACES[i..], mode)[1..] == EditedSurfaces(existing, MANAGED_SURFACES[i + 1..], mode);
      doc := Put(doc, surface, Patterns(EditedManaged(surface, Find(existing, surface), RulesOf(Find(next, surface)))));
      i := i + 1;
    }
    assert MANAGED_SURFACES[i..] == [];
    var write := Find(next, "path_write");
    var edited := EditedPathWrite(Find(existing, "path_write"), if HasPatterns(write) then Some(RulesOf(write)) else None);
    if edited.Some? {
      doc := Put(doc, "path_write", Patterns(edited.value));
    } else {
      doc := Without(doc, "path_write");
    }
    doc := Put(doc, "path", Patterns(EditedPath(Find(existing, "path"), RulesOf(Find(next, "path")))));
  }

  // ---------------------------------------------------------------- what a mode permits

  lemma {:induction false} NoneMatches(rules: Rules, matches: string -> bool)
    requires forall p | p in rules :: !matches(p.key)
    ensures LastMatch(rules, matches) == None
    decreases |rules|
  {
    if rules != [] {
      assert rules[0] in rules && forall p | p in rules[1..] :: p in rules;
      NoneMatches(rules[1..], matches);
    }
  }

  /** No rule of the owner's for this surface matches. */
  ghost predicate OwnerIsSilent(existing: Permission, surface: string, matches: string -> bool) {
    forall p | p in RulesOf(Find(existing, surface)) && p.key != "*" :: !matches(p.key)
  }

  lemma {:induction false} SilentWithout(existing: Permission, surface: string, matches: string -> bool)
    requires OwnerIsSilent(existing, surface, matches)
    ensures LastMatch(Without(RulesOf(Find(existing, surface)), "*"), matches) == None
  {
    var rules := RulesOf(Find(existing, surface));
    WithoutIsLess(rules, "*");
    NotThere(rules, "*");
    NoneMatches(Without(rules, "*"), matches);
  }

  lemma NotThere(rules: Rules, key: string)
    ensures forall p | p in Without(rules, key) :: p.key != key
  {
    FindWithout(rules, key, key);
    NotFound(Without(rules, key), key);
  }

  lemma {:induction false} DefaultDecides(existing: Permission, surface: string, action: Action, matches: string -> bool)
    requires matches("*") && OwnerIsSilent(existing, surface, matches)
    ensures LastMatch(WithDefault(Find(existing, surface), action), matches) == Some(State(action))
  {
    var (head, rest) := ([Property("*", State(action))], Without(RulesOf(Find(existing, surface)), "*"));
    SilentWithout(existing, surface, matches);
    LastMatchSplits(head, rest, matches);
    assert head[1..] == [];
  }

  const WRITING_SURFACES := ["edit", "write", "bash", "path_write"]
  const READING_SURFACES := ["read", "grep", "find", "ls", "skill", "external_directory"]

  /** Nothing decides but the mode: the owner has no rule that matches, and in bash the command is none of the agent's own. */
  ghost predicate ModeDecides(existing: Permission, surface: string, matches: string -> bool) {
    && matches("*") && OwnerIsSilent(existing, surface, matches)
    && (surface == "bash" ==> forall r | r in AGENT_CLI_RULES :: !matches(r))
  }

  /** Where nothing decides but the mode, this surface gives this answer. */
  ghost predicate Answers(p: Permission, existing: Permission, surface: string, action: Action) {
    && HasPatterns(Find(p, surface))
    && forall matches: string -> bool | ModeDecides(existing, surface, matches) ::
         LastMatch(RulesOf(Find(p, surface)), matches) == Some(State(action))
  }

  /** The owner has no bash rule that matches, and the command is one of the agent's own. */
  ghost predicate IsTheAgents(existing: Permission, matches: string -> bool) {
    && matches("*") && OwnerIsSilent(existing, "bash", matches)
    && exists r | r in AGENT_CLI_RULES :: Find(RulesOf(Find(existing, "bash")), r) == None && matches(r)
  }

  /** The agent's own commands are allowed, unless the owner has a rule that matches. */
  ghost predicate AllowsTheAgent(p: Permission, existing: Permission) {
    forall matches: string -> bool | IsTheAgents(existing, matches) ::
      LastMatch(RulesOf(Find(p, "bash")), matches) == Some(State(Allow))
  }

  /** What a permission under a mode must say, whatever stood there before. */
  ghost predicate Obeys(p: Permission, existing: Permission, mode: Mode) {
    && Find(p, "*") == Some(Scalar(match mode case ReadOnly => "deny" case AskFirst => "ask" case AllowAll => "allow"))
    && (mode == AllowAll ==> Find(RulesOf(Find(p, "path_write")), "*") == None)
    && (forall surface | surface in WRITING_SURFACES && (surface == "path_write" ==> mode != AllowAll) ::
          Answers(p, existing, surface, match mode case ReadOnly => Deny case AskFirst => Ask case AllowAll => Allow))
    && (forall surface | surface in READING_SURFACES :: Answers(p, existing, surface, Allow))
    && AllowsTheAgent(p, existing)
  }

  lemma {:induction false} PathWriteObeys(existing: Permission, identities: seq<string>, mode: Mode)
    ensures var write := Find(Policy(existing, identities, mode), "path_write");
            if mode == AllowAll then Find(RulesOf(write), "*") == None
            else write == Some(Patterns(WithDefault(Find(existing, "path_write"), ChangeAction(mode))))
  {
    hide Policy;
    PolicyByKey(existing, identities, mode, "path_write");
    FindWithout(RulesOf(Find(existing, "path_write")), "*", "*");
  }

  lemma {:induction false} SurfaceObeys(existing: Permission, identities: seq<string>, mode: Mode, surface: string)
    requires surface in MANAGED_SURFACES
    ensures Find(Policy(existing, identities, mode), surface) == Some(Patterns(NextRules(existing, surface, mode)))
    ensures surface in READING_SURFACES ==> SurfaceAction(surface, mode) == Allow
    ensures surface in WRITING_SURFACES ==> SurfaceAction(surface, mode) == ChangeAction(mode)
  {
    hide Policy, NextRules;
    PolicyByKey(existing, identities, mode, surface);
  }

  lemma {:induction false} BashObeys(existing: Permission, mode: Mode, matches: string -> bool)
    requires matches("*") && OwnerIsSilent(existing, "bash", matches)
    ensures LastMatch(NextRules(existing, "bash", mode), matches) ==
            Some(State(if exists r | r in AGENT_CLI_RULES :: Find(RulesOf(Find(existing, "bash")), r) == None && matches(r)
                       then Allow else ChangeAction(mode)))
  {
    var owner := Without(RulesOf(Find(existing, "bash")), "*");
    SilentWithout(existing, "bash", matches);
    OwnerDecidesFirst(AGENT_CLI_RULES, SurfaceAction("bash", mode), owner, matches);
    NoCliRuleIsTheDefault();
    forall r | r in AGENT_CLI_RULES
      ensures Find(owner, r) == Find(RulesOf(Find(existing, "bash")), r)
    {
      FindWithout(RulesOf(Find(existing, "bash")), "*", r);
    }
    hide AGENT_CLI_RULES, Find;
  }

  /** The rules of one surface under a mode, `path_write` being the one that may have none. */
  function RulesUnder(existing: Permission, surface: string, mode: Mode): Rules {
    if surface == "path_write" then WithDefault(Find(existing, surface), ChangeAction(mode)) else NextRules(existing, surface, mode)
  }

  function ActionUnder(surface: string, mode: Mode): Action {
    if surface in READING_SURFACES then Allow else ChangeAction(mode)
  }

  lemma {:induction false} ModeIsLeft(existing: Permission, surface: string, mode: Mode, matches: string -> bool)
    requires surface in WRITING_SURFACES || surface in READING_SURFACES
    requires ModeDecides(existing, surface, matches)
    ensures LastMatch(RulesUnder(existing, surface, mode), matches) == Some(State(ActionUnder(surface, mode)))
  {
    hide Find, AGENT_CLI_RULES, LastMatch, WithDefault, WithAgentCliRules, OwnerIsSilent;
    if surface == "bash" {
      BashObeys(existing, mode, matches);
    } else {
      DefaultDecides(existing, surface, ActionUnder(surface, mode), matches);
    }
  }

  lemma {:induction false} SurfaceAnswers(existing: Permission, identities: seq<string>, mode: Mode, surface: string)
    requires surface in WRITING_SURFACES || surface in READING_SURFACES
    requires surface == "path_write" ==> mode != AllowAll
    ensures Answers(Policy(existing, identities, mode), existing, surface, ActionUnder(surface, mode))
  {
    var p := Policy(existing, identities, mode);
    assert Find(p, surface) == Some(Patterns(RulesUnder(existing, surface, mode))) by {
      hide Policy, NextRules, WithDefault;
      PathWriteObeys(existing, identities, mode);
      if surface != "path_write" {
        SurfaceObeys(existing, identities, mode, surface);
      }
    }
    hide *;
    RulesAnswer(p, existing, mode, surface);
  }

  lemma {:induction false} RulesAnswer(p: Permission, existing: Permission, mode: Mode, surface: string)
    requires surface in WRITING_SURFACES || surface in READING_SURFACES
    requires Find(p, surface) == Some(Patterns(RulesUnder(existing, surface, mode)))
    ensures Answers(p, existing, surface, ActionUnder(surface, mode))
  {
    hide Find, LastMatch, ModeDecides, RulesUnder, ActionUnder, WRITING_SURFACES, READING_SURFACES;
    forall matches: string -> bool | ModeDecides(existing, surface, matches)
      ensures LastMatch(RulesUnder(existing, surface, mode), matches) == Some(State(ActionUnder(surface, mode)))
    {
      ModeIsLeft(existing, surface, mode, matches);
    }
  }

  lemma BashIsManaged()
    ensures "bash" in MANAGED_SURFACES
  {
    assert MANAGED_SURFACES[8] == "bash";
  }

  lemma {:induction false} AgentIsAllowed(existing: Permission, identities: seq<string>, mode: Mode)
    ensures AllowsTheAgent(Policy(existing, identities, mode), existing)
  {
    hide *;
    BashIsManaged();
    SurfaceObeys(existing, identities, mode, "bash");
    BashAllows(Policy(existing, identities, mode), existing, mode);
  }

  lemma {:induction false} BashAllows(p: Permission, existing: Permission, mode: Mode)
    requires Find(p, "bash") == Some(Patterns(NextRules(existing, "bash", mode)))
    ensures AllowsTheAgent(p, existing)
  {
    hide Find, LastMatch, NextRules, IsTheAgents;
    forall matches: string -> bool | IsTheAgents(existing, matches)
      ensures LastMatch(RulesOf(Find(p, "bash")), matches) == Some(State(Allow))
    {
      AgentRuleDecides(existing, mode, matches);
    }
  }

  lemma {:induction false} AgentRuleDecides(existing: Permission, mode: Mode, matches: string -> bool)
    requires IsTheAgents(existing, matches)
    ensures LastMatch(NextRules(existing, "bash", mode), matches) == Some(State(Allow))
  {
    hide Find, AGENT_CLI_RULES, LastMatch, NextRules, OwnerIsSilent;
    BashObeys(existing, mode, matches);
  }

  /**
   * What each mode means: read-only denies and ask-first asks before anything is changed, allow allows it, and reading
   * is allowed in every mode, wherever the owner has written no rule that matches. The agent's own commands are allowed
   * in every mode unless he has.
   */
  lemma {:induction false} PolicyObeysTheMode(existing: Permission, identities: seq<string>, mode: Mode)
    ensures Obeys(Policy(existing, identities, mode), existing, mode)
  {
    PolicyByKey(existing, identities, mode, "*");
    PathWriteObeys(existing, identities, mode);
    AgentIsAllowed(existing, identities, mode);
    hide Policy, Answers, AllowsTheAgent;
    forall surface | (surface in WRITING_SURFACES || surface in READING_SURFACES) && (surface == "path_write" ==> mode != AllowAll)
      ensures Answers(Policy(existing, identities, mode), existing, surface, ActionUnder(surface, mode))
    {
      SurfaceAnswers(existing, identities, mode, surface);
    }
    assert forall surface | surface in WRITING_SURFACES :: surface !in READING_SURFACES;
  }

  /** And so does the edited document of the owner. */
  lemma {:induction false} DocumentObeysTheMode(existing: Permission, identities: seq<string>, mode: Mode)
    requires AllUnique(existing) && "*" !in identities
    ensures Obeys(Edited(existing, identities, mode), existing, mode)
  {
    var (edited, next) := (Edited(existing, identities, mode), Policy(existing, identities, mode));
    hide Edited, Policy, Find, LastMatch, ModeDecides, AGENT_CLI_RULES, OwnerIsSilent;
    DocumentMeetsThePolicy(existing, identities, mode);
    PolicyObeysTheMode(existing, identities, mode);
    assert forall surface | surface in WRITING_SURFACES || surface in READING_SURFACES || surface == "*" :: surface != "path";
  }

  // ---------------------------------------------------------------- what is blocked

  lemma {:induction false} UnmatchedPut(rules: Rules, key: string, value: Rule, matches: string -> bool)
    requires !matches(key)
    ensures LastMatch(Put(rules, key, value), matches) == LastMatch(rules, matches)
    decreases |rules|
  {
    if rules == [] {
      assert [Property(key, value)][1..] == [];
    } else if rules[0].key == key {
      assert ([Property(key, value)] + rules[1..])[1..] == rules[1..];
    } else {
      UnmatchedPut(rules[1..], key, value, matches);
      assert ([rules[0]] + Put(rules[1..], key, value))[1..] == Put(rules[1..], key, value);
    }
  }

  lemma {:induction false} UnmatchedPutAll(rules: Rules, more: Rules, matches: string -> bool)
    requires forall p | p in more :: !matches(p.key)
    ensures LastMatch(PutAll(rules, more), matches) == LastMatch(rules, matches)
    decreases |more|
  {
    if more != [] {
      assert more[0] in more && forall p | p in more[1..] :: p in more;
      UnmatchedPut(rules, more[0].key, more[0].value, matches);
      UnmatchedPutAll(Put(rules, more[0].key, more[0].value), more[1..], matches);
    }
  }

  /** Another deny decides what it matches, and leaves the rest as it was, over rules that are denies but for the first. */
  lemma {:induction false} DenyDecides(fallback: Property<Rule>, denies: Rules, key: string, matches: string -> bool)
    requires fallback.key != key && forall p | p in denies :: p.value == GENERATED
    ensures var rules := [fallback] + denies;
            && Put(rules, key, GENERATED) == [fallback] + Put(denies, key, GENERATED)
            && (forall p | p in Put(denies, key, GENERATED) :: p.value == GENERATED)
            && LastMatch(Put(denies, key, GENERATED), matches) ==
               if matches(key) then Some(GENERATED) else LastMatch(denies, matches)
  {
    assert ([fallback] + denies)[1..] == denies;
    DeniesDecide(denies, key, matches);
  }

  lemma {:induction false} DeniesDecide(denies: Rules, key: string, matches: string -> bool)
    requires forall p | p in denies :: p.value == GENERATED
    ensures forall p | p in Put(denies, key, GENERATED) :: p.value == GENERATED
    ensures LastMatch(Put(denies, key, GENERATED), matches) ==
            if matches(key) then Some(GENERATED) else LastMatch(denies, matches)
    decreases |denies|
  {
    if denies == [] {
      assert [Property(key, GENERATED)][1..] == [];
    } else {
      var (p, rest) := (denies[0], denies[1..]);
      assert p in denies && forall q | q in rest :: q in denies;
      DeniesDecide(rest, key, matches);
      AllDenied(rest, matches);
      assert ([p] + Put(rest, key, GENERATED))[1..] == Put(rest, key, GENERATED);
      assert ([Property(key, GENERATED)] + rest)[1..] == rest;
    }
  }

  lemma {:induction false} AllDenied(denies: Rules, matches: string -> bool)
    requires forall p | p in denies :: p.value == GENERATED
    ensures LastMatch(denies, matches).Some? ==> LastMatch(denies, matches) == Some(GENERATED)
    decreases |denies|
  {
    if denies != [] {
      assert denies[0] in denies && forall q | q in denies[1..] :: q in denies;
      AllDenied(denies[1..], matches);
    }
  }

  lemma {:induction false} DenyAllDecides(fallback: Property<Rule>, denies: Rules, patterns: seq<string>, matches: string -> bool)
    requires fallback.key !in patterns && forall p | p in denies :: p.value == GENERATED
    ensures var rules := DenyAll([fallback] + denies, patterns);
            && rules != [] && rules[0] == fallback
            && LastMatch(rules[1..], matches) ==
               if exists pattern | pattern in patterns :: matches(pattern) then Some(GENERATED) else LastMatch(denies, matches)
    decreases |patterns|
  {
    if patterns == [] {
      assert ([fallback] + denies)[1..] == denies;
    } else {
      var (key, rest) := (patterns[0], patterns[1..]);
      assert key in patterns && forall q | q in rest :: q in patterns;
      DenyDecides(fallback, denies, key, matches);
      DenyAllDecides(fallback, Put(denies, key, GENERATED), rest, matches);
      assert forall q | q in patterns :: q == key || q in rest;
    }
  }

  /** A path the owner has no matching rule for is denied exactly when it is blocked, and allowed otherwise. */
  lemma {:induction false} BlockedPathsAreDenied(existing: Rules, identities: seq<string>, matches: string -> bool)
    requires matches("*") && "*" !in identities
    requires forall p | p in existing && p.key != "*" && !p.value.Protected? :: !matches(p.key)
    ensures LastMatch(PathRules(existing, identities), matches) ==
            Some(if exists pattern | pattern in GeneratedPatterns(identities) :: matches(pattern) then GENERATED else State(Allow))
  {
    var (fallback, patterns) := (Property("*", State(Allow)), GeneratedPatterns(identities));
    OwnerRulesAreOwners(existing);
    DefaultIsNoPattern(identities);
    assert [fallback] + [] == [fallback];
    DenyAllDecides(fallback, [], patterns, matches);
    UnmatchedPutAll(DenyAll([fallback], patterns), OwnerRules(existing), matches);
  }

  /** What is blocked: every identity of every blocked path, and all that lies below it. */
  lemma {:induction false} BlockedPatterns(identities: seq<string>, pattern: string)
    ensures pattern in GeneratedPatterns(identities) <==> exists i | i in identities :: pattern == i || pattern == i + "/*"
    decreases |identities|
  {
    if identities != [] {
      BlockedPatterns(identities[1..], pattern);
      assert forall i :: i in identities <==> i == identities[0] || i in identities[1..];
    }
  }
}

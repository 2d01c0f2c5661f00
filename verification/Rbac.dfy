/** Role and role-binding administration with the "grant only what you hold" rule. */
module Rbac {
  import opened Wrappers
  import opened Strings
  import opened Authz

  datatype Role = Role(name: string, permissions: seq<string>, builtin: bool)

  datatype Binding = Binding(user: string, role: string, scopeType: string, scopeId: string)

  datatype State = State(users: set<string>, roles: map<string, Role>, bindings: map<string, Binding>)

  /** The permission catalog and the id of the built-in administrator role. */
  datatype Config = Config(catalog: set<string>, adminRole: string)

  /** Who acts: a user, through a session or through an API token with scopes. */
  datatype Actor = Actor(user: string, token: Option<seq<string>>)

  datatype Outcome = Done | Invalid | Forbidden | Conflict | NotFound | StoreError

  /** How the store answers a step: whether the lookup of a user's administrator role
      works, whether counting the administrator bindings works, and whether the write
      goes through. */
  datatype Answers = Answers(looksUp: bool, counts: bool, writes: bool)

  // ----- who holds what -----

  ghost predicate RoleGrants(st: State, role: string, g: string) {
    role in st.roles && g in st.roles[role].permissions
  }

  /** Binding b gives its user the permission string g wherever s is in scope. */
  ghost predicate BindingGives(st: State, b: string, g: string, s: Scope) {
    b in st.bindings
    && var x := st.bindings[b];
       RoleGrants(st, x.role, g) && Applies(ScopeKey(x.scopeType, x.scopeId), s)
  }

  /** User u holds permission p at scope s. */
  ghost predicate Holds(st: State, u: string, p: string, s: Scope) {
    exists b, g :: BindingGives(st, b, g, s) && st.bindings[b].user == u && Covers(g, p)
  }

  /** The same for an actor, whose token may narrow what the user holds. */
  ghost predicate ActorHolds(st: State, a: Actor, p: string, s: Scope) {
    match a.token
    case None => Holds(st, a.user, p, s)
    case Some(scopes) =>
      exists b, g :: BindingGives(st, b, g, s) && st.bindings[b].user == a.user && PassesToken(g, TokenSet(scopes), p)
  }

  ghost predicate HoldsAll(st: State, a: Actor, perms: seq<string>, s: Scope) {
    forall p :: p in perms ==> ActorHolds(st, a, p, s)
  }

  /** A token never lets an actor do more than its user may. */
  lemma ActorBounded(st: State, a: Actor, p: string, s: Scope)
    requires ActorHolds(st, a, p, s)
    ensures Holds(st, a.user, p, s)
  {
    if a.token.Some? {
      var token := TokenSet(a.token.value);
      var b, g :| BindingGives(st, b, g, s) && st.bindings[b].user == a.user && PassesToken(g, token, p);
      assert Covers(g, p);
    }
  }

  // ----- permission strings that may be written into a role -----

  predicate HasDotPrefix(s: string, prefix: string) {
    |s| > |prefix| && s[..|prefix|] == prefix && s[|prefix|] == '.'
  }

  predicate WildcardOver(p: string, known: string) {
    |p| >= 3 && p[|p| - 2..] == ".*" &&
    var prefix := p[..|p| - 2];
    known == prefix || HasDotPrefix(known, prefix)
  }

  predicate KnownPermission(catalog: set<string>, p: string) {
    p in catalog || exists known :: known in catalog && WildcardOver(p, known)
  }

  // ----- the administration steps -----

  datatype Step =
    | CreateRole(actor: Actor, id: string, name: string, permissions: seq<string>)
    | UpdateRole(actor: Actor, id: string, newPermissions: Option<seq<string>>)
    | DeleteRole(actor: Actor, id: string)
    | CreateBinding(actor: Actor, id: string, user: string, role: string, scopeType: string, scopeId: string)
    | DeleteBinding(actor: Actor, user: string, id: string)

  predicate NameTaken(st: State, name: string) {
    exists r :: r in st.roles && st.roles[r].name == name
  }

  /** The table's uniqueness rule; an empty scope id is stored as NULL and never clashes. */
  predicate BindingTaken(st: State, x: Binding) {
    x.scopeId != "" && exists b :: b in st.bindings && st.bindings[b] == x
  }

  function AdminBindings(cfg: Config, st: State): set<string> {
    set b | b in st.bindings && st.bindings[b].role == cfg.adminRole && st.bindings[b].scopeType == "global"
  }

  predicate IsGlobalAdmin(cfg: Config, st: State, u: string) {
    exists b :: b in AdminBindings(cfg, st) && st.bindings[b].user == u
  }

  ghost predicate MayWrite(cfg: Config, perms: seq<string>) {
    forall p :: p in perms ==> KnownPermission(cfg.catalog, p)
  }

  const GLOBAL := Scope("global", "")

  ghost function AfterCreateRole(cfg: Config, st: State, a: Actor, id: string, name: string, perms: seq<string>,
                                 ans: Answers): (State, Outcome) {
    if name == "" || !MayWrite(cfg, perms) then (st, Invalid)
    else if !HoldsAll(st, a, perms, GLOBAL) then (st, Forbidden)
    else if !ans.writes || id in st.roles || NameTaken(st, name) then (st, Conflict)
    else (st.(roles := st.roles[id := Role(name, perms, false)]), Done)
  }

  ghost function AfterUpdateRole(cfg: Config, st: State, a: Actor, id: string, perms: Option<seq<string>>,
                                 ans: Answers): (State, Outcome) {
    if id !in st.roles then (st, NotFound)
    else if st.roles[id].builtin then (st, Conflict)
    else if perms.Some? && !MayWrite(cfg, perms.value) then (st, Invalid)
    else if perms.Some? && !HoldsAll(st, a, perms.value, GLOBAL) then (st, Forbidden)
    else if !ans.writes then (st, StoreError)
    else if perms.Some? then (st.(roles := st.roles[id := st.roles[id].(permissions := perms.value)]), Done)
    else (st, Done)
  }

  /** Deleting a role deletes its bindings with it. */
  ghost function AfterDeleteRole(st: State, id: string, ans: Answers): (State, Outcome) {
    if id !in st.roles then (st, NotFound)
    else if st.roles[id].builtin then (st, Conflict)
    else if !ans.writes then (st, StoreError)
    else (st.(roles := st.roles - {id},
              bindings := map b | b in st.bindings && st.bindings[b].role != id :: st.bindings[b]), Done)
  }

  function BindingScope(scopeType: string): string {
    if scopeType == "" then "global" else scopeType
  }

  ghost function AfterCreateBinding(st: State, a: Actor, id: string, user: string, role: string,
                                    scopeType: string, scopeId: string, ans: Answers): (State, Outcome) {
    var kind := BindingScope(scopeType);
    var x := Binding(user, role, kind, scopeId);
    if kind != "global" && kind != "host" && kind != "cluster" then (st, Invalid)
    else if user !in st.users then (st, NotFound)
    else if role !in st.roles then (st, Invalid)
    else if !HoldsAll(st, a, st.roles[role].permissions, Scope(kind, scopeId)) then (st, Forbidden)
    else if !ans.writes || id in st.bindings || BindingTaken(st, x) then (st, Conflict)
    else (st.(bindings := st.bindings[id := x]), Done)
  }

  /** A failed role lookup reads as "not an administrator", a failed count as zero. */
  ghost function AfterDeleteBinding(cfg: Config, st: State, user: string, id: string, ans: Answers): (State, Outcome) {
    if ans.looksUp && IsGlobalAdmin(cfg, st, user) && (!ans.counts || |AdminBindings(cfg, st)| <= 1) then (st, Conflict)
    else if !ans.writes then (st, StoreError)
    else if id !in st.bindings || st.bindings[id].user != user then (st, NotFound)
    else (st.(bindings := st.bindings - {id}), Done)
  }

  ghost function Next(cfg: Config, st: State, step: Step, ans: Answers): (State, Outcome) {
    match step
    case CreateRole(a, id, name, perms) => AfterCreateRole(cfg, st, a, id, name, perms, ans)
    case UpdateRole(a, id, perms) => AfterUpdateRole(cfg, st, a, id, perms, ans)
    case DeleteRole(_, id) => AfterDeleteRole(st, id, ans)
    case CreateBinding(a, id, user, role, kind, scopeId) => AfterCreateBinding(st, a, id, user, role, kind, scopeId, ans)
    case DeleteBinding(_, user, id) => AfterDeleteBinding(cfg, st, user, id, ans)
  }

  // ----- no run of steps creates authority -----

  /** Every binding names an existing role (a foreign key of the store). */
  ghost predicate Integrity(st: State) {
    forall b :: b in st.bindings ==> st.bindings[b].role in st.roles
  }

  lemma IntegrityKept(cfg: Config, st: State, step: Step, ans: Answers)
    requires Integrity(st)
    ensures Integrity(Next(cfg, st, step, ans).0)
  {}

  /** One step gives a user only what it or the acting user held before. */
  lemma StepBounded(cfg: Config, st: State, step: Step, ans: Answers, u: string, p: string, s: Scope)
    requires Integrity(st) && Holds(Next(cfg, st, step, ans).0, u, p, s)
    ensures Holds(st, u, p, s) || Holds(st, step.actor.user, p, s)
  {
    var st' := Next(cfg, st, step, ans).0;
    var b, g :| BindingGives(st', b, g, s) && st'.bindings[b].user == u && Covers(g, p);
    if BindingGives(st, b, g, s) {
      assert Holds(st, u, p, s);
    } else {
      var x := st'.bindings[b];
      var at := if step.UpdateRole? then GLOBAL else Scope(x.scopeType, x.scopeId);
      assert ActorHolds(st, step.actor, g, at);
      ActorBounded(st, step.actor, g, at);
      var b', g' :| BindingGives(st, b', g', at) && st.bindings[b'].user == step.actor.user && Covers(g', g);
      CoversTransitive(g', g, p);
      assert BindingGives(st, b', g', s);
    }
  }

  /** A run of steps, each with the store's answer to its write. */
  ghost function Run(cfg: Config, st: State, steps: seq<(Step, Answers)>): State {
    if |steps| == 0 then st
    else
      var last := steps[|steps| - 1];
      Next(cfg, Run(cfg, st, steps[..|steps| - 1]), last.0, last.1).0
  }

  lemma {:induction false} RunIntegrity(cfg: Config, st: State, steps: seq<(Step, Answers)>)
    requires Integrity(st)
    ensures Integrity(Run(cfg, st, steps))
  {
    if |steps| > 0 {
      RunIntegrity(cfg, st, steps[..|steps| - 1]);
      var last := steps[|steps| - 1];
      IntegrityKept(cfg, Run(cfg, st, steps[..|steps| - 1]), last.0, last.1);
    }
  }

  /** Over any run of steps by actors from a group, nobody ever holds a permission
      at a scope unless that user or someone of the group held it there at the start. */
  lemma {:induction false} NoEscalation(cfg: Config, st: State, steps: seq<(Step, Answers)>, actors: set<string>,
                                        u: string, p: string, s: Scope)
    requires Integrity(st)
    requires forall i :: 0 <= i < |steps| ==> steps[i].0.actor.user in actors
    requires Holds(Run(cfg, st, steps), u, p, s)
    ensures Holds(st, u, p, s) || exists a :: a in actors && Holds(st, a, p, s)
  {
    if |steps| > 0 {
      var rest, last := steps[..|steps| - 1], steps[|steps| - 1];
      RunIntegrity(cfg, st, rest);
      StepBounded(cfg, Run(cfg, st, rest), last.0, last.1, u, p, s);
      var holder := if Holds(Run(cfg, st, rest), u, p, s) then u else last.0.actor.user;
      NoEscalation(cfg, st, rest, actors, holder, p, s);
    }
  }

  // ----- the last administrator -----

  ghost predicate AdminProtected(cfg: Config, st: State) {
    && cfg.adminRole in st.roles && st.roles[cfg.adminRole].builtin
    && AdminBindings(cfg, st) != {}
  }

  /** The store failed to look up the role, the write went through, and the binding was
      the only one of a global administrator. */
  predicate DropsLastAdmin(cfg: Config, st: State, step: Step, ans: Answers) {
    step.DeleteBinding? && !ans.looksUp && ans.writes &&
    step.id in st.bindings && st.bindings[step.id].user == step.user && AdminBindings(cfg, st) == {step.id}
  }

  /** One step keeps a global administrator exactly when it is not such a deletion. */
  lemma AdminStep(cfg: Config, st: State, step: Step, ans: Answers)
    requires AdminProtected(cfg, st)
    ensures AdminProtected(cfg, Next(cfg, st, step, ans).0) <==> !DropsLastAdmin(cfg, st, step, ans)
  {
    var st' := Next(cfg, st, step, ans).0;
    var before, after := AdminBindings(cfg, st), AdminBindings(cfg, st');
    if step.DeleteBinding? && st' != st {
      assert after == before - {step.id};
      if step.id in before {
        assert IsGlobalAdmin(cfg, st, step.user);
        assert |after| == |before| - 1;
      }
    } else {
      var b :| b in before;
      assert b in after;
    }
  }

  /** Step n of a run, in the state it finds. */
  ghost predicate DropsAt(cfg: Config, st: State, steps: seq<(Step, Answers)>, n: nat)
    requires n < |steps|
  {
    DropsLastAdmin(cfg, Run(cfg, st, steps[..n]), steps[n].0, steps[n].1)
  }

  ghost predicate ProtectedAt(cfg: Config, st: State, steps: seq<(Step, Answers)>, n: nat)
    requires n <= |steps|
  {
    AdminProtected(cfg, Run(cfg, st, steps[..n]))
  }

  lemma AdminStepAt(cfg: Config, st: State, steps: seq<(Step, Answers)>, n: nat)
    requires n < |steps| && ProtectedAt(cfg, st, steps, n)
    ensures ProtectedAt(cfg, st, steps, n + 1) <==> !DropsAt(cfg, st, steps, n)
  {
    assert steps[..n + 1][..n] == steps[..n];
    AdminStep(cfg, Run(cfg, st, steps[..n]), steps[n].0, steps[n].1);
  }

  lemma {:induction false} KeptSoFar(cfg: Config, st: State, steps: seq<(Step, Answers)>, n: nat)
    requires n <= |steps| && AdminProtected(cfg, st)
    requires forall i :: 0 <= i < n ==> !DropsAt(cfg, st, steps, i)
    ensures ProtectedAt(cfg, st, steps, n)
  {
    if n > 0 {
      KeptSoFar(cfg, st, steps, n - 1);
      AdminStepAt(cfg, st, steps, n - 1);
    }
  }

  /** A run keeps a global administrator throughout exactly when no step of it deletes
      the last one's binding after a failed role lookup. */
  lemma AdminKeptExactly(cfg: Config, st: State, steps: seq<(Step, Answers)>)
    requires AdminProtected(cfg, st)
    ensures (forall n :: 0 <= n <= |steps| ==> ProtectedAt(cfg, st, steps, n)) <==>
      (forall n :: 0 <= n < |steps| ==> !DropsAt(cfg, st, steps, n))
  {
    if forall n :: 0 <= n < |steps| ==> !DropsAt(cfg, st, steps, n) {
      forall n | 0 <= n <= |steps| ensures ProtectedAt(cfg, st, steps, n) {
        KeptSoFar(cfg, st, steps, n);
      }
    }
    if forall n :: 0 <= n <= |steps| ==> ProtectedAt(cfg, st, steps, n) {
      forall n | 0 <= n < |steps| ensures !DropsAt(cfg, st, steps, n) {
        AdminStepAt(cfg, st, steps, n);
      }
    }
  }

  /** In particular no run in which every role lookup works ever removes the last global
      administrator binding. */
  lemma AdminNeverLost(cfg: Config, st: State, steps: seq<(Step, Answers)>)
    requires AdminProtected(cfg, st)
    requires forall n :: 0 <= n < |steps| ==> steps[n].1.looksUp
    ensures AdminProtected(cfg, Run(cfg, st, steps))
  {
    KeptSoFar(cfg, st, steps, |steps|);
    assert steps[..|steps|] == steps;
  }

  /** One failed lookup is enough: the only administrator's binding is deleted. */
  lemma FailedLookupLosesAdmin(cfg: Config, a: Actor)
    ensures
      var st := State({"root"}, map[cfg.adminRole := Role("admin", ["*"], true)],
        map["b" := Binding("root", cfg.adminRole, "global", "")]);
      var steps := [(DeleteBinding(a, "root", "b"), Answers(false, true, true))];
      AdminProtected(cfg, st) && !AdminProtected(cfg, Run(cfg, st, steps))
  {
    var st := State({"root"}, map[cfg.adminRole := Role("admin", ["*"], true)],
      map["b" := Binding("root", cfg.adminRole, "global", "")]);
    var step, ans := DeleteBinding(a, "root", "b"), Answers(false, true, true);
    assert "b" in AdminBindings(cfg, st);
    assert AdminBindings(cfg, st) == {"b"};
    AdminStep(cfg, st, step, ans);
    assert [(step, ans)][..0] == [] && Run(cfg, st, []) == st;
  }
}

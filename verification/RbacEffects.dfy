/** What the successful role and binding steps do to everybody's permissions. */
module RbacEffects {
  import opened Wrappers
  import opened Strings
  import opened Authz
  import opened Rbac

  /** A binding made at this scope counts at s: it is global, or s is that very scope. */
  predicate InScope(scopeType: string, scopeId: string, s: Scope) {
    scopeType == "" || scopeType == "global" || s == Scope(scopeType, scopeId)
  }

  /** A scope a request can be about. */
  predicate Askable(s: Scope) {
    s.kind == "global" || s.kind == "host" || s.kind == "cluster"
  }

  /** Bindings of different hosts and clusters never mix. */
  lemma ScopeIsExact(scopeType: string, scopeId: string, s: Scope)
    requires scopeType == "" || scopeType == "global" || scopeType == "host" || scopeType == "cluster"
    requires Askable(s)
    ensures Applies(ScopeKey(scopeType, scopeId), s) <==> InScope(scopeType, scopeId, s)
  {
    if scopeType == "host" || scopeType == "cluster" {
      var key := ScopeKey(scopeType, scopeId);
      assert key[0] == scopeType[0];
      if s.kind == "host" || s.kind == "cluster" {
        var other := ScopeKey(s.kind, s.id);
        assert other[0] == s.kind[0];
        assert key[|scopeType| + 1..] == scopeId && other[|s.kind| + 1..] == s.id;
      }
    }
  }

  /** The role carries some grant that covers p. */
  ghost predicate RoleCovers(st: State, role: string, p: string) {
    role in st.roles && ListCovers(st.roles[role].permissions, p)
  }

  ghost predicate ListCovers(perms: seq<string>, p: string) {
    exists g :: g in perms && Covers(g, p)
  }

  /** Binding b is u's, counts at s, and its role covers p. */
  ghost predicate Serves(st: State, b: string, u: string, p: string, s: Scope) {
    b in st.bindings && st.bindings[b].user == u && RoleCovers(st, st.bindings[b].role, p) &&
    Applies(ScopeKey(st.bindings[b].scopeType, st.bindings[b].scopeId), s)
  }

  lemma HoldsByServing(st: State, u: string, p: string, s: Scope)
    ensures Holds(st, u, p, s) <==> exists b :: Serves(st, b, u, p, s)
  {
    if Holds(st, u, p, s) {
      var b, g :| BindingGives(st, b, g, s) && st.bindings[b].user == u && Covers(g, p);
      assert Serves(st, b, u, p, s);
    }
    if b :| Serves(st, b, u, p, s) {
      var g :| g in st.roles[st.bindings[b].role].permissions && Covers(g, p);
      assert BindingGives(st, b, g, s);
    }
  }

  /** u holds p at s through a binding other than this one. */
  ghost predicate HoldsBesides(st: State, u: string, p: string, s: Scope, binding: string) {
    exists b :: b != binding && Serves(st, b, u, p, s)
  }

  /** u holds p at s through a binding of another role. */
  ghost predicate HoldsElsewhere(st: State, u: string, p: string, s: Scope, role: string) {
    exists b :: Serves(st, b, u, p, s) && st.bindings[b].role != role
  }

  /** u is bound to this role at s. */
  ghost predicate BoundAt(st: State, u: string, role: string, s: Scope) {
    exists b :: b in st.bindings && IsBound(st.bindings[b], u, role, s)
  }

  predicate IsBound(x: Binding, u: string, role: string, s: Scope) {
    x.user == u && x.role == role && Applies(ScopeKey(x.scopeType, x.scopeId), s)
  }

  // ----- what each step gives and takes -----

  /** A new binding gives exactly its user exactly its role's permissions in its scope. */
  lemma CreateBindingGives(cfg: Config, st: State, step: Step, ans: Answers, u: string, p: string, s: Scope)
    requires step.CreateBinding? && Next(cfg, st, step, ans).1 == Done && Askable(s)
    ensures Holds(Next(cfg, st, step, ans).0, u, p, s) <==>
      Holds(st, u, p, s) || (u == step.user && InScope(step.scopeType, step.scopeId, s) && RoleCovers(st, step.role, p))
  {
    var st' := Next(cfg, st, step, ans).0;
    ScopeIsExact(step.scopeType, step.scopeId, s);
    HoldsByServing(st, u, p, s);
    HoldsByServing(st', u, p, s);
    forall b | b != step.id
      ensures Serves(st', b, u, p, s) <==> Serves(st, b, u, p, s)
    {}
    assert Serves(st', step.id, u, p, s) <==>
      u == step.user && InScope(step.scopeType, step.scopeId, s) && RoleCovers(st, step.role, p);
  }

  /** Deleting a binding takes away exactly what its user held through it alone. */
  lemma DeleteBindingTakes(cfg: Config, st: State, step: Step, ans: Answers, u: string, p: string, s: Scope)
    requires step.DeleteBinding? && Next(cfg, st, step, ans).1 == Done
    ensures step.id in st.bindings && st.bindings[step.id].user == step.user
    ensures Holds(Next(cfg, st, step, ans).0, u, p, s) <==> HoldsBesides(st, u, p, s, step.id)
    ensures u != step.user ==> (HoldsBesides(st, u, p, s, step.id) <==> Holds(st, u, p, s))
  {
    var st' := Next(cfg, st, step, ans).0;
    HoldsByServing(st, u, p, s);
    HoldsByServing(st', u, p, s);
    forall b
      ensures Serves(st', b, u, p, s) <==> b != step.id && Serves(st, b, u, p, s)
    {}
  }

  /** Deleting a role takes away exactly what was held through it alone. */
  lemma DeleteRoleTakes(cfg: Config, st: State, step: Step, ans: Answers, u: string, p: string, s: Scope)
    requires step.DeleteRole? && Next(cfg, st, step, ans).1 == Done
    ensures step.id in st.roles && !st.roles[step.id].builtin && step.id !in Next(cfg, st, step, ans).0.roles
    ensures Holds(Next(cfg, st, step, ans).0, u, p, s) <==> HoldsElsewhere(st, u, p, s, step.id)
    ensures !BoundAt(Next(cfg, st, step, ans).0, u, step.id, s)
  {
    var st' := Next(cfg, st, step, ans).0;
    HoldsByServing(st', u, p, s);
    forall b
      ensures Serves(st', b, u, p, s) <==> Serves(st, b, u, p, s) && st.bindings[b].role != step.id
    {}
  }

  /** Changing a role's permissions gives and takes exactly for those bound to it. */
  lemma UpdateRoleChanges(cfg: Config, st: State, step: Step, ans: Answers, u: string, p: string, s: Scope)
    requires step.UpdateRole? && Next(cfg, st, step, ans).1 == Done
    ensures step.id in st.roles && !st.roles[step.id].builtin
    ensures step.newPermissions.None? ==> (Holds(Next(cfg, st, step, ans).0, u, p, s) <==> Holds(st, u, p, s))
    ensures step.newPermissions.Some? ==>
      (Holds(Next(cfg, st, step, ans).0, u, p, s) <==>
       HoldsElsewhere(st, u, p, s, step.id) ||
       (BoundAt(st, u, step.id, s) && ListCovers(step.newPermissions.value, p)))
  {
    var st' := Next(cfg, st, step, ans).0;
    HoldsByServing(st, u, p, s);
    HoldsByServing(st', u, p, s);
    if step.newPermissions.Some? {
      forall b
        ensures Serves(st', b, u, p, s) <==>
          (Serves(st, b, u, p, s) && st.bindings[b].role != step.id) ||
          (b in st.bindings && IsBound(st.bindings[b], u, step.id, s) && ListCovers(step.newPermissions.value, p))
      {}
    }
  }

  /** A new role by itself gives nothing to anybody; it is there to be bound. */
  lemma CreateRoleGivesNothing(cfg: Config, st: State, step: Step, ans: Answers, u: string, p: string, s: Scope)
    requires Integrity(st) && step.CreateRole? && Next(cfg, st, step, ans).1 == Done
    ensures Holds(Next(cfg, st, step, ans).0, u, p, s) <==> Holds(st, u, p, s)
    ensures step.id !in st.roles && step.id in Next(cfg, st, step, ans).0.roles
    ensures
      var made := Next(cfg, st, step, ans).0.roles[step.id];
      made.name == step.name && !made.builtin
    ensures RoleCovers(Next(cfg, st, step, ans).0, step.id, p) <==> ListCovers(step.permissions, p)
  {
    var st' := Next(cfg, st, step, ans).0;
    HoldsByServing(st, u, p, s);
    HoldsByServing(st', u, p, s);
    forall b
      ensures Serves(st', b, u, p, s) <==> Serves(st, b, u, p, s)
    {}
  }
  // ----- when a step goes through -----

  lemma PassesOn(g: string, token: set<string>, h: string, p: string)
    requires PassesToken(g, token, h) && Covers(h, p)
    ensures PassesToken(g, token, p)
  {
    if "*" !in token && g == "*" {
      var t :| t in token && Covers(t, h);
      CoversTransitive(t, h, p);
    } else {
      CoversTransitive(g, h, p);
    }
  }

  /** Whoever holds a grant holds what it covers, there and wherever a binding at that
      scope counts. */
  lemma HoldsOn(st: State, a: Actor, g: string, p: string, at: Scope, s: Scope)
    requires ActorHolds(st, a, g, at) && Covers(g, p) && (s == at || ScopeKey(at.kind, at.id) == "")
    ensures ActorHolds(st, a, p, s)
  {
    if a.token.Some? {
      var token := TokenSet(a.token.value);
      var b, h :| BindingGives(st, b, h, at) && st.bindings[b].user == a.user && PassesToken(h, token, g);
      PassesOn(h, token, g, p);
      assert BindingGives(st, b, h, s);
    } else {
      var b, h :| BindingGives(st, b, h, at) && st.bindings[b].user == a.user && Covers(h, g);
      CoversTransitive(h, g, p);
      assert BindingGives(st, b, h, s);
    }
  }

  /** The actor holds whatever the list covers, wherever a binding at this scope counts. */
  ghost predicate HoldsThroughout(st: State, a: Actor, perms: seq<string>, scopeType: string, scopeId: string) {
    forall p, s :: ListCovers(perms, p) && InScope(scopeType, scopeId, s) ==> ActorHolds(st, a, p, s)
  }

  lemma HoldingIsThroughout(st: State, a: Actor, perms: seq<string>, scopeType: string, scopeId: string)
    ensures HoldsAll(st, a, perms, Scope(BindingScope(scopeType), scopeId)) <==>
      HoldsThroughout(st, a, perms, scopeType, scopeId)
  {
    var at := Scope(BindingScope(scopeType), scopeId);
    if HoldsAll(st, a, perms, at) {
      forall p, s | ListCovers(perms, p) && InScope(scopeType, scopeId, s)
        ensures ActorHolds(st, a, p, s)
      {
        var g :| g in perms && Covers(g, p);
        HoldsOn(st, a, g, p, at, s);
      }
    }
    if HoldsThroughout(st, a, perms, scopeType, scopeId) {
      forall g | g in perms
        ensures ActorHolds(st, a, g, at)
      {
        assert ListCovers(perms, g) && InScope(scopeType, scopeId, at);
      }
    }
  }

  predicate SameBinding(x: Binding, user: string, role: string, scopeType: string, scopeId: string) {
    x.user == user && x.role == role && x.scopeId == scopeId &&
    x.scopeType == if scopeType == "" then "global" else scopeType
  }

  /** The store has the id already, or the very same binding at a named scope. */
  ghost predicate BindingClash(st: State, step: Step)
    requires step.CreateBinding?
  {
    step.id in st.bindings ||
    (step.scopeId != "" &&
     exists b :: b in st.bindings && SameBinding(st.bindings[b], step.user, step.role, step.scopeType, step.scopeId))
  }

  /** A binding is made exactly when scope, user and role are known, the actor holds
      everything the role covers wherever the binding would count, and the store takes it.
      Each refusal names a reason that is there. */
  lemma CreateBindingExactly(cfg: Config, st: State, step: Step, ans: Answers)
    requires step.CreateBinding?
    ensures
      var scoped := step.scopeType == "" || step.scopeType == "global" || step.scopeType == "host" || step.scopeType == "cluster";
      var known := step.role in st.roles;
      var held := known && HoldsThroughout(st, step.actor, st.roles[step.role].permissions, step.scopeType, step.scopeId);
      var stored := ans.writes && !BindingClash(st, step);
      var o := Next(cfg, st, step, ans).1;
      (o == Done <==> scoped && step.user in st.users && known && held && stored) &&
      (o == Invalid ==> !scoped || !known) && (o == NotFound ==> step.user !in st.users) &&
      (o == Forbidden ==> known && !held) && (o == Conflict ==> !stored) && o != StoreError &&
      (o != Done ==> Next(cfg, st, step, ans).0 == st)
  {
    if step.role in st.roles {
      HoldingIsThroughout(st, step.actor, st.roles[step.role].permissions, step.scopeType, step.scopeId);
    }
    var x := Binding(step.user, step.role, BindingScope(step.scopeType), step.scopeId);
    if step.scopeType == "" || step.scopeType == "global" || step.scopeType == "host" || step.scopeType == "cluster" {
      forall b | b in st.bindings
        ensures st.bindings[b] == x <==> SameBinding(st.bindings[b], step.user, step.role, step.scopeType, step.scopeId)
      {}
    }
  }

  /** A role is written exactly when its list is legal, the actor holds everything the list
      covers everywhere, and the store takes it. */
  lemma CreateRoleExactly(cfg: Config, st: State, step: Step, ans: Answers)
    requires step.CreateRole?
    ensures
      var legal := step.name != "" && MayWrite(cfg, step.permissions);
      var held := HoldsThroughout(st, step.actor, step.permissions, "global", "");
      var stored := ans.writes && step.id !in st.roles && forall r :: r in st.roles ==> st.roles[r].name != step.name;
      var o := Next(cfg, st, step, ans).1;
      (o == Done <==> legal && held && stored) &&
      (o == Invalid ==> !legal) && (o == Forbidden ==> !held) && (o == Conflict ==> !stored) &&
      o != NotFound && o != StoreError && (o != Done ==> Next(cfg, st, step, ans).0 == st)
  {
    HoldingIsThroughout(st, step.actor, step.permissions, "global", "");
  }

  lemma UpdateRoleExactly(cfg: Config, st: State, step: Step, ans: Answers)
    requires step.UpdateRole?
    ensures
      var known := step.id in st.roles;
      var fixed := known && st.roles[step.id].builtin;
      var legal := step.newPermissions.Some? ==> MayWrite(cfg, step.newPermissions.value);
      var held := step.newPermissions.Some? ==> HoldsThroughout(st, step.actor, step.newPermissions.value, "global", "");
      var o := Next(cfg, st, step, ans).1;
      (o == Done <==> known && !fixed && legal && held && ans.writes) &&
      (o == NotFound ==> !known) && (o == Conflict ==> fixed) && (o == Invalid ==> !legal) &&
      (o == Forbidden ==> !held) && (o == StoreError ==> !ans.writes) &&
      (o != Done ==> Next(cfg, st, step, ans).0 == st)
  {
    if step.newPermissions.Some? {
      HoldingIsThroughout(st, step.actor, step.newPermissions.value, "global", "");
    }
  }

  lemma DeleteRoleExactly(cfg: Config, st: State, step: Step, ans: Answers)
    requires step.DeleteRole?
    ensures
      var known := step.id in st.roles;
      var fixed := known && st.roles[step.id].builtin;
      var o := Next(cfg, st, step, ans).1;
      (o == Done <==> known && !fixed && ans.writes) &&
      (o == NotFound ==> !known) && (o == Conflict ==> fixed) && (o == StoreError ==> !ans.writes) &&
      o != Invalid && o != Forbidden && (o != Done ==> Next(cfg, st, step, ans).0 == st)
  {}

  /** b makes this user a global administrator. */
  predicate AdminVia(cfg: Config, st: State, user: string, b: string) {
    b in st.bindings && st.bindings[b].role == cfg.adminRole && st.bindings[b].scopeType == "global" &&
    st.bindings[b].user == user
  }

  /** Somebody, perhaps the same user, is an administrator by another binding than b. */
  ghost predicate AdminBesides(cfg: Config, st: State, b: string) {
    exists c, other :: c != b && AdminVia(cfg, st, other, c)
  }

  lemma SingleMember(s: set<string>, b: string)
    requires b in s
    ensures |s| <= 1 <==> forall c :: c in s ==> c == b
  {
    if forall c :: c in s ==> c == b {
      assert s == {b};
    } else {
      var c :| c in s && c != b;
      assert |s - {b}| == |s| - 1 && c in s - {b};
    }
  }

  /** The user is seen to be the last administrator, or one who cannot be told from it. */
  ghost predicate Guarded(cfg: Config, st: State, user: string, counts: bool) {
    exists b :: AdminVia(cfg, st, user, b) && (!counts || !AdminBesides(cfg, st, b))
  }

  lemma GuardedExactly(cfg: Config, st: State, user: string, counts: bool)
    ensures Guarded(cfg, st, user, counts) <==>
      IsGlobalAdmin(cfg, st, user) && (!counts || |AdminBindings(cfg, st)| <= 1)
  {
    var admins := AdminBindings(cfg, st);
    assert forall b, u :: AdminVia(cfg, st, u, b) ==> b in admins;
    assert forall b :: b in admins ==> AdminVia(cfg, st, st.bindings[b].user, b);
    forall b | b in admins
      ensures |admins| <= 1 <==> !AdminBesides(cfg, st, b)
    {
      SingleMember(admins, b);
    }
  }

  /** A user's binding is deleted exactly when the store takes it and the user is not seen to
      be the last administrator, or one who cannot be told from the last. */
  lemma DeleteBindingExactly(cfg: Config, st: State, step: Step, ans: Answers)
    requires step.DeleteBinding?
    ensures
      var guarded := ans.looksUp && Guarded(cfg, st, step.user, ans.counts);
      var theirs := step.id in st.bindings && st.bindings[step.id].user == step.user;
      var o := Next(cfg, st, step, ans).1;
      (o == Done <==> !guarded && ans.writes && theirs) &&
      (o == Conflict ==> guarded) && (o == StoreError ==> !ans.writes) && (o == NotFound ==> !theirs) &&
      o != Invalid && o != Forbidden && (o != Done ==> Next(cfg, st, step, ans).0 == st)
  {
    GuardedExactly(cfg, st, step.user, ans.counts);
  }

  // ----- what may be written into a role -----

  /** p covers the catalog entry, or everything that could ever lie below it. */
  predicate Overlooks(p: string, known: string) {
    p == known || (known != "" && p == known + ".*") || (|p| >= 3 && Covers(p, known))
  }

  /** A permission may be written exactly when it is a catalog entry or a wildcard at or
      above one; so never the bare star, unless the catalog lists it. */
  lemma KnownExactly(catalog: set<string>, p: string)
    ensures KnownPermission(catalog, p) <==> exists known :: known in catalog && Overlooks(p, known)
  {
    forall known
      ensures p == known || WildcardOver(p, known) <==> Overlooks(p, known)
    {
      if WildcardOver(p, known) {
        var k := |p| - 2;
        assert p == p[..k] + ".*";
        if known != p[..k] {
          assert known[k] == '.' && known[..k] == p[..k];
        }
      }
      if p != known && |p| >= 3 && Covers(p, known) {
        var k :| 0 <= k < |known| && known[k] == '.' && p == known[..k] + ".*";
        assert p[..|p| - 2] == known[..k];
      }
    }
    if p in catalog {
      assert Overlooks(p, p);
    }
  }

  // ----- the administrator -----

  ghost predicate MayAll(st: State, u: string) {
    forall p, s :: Holds(st, u, p, s)
  }

  /** While the administrator role carries the star, keeping an administrator binding
      means that somebody may do everything everywhere. */
  lemma AdminMayAll(cfg: Config, st: State)
    requires AdminProtected(cfg, st) && "*" in st.roles[cfg.adminRole].permissions
    ensures exists u :: MayAll(st, u)
  {
    var b :| b in AdminBindings(cfg, st);
    var u := st.bindings[b].user;
    forall p, s
      ensures Holds(st, u, p, s)
    {
      assert BindingGives(st, b, "*", s) && Covers("*", p);
    }
    assert MayAll(st, u);
  }
}

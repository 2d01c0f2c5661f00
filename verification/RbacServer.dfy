/** The administration handlers over the role and binding tables. */
module RbacServer {
  import opened Wrappers
  import opened Strings
  import opened Authz
  import opened Rbac

  /** Binding b of user u carries the permission string g under this scope key. */
  ghost predicate CarriesAt(st: State, u: string, b: string, key: string, g: string) {
    b in st.bindings && st.bindings[b].user == u && RoleGrants(st, st.bindings[b].role, g)
    && ScopeKey(st.bindings[b].scopeType, st.bindings[b].scopeId) == key
  }

  ghost predicate UserCarries(st: State, u: string, among: set<string>, key: string, g: string) {
    exists b :: b in among && CarriesAt(st, u, b, key, g)
  }

  ghost predicate RowsOf(st: State, u: string, among: set<string>, rows: seq<EffectiveRole>) {
    forall key, g :: Carried(rows, key, g) <==> UserCarries(st, u, among, key, g)
  }

  lemma RowsStep(st: State, u: string, among: set<string>, rows: seq<EffectiveRole>, b: string)
    requires RowsOf(st, u, among, rows) && b in st.bindings
    ensures var x := st.bindings[b];
      if x.user == u && x.role in st.roles
      then RowsOf(st, u, among + {b}, rows + [EffectiveRole(st.roles[x.role].permissions, x.scopeType, x.scopeId)])
      else RowsOf(st, u, among + {b}, rows)
  {
    var x := st.bindings[b];
    if x.user == u && x.role in st.roles {
      var row := EffectiveRole(st.roles[x.role].permissions, x.scopeType, x.scopeId);
      forall key, g ensures Carried(rows + [row], key, g) <==> UserCarries(st, u, among + {b}, key, g) {
        CarriedStep(rows, row, key, g);
        assert CarriesAt(st, u, b, key, g) <==> ScopeKey(row.scopeType, row.scopeId) == key && g in row.permissions;
        assert Carried(rows, key, g) <==> UserCarries(st, u, among, key, g);
      }
    } else {
      forall key, g ensures Carried(rows, key, g) <==> UserCarries(st, u, among + {b}, key, g) {
        assert !CarriesAt(st, u, b, key, g);
      }
    }
  }

  lemma RowGrant(st: State, u: string, rows: seq<EffectiveRole>, perms: PermMap, key: string, g: string)
    requires RowsOf(st, u, st.bindings.Keys, rows) && PermsOf(rows, perms)
    ensures Has(perms, key, g) <==> exists b :: CarriesAt(st, u, b, key, g)
  {
    assert Has(perms, key, g) <==> Carried(rows, key, g);
    assert Carried(rows, key, g) <==> UserCarries(st, u, st.bindings.Keys, key, g);
    if b :| CarriesAt(st, u, b, key, g) {
      assert b in st.bindings.Keys;
    }
  }

  /** The permission map built from the rows grants exactly what the user holds. */
  lemma HeldByRows(st: State, u: string, rows: seq<EffectiveRole>, perms: PermMap, p: string, s: Scope)
    requires RowsOf(st, u, st.bindings.Keys, rows) && PermsOf(rows, perms)
    ensures Allows(perms, p, s) <==> Holds(st, u, p, s)
  {
    if Allows(perms, p, s) {
      var key :| key in perms && Applies(key, s) && Grants(perms[key], p);
      var g :| g in perms[key] && Covers(g, p);
      RowGrant(st, u, rows, perms, key, g);
      var b :| CarriesAt(st, u, b, key, g);
      assert BindingGives(st, b, g, s);
    }
    if Holds(st, u, p, s) {
      var b, g :| BindingGives(st, b, g, s) && st.bindings[b].user == u && Covers(g, p);
      var key := ScopeKey(st.bindings[b].scopeType, st.bindings[b].scopeId);
      assert CarriesAt(st, u, b, key, g);
      RowGrant(st, u, rows, perms, key, g);
      assert Grants(perms[key], p);
    }
  }

  lemma HeldByToken(st: State, a: Actor, rows: seq<EffectiveRole>, perms: PermMap, p: string, s: Scope)
    requires RowsOf(st, a.user, st.bindings.Keys, rows) && PermsOf(rows, perms) && a.token.Some?
    ensures Allows(Restricted(perms, TokenSet(a.token.value)), p, s) <==> ActorHolds(st, a, p, s)
  {
    var token := TokenSet(a.token.value);
    RestrictedAllows(perms, token, p, s);
    if key, g :| Has(perms, key, g) && Applies(key, s) && PassesToken(g, token, p) {
      RowGrant(st, a.user, rows, perms, key, g);
      var b :| CarriesAt(st, a.user, b, key, g);
      assert BindingGives(st, b, g, s);
    }
    if b, g :| BindingGives(st, b, g, s) && st.bindings[b].user == a.user && PassesToken(g, token, p) {
      var key := ScopeKey(st.bindings[b].scopeType, st.bindings[b].scopeId);
      assert CarriesAt(st, a.user, b, key, g);
      RowGrant(st, a.user, rows, perms, key, g);
    }
  }

  /** isWildcardPermission, over the catalog in any order. */
  method IsWildcardPermission(catalog: set<string>, p: string) returns (r: bool)
    ensures r <==> exists known :: known in catalog && WildcardOver(p, known)
  {
    if |p| < 3 || p[|p| - 2..] != ".*" {
      return false;
    }
    var prefix := p[..|p| - 2];
    var todo := catalog;
    while todo != {}
      invariant todo <= catalog
      invariant forall known :: known in catalog && known !in todo ==> !WildcardOver(p, known)
    {
      var known :| known in todo;
      if known == prefix || HasDotPrefix(known, prefix) {
        assert WildcardOver(p, known);
        return true;
      }
      todo := todo - {known};
    }
    return false;
  }

  /** validatePermissions. */
  method ValidatePermissions(cfg: Config, perms: seq<string>) returns (ok: bool)
    ensures ok <==> MayWrite(cfg, perms)
  {
    for i := 0 to |perms|
      invariant forall j :: 0 <= j < i ==> KnownPermission(cfg.catalog, perms[j])
    {
      if perms[i] in cfg.catalog {
        continue;
      }
      var wild := IsWildcardPermission(cfg.catalog, perms[i]);
      if !wild {
        assert !KnownPermission(cfg.catalog, perms[i]);
        return false;
      }
    }
    return true;
  }

  class Server {
    const cfg: Config
    var users: set<string>
    var roles: map<string, Role>
    var bindings: map<string, Binding>

    constructor (cfg: Config, st: State)
      ensures this.cfg == cfg && Abs() == st
    {
      this.cfg := cfg;
      users, roles, bindings := st.users, st.roles, st.bindings;
    }

    function Abs(): State
      reads this
    {
      State(users, roles, bindings)
    }

    /** The join of a user's bindings with their roles. */
    method EffectiveRolesForUser(u: string) returns (rows: seq<EffectiveRole>)
      ensures RowsOf(Abs(), u, bindings.Keys, rows)
    {
      rows := [];
      var todo := bindings.Keys;
      ghost var among := {};
      while todo != {}
        invariant todo <= bindings.Keys && among == bindings.Keys - todo
        invariant RowsOf(Abs(), u, among, rows)
      {
        var b :| b in todo;
        RowsStep(Abs(), u, among, rows, b);
        todo := todo - {b};
        among := among + {b};
        var x := bindings[b];
        if x.user == u && x.role in roles {
          rows := rows + [EffectiveRole(roles[x.role].permissions, x.scopeType, x.scopeId)];
        }
      }
    }

    /** The acting user's permissions, narrowed by the token if there is one. */
    method ResolveActor(a: Actor) returns (perms: PermMap)
      ensures forall p, s :: Allows(perms, p, s) <==> ActorHolds(Abs(), a, p, s)
    {
      var rows := EffectiveRolesForUser(a.user);
      perms := BuildUser(rows);
      ghost var owner := perms;
      if a.token.Some? {
        perms := RestrictPerms(perms, a.token.value);
      }
      forall p, s ensures Allows(perms, p, s) <==> ActorHolds(Abs(), a, p, s) {
        if a.token.Some? {
          HeldByToken(Abs(), a, rows, owner, p, s);
        } else {
          HeldByRows(Abs(), a.user, rows, perms, p, s);
        }
      }
    }

    /** unheldPermissions. */
    method UnheldPermissions(actor: PermMap, perms: seq<string>, scope: Scope) returns (bad: seq<string>)
      ensures forall p :: p in bad <==> p in perms && !Allows(actor, p, scope)
    {
      bad := [];
      for i := 0 to |perms|
        invariant forall p :: p in bad <==> p in perms[..i] && !Allows(actor, p, scope)
      {
        assert perms[..i + 1] == perms[..i] + [perms[i]];
        var can := Can(actor, perms[i], scope);
        if !can {
          bad := bad + [perms[i]];
        }
      }
      assert perms[..|perms|] == perms;
    }

    /** requireActorHolds. */
    method RequireActorHolds(a: Actor, perms: seq<string>, scope: Scope) returns (ok: bool)
      ensures ok <==> HoldsAll(Abs(), a, perms, scope)
    {
      var actor := ResolveActor(a);
      var bad := UnheldPermissions(actor, perms, scope);
      assert bad != [] ==> bad[0] in bad;
      return |bad| == 0;
    }

    method CreateRole(a: Actor, id: string, name: string, permissions: seq<string>, ans: Answers) returns (o: Outcome)
      modifies this
      ensures (Abs(), o) == Next(cfg, old(Abs()), Step.CreateRole(a, id, name, permissions), ans)
    {
      if name == "" {
        return Invalid;
      }
      var valid := ValidatePermissions(cfg, permissions);
      if !valid {
        return Invalid;
      }
      var held := RequireActorHolds(a, permissions, Scope("global", ""));
      if !held {
        return Forbidden;
      }
      if !ans.writes || id in roles || NameTaken(Abs(), name) {
        return Conflict;
      }
      roles := roles[id := Role(name, permissions, false)];
      return Done;
    }

    method UpdateRole(a: Actor, id: string, permissions: Option<seq<string>>, ans: Answers) returns (o: Outcome)
      modifies this
      ensures (Abs(), o) == Next(cfg, old(Abs()), Step.UpdateRole(a, id, permissions), ans)
    {
      if id !in roles {
        return NotFound;
      }
      var role := roles[id];
      if role.builtin {
        return Conflict;
      }
      if permissions.Some? {
        var valid := ValidatePermissions(cfg, permissions.value);
        if !valid {
          return Invalid;
        }
        var held := RequireActorHolds(a, permissions.value, Scope("global", ""));
        if !held {
          return Forbidden;
        }
      }
      if !ans.writes {
        return StoreError;
      }
      if permissions.Some? {
        roles := roles[id := role.(permissions := permissions.value)];
      }
      return Done;
    }

    method DeleteRole(a: Actor, id: string, ans: Answers) returns (o: Outcome)
      modifies this
      ensures (Abs(), o) == Next(cfg, old(Abs()), Step.DeleteRole(a, id), ans)
    {
      if id !in roles {
        return NotFound;
      }
      if roles[id].builtin {
        return Conflict;
      }
      if !ans.writes {
        return StoreError;
      }
      roles := roles - {id};
      bindings := map b | b in bindings && bindings[b].role != id :: bindings[b];
      return Done;
    }

    method CreateBinding(a: Actor, id: string, user: string, role: string, scopeType: string, scopeId: string, ans: Answers)
        returns (o: Outcome)
      modifies this
      ensures (Abs(), o) == Next(cfg, old(Abs()), Step.CreateBinding(a, id, user, role, scopeType, scopeId), ans)
    {
      var kind := if scopeType == "" then "global" else scopeType;
      if kind != "global" && kind != "host" && kind != "cluster" {
        return Invalid;
      }
      if user !in users {
        return NotFound;
      }
      if role !in roles {
        return Invalid;
      }
      var held := RequireActorHolds(a, roles[role].permissions, Scope(kind, scopeId));
      if !held {
        return Forbidden;
      }
      var x := Binding(user, role, kind, scopeId);
      if !ans.writes || id in bindings || BindingTaken(Abs(), x) {
        return Conflict;
      }
      bindings := bindings[id := x];
      return Done;
    }

    method DeleteBinding(a: Actor, user: string, id: string, ans: Answers) returns (o: Outcome)
      modifies this
      ensures (Abs(), o) == Next(cfg, old(Abs()), Step.DeleteBinding(a, user, id), ans)
    {
      var isAdmin := ans.looksUp && IsGlobalAdmin(cfg, Abs(), user);
      if isAdmin {
        var n := if ans.counts then |AdminBindings(cfg, Abs())| else 0;
        if n <= 1 {
          return Conflict;
        }
      }
      if !ans.writes {
        return StoreError;
      }
      if id !in bindings || bindings[id].user != user {
        return NotFound;
      }
      bindings := bindings - {id};
      return Done;
    }
  }
}

/** Permission checks: wildcard grants, scopes and token scoping. */
module Authz {
  import opened Wrappers
  import opened Strings

  /** A user's grants: scope key to permission strings; "" is the global key. */
  type PermMap = map<string, set<string>>

  datatype Scope = Scope(kind: string, id: string)

  function ScopeKey(kind: string, id: string): string {
    if kind == "" || kind == "global" then "" else kind + ":" + id
  }

  // ----- what a grant covers -----

  /** The grant g covers permission p: "*", p itself, or a wildcard on some
      dot-separated prefix of p. */
  predicate Covers(g: string, p: string) {
    g == "*" || g == p || exists k :: 0 <= k < |p| && p[k] == '.' && g == p[..k] + ".*"
  }

  /** In words: the star, the permission itself, or everything below some part of it. */
  lemma CoversExactly(g: string, p: string)
    ensures Covers(g, p) <==>
      g == "*" || g == p || exists above: string, below: string :: IsBelow(g, p, above, below)
  {
    if k :| 0 <= k < |p| && p[k] == '.' && g == p[..k] + ".*" {
      assert p == p[..k] + ['.'] + p[k + 1..];
      assert IsBelow(g, p, p[..k], p[k + 1..]);
    }
    if above: string, below: string :| IsBelow(g, p, above, below) {
      assert p[|above|] == '.' && p[..|above|] == above;
    }
  }

  predicate IsBelow(g: string, p: string, above: string, below: string) {
    g == above + ".*" && p == above + ['.'] + below
  }

  ghost predicate Grants(perms: set<string>, p: string) {
    exists g :: g in perms && Covers(g, p)
  }

  lemma CoversTransitive(g: string, h: string, p: string)
    requires Covers(g, h) && Covers(h, p)
    ensures Covers(g, p)
  {
    if g != "*" && g != h && h != p && h != "*" {
      var j :| 0 <= j < |h| && h[j] == '.' && g == h[..j] + ".*";
      var k :| 0 <= k < |p| && p[k] == '.' && h == p[..k] + ".*";
      assert j <= k;
      assert h[..j] == p[..j] && p[j] == '.';
    }
  }

  /** Two grants on the same permission are comparable. */
  lemma CoversComparable(g: string, h: string, p: string)
    requires Covers(g, p) && Covers(h, p)
    ensures Covers(g, h) || Covers(h, g)
  {
    if g != "*" && h != "*" && g != p && h != p {
      var j :| 0 <= j < |p| && p[j] == '.' && g == p[..j] + ".*";
      var k :| 0 <= k < |p| && p[k] == '.' && h == p[..k] + ".*";
      if j <= k {
        assert h[j] == '.' && h[..j] == p[..j];
      } else {
        assert g[k] == '.' && g[..k] == p[..k];
      }
    }
  }

  /** permSetGrants: the star, the exact name, then ever shorter wildcard prefixes. */
  method PermSetGrants(perms: set<string>, perm: string) returns (r: bool)
    ensures r <==> Grants(perms, perm)
  {
    if "*" in perms {
      assert Covers("*", perm);
      return true;
    }
    if perm in perms {
      assert Covers(perm, perm);
      return true;
    }
    var parts := Split(perm, '.');
    var i := |parts| - 1;
    while i >= 1
      invariant 0 <= i < |parts|
      invariant forall j :: i < j < |parts| ==> Join(parts[..j], '.') + ".*" !in perms
    {
      var wild := Join(parts[..i], '.') + ".*";
      if wild in perms {
        var k := JoinedPrefix(perm, '.', i);
        assert Covers(wild, perm);
        return true;
      }
      i := i - 1;
    }
    forall g | g in perms ensures !Covers(g, perm) {
      if k :| 0 <= k < |perm| && perm[k] == '.' && g == perm[..k] + ".*" {
        var j := PrefixIsJoined(perm, '.', k);
      }
    }
    return false;
  }

  // ----- users -----

  /** The grant sets that apply at a scope: the global one and the scope's own. */
  predicate Applies(key: string, s: Scope) {
    key == "" || key == ScopeKey(s.kind, s.id)
  }

  /** The user holds p at s. */
  ghost predicate Allows(perms: PermMap, p: string, s: Scope) {
    exists key :: key in perms && Applies(key, s) && Grants(perms[key], p)
  }

  /** User.Can. */
  method Can(perms: PermMap, perm: string, s: Scope) returns (r: bool)
    ensures r <==> Allows(perms, perm, s)
  {
    var keys := [""];
    var k := ScopeKey(s.kind, s.id);
    if k != "" {
      keys := keys + [k];
    }
    for i := 0 to |keys|
      invariant forall j :: 0 <= j < i && keys[j] in perms ==> !Grants(perms[keys[j]], perm)
    {
      if keys[i] in perms {
        var granted := PermSetGrants(perms[keys[i]], perm);
        if granted {
          return true;
        }
      }
    }
    forall key | key in perms && Applies(key, s) ensures !Grants(perms[key], perm) {
      assert key == keys[0] || key == keys[|keys| - 1];
    }
    return false;
  }

  datatype EffectiveRole = EffectiveRole(permissions: seq<string>, scopeType: string, scopeId: string)

  /** Some role at this scope key carries the permission string g. */
  ghost predicate Carried(roles: seq<EffectiveRole>, key: string, g: string) {
    exists i :: 0 <= i < |roles| && ScopeKey(roles[i].scopeType, roles[i].scopeId) == key && g in roles[i].permissions
  }

  predicate Has(perms: PermMap, key: string, g: string) {
    key in perms && g in perms[key]
  }

  ghost predicate PermsOf(roles: seq<EffectiveRole>, perms: PermMap) {
    forall key, g :: Has(perms, key, g) <==> Carried(roles, key, g)
  }

  /** after is before plus the listed permissions at key. */
  ghost predicate Added(before: PermMap, after: PermMap, key: string, permissions: seq<string>) {
    forall k, g :: Has(after, k, g) <==> Has(before, k, g) || (k == key && g in permissions)
  }

  lemma CarriedStep(roles: seq<EffectiveRole>, r: EffectiveRole, key: string, g: string)
    ensures Carried(roles + [r], key, g) <==>
      Carried(roles, key, g) || (ScopeKey(r.scopeType, r.scopeId) == key && g in r.permissions)
  {
    var next := roles + [r];
    if Carried(roles, key, g) {
      var i :| 0 <= i < |roles| && ScopeKey(roles[i].scopeType, roles[i].scopeId) == key && g in roles[i].permissions;
      assert next[i] == roles[i];
    }
    assert next[|roles|] == r;
  }

  lemma AddedRole(roles: seq<EffectiveRole>, r: EffectiveRole, before: PermMap, after: PermMap)
    requires PermsOf(roles, before) && Added(before, after, ScopeKey(r.scopeType, r.scopeId), r.permissions)
    ensures PermsOf(roles + [r], after)
  {
    forall key, g ensures Has(after, key, g) <==> Carried(roles + [r], key, g) {
      assert Has(before, key, g) <==> Carried(roles, key, g);
      CarriedStep(roles, r, key, g);
    }
  }

  /** buildUser's inner loop over one role's permissions. */
  method AddPermissions(perms0: PermMap, key: string, permissions: seq<string>) returns (perms: PermMap)
    requires key in perms0
    ensures Added(perms0, perms, key, permissions)
  {
    perms := perms0;
    for j := 0 to |permissions|
      invariant key in perms && Added(perms0, perms, key, permissions[..j])
    {
      assert permissions[..j + 1] == permissions[..j] + [permissions[j]];
      ghost var before := perms;
      perms := perms[key := perms[key] + {permissions[j]}];
      assert forall k, g :: Has(perms, k, g) <==> Has(before, k, g) || (k == key && g == permissions[j]);
    }
    assert permissions[..|permissions|] == permissions;
  }

  /** buildUser: the union of the roles' permissions, per scope key. */
  method BuildUser(roles: seq<EffectiveRole>) returns (perms: PermMap)
    ensures PermsOf(roles, perms)
  {
    perms := map[];
    for i := 0 to |roles|
      invariant PermsOf(roles[..i], perms)
    {
      var r := roles[i];
      var key := ScopeKey(r.scopeType, r.scopeId);
      ghost var perms0 := perms;
      if key !in perms {
        perms := perms[key := {}];
      }
      assert forall k, g :: Has(perms, k, g) <==> Has(perms0, k, g);
      perms := AddPermissions(perms, key, r.permissions);
      AddedRole(roles[..i], r, perms0, perms);
      assert roles[..i + 1] == roles[..i] + [r];
    }
    assert roles[..|roles|] == roles;
  }

  predicate HasGlobalSuperuser(perms: PermMap) {
    "" in perms && "*" in perms[""]
  }

  /** A global superuser is exactly a user who may do everything, everywhere. */
  lemma SuperuserMayAll(perms: PermMap)
    ensures HasGlobalSuperuser(perms) <==> forall p, s :: Allows(perms, p, s)
  {
    if HasGlobalSuperuser(perms) {
      forall p, s ensures Allows(perms, p, s) {
        assert Covers("*", p);
        assert Applies("", s);
      }
    }
    if forall p, s :: Allows(perms, p, s) {
      assert Allows(perms, "*", Scope("global", ""));
    }
  }

  // ----- token scoping -----

  /** The grants of one scope set a token keeps. */
  ghost function Kept(perms: set<string>, token: set<string>): set<string> {
    (if "*" in perms then token else {}) + set g | g in perms && g != "*" && Grants(token, g)
  }

  ghost function Restricted(owner: PermMap, token: set<string>): PermMap {
    if "*" in token then owner
    else map key | key in owner && Kept(owner[key], token) != {} :: Kept(owner[key], token)
  }

  function TokenSet(tokenAllowed: seq<string>): set<string> {
    set p | p in tokenAllowed
  }

  /** restrictPerms. */
  method RestrictPerms(owner: PermMap, tokenAllowed: seq<string>) returns (out: PermMap)
    ensures out == Restricted(owner, TokenSet(tokenAllowed))
  {
    var tokenSet := TokenSet(tokenAllowed);
    if "*" in tokenSet {
      return owner;
    }
    out := map[];
    var scopes := owner.Keys;
    while scopes != {}
      invariant scopes <= owner.Keys
      invariant out.Keys <= owner.Keys
      invariant forall key :: key in owner ==>
        (key in out <==> key !in scopes && Kept(owner[key], tokenSet) != {})
        && (key in out ==> out[key] == Kept(owner[key], tokenSet))
    {
      var scope :| scope in scopes;
      var kept := KeepGrants(owner[scope], tokenSet);
      scopes := scopes - {scope};
      if |kept| > 0 {
        out := out[scope := kept];
      }
    }
  }

  /** restrictPerms' inner loop over one scope's grants. */
  method KeepGrants(perms: set<string>, token: set<string>) returns (kept: set<string>)
    ensures kept == Kept(perms, token)
  {
    kept := {};
    var todo := perms;
    while todo != {}
      invariant todo <= perms
      invariant kept == (if "*" in perms && "*" !in todo then token else {})
        + set g | g in perms && g !in todo && g != "*" && Grants(token, g)
    {
      var g :| g in todo;
      todo := todo - {g};
      if g == "*" {
        kept := kept + token;
        continue;
      }
      var covered := PermSetGrants(token, g);
      if covered {
        kept := kept + {g};
      }
    }
  }

  /** The owner grant g lets a token with these scopes do p. */
  ghost predicate PassesToken(g: string, token: set<string>, p: string) {
    if "*" in token then Covers(g, p)
    else if g == "*" then Grants(token, p)
    else Grants(token, g) && Covers(g, p)
  }

  /** What a scoped token may do, grant by grant. */
  lemma RestrictedAllows(owner: PermMap, token: set<string>, p: string, s: Scope)
    ensures Allows(Restricted(owner, token), p, s) <==>
      exists key, g :: Has(owner, key, g) && Applies(key, s) && PassesToken(g, token, p)
  {
    var r := Restricted(owner, token);
    if Allows(r, p, s) {
      var key :| key in r && Applies(key, s) && Grants(r[key], p);
      var g :| g in r[key] && Covers(g, p);
      if "*" in token || (g in owner[key] && g != "*" && Grants(token, g)) {
        assert Has(owner, key, g) && PassesToken(g, token, p);
      } else {
        assert Has(owner, key, "*") && PassesToken("*", token, p);
      }
    }
    if key, g :| Has(owner, key, g) && Applies(key, s) && PassesToken(g, token, p) {
      if "*" in token {
        assert Grants(owner[key], p);
      } else {
        var kept := Kept(owner[key], token);
        var t :| t in kept && Covers(t, p);
        assert r[key] == kept && Grants(r[key], p);
      }
    }
  }

  /** A token never exceeds its owner nor its own scopes. */
  lemma TokenBounded(owner: PermMap, token: set<string>, p: string, s: Scope)
    requires Allows(Restricted(owner, token), p, s)
    ensures Allows(owner, p, s) && Grants(token, p)
  {
    var r := Restricted(owner, token);
    var key :| key in r && Applies(key, s) && Grants(r[key], p);
    if "*" in token {
      assert Covers("*", p);
    } else {
      var g :| g in r[key] && Covers(g, p);
      if g in owner[key] && g != "*" && Grants(token, g) {
        var t :| t in token && Covers(t, g);
        CoversTransitive(t, g, p);
      } else {
        assert "*" in owner[key] && Covers("*", p);
      }
      assert Grants(owner[key], p);
    }
  }

  /** Some owner grant applying at s both is kept by the token and covers t. */
  ghost predicate Reaches(owner: PermMap, token: set<string>, t: string, s: Scope) {
    exists key, g :: key in owner && Applies(key, s) && g in owner[key] && KeptFor(token, g, t)
  }

  ghost predicate KeptFor(token: set<string>, g: string, t: string) {
    g == "*" || (Grants(token, g) && Covers(g, t))
  }

  /** Some scope has this key. */
  predicate IsScopeKey(key: string) {
    key == "" || exists i :: 1 <= i < |key| && key[i] == ':' && key[..i] != "global"
  }

  /** An owner grant at the global key or at this one covers t. */
  predicate HeldAt(owner: PermMap, t: string, k: string) {
    exists key :: key in owner && (key == "" || key == k) && exists g :: g in owner[key] && Covers(g, t)
  }

  /** One that the token keeps does. */
  predicate ReachedAt(owner: PermMap, token: set<string>, t: string, k: string) {
    exists key :: key in owner && (key == "" || key == k) &&
      exists g :: g in owner[key] && (g == "*" || (Covers(g, t) && exists h :: h in token && Covers(h, g)))
  }

  /** Every token entry that the owner holds at one of its own scope keys, or globally, is
      reached there by a grant the token keeps. */
  predicate Expressible(owner: PermMap, token: set<string>) {
    "*" in token ||
    forall t, k :: t in token && k in owner.Keys + {""} && IsScopeKey(k) && HeldAt(owner, t, k) ==> ReachedAt(owner, token, t, k)
  }

  /** The same, asked of every scope there could be. */
  ghost predicate ExpressibleEverywhere(owner: PermMap, token: set<string>) {
    "*" in token || forall t, s :: t in token && Allows(owner, t, s) ==> Reaches(owner, token, t, s)
  }

  function KeyOf(s: Scope): string {
    ScopeKey(s.kind, s.id)
  }

  lemma ScopeOfKey(k: string) returns (s: Scope)
    requires IsScopeKey(k)
    ensures KeyOf(s) == k
  {
    if k == "" {
      s := Scope("global", "");
    } else {
      var i :| 1 <= i < |k| && k[i] == ':' && k[..i] != "global";
      s := Scope(k[..i], k[i + 1..]);
      assert k == k[..i] + ":" + k[i + 1..];
    }
  }

  lemma KeyIsScopeKey(s: Scope)
    ensures IsScopeKey(KeyOf(s))
  {
    var k := KeyOf(s);
    if k != "" {
      assert k[|s.kind|] == ':' && k[..|s.kind|] == s.kind;
    }
  }

  lemma HeldAtKey(owner: PermMap, token: set<string>, t: string, s: Scope)
    ensures Allows(owner, t, s) <==> HeldAt(owner, t, KeyOf(s))
    ensures Reaches(owner, token, t, s) <==> ReachedAt(owner, token, t, KeyOf(s))
  {
    if Reaches(owner, token, t, s) {
      var key, g :| key in owner && Applies(key, s) && g in owner[key] && KeptFor(token, g, t);
      if g != "*" {
        var h :| h in token && Covers(h, g);
      }
    }
    if ReachedAt(owner, token, t, KeyOf(s)) {
      var key :| key in owner && (key == "" || key == KeyOf(s)) &&
        exists g :: g in owner[key] && (g == "*" || (Covers(g, t) && exists h :: h in token && Covers(h, g)));
      var g :| g in owner[key] && (g == "*" || (Covers(g, t) && exists h :: h in token && Covers(h, g)));
      assert KeptFor(token, g, t);
    }
    if Allows(owner, t, s) {
      var key :| key in owner && Applies(key, s) && Grants(owner[key], t);
      var g :| g in owner[key] && Covers(g, t);
    }
    if HeldAt(owner, t, KeyOf(s)) {
      var key :| key in owner && (key == "" || key == KeyOf(s)) && exists g :: g in owner[key] && Covers(g, t);
      assert Grants(owner[key], t);
    }
  }

  /** A scope whose key the owner has nothing under is decided by the global key. */
  lemma OnlyOwnKeysMatter(owner: PermMap, token: set<string>, t: string, k: string)
    requires k !in owner
    ensures HeldAt(owner, t, k) ==> HeldAt(owner, t, "")
    ensures ReachedAt(owner, token, t, "") ==> ReachedAt(owner, token, t, k)
  {}

  /** Looking at the owner's own keys is looking at every scope. */
  lemma ExpressibleIsEverywhere(owner: PermMap, token: set<string>)
    ensures Expressible(owner, token) <==> ExpressibleEverywhere(owner, token)
  {
    if Expressible(owner, token) && "*" !in token {
      forall t, s | t in token && Allows(owner, t, s)
        ensures Reaches(owner, token, t, s)
      {
        HeldAtKey(owner, token, t, s);
        KeyIsScopeKey(s);
        if KeyOf(s) !in owner {
          OnlyOwnKeysMatter(owner, token, t, KeyOf(s));
        }
      }
    }
    if ExpressibleEverywhere(owner, token) && "*" !in token {
      forall t, k | t in token && k in owner.Keys + {""} && IsScopeKey(k) && HeldAt(owner, t, k)
        ensures ReachedAt(owner, token, t, k)
      {
        var s := ScopeOfKey(k);
        HeldAtKey(owner, token, t, s);
      }
    }
  }

  lemma ReachedIsAllowed(owner: PermMap, token: set<string>, t: string, s: Scope)
    requires "*" !in token && t in token && Reaches(owner, token, t, s)
    ensures Allows(Restricted(owner, token), t, s)
  {
    var key, g :| key in owner && Applies(key, s) && g in owner[key] && KeptFor(token, g, t);
    var kept := Kept(owner[key], token);
    if g == "*" {
      assert t in kept && Covers(t, t);
    } else {
      assert g in kept;
    }
    assert Restricted(owner, token)[key] == kept && Grants(kept, t);
  }

  /** Exactly when a scoped token is the intersection of its owner's permissions
      and its own scopes. */
  lemma TokenIsIntersection(owner: PermMap, token: set<string>)
    ensures Expressible(owner, token) <==>
      forall p, s :: Allows(Restricted(owner, token), p, s) <==> Allows(owner, p, s) && Grants(token, p)
  {
    var r := Restricted(owner, token);
    forall p, s | Allows(r, p, s) ensures Allows(owner, p, s) && Grants(token, p) {
      TokenBounded(owner, token, p, s);
    }
    ExpressibleIsEverywhere(owner, token);
    if Expressible(owner, token) {
      forall p, s | Allows(owner, p, s) && Grants(token, p) ensures Allows(r, p, s) {
        if "*" !in token {
          IntersectionReached(owner, token, p, s);
        }
      }
    } else {
      var t, s :| t in token && Allows(owner, t, s) && !Reaches(owner, token, t, s);
      assert Covers(t, t) && Grants(token, t);
      if Allows(r, t, s) {
        AllowedIsReached(owner, token, t, s);
        assert false;
      }
    }
  }

  lemma AllowedIsReached(owner: PermMap, token: set<string>, t: string, s: Scope)
    requires "*" !in token && Allows(Restricted(owner, token), t, s)
    ensures Reaches(owner, token, t, s)
  {
    var r := Restricted(owner, token);
    var key :| key in r && Applies(key, s) && Grants(r[key], t);
    var g :| g in r[key] && Covers(g, t);
    if "*" in owner[key] {
      assert KeptFor(token, "*", t);
    } else {
      assert g in owner[key] && KeptFor(token, g, t);
    }
  }

  lemma IntersectionReached(owner: PermMap, token: set<string>, p: string, s: Scope)
    requires "*" !in token && ExpressibleEverywhere(owner, token)
    requires Allows(owner, p, s) && Grants(token, p)
    ensures Allows(Restricted(owner, token), p, s)
  {
    var r := Restricted(owner, token);
    var key :| key in owner && Applies(key, s) && Grants(owner[key], p);
    var g :| g in owner[key] && Covers(g, p);
    var t :| t in token && Covers(t, p);
    CoversComparable(g, t, p);
    if g != "*" && Covers(t, g) {
      // g itself is kept
      assert Grants(token, g) && g in Kept(owner[key], token);
      assert r[key] == Kept(owner[key], token) && Grants(r[key], p);
    } else {
      // the owner holds t, so some kept grant covers t and thereby p
      assert Covers(g, t);
      assert Grants(owner[key], t) && Allows(owner, t, s);
      ReachedIsAllowed(owner, token, t, s);
      var key' :| key' in r && Applies(key', s) && Grants(r[key'], t);
      var h :| h in r[key'] && Covers(h, t);
      CoversTransitive(h, t, p);
      assert Grants(r[key'], p);
    }
  }

  /** A permission string that covers nothing but itself. */
  predicate Concrete(g: string) {
    g != "*" && !(|g| >= 2 && g[|g| - 2..] == ".*")
  }

  lemma ConcreteCoversItself(g: string, p: string)
    requires Concrete(g) && Covers(g, p)
    ensures g == p
  {
    forall k | 0 <= k < |p| ensures g != p[..k] + ".*" {
      assert (p[..k] + ".*")[k..] == ".*";
    }
  }

  /** Owners with only concrete names and stars never lose anything to scoping. */
  lemma ConcreteOwnersIntersect(owner: PermMap, token: set<string>)
    requires forall key, g :: key in owner && g in owner[key] ==> g == "*" || Concrete(g)
    ensures forall p, s :: Allows(Restricted(owner, token), p, s) <==> Allows(owner, p, s) && Grants(token, p)
  {
    ExpressibleIsEverywhere(owner, token);
    forall t, s | t in token && Allows(owner, t, s) ensures Reaches(owner, token, t, s) {
      var key :| key in owner && Applies(key, s) && Grants(owner[key], t);
      var g :| g in owner[key] && Covers(g, t);
      if g != "*" {
        ConcreteCoversItself(g, t);
        assert g == t && g in token && Covers(g, g);
        assert KeptFor(token, g, t);
      } else {
        assert KeptFor(token, g, t);
      }
    }
    TokenIsIntersection(owner, token);
  }

  /** An owner with vm.* and a token scoped to vm.power: both grant vm.power, the
      scoped token does not. */
  lemma WildcardOwnerLoses()
    ensures var owner: PermMap, token := map["" := {"vm.*"}], {"vm.power"};
      var s := Scope("global", "");
      && Allows(owner, "vm.power", s) && Grants(token, "vm.power")
      && !Allows(Restricted(owner, token), "vm.power", s)
  {
    var owner: PermMap, token := map["" := {"vm.*"}], {"vm.power"};
    assert "vm.power"[..2] + ".*" == "vm.*";
    assert Covers("vm.*", "vm.power") && Covers("vm.power", "vm.power");
    assert Grants(owner[""], "vm.power") && Applies("", Scope("global", ""));
    var h := "vm.*";
    forall k | 0 <= k < |h| ensures "vm.power" != h[..k] + ".*" {
      assert |h[..k] + ".*"| == k + 2;
    }
    assert !Covers("vm.power", h);
    assert Kept({"vm.*"}, token) == {};
  }
}

/** Roles with inheritance, permissions, policy extension and the checks made against a subject. */
module Authorization {
  import opened Common
  import opened Identifiers

  type Grants = map<string, set<string>>

  function Get(m: Grants, key: string): set<string> {
    if key in m then m[key] else {}
  }

  // ---- Role closure ----

  ghost predicate IsPath(inherits: Grants, path: seq<string>) {
    forall i :: 0 <= i < |path| - 1 ==> path[i + 1] in Get(inherits, path[i])
  }

  ghost predicate PathTo(inherits: Grants, roles: set<string>, role: string, path: seq<string>) {
    path != [] && path[0] in roles && Last(path) == role && IsPath(inherits, path)
  }

  /** Some chain of inheritance leads from one of the roles to the given one. */
  ghost predicate Reaches(inherits: Grants, roles: set<string>, role: string) {
    exists path :: PathTo(inherits, roles, role, path)
  }

  /** Every role that the graph or the input mentions. */
  ghost function Universe(inherits: Grants, roles: set<string>): set<string> {
    roles + set k, r | k in inherits && r in inherits[k] :: r
  }

  ghost function Closure(inherits: Grants, roles: set<string>): set<string> {
    set r | r in Universe(inherits, roles) && Reaches(inherits, roles, r)
  }

  ghost predicate Closed(inherits: Grants, s: set<string>) {
    forall k :: k in s ==> Get(inherits, k) <= s
  }

  lemma {:induction false} PathStaysInside(inherits: Grants, roles: set<string>, s: set<string>, path: seq<string>, role: string)
    requires roles <= s && Closed(inherits, s) && PathTo(inherits, roles, role, path)
    ensures role in s
  {
    if |path| > 1 {
      var shorter := path[..|path| - 1];
      assert PathTo(inherits, roles, Last(shorter), shorter);
      PathStaysInside(inherits, roles, s, shorter, Last(shorter));
      assert path[|path| - 2 + 1] in Get(inherits, path[|path| - 2]);
    }
  }

  lemma InputIsReached(inherits: Grants, roles: set<string>)
    ensures forall r :: r in roles ==> Reaches(inherits, roles, r)
  {
    forall r | r in roles ensures Reaches(inherits, roles, r) {
      assert PathTo(inherits, roles, r, [r]);
    }
  }

  lemma ReachExtends(inherits: Grants, roles: set<string>, role: string)
    requires Reaches(inherits, roles, role)
    ensures forall r :: r in Get(inherits, role) ==> Reaches(inherits, roles, r)
  {
    var path :| PathTo(inherits, roles, role, path);
    forall r | r in Get(inherits, role) ensures Reaches(inherits, roles, r) {
      assert PathTo(inherits, roles, r, path + [r]);
    }
  }

  /** The closure contains exactly the reachable roles: it is a closed set around the input... */
  lemma ClosureIsClosed(inherits: Grants, roles: set<string>)
    ensures forall r :: r in Closure(inherits, roles) <==> Reaches(inherits, roles, r)
    ensures roles <= Closure(inherits, roles) && Closed(inherits, Closure(inherits, roles))
  {
    var universe := Universe(inherits, roles);
    InputIsReached(inherits, roles);
    forall r | Reaches(inherits, roles, r) ensures r in universe {
      var path :| PathTo(inherits, roles, r, path);
      PathStaysInside(inherits, roles, universe, path, r);
    }
    forall k | k in Closure(inherits, roles) ensures Get(inherits, k) <= Closure(inherits, roles) {
      ReachExtends(inherits, roles, k);
    }
  }

  /** ...and the least such set. */
  lemma ClosureIsLeast(inherits: Grants, roles: set<string>, s: set<string>)
    requires roles <= s && Closed(inherits, s)
    ensures Closure(inherits, roles) <= s
  {
    forall r | r in Closure(inherits, roles) ensures r in s {
      var path :| PathTo(inherits, roles, r, path);
      PathStaysInside(inherits, roles, s, path, r);
    }
  }

  lemma ClosureIdempotent(inherits: Grants, roles: set<string>)
    ensures Closure(inherits, Closure(inherits, roles)) == Closure(inherits, roles)
  {
    ClosureIsClosed(inherits, roles);
    ClosureIsClosed(inherits, Closure(inherits, roles));
    ClosureIsLeast(inherits, Closure(inherits, roles), Closure(inherits, roles));
  }

  /** More inheritance and more roles to start from reach no fewer roles. */
  lemma ClosureMonotone(one: Grants, two: Grants, roles: set<string>, more: set<string>)
    requires roles <= more && forall k :: k in one ==> one[k] <= Get(two, k)
    ensures Closure(one, roles) <= Closure(two, more)
  {
    ClosureIsClosed(two, more);
    ClosureIsLeast(one, roles, Closure(two, more));
  }

  lemma ClosureOfUnion(inherits: Grants, a: set<string>, b: set<string>)
    ensures Closure(inherits, a + b) == Closure(inherits, a) + Closure(inherits, b)
  {
    ClosureMonotone(inherits, inherits, a, a + b);
    ClosureMonotone(inherits, inherits, b, a + b);
    ClosureIsClosed(inherits, a);
    ClosureIsClosed(inherits, b);
    ClosureIsLeast(inherits, a + b, Closure(inherits, a) + Closure(inherits, b));
  }

  /** The elements of a set in some order. */
  method Enumerate(s: set<string>) returns (q: seq<string>)
    ensures ToSet(q) == s
  {
    q := [];
    var rest := s;
    while rest != {}
      invariant rest <= s && ToSet(q) == s - rest
      decreases rest
    {
      var x :| x in rest;
      rest := rest - {x};
      ToSetConcat(q, [x]);
      assert ToSet([x]) == {x};
      q := q + [x];
    }
  }

  /** All that is known or waiting can be reached, and whatever a known role inherits is known or waiting. */
  ghost predicate Worklist(inherits: Grants, from: set<string>, todo: set<string>, resolved: set<string>) {
    && todo + resolved <= Closure(inherits, from) && from <= todo + resolved
    && forall k :: k in resolved ==> Get(inherits, k) <= todo + resolved
  }

  /** Dropping a role that is known already. */
  lemma WorklistDrops(inherits: Grants, from: set<string>, rest: set<string>, resolved: set<string>, role: string)
    requires role in resolved && Worklist(inherits, from, rest + {role}, resolved)
    ensures Worklist(inherits, from, rest, resolved)
  {
    assert rest + {role} + resolved == rest + resolved;
  }

  /** Moving a role to the known ones and putting what it inherits in its place. */
  lemma WorklistMoves(inherits: Grants, from: set<string>, rest: set<string>, resolved: set<string>, role: string)
    requires Worklist(inherits, from, rest + {role}, resolved)
    ensures Worklist(inherits, from, rest + Get(inherits, role), resolved + {role})
  {
    ClosureIsClosed(inherits, from);
    assert Get(inherits, role) <= Closure(inherits, from);
    forall k | k in resolved + {role} ensures Get(inherits, k) <= rest + Get(inherits, role) + (resolved + {role}) {
    }
  }

  /** The worklist: pops a pending role, and appends what it inherits in whatever order. It ends on cyclic graphs too,
      and finds exactly the reachable roles. */
  method ExpandRoles(inherits: Grants, roles: set<string>) returns (resolved: set<string>)
    ensures resolved == Closure(inherits, NormalizeSet(roles))
  {
    var from := NormalizeSet(roles);
    var pending := Enumerate(from);
    resolved := {};
    ClosureIsClosed(inherits, from);
    while pending != []
      invariant Worklist(inherits, from, ToSet(pending), resolved)
      decreases Closure(inherits, from) - resolved, |pending|
    {
      var role := Last(pending);
      var rest := pending[..|pending| - 1];
      ToSetConcat(rest, [role]);
      assert pending == rest + [role] && ToSet([role]) == {role};
      pending := rest;
      if role in resolved {
        WorklistDrops(inherits, from, ToSet(rest), resolved, role);
      } else {
        WorklistMoves(inherits, from, ToSet(rest), resolved, role);
        assert role in Closure(inherits, from) - resolved;
        resolved := resolved + {role};
        var inherited := Enumerate(Get(inherits, role));
        ToSetConcat(rest, inherited);
        pending := rest + inherited;
      }
    }
    ClosureIsLeast(inherits, from, resolved);
  }

  // ---- Policies and subjects ----

  datatype Policy = Policy(
    rolePermissions: Grants, roleInheritance: Grants,
    defaultRole: string, adminRole: string, superuserRole: string, wildcard: string)

  /** What the policy's constructor leaves behind. */
  predicate Normalized(p: Policy) {
    && NormalMapping(p.rolePermissions) && NormalMapping(p.roleInheritance)
    && Normalize(p.defaultRole) == p.defaultRole && Normalize(p.adminRole) == p.adminRole
    && Normalize(p.superuserRole) == p.superuserRole && Normalize(p.wildcard) == p.wildcard
  }

  /** base, with the entries of extra for the given keys added. */
  function MergedOn(base: Grants, extra: Grants, keys: set<string>): Grants {
    map k | k in base.Keys + keys :: Get(base, k) + if k in keys then Get(extra, k) else {}
  }

  function Merged(base: Grants, extra: Grants): Grants {
    MergedOn(base, extra, extra.Keys)
  }

  lemma MergedOnNothing(base: Grants, extra: Grants)
    ensures MergedOn(base, extra, {}) == base
  {
    var r := MergedOn(base, extra, {});
    assert r.Keys == base.Keys;
    forall k | k in base ensures r[k] == base[k] {
      assert base[k] + {} == base[k];
    }
  }

  lemma MergedOnAdds(base: Grants, extra: Grants, keys: set<string>, role: string)
    requires role in extra && role !in keys
    ensures var m := MergedOn(base, extra, keys);
      m[role := Get(m, role) + extra[role]] == MergedOn(base, extra, keys + {role})
  {
    var m := MergedOn(base, extra, keys);
    var r := MergedOn(base, extra, keys + {role});
    assert r.Keys == m.Keys + {role};
    assert Get(base, role) + {} == Get(base, role);
  }

  lemma MergedGets(base: Grants, extra: Grants, k: string)
    ensures Get(Merged(base, extra), k) == Get(base, k) + Get(extra, k)
  {
  }

  function Extended(p: Policy, permissions: seq<(string, set<string>)>, inheritance: seq<(string, set<string>)>): Policy {
    p.(rolePermissions := Merged(p.rolePermissions, NormalizeMapping(permissions)),
       roleInheritance := Merged(p.roleInheritance, NormalizeMapping(inheritance)))
  }

  lemma MergedNormal(base: Grants, extra: Grants)
    requires NormalMapping(base) && NormalMapping(extra)
    ensures NormalMapping(Merged(base, extra))
  {
    forall k | k in Merged(base, extra) ensures k != "" && Normalize(k) == k && Normal(Merged(base, extra)[k]) {
      MergedGets(base, extra, k);
      assert Normal(Get(base, k)) && Normal(Get(extra, k));
    }
  }

  method MergeGrants(base: Grants, extra: Grants) returns (merged: Grants)
    ensures merged == Merged(base, extra)
  {
    merged := base;
    var rest := extra.Keys;
    assert extra.Keys - rest == {};
    MergedOnNothing(base, extra);
    while rest != {}
      invariant rest <= extra.Keys && merged == MergedOn(base, extra, extra.Keys - rest)
      decreases rest
    {
      var role :| role in rest;
      MergedOnAdds(base, extra, extra.Keys - rest, role);
      assert extra.Keys - (rest - {role}) == extra.Keys - rest + {role};
      rest := rest - {role};
      merged := merged[role := Get(merged, role) + extra[role]];
    }
  }

  method Extend(p: Policy, permissions: seq<(string, set<string>)>, inheritance: seq<(string, set<string>)>)
    returns (r: Policy)
    ensures r == Extended(p, permissions, inheritance)
  {
    var rolePermissions := MergeGrants(p.rolePermissions, NormalizeMapping(permissions));
    var roleInheritance := MergeGrants(p.roleInheritance, NormalizeMapping(inheritance));
    r := Policy(rolePermissions, roleInheritance, p.defaultRole, p.adminRole, p.superuserRole, p.wildcard);
  }

  /** The extended policy passes through the constructor unchanged, so its normalisation can be left out. */
  lemma ExtendedIsNormalized(p: Policy, permissions: seq<(string, set<string>)>, inheritance: seq<(string, set<string>)>)
    requires Normalized(p)
    ensures Normalized(Extended(p, permissions, inheritance))
  {
    NormalizeMappingNormal(permissions);
    NormalizeMappingNormal(inheritance);
    MergedNormal(p.rolePermissions, NormalizeMapping(permissions));
    MergedNormal(p.roleInheritance, NormalizeMapping(inheritance));
  }

  /** The claims of a user: what its role, roles, permissions and scopes entries list, scopes already split in words. */
  datatype User = User(role: set<string>, roles: set<string>, permissions: set<string>, scopes: set<string>, isSuperuser: bool)

  datatype Subject = Subject(roles: set<string>, permissions: set<string>, isSuperuser: bool)

  ghost function PermissionsFor(p: Policy, roles: set<string>): set<string> {
    set r, q | r in Closure(p.roleInheritance, NormalizeSet(roles)) && q in Get(p.rolePermissions, r) :: q
  }

  method PermissionsForRoles(p: Policy, roles: set<string>) returns (permissions: set<string>)
    ensures permissions == PermissionsFor(p, roles)
  {
    permissions := {};
    var expanded := ExpandRoles(p.roleInheritance, roles);
    var rest := expanded;
    while rest != {}
      invariant rest <= expanded
      invariant permissions == set r, q | r in expanded - rest && q in Get(p.rolePermissions, r) :: q
      decreases rest
    {
      var role :| role in rest;
      rest := rest - {role};
      permissions := permissions + Get(p.rolePermissions, role);
    }
  }

  function ClaimedRoles(p: Policy, user: User): set<string> {
    NormalizeSet(user.role) + NormalizeSet(user.roles)
    + (if p.defaultRole != "" then {p.defaultRole} else {})
    + (if user.isSuperuser then {p.adminRole, p.superuserRole} else {})
  }

  /** The subject the policy means: every reachable role, and what these grant beside what the user claims. */
  ghost function SubjectOf(p: Policy, user: User): Subject {
    var roles := Closure(p.roleInheritance, NormalizeSet(ClaimedRoles(p, user)));
    var granted := set r, q | r in roles && q in Get(p.rolePermissions, r) :: q;
    Subject(roles, granted + NormalizeSet(user.permissions) + NormalizeSet(user.scopes), user.isSuperuser)
  }

  /** Everything reachable from normal names through a normal graph is normal. */
  lemma ClosureNormal(inherits: Grants, roles: set<string>)
    requires NormalMapping(inherits) && Normal(roles)
    ensures Normal(Closure(inherits, roles))
  {
    assert forall r :: r in Universe(inherits, roles) ==> r != "" && Normalize(r) == r;
  }

  /** Expanding the roles a second time, on the way to their permissions, adds nothing. */
  lemma SecondExpansionAddsNothing(p: Policy, roles: set<string>)
    requires Normalized(p)
    ensures var expanded := Closure(p.roleInheritance, NormalizeSet(roles));
      Closure(p.roleInheritance, NormalizeSet(expanded)) == expanded && PermissionsFor(p, expanded) == PermissionsFor(p, roles)
  {
    var expanded := Closure(p.roleInheritance, NormalizeSet(roles));
    NormalizeSetNormal(roles);
    ClosureNormal(p.roleInheritance, NormalizeSet(roles));
    NormalIsFixed(expanded);
    ClosureIdempotent(p.roleInheritance, NormalizeSet(roles));
  }

  // ---- Who has which role ----

  predicate Claims(values: set<string>, name: string) {
    name != "" && exists v :: v in values && Normalize(v) == name
  }

  /** The roles a user has before inheritance: claimed ones, the default, and for superusers the admin and superuser roles. */
  predicate StartsFrom(p: Policy, user: User, role: string) {
    && role != ""
    && (|| Claims(user.role, role) || Claims(user.roles, role) || role == p.defaultRole
        || (user.isSuperuser && (role == p.adminRole || role == p.superuserRole)))
  }

  ghost predicate LeadsTo(p: Policy, user: User, path: seq<string>, role: string) {
    path != [] && StartsFrom(p, user, path[0]) && Last(path) == role && IsPath(p.roleInheritance, path)
  }

  ghost predicate HasRole(p: Policy, user: User, role: string) {
    exists path :: LeadsTo(p, user, path, role)
  }

  ghost predicate MayDo(p: Policy, user: User, permission: string) {
    || (exists role :: HasRole(p, user, role) && permission in Get(p.rolePermissions, role))
    || Claims(user.permissions, permission) || Claims(user.scopes, permission)
  }

  lemma NormalizeSetClaims(values: set<string>)
    ensures forall name :: name in NormalizeSet(values) <==> Claims(values, name)
  {
  }

  lemma ClaimedIff(p: Policy, user: User, role: string)
    requires Normalized(p)
    ensures role in NormalizeSet(ClaimedRoles(p, user)) <==> StartsFrom(p, user, role)
  {
    var claimed := ClaimedRoles(p, user);
    NormalizeSetClaims(user.role);
    NormalizeSetClaims(user.roles);
    NormalizeSetClaims(claimed);
    NormalizeSetNormal(user.role);
    NormalizeSetNormal(user.roles);
    assert forall v :: v in claimed ==> Normalize(v) == v;
  }

  /** The subject has a role exactly when a chain of inheritance leads to it from one the user starts from. */
  lemma RoleIff(p: Policy, user: User, role: string)
    requires Normalized(p)
    ensures role in SubjectOf(p, user).roles <==> HasRole(p, user, role)
  {
    var claimed := NormalizeSet(ClaimedRoles(p, user));
    ClosureIsClosed(p.roleInheritance, claimed);
    if Reaches(p.roleInheritance, claimed, role) {
      var path :| PathTo(p.roleInheritance, claimed, role, path);
      ClaimedIff(p, user, path[0]);
      assert LeadsTo(p, user, path, role);
    }
    if HasRole(p, user, role) {
      var path :| LeadsTo(p, user, path, role);
      ClaimedIff(p, user, path[0]);
      assert PathTo(p.roleInheritance, claimed, role, path);
    }
  }

  /** The subject has a permission exactly when such a role grants it or the user claims it. */
  lemma PermissionIff(p: Policy, user: User, permission: string)
    requires Normalized(p)
    ensures permission in SubjectOf(p, user).permissions <==> MayDo(p, user, permission)
  {
    NormalizeSetClaims(user.permissions);
    NormalizeSetClaims(user.scopes);
    forall role ensures role in SubjectOf(p, user).roles <==> HasRole(p, user, role) {
      RoleIff(p, user, role);
    }
  }

  /** A user who is no superuser has the admin role only if a chain leads to it from a claim or the default role. */
  lemma OrdinaryAdminsAreClaimed(p: Policy, user: User)
    requires Normalized(p) && !user.isSuperuser && p.adminRole in SubjectOf(p, user).roles
    ensures exists path ::
              && path != [] && Last(path) == p.adminRole && IsPath(p.roleInheritance, path)
              && (Claims(user.role, path[0]) || Claims(user.roles, path[0]) || path[0] == p.defaultRole)
  {
    RoleIff(p, user, p.adminRole);
    var path :| LeadsTo(p, user, path, p.adminRole);
  }

  method BuildSubject(p: Policy, user: User) returns (subject: Subject)
    requires Normalized(p)
    ensures subject == SubjectOf(p, user) && subject.isSuperuser == user.isSuperuser
    ensures forall role :: role in subject.roles <==> HasRole(p, user, role)
    ensures forall permission :: permission in subject.permissions <==> MayDo(p, user, permission)
  {
    forall role ensures role in SubjectOf(p, user).roles <==> HasRole(p, user, role) {
      RoleIff(p, user, role);
    }
    forall permission ensures permission in SubjectOf(p, user).permissions <==> MayDo(p, user, permission) {
      PermissionIff(p, user, permission);
    }
    var roles := NormalizeSet(user.role);
    roles := roles + NormalizeSet(user.roles);
    if p.defaultRole != "" {
      roles := roles + {p.defaultRole};
    }
    if user.isSuperuser {
      roles := roles + {p.adminRole};
      roles := roles + {p.superuserRole};
    }
    assert roles == ClaimedRoles(p, user);
    var expanded := ExpandRoles(p.roleInheritance, roles);
    SecondExpansionAddsNothing(p, roles);
    var permissions := PermissionsForRoles(p, expanded);
    permissions := permissions + NormalizeSet(user.permissions);
    permissions := permissions + NormalizeSet(user.scopes);
    subject := Subject(expanded, permissions, user.isSuperuser);
  }

  // ---- Checks ----

  datatype Refusal = NothingRequired | Missing(names: set<string>) | NoneOf(names: set<string>)

  predicate HasPermission(p: Policy, s: Subject, permission: string) {
    Normalize(permission) in s.permissions || p.wildcard in s.permissions
  }

  function EnsureRoles(s: Subject, required: set<string>, requireAll: bool): Result<Subject, Refusal> {
    var names := NormalizeSet(required);
    if names == {} then Err(NothingRequired)
    else if requireAll then
      var missing := names - s.roles;
      if missing != {} then Err(Missing(missing)) else Ok(s)
    else if s.roles * names == {} then Err(NoneOf(names))
    else Ok(s)
  }

  function EnsurePermissions(p: Policy, s: Subject, required: set<string>, requireAll: bool): Result<Subject, Refusal> {
    var names := NormalizeSet(required);
    if names == {} then Err(NothingRequired)
    else if requireAll then
      var missing := set n | n in names && n !in s.permissions && p.wildcard !in s.permissions;
      if missing != {} then Err(Missing(missing)) else Ok(s)
    else if exists n :: n in names && (n in s.permissions || p.wildcard in s.permissions) then Ok(s)
    else Err(NoneOf(names))
  }

  /** The bulk check agrees with the single one, name by name, in both modes. */
  lemma EnsurePermissionsPointwise(p: Policy, s: Subject, required: set<string>)
    ensures EnsurePermissions(p, s, required, true).Ok? <==>
      (NormalizeSet(required) != {} && forall q :: q in required && Normalize(q) != "" ==> HasPermission(p, s, q))
    ensures EnsurePermissions(p, s, required, false).Ok? <==>
      exists q :: q in required && Normalize(q) != "" && HasPermission(p, s, q)
  {
    var names := NormalizeSet(required);
    forall q | q in required && Normalize(q) != "" ensures Normalize(q) in names {
    }
    var missing := set n | n in names && n !in s.permissions && p.wildcard !in s.permissions;
    assert EnsurePermissions(p, s, required, true).Ok? <==> names != {} && missing == {};
    if missing != {} {
      var n :| n in missing;
      var q :| q in required && Normalize(q) == n;
      assert !HasPermission(p, s, q);
    }
    if q :| q in required && Normalize(q) != "" && !HasPermission(p, s, q) {
      assert Normalize(q) in missing;
    }
    if EnsurePermissions(p, s, required, false).Ok? {
      var n :| n in names && (n in s.permissions || p.wildcard in s.permissions);
      var q :| q in required && Normalize(q) == n;
      assert HasPermission(p, s, q);
    }
  }

  /** Roles are checked by normalized name, all of them or any; a refusal tells which names were missing. */
  lemma EnsureRolesIff(s: Subject, required: set<string>, requireAll: bool)
    ensures match EnsureRoles(s, required, requireAll)
      case Ok(subject) =>
        && subject == s && (exists n :: Claims(required, n))
        && if requireAll then forall n :: Claims(required, n) ==> n in s.roles else exists n :: Claims(required, n) && n in s.roles
      case Err(NothingRequired) => forall n :: !Claims(required, n)
      case Err(Missing(names)) =>
        requireAll && names != {} && forall n :: n in names <==> Claims(required, n) && n !in s.roles
      case Err(NoneOf(names)) =>
        !requireAll && names != {} && forall n :: (n in names <==> Claims(required, n)) && (n in names ==> n !in s.roles)
  {
    NormalizeSetClaims(required);
    var names := NormalizeSet(required);
    if names != {} {
      var n :| n in names;
      assert Claims(required, n);
    }
    assert forall n :: n in names && n in s.roles ==> n in s.roles * names;
    if s.roles * names != {} {
      var n :| n in s.roles * names;
      assert Claims(required, n) && n in s.roles;
    }
    assert forall n :: n in names && n !in s.roles ==> n in names - s.roles;
  }

  /** A single permission is held by name, or by the policy's wildcard. */
  lemma HasPermissionIff(p: Policy, user: User, permission: string)
    requires Normalized(p)
    ensures HasPermission(p, SubjectOf(p, user), permission) <==>
      MayDo(p, user, Normalize(permission)) || MayDo(p, user, p.wildcard)
  {
    PermissionIff(p, user, Normalize(permission));
    PermissionIff(p, user, p.wildcard);
  }

  /** Permissions are checked the same way, and any is held with the policy's wildcard. */
  lemma EnsurePermissionsIff(p: Policy, s: Subject, required: set<string>, requireAll: bool)
    ensures match EnsurePermissions(p, s, required, requireAll)
      case Ok(subject) =>
        && subject == s && (exists n :: Claims(required, n))
        && if requireAll then forall n :: Claims(required, n) ==> n in s.permissions || p.wildcard in s.permissions
           else exists n :: Claims(required, n) && (n in s.permissions || p.wildcard in s.permissions)
      case Err(NothingRequired) => forall n :: !Claims(required, n)
      case Err(Missing(names)) =>
        && requireAll && names != {} && p.wildcard !in s.permissions
        && forall n :: n in names <==> Claims(required, n) && n !in s.permissions
      case Err(NoneOf(names)) =>
        && !requireAll && names != {} && p.wildcard !in s.permissions
        && forall n :: (n in names <==> Claims(required, n)) && (n in names ==> n !in s.permissions)
  {
    NormalizeSetClaims(required);
    var names := NormalizeSet(required);
    if names != {} {
      var n :| n in names;
      assert Claims(required, n);
    }
    var missing := set n | n in names && n !in s.permissions && p.wildcard !in s.permissions;
    assert forall n :: n in names && n !in s.permissions && p.wildcard !in s.permissions ==> n in missing;
    if missing != {} {
      var n :| n in missing;
    }
    if n :| n in names && (n in s.permissions || p.wildcard in s.permissions) {
      assert Claims(required, n);
    }
  }

  /** The last entry for a role lists it. */
  ghost predicate Lists(entries: seq<(string, set<string>)>, role: string, name: string) {
    role != "" && exists i :: LastEntry(entries, role, i) && Claims(entries[i].1, name)
  }

  /** An extended policy grants and inherits what the policy did and what the extension lists, and nothing else. */
  lemma ExtendedIff(p: Policy, permissions: seq<(string, set<string>)>, inheritance: seq<(string, set<string>)>,
                    role: string, name: string)
    ensures var q := Extended(p, permissions, inheritance);
      && (name in Get(q.rolePermissions, role) <==> name in Get(p.rolePermissions, role) || Lists(permissions, role, name))
      && (name in Get(q.roleInheritance, role) <==> name in Get(p.roleInheritance, role) || Lists(inheritance, role, name))
      && q.defaultRole == p.defaultRole && q.adminRole == p.adminRole
      && q.superuserRole == p.superuserRole && q.wildcard == p.wildcard
  {
    MergedGets(p.rolePermissions, NormalizeMapping(permissions), role);
    MergedGets(p.roleInheritance, NormalizeMapping(inheritance), role);
    ListsIff(permissions, role, name);
    ListsIff(inheritance, role, name);
  }

  lemma ListsIff(entries: seq<(string, set<string>)>, role: string, name: string)
    ensures name in Get(NormalizeMapping(entries), role) <==> Lists(entries, role, name)
  {
    NormalizeMappingIs(entries, role);
    if i :| LastEntry(entries, role, i) {
      NormalizeSetClaims(entries[i].1);
      assert forall j :: LastEntry(entries, role, j) ==> j == i;
    }
  }

  /** Whatever a policy is extended with, no user loses a role or a permission. */
  lemma ExtensionIsMonotone(p: Policy, permissions: seq<(string, set<string>)>, inheritance: seq<(string, set<string>)>, user: User)
    ensures var q := Extended(p, permissions, inheritance);
      SubjectOf(p, user).roles <= SubjectOf(q, user).roles && SubjectOf(p, user).permissions <= SubjectOf(q, user).permissions
  {
    var q := Extended(p, permissions, inheritance);
    var claimed := NormalizeSet(ClaimedRoles(p, user));
    assert ClaimedRoles(q, user) == ClaimedRoles(p, user);
    forall k ensures Get(p.roleInheritance, k) <= Get(q.roleInheritance, k)
             ensures Get(p.rolePermissions, k) <= Get(q.rolePermissions, k)
    {
      MergedGets(p.roleInheritance, NormalizeMapping(inheritance), k);
      MergedGets(p.rolePermissions, NormalizeMapping(permissions), k);
    }
    assert forall k :: k in p.roleInheritance ==> p.roleInheritance[k] == Get(p.roleInheritance, k);
    ClosureMonotone(p.roleInheritance, q.roleInheritance, claimed, claimed);
  }

  /** Every check that passed under a policy passes under each of its extensions. */
  lemma ExtensionKeepsChecks(p: Policy, permissions: seq<(string, set<string>)>, inheritance: seq<(string, set<string>)>,
                             user: User, required: set<string>, requireAll: bool, permission: string)
    ensures var q := Extended(p, permissions, inheritance);
      && (HasPermission(p, SubjectOf(p, user), permission) ==> HasPermission(q, SubjectOf(q, user), permission))
      && (EnsureRoles(SubjectOf(p, user), required, requireAll).Ok? ==>
            EnsureRoles(SubjectOf(q, user), required, requireAll).Ok?)
      && (EnsurePermissions(p, SubjectOf(p, user), required, requireAll).Ok? ==>
            EnsurePermissions(q, SubjectOf(q, user), required, requireAll).Ok?)
  {
    ExtensionIsMonotone(p, permissions, inheritance, user);
    var q := Extended(p, permissions, inheritance);
    EnsurePermissionsPointwise(p, SubjectOf(p, user), required);
    EnsurePermissionsPointwise(q, SubjectOf(q, user), required);
    var before, after := SubjectOf(p, user).roles, SubjectOf(q, user).roles;
    assert before * NormalizeSet(required) <= after * NormalizeSet(required);
    assert NormalizeSet(required) - after <= NormalizeSet(required) - before;
  }
}

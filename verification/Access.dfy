/** The reconciliation of roles, views and permissions with what the code
    declares (cornflow/commands/roles.py, views.py, permissions.py, auxiliar.py,
    run in that order by access.py). */
module Access {
  import opened Wrappers

  // ---- what the code declares ----

  const VIEWER_ROLE: nat := 1
  const PLANNER_ROLE: nat := 2
  const ADMIN_ROLE: nat := 3
  const SERVICE_ROLE: nat := 4
  const DUMMY_ROLE: nat := 0
  const GET_ACTION: nat := 1
  const DELETE_ACTION: nat := 5

  const ALL_DEFAULT_ROLES: set<nat> := {VIEWER_ROLE, PLANNER_ROLE, ADMIN_ROLE, SERVICE_ROLE}

  /** Endpoint, url rule, description and ROLES_WITH_ACCESS of a resource. */
  datatype Resource = Resource(endpoint: string, urls: string, description: string, roles: seq<nat>)

  datatype Extra = Extra(role: nat, action: nat, endpoint: string)

  /** The resources, EXTRA_PERMISSION_ASSIGNATION and CUSTOM_ROLES_ACTIONS. */
  datatype Code = Code(resources: seq<Resource>, extra: seq<Extra>, customActions: map<nat, seq<nat>>)

  datatype Duty = Duty(role: nat, action: nat)

  /** BASE_PERMISSION_ASSIGNATION: viewers read, the other three do everything. */
  const BASE_PERMISSION_ASSIGNATION: set<Duty> :=
    {Duty(VIEWER_ROLE, GET_ACTION)}
    + (set role, action | role in {PLANNER_ROLE, ADMIN_ROLE, SERVICE_ROLE} && GET_ACTION <= action <= DELETE_ACTION
         :: Duty(role, action))

  /** ROLES_MAP, and the name a custom role is given. */
  datatype RoleName = Planned(name: string) | Custom(id: nat)

  function NameOfRole(id: nat): RoleName {
    if id == DUMMY_ROLE then Planned("dummy")
    else if id == PLANNER_ROLE then Planned("planner")
    else if id == VIEWER_ROLE then Planned("viewer")
    else if id == ADMIN_ROLE then Planned("admin")
    else if id == SERVICE_ROLE then Planned("service")
    else Custom(id)
  }

  /** The planned names by id; any other role is named after its id. */
  predicate IsNameOf(id: nat, name: RoleName) {
    && (name == Planned("dummy") <==> id == 0) && (name == Planned("viewer") <==> id == 1)
    && (name == Planned("planner") <==> id == 2) && (name == Planned("admin") <==> id == 3)
    && (name == Planned("service") <==> id == 4) && (name == Custom(id) <==> id > 4)
  }

  predicate HasEndpoint(resources: seq<Resource>, endpoint: string) {
    exists i :: 0 <= i < |resources| && resources[i].endpoint == endpoint
  }

  ghost predicate DistinctEndpoints(resources: seq<Resource>) {
    forall i, j :: 0 <= i < j < |resources| ==> resources[i].endpoint != resources[j].endpoint
  }

  /** A dict keyed by endpoint keeps the last resource of each. */
  function Lookup(resources: seq<Resource>, endpoint: string): Option<Resource> {
    if resources == [] then None
    else if resources[|resources| - 1].endpoint == endpoint then Some(resources[|resources| - 1])
    else Lookup(resources[..|resources| - 1], endpoint)
  }

  lemma {:induction false} LookupFinds(resources: seq<Resource>, endpoint: string)
    ensures Lookup(resources, endpoint).Some? <==> HasEndpoint(resources, endpoint)
    ensures Lookup(resources, endpoint).Some? ==>
      Lookup(resources, endpoint).value in resources && Lookup(resources, endpoint).value.endpoint == endpoint
  {
    if resources != [] {
      var front := resources[..|resources| - 1];
      LookupFinds(front, endpoint);
      assert resources == front + [resources[|resources| - 1]];
    }
  }

  /** `get_all_resources`, as the set of its values' roles. */
  function RolesWithAccess(resources: seq<Resource>): set<nat> {
    set r, role | r in resources && role in r.roles && Lookup(resources, r.endpoint) == Some(r) :: role
  }

  function RolesInExtra(extra: seq<Extra>): set<nat> {
    set e | e in extra :: e.role
  }

  function ReferencedRoles(code: Code): set<nat> {
    RolesWithAccess(code.resources) + RolesInExtra(code.extra) + ALL_DEFAULT_ROLES
  }

  function CustomRoles(code: Code): set<nat> {
    RolesWithAccess(code.resources) - ALL_DEFAULT_ROLES
  }

  /** `get_base_permissions`: a custom role whose actions are not declared is an
      error. */
  function BasePermissions(code: Code): Result<set<Duty>, set<nat>> {
    var undefined := CustomRoles(code) - code.customActions.Keys;
    if undefined != {} then Failure(undefined)
    else Success(BASE_PERMISSION_ASSIGNATION +
                 set role, action | role in CustomRoles(code) && action in code.customActions[role]
                   :: Duty(role, action))
  }

  // ---- the reference: who may do what where ----

  ghost predicate Assigned(code: Code, role: nat, action: nat) {
    || Duty(role, action) in BASE_PERMISSION_ASSIGNATION
    || (role !in ALL_DEFAULT_ROLES && role in code.customActions && action in code.customActions[role])
  }

  ghost predicate AllowedBy(code: Code, r: Resource, role: nat, action: nat) {
    role in r.roles && Assigned(code, role, action)
  }

  ghost predicate Allowed(code: Code, role: nat, action: nat, endpoint: string) {
    || (exists i :: 0 <= i < |code.resources| && code.resources[i].endpoint == endpoint
                    && AllowedBy(code, code.resources[i], role, action))
    || (Extra(role, action, endpoint) in code.extra && HasEndpoint(code.resources, endpoint))
  }

  // ---- the database ----

  datatype Role = Role(name: RoleName, disabled: bool)
  datatype View = View(name: string, urlRule: string, description: string)
  datatype Grant = Grant(role: nat, action: nat, view: nat)
  datatype Permission = Permission(grant: Grant, disabled: bool)

  datatype Tables = Tables(
    actions: set<nat>,
    roles: map<nat, Role>,
    views: map<nat, View>,
    permissions: map<nat, Permission>)
  {
    /** The unique and foreign-key constraints. */
    ghost predicate Valid() {
      && (forall v, w :: v in views && w in views && views[v].name == views[w].name ==> v == w)
      && (forall p, q :: p in permissions && q in permissions && permissions[p].grant == permissions[q].grant ==>
        p == q)
      && (forall p :: p in permissions ==> Refers(permissions[p].grant))
    }

    predicate Refers(g: Grant) {
      g.role in roles && g.action in actions && g.view in views
    }

    /** Some row, disabled or not, holds the grant. */
    predicate Holds(g: Grant) {
      exists p :: p in permissions && permissions[p].grant == g
    }

    predicate Live(g: Grant) {
      exists p :: p in permissions && permissions[p] == Permission(g, false)
    }

    predicate Named(name: string) {
      exists v :: v in views && views[v].name == name
    }
  }

  /** A view as the code declares it. */
  predicate AgreesWith(resources: seq<Resource>, v: View) {
    exists i :: 0 <= i < |resources| && v == View(resources[i].endpoint, resources[i].urls, resources[i].description)
  }

  ghost predicate ViewsAgree(t: Tables, code: Code) {
    && (forall v :: v in t.views ==> AgreesWith(code.resources, t.views[v]))
    && (forall i :: 0 <= i < |code.resources| ==> t.Named(code.resources[i].endpoint))
  }

  ghost predicate RolesLive(t: Tables, code: Code) {
    forall role :: role in ReferencedRoles(code) ==> role in t.roles && !t.roles[role].disabled
  }

  ghost predicate GrantAllowed(t: Tables, code: Code, g: Grant) {
    g.view in t.views && Allowed(code, g.role, g.action, t.views[g.view].name)
  }

  /** The tables say what the code says. */
  ghost predicate Settled(t: Tables, code: Code) {
    && RolesLive(t, code) && ViewsAgree(t, code)
    && forall g {:trigger GrantAllowed(t, code, g)} :: t.Live(g) <==> GrantAllowed(t, code, g)
  }

  /** No disabled row stands in the way: no role the code refers to, no
      permission of a view to delete, no permission the code grants. */
  ghost predicate Unblocked(t: Tables, code: Code) {
    RolesUnblocked(t, code) && ViewsUnblocked(t, code) && GrantsUnblocked(t, code)
  }

  ghost predicate GrantsUnblocked(t: Tables, code: Code) {
    forall p :: p in t.permissions && t.permissions[p].disabled ==> !GrantAllowed(t, code, t.permissions[p].grant)
  }

  ghost predicate RolesUnblocked(t: Tables, code: Code) {
    forall role :: role in ReferencedRoles(code) && role in t.roles ==> !t.roles[role].disabled
  }

  /** The code no longer declares the view. */
  predicate IsStale(resources: seq<Resource>, v: View) {
    !HasEndpoint(resources, v.name)
  }

  ghost predicate ViewsUnblocked(t: Tables, code: Code) {
    forall p :: p in t.permissions && t.permissions[p].disabled && t.permissions[p].grant.view in t.views
           ==> !IsStale(code.resources, t.views[t.permissions[p].grant.view])
  }

  /** The auto-incremented id after the sequence is set to the greatest in use. */
  function NextId(ids: set<nat>): (id: nat)
    ensures forall x :: x in ids ==> x < id
  {
    if ids == {} then 1 else
      var top := Max(ids);
      top + 1
  }

  function Max(ids: set<nat>): (top: nat)
    requires ids != {}
    ensures top in ids && forall x :: x in ids ==> x <= top
  {
    MaxExists(ids);
    var top :| top in ids && forall x :: x in ids ==> x <= top;
    top
  }

  lemma {:induction false} MaxExists(ids: set<nat>)
    requires ids != {}
    ensures exists top :: top in ids && forall x :: x in ids ==> x <= top
    decreases |ids|
  {
    var y :| y in ids;
    var rest := ids - {y};
    if rest != {} {
      MaxExists(rest);
      var top :| top in rest && forall x :: x in rest ==> x <= top;
      var most := if top < y then y else top;
      assert most in ids && forall x :: x in ids ==> x <= most by {
        assert forall x :: x in ids ==> x == y || x in rest;
      }
    } else {
      assert ids == {y};
    }
  }
}

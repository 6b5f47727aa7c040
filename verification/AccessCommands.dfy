/** The tables of the access rules and the commands that reconcile them. */
module AccessCommands {
  import opened Access
  import opened Wrappers

  datatype Refusal = UndefinedRoles(roles: set<nat>) | NoSuchView(endpoint: string) | NotCommitted

  /** The views after the inserts and updates of one run. */
  ghost predicate Registered(before: map<nat, View>, after: map<nat, View>, resources: seq<Resource>) {
    && (forall v :: v in before ==> v in after && after[v].name == before[v].name)
    && (forall v :: v in before && IsStale(resources, before[v]) ==> after[v] == before[v])
    && (forall v :: v in after && v !in before ==> AgreesWith(resources, after[v]))
    && (forall v :: v in before && !IsStale(resources, before[v]) ==> AgreesWith(resources, after[v]))
    && UniqueNames(after)
    && forall i :: 0 <= i < |resources| ==> HasName(after, resources[i].endpoint)
  }

  ghost predicate UniqueNames(views: map<nat, View>) {
    forall v, w :: v in views && w in views && views[v].name == views[w].name ==> v == w
  }

  predicate HasName(views: map<nat, View>, name: string) {
    exists v :: v in views && views[v].name == name
  }

  /** `get_views_to_register` and the insert of its views. */
  method InsertViews(before: map<nat, View>, resources: seq<Resource>) returns (after: map<nat, View>)
    requires UniqueNames(before) && DistinctEndpoints(resources)
    ensures forall v :: v in before ==> v in after && after[v] == before[v]
    ensures forall v :: v in after && v !in before ==> AgreesWith(resources, after[v])
    ensures forall v :: v in after && v !in before ==> !HasName(before, after[v].name)
    ensures UniqueNames(after)
    ensures forall i :: 0 <= i < |resources| ==> HasName(after, resources[i].endpoint)
  {
    after := before;
    hide HasName, UniqueNames, AgreesWith;
    for k := 0 to |resources|
      invariant forall v :: v in before ==> v in after && after[v] == before[v]
      invariant forall v :: v in after && v !in before ==> IsInserted(before, resources, k, after[v])
      invariant UniqueNames(after)
      invariant forall i :: 0 <= i < k ==> HasName(after, resources[i].endpoint)
    {
      var r := resources[k];
      if !HasName(before, r.endpoint) {
        var id := NextId(after.Keys);
        ViewInserted(before, after, resources, k, id);
        after := after[id := View(r.endpoint, r.urls, r.description)];
      } else {
        StillNamed(before, after, r.endpoint);
      }
    }
  }

  /** A view inserted for one of the first k resources. */
  ghost predicate IsInserted(before: map<nat, View>, resources: seq<Resource>, k: nat, v: View)
    requires k <= |resources|
  {
    AgreesWith(resources, v) && !HasName(before, v.name) && exists i :: 0 <= i < k && v.name == resources[i].endpoint
  }

  lemma StillNamed(before: map<nat, View>, after: map<nat, View>, name: string)
    requires forall v :: v in before ==> v in after && after[v] == before[v]
    requires HasName(before, name)
    ensures HasName(after, name)
  {
    var v :| v in before && before[v].name == name;
    assert v in after && after[v].name == name;
  }

  lemma ViewInserted(before: map<nat, View>, after: map<nat, View>, resources: seq<Resource>, k: nat, id: nat)
    requires DistinctEndpoints(resources) && k < |resources| && !HasName(before, resources[k].endpoint)
    requires id !in after && UniqueNames(after)
    requires forall v :: v in before ==> v in after && after[v] == before[v]
    requires forall v :: v in after && v !in before ==> IsInserted(before, resources, k, after[v])
    ensures var more := after[id := View(resources[k].endpoint, resources[k].urls, resources[k].description)];
      && UniqueNames(more) && IsInserted(before, resources, k + 1, more[id])
      && (forall v :: v in after && v !in before ==> IsInserted(before, resources, k + 1, after[v]))
      && HasName(more, resources[k].endpoint)
      && forall i :: 0 <= i < k && HasName(after, resources[i].endpoint) ==> HasName(more, resources[i].endpoint)
  {
    var view := View(resources[k].endpoint, resources[k].urls, resources[k].description);
    var more := after[id := view];
    assert AgreesWith(resources, view);
    hide AgreesWith;
    forall v | v in after ensures after[v].name != view.name {
      if v in before {
        assert before[v].name == after[v].name;
      } else {
        var i :| 0 <= i < k && after[v].name == resources[i].endpoint;
      }
    }
    assert more[id].name == resources[k].endpoint;
    assert forall v :: v in after ==> more[v] == after[v];
    forall i | 0 <= i < k && HasName(after, resources[i].endpoint) ensures HasName(more, resources[i].endpoint) {
      StillNamed(after, more, resources[i].endpoint);
    }
  }

  /** `get_views_to_update` and the update of its views: those both sides have
      with a different url or description. */
  function UpdatedViews(before: map<nat, View>, after: map<nat, View>, resources: seq<Resource>): map<nat, View> {
    map v | v in after :: if v in before then UpdatedView(before[v], resources) else after[v]
  }

  function UpdatedView(v: View, resources: seq<Resource>): View {
    match Lookup(resources, v.name)
    case None => v
    case Some(r) =>
      if v.urlRule != r.urls || v.description != r.description then View(v.name, r.urls, r.description) else v
  }

  lemma UpdatedAgrees(v: View, resources: seq<Resource>)
    ensures UpdatedView(v, resources).name == v.name
    ensures IsStale(resources, v) ==> UpdatedView(v, resources) == v
    ensures !IsStale(resources, v) ==> AgreesWith(resources, UpdatedView(v, resources))
  {
    LookupFinds(resources, v.name);
    if !IsStale(resources, v) {
      var r := Lookup(resources, v.name).value;
      var i :| 0 <= i < |resources| && resources[i] == r;
      assert UpdatedView(v, resources) == View(resources[i].endpoint, resources[i].urls, resources[i].description);
    }
  }

  lemma UpdateKeepsNames(before: map<nat, View>, inserted: map<nat, View>, resources: seq<Resource>)
    requires forall v :: v in before ==> v in inserted && inserted[v] == before[v]
    ensures var after := UpdatedViews(before, inserted, resources);
      && (forall v :: v in inserted ==> v in after && after[v].name == inserted[v].name)
      && forall name :: HasName(inserted, name) ==> HasName(after, name)
  {
    var after := UpdatedViews(before, inserted, resources);
    forall v | v in before ensures after[v].name == before[v].name {
      UpdatedAgrees(before[v], resources);
    }
    hide UpdatedView;
    forall name | HasName(inserted, name) ensures HasName(after, name) {
      var v :| v in inserted && inserted[v].name == name;
      assert v in after && after[v].name == name;
    }
  }

  lemma UpdateRegisters(before: map<nat, View>, inserted: map<nat, View>, resources: seq<Resource>)
    requires UniqueNames(before) && UniqueNames(inserted)
    requires forall v :: v in before ==> v in inserted && inserted[v] == before[v]
    requires forall v :: v in inserted && v !in before ==> AgreesWith(resources, inserted[v])
    requires forall i :: 0 <= i < |resources| ==> HasName(inserted, resources[i].endpoint)
    ensures Registered(before, UpdatedViews(before, inserted, resources), resources)
  {
    UpdateKeepsNames(before, inserted, resources);
    var after := UpdatedViews(before, inserted, resources);
    forall v | v in before
      ensures IsStale(resources, before[v]) ==> after[v] == before[v]
      ensures !IsStale(resources, before[v]) ==> AgreesWith(resources, after[v])
    {
      UpdatedAgrees(before[v], resources);
    }
    hide UpdatedView, AgreesWith, IsStale, HasName;
  }

  /** What is left when the views in `gone` are deleted with their live
      permissions. */
  function WithoutViews(permissions: map<nat, Permission>, gone: set<nat>): map<nat, Permission> {
    map p | p in permissions && permissions[p].grant.view !in gone :: permissions[p]
  }

  function StaleViews(views: map<nat, View>, resources: seq<Resource>): set<nat> {
    set v | v in views && IsStale(resources, views[v])
  }

  predicate HasDisabled(permissions: map<nat, Permission>, view: nat) {
    exists p :: p in permissions && permissions[p].disabled && permissions[p].grant.view == view
  }

  /** The tables once the views in `gone` are deleted. */
  function Deleted(t: Tables, work: map<nat, View>, gone: set<nat>): Tables {
    Tables(t.actions, t.roles, work - gone, WithoutViews(t.permissions, gone))
  }

  lemma DeletedIsValid(t: Tables, work: map<nat, View>, gone: set<nat>, resources: seq<Resource>)
    requires t.Valid() && Registered(t.views, work, resources)
    ensures Deleted(t, work, gone).Valid()
  {
    hide AgreesWith, IsStale;
  }

  lemma DeletedAgrees(t: Tables, work: map<nat, View>, code: Code)
    requires Registered(t.views, work, code.resources)
    ensures ViewsAgree(Deleted(t, work, StaleViews(t.views, code.resources)), code)
  {
    hide AgreesWith;
    var gone := StaleViews(t.views, code.resources);
    forall i | 0 <= i < |code.resources| ensures Deleted(t, work, gone).Named(code.resources[i].endpoint) {
      assert HasName(work, code.resources[i].endpoint);
      var v :| v in work && work[v].name == code.resources[i].endpoint;
      assert HasEndpoint(code.resources, work[v].name);
      assert v in work - gone;
    }
  }

  lemma {:induction false} LookupIsOnly(resources: seq<Resource>, i: nat)
    requires DistinctEndpoints(resources) && i < |resources|
    ensures Lookup(resources, resources[i].endpoint) == Some(resources[i])
  {
    if i < |resources| - 1 {
      LookupIsOnly(resources[..|resources| - 1], i);
    }
  }

  lemma AgreedIsUpToDate(v: View, resources: seq<Resource>)
    requires DistinctEndpoints(resources) && AgreesWith(resources, v)
    ensures UpdatedView(v, resources) == v && !IsStale(resources, v)
  {
    var i :| 0 <= i < |resources| && v == View(resources[i].endpoint, resources[i].urls, resources[i].description);
    LookupIsOnly(resources, i);
  }

  lemma DeclaredIsNamed(t: Tables, code: Code, v: View)
    requires ViewsAgree(t, code) && AgreesWith(code.resources, v)
    ensures HasName(t.views, v.name)
  {
    var i :| 0 <= i < |code.resources| && v.name == code.resources[i].endpoint;
    assert t.Named(code.resources[i].endpoint);
  }

  lemma NothingInserted(t: Tables, inserted: map<nat, View>, code: Code)
    requires ViewsAgree(t, code)
    requires forall v :: v in t.views ==> v in inserted && inserted[v] == t.views[v]
    requires forall v :: v in inserted && v !in t.views ==> AgreesWith(code.resources, inserted[v])
    requires forall v :: v in inserted && v !in t.views ==> !HasName(t.views, inserted[v].name)
    ensures inserted == t.views
  {
    hide ViewsAgree, AgreesWith, HasName;
    forall v | v in inserted ensures v in t.views {
      if v !in t.views {
        DeclaredIsNamed(t, code, inserted[v]);
        assert false;
      }
    }
  }

  lemma AgreedAreUpToDate(t: Tables, code: Code, v: nat)
    requires ViewsAgree(t, code) && DistinctEndpoints(code.resources) && v in t.views
    ensures UpdatedView(t.views[v], code.resources) == t.views[v] && !IsStale(code.resources, t.views[v])
  {
    assert AgreesWith(code.resources, t.views[v]);
    hide *;
    AgreedIsUpToDate(t.views[v], code.resources);
  }

  lemma AgreedStays(t: Tables, inserted: map<nat, View>, code: Code)
    requires ViewsAgree(t, code) && DistinctEndpoints(code.resources)
    requires forall v :: v in t.views ==> v in inserted && inserted[v] == t.views[v]
    requires forall v :: v in inserted && v !in t.views ==> AgreesWith(code.resources, inserted[v])
    requires forall v :: v in inserted && v !in t.views ==> !HasName(t.views, inserted[v].name)
    ensures UpdatedViews(t.views, inserted, code.resources) == t.views && StaleViews(t.views, code.resources) == {}
  {
    hide ViewsAgree, DistinctEndpoints, AgreesWith, HasName, UpdatedView, IsStale;
    NothingInserted(t, inserted, code);
    forall v | v in t.views
      ensures UpdatedView(t.views[v], code.resources) == t.views[v] && !IsStale(code.resources, t.views[v])
    {
      AgreedAreUpToDate(t, code, v);
    }
  }

  /** A disabled permission keeps its stale view, and then the views do not
      agree with the code. */
  lemma StaleDisagrees(t: Tables, code: Code, v: nat)
    requires v in t.views && IsStale(code.resources, t.views[v])
    ensures !ViewsAgree(t, code)
  {
  }

  // ---- permissions ----

  /** `views_in_db` */
  function ViewIds(views: map<nat, View>): (ids: map<string, nat>)
    requires UniqueNames(views)
    ensures forall name :: name in ids <==> HasName(views, name)
    ensures forall name :: name in ids ==> ids[name] in views && views[ids[name]].name == name
  {
    map v | v in views :: views[v].name := v
  }

  function LiveGrants(permissions: map<nat, Permission>): set<Grant> {
    set p | p in permissions && !permissions[p].disabled :: permissions[p].grant
  }

  /** The grants of some duties at some of the views. */
  function DutyGrants(resources: seq<Resource>, duties: set<Duty>, ids: map<string, nat>): set<Grant> {
    set d, r | d in duties && r in resources && d.role in r.roles && r.endpoint in ids
      :: Grant(d.role, d.action, ids[r.endpoint])
  }

  function ExtraGrants(extra: seq<Extra>, ids: map<string, nat>): set<Grant> {
    set e | e in extra && e.endpoint in ids :: Grant(e.role, e.action, ids[e.endpoint])
  }

  /** `get_permissions_in_code_as_tuples` where every lookup is defined */
  function Tuples(code: Code, duties: set<Duty>, ids: map<string, nat>): set<Grant> {
    DutyGrants(code.resources, duties, ids) + ExtraGrants(code.extra, ids)
  }

  ghost predicate LookupsDefined(code: Code, duties: set<Duty>, ids: map<string, nat>) {
    forall d, r :: d in duties && r in code.resources && d.role in r.roles ==> r.endpoint in ids
  }

  /** A row the database accepts: no row holds the grant, and what it refers to
      exists. */
  predicate Insertable(t: Tables, g: Grant) {
    t.Refers(g) && !t.Holds(g)
  }

  /** The rows of `before` that are disabled or wanted, and a new one for every
      other grant that is wanted. */
  ghost predicate Reconciled(before: map<nat, Permission>, after: map<nat, Permission>, wanted: set<Grant>) {
    && (forall p :: p in before ==> (p in after <==> before[p].disabled || before[p].grant in wanted))
    && (forall p :: p in before && p in after ==> after[p] == before[p])
    && (forall p :: p in after && p !in before ==>
          !after[p].disabled && after[p].grant in wanted && after[p].grant !in LiveGrants(before))
    && wanted <= LiveGrants(after)
    && UniqueGrants(after)
  }

  ghost predicate UniqueGrants(permissions: map<nat, Permission>) {
    forall p, q :: p in permissions && q in permissions && permissions[p].grant == permissions[q].grant ==> p == q
  }

  ghost predicate CanCommit(t: Tables, code: Code, duties: set<Duty>)
    requires UniqueNames(t.views)
  {
    && LookupsDefined(code, duties, ViewIds(t.views))
    && forall g :: g in Tuples(code, duties, ViewIds(t.views)) - LiveGrants(t.permissions) ==> Insertable(t, g)
  }

  /** `get_permissions_to_delete` and the deletion */
  function KeptGrants(permissions: map<nat, Permission>, wanted: set<Grant>): map<nat, Permission> {
    map p | p in permissions && (permissions[p].disabled || permissions[p].grant in wanted) :: permissions[p]
  }

  lemma NewGrantsAreFree(t: Tables, added: set<Grant>)
    requires forall g :: g in added ==> Insertable(t, g)
    ensures forall p :: p in t.permissions ==> t.permissions[p].grant !in added
  {
    forall p | p in t.permissions ensures t.Holds(t.permissions[p].grant) {
    }
  }

  lemma KeptGrantsReconcile(before: map<nat, Permission>, inserted: map<nat, Permission>, wanted: set<Grant>)
    requires forall p :: p in before ==> p in inserted && inserted[p] == before[p]
    requires forall p :: p in inserted && p !in before ==>
      !inserted[p].disabled && inserted[p].grant in wanted - LiveGrants(before)
    requires wanted - LiveGrants(before) <= LiveGrants(inserted) && UniqueGrants(inserted)
    ensures Reconciled(before, KeptGrants(inserted, wanted), wanted)
  {
    var after := KeptGrants(inserted, wanted);
    forall g | g in wanted ensures g in LiveGrants(after) {
      if g in LiveGrants(before) {
        var p :| p in before && before[p] == Permission(g, false);
        assert p in after && !after[p].disabled;
      } else {
        assert g in LiveGrants(inserted);
        var p :| p in inserted && inserted[p] == Permission(g, false);
        assert p in after && !after[p].disabled;
      }
    }
  }

  lemma OneMoreResource(resources: seq<Resource>, x: Resource, d: Duty, ids: map<string, nat>)
    ensures DutyGrants(resources + [x], {d}, ids) == DutyGrants(resources, {d}, ids)
      + if d.role in x.roles && x.endpoint in ids then {Grant(d.role, d.action, ids[x.endpoint])} else {}
  {
    forall r ensures r in resources + [x] <==> r in resources || r == x {}
  }

  lemma OneMoreDuty(resources: seq<Resource>, duties: set<Duty>, d: Duty, ids: map<string, nat>)
    ensures DutyGrants(resources, duties + {d}, ids)
         == DutyGrants(resources, duties, ids) + DutyGrants(resources, {d}, ids)
  {
  }

  lemma OneMoreExtra(extra: seq<Extra>, e: Extra, ids: map<string, nat>)
    ensures ExtraGrants(extra + [e], ids)
         == ExtraGrants(extra, ids) + if e.endpoint in ids then {Grant(e.role, e.action, ids[e.endpoint])} else {}
  {
    forall x ensures x in extra + [e] <==> x in extra || x == e {}
  }

  /** The endpoint of a resource that a duty's role has access to is no view. */
  ghost predicate IsUndefined(code: Code, duties: set<Duty>, ids: map<string, nat>, endpoint: string) {
    && endpoint !in ids
    && exists r, d :: r in code.resources && d in duties && d.role in r.roles && r.endpoint == endpoint
  }

  lemma UndefinedOfMore(code: Code, duties: set<Duty>, d: Duty, ids: map<string, nat>, endpoint: string)
    requires IsUndefined(code, {d}, ids, endpoint) && d in duties
    ensures IsUndefined(code, duties, ids, endpoint)
  {
  }

  /** Adds the grants of one duty; a view that is not registered is an error. */
  method DutyTuples(code: Code, d: Duty, ids: map<string, nat>) returns (r: Result<set<Grant>, string>)
    ensures r.Success? <==> LookupsDefined(code, {d}, ids)
    ensures r.Success? ==> r.value == DutyGrants(code.resources, {d}, ids)
    ensures r.Failure? ==> IsUndefined(code, {d}, ids, r.error)
  {
    var grants: set<Grant> := {};
    assert DutyGrants([], {d}, ids) == {};
    hide DutyGrants;
    for k := 0 to |code.resources|
      invariant forall i :: 0 <= i < k && d.role in code.resources[i].roles ==> code.resources[i].endpoint in ids
      invariant grants == DutyGrants(code.resources[..k], {d}, ids)
    {
      var view := code.resources[k];
      assert code.resources[..k + 1] == code.resources[..k] + [view];
      OneMoreResource(code.resources[..k], view, d, ids);
      if d.role in view.roles {
        if view.endpoint !in ids {
          assert view in code.resources;
          return Failure(view.endpoint);
        }
        grants := grants + {Grant(d.role, d.action, ids[view.endpoint])};
      }
    }
    assert code.resources[..|code.resources|] == code.resources;
    r := Success(grants);
  }

  lemma LookupsOfMore(code: Code, duties: set<Duty>, d: Duty, ids: map<string, nat>)
    ensures LookupsDefined(code, duties + {d}, ids) <==>
      LookupsDefined(code, duties, ids) && LookupsDefined(code, {d}, ids)
  {
  }

  /** The tuples of the code, as the nested loops collect them. */
  method PermissionTuples(code: Code, duties: set<Duty>, ids: map<string, nat>)
    returns (r: Result<set<Grant>, string>)
    ensures r.Success? <==> LookupsDefined(code, duties, ids)
    ensures r.Success? ==> r.value == Tuples(code, duties, ids)
    ensures r.Failure? ==> IsUndefined(code, duties, ids, r.error)
  {
    var grants: set<Grant> := {};
    var todo := duties;
    assert DutyGrants(code.resources, {}, ids) == {} && ExtraGrants([], ids) == {} && LookupsDefined(code, {}, ids);
    hide DutyGrants, ExtraGrants, LookupsDefined;
    while todo != {}
      invariant todo <= duties
      invariant LookupsDefined(code, duties - todo, ids)
      invariant grants == DutyGrants(code.resources, duties - todo, ids)
    {
      var d :| d in todo;
      OneMoreDuty(code.resources, duties - todo, d, ids);
      LookupsOfMore(code, duties - todo, d, ids);
      assert duties - (todo - {d}) == duties - todo + {d};
      LookupsOfMore(code, duties, d, ids);
      assert duties + {d} == duties;
      var more := DutyTuples(code, d, ids);
      if more.Failure? {
        UndefinedOfMore(code, duties, d, ids, more.error);
        return Failure(more.error);
      }
      grants := grants + more.value;
      todo := todo - {d};
    }
    assert duties - {} == duties;
    for k := 0 to |code.extra|
      invariant grants == DutyGrants(code.resources, duties, ids) + ExtraGrants(code.extra[..k], ids)
    {
      var e := code.extra[k];
      assert code.extra[..k + 1] == code.extra[..k] + [e];
      OneMoreExtra(code.extra[..k], e, ids);
      if e.endpoint in ids {
        grants := grants + {Grant(e.role, e.action, ids[e.endpoint])};
      }
    }
    assert code.extra[..|code.extra|] == code.extra;
    r := Success(grants);
  }

  /** `save_and_delete_permissions` on rows the database accepts. */
  method InsertGrants(permissions: map<nat, Permission>, added: set<Grant>) returns (after: map<nat, Permission>)
    requires UniqueGrants(permissions)
    requires forall p :: p in permissions ==> permissions[p].grant !in added
    ensures forall p :: p in permissions ==> p in after && after[p] == permissions[p]
    ensures forall p :: p in after && p !in permissions ==> !after[p].disabled && after[p].grant in added
    ensures added <= LiveGrants(after) && UniqueGrants(after)
    ensures added == {} ==> after == permissions
  {
    var todo := added;
    after := permissions;
    hide LiveGrants, UniqueGrants;
    while todo != {}
      invariant todo <= added
      invariant forall p :: p in permissions ==> p in after && after[p] == permissions[p]
      invariant forall p :: p in after && p !in permissions ==> !after[p].disabled && after[p].grant in added - todo
      invariant added - todo <= LiveGrants(after) && UniqueGrants(after)
      invariant todo == added ==> after == permissions
    {
      var g :| g in todo;
      var id := NextId(after.Keys);
      GrantInserted(after, id, g);
      after := after[id := Permission(g, false)];
      todo := todo - {g};
    }
  }

  lemma GrantInserted(permissions: map<nat, Permission>, id: nat, g: Grant)
    requires id !in permissions && UniqueGrants(permissions)
    requires forall p :: p in permissions ==> permissions[p].grant != g
    ensures var after := permissions[id := Permission(g, false)];
      UniqueGrants(after) && LiveGrants(after) == LiveGrants(permissions) + {g}
  {
    var after := permissions[id := Permission(g, false)];
    assert forall p :: p in permissions ==> after[p] == permissions[p];
    assert after[id].grant == g && after.Keys == permissions.Keys + {id};
    forall x ensures x in LiveGrants(after) <==> x in LiveGrants(permissions) + {g} {
      if x in LiveGrants(permissions) {
        var p :| p in permissions && !permissions[p].disabled && permissions[p].grant == x;
        assert p in after && after[p].grant == x;
      }
    }
  }

  // ---- what the tuples mean ----

  /** Every action the code names is registered. */
  ghost predicate ActionsKnown(t: Tables, code: Code) {
    && (forall d :: d in BASE_PERMISSION_ASSIGNATION ==> d.action in t.actions)
    && (forall role, action :: role in code.customActions && action in code.customActions[role] ==> action in t.actions)
    && (forall e :: e in code.extra ==> e.action in t.actions)
  }

  lemma RoleIsReferenced(code: Code, i: nat, role: nat)
    requires DistinctEndpoints(code.resources) && i < |code.resources| && role in code.resources[i].roles
    ensures role in RolesWithAccess(code.resources)
  {
    LookupIsOnly(code.resources, i);
    assert code.resources[i] in code.resources;
  }

  lemma DutyIsAssigned(code: Code, i: nat, role: nat, action: nat)
    requires DistinctEndpoints(code.resources) && i < |code.resources| && role in code.resources[i].roles
    requires BasePermissions(code).Success?
    ensures Duty(role, action) in BasePermissions(code).value <==> Assigned(code, role, action)
  {
    RoleIsReferenced(code, i, role);
    assert role !in ALL_DEFAULT_ROLES ==> role in CustomRoles(code);
  }

  lemma DutyTupleIsAllowed(t: Tables, code: Code, d: Duty, i: nat)
    requires DistinctEndpoints(code.resources) && BasePermissions(code).Success? && UniqueNames(t.views)
    requires d in BasePermissions(code).value && i < |code.resources| && d.role in code.resources[i].roles
    requires code.resources[i].endpoint in ViewIds(t.views)
    ensures GrantAllowed(t, code, Grant(d.role, d.action, ViewIds(t.views)[code.resources[i].endpoint]))
  {
    hide BasePermissions, ViewIds, Assigned, CustomRoles, DistinctEndpoints;
    DutyIsAssigned(code, i, d.role, d.action);
    assert AllowedBy(code, code.resources[i], d.role, d.action);
  }

  lemma TupleIsAllowed(t: Tables, code: Code, g: Grant)
    requires DistinctEndpoints(code.resources) && BasePermissions(code).Success?
    requires UniqueNames(t.views) && ViewsAgree(t, code)
    requires g in Tuples(code, BasePermissions(code).value, ViewIds(t.views))
    ensures GrantAllowed(t, code, g)
  {
    var duties, ids := BasePermissions(code).value, ViewIds(t.views);
    hide BasePermissions, ViewIds, ViewsAgree, Assigned, CustomRoles, DistinctEndpoints;
    if d, r :| d in duties && r in code.resources && d.role in r.roles && r.endpoint in ids
               && g == Grant(d.role, d.action, ids[r.endpoint]) {
      var i :| 0 <= i < |code.resources| && code.resources[i] == r;
      DutyTupleIsAllowed(t, code, d, i);
    } else {
      var e :| e in code.extra && e.endpoint in ids && g == Grant(e.role, e.action, ids[e.endpoint]);
      assert e == Extra(g.role, g.action, e.endpoint);
      ViewIsDeclared(t, code, g.view);
    }
  }

  lemma AllowedIsTuple(t: Tables, code: Code, g: Grant)
    requires DistinctEndpoints(code.resources) && BasePermissions(code).Success?
    requires UniqueNames(t.views) && GrantAllowed(t, code, g)
    ensures g in Tuples(code, BasePermissions(code).value, ViewIds(t.views))
  {
    var duties, ids := BasePermissions(code).value, ViewIds(t.views);
    var name := t.views[g.view].name;
    assert HasName(t.views, name) && ids[name] == g.view;
    hide BasePermissions, ViewIds, Assigned, CustomRoles, DistinctEndpoints;
    if i :| 0 <= i < |code.resources| && code.resources[i].endpoint == name
               && AllowedBy(code, code.resources[i], g.role, g.action) {
      DutyIsAssigned(code, i, g.role, g.action);
      assert Duty(g.role, g.action) in duties && code.resources[i] in code.resources;
    } else {
      assert Extra(g.role, g.action, name) in code.extra;
    }
  }

  /** Once the views agree with the code, the tuples are the permissions the
      code allows. */
  lemma {:induction false} TuplesAreAllowed(t: Tables, code: Code, g: Grant)
    requires DistinctEndpoints(code.resources) && BasePermissions(code).Success?
    requires UniqueNames(t.views) && ViewsAgree(t, code)
    ensures g in Tuples(code, BasePermissions(code).value, ViewIds(t.views)) <==> GrantAllowed(t, code, g)
  {
    hide *;
    if g in Tuples(code, BasePermissions(code).value, ViewIds(t.views)) {
      TupleIsAllowed(t, code, g);
    }
    if GrantAllowed(t, code, g) {
      AllowedIsTuple(t, code, g);
    }
  }

  lemma ViewIsDeclared(t: Tables, code: Code, v: nat)
    requires ViewsAgree(t, code) && v in t.views
    ensures HasEndpoint(code.resources, t.views[v].name)
  {
    var i :| 0 <= i < |code.resources| && t.views[v].name == code.resources[i].endpoint;
  }

  lemma LookupsAreDefined(t: Tables, code: Code, duties: set<Duty>)
    requires UniqueNames(t.views) && ViewsAgree(t, code)
    ensures LookupsDefined(code, duties, ViewIds(t.views))
  {
    forall r | r in code.resources ensures HasName(t.views, r.endpoint) {
      var i :| 0 <= i < |code.resources| && code.resources[i] == r;
      assert t.Named(code.resources[i].endpoint);
    }
  }

  /** What the code allows refers to roles, actions and views that exist. */
  lemma AllowedRefers(t: Tables, code: Code, g: Grant)
    requires DistinctEndpoints(code.resources) && RolesLive(t, code) && ActionsKnown(t, code)
    requires GrantAllowed(t, code, g)
    ensures t.Refers(g)
  {
    var name := t.views[g.view].name;
    if i :| 0 <= i < |code.resources| && code.resources[i].endpoint == name
               && AllowedBy(code, code.resources[i], g.role, g.action) {
      RoleIsReferenced(code, i, g.role);
    } else {
      assert Extra(g.role, g.action, name) in code.extra;
      assert g.role in RolesInExtra(code.extra);
    }
  }

  ghost function WantedGrants(t: Tables, code: Code): set<Grant>
    requires UniqueNames(t.views) && BasePermissions(code).Success?
  {
    Tuples(code, BasePermissions(code).value, ViewIds(t.views))
  }

  lemma LiveIsLive(t: Tables, g: Grant)
    ensures t.Live(g) <==> g in LiveGrants(t.permissions)
  {
  }

  lemma HeldIsLiveOrDisabled(t: Tables, code: Code, g: Grant)
    requires t.Valid() && GrantsUnblocked(t, code) && GrantAllowed(t, code, g) && t.Holds(g)
    ensures t.Live(g)
  {
    hide GrantAllowed, Tables.Valid;
    var p :| p in t.permissions && t.permissions[p].grant == g;
    assert t.permissions[p] == Permission(g, false);
  }

  lemma BlockedIsNotLive(t: Tables, p: nat)
    requires t.Valid() && p in t.permissions && t.permissions[p].disabled
    ensures !t.Live(t.permissions[p].grant) && t.Holds(t.permissions[p].grant)
  {
  }

  /** The inserts are accepted exactly when no disabled row holds a permission
      the code grants. */
  lemma {:induction false} CommitsIffUnblocked(t: Tables, code: Code)
    requires t.Valid() && DistinctEndpoints(code.resources) && BasePermissions(code).Success?
    requires RolesLive(t, code) && ViewsAgree(t, code) && ActionsKnown(t, code)
    ensures UniqueNames(t.views)
    ensures CanCommit(t, code, BasePermissions(code).value) <==> GrantsUnblocked(t, code)
  {
    ViewsHaveUniqueNames(t);
    LookupsAreDefined(t, code, BasePermissions(code).value);
    hide BasePermissions, RolesLive, ViewsAgree, ActionsKnown, GrantAllowed, Tuples, LiveGrants, ViewIds;
    hide LookupsDefined, Tables.Valid, Tables.Live, Tables.Holds, Tables.Refers, DistinctEndpoints;
    if GrantsUnblocked(t, code) {
      forall g | g in WantedGrants(t, code) - LiveGrants(t.permissions) ensures Insertable(t, g) {
        TuplesAreAllowed(t, code, g);
        AllowedRefers(t, code, g);
        LiveIsLive(t, g);
        if t.Holds(g) {
          HeldIsLiveOrDisabled(t, code, g);
        }
      }
    } else {
      var p :| p in t.permissions && t.permissions[p].disabled && GrantAllowed(t, code, t.permissions[p].grant);
      var g := t.permissions[p].grant;
      BlockedIsNotLive(t, p);
      TuplesAreAllowed(t, code, g);
      LiveIsLive(t, g);
      assert g in WantedGrants(t, code) - LiveGrants(t.permissions) && !Insertable(t, g);
    }
  }

  lemma ReconciledIsLive(before: map<nat, Permission>, after: map<nat, Permission>, wanted: set<Grant>)
    requires Reconciled(before, after, wanted)
    ensures LiveGrants(after) == wanted
  {
    forall g | g in LiveGrants(after) ensures g in wanted {
      var p :| p in after && after[p] == Permission(g, false);
      if p in before {
        assert after[p] == before[p];
      }
    }
  }

  lemma ReconciledIsValid(t: Tables, after: map<nat, Permission>, wanted: set<Grant>)
    requires t.Valid() && Reconciled(t.permissions, after, wanted) && forall g :: g in wanted ==> t.Refers(g)
    ensures t.(permissions := after).Valid()
  {
    var next := t.(permissions := after);
    forall p | p in after ensures next.Refers(after[p].grant) {
      if p in t.permissions {
        assert t.Refers(t.permissions[p].grant) && after[p] == t.permissions[p];
      } else {
        assert t.Refers(after[p].grant);
      }
    }
  }

  lemma PermissionsDoNotMatter(t: Tables, after: map<nat, Permission>, code: Code)
    ensures RolesLive(t, code) == RolesLive(t.(permissions := after), code)
    ensures ViewsAgree(t, code) == ViewsAgree(t.(permissions := after), code)
    ensures forall g :: GrantAllowed(t.(permissions := after), code, g) <==> GrantAllowed(t, code, g)
  {
    hide Allowed, AgreesWith, ReferencedRoles;
    assert forall name :: t.Named(name) <==> t.(permissions := after).Named(name);
  }

  /** The tables after the last command. */
  lemma {:induction false} ReconciledIsSettled(t: Tables, after: map<nat, Permission>, code: Code)
    requires t.Valid() && DistinctEndpoints(code.resources) && BasePermissions(code).Success?
    requires RolesLive(t, code) && ViewsAgree(t, code) && ActionsKnown(t, code)
    requires UniqueNames(t.views) && Reconciled(t.permissions, after, WantedGrants(t, code))
    ensures t.(permissions := after).Valid() && Settled(t.(permissions := after), code)
  {
    var next, wanted := t.(permissions := after), WantedGrants(t, code);
    PermissionsDoNotMatter(t, after, code);
    hide BasePermissions, RolesLive, ViewsAgree, ActionsKnown, GrantAllowed, Tuples, ViewIds, WantedGrants;
    hide Tables.Valid, Tables.Live, Tables.Refers, DistinctEndpoints, Reconciled, LiveGrants;
    forall g ensures (g in wanted <==> GrantAllowed(t, code, g)) && (GrantAllowed(t, code, g) ==> t.Refers(g)) {
      WantedIsAllowed(t, code, g);
      if GrantAllowed(t, code, g) {
        AllowedRefers(t, code, g);
      }
    }
    ReconciledIsLive(t.permissions, after, wanted);
    ReconciledIsValid(t, after, wanted);
    forall g ensures next.Live(g) <==> GrantAllowed(next, code, g) {
      LiveIsLive(next, g);
    }
  }

  lemma {:induction false} WantedIsAllowed(t: Tables, code: Code, g: Grant)
    requires DistinctEndpoints(code.resources) && BasePermissions(code).Success?
    requires UniqueNames(t.views) && ViewsAgree(t, code)
    ensures g in WantedGrants(t, code) <==> GrantAllowed(t, code, g)
  {
    TuplesAreAllowed(t, code, g);
  }

  /** What a disabled row holds cannot be live as well. */
  lemma SettledIsUnblocked(t: Tables, code: Code)
    requires t.Valid() && Settled(t, code)
    ensures Unblocked(t, code)
  {
    hide GrantAllowed, ReferencedRoles;
    forall p | p in t.permissions && t.permissions[p].disabled
      ensures !GrantAllowed(t, code, t.permissions[p].grant)
    {
      BlockedIsNotLive(t, p);
    }
    forall v | v in t.views ensures !IsStale(code.resources, t.views[v]) {
      ViewIsDeclared(t, code, v);
    }
  }

  /** Deleting stale views leaves the disabled permissions, and what the code
      allows, as they were. */
  lemma GrantsStayUnblocked(t: Tables, next: Tables, code: Code)
    requires t.Valid() && ViewsUnblocked(t, code) && KeepsDeclared(t.views, next.views, code.resources)
    requires next.permissions == WithoutViews(t.permissions, StaleViews(t.views, code.resources))
    ensures GrantsUnblocked(t, code) <==> GrantsUnblocked(next, code)
  {
    hide Allowed, IsStale, AgreesWith;
    forall p | p in t.permissions && t.permissions[p].disabled
      ensures p in next.permissions && t.permissions[p].grant.view in next.views
      ensures GrantAllowed(t, code, t.permissions[p].grant) <==> GrantAllowed(next, code, t.permissions[p].grant)
    {
      assert t.Refers(t.permissions[p].grant);
    }
  }

  lemma BlockedIsNotSettled(t: Tables, code: Code)
    requires t.Valid() && !Unblocked(t, code)
    ensures !Settled(t, code)
  {
    if Settled(t, code) {
      SettledIsUnblocked(t, code);
    }
  }

  lemma {:induction false} SettledReconcilesToItself(t: Tables, after: map<nat, Permission>, code: Code)
    requires t.Valid() && DistinctEndpoints(code.resources) && BasePermissions(code).Success? && Settled(t, code)
    requires UniqueNames(t.views) && Reconciled(t.permissions, after, WantedGrants(t, code))
    ensures after == t.permissions
  {
    hide BasePermissions, RolesLive, ViewsAgree, GrantAllowed, Tuples, ViewIds, WantedGrants, DistinctEndpoints;
    forall g ensures g in WantedGrants(t, code) <==> g in LiveGrants(t.permissions) {
      WantedIsAllowed(t, code, g);
      LiveIsLive(t, g);
    }
    hide Tables.Valid, UniqueNames, Settled;
    assert after.Keys == t.permissions.Keys by {
      forall p | p in t.permissions ensures p in after {
        assert !t.permissions[p].disabled ==> t.permissions[p].grant in LiveGrants(t.permissions);
      }
    }
  }

  lemma RolesDoNotMatter(t: Tables, roles: map<nat, Role>, code: Code)
    ensures var next := t.(roles := roles);
      && ViewsUnblocked(next, code) == ViewsUnblocked(t, code)
      && GrantsUnblocked(next, code) == GrantsUnblocked(t, code)
      && ViewsAgree(next, code) == ViewsAgree(t, code)
      && ActionsKnown(next, code) == ActionsKnown(t, code)
  {
    hide Allowed, IsStale, AgreesWith;
    assert forall name :: t.Named(name) <==> t.(roles := roles).Named(name);
    assert forall g :: GrantAllowed(t.(roles := roles), code, g) <==> GrantAllowed(t, code, g);
  }

  lemma OnlyRolesMatter(t: Tables, next: Tables, code: Code)
    requires next.roles == t.roles && next.actions == t.actions
    ensures RolesLive(next, code) == RolesLive(t, code) && ActionsKnown(next, code) == ActionsKnown(t, code)
    ensures RolesUnblocked(next, code) == RolesUnblocked(t, code)
  {
  }

  /** Roles that are all live gain no new one. */
  lemma LiveRolesStay(t: Tables, roles: map<nat, Role>, code: Code)
    requires RolesLive(t, code) && roles.Keys == t.roles.Keys + ReferencedRoles(code)
    requires forall id :: id in t.roles ==> roles[id] == t.roles[id]
    ensures roles == t.roles
  {
    hide ReferencedRoles;
  }

  /** The tables after the last command; settled tables stay as they are. */
  lemma {:induction false} LastCommandSettles(third: Tables, after: map<nat, Permission>, code: Code)
    requires third.Valid() && DistinctEndpoints(code.resources) && BasePermissions(code).Success?
    requires RolesLive(third, code) && ViewsAgree(third, code) && ActionsKnown(third, code)
    requires UniqueNames(third.views) && Reconciled(third.permissions, after, WantedGrants(third, code))
    ensures third.(permissions := after).Valid() && Settled(third.(permissions := after), code)
    ensures Settled(third, code) ==> after == third.permissions
  {
    ReconciledIsSettled(third, after, code);
    if Settled(third, code) {
      SettledReconcilesToItself(third, after, code);
    }
  }

  lemma SettledParts(t: Tables, code: Code)
    requires Settled(t, code)
    ensures RolesLive(t, code) && ViewsAgree(t, code)
  {
  }

  lemma SettledPartsIf(t: Tables, code: Code)
    ensures Settled(t, code) ==> RolesLive(t, code) && ViewsAgree(t, code)
  {
  }

  lemma ValidParts(t: Tables)
    requires t.Valid()
    ensures UniqueNames(t.views) && UniqueGrants(t.permissions)
  {
  }

  /** A viewer's permission on one view, disabled: the run cannot give it back. */
  lemma DisabledPermissionBlocks() returns (t: Tables, code: Code)
    ensures t.Valid() && DistinctEndpoints(code.resources) && ActionsKnown(t, code) && BasePermissions(code).Success?
    ensures RolesLive(t, code) && ViewsAgree(t, code) && !Unblocked(t, code)
  {
    var r := Resource("case", "/case/", "", [VIEWER_ROLE]);
    code := Code([r], [], map[]);
    t := Tables(
      {1, 2, 3, 4, 5},
      map id | id in ALL_DEFAULT_ROLES :: Role(NameOfRole(id), false),
      map[1 := View("case", "/case/", "")],
      map[1 := Permission(Grant(VIEWER_ROLE, GET_ACTION, 1), true)]);
    assert RolesWithAccess([r]) <= {VIEWER_ROLE};
    assert t.views[1].name == code.resources[0].endpoint;
    assert AllowedBy(code, code.resources[0], VIEWER_ROLE, GET_ACTION);
    assert t.permissions[1].disabled && GrantAllowed(t, code, t.permissions[1].grant);
  }

  lemma ViewsHaveUniqueNames(t: Tables)
    requires t.Valid()
    ensures UniqueNames(t.views)
  {
  }

  lemma UnblockedMeans(t: Tables, code: Code)
    ensures ViewsUnblocked(t, code) <==>
      forall v :: v in StaleViews(t.views, code.resources) ==> !HasDisabled(t.permissions, v)
  {
    hide IsStale;
    forall p | p in t.permissions && t.permissions[p].disabled
      ensures HasDisabled(t.permissions, t.permissions[p].grant.view)
    {
    }
  }

  lemma StaleIsKept(before: map<nat, View>, work: map<nat, View>, resources: seq<Resource>)
    requires Registered(before, work, resources)
    ensures StaleViews(before, resources) <= work.Keys
  {
  }

  lemma {:induction false} AgreedStaysIf(t: Tables, inserted: map<nat, View>, code: Code)
    requires DistinctEndpoints(code.resources)
    requires forall v :: v in t.views ==> v in inserted && inserted[v] == t.views[v]
    requires forall v :: v in inserted && v !in t.views ==> AgreesWith(code.resources, inserted[v])
    requires forall v :: v in inserted && v !in t.views ==> !HasName(t.views, inserted[v].name)
    ensures ViewsAgree(t, code) ==>
      Deleted(t, UpdatedViews(t.views, inserted, code.resources), StaleViews(t.views, code.resources)) == t
  {
    if ViewsAgree(t, code) {
      AgreedStays(t, inserted, code);
      hide ViewsAgree, AgreesWith, UpdatedViews;
      assert WithoutViews(t.permissions, {}) == t.permissions;
      assert t.views - {} == t.views;
    }
  }

  ghost predicate KeepsDeclared(before: map<nat, View>, after: map<nat, View>, resources: seq<Resource>) {
    forall v :: v in before && !IsStale(resources, before[v]) ==> v in after && after[v].name == before[v].name
  }

  lemma ViewsCommitted(t: Tables, work: map<nat, View>, code: Code)
    requires t.Valid() && Registered(t.views, work, code.resources)
    ensures var after := Deleted(t, work, StaleViews(t.views, code.resources));
      && after.Valid() && ViewsAgree(after, code) && KeepsDeclared(t.views, after.views, code.resources)
      && after.permissions == WithoutViews(t.permissions, StaleViews(t.views, code.resources))
  {
    DeletedIsValid(t, work, StaleViews(t.views, code.resources), code.resources);
    DeletedAgrees(t, work, code);
  }

  lemma ViewsRefused(t: Tables, work: map<nat, View>, gone: set<nat>, code: Code)
    requires t.Valid() && Registered(t.views, work, code.resources) && gone < StaleViews(t.views, code.resources)
    ensures var after := if gone == {} then t else Deleted(t, work, gone);
      after.Valid() && !ViewsAgree(after, code) && !ViewsAgree(t, code)
      && KeepsDeclared(t.views, after.views, code.resources)
  {
    DeletedIsValid(t, work, gone, code.resources);
    var v :| v in StaleViews(t.views, code.resources) && v !in gone;
    StaleDisagrees(t, code, v);
    StaleDisagrees(if gone == {} then t else Deleted(t, work, gone), code, v);
  }

  lemma RolesAreNamed()
    ensures forall id :: IsNameOf(id, NameOfRole(id))
  {
  }

  class Database {
    const actions: set<nat>
    var roles: map<nat, Role>
    var views: map<nat, View>
    var permissions: map<nat, Permission>

    ghost function Contents(): Tables
      reads this
    {
      Tables(actions, roles, views, permissions)
    }

    constructor (contents: Tables)
      ensures Contents() == contents
    {
      actions, roles, views, permissions := contents.actions, contents.roles, contents.views, contents.permissions;
    }

    /** `get_new_roles_to_add` */
    method NewRolesToAdd(code: Code) returns (added: map<nat, Role>)
      ensures forall id :: id in added <==> id in ReferencedRoles(code) && !(id in roles && !roles[id].disabled)
      ensures forall id :: id in added ==> added[id] == Role(NameOfRole(id), false)
    {
      var todo := ReferencedRoles(code);
      added := map[];
      while todo != {}
        invariant todo <= ReferencedRoles(code)
        invariant forall id :: id in added <==>
          id in ReferencedRoles(code) && id !in todo && !(id in roles && !roles[id].disabled)
        invariant forall id :: id in added ==> added[id] == Role(NameOfRole(id), false)
      {
        var id :| id in todo;
        if !(id in roles && !roles[id].disabled) {
          added := added[id := Role(NameOfRole(id), false)];
        }
        todo := todo - {id};
      }
    }

    /** `register_roles_command`: the insert of a role whose id a disabled row
        still holds fails, and then no role is added. */
    method RegisterRoles(code: Code) returns (ok: bool)
      requires Contents().Valid()
      modifies this`roles
      ensures Contents().Valid()
      ensures ok <==> old(RolesUnblocked(Contents(), code))
      ensures !ok ==> roles == old(roles)
      ensures ok ==> RolesLive(Contents(), code) && roles.Keys == old(roles.Keys) + ReferencedRoles(code)
      ensures forall id :: id in old(roles) ==> id in roles && roles[id] == old(roles[id])
      ensures forall id :: id in roles && id !in old(roles) ==>
        roles[id] == Role(NameOfRole(id), false) && IsNameOf(id, roles[id].name)
    {
      hide NameOfRole, IsNameOf;
      var added := NewRolesToAdd(code);
      assert forall id :: id in added ==> IsNameOf(id, added[id].name) by { RolesAreNamed(); }
      ok := added.Keys !! roles.Keys;
      if ok {
        roles := roles + added;
      } else {
        var id :| id in added && id in roles;
      }
    }

    /** The deletions of `load_changes_to_db`, after inserts and updates that
        the first commit keeps. Each deletion commits; one that would leave a
        disabled permission without its view fails and ends the command. */
    method DeleteViews(work: map<nat, View>, resources: seq<Resource>) returns (ok: bool)
      requires StaleViews(views, resources) <= work.Keys
      modifies this`views, this`permissions
      ensures ok <==> forall v :: v in StaleViews(old(views), resources) ==> !HasDisabled(old(permissions), v)
      ensures ok ==> Contents() == Deleted(old(Contents()), work, StaleViews(old(views), resources))
      ensures !ok ==>
        exists gone :: gone < StaleViews(old(views), resources)
                       && Contents() == if gone == {} then old(Contents()) else Deleted(old(Contents()), work, gone)
    {
      hide IsStale;
      var stale := StaleViews(views, resources);
      if stale == {} {
        views := work;
        assert Contents() == Deleted(old(Contents()), work, {});
        return true;
      }
      var todo, kept := stale, work;
      while todo != {}
        invariant todo <= stale && kept == work - (stale - todo)
        invariant Contents() == if stale - todo == {} then old(Contents())
          else Deleted(old(Contents()), work, stale - todo)
        invariant forall v :: v in stale - todo ==> !HasDisabled(old(permissions), v)
      {
        var v :| v in todo;
        ghost var gone := stale - todo;
        assert forall p :: p in permissions && permissions[p].grant.view == v <==>
          p in old(permissions) && old(permissions[p]).grant.view == v;
        if HasDisabled(permissions, v) {
          assert gone < stale;
          return false;
        }
        todo, kept := todo - {v}, kept - {v};
        assert stale - todo == gone + {v};
        views, permissions := kept, WithoutViews(permissions, {v});
        assert permissions == WithoutViews(old(permissions), gone + {v});
      }
      assert stale - todo == stale;
      ok := true;
    }

    /** `register_views_command` */
    method RegisterViews(code: Code) returns (ok: bool)
      requires Contents().Valid() && DistinctEndpoints(code.resources)
      modifies this`views, this`permissions
      ensures Contents().Valid()
      ensures ok <==> old(ViewsUnblocked(Contents(), code))
      ensures ok ==> ViewsAgree(Contents(), code)
      ensures ok ==> permissions == WithoutViews(old(permissions), StaleViews(old(views), code.resources))
      ensures !ok ==> !ViewsAgree(Contents(), code)
      ensures KeepsDeclared(old(views), views, code.resources)
      ensures old(ViewsAgree(Contents(), code)) ==> views == old(views) && permissions == old(permissions)
    {
      hide Registered, ViewsAgree, AgreesWith, Tables.Valid, UniqueNames, KeepsDeclared, ViewsUnblocked;
      hide UpdatedViews, StaleViews, HasName, WithoutViews, IsStale, HasDisabled, DistinctEndpoints;
      ghost var before := Contents();
      ViewsHaveUniqueNames(before);
      var inserted := InsertViews(views, code.resources);
      UpdateRegisters(views, inserted, code.resources);
      var work := UpdatedViews(views, inserted, code.resources);
      UnblockedMeans(before, code);
      AgreedStaysIf(before, inserted, code);
      StaleIsKept(before.views, work, code.resources);
      ok := DeleteViews(work, code.resources);
      if ok {
        ViewsCommitted(before, work, code);
      } else {
        ghost var gone :| gone < StaleViews(before.views, code.resources)
                          && Contents() == if gone == {} then before else Deleted(before, work, gone);
        ViewsRefused(before, work, gone, code);
      }
    }

    /** `register_base_permissions_command`. An undeclared custom role or a view
        that is not registered is an error; otherwise either every row to insert
        is accepted, or nothing is committed. */
    method RegisterPermissions(code: Code) returns (refusal: Option<Refusal>)
      requires UniqueNames(views) && UniqueGrants(permissions)
      modifies this`permissions
      ensures refusal.Some? ==> permissions == old(permissions)
      ensures BasePermissions(code).Failure? ==> refusal == Some(UndefinedRoles(BasePermissions(code).error))
      ensures refusal.Some? && refusal.value.UndefinedRoles? ==>
        forall role :: role in refusal.value.roles <==>
          role in RolesWithAccess(code.resources) && role !in {1, 2, 3, 4} && role !in code.customActions
      ensures refusal.Some? && refusal.value.NoSuchView? ==>
        BasePermissions(code).Success?
        && IsUndefined(code, BasePermissions(code).value, ViewIds(views), refusal.value.endpoint)
      ensures BasePermissions(code).Success? ==>
        (refusal.None? <==> CanCommit(old(Contents()), code, BasePermissions(code).value))
      ensures refusal.None? ==> BasePermissions(code).Success?
      ensures refusal.None? ==>
        Reconciled(old(permissions), permissions, Tuples(code, BasePermissions(code).value, ViewIds(views)))
    {
      var ids := ViewIds(views);
      var base := BasePermissions(code);
      if base.Failure? {
        return Some(UndefinedRoles(base.error));
      }
      var tuples := PermissionTuples(code, base.value, ids);
      hide BasePermissions, Tuples, ViewIds, LookupsDefined, Insertable, LiveGrants, Reconciled, UniqueGrants;
      hide IsUndefined, RolesWithAccess;
      if tuples.Failure? {
        return Some(NoSuchView(tuples.error));
      }
      var toRegister := tuples.value - LiveGrants(permissions);
      if exists g :: g in toRegister && !Insertable(Tables(actions, roles, views, permissions), g) {
        return Some(NotCommitted);
      }
      NewGrantsAreFree(Contents(), toRegister);
      var inserted := InsertGrants(permissions, toRegister);
      KeptGrantsReconcile(permissions, inserted, tuples.value);
      permissions := KeptGrants(inserted, tuples.value);
      refusal := None;
    }

    /** `access_init_command` after the actions are registered: the commands run
        in this order, and one that fails ends the run. Unless a custom role is
        undeclared, the run settles the tables exactly when no disabled row was
        in the way, and on settled tables it changes nothing. */
    method AccessInit(code: Code) returns (refusal: Option<Refusal>)
      requires Contents().Valid() && DistinctEndpoints(code.resources) && ActionsKnown(Contents(), code)
      modifies this
      ensures Contents().Valid()
      ensures refusal.None? ==> Settled(Contents(), code)
      ensures BasePermissions(code).Success? ==> (refusal.None? <==> old(Unblocked(Contents(), code)))
      ensures BasePermissions(code).Success? ==> (Settled(Contents(), code) <==> old(Unblocked(Contents(), code)))
      ensures BasePermissions(code).Failure? ==>
        old(RolesUnblocked(Contents(), code) && ViewsUnblocked(Contents(), code)) ==>
          refusal == Some(UndefinedRoles(BasePermissions(code).error))
      ensures BasePermissions(code).Success? && old(Settled(Contents(), code)) ==>
        refusal.None? && Contents() == old(Contents())
    {
      hide ReferencedRoles, RolesLive, RolesUnblocked, ViewsAgree, ViewsUnblocked, GrantsUnblocked, ActionsKnown;
      hide Tables.Valid, UniqueNames, UniqueGrants, DistinctEndpoints, BasePermissions, Tuples, Reconciled, CanCommit;
      hide KeepsDeclared, WithoutViews, StaleViews, ViewIds, NameOfRole, Settled, IsStale;
      ghost var first := Contents();
      if Settled(first, code) {
        SettledIsUnblocked(first, code);
        SettledParts(first, code);
      } else if !Unblocked(first, code) {
        BlockedIsNotSettled(first, code);
      }
      var ok := RegisterRoles(code);
      ghost var second := Contents();
      RolesDoNotMatter(first, roles, code);
      assert second == first.(roles := roles);
      if !ok {
        assert second == first;
        return Some(NotCommitted);
      }
      if Settled(first, code) {
        LiveRolesStay(first, roles, code);
        assert second == first;
      }
      ok := RegisterViews(code);
      ghost var third := Contents();
      OnlyRolesMatter(second, third, code);
      if !ok {
        SettledPartsIf(third, code);
        return Some(NotCommitted);
      }
      GrantsStayUnblocked(second, third, code);
      ValidParts(third);
      refusal := RegisterPermissions(code);
      assert Contents() == third.(permissions := permissions);
      if BasePermissions(code).Success? {
        CommitsIffUnblocked(third, code);
        if refusal.None? {
          LastCommandSettles(third, permissions, code);
        } else {
          assert Contents() == third;
          BlockedIsNotSettled(third, code);
        }
      } else {
        assert Contents() == third;
      }
    }
  }
}

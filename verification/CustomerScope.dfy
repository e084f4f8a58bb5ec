/** Customer scope: what `resolveScope` makes of a user's rows, and the Prisma filters and guards
    that read the result. */
module CustomerScope {
  import opened Wrappers

  datatype Access = All | Customers

  datatype User = User(id: int, superAdmin: bool, access: Access)

  /** The group is the joined row of the membership. */
  datatype Group = Group(id: int, access: Access)

  datatype Membership = Membership(user: int, group: Group)

  /** A `UserCustomerScope` or `GroupCustomerScope` row. */
  datatype ScopeRow = ScopeRow(holder: int, customer: int)

  datatype Tables = Tables(memberships: seq<Membership>, userRows: seq<ScopeRow>, groupRows: seq<ScopeRow>)

  datatype Scope = Unscoped | Scoped(customers: set<int>)

  // ---------------------------------------------------------------- resolveScope

  function GroupsOf(ms: seq<Membership>, u: int): seq<Group> {
    if ms == [] then []
    else (if ms[0].user == u then [ms[0].group] else []) + GroupsOf(ms[1..], u)
  }

  predicate SomeAll(gs: seq<Group>) { gs != [] && (gs[0].access.All? || SomeAll(gs[1..])) }

  function CustomersGroupIds(gs: seq<Group>): seq<int> {
    if gs == [] then []
    else (if gs[0].access.Customers? then [gs[0].id] else []) + CustomersGroupIds(gs[1..])
  }

  /** The customers of the rows whose holder is among `holders`. */
  function CustomersOf(rows: seq<ScopeRow>, holders: seq<int>): set<int> {
    if rows == [] then {}
    else (if rows[0].holder in holders then {rows[0].customer} else {}) + CustomersOf(rows[1..], holders)
  }

  function ResolveScope(user: Option<User>, t: Tables): Scope {
    if user.None? || user.value.superAdmin || !user.value.access.Customers? then Unscoped
    else
      var groups := GroupsOf(t.memberships, user.value.id);
      if SomeAll(groups) then Unscoped
      else
        var ids := CustomersGroupIds(groups);
        Scoped(
          CustomersOf(t.userRows, [user.value.id])
          + if |ids| > 0 then CustomersOf(t.groupRows, ids) else {})
  }

  predicate Sees(s: Scope, customer: int) { s.Unscoped? || customer in s.customers }

  // ---------------------------------------------------------------- what it means

  ghost predicate InAllGroup(u: int, t: Tables) {
    exists m :: m in t.memberships && m.user == u && m.group.access.All?
  }

  ghost predicate OwnCustomer(u: int, t: Tables, c: int) { ScopeRow(u, c) in t.userRows }

  ghost predicate GroupCustomer(u: int, t: Tables, c: int) {
    exists m :: m in t.memberships && m.user == u && m.group.access.Customers?
                && ScopeRow(m.group.id, c) in t.groupRows
  }

  /** No user at all, a super admin, a user who is not customer-scoped, or a member of an ALL group. */
  ghost predicate Unrestricted(user: Option<User>, t: Tables) {
    user.None? || user.value.superAdmin || user.value.access.All? || InAllGroup(user.value.id, t)
  }

  lemma {:induction false} GroupsOfMeans(ms: seq<Membership>, u: int, g: Group)
    ensures g in GroupsOf(ms, u) <==> Membership(u, g) in ms
  {
    if ms == [] {
    } else {
      GroupsOfMeans(ms[1..], u, g);
      assert ms == [ms[0]] + ms[1..];
    }
  }

  lemma {:induction false} SomeAllMeans(gs: seq<Group>)
    ensures SomeAll(gs) <==> exists g :: g in gs && g.access.All?
  {
    if gs == [] {
    } else {
      SomeAllMeans(gs[1..]);
      assert gs == [gs[0]] + gs[1..];
    }
  }

  lemma {:induction false} CustomersGroupIdsMeans(gs: seq<Group>, id: int)
    ensures id in CustomersGroupIds(gs) <==> Group(id, Customers) in gs
  {
    if gs == [] {
    } else {
      CustomersGroupIdsMeans(gs[1..], id);
      assert gs == [gs[0]] + gs[1..];
    }
  }

  lemma {:induction false} CustomersOfMeans(rows: seq<ScopeRow>, holders: seq<int>, c: int)
    ensures c in CustomersOf(rows, holders) <==> exists h :: h in holders && ScopeRow(h, c) in rows
  {
    if rows == [] {
    } else {
      CustomersOfMeans(rows[1..], holders, c);
      assert rows == [rows[0]] + rows[1..];
      if rows[0].holder in holders && rows[0].customer == c {
        assert ScopeRow(rows[0].holder, c) in rows;
      }
    }
  }

  lemma UnscopedMeans(user: Option<User>, t: Tables)
    ensures ResolveScope(user, t).Unscoped? <==> Unrestricted(user, t)
  {
    if user.Some? {
      var u := user.value.id;
      var gs := GroupsOf(t.memberships, u);
      SomeAllMeans(gs);
      forall g {
        GroupsOfMeans(t.memberships, u, g);
      }
      if InAllGroup(u, t) {
        var m :| m in t.memberships && m.user == u && m.group.access.All?;
        assert m == Membership(u, m.group) && m.group in gs;
      }
    }
  }

  lemma ViaGroups(u: int, t: Tables, c: int)
    ensures c in CustomersOf(t.groupRows, CustomersGroupIds(GroupsOf(t.memberships, u))) <==> GroupCustomer(u, t, c)
  {
    var gs := GroupsOf(t.memberships, u);
    var ids := CustomersGroupIds(gs);
    CustomersOfMeans(t.groupRows, ids, c);
    forall id
      ensures id in ids <==> Membership(u, Group(id, Customers)) in t.memberships
    {
      CustomersGroupIdsMeans(gs, id);
      GroupsOfMeans(t.memberships, u, Group(id, Customers));
    }
    if GroupCustomer(u, t, c) {
      var m :| m in t.memberships && m.user == u && m.group.access.Customers? && ScopeRow(m.group.id, c) in t.groupRows;
      assert m == Membership(u, Group(m.group.id, Customers)) && m.group.id in ids;
    }
    if c in CustomersOf(t.groupRows, ids) {
      var id :| id in ids && ScopeRow(id, c) in t.groupRows;
      assert Membership(u, Group(id, Customers)) in t.memberships;
    }
  }

  /** A user sees a customer exactly if the user is unrestricted, or holds a row for it, or is in
      a CUSTOMERS group that holds one. */
  lemma ResolveMeaning(user: Option<User>, t: Tables, c: int)
    ensures Sees(ResolveScope(user, t), c)
            <==> Unrestricted(user, t)
                 || OwnCustomer(user.value.id, t, c) || GroupCustomer(user.value.id, t, c)
  {
    UnscopedMeans(user, t);
    if user.Some? {
      var u := user.value.id;
      CustomersOfMeans(t.userRows, [u], c);
      ViaGroups(u, t, c);
      NobodyHolds(t.groupRows, c);
      if OwnCustomer(u, t, c) {
        assert u in [u];
      }
    }
  }

  lemma NobodyHolds(rows: seq<ScopeRow>, c: int)
    ensures c !in CustomersOf(rows, [])
  {
    CustomersOfMeans(rows, [], c);
  }

  /** Every row of `t` is in `u`, in whatever order. */
  ghost predicate Grows(t: Tables, u: Tables) {
    && (forall m <- t.memberships :: m in u.memberships)
    && (forall r <- t.userRows :: r in u.userRows)
    && (forall r <- t.groupRows :: r in u.groupRows)
  }

  /** Monotone: a membership or a row more never takes a customer from anybody. */
  lemma ResolveMonotone(user: Option<User>, t: Tables, u: Tables, c: int)
    requires Grows(t, u) && Sees(ResolveScope(user, t), c)
    ensures Sees(ResolveScope(user, u), c)
  {
    ResolveMeaning(user, t, c);
    ResolveMeaning(user, u, c);
  }

  /** Nor does turning a group from CUSTOMERS to ALL, though it then counts for none of its rows. */
  lemma WideningAGroupIsMonotone(user: Option<User>, t: Tables, u: Tables, group: int, c: int)
    requires forall m <- t.memberships ::
               if m.group.id == group then m.(group := Group(group, All)) in u.memberships else m in u.memberships
    requires u.userRows == t.userRows && u.groupRows == t.groupRows
    requires Sees(ResolveScope(user, t), c)
    ensures Sees(ResolveScope(user, u), c)
  {
    ResolveMeaning(user, t, c);
    ResolveMeaning(user, u, c);
  }

  // ---------------------------------------------------------------- Prisma filters

  datatype Field = Id | OrgId | CustomerId | ServerId | UserId | Server | IssuedFor

  /** `Equals(None)` is a comparison with null; `Reaches` is a filter on a relation. */
  datatype Cond = Equals(value: Option<int>) | In(ids: set<int>) | Reaches(column: Field, ids: set<int>)

  /** A `where` object: its fields, and its `AND` and `OR` keys (empty when absent; the source
      never writes an empty `OR`). */
  datatype Where = Where(fields: map<Field, Cond>, ands: seq<Where>, ors: seq<Where>)

  /** A row, with the rows its relations lead to; a relation that is null is absent. */
  datatype Row = Row(values: map<Field, Option<int>>, related: map<Field, map<Field, Option<int>>>)

  function Column(values: map<Field, Option<int>>, f: Field): Option<int> {
    if f in values then values[f] else None
  }

  predicate Among(v: Option<int>, ids: set<int>) { v.Some? && v.value in ids }

  predicate Holds(c: Cond, f: Field, row: Row) {
    match c
    case Equals(v) => Column(row.values, f) == v
    case In(ids) => Among(Column(row.values, f), ids)
    case Reaches(column, ids) => f in row.related && Among(Column(row.related[f], column), ids)
  }

  ghost predicate FieldsHold(fields: map<Field, Cond>, row: Row) {
    forall f <- fields :: Holds(fields[f], f, row)
  }

  ghost predicate Admits(w: Where, row: Row) {
    && FieldsHold(w.fields, row)
    && (forall i :: 0 <= i < |w.ands| ==> Admits(w.ands[i], row))
    && (w.ors != [] ==> exists i :: 0 <= i < |w.ors| && Admits(w.ors[i], row))
  }

  const ANYTHING := Where(map[], [], [])

  function Fields(fields: map<Field, Cond>): Where { Where(fields, [], []) }

  /** `{ ...first, ...second }`: of a key in both, the second's value is what remains. */
  function Spread(first: Where, second: Where): Where {
    Where(
      first.fields + second.fields,
      if second.ands != [] then second.ands else first.ands,
      if second.ors != [] then second.ors else first.ors)
  }

  /** `{ ...base, AND: [...base's, w] }`. */
  function Compose(base: Where, w: Where): Where { base.(ands := base.ands + [w]) }

  function ServerScopeWhere(s: Scope): Where {
    if s.Unscoped? then ANYTHING else Fields(map[CustomerId := In(s.customers)])
  }

  function CustomerScopeWhere(s: Scope): Where {
    if s.Unscoped? then ANYTHING else Fields(map[Id := In(s.customers)])
  }

  function RelationScopeWhere(s: Scope, relation: Field): Where {
    if s.Unscoped? then ANYTHING else Fields(map[relation := Reaches(CustomerId, s.customers)])
  }

  function SessionScopeWhere(s: Scope, me: int): Where {
    if s.Unscoped? then ANYTHING
    else
      Where(map[], [], [
        Fields(map[Server := Reaches(CustomerId, s.customers)]),
        Fields(map[ServerId := Equals(None), UserId := Equals(Some(me))])])
  }

  // ---------------------------------------------------------------- guards

  datatype Guard = Pass | NotFound

  function AssertServerInScope(s: Scope, server: Option<Row>): Guard {
    if s.Unscoped? then Pass
    else if server.None? || !Among(Column(server.value.values, CustomerId), s.customers) then NotFound
    else Pass
  }

  function AssertCustomerInScope(s: Scope, customer: Option<int>): Guard {
    if s.Unscoped? then Pass
    else if customer.None? || customer.value !in s.customers then NotFound
    else Pass
  }

  /** Filter and guard agree, for servers without a customer too. */
  lemma ServerFilterIsGuard(s: Scope, row: Row)
    ensures Admits(ServerScopeWhere(s), row) <==> AssertServerInScope(s, Some(row)).Pass?
  {
    if s.Scoped? {
      assert CustomerId in ServerScopeWhere(s).fields;
    }
  }

  lemma CustomerFilterIsGuard(s: Scope, row: Row)
    ensures Admits(CustomerScopeWhere(s), row) <==> AssertCustomerInScope(s, Column(row.values, Id)).Pass?
  {
    if s.Scoped? {
      assert Id in CustomerScopeWhere(s).fields;
    }
  }

  // ---------------------------------------------------------------- composing filters

  /** With `AND` a filter is a conjunction: for every base filter, whatever keys it has. */
  lemma ComposeIsConjunction(base: Where, w: Where, row: Row)
    ensures Admits(Compose(base, w), row) <==> Admits(base, row) && Admits(w, row)
  {
    var both := Compose(base, w);
    var n := |base.ands|;
    assert forall i :: 0 <= i < n ==> both.ands[i] == base.ands[i];
    assert both.ands[n] == w;
  }

  function Forget(base: Where, w: Where): Where {
    Where(base.fields - w.fields.Keys, if w.ands != [] then [] else base.ands, if w.ors != [] then [] else base.ors)
  }

  /** With a spread it is the conjunction with what the second object leaves of the first: the
      conditions under keys of its own are forgotten. */
  lemma SpreadForgets(first: Where, second: Where, row: Row)
    ensures Admits(Spread(first, second), row) <==> Admits(Forget(first, second), row) && Admits(second, row)
  {
    FieldsOfSpread(first.fields, second.fields, row);
    hide FieldsHold;
  }

  lemma FieldsOfSpread(a: map<Field, Cond>, b: map<Field, Cond>, row: Row)
    ensures FieldsHold(a + b, row) <==> FieldsHold(a - b.Keys, row) && FieldsHold(b, row)
  {
    if FieldsHold(a + b, row) {
      forall f | f in a - b.Keys
        ensures Holds(a[f], f, row)
      {
        assert f in a + b;
      }
      forall f | f in b
        ensures Holds(b[f], f, row)
      {
        assert f in a + b;
      }
    } else if FieldsHold(b, row) {
      var f :| f in a + b && !Holds((a + b)[f], f, row);
      assert f in a - b.Keys;
    }
  }

  /** So a spread of the server filter is a conjunction when the base has no `customerId` key, in
      either order. */
  lemma ServerSpreadIsConjunction(base: Where, s: Scope, row: Row)
    requires CustomerId !in base.fields
    ensures Admits(Spread(base, ServerScopeWhere(s)), row) <==> Admits(base, row) && Admits(ServerScopeWhere(s), row)
    ensures Admits(Spread(ServerScopeWhere(s), base), row) <==> Admits(base, row) && Admits(ServerScopeWhere(s), row)
  {
    SpreadForgets(base, ServerScopeWhere(s), row);
    assert base.fields - ServerScopeWhere(s).fields.Keys == base.fields;
    SpreadForgets(ServerScopeWhere(s), base, row);
    assert ServerScopeWhere(s).fields - base.fields.Keys == ServerScopeWhere(s).fields;
    hide FieldsHold;
    AnythingAdmits(row);
  }

  lemma AnythingAdmits(row: Row)
    ensures Admits(ANYTHING, row)
  {
  }

  function LookUp(id: int, org: int): Where { Fields(map[Id := Equals(Some(id)), OrgId := Equals(Some(org))]) }

  /** Looking a customer up by id with the filter spread over it asks for that customer and no
      other exactly if the scope has no other customer; with any other in it, the lookup of a
      customer out of scope finds a row. */
  lemma LookUpSpreadIsConjunctionIff(id: int, org: int, s: Scope)
    ensures (forall row :: Admits(Spread(LookUp(id, org), CustomerScopeWhere(s)), row)
                           <==> Admits(LookUp(id, org), row) && Admits(CustomerScopeWhere(s), row))
            <==> s.Unscoped? || s.customers <= {id}
  {
    if s.Unscoped? {
      assert Spread(LookUp(id, org), CustomerScopeWhere(s)) == LookUp(id, org);
    } else {
      forall row
        ensures Admits(Spread(LookUp(id, org), CustomerScopeWhere(s)), row)
                <==> Column(row.values, OrgId) == Some(org) && Among(Column(row.values, Id), s.customers)
      {
        SpreadLookUpMeans(id, org, s, row);
      }
      forall row
        ensures Admits(LookUp(id, org), row)
                <==> Column(row.values, OrgId) == Some(org) && Column(row.values, Id) == Some(id)
      {
        LookUpMeans(id, org, row);
      }
      forall row
        ensures Admits(CustomerScopeWhere(s), row) <==> Among(Column(row.values, Id), s.customers)
      {
        CustomerFilterIsGuard(s, row);
      }
      if !(s.customers <= {id}) {
        var other := Outsider(s.customers, id);
        var row := Row(map[Id := Some(other), OrgId := Some(org)], map[]);
        assert Admits(Spread(LookUp(id, org), CustomerScopeWhere(s)), row);
        assert !Admits(LookUp(id, org), row);
      }
    }
  }

  lemma Outsider(ids: set<int>, id: int) returns (other: int)
    requires !(ids <= {id})
    ensures other in ids && other != id
  {
    assert (forall x :: x in ids ==> x == id) ==> ids <= {id};
    other :| other in ids && other != id;
  }

  lemma LookUpMeans(id: int, org: int, row: Row)
    ensures Admits(LookUp(id, org), row)
            <==> Column(row.values, OrgId) == Some(org) && Column(row.values, Id) == Some(id)
  {
    var w := LookUp(id, org);
    assert Id in w.fields && OrgId in w.fields;
  }

  lemma SpreadLookUpMeans(id: int, org: int, s: Scope, row: Row)
    requires s.Scoped?
    ensures Admits(Spread(LookUp(id, org), CustomerScopeWhere(s)), row)
            <==> Column(row.values, OrgId) == Some(org) && Among(Column(row.values, Id), s.customers)
  {
    SpreadForgets(LookUp(id, org), CustomerScopeWhere(s), row);
    CustomerFilterIsGuard(s, row);
    var left := Forget(LookUp(id, org), CustomerScopeWhere(s));
    assert left.fields == map[OrgId := Equals(Some(org))];
    assert OrgId in left.fields;
  }

  // ---------------------------------------------------------------- what a user gets to see

  /** From the rows to the list: a user's server list holds exactly the organisation's servers
      whose customer the user is entitled to. */
  lemma VisibleServers(user: Option<User>, t: Tables, org: int, row: Row)
    ensures var base := Fields(map[OrgId := Equals(Some(org))]);
            var customer := Column(row.values, CustomerId);
            Admits(Spread(base, ServerScopeWhere(ResolveScope(user, t))), row)
            <==> Column(row.values, OrgId) == Some(org)
                 && (Unrestricted(user, t)
                     || (customer.Some? && (OwnCustomer(user.value.id, t, customer.value)
                                            || GroupCustomer(user.value.id, t, customer.value))))
  {
    var base := Fields(map[OrgId := Equals(Some(org))]);
    var s := ResolveScope(user, t);
    var customer := Column(row.values, CustomerId);
    assert OrgId in base.fields;
    ServerSpreadIsConjunction(base, s, row);
    ServerFilterIsGuard(s, row);
    UnscopedMeans(user, t);
    if customer.Some? {
      ResolveMeaning(user, t, customer.value);
    }
    hide ResolveScope, GroupCustomer, InAllGroup, Spread, ServerScopeWhere;
  }

  /** A model that reaches a server through a relation, whichever: a scoped user gets the rows that
      have it, and in it a customer in scope. */
  lemma RelationFilterMeans(s: Scope, relation: Field, row: Row)
    ensures Admits(RelationScopeWhere(s, relation), row)
            <==> s.Unscoped?
                 || (relation in row.related && Column(row.related[relation], CustomerId).Some?
                     && Column(row.related[relation], CustomerId).value in s.customers)
  {
    if s.Scoped? {
      assert relation in RelationScopeWhere(s, relation).fields;
    }
  }

  /** Sessions: those on a server in scope, and the user's own without a server; a scoped user
      sees nobody else's. */
  lemma SessionFilterMeans(s: Scope, me: int, row: Row)
    ensures Admits(SessionScopeWhere(s, me), row)
            <==> s.Unscoped?
                 || Admits(RelationScopeWhere(s, Server), row)
                 || (Column(row.values, ServerId).None? && Column(row.values, UserId) == Some(me))
  {
    if s.Scoped? {
      var w := SessionScopeWhere(s, me);
      assert w.ors[0] == RelationScopeWhere(s, Server);
      var own := w.ors[1];
      assert ServerId in own.fields && UserId in own.fields;
      assert Admits(own, row) <==> Column(row.values, ServerId).None? && Column(row.values, UserId) == Some(me);
    }
  }
}

/** Tenant scoping: backend/core/db/base.py and backend/core/db/session.py. */
module Tenancy {
  import opened Prelude

  /** A row of any tenant-scoped model; `fk` is the id of the parent row, if the model has one. */
  datatype Row = Row(model: nat, id: int, tenant: int, fk: Option<int>, value: int)

  type Where = Row -> bool

  /** Which model a model's foreign key points at. */
  type Schema = nat -> nat

  datatype Error = NoTenant | NullScope | NotOwned | ReadOnly | Other
  datatype Outcome = Done | Raised(error: Error)

  /** What request and background code does: plain selects, edits of rows it selected, bulk
      deletes by foreign key behind an ownership assertion, nested tenant scopes, exceptions. */
  datatype Program =
    | Select(model: nat, where: Where)
    | Edit(model: nat, where: Where, value: int)
    | Purge(child: nat, parentId: int, pin: Option<int>)
    | Scope(tenant: Option<int>, body: Program)
    | Then(first: Program, second: Program)
    | Raise(error: Error)
    | Try(body: Program)

  /** `seen` collects the rows the program's selects returned. */
  datatype State = State(store: seq<Row>, ambient: Option<int>, readonly: bool, seen: seq<seq<Row>>)

  // ---- The table ---------------------------------------------------------

  predicate Sees(r: Row, tenant: int, model: nat, where: Where) {
    r.tenant == tenant && r.model == model && where(r)
  }

  /** A select with the tenant filter on it. */
  function Selected(store: seq<Row>, tenant: int, model: nat, where: Where): seq<Row> {
    if store == [] then []
    else
      var r := store[|store| - 1];
      Selected(store[..|store| - 1], tenant, model, where) + (if Sees(r, tenant, model, where) then [r] else [])
  }

  function Edited(store: seq<Row>, tenant: int, model: nat, where: Where, value: int): seq<Row> {
    if store == [] then []
    else
      var r := store[|store| - 1];
      Edited(store[..|store| - 1], tenant, model, where, value)
          + [if Sees(r, tenant, model, where) then r.(value := value) else r]
  }

  /** The bulk delete: it has no tenant in its WHERE clause. */
  function Deleted(store: seq<Row>, child: nat, parentId: int): seq<Row> {
    if store == [] then []
    else
      var r := store[|store| - 1];
      Deleted(store[..|store| - 1], child, parentId) + (if r.model == child && r.fk == Some(parentId) then [] else [r])
  }

  predicate Owned(store: seq<Row>, tenant: int, model: nat, id: int) {
    exists r :: r in store && r.tenant == tenant && r.model == model && r.id == id
  }

  // ---- Programs ----------------------------------------------------------

  function Exec(schema: Schema, p: Program, s: State): (State, Outcome) {
    match p
    case Select(model, where) =>
      if s.ambient.None? then (s, Raised(NoTenant))
      else (s.(seen := s.seen + [Selected(s.store, s.ambient.value, model, where)]), Done)
    case Edit(model, where, value) =>
      if s.ambient.None? then (s, Raised(NoTenant))
      else if s.readonly && Selected(s.store, s.ambient.value, model, where) != [] then (s, Raised(ReadOnly))
      else (s.(store := Edited(s.store, s.ambient.value, model, where, value)), Done)
    case Purge(child, parentId, pin) =>
      var tenant := if pin.Some? then pin else s.ambient;
      if tenant.None? then (s, Raised(NoTenant))
      else if !Owned(s.store, tenant.value, schema(child), parentId) then (s, Raised(NotOwned))
      else if s.readonly then (s, Raised(ReadOnly))
      else (s.(store := Deleted(s.store, child, parentId)), Done)
    case Scope(tenant, body) =>
      if tenant.None? then (s, Raised(NullScope))
      else
        var (t, o) := Exec(schema, body, s.(ambient := tenant));
        (t.(ambient := s.ambient), o)
    case Then(first, second) =>
      var (t, o) := Exec(schema, first, s);
      if o.Raised? then (t, o) else Exec(schema, second, t)
    case Raise(error) => (s, Raised(error))
    case Try(body) => (Exec(schema, body, s).0, Done)
  }

  /** The tenants a program names in its scopes and its pinned assertions. */
  function Names(p: Program): set<int> {
    match p
    case Purge(_, _, pin) => if pin.Some? then {pin.value} else {}
    case Scope(tenant, body) => Names(body) + (if tenant.Some? then {tenant.value} else {})
    case Then(first, second) => Names(first) + Names(second)
    case Try(body) => Names(body)
    case Select(_, _) => {}
    case Edit(_, _, _) => {}
    case Raise(_) => {}
  }

  // ---- The session -------------------------------------------------------

  class Session {
    const schema: Schema
    const readonly: bool
    var store: seq<Row>
    var ambient: Option<int>
    var seen: seq<seq<Row>>

    constructor (schema: Schema, store: seq<Row>, ambient: Option<int>, readonly: bool)
      ensures this.schema == schema && Snapshot() == State(store, ambient, readonly, [])
    {
      this.schema, this.store, this.ambient, this.readonly, seen := schema, store, ambient, readonly, [];
    }

    ghost function Snapshot(): State reads this {
      State(store, ambient, readonly, seen)
    }

    /** Every select passes here: without a tenant it is refused; with one it returns, in the
        order of the store, the rows asked for that belong to the ambient tenant, and no other. */
    method Execute(model: nat, where: Where) returns (rows: Option<seq<Row>>)
      ensures rows.None? <==> ambient.None?
      ensures rows.Some? ==> rows.value == Selected(store, ambient.value, model, where)
      ensures rows.Some? ==>
                forall r :: r in rows.value <==>
                  r in store && r.tenant == ambient.value && r.model == model && where(r)
    {
      if ambient.None? {
        return None;
      }
      var tenant, found := ambient.value, [];
      for i := 0 to |store|
        invariant found == Selected(store[..i], tenant, model, where)
      {
        assert store[..i + 1][..i] == store[..i];
        var r := store[i];
        if r.tenant == tenant && r.model == model && where(r) {
          found := found + [r];
        }
      }
      assert store[..|store|] == store;
      SelectedHolds(store, tenant, model, where);
      return Some(found);
    }

    /** The ownership check, run inside a scope of its own when a tenant is pinned. */
    method AssertTenantOwns(model: nat, id: int, pin: Option<int>) returns (o: Outcome)
      modifies this
      ensures Snapshot() == old(Snapshot())
      ensures o == (var tenant := if pin.Some? then pin else ambient;
                    if tenant.None? then Raised(NoTenant)
                    else if Owned(store, tenant.value, model, id) then Done else Raised(NotOwned))
    {
      var saved := ambient;
      if pin.Some? {
        ambient := pin;
      }
      var found := Execute(model, (r: Row) => r.id == id);
      if ambient.Some? {
        SelectedFinds(store, ambient.value, model, id);
      }
      ambient := saved;
      if found.None? {
        return Raised(NoTenant);
      }
      return if found.value == [] then Raised(NotOwned) else Done;
    }

    /** A program; a scope puts the ambient tenant back however its body ends. */
    method Run(p: Program) returns (o: Outcome)
      modifies this
      ensures (Snapshot(), o) == Exec(schema, p, old(Snapshot()))
      decreases p
    {
      match p {
        case Select(model, where) =>
          var rows := Execute(model, where);
          if rows.None? {
            return Raised(NoTenant);
          }
          seen := seen + [rows.value];
          return Done;
        case Edit(model, where, value) =>
          var rows := Execute(model, where);
          if rows.None? {
            return Raised(NoTenant);
          }
          if readonly && rows.value != [] {
            return Raised(ReadOnly);
          }
          store := Edited(store, ambient.value, model, where, value);
          return Done;
        case Purge(child, parentId, pin) =>
          o := AssertTenantOwns(schema(child), parentId, pin);
          if o.Raised? {
            return;
          }
          if readonly {
            return Raised(ReadOnly);
          }
          store := Deleted(store, child, parentId);
          return Done;
        case Scope(tenant, body) =>
          if tenant.None? {
            return Raised(NullScope);
          }
          var token := ambient;
          ambient := tenant;
          o := Run(body);
          ambient := token;
        case Then(first, second) =>
          o := Run(first);
          if o.Done? {
            o := Run(second);
          }
        case Raise(error) =>
          return Raised(error);
        case Try(body) =>
          var ignored := Run(body);
          return Done;
      }
    }
  }

  lemma {:induction false} SelectedHolds(store: seq<Row>, tenant: int, model: nat, where: Where)
    ensures forall r :: r in Selected(store, tenant, model, where) <==>
              r in store && r.tenant == tenant && r.model == model && where(r)
  {
    if store != [] {
      SelectedHolds(store[..|store| - 1], tenant, model, where);
      assert store == store[..|store| - 1] + [store[|store| - 1]];
    }
  }

  lemma {:induction false} SelectedFinds(store: seq<Row>, tenant: int, model: nat, id: int)
    ensures Selected(store, tenant, model, (r: Row) => r.id == id) == [] <==> !Owned(store, tenant, model, id)
  {
    if store != [] {
      var front, r := store[..|store| - 1], store[|store| - 1];
      SelectedFinds(front, tenant, model, id);
      assert store == front + [r];
    }
  }

  // ---- Non-interference --------------------------------------------------

  /** A row belongs to the tenant its parent belongs to. */
  ghost predicate Coherent(schema: Schema, store: seq<Row>) {
    forall x, y :: x in store && y in store && x.fk == Some(y.id) && schema(x.model) == y.model ==> x.tenant == y.tenant
  }

  /** The rows of the tenants inside, or outside, a set. */
  function View(store: seq<Row>, tenants: set<int>, inside: bool): seq<Row> {
    if store == [] then []
    else
      var r := store[|store| - 1];
      View(store[..|store| - 1], tenants, inside) + (if (r.tenant in tenants) == inside then [r] else [])
  }

  lemma {:induction false} ViewHolds(store: seq<Row>, tenants: set<int>, inside: bool)
    ensures forall r :: r in View(store, tenants, inside) <==> r in store && (r.tenant in tenants) == inside
  {
    if store != [] {
      ViewHolds(store[..|store| - 1], tenants, inside);
      assert store == store[..|store| - 1] + [store[|store| - 1]];
    }
  }

  lemma {:induction false} ViewSnoc(front: seq<Row>, r: Row, tenants: set<int>, inside: bool)
    ensures View(front + [r], tenants, inside) ==
        View(front, tenants, inside) + (if (r.tenant in tenants) == inside then [r] else [])
  {
    assert (front + [r])[..|front|] == front;
  }

  lemma {:induction false} SelectedInView(store: seq<Row>, tenants: set<int>, tenant: int, model: nat, where: Where)
    requires tenant in tenants
    ensures Selected(View(store, tenants, true), tenant, model, where) == Selected(store, tenant, model, where)
  {
    if store != [] {
      var front, r := store[..|store| - 1], store[|store| - 1];
      SelectedInView(front, tenants, tenant, model, where);
      var v := View(front, tenants, true);
      assert (v + [r])[..|v|] == v;
      assert v + [] == v;
    }
  }

  lemma {:induction false} EditedInView(
      store: seq<Row>, tenants: set<int>, tenant: int, model: nat, where: Where, value: int)
    requires tenant in tenants
    ensures var after := Edited(store, tenant, model, where, value);
            && View(after, tenants, true) == Edited(View(store, tenants, true), tenant, model, where, value)
            && View(after, tenants, false) == View(store, tenants, false)
  {
    if store != [] {
      var front, r := store[..|store| - 1], store[|store| - 1];
      EditedInView(front, tenants, tenant, model, where, value);
      var after, v := Edited(front, tenant, model, where, value), View(front, tenants, true);
      var r' := if Sees(r, tenant, model, where) then r.(value := value) else r;
      ViewSnoc(after, r', tenants, true);
      ViewSnoc(after, r', tenants, false);
      assert (v + [r])[..|v|] == v;
      assert v + [] == v;
    }
  }

  lemma {:induction false} DeletedInside(store: seq<Row>, tenants: set<int>, child: nat, parentId: int)
    ensures View(Deleted(store, child, parentId), tenants, true) == Deleted(View(store, tenants, true), child, parentId)
  {
    if store != [] {
      var front, r := store[..|store| - 1], store[|store| - 1];
      DeletedInside(front, tenants, child, parentId);
      var after, v := Deleted(front, child, parentId), View(front, tenants, true);
      ViewSnoc(after, r, tenants, true);
      assert (v + [r])[..|v|] == v;
      assert v + [] == v && after + [] == after;
    }
  }

  lemma {:induction false} DeletedOutside(store: seq<Row>, tenants: set<int>, child: nat, parentId: int)
    requires forall r :: r in store && r.model == child && r.fk == Some(parentId) ==> r.tenant in tenants
    ensures View(Deleted(store, child, parentId), tenants, false) == View(store, tenants, false)
  {
    if store != [] {
      var front, r := store[..|store| - 1], store[|store| - 1];
      DeletedOutside(front, tenants, child, parentId);
      var after := Deleted(front, child, parentId);
      ViewSnoc(after, r, tenants, false);
      assert after + [] == after;
    }
  }

  lemma {:induction false} DeletedHolds(store: seq<Row>, child: nat, parentId: int)
    ensures forall r :: r in Deleted(store, child, parentId) <==>
        r in store && !(r.model == child && r.fk == Some(parentId))
  {
    if store != [] {
      DeletedHolds(store[..|store| - 1], child, parentId);
      assert store == store[..|store| - 1] + [store[|store| - 1]];
    }
  }

  predicate SameKeys(a: Row, b: Row) {
    a.model == b.model && a.id == b.id && a.tenant == b.tenant && a.fk == b.fk
  }

  lemma {:induction false} EditedHolds(store: seq<Row>, tenant: int, model: nat, where: Where, value: int)
    ensures forall r :: r in Edited(store, tenant, model, where, value) ==> exists q :: q in store && SameKeys(q, r)
    ensures Selected(store, tenant, model, where) == [] ==> Edited(store, tenant, model, where, value) == store
  {
    if store != [] {
      var front, last := store[..|store| - 1], store[|store| - 1];
      EditedHolds(front, tenant, model, where, value);
      assert store == front + [last];
      assert SameKeys(last, if Sees(last, tenant, model, where) then last.(value := value) else last);
    }
  }

  lemma EditedFrom(store: seq<Row>, tenant: int, model: nat, where: Where, value: int, r: Row) returns (q: Row)
    requires r in Edited(store, tenant, model, where, value)
    ensures q in store && SameKeys(q, r)
  {
    EditedHolds(store, tenant, model, where, value);
    q :| q in store && SameKeys(q, r);
  }

  lemma EditKeepsCoherent(schema: Schema, store: seq<Row>, tenant: int, model: nat, where: Where, value: int)
    requires Coherent(schema, store)
    ensures Coherent(schema, Edited(store, tenant, model, where, value))
  {
    var after := Edited(store, tenant, model, where, value);
    forall x, y | x in after && y in after && x.fk == Some(y.id) && schema(x.model) == y.model
        ensures x.tenant == y.tenant
    {
      var p := EditedFrom(store, tenant, model, where, value, x);
      var q := EditedFrom(store, tenant, model, where, value, y);
    }
  }

  /** The tenant is back where it was on every exit, normal or by exception. */
  lemma {:induction false} AmbientRestored(schema: Schema, p: Program, s: State)
    ensures Exec(schema, p, s).0.ambient == s.ambient && Exec(schema, p, s).0.readonly == s.readonly
  {
    match p {
      case Scope(tenant, body) => AmbientRestored(schema, body, s.(ambient := tenant));
      case Then(first, second) =>
        AmbientRestored(schema, first, s);
        AmbientRestored(schema, second, Exec(schema, first, s).0);
      case Try(body) => AmbientRestored(schema, body, s);
      case Select(_, _) =>
      case Edit(_, _, _) =>
      case Purge(_, _, _) =>
      case Raise(_) =>
    }
  }

  /** A read-only request leaves the store as it found it, whatever it runs. */
  lemma {:induction false} ReadOnlyWritesNothing(schema: Schema, p: Program, s: State)
    requires s.readonly
    ensures Exec(schema, p, s).0.store == s.store
  {
    match p {
      case Scope(tenant, body) => ReadOnlyWritesNothing(schema, body, s.(ambient := tenant));
      case Then(first, second) =>
        ReadOnlyWritesNothing(schema, first, s);
        AmbientRestored(schema, first, s);
        ReadOnlyWritesNothing(schema, second, Exec(schema, first, s).0);
      case Try(body) => ReadOnlyWritesNothing(schema, body, s);
      case Edit(model, where, value) =>
        if s.ambient.Some? {
          EditedHolds(s.store, s.ambient.value, model, where, value);
        }
      case Select(_, _) =>
      case Purge(_, _, _) =>
      case Raise(_) =>
    }
  }

  /** The database as the tenants of a set would see it if no others existed. */
  function Restricted(s: State, tenants: set<int>): State {
    s.(store := View(s.store, tenants, true))
  }

  /** What a run shows and does is the same with or without the rows of other tenants, and those
      rows come out as they went in. */
  ghost predicate Isolated(schema: Schema, p: Program, s: State, tenants: set<int>) {
    var (t, o) := Exec(schema, p, s);
    && Exec(schema, p, Restricted(s, tenants)) == (Restricted(t, tenants), o)
    && View(t.store, tenants, false) == View(s.store, tenants, false)
    && Coherent(schema, t.store)
  }

  ghost predicate Covers(tenants: set<int>, p: Program, ambient: Option<int>) {
    Names(p) <= tenants && (ambient.Some? ==> ambient.value in tenants)
  }

  /** Tenant isolation, for every program: the results do not depend on the rows of tenants that
      the program is not running for, and those rows do not change. */
  lemma {:induction false} ProgramsAreIsolated(schema: Schema, p: Program, s: State, tenants: set<int>)
    requires Coherent(schema, s.store) && Covers(tenants, p, s.ambient)
    ensures Isolated(schema, p, s, tenants)
  {
    match p {
      case Select(model, where) =>
        if s.ambient.Some? {
          SelectedInView(s.store, tenants, s.ambient.value, model, where);
        }
      case Edit(model, where, value) =>
        EditsAreIsolated(schema, model, where, value, s, tenants);
      case Purge(child, parentId, pin) =>
        PurgesAreIsolated(schema, child, parentId, pin, s, tenants);
      case Scope(tenant, body) =>
        if tenant.Some? {
          ProgramsAreIsolated(schema, body, s.(ambient := tenant), tenants);
        }
      case Then(first, second) =>
        ProgramsAreIsolated(schema, first, s, tenants);
        AmbientRestored(schema, first, s);
        ProgramsAreIsolated(schema, second, Exec(schema, first, s).0, tenants);
      case Raise(error) =>
      case Try(body) =>
        ProgramsAreIsolated(schema, body, s, tenants);
    }
  }

  lemma EditsAreIsolated(schema: Schema, model: nat, where: Where, value: int, s: State, tenants: set<int>)
    requires Coherent(schema, s.store) && Covers(tenants, Edit(model, where, value), s.ambient)
    ensures Isolated(schema, Edit(model, where, value), s, tenants)
  {
    if s.ambient.Some? {
      SelectedInView(s.store, tenants, s.ambient.value, model, where);
      EditedInView(s.store, tenants, s.ambient.value, model, where, value);
      EditKeepsCoherent(schema, s.store, s.ambient.value, model, where, value);
    }
  }

  lemma PurgesAreIsolated(schema: Schema, child: nat, parentId: int, pin: Option<int>, s: State, tenants: set<int>)
    requires Coherent(schema, s.store) && Covers(tenants, Purge(child, parentId, pin), s.ambient)
    ensures Isolated(schema, Purge(child, parentId, pin), s, tenants)
  {
    var tenant := if pin.Some? then pin else s.ambient;
    DeletedInside(s.store, tenants, child, parentId);
    DeletedHolds(s.store, child, parentId);
    if tenant.Some? {
      OwnedInView(s.store, tenants, tenant.value, schema(child), parentId);
    }
    if tenant.Some? && Owned(s.store, tenant.value, schema(child), parentId) {
      var y :| y in s.store && y.tenant == tenant.value && y.model == schema(child) && y.id == parentId;
      DeletedOutside(s.store, tenants, child, parentId);
    }
  }

  lemma OwnedInView(store: seq<Row>, tenants: set<int>, tenant: int, model: nat, id: int)
    requires tenant in tenants
    ensures Owned(View(store, tenants, true), tenant, model, id) <==> Owned(store, tenant, model, id)
  {
    ViewHolds(store, tenants, true);
  }

  /** Two databases that agree on a program's tenants cannot be told apart by it. */
  lemma SameView(schema: Schema, p: Program, s: State, other: seq<Row>, tenants: set<int>)
    requires Coherent(schema, s.store) && Coherent(schema, other) && Covers(tenants, p, s.ambient)
    requires View(s.store, tenants, true) == View(other, tenants, true)
    ensures var (a, o) := Exec(schema, p, s);
            var (b, q) := Exec(schema, p, s.(store := other));
            o == q && a.seen == b.seen && View(a.store, tenants, true) == View(b.store, tenants, true)
  {
    ProgramsAreIsolated(schema, p, s, tenants);
    ProgramsAreIsolated(schema, p, s.(store := other), tenants);
  }

  // ---- Handlers ----------------------------------------------------------

  /** Code that chooses each next statement from the rows it has read and from how the last
      statement ended; None when it is finished. */
  type Handler = (seq<seq<Row>>, Outcome) -> Option<Program>

  /** The first n statements of a handler. */
  function Handle(schema: Schema, h: Handler, s: State, o: Outcome, n: nat): (State, Outcome)
    decreases n
  {
    if n == 0 then (s, o)
    else
      match h(s.seen, o)
      case None => (s, o)
      case Some(p) =>
        var (t, q) := Exec(schema, p, s);
        Handle(schema, h, t, q, n - 1)
  }

  /** Whatever it has read, the handler names no tenant outside the set. */
  ghost predicate StaysWithin(h: Handler, tenants: set<int>, ambient: Option<int>) {
    forall seen, o :: h(seen, o).Some? ==> Covers(tenants, h(seen, o).value, ambient)
  }

  /** Tenant isolation for code that decides as it reads: any number of steps of any handler
      give the same reads, the same choices and the same outcome with the rows of other tenants
      removed, and leave those rows unchanged. */
  lemma {:induction false} HandlersAreIsolated(
    schema: Schema, h: Handler, s: State, o: Outcome, n: nat, tenants: set<int>)
    requires Coherent(schema, s.store) && StaysWithin(h, tenants, s.ambient)
    ensures var (t, q) := Handle(schema, h, s, o, n);
            && Handle(schema, h, Restricted(s, tenants), o, n) == (Restricted(t, tenants), q)
            && View(t.store, tenants, false) == View(s.store, tenants, false)
            && Coherent(schema, t.store)
    decreases n
  {
    if n > 0 && h(s.seen, o).Some? {
      var p := h(s.seen, o).value;
      ProgramsAreIsolated(schema, p, s, tenants);
      AmbientRestored(schema, p, s);
      var (t, q) := Exec(schema, p, s);
      HandlersAreIsolated(schema, h, t, q, n - 1, tenants);
    }
  }

  /** So a handler cannot tell apart two databases that agree on its tenants. */
  lemma SameViewSameReads(
    schema: Schema, h: Handler, s: State, other: seq<Row>, o: Outcome, n: nat, tenants: set<int>)
    requires Coherent(schema, s.store) && Coherent(schema, other) && StaysWithin(h, tenants, s.ambient)
    requires View(s.store, tenants, true) == View(other, tenants, true)
    ensures var (a, x) := Handle(schema, h, s, o, n);
            var (b, y) := Handle(schema, h, s.(store := other), o, n);
            x == y && a.seen == b.seen && View(a.store, tenants, true) == View(b.store, tenants, true)
  {
    HandlersAreIsolated(schema, h, s, o, n, tenants);
    HandlersAreIsolated(schema, h, s.(store := other), o, n, tenants);
  }

  /** A read-only handler writes nothing, however long it runs. */
  lemma {:induction false} ReadOnlyHandlers(schema: Schema, h: Handler, s: State, o: Outcome, n: nat)
    requires s.readonly
    ensures Handle(schema, h, s, o, n).0.store == s.store
    decreases n
  {
    if n > 0 && h(s.seen, o).Some? {
      var p := h(s.seen, o).value;
      ReadOnlyWritesNothing(schema, p, s);
      AmbientRestored(schema, p, s);
      ReadOnlyHandlers(schema, h, Exec(schema, p, s).0, Exec(schema, p, s).1, n - 1);
    }
  }

  /** What the ownership assertion buys a bulk delete: other tenants' rows survive exactly when
      none of them hangs from the row that was checked. */
  lemma PurgeSparesOthersExactly(store: seq<Row>, tenant: int, child: nat, parentId: int)
    ensures View(Deleted(store, child, parentId), {tenant}, false) == View(store, {tenant}, false) <==>
              forall r :: r in store && r.model == child && r.fk == Some(parentId) ==> r.tenant == tenant
  {
    if forall r :: r in store && r.model == child && r.fk == Some(parentId) ==> r.tenant == tenant {
      DeletedOutside(store, {tenant}, child, parentId);
    }
    ViewHolds(store, {tenant}, false);
    ViewHolds(Deleted(store, child, parentId), {tenant}, false);
    DeletedHolds(store, child, parentId);
  }

  // ---- What one statement does ---------------------------------------------

  /** A select shows the ambient tenant's rows asked for, in store order; a null scope is refused
      before its body runs, and any other shows its body that tenant and nobody else after it. */
  lemma SelectShows(schema: Schema, model: nat, where: Where, s: State, tenant: int)
    ensures Exec(schema, Select(model, where), s.(ambient := Some(tenant))) ==
              (s.(ambient := Some(tenant), seen := s.seen + [Selected(s.store, tenant, model, where)]), Done)
    ensures Exec(schema, Scope(Some(tenant), Select(model, where)), s) ==
              (s.(seen := s.seen + [Selected(s.store, tenant, model, where)]), Done)
    ensures forall p :: Exec(schema, Scope(None, p), s) == (s, Raised(NullScope))
    ensures Exec(schema, Select(model, where), s.(ambient := None)) == (s.(ambient := None), Raised(Error.NoTenant))
  {
  }

  /** Selecting goes row by row and keeps the rows as they are. */
  lemma {:induction false} SelectedAre(a: seq<Row>, b: seq<Row>, tenant: int, model: nat, where: Where)
    ensures Selected(a + b, tenant, model, where) ==
              Selected(a, tenant, model, where) + Selected(b, tenant, model, where)
    ensures |a| == 1 ==>
              Selected(a, tenant, model, where) ==
                if a[0].tenant == tenant && a[0].model == model && where(a[0]) then a else []
  {
    if |a| == 1 {
      assert a[..0] == [] && a == [a[0]];
    }
    if b == [] {
      assert a + b == a;
    } else {
      var front := b[..|b| - 1];
      SelectedAre(a, front, tenant, model, where);
      assert (a + b)[..|a + b| - 1] == a + front;
    }
  }

  /** An edit sets the value of exactly the ambient tenant's rows asked for, in place. */
  lemma {:induction false} EditedAt(
      store: seq<Row>, tenant: int, model: nat, where: Where, value: int, i: nat)
    requires i < |store|
    ensures |Edited(store, tenant, model, where, value)| == |store|
    ensures Edited(store, tenant, model, where, value)[i] ==
              if store[i].tenant == tenant && store[i].model == model && where(store[i])
              then store[i].(value := value) else store[i]
  {
    EditedLength(store, tenant, model, where, value);
    var n := |store| - 1;
    EditedLength(store[..n], tenant, model, where, value);
    if i < n {
      EditedAt(store[..n], tenant, model, where, value, i);
    }
  }

  lemma {:induction false} EditedLength(store: seq<Row>, tenant: int, model: nat, where: Where, value: int)
    ensures |Edited(store, tenant, model, where, value)| == |store|
  {
    if store != [] {
      EditedLength(store[..|store| - 1], tenant, model, where, value);
    }
  }

  /** An edit goes through exactly with a tenant, and unless the request is read-only and something
      would change; a purge exactly when the pinned or ambient tenant owns the parent and the request
      may write. What goes through does what it says, and what does not leaves the store alone. */
  lemma WritesExactly(
      schema: Schema, s: State, model: nat, where: Where, value: int, child: nat, parentId: int, pin: Option<int>)
    ensures var (t, o) := Exec(schema, Edit(model, where, value), s);
            && (o == Done <==>
                  && s.ambient.Some?
                  && (!s.readonly || forall r :: r in s.store ==> !Sees(r, s.ambient.value, model, where)))
            && t == (if o == Done then s.(store := Edited(s.store, s.ambient.value, model, where, value)) else s)
    ensures var (t, o) := Exec(schema, Purge(child, parentId, pin), s);
            var tenant := if pin.Some? then pin else s.ambient;
            && (o == Done <==> tenant.Some? && !s.readonly && Owned(s.store, tenant.value, schema(child), parentId))
            && t == (if o == Done then s.(store := Deleted(s.store, child, parentId)) else s)
  {
    if s.ambient.Some? {
      SelectedHolds(s.store, s.ambient.value, model, where);
      var found := Selected(s.store, s.ambient.value, model, where);
      if found != [] {
        assert found[0] in found && Sees(found[0], s.ambient.value, model, where);
      }
    }
  }

  /** A purge takes out exactly the rows of the child model that hang from the parent. */
  lemma {:induction false} DeletedAre(a: seq<Row>, b: seq<Row>, child: nat, parentId: int)
    ensures Deleted(a + b, child, parentId) == Deleted(a, child, parentId) + Deleted(b, child, parentId)
    ensures |a| == 1 ==>
              Deleted(a, child, parentId) == if a[0].model == child && a[0].fk == Some(parentId) then [] else a
  {
    if |a| == 1 {
      assert a[..0] == [] && a == [a[0]];
    }
    if b == [] {
      assert a + b == a;
    } else {
      var front := b[..|b| - 1];
      DeletedAre(a, front, child, parentId);
      assert (a + b)[..|a + b| - 1] == a + front;
    }
  }

  /** Of two statements the second runs exactly when the first ends well, from where that left the
      state; a caught exception ends well and undoes nothing. */
  lemma InSequence(schema: Schema, p: Program, q: Program, s: State, error: Error)
    ensures Exec(schema, Then(Raise(error), q), s) == (s, Raised(error))
    ensures Exec(schema, p, s).1 == Done ==> Exec(schema, Then(p, q), s) == Exec(schema, q, Exec(schema, p, s).0)
    ensures Exec(schema, p, s).1 != Done ==> Exec(schema, Then(p, q), s) == Exec(schema, p, s)
    ensures Exec(schema, Then(Try(p), q), s) == Exec(schema, q, Exec(schema, p, s).0)
  {
  }

  /** A handler goes on where it stopped: more statements from where the first ones left it. */
  lemma {:induction false} HandleGoesOn(schema: Schema, h: Handler, s: State, o: Outcome, n: nat, m: nat)
    ensures var (t, q) := Handle(schema, h, s, o, n);
            Handle(schema, h, s, o, n + m) == Handle(schema, h, t, q, m)
    ensures Handle(schema, h, s, o, 1) == if h(s.seen, o).Some? then Exec(schema, h(s.seen, o).value, s) else (s, o)
    decreases n
  {
    if n > 0 && h(s.seen, o).Some? {
      var (t, q) := Exec(schema, h(s.seen, o).value, s);
      HandleGoesOn(schema, h, t, q, n - 1, m);
    } else if n > 0 && m > 0 {
      assert Handle(schema, h, s, o, m) == (s, o);
    }
  }
}

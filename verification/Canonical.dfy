/** The canonical form of audit content: `_canonical` in backend/core/audit/chain.py. */
module Canonical {
  import opened Prelude

  /** A Python value as the audit log meets it. `Text` stands for every value that
      `_canonical` replaces by a rendering: a UUID, a datetime, a float, a Decimal.
      An object is its items in insertion order, each under `str(key)`; two keys may
      share that text only when the dictionary mixes key types. */
  datatype Value =
    | Null
    | Bool(b: bool)
    | Int(i: int)
    | Str(s: string)
    | Text(rendering: string)
    | List(items: seq<Value>)
    | Obj(members: seq<Member>)

  datatype Member = Member(key: string, value: Value)

  // ---- The function ------------------------------------------------------

  function Canon(v: Value): Value
    decreases v, 0
  {
    match v
    case Text(t) => Str(t)
    case List(items) => List(CanonItems(items))
    case Obj(members) => Obj(KeepLast(SortByKey(CanonMembers(members))))
    case _ => v
  }

  function CanonItems(items: seq<Value>): seq<Value>
    decreases items, 1
  {
    if items == [] then [] else [Canon(items[0])] + CanonItems(items[1..])
  }

  function CanonMembers(members: seq<Member>): seq<Member>
    decreases members, 1
  {
    if members == [] then []
    else [Member(members[0].key, Canon(members[0].value))] + CanonMembers(members[1..])
  }

  /** A stable sort by key. */
  function SortByKey(s: seq<Member>): seq<Member> {
    if s == [] then [] else Insert(s[0], SortByKey(s[1..]))
  }

  function Insert(m: Member, s: seq<Member>): seq<Member> {
    if s == [] || Le(m.key, s[0].key) then [m] + s else [s[0]] + Insert(m, s[1..])
  }

  /** A dict comprehension over sorted items: of several items under one key the last stays. */
  function KeepLast(s: seq<Member>): seq<Member> {
    if |s| <= 1 then s
    else if s[0].key == s[1].key then KeepLast(s[1..])
    else [s[0]] + KeepLast(s[1..])
  }

  // ---- What its results look like ----------------------------------------

  ghost predicate Sorted(s: seq<Member>) {
    forall i, j :: 0 <= i < j < |s| ==> Le(s[i].key, s[j].key)
  }

  ghost predicate DistinctKeys(s: seq<Member>) {
    forall i, j :: 0 <= i < j < |s| ==> s[i].key != s[j].key
  }

  ghost predicate InForm(v: Value)
    decreases v
  {
    match v
    case Text(_) => false
    case List(items) => forall i :: 0 <= i < |items| ==> InForm(items[i])
    case Obj(ms) => Sorted(ms) && DistinctKeys(ms) && forall i :: 0 <= i < |ms| ==> InForm(ms[i].value)
    case _ => true
  }

  /** A string-keyed JSON value without fractional numbers: no renderings, no repeated keys. */
  ghost predicate Json(v: Value)
    decreases v
  {
    match v
    case Text(_) => false
    case List(items) => forall i :: 0 <= i < |items| ==> Json(items[i])
    case Obj(ms) => DistinctKeys(ms) && forall i :: 0 <= i < |ms| ==> Json(ms[i].value)
    case _ => true
  }

  /** String-keyed at every depth; renderings are allowed. */
  ghost predicate Keyed(v: Value)
    decreases v
  {
    match v
    case List(items) => forall i :: 0 <= i < |items| ==> Keyed(items[i])
    case Obj(ms) => DistinctKeys(ms) && forall i :: 0 <= i < |ms| ==> Keyed(ms[i].value)
    case _ => true
  }

  /** Equal up to the order of object members, at every depth (section 4 of RFC 8259). */
  ghost predicate Same(v: Value, w: Value)
    decreases v
  {
    match v
    case List(a) =>
      w.List? && |a| == |w.items| && forall i :: 0 <= i < |a| ==> Same(a[i], w.items[i])
    case Obj(a) =>
      w.Obj? && |a| == |w.members| && forall i :: 0 <= i < |a| ==> HasMember(a[i], w.members)
    case _ => v == w
  }

  ghost predicate HasMember(m: Member, ms: seq<Member>)
    decreases m
  {
    exists j :: 0 <= j < |ms| && m.key == ms[j].key && Same(m.value, ms[j].value)
  }

  lemma {:induction false} ItemsCanon(items: seq<Value>)
    ensures |CanonItems(items)| == |items|
    ensures forall i :: 0 <= i < |items| ==> CanonItems(items)[i] == Canon(items[i])
  {
    if items != [] {
      ItemsCanon(items[1..]);
    }
  }

  lemma {:induction false} MembersCanonAt(ms: seq<Member>)
    ensures |CanonMembers(ms)| == |ms|
    ensures forall i :: 0 <= i < |ms| ==> CanonMembers(ms)[i] == Member(ms[i].key, Canon(ms[i].value))
  {
    if ms != [] {
      MembersCanonAt(ms[1..]);
    }
  }

  // ---- Sorting -----------------------------------------------------------

  lemma {:induction false} InsertSorts(m: Member, s: seq<Member>)
    requires Sorted(s)
    ensures Sorted(Insert(m, s)) && |Insert(m, s)| == |s| + 1
    ensures forall x :: x in Insert(m, s) <==> x == m || x in s
  {
    if s == [] {
    } else if Le(m.key, s[0].key) {
      forall j | 0 <= j < |s| ensures Le(m.key, s[j].key) {
        LeTotal(s[0].key, s[0].key);
        LeTransitive(m.key, s[0].key, s[j].key);
      }
    } else {
      InsertSorts(m, s[1..]);
      LeTotal(m.key, s[0].key);
      var r := Insert(m, s[1..]);
      forall j | 0 <= j < |r| ensures Le(s[0].key, r[j].key) {
        assert r[j] in r;
      }
    }
  }

  lemma {:induction false} SortSorts(s: seq<Member>)
    ensures Sorted(SortByKey(s)) && |SortByKey(s)| == |s|
    ensures forall x :: x in SortByKey(s) <==> x in s
  {
    if s != [] {
      SortSorts(s[1..]);
      InsertSorts(s[0], SortByKey(s[1..]));
    }
  }

  lemma {:induction false} InsertDistinct(m: Member, s: seq<Member>)
    requires Sorted(s) && DistinctKeys(s) && forall x :: x in s ==> x.key != m.key
    ensures DistinctKeys(Insert(m, s))
  {
    if s != [] && !Le(m.key, s[0].key) {
      InsertDistinct(m, s[1..]);
      InsertSorts(m, s[1..]);
      var r := Insert(m, s[1..]);
      forall j | 0 <= j < |r| ensures s[0].key != r[j].key {
        assert r[j] in r;
        assert s[0] in s;
      }
    }
  }

  lemma {:induction false} SortDistinct(s: seq<Member>)
    requires DistinctKeys(s)
    ensures DistinctKeys(SortByKey(s))
  {
    if s != [] {
      SortDistinct(s[1..]);
      SortSorts(s[1..]);
      InsertDistinct(s[0], SortByKey(s[1..]));
    }
  }

  lemma {:induction false} KeepLastSorted(s: seq<Member>)
    requires Sorted(s)
    ensures Sorted(KeepLast(s)) && DistinctKeys(KeepLast(s))
    ensures forall m :: m in KeepLast(s) ==> m in s
    ensures DistinctKeys(s) ==> KeepLast(s) == s
  {
    if |s| > 1 {
      KeepLastSorted(s[1..]);
      var r := KeepLast(s[1..]);
      forall j | 0 <= j < |r| ensures Le(s[0].key, r[j].key) && (s[0].key != s[1].key ==> s[0].key != r[j].key) {
        assert r[j] in s[1..];
        LeTotal(s[1].key, s[1].key);
        assert Le(s[0].key, s[1].key) && Le(s[1].key, r[j].key);
        LeTotal(s[0].key, s[1].key);
      }
    }
  }

  lemma {:induction false} SortedIsFixed(s: seq<Member>)
    requires Sorted(s)
    ensures SortByKey(s) == s
  {
    if s != [] {
      SortedIsFixed(s[1..]);
      LeTotal(s[0].key, s[0].key);
    }
  }

  /** Two sorted lists with distinct keys and the same elements are one list. */
  lemma {:induction false} SortedUnique(s: seq<Member>, t: seq<Member>)
    requires Sorted(s) && Sorted(t) && DistinctKeys(s) && DistinctKeys(t)
    requires forall m :: m in s <==> m in t
    ensures s == t
  {
    assert s == [] || s[0] in s;
    assert t == [] || t[0] in t;
    if s != [] {
      LeTotal(s[0].key, t[0].key);
      assert s[0] == t[0];
      assert s == [s[0]] + s[1..] && t == [t[0]] + t[1..];
      assert s[0] !in s[1..] && t[0] !in t[1..];
      forall m ensures m in s[1..] <==> m in t[1..] {
        assert m in s <==> m == s[0] || m in s[1..];
        assert m in t <==> m == t[0] || m in t[1..];
      }
      SortedUnique(s[1..], t[1..]);
    }
  }

  lemma {:induction false} ElementCount(s: seq<Member>)
    requires DistinctKeys(s)
    ensures |set m | m in s| == |s|
  {
    if s != [] {
      ElementCount(s[1..]);
      assert (set m | m in s) == (set m | m in s[1..]) + {s[0]};
    }
  }

  /** Equally long lists without repeats: one inside the other means the same elements. */
  lemma SameElements(s: seq<Member>, t: seq<Member>)
    requires DistinctKeys(s) && DistinctKeys(t) && |s| == |t|
    requires forall m :: m in s ==> m in t
    ensures forall m :: m in t ==> m in s
  {
    ElementCount(s);
    ElementCount(t);
    var a, b := set m | m in s, set m | m in t;
    assert a <= b && |b - a| == |b| - |a|;
    forall m | m in t ensures m in s {
      assert m in b && m !in b - a;
    }
  }

  // ---- Results -----------------------------------------------------------

  lemma {:induction false} CanonIsInForm(v: Value)
    ensures InForm(Canon(v))
    decreases v
  {
    match v
    case List(items) =>
      ItemsCanon(items);
      forall i | 0 <= i < |items| ensures InForm(CanonItems(items)[i]) {
        CanonIsInForm(items[i]);
      }
    case Obj(ms) =>
      forall i | 0 <= i < |ms| ensures InForm(Canon(ms[i].value)) {
        CanonIsInForm(ms[i].value);
      }
      MembersInForm(ms);
    case _ =>
  }

  lemma MembersInForm(ms: seq<Member>)
    requires forall i :: 0 <= i < |ms| ==> InForm(Canon(ms[i].value))
    ensures InForm(Obj(KeepLast(SortByKey(CanonMembers(ms)))))
  {
    var c := CanonMembers(ms);
    MembersCanonAt(ms);
    SortSorts(c);
    KeepLastSorted(SortByKey(c));
    var r := KeepLast(SortByKey(c));
    forall i | 0 <= i < |r| ensures InForm(r[i].value) {
      assert r[i] in r;
      assert r[i] in c;
    }
  }

  lemma {:induction false} InFormIsFixed(v: Value)
    requires InForm(v)
    ensures Canon(v) == v
    decreases v
  {
    match v
    case List(items) =>
      ItemsCanon(items);
      forall i | 0 <= i < |items| ensures CanonItems(items)[i] == items[i] {
        InFormIsFixed(items[i]);
      }
      assert CanonItems(items) == items;
    case Obj(ms) =>
      MembersCanonAt(ms);
      forall i | 0 <= i < |ms| ensures CanonMembers(ms)[i] == ms[i] {
        InFormIsFixed(ms[i].value);
      }
      assert CanonMembers(ms) == ms;
      SortedIsFixed(ms);
      KeepLastSorted(ms);
    case _ =>
  }

  /** Canonicalising twice changes nothing. */
  lemma CanonIdempotent(v: Value)
    ensures Canon(Canon(v)) == Canon(v)
  {
    CanonIsInForm(v);
    InFormIsFixed(Canon(v));
  }

  /** With distinct keys nothing is dropped: the form is the sorted list. */
  lemma CanonMembersDistinct(ms: seq<Member>)
    requires DistinctKeys(ms)
    ensures DistinctKeys(CanonMembers(ms))
    ensures KeepLast(SortByKey(CanonMembers(ms))) == SortByKey(CanonMembers(ms))
    ensures DistinctKeys(SortByKey(CanonMembers(ms)))
  {
    MembersCanonAt(ms);
    SortSorts(CanonMembers(ms));
    SortDistinct(CanonMembers(ms));
    KeepLastSorted(SortByKey(CanonMembers(ms)));
  }

  /** The canonical form does not see the order of members, at any depth. */
  lemma {:induction false} SameCanon(v: Value, w: Value)
    requires Keyed(v) && Keyed(w) && Same(v, w)
    ensures Canon(v) == Canon(w)
    decreases v
  {
    match v
    case List(a) =>
      ItemsCanon(a);
      ItemsCanon(w.items);
      forall i | 0 <= i < |a| ensures CanonItems(a)[i] == CanonItems(w.items)[i] {
        SameCanon(a[i], w.items[i]);
      }
      assert CanonItems(a) == CanonItems(w.items);
    case Obj(a) =>
      var b := w.members;
      MembersCanonAt(a);
      MembersCanonAt(b);
      forall i | 0 <= i < |a| ensures Member(a[i].key, Canon(a[i].value)) in CanonMembers(b) {
        assert HasMember(a[i], b);
        var j :| 0 <= j < |b| && a[i].key == b[j].key && Same(a[i].value, b[j].value);
        SameCanon(a[i].value, b[j].value);
        assert CanonMembers(b)[j] == Member(a[i].key, Canon(a[i].value));
      }
      MembersCanon(a, b);
    case _ =>
  }

  lemma MembersCanon(a: seq<Member>, b: seq<Member>)
    requires DistinctKeys(a) && DistinctKeys(b) && |a| == |b|
    requires forall i :: 0 <= i < |a| ==> Member(a[i].key, Canon(a[i].value)) in CanonMembers(b)
    ensures Canon(Obj(a)) == Canon(Obj(b))
  {
    var ca, cb := CanonMembers(a), CanonMembers(b);
    MembersCanonAt(a);
    MembersCanonAt(b);
    CanonMembersDistinct(a);
    CanonMembersDistinct(b);
    SortSorts(ca);
    SortSorts(cb);
    SameElements(ca, cb);
    SortedUnique(SortByKey(ca), SortByKey(cb));
  }

  /** On JSON values the canonical form loses nothing but the order of members. */
  lemma {:induction false} CanonSame(v: Value, w: Value)
    requires Json(v) && Json(w) && Canon(v) == Canon(w)
    ensures Same(v, w)
    decreases v
  {
    match v
    case List(a) =>
      ItemsCanon(a);
      ItemsCanon(w.items);
      assert |a| == |CanonItems(w.items)|;
      forall i | 0 <= i < |a| ensures Same(a[i], w.items[i]) {
        assert CanonItems(a)[i] == CanonItems(w.items)[i];
        CanonSame(a[i], w.items[i]);
      }
    case Obj(a) =>
      var b := w.members;
      MembersCanonAt(a);
      MembersCanonAt(b);
      CanonMembersSame(a, b);
      forall i | 0 <= i < |a| ensures HasMember(a[i], b) {
        var j :| 0 <= j < |b| && CanonMembers(b)[j] == CanonMembers(a)[i];
        CanonSame(a[i].value, b[j].value);
        assert a[i].key == b[j].key;
      }
    case _ =>
  }

  lemma CanonMembersSame(a: seq<Member>, b: seq<Member>)
    requires DistinctKeys(a) && DistinctKeys(b) && Canon(Obj(a)) == Canon(Obj(b))
    ensures |CanonMembers(a)| == |a| == |b|
    ensures forall i :: 0 <= i < |a| ==> CanonMembers(a)[i] in CanonMembers(b)
  {
    MembersCanonAt(a);
    MembersCanonAt(b);
    CanonMembersDistinct(a);
    CanonMembersDistinct(b);
    SortSorts(CanonMembers(a));
    SortSorts(CanonMembers(b));
    forall i | 0 <= i < |a| ensures CanonMembers(a)[i] in CanonMembers(b) {
      assert CanonMembers(a)[i] in SortByKey(CanonMembers(a));
    }
  }

  lemma {:induction false} JsonIsKeyed(v: Value)
    requires Json(v)
    ensures Keyed(v)
    decreases v
  {
    match v
    case List(items) => forall i | 0 <= i < |items| ensures Keyed(items[i]) { JsonIsKeyed(items[i]); }
    case Obj(ms) => forall i | 0 <= i < |ms| ensures Keyed(ms[i].value) { JsonIsKeyed(ms[i].value); }
    case _ =>
  }

  /** On JSON values exactly the reorderings of members share a canonical form. */
  lemma JsonCanonIffSame(v: Value, w: Value)
    requires Json(v) && Json(w)
    ensures Canon(v) == Canon(w) <==> Same(v, w)
  {
    if Canon(v) == Canon(w) {
      CanonSame(v, w);
    }
    if Same(v, w) {
      JsonIsKeyed(v);
      JsonIsKeyed(w);
      SameCanon(v, w);
    }
  }

  // ---- Values that are rendered as text -----------------------------------

  /** The value with everything that is rendered replaced by its text, at every depth. */
  function Rendered(v: Value): Value {
    match v
    case Text(t) => Str(t)
    case List(items) => List(seq(|items|, i requires 0 <= i < |items| => Rendered(items[i])))
    case Obj(ms) =>
      Obj(seq(|ms|, i requires 0 <= i < |ms| => Member(ms[i].key, Rendered(ms[i].value))))
    case _ => v
  }

  lemma {:induction false} CanonRendered(v: Value)
    ensures Canon(Rendered(v)) == Canon(v)
  {
    match v
    case List(items) =>
      var r := Rendered(v).items;
      ItemsCanon(items);
      ItemsCanon(r);
      forall i | 0 <= i < |items| ensures CanonItems(r)[i] == CanonItems(items)[i] {
        CanonRendered(items[i]);
      }
      assert CanonItems(r) == CanonItems(items);
    case Obj(ms) =>
      var r := Rendered(v).members;
      MembersCanonAt(ms);
      MembersCanonAt(r);
      forall i | 0 <= i < |ms| ensures CanonMembers(r)[i] == CanonMembers(ms)[i] {
        CanonRendered(ms[i].value);
      }
      assert CanonMembers(r) == CanonMembers(ms);
    case _ =>
  }

  lemma {:induction false} RenderedIsJson(v: Value)
    requires Keyed(v)
    ensures Json(Rendered(v))
  {
    match v
    case List(items) =>
      forall i | 0 <= i < |items| ensures Json(Rendered(items[i])) { RenderedIsJson(items[i]); }
    case Obj(ms) =>
      forall i | 0 <= i < |ms| ensures Json(Rendered(ms[i].value)) { RenderedIsJson(ms[i].value); }
    case _ =>
  }

  /** Exactly the values that render alike, up to the order of members, share a canonical
      form: for every string-keyed value, fractional numbers, dates and UUIDs included. */
  lemma CanonIffSame(v: Value, w: Value)
    requires Keyed(v) && Keyed(w)
    ensures Canon(v) == Canon(w) <==> Same(Rendered(v), Rendered(w))
  {
    CanonRendered(v);
    CanonRendered(w);
    RenderedIsJson(v);
    RenderedIsJson(w);
    JsonCanonIffSame(Rendered(v), Rendered(w));
  }

  /** So the form is not one to one on values that are rendered: such a value and the string
      it renders to are confused, wherever they occur. */
  lemma RenderingIsConfused(t: string, key: string)
    ensures !Same(Obj([Member(key, Text(t))]), Obj([Member(key, Str(t))]))
    ensures Canon(Obj([Member(key, Text(t))])) == Canon(Obj([Member(key, Str(t))]))
  {
    var a, b := [Member(key, Text(t))], [Member(key, Str(t))];
    assert CanonMembers(a) == CanonMembers(b);
    assert !Same(Text(t), Str(t));
    assert !HasMember(a[0], b);
  }

  // ---- Repeated keys -------------------------------------------------------

  /** The value of the last member under a key. */
  function LastUnder(s: seq<Member>, k: string): Option<Value> {
    if s == [] then None
    else if LastUnder(s[1..], k).Some? then LastUnder(s[1..], k)
    else if s[0].key == k then Some(s[0].value)
    else None
  }

  lemma {:induction false} InsertLast(m: Member, s: seq<Member>, k: string)
    ensures LastUnder(Insert(m, s), k) == LastUnder([m] + s, k)
  {
    LeTotal(m.key, m.key);
    assert ([m] + s)[1..] == s;
    if s != [] && !Le(m.key, s[0].key) {
      var rest := s[1..];
      InsertLast(m, rest, k);
      assert ([m] + rest)[1..] == rest;
      assert ([s[0]] + Insert(m, rest))[1..] == Insert(m, rest);
    }
  }

  lemma {:induction false} SortLast(s: seq<Member>, k: string)
    ensures LastUnder(SortByKey(s), k) == LastUnder(s, k)
  {
    if s != [] {
      SortLast(s[1..], k);
      InsertLast(s[0], SortByKey(s[1..]), k);
      assert ([s[0]] + SortByKey(s[1..]))[1..] == SortByKey(s[1..]);
    }
  }

  lemma {:induction false} KeepLastLast(s: seq<Member>, k: string)
    ensures LastUnder(KeepLast(s), k) == LastUnder(s, k)
  {
    if |s| > 1 {
      var rest := s[1..];
      KeepLastLast(rest, k);
      if s[0].key == rest[0].key {
        HasLast(rest);
      } else {
        assert ([s[0]] + KeepLast(rest))[1..] == KeepLast(rest);
      }
    }
  }

  lemma HasLast(s: seq<Member>)
    requires s != []
    ensures LastUnder(s, s[0].key).Some?
  {
  }

  lemma {:induction false} CanonLast(s: seq<Member>, k: string)
    ensures LastUnder(CanonMembers(s), k) ==
              if LastUnder(s, k).Some? then Some(Canon(LastUnder(s, k).value)) else None
  {
    if s != [] {
      var c := CanonMembers(s[1..]);
      CanonLast(s[1..], k);
      assert ([Member(s[0].key, Canon(s[0].value))] + c)[1..] == c;
    }
  }

  /** Where a dictionary of mixed keys renders several of them alike, the last one listed decides;
      no key is lost and none is invented, and each is there once. */
  lemma RepeatedKeyTakesLast(ms: seq<Member>, k: string)
    ensures DistinctKeys(Canon(Obj(ms)).members) && Sorted(Canon(Obj(ms)).members)
    ensures LastUnder(Canon(Obj(ms)).members, k) ==
              if LastUnder(ms, k).Some? then Some(Canon(LastUnder(ms, k).value)) else None
  {
    CanonIsInForm(Obj(ms));
    KeepLastLast(SortByKey(CanonMembers(ms)), k);
    SortLast(CanonMembers(ms), k);
    CanonLast(ms, k);
  }

  lemma {:induction false} LastUnderIs(s: seq<Member>, i: nat)
    requires i < |s| && forall j :: i < j < |s| ==> s[j].key != s[i].key
    ensures LastUnder(s, s[i].key) == Some(s[i].value)
  {
    if i > 0 {
      LastUnderIs(s[1..], i - 1);
    } else {
      NotUnder(s[1..], s[0].key);
    }
  }

  lemma {:induction false} NotUnder(s: seq<Member>, k: string)
    requires forall j :: 0 <= j < |s| ==> s[j].key != k
    ensures LastUnder(s, k) == None
  {
    if s != [] {
      NotUnder(s[1..], k);
    }
  }
}

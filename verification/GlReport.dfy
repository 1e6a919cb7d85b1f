/** Reading the general ledger report: backend/core/qbo_gl.py. */
module GlReport {
  import opened Prelude
  import opened Text

  datatype Cell = Cell(value: string, id: string)
  datatype Column = Column(colType: string, title: string)

  /** A row of the report with the rows nested under it; absent fields are empty. */
  datatype Row = Row(kind: string, group: string, header: seq<Cell>, cells: seq<Cell>, rows: seq<Row>)

  datatype Report = Report(columns: seq<Column>, rows: seq<Row>)

  datatype Role = DateRole | TypeRole | NumberRole | EntityRole | MemoRole | AmountRole | SplitRole

  /** Reading an amount in cents, and a date as a day number (None when unreadable). */
  datatype Reader = Reader(dec: string -> int, date: string -> Option<int>)

  datatype Txn = Txn(id: string, kind: string, number: string, date: Option<int>, amount: int, memo: string,
      entity: string)

  datatype Tagged = Tagged(txn: Txn, accountId: string, accountName: string)

  const BATCH := 50

  /** The day number of the earliest date there is. */
  const DATE_MIN := 1

  // ---- Columns -----------------------------------------------------------

  predicate Contains(t: string, word: string)
    requires word != []
  {
    |word| <= |t| && (word <= t || Contains(t[1..], word))
  }

  function RoleOf(colType: string, title: string): Option<Role> {
    if colType in {"tx_date", "txndate", "date"} then Some(DateRole)
    else if colType == "txn_type" then Some(TypeRole)
    else if colType == "doc_num" then Some(NumberRole)
    else if colType in {"name", "customer", "vendor", "payee"} then Some(EntityRole)
    else if colType in {"memo", "description"} then Some(MemoRole)
    else if colType in {"subt_nat_amount", "amount", "subt_amount"} then Some(AmountRole)
    else if colType in {"split_acc", "split"} then Some(SplitRole)
    else if Contains(title, "date") && !Contains(title, "modify") then Some(DateRole)
    else if Contains(title, "type") then Some(TypeRole)
    else if Contains(title, "num") then Some(NumberRole)
    else if Contains(title, "memo") || Contains(title, "description") then Some(MemoRole)
    else if Contains(title, "amount") then Some(AmountRole)
    else if Contains(title, "split") then Some(SplitRole)
    else if Contains(title, "name") || Contains(title, "customer") || Contains(title, "vendor") then Some(EntityRole)
    else None
  }

  function ColumnRole(c: Column): Option<Role> {
    RoleOf(Lower(Strip(c.colType)), Lower(Strip(c.title)))
  }

  type Roles = map<nat, Role>

  /** The role of each column that has one. */
  ghost predicate RolesOf(columns: seq<Column>, roles: Roles) {
    forall i: nat :: (i in roles <==> i < |columns| && ColumnRole(columns[i]).Some?)
                  && (i in roles ==> roles[i] == ColumnRole(columns[i]).value)
  }

  // ---- One row -----------------------------------------------------------

  /** The text under the last column of a role, or nothing. */
  function TextOf(cells: seq<Cell>, roles: Roles, role: Role): string {
    if cells == [] then []
    else
      var i := |cells| - 1;
      if i in roles && roles[i] == role then Strip(cells[i].value) else TextOf(cells[..i], roles, role)
  }

  /** The first id found under a column with a role. */
  function FirstId(cells: seq<Cell>, roles: Roles): string {
    if cells == [] then []
    else
      var i, id := |cells| - 1, FirstId(cells[..|cells| - 1], roles);
      if id == [] && i in roles then cells[i].id else id
  }

  function OrElse(s: string, fallback: string): string {
    if s == [] then fallback else s
  }

  /** The transaction in some cells; None for a row that says nothing. */
  function TxnOf(reader: Reader, cells: seq<Cell>, roles: Roles): Option<Txn> {
    var amount := reader.dec(TextOf(cells, roles, AmountRole));
    var number, entity, memo :=
        TextOf(cells, roles, NumberRole), TextOf(cells, roles, EntityRole), TextOf(cells, roles, MemoRole);
    if amount == 0 && number == [] && entity == [] && memo == [] then None
    else Some(Txn(FirstId(cells, roles), OrElse(TextOf(cells, roles, TypeRole), "Transaction"), number,
                  reader.date(TextOf(cells, roles, DateRole)), amount, memo, entity))
  }

  predicate Reads(r: Row) {
    && r.cells != [] && (r.kind == "Data" || r.group == [])
    && Lower(Strip(r.cells[0].value)) !in {"", "beginning balance", "total", "ending balance"}
  }

  function OwnTxn(reader: Reader, roles: Roles, r: Row): Option<Txn> {
    if Reads(r) then TxnOf(reader, r.cells, roles) else None
  }

  // ---- The whole tree ----------------------------------------------------

  /** The transactions of the rows in the order they stand, a row before those under it. */
  function Plain(reader: Reader, roles: Roles, rows: seq<Row>): seq<Txn>
    decreases rows
  {
    if rows == [] then [] else Plain(reader, roles, rows[..|rows| - 1]) + PlainRow(reader, roles, rows[|rows| - 1])
  }

  function PlainRow(reader: Reader, roles: Roles, r: Row): seq<Txn>
    decreases r
  {
    var own := OwnTxn(reader, roles, r);
    (if own.Some? then [own.value] else []) + Plain(reader, roles, r.rows)
  }

  /** What a Section row says of its account; either part may be missing. */
  function HeaderId(r: Row): string {
    if r.kind == "Section" && r.header != [] then r.header[0].id else []
  }

  function HeaderName(r: Row): string {
    if r.kind == "Section" && r.header != [] then Strip(r.header[0].value) else []
  }

  /** The same rows, each with the account in force where it stands. */
  function TaggedRows(reader: Reader, roles: Roles, rows: seq<Row>, id: string, name: string): seq<Tagged>
    decreases rows
  {
    if rows == [] then []
    else TaggedRows(reader, roles, rows[..|rows| - 1], id, name) + TaggedRow(reader, roles, rows[|rows| - 1], id, name)
  }

  function TaggedRow(reader: Reader, roles: Roles, r: Row, id: string, name: string): seq<Tagged>
    decreases r
  {
    var own, newId, newName := OwnTxn(reader, roles, r), OrElse(HeaderId(r), id), OrElse(HeaderName(r), name);
    (if own.Some? then [Tagged(own.value, newId, newName)] else []) + TaggedRows(reader, roles, r.rows, newId, newName)
  }

  function Erase(tagged: seq<Tagged>): seq<Txn> {
    seq(|tagged|, i requires 0 <= i < |tagged| => tagged[i].txn)
  }

  // ---- Newest first ------------------------------------------------------

  function TxnKey(t: Txn): int {
    if t.date.Some? then t.date.value else DATE_MIN
  }

  function TaggedKey(t: Tagged): int {
    TxnKey(t.txn)
  }

  /** x put behind everything that is at least as new. */
  function Insert<T>(key: T -> int, s: seq<T>, x: T): seq<T> {
    if s == [] || key(s[|s| - 1]) >= key(x) then s + [x]
    else Insert(key, s[..|s| - 1], x) + [s[|s| - 1]]
  }

  /** The stable sort by descending key. */
  function NewestFirst<T>(key: T -> int, s: seq<T>): seq<T> {
    if s == [] then [] else Insert(key, NewestFirst(key, s[..|s| - 1]), s[|s| - 1])
  }

  ghost predicate Descending<T>(key: T -> int, s: seq<T>) {
    forall i, j :: 0 <= i < j < |s| ==> key(s[i]) >= key(s[j])
  }

  /** The elements of one key, in the order they stand. */
  function OfKey<T>(key: T -> int, s: seq<T>, k: int): seq<T> {
    if s == [] then []
    else OfKey(key, s[..|s| - 1], k) + (if key(s[|s| - 1]) == k then [s[|s| - 1]] else [])
  }

  lemma {:induction false} InsertDescends<T>(key: T -> int, s: seq<T>, x: T)
    requires Descending(key, s)
    ensures Descending(key, Insert(key, s, x))
    ensures forall y :: y in Insert(key, s, x) ==> y in s || y == x
  {
    if s == [] || key(s[|s| - 1]) >= key(x) {
      assert forall i :: 0 <= i < |s| ==> key(s[i]) >= key(s[|s| - 1]);
    } else {
      var front, last := s[..|s| - 1], s[|s| - 1];
      InsertDescends(key, front, x);
      var r := Insert(key, front, x);
      forall i | 0 <= i < |r| ensures key(r[i]) >= key(last) {
        assert r[i] in r;
      }
    }
  }

  lemma {:induction false} InsertKeeps<T>(key: T -> int, s: seq<T>, x: T, k: int)
    ensures OfKey(key, Insert(key, s, x), k) == OfKey(key, s, k) + (if key(x) == k then [x] else [])
  {
    if s == [] || key(s[|s| - 1]) >= key(x) {
      assert (s + [x])[..|s|] == s;
    } else {
      var front, r := s[..|s| - 1], Insert(key, s, x);
      InsertKeeps(key, front, x, k);
      assert r[..|r| - 1] == Insert(key, front, x);
    }
  }

  /** Sorting orders the rows and keeps, within one date, the order they came in. */
  lemma {:induction false} SortIsStable<T>(key: T -> int, s: seq<T>, k: int)
    ensures Descending(key, NewestFirst(key, s))
    ensures OfKey(key, NewestFirst(key, s), k) == OfKey(key, s, k)
  {
    if s != [] {
      SortIsStable(key, s[..|s| - 1], k);
      InsertDescends(key, NewestFirst(key, s[..|s| - 1]), s[|s| - 1]);
      InsertKeeps(key, NewestFirst(key, s[..|s| - 1]), s[|s| - 1], k);
    }
  }

  lemma {:induction false} OfKeyHolds<T>(key: T -> int, s: seq<T>, x: T)
    ensures x in OfKey(key, s, key(x)) <==> x in s
  {
    if s != [] {
      OfKeyHolds(key, s[..|s| - 1], x);
      assert s == s[..|s| - 1] + [s[|s| - 1]];
    }
  }

  lemma LastHasKey<T>(key: T -> int, s: seq<T>)
    ensures s != [] ==> OfKey(key, s, key(s[|s| - 1])) != []
  {
  }

  /** And that determines the result: there is only one stable sort. */
  lemma {:induction false} SortIsUnique<T>(key: T -> int, a: seq<T>, b: seq<T>)
    requires Descending(key, a) && Descending(key, b)
    requires SamePerKey(key, a, b)
    ensures a == b
  {
    if a == [] {
      LastHasKey(key, b);
    } else {
      var x, k := a[|a| - 1], key(a[|a| - 1]);
      OfKeyHolds(key, a, x);
      OfKeyHolds(key, b, x);
      var y := b[|b| - 1];
      OfKeyHolds(key, b, y);
      OfKeyHolds(key, a, y);
      assert key(y) == k;
      assert Last(OfKey(key, a, k)) == x && Last(OfKey(key, b, k)) == y;
      FrontsAgree(key, a, b);
      SortIsUnique(key, a[..|a| - 1], b[..|b| - 1]);
      assert a == a[..|a| - 1] + [x] && b == b[..|b| - 1] + [y];
    }
  }

  ghost predicate SamePerKey<T>(key: T -> int, a: seq<T>, b: seq<T>) {
    forall k {:trigger OfKey(key, a, k)} {:trigger OfKey(key, b, k)} :: OfKey(key, a, k) == OfKey(key, b, k)
  }

  lemma FrontsAgree<T>(key: T -> int, a: seq<T>, b: seq<T>)
    requires SamePerKey(key, a, b) && a != [] && b != [] && a[|a| - 1] == b[|b| - 1]
    ensures SamePerKey(key, a[..|a| - 1], b[..|b| - 1])
  {
    var front, behind, x := a[..|a| - 1], b[..|b| - 1], a[|a| - 1];
    forall k ensures OfKey(key, front, k) == OfKey(key, behind, k) {
      assert OfKey(key, a, k) == OfKey(key, b, k);
      var p, q, tail := OfKey(key, front, k), OfKey(key, behind, k), if key(x) == k then [x] else [];
      assert OfKey(key, a, k) == p + tail && OfKey(key, b, k) == q + tail;
      assert (p + tail)[..|p|] == p && (q + tail)[..|q|] == q;
    }
  }

  // ---- The two parses ----------------------------------------------------

  function ParsePlain(reader: Reader, roles: Roles, report: Report): seq<Txn> {
    NewestFirst(TxnKey, Plain(reader, roles, report.rows))
  }

  function ParseTagged(reader: Reader, roles: Roles, report: Report): seq<Tagged> {
    NewestFirst(TaggedKey, TaggedRows(reader, roles, report.rows, "", ""))
  }

  lemma EraseAppend(a: seq<Tagged>, b: seq<Tagged>)
    ensures Erase(a + b) == Erase(a) + Erase(b)
  {
  }

  lemma {:induction false} RowsErase(reader: Reader, roles: Roles, rows: seq<Row>, id: string, name: string)
    ensures Erase(TaggedRows(reader, roles, rows, id, name)) == Plain(reader, roles, rows)
    decreases rows
  {
    if rows != [] {
      var front, r := rows[..|rows| - 1], rows[|rows| - 1];
      RowsErase(reader, roles, front, id, name);
      RowErases(reader, roles, r, id, name);
      EraseAppend(TaggedRows(reader, roles, front, id, name), TaggedRow(reader, roles, r, id, name));
    }
  }

  lemma {:induction false} RowErases(reader: Reader, roles: Roles, r: Row, id: string, name: string)
    ensures Erase(TaggedRow(reader, roles, r, id, name)) == PlainRow(reader, roles, r)
    decreases r
  {
    var own, newId, newName := OwnTxn(reader, roles, r), OrElse(HeaderId(r), id), OrElse(HeaderName(r), name);
    var mine := if own.Some? then [Tagged(own.value, newId, newName)] else [];
    RowsErase(reader, roles, r.rows, newId, newName);
    EraseAppend(mine, TaggedRows(reader, roles, r.rows, newId, newName));
    assert Erase(mine) == if own.Some? then [own.value] else [];
  }

  lemma {:induction false} EraseInsert(s: seq<Tagged>, x: Tagged)
    ensures Erase(Insert(TaggedKey, s, x)) == Insert(TxnKey, Erase(s), x.txn)
  {
    if s != [] && TaggedKey(s[|s| - 1]) < TaggedKey(x) {
      EraseInsert(s[..|s| - 1], x);
      assert Erase(s)[..|s| - 1] == Erase(s[..|s| - 1]);
      EraseAppend(Insert(TaggedKey, s[..|s| - 1], x), [s[|s| - 1]]);
    } else {
      EraseAppend(s, [x]);
    }
  }

  lemma {:induction false} EraseSorts(s: seq<Tagged>)
    ensures Erase(NewestFirst(TaggedKey, s)) == NewestFirst(TxnKey, Erase(s))
  {
    if s != [] {
      EraseSorts(s[..|s| - 1]);
      EraseInsert(NewestFirst(TaggedKey, s[..|s| - 1]), s[|s| - 1]);
      assert Erase(s)[..|s| - 1] == Erase(s[..|s| - 1]);
    }
  }

  /** The two parsers agree: without its tags the multi-account parse is the single-account
      parse, the same rows in the same order, for every report. */
  lemma WalkersAgree(reader: Reader, roles: Roles, report: Report)
    ensures Erase(ParseTagged(reader, roles, report)) == ParsePlain(reader, roles, report)
  {
    RowsErase(reader, roles, report.rows, "", "");
    EraseSorts(TaggedRows(reader, roles, report.rows, "", ""));
  }

  // ---- Where a tag comes from --------------------------------------------

  /** A transaction and the rows it stands under, outermost first, its own row last. */
  datatype Found = Found(txn: Txn, chain: seq<Row>)

  function Finds(reader: Reader, roles: Roles, rows: seq<Row>, above: seq<Row>): seq<Found>
    decreases rows
  {
    if rows == [] then []
    else Finds(reader, roles, rows[..|rows| - 1], above) + RowFinds(reader, roles, rows[|rows| - 1], above)
  }

  function RowFinds(reader: Reader, roles: Roles, r: Row, above: seq<Row>): seq<Found>
    decreases r
  {
    var own := OwnTxn(reader, roles, r);
    (if own.Some? then [Found(own.value, above + [r])] else []) + Finds(reader, roles, r.rows, above + [r])
  }

  /** The nearest enclosing Section that gives an id, and the nearest that gives a name. */
  function NearestId(chain: seq<Row>): string {
    if chain == [] then [] else OrElse(HeaderId(chain[|chain| - 1]), NearestId(chain[..|chain| - 1]))
  }

  function NearestName(chain: seq<Row>): string {
    if chain == [] then [] else OrElse(HeaderName(chain[|chain| - 1]), NearestName(chain[..|chain| - 1]))
  }

  function Tag(f: Found): Tagged {
    Tagged(f.txn, NearestId(f.chain), NearestName(f.chain))
  }

  function Tags(finds: seq<Found>): seq<Tagged> {
    seq(|finds|, i requires 0 <= i < |finds| => Tag(finds[i]))
  }

  lemma TagsAppend(a: seq<Found>, b: seq<Found>)
    ensures Tags(a + b) == Tags(a) + Tags(b)
  {
  }

  lemma NearestOfRow(above: seq<Row>, r: Row)
    ensures NearestId(above + [r]) == OrElse(HeaderId(r), NearestId(above))
    ensures NearestName(above + [r]) == OrElse(HeaderName(r), NearestName(above))
  {
    assert (above + [r])[..|above|] == above;
  }

  /** Each row's id and name come, independently, from the nearest enclosing Section that
      supplies one. */
  lemma {:induction false} TagsAreNearest(reader: Reader, roles: Roles, rows: seq<Row>, above: seq<Row>)
    ensures TaggedRows(reader, roles, rows, NearestId(above), NearestName(above)) ==
        Tags(Finds(reader, roles, rows, above))
    decreases rows
  {
    if rows != [] {
      var front, r := rows[..|rows| - 1], rows[|rows| - 1];
      TagsAreNearest(reader, roles, front, above);
      RowTagsAreNearest(reader, roles, r, above);
      TagsAppend(Finds(reader, roles, front, above), RowFinds(reader, roles, r, above));
    }
  }

  lemma {:induction false} RowTagsAreNearest(reader: Reader, roles: Roles, r: Row, above: seq<Row>)
    ensures TaggedRow(reader, roles, r, NearestId(above), NearestName(above)) == Tags(RowFinds(reader, roles, r, above))
    decreases r
  {
    var own, chain := OwnTxn(reader, roles, r), above + [r];
    var found := if own.Some? then [Found(own.value, chain)] else [];
    NearestOfRow(above, r);
    TagsAreNearest(reader, roles, r.rows, chain);
    assert Tags(found) == if own.Some? then [Tagged(own.value, NearestId(chain), NearestName(chain))] else [];
    TagsAppend(found, Finds(reader, roles, r.rows, chain));
  }

  method ReadRoles(columns: seq<Column>) returns (roles: Roles)
    ensures RolesOf(columns, roles)
  {
    roles := map[];
    for i := 0 to |columns|
      invariant RolesOf(columns[..i], roles)
    {
      var role := ColumnRole(columns[i]);
      if role.Some? {
        roles := roles[i := role.value];
      }
    }
    assert columns[..|columns|] == columns;
  }

  /** The roles are determined by the columns. */
  lemma RolesAreUnique(columns: seq<Column>, a: Roles, b: Roles)
    requires RolesOf(columns, a) && RolesOf(columns, b)
    ensures a == b
  {
    assert forall i :: i in a <==> i in b;
  }

  /** One pass over the cells, filling a bucket by role. */
  method RowToTxn(reader: Reader, cells: seq<Cell>, roles: Roles) returns (t: Option<Txn>)
    ensures t == TxnOf(reader, cells, roles)
  {
    var bucket: map<Role, string>, id := map[], "";
    for i := 0 to |cells|
      invariant forall role :: (if role in bucket then bucket[role] else []) == TextOf(cells[..i], roles, role)
      invariant id == FirstId(cells[..i], roles)
    {
      assert cells[..i + 1][..i] == cells[..i];
      if i in roles {
        bucket := bucket[roles[i] := Strip(cells[i].value)];
        if id == [] && cells[i].id != [] {
          id := cells[i].id;
        }
      }
    }
    assert cells[..|cells|] == cells;
    var amount := reader.dec(if AmountRole in bucket then bucket[AmountRole] else []);
    var number := if NumberRole in bucket then bucket[NumberRole] else [];
    var entity := if EntityRole in bucket then bucket[EntityRole] else [];
    var memo := if MemoRole in bucket then bucket[MemoRole] else [];
    if amount == 0 && number == [] && entity == [] && memo == [] {
      return None;
    }
    return Some(Txn(id, OrElse(if TypeRole in bucket then bucket[TypeRole] else [], "Transaction"), number,
                    reader.date(if DateRole in bucket then bucket[DateRole] else []), amount, memo, entity));
  }

  /** The single-account walk. */
  class PlainWalker {
    const reader: Reader
    const roles: Roles
    var out: seq<Txn>

    constructor (reader: Reader, roles: Roles)
      ensures this.reader == reader && this.roles == roles && out == []
    {
      this.reader, this.roles, out := reader, roles, [];
    }

    method Walk(rows: seq<Row>)
      modifies this
      ensures out == old(out) + Plain(reader, roles, rows)
      decreases rows
    {
      ghost var start := out;
      for i := 0 to |rows|
        invariant out == start + Plain(reader, roles, rows[..i])
      {
        var r := rows[i];
        assert rows[..i + 1][..i] == rows[..i];
        if Reads(r) {
          var parsed := RowToTxn(reader, r.cells, roles);
          if parsed.Some? {
            out := out + [parsed.value];
          }
        }
        Walk(r.rows);
      }
      assert rows[..|rows|] == rows;
    }
  }

  lemma TaggedSnoc(start: seq<Tagged>, reader: Reader, roles: Roles, rows: seq<Row>, i: nat, id: string, name: string)
    requires i < |rows|
    ensures start + TaggedRows(reader, roles, rows[..i + 1], id, name) ==
              (start + TaggedRows(reader, roles, rows[..i], id, name)) + TaggedRow(reader, roles, rows[i], id, name)
  {
    assert rows[..i + 1][..i] == rows[..i];
  }

  lemma TaggedEnds(start: seq<Tagged>, reader: Reader, roles: Roles, rows: seq<Row>, id: string, name: string)
    ensures start + TaggedRows(reader, roles, rows[..0], id, name) == start
    ensures TaggedRows(reader, roles, rows[..|rows|], id, name) == TaggedRows(reader, roles, rows, id, name)
  {
    assert rows[..|rows|] == rows;
  }

  /** The multi-account walk: the account in force is handed down. */
  class TaggedWalker {
    const reader: Reader
    const roles: Roles
    var out: seq<Tagged>

    constructor (reader: Reader, roles: Roles)
      ensures this.reader == reader && this.roles == roles && out == []
    {
      this.reader, this.roles, out := reader, roles, [];
    }

    method Walk(rows: seq<Row>, accountId: string, accountName: string)
      modifies this
      ensures out == old(out) + TaggedRows(reader, roles, rows, accountId, accountName)
      decreases rows
    {
      ghost var start := out;
      TaggedEnds(start, reader, roles, rows, accountId, accountName);
      for i := 0 to |rows|
        invariant out == start + TaggedRows(reader, roles, rows[..i], accountId, accountName)
      {
        WalkRow(rows[i], accountId, accountName);
        TaggedSnoc(start, reader, roles, rows, i, accountId, accountName);
      }
    }

    /** One row: its own transaction, then the rows under it with the account now in force. */
    method WalkRow(r: Row, accountId: string, accountName: string)
      modifies this
      ensures out == old(out) + TaggedRow(reader, roles, r, accountId, accountName)
      decreases r
    {
      var newId, newName := Enter(r, accountId, accountName);
      if Reads(r) {
        var parsed := RowToTxn(reader, r.cells, roles);
        if parsed.Some? {
          out := out + [Tagged(parsed.value, newId, newName)];
        }
      }
      Walk(r.rows, newId, newName);
    }

    /** A Section's header replaces the account, each part only when it is there. */
    static method Enter(r: Row, accountId: string, accountName: string) returns (newId: string, newName: string)
      ensures newId == OrElse(HeaderId(r), accountId) && newName == OrElse(HeaderName(r), accountName)
    {
      newId, newName := accountId, accountName;
      if r.kind == "Section" && r.header != [] {
        if r.header[0].id != [] {
          newId := r.header[0].id;
        }
        if Strip(r.header[0].value) != [] {
          newName := Strip(r.header[0].value);
        }
      }
    }
  }

  method ParseReport(reader: Reader, report: Report) returns (txns: seq<Txn>)
    ensures forall roles :: RolesOf(report.columns, roles) ==> txns == ParsePlain(reader, roles, report)
  {
    var found := ReadRoles(report.columns);
    var walker := new PlainWalker(reader, found);
    walker.Walk(report.rows);
    assert walker.out == Plain(reader, found, report.rows);
    txns := NewestFirst(TxnKey, walker.out);
    forall roles | RolesOf(report.columns, roles) ensures txns == ParsePlain(reader, roles, report) {
      RolesAreUnique(report.columns, roles, found);
    }
  }

  method ParseReportWithAccount(reader: Reader, report: Report) returns (txns: seq<Tagged>)
    ensures forall roles :: RolesOf(report.columns, roles) ==> txns == ParseTagged(reader, roles, report)
  {
    var found := ReadRoles(report.columns);
    var walker := new TaggedWalker(reader, found);
    walker.Walk(report.rows, "", "");
    assert walker.out == TaggedRows(reader, found, report.rows, "", "");
    txns := NewestFirst(TaggedKey, walker.out);
    forall roles | RolesOf(report.columns, roles) ensures txns == ParseTagged(reader, roles, report) {
      RolesAreUnique(report.columns, roles, found);
    }
  }

  // ---- Many accounts -----------------------------------------------------

  /** The calls made for a list of account ids. */
  function Batches(ids: seq<string>): seq<seq<string>> {
    if ids == [] then [] else if |ids| <= BATCH then [ids] else [ids[..BATCH]] + Batches(ids[BATCH..])
  }

  function Flatten<T>(parts: seq<seq<T>>): seq<T> {
    if parts == [] then [] else parts[0] + Flatten(parts[1..])
  }

  /** Every id is asked for exactly once, in order, at most fifty to a call. */
  lemma {:induction false} BatchesCover(ids: seq<string>)
    ensures Flatten(Batches(ids)) == ids
    ensures forall b :: b in Batches(ids) ==> 1 <= |b| <= BATCH
  {
    if |ids| > BATCH {
      BatchesCover(ids[BATCH..]);
      assert ([ids[..BATCH]] + Batches(ids[BATCH..]))[1..] == Batches(ids[BATCH..]);
    } else if ids != [] {
      assert [ids][1..] == [];
    }
  }

  /** What the call for one batch gives: nothing when it fails. */
  type Fetch = seq<string> -> Option<seq<Tagged>>

  function Answer(fetch: Fetch, batch: seq<string>): seq<Tagged> {
    if fetch(batch).Some? then NewestFirst(TaggedKey, fetch(batch).value) else []
  }

  function Answers(fetch: Fetch, batches: seq<seq<string>>): seq<Tagged> {
    if batches == [] then [] else Answer(fetch, batches[0]) + Answers(fetch, batches[1..])
  }

  method PullMulti(fetch: Fetch, ids: seq<string>) returns (out: seq<Tagged>)
    ensures out == Answers(fetch, Batches(ids))
    decreases |ids|
  {
    if ids == [] {
      return [];
    }
    if |ids| > BATCH {
      out := [];
      var i := 0;
      while i < |ids|
        invariant 0 <= i
        invariant out + Answers(fetch, Batches(if i < |ids| then ids[i..] else [])) == Answers(fetch, Batches(ids))
      {
        var rest := ids[i..];
        var chunk := rest[..if |rest| < BATCH then |rest| else BATCH];
        var part := PullMulti(fetch, chunk);
        OneBatch(fetch, rest);
        out := out + part;
        i := i + BATCH;
        assert i < |ids| ==> ids[i..] == rest[BATCH..];
      }
      return;
    }
    assert [ids][1..] == [];
    out := Answer(fetch, ids);
  }

  lemma OneBatch(fetch: Fetch, ids: seq<string>)
    requires ids != []
    ensures var n := if |ids| < BATCH then |ids| else BATCH;
            Answers(fetch, Batches(ids)) ==
                Answers(fetch, Batches(ids[..n])) + Answers(fetch, Batches(if |ids| > BATCH then ids[BATCH..] else []))
  {
    if |ids| > BATCH {
      assert Batches(ids)[1..] == Batches(ids[BATCH..]);
      assert [ids[..BATCH]][1..] == [];
    } else {
      assert ids[..|ids|] == ids;
    }
  }

  /** The whole answer is newest first, whatever comes back, exactly when one call suffices. */
  lemma SortedExactlyInOneCall(ids: seq<string>)
    ensures (forall fetch: Fetch :: Descending(TaggedKey, Answers(fetch, Batches(ids)))) <==> |ids| <= BATCH
  {
    if |ids| <= BATCH {
      forall fetch: Fetch ensures Descending(TaggedKey, Answers(fetch, Batches(ids))) {
        OneCallIsSorted(fetch, ids);
      }
    } else {
      var fetch: Fetch := _ => Some([Dated(2), Dated(3)]);
      SecondCallStartsAgain(fetch, ids);
      assert !Descending(TaggedKey, Answers(fetch, Batches(ids)));
    }
  }

  function Dated(day: int): Tagged {
    Tagged(Txn("", "Bill", "1", Some(day), 100, "", ""), "60", "Rent")
  }

  lemma OneCallIsSorted(fetch: Fetch, ids: seq<string>)
    requires |ids| <= BATCH
    ensures Descending(TaggedKey, Answers(fetch, Batches(ids)))
  {
    if ids != [] {
      assert [ids][1..] == [];
      if fetch(ids).Some? {
        SortIsStable(TaggedKey, fetch(ids).value, 0);
      }
    }
  }

  lemma TwoSorted(s: seq<Tagged>)
    requires s == [Dated(2), Dated(3)]
    ensures NewestFirst(TaggedKey, s) == [Dated(3), Dated(2)]
  {
    var one := s[..1];
    assert one == [Dated(2)] && one[..0] == [];
    assert NewestFirst(TaggedKey, one) == [Dated(2)];
    assert Insert(TaggedKey, one, Dated(3)) == Insert(TaggedKey, one[..0], Dated(3)) + [Dated(2)];
  }

  lemma SecondCallStartsAgain(fetch: Fetch, ids: seq<string>)
    requires |ids| > BATCH && forall batch :: fetch(batch) == Some([Dated(2), Dated(3)])
    ensures var out := Answers(fetch, Batches(ids));
            |out| > 2 && out[1] == Dated(2) && out[2] == Dated(3)
  {
    var s := [Dated(2), Dated(3)];
    TwoSorted(s);
    var batches := Batches(ids);
    var rest := batches[1..];
    assert rest == Batches(ids[BATCH..]) && rest != [];
    assert Answers(fetch, batches) == [Dated(3), Dated(2)] + Answers(fetch, rest);
    assert Answers(fetch, rest) == [Dated(3), Dated(2)] + Answers(fetch, rest[1..]);
  }
}

/** The trial-balance parser and resolver: backend/core/qbo_tb.py. Amounts are whole cents;
    `dec` is the reading of a cell as an amount. */
module TrialBalance {
  import opened Prelude
  import opened Text

  /** A cell of the report; an absent value or id is the empty string. */
  datatype Cell = Cell(value: string, id: string)

  /** A row of the report, with the rows nested under it. */
  datatype Row = Row(cols: seq<Cell>, sub: seq<Row>)

  /** What one accepted row contributes. */
  datatype Line = Line(name: string, id: string, debit: int, credit: int) {
    function Balance(): int { debit - credit }
  }

  datatype Tb = Tb(byId: map<string, int>, byName: map<string, int>, rows: nat, debitTotal: int, creditTotal: int)

  // ---- Reading rows ------------------------------------------------------

  predicate IsSummary(name: string) {
    var low := Lower(name);
    "total" <= low || "subtotal" <= low || "net income" <= low || "net loss" <= low
  }

  function Amount(dec: string -> int, cols: seq<Cell>, i: nat): int {
    if i < |cols| then dec(cols[i].value) else 0
  }

  /** The line of a row, if it names a real account. */
  function LineOf(dec: string -> int, r: Row): Option<Line> {
    if r.cols == [] || r.cols[0].value == "" then None
    else
      var name := Strip(r.cols[0].value);
      if name == "" || IsSummary(name) then None
      else Some(Line(name, r.cols[0].id, Amount(dec, r.cols, 1), Amount(dec, r.cols, 2)))
  }

  function LineSeq(dec: string -> int, r: Row): seq<Line> {
    var l := LineOf(dec, r);
    if l.Some? then [l.value] else []
  }

  /** All lines of a report, each row before the rows nested under it. */
  function Lines(dec: string -> int, rows: seq<Row>): seq<Line>
    decreases rows
  {
    if rows == [] then [] else Lines(dec, rows[..|rows| - 1]) + RowLines(dec, rows[|rows| - 1])
  }

  function RowLines(dec: string -> int, r: Row): seq<Line>
    decreases r
  {
    LineSeq(dec, r) + Lines(dec, r.sub)
  }

  /** The aliases an account claims, in order. */
  function Derived(name: string): seq<string> {
    [Join(Words(name))]
    + (if ':' in name then [Strip(AfterLast(name, ':'))] else [])
    + (if ' ' in name && AllDigits(Without(Without(FirstToken(name), '-'), '.')) then [FirstToken(name)] else [])
  }

  // ---- The scan ----------------------------------------------------------

  datatype Scan = Scan(
    byId: map<string, int>, byName: map<string, int>, aliasOwner: map<string, string>,
    ambiguous: set<string>, canonical: set<string>, count: nat, debit: int, credit: int)

  const START := Scan(map[], map[], map[], {}, {}, 0, 0, 0)

  function Claim(s: Scan, alias: string, owner: string, bal: int): Scan {
    if alias == "" then s
    else if alias in s.aliasOwner && s.aliasOwner[alias] != owner then s.(ambiguous := s.ambiguous + {alias})
    else s.(aliasOwner := s.aliasOwner[alias := owner], byName := s.byName[alias := bal])
  }

  function ClaimAll(s: Scan, aliases: seq<string>, owner: string, bal: int): Scan {
    if aliases == [] then s
    else Claim(ClaimAll(s, aliases[..|aliases| - 1], owner, bal), aliases[|aliases| - 1], owner, bal)
  }

  lemma ClaimSnoc(s: Scan, aliases: seq<string>, alias: string, owner: string, bal: int)
    ensures ClaimAll(s, aliases + [alias], owner, bal) == Claim(ClaimAll(s, aliases, owner, bal), alias, owner, bal)
  {
    assert (aliases + [alias])[..|aliases|] == aliases;
  }

  /** The account's own name: never an alias. */
  function Own(s: Scan, l: Line): Scan {
    s.(count := s.count + 1, debit := s.debit + l.debit, credit := s.credit + l.credit,
       byId := if l.id != "" then s.byId[l.id := l.Balance()] else s.byId,
       byName := s.byName[l.name := l.Balance()],
       aliasOwner := s.aliasOwner[l.name := l.name],
       canonical := s.canonical + {l.name})
  }

  function ScanLine(s: Scan, l: Line): Scan {
    ClaimAll(Own(s, l), Derived(l.name), l.name, l.Balance())
  }

  function ScanAll(s: Scan, lines: seq<Line>): Scan {
    if lines == [] then s else ScanLine(ScanAll(s, lines[..|lines| - 1]), lines[|lines| - 1])
  }

  lemma ScanUnfold(s: Scan, lines: seq<Line>)
    requires lines != []
    ensures ScanAll(s, lines) == ScanLine(ScanAll(s, lines[..|lines| - 1]), lines[|lines| - 1])
  {
  }

  lemma {:induction false} ScanAppend(s: Scan, a: seq<Line>, b: seq<Line>)
    ensures ScanAll(s, a + b) == ScanAll(ScanAll(s, a), b)
  {
    if b == [] {
      assert a + b == a;
    } else {
      var ab, front, l := a + b, b[..|b| - 1], b[|b| - 1];
      ScanAppend(s, a, front);
      assert ab[..|ab| - 1] == a + front && ab[|ab| - 1] == l;
      ScanUnfold(s, ab);
      ScanUnfold(ScanAll(s, a), b);
    }
  }

  // ---- What the maps mean --------------------------------------------------

  function Names(lines: seq<Line>): set<string> {
    set l | l in lines :: l.name
  }

  predicate Derives(name: string, k: string) {
    k != "" && k in Derived(name)
  }

  ghost predicate DerivedBy(lines: seq<Line>, k: string, n: string) {
    n in Names(lines) && Derives(n, k)
  }

  /** The balance of the last line rendered under `n`. */
  function LastBalance(lines: seq<Line>, n: string): int
    requires n in Names(lines)
  {
    var l := lines[|lines| - 1];
    if l.name == n then l.Balance() else LastBalance(lines[..|lines| - 1], n)
  }

  /** `n` is the one rendered name that derives `k`. */
  ghost predicate OnlyDeriver(lines: seq<Line>, k: string, n: string) {
    DerivedBy(lines, k, n) && forall m :: DerivedBy(lines, k, m) ==> m == n
  }

  /** A key resolves when it is a rendered name, or an alias of exactly one rendered name. */
  ghost predicate Resolves(lines: seq<Line>, k: string) {
    k in Names(lines) || exists n :: OnlyDeriver(lines, k, n)
  }

  /** A rendered name has its own balance; another alias that of the name deriving it. */
  ghost function Answer(lines: seq<Line>, k: string): int
    requires Resolves(lines, k)
  {
    if k in Names(lines) then LastBalance(lines, k)
    else
      var n :| OnlyDeriver(lines, k, n);
      LastBalance(lines, n)
  }

  ghost function Keys(lines: seq<Line>): set<string> {
    Names(lines) + (set n, k | n in Names(lines) && k in Derived(n) :: k)
  }

  ghost function ByName(lines: seq<Line>): map<string, int> {
    map k | k in Keys(lines) && Resolves(lines, k) :: Answer(lines, k)
  }

  function Ids(lines: seq<Line>): set<string> {
    set l | l in lines && l.id != "" :: l.id
  }

  function LastById(lines: seq<Line>, i: string): int
    requires i in Ids(lines)
  {
    var l := lines[|lines| - 1];
    if l.id == i then l.Balance() else LastById(lines[..|lines| - 1], i)
  }

  function ById(lines: seq<Line>): map<string, int> {
    map i | i in Ids(lines) :: LastById(lines, i)
  }

  function Debits(lines: seq<Line>): int {
    if lines == [] then 0 else Debits(lines[..|lines| - 1]) + lines[|lines| - 1].debit
  }

  function Credits(lines: seq<Line>): int {
    if lines == [] then 0 else Credits(lines[..|lines| - 1]) + lines[|lines| - 1].credit
  }

  ghost function Meaning(lines: seq<Line>): Tb {
    Tb(ById(lines), ByName(lines), |lines|, Debits(lines), Credits(lines))
  }

  // ---- The scan computes that meaning ---------------------------------------

  /** What the scan knows of one key after some lines. */
  ghost predicate KeyOk(lines: seq<Line>, s: Scan, k: string) {
    && (k in s.byName <==> k in s.aliasOwner)
    && (k in s.aliasOwner <==> k in Names(lines) || exists n :: DerivedBy(lines, k, n))
    && (k !in s.aliasOwner ==> k !in s.ambiguous)
    && (k in s.aliasOwner && k in s.byName ==>
          var o := s.aliasOwner[k];
          && o in Names(lines)
          && s.byName[k] == LastBalance(lines, o)
          && (k in Names(lines) ==> o == k)
          && (k !in Names(lines) ==>
                && DerivedBy(lines, k, o)
                && (k in s.ambiguous <==> exists m :: DerivedBy(lines, k, m) && m != o)))
  }

  ghost predicate Knows(lines: seq<Line>, s: Scan) {
    && s.canonical == Names(lines)
    && s.byId == ById(lines)
    && s.count == |lines| && s.debit == Debits(lines) && s.credit == Credits(lines)
    && forall k :: KeyOk(lines, s, k)
  }

  /** All the claims of one line, seen from one key. */
  lemma {:induction false} ClaimAllAt(s: Scan, aliases: seq<string>, owner: string, bal: int, k: string)
    ensures var t := ClaimAll(s, aliases, owner, bal);
            var taken := k in s.aliasOwner && s.aliasOwner[k] != owner;
            && (k == "" || k !in aliases ==> SameAt(s, t, k) && (k in t.ambiguous <==> k in s.ambiguous))
            && (k != "" && k in aliases && taken ==> SameAt(s, t, k) && k in t.ambiguous)
            && (k != "" && k in aliases && !taken ==>
                  && k in t.aliasOwner && t.aliasOwner[k] == owner && k in t.byName && t.byName[k] == bal
                  && (k in t.ambiguous <==> k in s.ambiguous))
  {
    if aliases != [] {
      var front, last := aliases[..|aliases| - 1], aliases[|aliases| - 1];
      ClaimAllAt(s, front, owner, bal, k);
      assert aliases == front + [last];
    }
  }

  predicate SameAt(s: Scan, t: Scan, k: string) {
    && (k in t.aliasOwner <==> k in s.aliasOwner) && (k in t.byName <==> k in s.byName)
    && (k in s.aliasOwner && k in t.aliasOwner ==> t.aliasOwner[k] == s.aliasOwner[k])
    && (k in s.byName && k in t.byName ==> t.byName[k] == s.byName[k])
  }

  lemma {:induction false} ClaimAllFrame(s: Scan, aliases: seq<string>, owner: string, bal: int)
    ensures var t := ClaimAll(s, aliases, owner, bal);
            t.canonical == s.canonical && t.byId == s.byId && t.count == s.count && t.debit == s.debit
                && t.credit == s.credit
  {
    if aliases != [] {
      ClaimAllFrame(s, aliases[..|aliases| - 1], owner, bal);
    }
  }

  lemma NamesSnoc(lines: seq<Line>, l: Line)
    ensures Names(lines + [l]) == Names(lines) + {l.name}
    ensures forall n :: n in Names(lines + [l]) ==>
              LastBalance(lines + [l], n) == if n == l.name then l.Balance() else LastBalance(lines, n)
  {
    var all := lines + [l];
    assert all[..|lines|] == lines && all[|lines|] == l;
    forall n ensures n in Names(all) <==> n in Names(lines) + {l.name} {
      if n in Names(lines) {
        var q :| q in lines && q.name == n;
        assert q in all;
      }
      assert l in all;
    }
  }

  lemma IdsSnoc(lines: seq<Line>, l: Line)
    ensures ById(lines + [l]) == if l.id != "" then ById(lines)[l.id := l.Balance()] else ById(lines)
  {
    var all := lines + [l];
    assert all[..|lines|] == lines && all[|lines|] == l;
    forall i ensures i in Ids(all) <==> i in Ids(lines) || (l.id != "" && i == l.id) {
      if i in Ids(lines) {
        var q :| q in lines && q.id == i && q.id != "";
        assert q in all;
      }
      assert l in all;
    }
  }

  lemma DerivedBySnoc(lines: seq<Line>, l: Line, k: string)
    ensures forall n :: DerivedBy(lines + [l], k, n) <==> DerivedBy(lines, k, n) || (n == l.name && Derives(n, k))
  {
    NamesSnoc(lines, l);
  }

  lemma ScanLineKey(lines: seq<Line>, s: Scan, l: Line, k: string)
    requires KeyOk(lines, s, k)
    ensures KeyOk(lines + [l], ScanLine(s, l), k)
  {
    NamesSnoc(lines, l);
    DerivedBySnoc(lines, l, k);
    ClaimAllAt(Own(s, l), Derived(l.name), l.name, l.Balance(), k);
    KeyStep(lines, s, l, ScanLine(s, l), Derives(l.name, k), k);
  }

  /** The case analysis of one key: the line's own name, another rendered name, or an alias. */
  lemma KeyStep(lines: seq<Line>, s: Scan, l: Line, t: Scan, hit: bool, k: string)
    requires KeyOk(lines, s, k)
    requires Names(lines + [l]) == Names(lines) + {l.name}
    requires forall n :: n in Names(lines + [l]) ==>
              LastBalance(lines + [l], n) == if n == l.name then l.Balance() else LastBalance(lines, n)
    requires forall n :: DerivedBy(lines + [l], k, n) <==> DerivedBy(lines, k, n) || (n == l.name && hit)
    requires forall n :: DerivedBy(lines, k, n) && n == l.name ==> hit
    requires var o := Own(s, l);
             var taken := k in o.aliasOwner && o.aliasOwner[k] != l.name;
             && (!hit ==> SameAt(o, t, k) && (k in t.ambiguous <==> k in o.ambiguous))
             && (hit && taken ==> SameAt(o, t, k) && k in t.ambiguous)
             && (hit && !taken ==>
                  && k in t.aliasOwner && t.aliasOwner[k] == l.name && k in t.byName && t.byName[k] == l.Balance()
                  && (k in t.ambiguous <==> k in o.ambiguous))
    ensures KeyOk(lines + [l], t, k)
  {
    if hit {
      assert DerivedBy(lines + [l], k, l.name);
    }
  }

  lemma {:induction false} ScanKnows(lines: seq<Line>)
    ensures Knows(lines, ScanAll(START, lines))
  {
    if lines != [] {
      var front, l := lines[..|lines| - 1], lines[|lines| - 1];
      ScanKnows(front);
      assert lines == front + [l];
      var s := ScanAll(START, front);
      forall k ensures KeyOk(lines, ScanLine(s, l), k) {
        ScanLineKey(front, s, l, k);
      }
      NamesSnoc(front, l);
      IdsSnoc(front, l);
      ClaimAllFrame(Own(s, l), Derived(l.name), l.name, l.Balance());
      ScanUnfold(START, lines);
    }
  }

  /** Dropping the ambiguous aliases, rendered names exempt, leaves the declarative map. */
  lemma DropGivesMeaning(lines: seq<Line>, s: Scan)
    requires Knows(lines, s)
    ensures s.byName - (s.ambiguous - s.canonical) == ByName(lines)
  {
    var m := s.byName - (s.ambiguous - s.canonical);
    forall k ensures k in m <==> k in ByName(lines) {
      KeyResolves(lines, s, k);
    }
    forall k | k in m ensures m[k] == ByName(lines)[k] {
      KeyResolves(lines, s, k);
    }
  }

  lemma KeyResolves(lines: seq<Line>, s: Scan, k: string)
    requires Knows(lines, s)
    ensures k in s.byName && !(k in s.ambiguous && k !in s.canonical) <==> k in Keys(lines) && Resolves(lines, k)
    ensures k in s.byName && Resolves(lines, k) ==> s.byName[k] == Answer(lines, k)
  {
    assert KeyOk(lines, s, k);
    if k in s.byName && k !in Names(lines) {
      var o := s.aliasOwner[k];
      assert DerivedBy(lines, k, o);
      assert k !in s.ambiguous <==> OnlyDeriver(lines, k, o);
      if Resolves(lines, k) {
        var n :| OnlyDeriver(lines, k, n);
        assert n == o;
      }
    }
    if k in Keys(lines) && k !in Names(lines) && Resolves(lines, k) {
      var n :| OnlyDeriver(lines, k, n);
      assert DerivedBy(lines, k, n);
    }
  }

  lemma RecordIsScan(s: Scan, line: Option<Line>)
    ensures ScanAll(s, if line.Some? then [line.value] else []) == if line.Some? then ScanLine(s, line.value) else s
  {
    if line.Some? {
      assert [line.value][..0] == [];
      ScanUnfold(s, [line.value]);
    }
  }

  /** The lines of one more row. */
  lemma WalkStep(dec: string -> int, s: Scan, rows: seq<Row>, i: nat)
    requires i < |rows|
    ensures ScanAll(s, Lines(dec, rows[..i + 1])) == ScanAll(ScanAll(s, Lines(dec, rows[..i])), RowLines(dec, rows[i]))
  {
    assert rows[..i + 1][..i] == rows[..i];
    ScanAppend(s, Lines(dec, rows[..i]), RowLines(dec, rows[i]));
  }

  /** Its own line, then those nested under it. */
  lemma RowStep(dec: string -> int, s: Scan, r: Row)
    ensures ScanAll(s, RowLines(dec, r)) == ScanAll(ScanAll(s, LineSeq(dec, r)), Lines(dec, r.sub))
    ensures r.sub == [] ==> ScanAll(s, RowLines(dec, r)) == ScanAll(s, LineSeq(dec, r))
  {
    ScanAppend(s, LineSeq(dec, r), Lines(dec, r.sub));
  }

  /** The parser: maps and totals filled in place by a recursive walk. */
  class TbParser {
    const dec: string -> int
    var outId: map<string, int>
    var outName: map<string, int>
    var aliasOwner: map<string, string>
    var ambiguous: set<string>
    var canonical: set<string>
    var count: nat
    var debitSum: int
    var creditSum: int

    ghost function State(): Scan
      reads this
    {
      Scan(outId, outName, aliasOwner, ambiguous, canonical, count, debitSum, creditSum)
    }

    constructor (dec: string -> int)
      ensures this.dec == dec && State() == START
    {
      this.dec := dec;
      outId, outName, aliasOwner, ambiguous, canonical := map[], map[], map[], {}, {};
      count, debitSum, creditSum := 0, 0, 0;
    }

    method ClaimAlias(alias: string, owner: string, bal: int)
      modifies this
      ensures State() == Claim(old(State()), alias, owner, bal)
    {
      if alias == "" { return; }
      if alias in aliasOwner && aliasOwner[alias] != owner {
        ambiguous := ambiguous + {alias};
        return;
      }
      aliasOwner := aliasOwner[alias := owner];
      outName := outName[alias := bal];
    }

    method Record(l: Line)
      modifies this
      ensures State() == ScanLine(old(State()), l)
    {
      var name, bal := l.name, l.debit - l.credit;
      count := count + 1;
      debitSum := debitSum + l.debit;
      creditSum := creditSum + l.credit;
      if l.id != "" {
        outId := outId[l.id := bal];
      }
      outName := outName[name := bal];
      aliasOwner := aliasOwner[name := name];
      canonical := canonical + {name};
      assert State() == Own(old(State()), l);
      ClaimAliases(name, bal);
    }

    /** The claims of the name collapsed, of its leaf, and of a leading number. */
    method ClaimAliases(name: string, bal: int)
      modifies this
      ensures State() == ClaimAll(old(State()), Derived(name), name, bal)
    {
      var collapsed := Join(Words(name));
      ClaimAlias(collapsed, name, bal);
      ghost var claimed := [collapsed];
      ClaimSnoc(old(State()), [], collapsed, name, bal);
      assert [] + [collapsed] == claimed;
      if ':' in name {
        var leaf := Strip(AfterLast(name, ':'));
        ClaimAlias(leaf, name, bal);
        ClaimSnoc(old(State()), claimed, leaf, name, bal);
        claimed := claimed + [leaf];
      }
      if ' ' in name {
        var token := FirstToken(name);
        if AllDigits(Without(Without(token, '-'), '.')) {
          ClaimAlias(token, name, bal);
          ClaimSnoc(old(State()), claimed, token, name, bal);
          claimed := claimed + [token];
        }
      }
      assert claimed == Derived(name);
    }

    method Walk(rows: seq<Row>)
      modifies this
      ensures State() == ScanAll(old(State()), Lines(dec, rows))
      decreases rows
    {
      ghost var start := State();
      for i := 0 to |rows|
        invariant State() == ScanAll(start, Lines(dec, rows[..i]))
      {
        WalkRow(rows[i]);
        WalkStep(dec, start, rows, i);
      }
      assert rows[..|rows|] == rows;
    }

    /** One row, then the rows nested under it. */
    method WalkRow(r: Row)
      modifies this
      ensures State() == ScanAll(old(State()), RowLines(dec, r))
      decreases r
    {
      ghost var before := State();
      var line := LineOf(dec, r);
      if line.Some? {
        Record(line.value);
      }
      RecordIsScan(before, line);
      if r.sub != [] {
        Walk(r.sub);
      }
      RowStep(dec, before, r);
    }
  }

  /** The parser returns, for every report tree, exactly the declarative maps and totals. */
  method ParseTrialBalance(dec: string -> int, report: seq<Row>) returns (tb: Tb)
    ensures tb == Meaning(Lines(dec, report))
  {
    var p := new TbParser(dec);
    p.Walk(report);
    ghost var scan := p.State();
    ghost var lines := Lines(dec, report);
    ScanKnows(lines);
    DropGivesMeaning(lines, scan);
    var outName, todo := p.outName, p.ambiguous - p.canonical;
    while todo != {}
      invariant outName - todo == ByName(lines)
      decreases todo
    {
      var alias :| alias in todo;
      assert (outName - {alias}) - (todo - {alias}) == outName - todo;
      outName := outName - {alias};
      todo := todo - {alias};
    }
    assert outName - {} == outName;
    tb := Tb(p.outId, outName, p.count, p.debitSum, p.creditSum);
  }

  // ---- Row order ------------------------------------------------------------

  /** Lines rendered under one name carry one balance; so it is when names are distinct. */
  ghost predicate OneBalanceEach(lines: seq<Line>) {
    forall l, m :: l in lines && m in lines && l.name == m.name ==> l.Balance() == m.Balance()
  }

  lemma {:induction false} LastBalanceIsALine(lines: seq<Line>, n: string) returns (l: Line)
    requires n in Names(lines)
    ensures l in lines && l.name == n && LastBalance(lines, n) == l.Balance()
  {
    l := lines[|lines| - 1];
    if l.name != n {
      assert lines == lines[..|lines| - 1] + [l];
      l := LastBalanceIsALine(lines[..|lines| - 1], n);
    }
  }

  /** The name map does not depend on the order of the report's rows. */
  lemma RowOrderIrrelevant(a: seq<Line>, b: seq<Line>)
    requires OneBalanceEach(a) && forall l :: l in a <==> l in b
    ensures ByName(a) == ByName(b)
  {
    assert Names(a) == Names(b);
    forall n | n in Names(a) ensures LastBalance(a, n) == LastBalance(b, n) {
      var l := LastBalanceIsALine(a, n);
      var m := LastBalanceIsALine(b, n);
    }
    forall k, n ensures OnlyDeriver(a, k, n) <==> OnlyDeriver(b, k, n) {
      forall m ensures DerivedBy(a, k, m) <==> DerivedBy(b, k, m) {}
    }
    forall k | Resolves(a, k) ensures Resolves(b, k) && Answer(a, k) == Answer(b, k) {
      SameAnswer(a, b, k);
    }
    forall k | Resolves(b, k) ensures Resolves(a, k) {
      SameAnswer(b, a, k);
    }
  }

  lemma SameAnswer(a: seq<Line>, b: seq<Line>, k: string)
    requires Names(a) == Names(b)
    requires forall n :: n in Names(a) ==> LastBalance(a, n) == LastBalance(b, n)
    requires forall n :: OnlyDeriver(a, k, n) <==> OnlyDeriver(b, k, n)
    requires Resolves(a, k)
    ensures Resolves(b, k) && Answer(a, k) == Answer(b, k)
  {
    if k !in Names(a) {
      var n :| OnlyDeriver(a, k, n);
      assert OnlyDeriver(b, k, n) && DerivedBy(a, k, n);
    }
  }

  /** The later of two rows under one name wins: a row moved last decides its name. */
  lemma MovedLast(a: seq<Line>, i: nat) returns (b: seq<Line>)
    requires i < |a|
    ensures multiset(b) == multiset(a)
    ensures a[i].name in ByName(b) && ByName(b)[a[i].name] == a[i].Balance()
  {
    var front, back := a[..i], a[i + 1..];
    b := front + back + [a[i]];
    assert a == front + [a[i]] + back;
    assert a[i] in b && b[..|b| - 1] == front + back;
    assert a[i].name in Names(b);
  }

  /** The order of the rows is irrelevant exactly when each rendered name has one balance. */
  lemma OrderIrrelevantExactly(a: seq<Line>)
    ensures OneBalanceEach(a) <==>
              forall b, c :: multiset(b) == multiset(a) && multiset(c) == multiset(a) ==> ByName(b) == ByName(c)
  {
    if OneBalanceEach(a) {
      forall b, c | multiset(b) == multiset(a) && multiset(c) == multiset(a) ensures ByName(b) == ByName(c) {
        SameMembers(a, b);
        SameMembers(a, c);
        RowOrderIrrelevant(a, b);
        RowOrderIrrelevant(a, c);
      }
    } else {
      var l, m :| l in a && m in a && l.name == m.name && l.Balance() != m.Balance();
      var i :| 0 <= i < |a| && a[i] == l;
      var j :| 0 <= j < |a| && a[j] == m;
      var b := MovedLast(a, i);
      var c := MovedLast(a, j);
      assert ByName(b) != ByName(c);
    }
  }

  lemma SameMembers(a: seq<Line>, b: seq<Line>)
    requires multiset(a) == multiset(b)
    ensures forall l :: l in a <==> l in b
  {
    forall l ensures l in a <==> l in b {
      assert l in multiset(a) <==> l in multiset(b);
    }
  }

  // ---- The resolver -----------------------------------------------------------

  function Imbalance(tb: Tb): int {
    tb.debitTotal - tb.creditTotal
  }

  /** The names tried after the id and the bare number, most specific first. */
  function Candidates(acctNum: string, name: string, fullName: string): seq<string> {
    [ if acctNum != "" && fullName != "" then Strip(acctNum + " " + fullName) else "",
      fullName,
      if acctNum != "" then Strip(acctNum + " " + name) else name,
      name,
      if acctNum != "" then Strip(name + " (" + acctNum + ")") else "",
      if ':' in name then Strip(AfterLast(name, ':')) else "" ]
  }

  function FirstHit(m: map<string, int>, keys: seq<string>): Option<int> {
    if keys == [] then None
    else if keys[0] != "" && keys[0] in m then Some(m[keys[0]])
    else FirstHit(m, keys[1..])
  }

  function LookupBalance(tb: Tb, qboId: string, acctNum: string, name: string, fullName: string): Option<int> {
    if qboId != "" && qboId in tb.byId then Some(tb.byId[qboId])
    else FirstHit(tb.byName, [acctNum] + Candidates(acctNum, name, fullName))
  }

  lemma FirstHitCons(m: map<string, int>, k: string, rest: seq<string>)
    ensures FirstHit(m, [k] + rest) == if k != "" && k in m then Some(m[k]) else FirstHit(m, rest)
  {
    assert ([k] + rest)[1..] == rest;
  }

  lemma {:induction false} FirstHitIs(m: map<string, int>, keys: seq<string>)
    ensures FirstHit(m, keys).None? <==> forall k :: k in keys && k != "" ==> k !in m
    ensures FirstHit(m, keys).Some? ==>
              exists i :: 0 <= i < |keys| && IsHit(m, keys, i) && FirstHit(m, keys).value == m[keys[i]]
  {
    if keys != [] {
      FirstHitIs(m, keys[1..]);
      assert keys == [keys[0]] + keys[1..];
      if keys[0] != "" && keys[0] in m {
        assert IsHit(m, keys, 0);
      } else if FirstHit(m, keys).Some? {
        var i :| 0 <= i < |keys[1..]| && IsHit(m, keys[1..], i) && FirstHit(m, keys[1..]).value == m[keys[1..][i]];
        assert IsHit(m, keys, i + 1);
      }
    }
  }

  predicate IsHit(m: map<string, int>, keys: seq<string>, i: nat)
    requires i < |keys|
  {
    keys[i] != "" && keys[i] in m && forall j :: 0 <= j < i ==> keys[j] == "" || keys[j] !in m
  }

  /** A balance returned is the balance of the named id, or of the row rendered as the key
      matched, or of the only row deriving that key; nothing is returned exactly when neither
      the id nor any key resolves. */
  lemma LookupIsSound(lines: seq<Line>, tb: Tb, qboId: string, acctNum: string, name: string, fullName: string)
    requires tb == Meaning(lines)
    ensures var keys := [acctNum] + Candidates(acctNum, name, fullName);
            var r := LookupBalance(tb, qboId, acctNum, name, fullName);
            && (r.None? <==>
                !(qboId != "" && qboId in Ids(lines)) && forall k :: k in keys && k != "" ==> !Resolves(lines, k))
            && (r.Some? ==>
                  || (qboId != "" && qboId in Ids(lines) && r.value == LastById(lines, qboId))
                  || (exists k :: k in keys && k != "" && k in Names(lines) && r.value == LastBalance(lines, k))
                  || (exists k, n ::
                      k in keys && k !in Names(lines) && OnlyDeriver(lines, k, n) && r.value == LastBalance(lines, n)))
  {
    var keys := [acctNum] + Candidates(acctNum, name, fullName);
    FirstHitIs(tb.byName, keys);
    forall k ensures k in tb.byName <==> Resolves(lines, k) {
      ResolvesIsKey(lines, k);
    }
    if !(qboId != "" && qboId in tb.byId) && FirstHit(tb.byName, keys).Some? {
      var i :| 0 <= i < |keys| && IsHit(tb.byName, keys, i) && FirstHit(tb.byName, keys).value == tb.byName[keys[i]];
      if keys[i] !in Names(lines) {
        var n :| OnlyDeriver(lines, keys[i], n) && Answer(lines, keys[i]) == LastBalance(lines, n);
      }
    }
  }

  lemma ResolvesIsKey(lines: seq<Line>, k: string)
    ensures Resolves(lines, k) ==> k in Keys(lines)
  {
    if k !in Names(lines) && Resolves(lines, k) {
      var n :| OnlyDeriver(lines, k, n);
      assert DerivedBy(lines, k, n);
    }
  }
}

/** What a trial-balance report says in terms of its cells: backend/core/qbo_tb.py, from the JSON
    rows to the figures the resolver returns. */
module TrialBalanceReport {
  import opened Prelude
  import opened Text
  import opened TrialBalance

  // ---- One row -------------------------------------------------------------

  function NameOf(r: Row): string {
    if r.cols == [] then "" else Strip(r.cols[0].value)
  }

  function IdOf(r: Row): string {
    if r.cols == [] then "" else r.cols[0].id
  }

  /** Its name is neither blank nor a summary's. */
  predicate NamesAccount(r: Row) {
    NameOf(r) != "" && !IsSummary(NameOf(r))
  }

  /** The debit is in the second column, the credit in the third. */
  function Debit(dec: string -> int, r: Row): int {
    if |r.cols| > 1 then dec(r.cols[1].value) else 0
  }

  function Credit(dec: string -> int, r: Row): int {
    if |r.cols| > 2 then dec(r.cols[2].value) else 0
  }

  /** A row counts exactly when it names an account, and then with its stripped name, its id, its
      debit and its credit; a summary or nameless row adds nothing. */
  lemma RowIsRead(dec: string -> int, r: Row)
    ensures LineOf(dec, r).Some? <==> NamesAccount(r)
    ensures NamesAccount(r) ==>
              && LineOf(dec, r) == Some(Line(NameOf(r), IdOf(r), Debit(dec, r), Credit(dec, r)))
              && LineOf(dec, r).value.Balance() == Debit(dec, r) - Credit(dec, r)
  {
  }

  /** A summary is a name that starts with one of four words, in upper or lower case. */
  lemma SummaryExactly(name: string)
    ensures IsSummary(name) <==> exists n: nat :: n <= |name| && IsSummaryWord(Lower(name[..n]))
  {
    var low := Lower(name);
    forall n: nat | n <= |name| ensures Lower(name[..n]) == low[..n] {}
    if IsSummary(name) {
      var n := if "total" <= low then 5 else if "subtotal" <= low then 8 else if "net income" <= low then 10 else 8;
      assert IsSummaryWord(low[..n]);
    }
  }

  predicate IsSummaryWord(word: string) {
    word == "total" || word == "subtotal" || word == "net income" || word == "net loss"
  }

  // ---- The whole report ----------------------------------------------------

  /** The rows that name accounts, each before the rows nested under it. */
  function Accounts(rows: seq<Row>): seq<Row>
    decreases rows
  {
    if rows == [] then []
    else (if NamesAccount(rows[0]) then [rows[0]] else []) + Accounts(rows[0].sub) + Accounts(rows[1..])
  }

  lemma {:induction false} LinesCons(dec: string -> int, r: Row, rest: seq<Row>)
    ensures Lines(dec, [r] + rest) == RowLines(dec, r) + Lines(dec, rest)
    decreases |rest|
  {
    var rows := [r] + rest;
    if rest == [] {
      assert rows[..0] == [] && rows[0] == r;
    } else {
      var front, last := rest[..|rest| - 1], rest[|rest| - 1];
      LinesCons(dec, r, front);
      assert rows[..|rows| - 1] == [r] + front && rows[|rows| - 1] == last;
      Regroup(RowLines(dec, r), Lines(dec, front), RowLines(dec, last));
    }
  }

  lemma Regroup(a: seq<Line>, b: seq<Line>, c: seq<Line>)
    ensures (a + b) + c == a + (b + c)
  {
  }

  ghost predicate LinesOf(dec: string -> int, lines: seq<Line>, rows: seq<Row>) {
    |lines| == |rows| && forall k :: 0 <= k < |rows| ==> LineOf(dec, rows[k]) == Some(lines[k])
  }

  /** The parser's lines are those rows, read one by one in that order. */
  lemma {:induction false} LinesAreAccounts(dec: string -> int, rows: seq<Row>)
    ensures LinesOf(dec, Lines(dec, rows), Accounts(rows))
    decreases rows
  {
    if rows != [] {
      var r, rest := rows[0], rows[1..];
      assert rows == [r] + rest;
      LinesCons(dec, r, rest);
      LinesAreAccounts(dec, r.sub);
      LinesAreAccounts(dec, rest);
      RowIsRead(dec, r);
      var own := if NamesAccount(r) then [r] else [];
      assert LinesOf(dec, LineSeq(dec, r), own);
      OfJoin(dec, LineSeq(dec, r), own, Lines(dec, r.sub), Accounts(r.sub));
      OfJoin(dec, RowLines(dec, r), own + Accounts(r.sub), Lines(dec, rest), Accounts(rest));
    }
  }

  lemma OfJoin(dec: string -> int, lines: seq<Line>, rows: seq<Row>, more: seq<Line>, others: seq<Row>)
    requires LinesOf(dec, lines, rows) && LinesOf(dec, more, others)
    ensures LinesOf(dec, lines + more, rows + others)
  {
  }

  function DebitSum(dec: string -> int, rows: seq<Row>): int {
    if rows == [] then 0 else DebitSum(dec, rows[..|rows| - 1]) + Debit(dec, rows[|rows| - 1])
  }

  function CreditSum(dec: string -> int, rows: seq<Row>): int {
    if rows == [] then 0 else CreditSum(dec, rows[..|rows| - 1]) + Credit(dec, rows[|rows| - 1])
  }

  lemma {:induction false} SumsAre(dec: string -> int, lines: seq<Line>, rows: seq<Row>)
    requires LinesOf(dec, lines, rows)
    ensures Debits(lines) == DebitSum(dec, rows) && Credits(lines) == CreditSum(dec, rows)
  {
    if rows != [] {
      SumsAre(dec, lines[..|lines| - 1], rows[..|rows| - 1]);
      RowIsRead(dec, rows[|rows| - 1]);
    }
  }

  /** The last line with an id decides its balance, and the last one with a name that of the name. */
  lemma {:induction false} LastLineDecides(lines: seq<Line>, k: nat)
    requires k < |lines|
    ensures lines[k].id != "" && (forall j :: k < j < |lines| ==> lines[j].id != lines[k].id) ==>
              lines[k].id in Ids(lines) && LastById(lines, lines[k].id) == lines[k].Balance()
    ensures (forall j :: k < j < |lines| ==> lines[j].name != lines[k].name) ==>
              lines[k].name in Names(lines) && LastBalance(lines, lines[k].name) == lines[k].Balance()
  {
    var n := |lines| - 1;
    assert lines[k] in lines;
    if k < n {
      var front := lines[..n];
      assert front[k] in front;
      LastLineDecides(front, k);
    }
  }

  /** The totals are the sums of the second and third columns over the account rows, so the
      imbalance is their difference. */
  lemma TotalsAreColumns(dec: string -> int, report: seq<Row>)
    ensures var tb := Meaning(Lines(dec, report));
            && tb.rows == |Accounts(report)|
            && tb.debitTotal == DebitSum(dec, Accounts(report))
            && tb.creditTotal == CreditSum(dec, Accounts(report))
            && Imbalance(tb) == DebitSum(dec, Accounts(report)) - CreditSum(dec, Accounts(report))
  {
    LinesAreAccounts(dec, report);
    SumsAre(dec, Lines(dec, report), Accounts(report));
  }

  /** The lines have these rows' names, ids and balances. */
  ghost predicate SaysThat(dec: string -> int, lines: seq<Line>, rows: seq<Row>) {
    && |lines| == |rows|
    && forall k :: 0 <= k < |lines| ==> RowSays(dec, lines[k], rows[k])
  }

  predicate RowSays(dec: string -> int, l: Line, r: Row) {
    l.name == NameOf(r) && l.id == IdOf(r) && l.Balance() == Debit(dec, r) - Credit(dec, r)
  }

  lemma LinesSay(dec: string -> int, report: seq<Row>)
    ensures SaysThat(dec, Lines(dec, report), Accounts(report))
  {
    var lines, rows := Lines(dec, report), Accounts(report);
    LinesAreAccounts(dec, report);
    forall k | 0 <= k < |lines| ensures RowSays(dec, lines[k], rows[k]) {
      RowIsRead(dec, rows[k]);
    }
  }

  /** No later row has this row's id; no later row has its name. */
  predicate LastOfId(rows: seq<Row>, k: nat)
    requires k < |rows|
  {
    IdOf(rows[k]) != "" && forall j :: k < j < |rows| ==> IdOf(rows[j]) != IdOf(rows[k])
  }

  predicate LastOfName(rows: seq<Row>, k: nat)
    requires k < |rows|
  {
    forall j :: k < j < |rows| ==> NameOf(rows[j]) != NameOf(rows[k])
  }

  /** The balance under an id is second column less third of the last account row with that id, and
      under a name of the last account row so named. */
  lemma BalanceIsColumns(dec: string -> int, report: seq<Row>, k: nat)
    requires k < |Accounts(report)|
    ensures var tb, r := Meaning(Lines(dec, report)), Accounts(report)[k];
            && (LastOfId(Accounts(report), k) ==>
                  IdOf(r) in tb.byId && tb.byId[IdOf(r)] == Debit(dec, r) - Credit(dec, r))
            && (LastOfName(Accounts(report), k) ==>
                  NameOf(r) in tb.byName && tb.byName[NameOf(r)] == Debit(dec, r) - Credit(dec, r))
  {
    LinesSay(dec, report);
    RowDecides(dec, Lines(dec, report), Accounts(report), k);
  }

  lemma RowDecides(dec: string -> int, lines: seq<Line>, rows: seq<Row>, k: nat)
    requires SaysThat(dec, lines, rows) && k < |rows|
    ensures LastOfId(rows, k) ==>
              && IdOf(rows[k]) in Ids(lines)
              && LastById(lines, IdOf(rows[k])) == Debit(dec, rows[k]) - Credit(dec, rows[k])
    ensures LastOfName(rows, k) ==>
              && NameOf(rows[k]) in Names(lines)
              && LastBalance(lines, NameOf(rows[k])) == Debit(dec, rows[k]) - Credit(dec, rows[k])
  {
    assert RowSays(dec, lines[k], rows[k]);
    forall j | 0 <= j < |rows| ensures lines[j].id == IdOf(rows[j]) && lines[j].name == NameOf(rows[j]) {
      assert RowSays(dec, lines[j], rows[j]);
    }
    LastLineDecides(lines, k);
  }

  /** An id is known exactly when an account row has it. */
  lemma IdsAreColumns(dec: string -> int, report: seq<Row>, i: string)
    ensures i in Meaning(Lines(dec, report)).byId <==> i != "" && HasId(Accounts(report), i)
  {
    LinesSay(dec, report);
    IdsAtRows(dec, Lines(dec, report), Accounts(report), i);
  }

  ghost predicate HasId(rows: seq<Row>, i: string) {
    exists k :: 0 <= k < |rows| && IdOf(rows[k]) == i
  }

  lemma IdsAtRows(dec: string -> int, lines: seq<Line>, rows: seq<Row>, i: string)
    requires SaysThat(dec, lines, rows)
    ensures i in Ids(lines) <==> i != "" && HasId(rows, i)
  {
    IdsAt(lines, i);
    if k: nat :| k < |lines| && lines[k].id == i {
      assert RowSays(dec, lines[k], rows[k]);
    }
    if k: nat :| k < |rows| && IdOf(rows[k]) == i {
      assert RowSays(dec, lines[k], rows[k]);
    }
  }

  lemma IdsAt(lines: seq<Line>, i: string)
    ensures i in Ids(lines) <==> i != "" && exists k :: 0 <= k < |lines| && lines[k].id == i
  {
    if i != "" && exists k :: 0 <= k < |lines| && lines[k].id == i {
      var k :| 0 <= k < |lines| && lines[k].id == i;
      assert lines[k] in lines;
    }
  }

  // ---- Aliases -------------------------------------------------------------

  /** A number: digits, with dashes and dots allowed among them. */
  predicate IsNumber(s: string) {
    && (exists i :: 0 <= i < |s| && IsDigit(s[i]))
    && (forall i :: 0 <= i < |s| ==> IsDigit(s[i]) || s[i] == '-' || s[i] == '.')
  }

  lemma {:induction false} NumberDigits(s: string)
    ensures var t := Without(Without(s, '-'), '.');
            && (forall c :: c in t <==> c in s && c != '-' && c != '.')
    ensures forall c :: c in Without(s, '-') <==> c in s && c != '-'
  {
    WithoutHolds(s, '-');
    WithoutHolds(Without(s, '-'), '.');
  }

  lemma {:induction false} WithoutHolds(s: string, d: char)
    ensures forall c :: c in Without(s, d) <==> c in s && c != d
  {
    if s != [] {
      WithoutHolds(s[1..], d);
    }
  }

  lemma NumberExactly(s: string)
    ensures AllDigits(Without(Without(s, '-'), '.')) <==> IsNumber(s)
  {
    var t := Without(Without(s, '-'), '.');
    NumberDigits(s);
    if AllDigits(t) {
      assert t[0] in s && IsDigit(t[0]);
      forall i | 0 <= i < |s| ensures IsDigit(s[i]) || s[i] == '-' || s[i] == '.' { assert s[i] in s; }
    }
    if IsNumber(s) {
      var i :| 0 <= i < |s| && IsDigit(s[i]);
      assert s[i] in s && s[i] in t;
      forall k | 0 <= k < |t| ensures IsDigit(t[k]) { assert t[k] in t; }
    }
  }

  /** A name's words joined by single spaces are an alias of it. */
  lemma CollapsedIsAlias(name: string)
    ensures Join(Words(name)) in Derived(name)
  {
  }

  /** So is the stripped text behind its last colon. */
  lemma LeafIsAlias(parent: string, leaf: string)
    requires ':' !in leaf
    ensures Strip(leaf) in Derived(parent + ":" + leaf)
  {
    AfterLastIs(parent, leaf, ':');
    assert (parent + ":" + leaf)[|parent|] == ':';
  }

  /** So is the number it starts with. */
  lemma NumberIsAlias(number: string, rest: string)
    requires IsNumber(number)
    ensures number in Derived(number + " " + rest)
  {
    var name := number + " " + rest;
    NumberExactly(number);
    assert ' ' !in number;
    FirstTokenIs(number, rest);
    assert name[|number|] == ' ';
  }

  /** And no other text is. */
  lemma OnlyThoseAreAliases(name: string, k: string)
    requires k in Derived(name)
    ensures k == Join(Words(name)) || IsLeafOf(name, k) || StartsNumber(name, k)
  {
    if ':' in name {
      LeafOfName(name);
    }
    if ' ' in name && AllDigits(Without(Without(FirstToken(name), '-'), '.')) {
      NumberOfName(name);
    }
  }

  predicate SplitsAt(s: string, a: string, c: char, b: string) {
    s == a + [c] + b && c !in b
  }

  ghost predicate IsLeafOf(name: string, k: string) {
    exists a, b :: SplitsAt(name, a, ':', b) && k == Strip(b)
  }

  predicate StartsNumber(name: string, k: string) {
    IsNumber(k) && k + " " <= name
  }

  lemma LeafOfName(name: string)
    requires ':' in name
    ensures IsLeafOf(name, Strip(AfterLast(name, ':')))
  {
    var a, b := LastAt(name, ':');
    AfterLastIs(a, b, ':');
  }

  lemma NumberOfName(name: string)
    requires ' ' in name && AllDigits(Without(Without(FirstToken(name), '-'), '.'))
    ensures StartsNumber(name, FirstToken(name))
  {
    NumberExactly(FirstToken(name));
    FirstTokenEnds(name);
  }

  lemma {:induction false} LastAt(s: string, c: char) returns (a: string, b: string)
    requires c in s
    ensures SplitsAt(s, a, c, b)
  {
    var n := |s| - 1;
    assert s == s[..n] + [s[n]];
    if s[n] == c {
      a, b := s[..n], [];
    } else {
      a, b := LastAt(s[..n], c);
      b := b + [s[n]];
    }
  }

  lemma {:induction false} FirstTokenEnds(s: string)
    requires ' ' in s
    ensures var t := FirstToken(s); |t| < |s| && s[..|t|] == t && s[|t|] == ' '
  {
    if s[0] != ' ' {
      assert s == [s[0]] + s[1..];
      FirstTokenEnds(s[1..]);
    }
  }

  // ---- The resolver --------------------------------------------------------

  /** The answer under this key if there is one, otherwise what comes next. */
  ghost function Or(lines: seq<Line>, k: string, next: Option<int>): Option<int> {
    if k != "" && Resolves(lines, k) then Some(Answer(lines, k)) else next
  }

  lemma HitOr(lines: seq<Line>, k: string, rest: seq<string>)
    ensures FirstHit(ByName(lines), [k] + rest) == Or(lines, k, FirstHit(ByName(lines), rest))
  {
    FirstHitCons(ByName(lines), k, rest);
    ResolvesIsKey(lines, k);
  }

  lemma SixHits(lines: seq<Line>, a: string, b: string, c: string, d: string, e: string, f: string)
    ensures FirstHit(ByName(lines), [a, b, c, d, e, f]) ==
              Or(lines, a, Or(lines, b, Or(lines, c, Or(lines, d, Or(lines, e, Or(lines, f, None))))))
  {
    assert [a, b, c, d, e, f] == [a] + ([b] + ([c] + ([d] + ([e] + ([f] + [])))));
    HitOr(lines, a, [b] + ([c] + ([d] + ([e] + ([f] + [])))));
    HitOr(lines, b, [c] + ([d] + ([e] + ([f] + []))));
    HitOr(lines, c, [d] + ([e] + ([f] + [])));
    HitOr(lines, d, [e] + ([f] + []));
    HitOr(lines, e, [f] + []);
    HitOr(lines, f, []);
  }

  /** An account is looked up by its id, then its number, then number and full name together, the
      full name, number and leaf name together, the leaf name, the leaf name with the number behind
      it in parentheses, and last the text behind the leaf name's last colon. The first of them that
      the report answers decides. */
  lemma LookupOrder(lines: seq<Line>, qboId: string, acctNum: string, name: string, fullName: string)
    ensures var leaf := if ':' in name then Strip(AfterLast(name, ':')) else "";
            LookupBalance(Meaning(lines), qboId, acctNum, name, fullName) ==
              if qboId != "" && qboId in Ids(lines) then Some(LastById(lines, qboId))
              else if acctNum == "" then
                Or(lines, fullName, Or(lines, name, Or(lines, leaf, None)))
              else if fullName == "" then
                Or(lines, acctNum, Or(lines, Strip(acctNum + " " + name),
                  Or(lines, name, Or(lines, Strip(name + " (" + acctNum + ")"), Or(lines, leaf, None)))))
              else
                Or(lines, acctNum, Or(lines, Strip(acctNum + " " + fullName), Or(lines, fullName,
                  Or(lines, Strip(acctNum + " " + name),
                    Or(lines, name, Or(lines, Strip(name + " (" + acctNum + ")"), Or(lines, leaf, None)))))))
  {
    var keys := Candidates(acctNum, name, fullName);
    HitOr(lines, acctNum, keys);
    SixHits(lines, keys[0], keys[1], keys[2], keys[3], keys[4], keys[5]);
    assert keys == [keys[0], keys[1], keys[2], keys[3], keys[4], keys[5]];
  }
}

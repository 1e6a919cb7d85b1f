/** What a general ledger report says in terms of its columns, cells and nesting:
    backend/core/qbo_gl.py. */
module GlReportReading {
  import opened Prelude
  import opened Text
  import opened GlReport

  // ---- Columns -------------------------------------------------------------

  /** The word stands somewhere in the text. */
  lemma {:induction false} ContainsExactly(t: string, word: string)
    requires word != []
    ensures Contains(t, word) <==> exists i :: 0 <= i <= |t| - |word| && word <= t[i..]
  {
    if |word| <= |t| && !(word <= t) {
      ContainsExactly(t[1..], word);
      if i :| 0 <= i <= |t| - |word| && word <= t[i..] {
        assert i > 0 && t[1..][i - 1..] == t[i..];
      }
      if i :| 0 <= i <= |t[1..]| - |word| && word <= t[1..][i..] {
        assert t[1..][i..] == t[i + 1..];
      }
    } else if word <= t {
      assert t[0..] == t;
    }
  }

  /** The seven columns asked for are read by their type, whatever its case, the white space around
      it and the title. */
  lemma RequestedColumns(c: Column)
    ensures var t := Lower(Strip(c.colType));
            && (t == "tx_date" ==> ColumnRole(c) == Some(DateRole))
            && (t == "txn_type" ==> ColumnRole(c) == Some(TypeRole))
            && (t == "doc_num" ==> ColumnRole(c) == Some(NumberRole))
            && (t == "name" ==> ColumnRole(c) == Some(EntityRole))
            && (t == "memo" ==> ColumnRole(c) == Some(MemoRole))
            && (t == "subt_nat_amount" ==> ColumnRole(c) == Some(AmountRole))
            && (t == "split_acc" ==> ColumnRole(c) == Some(SplitRole))
  {
  }

  /** A column without a type is read by its title: a date unless it is the date of a change, then
      the first of type, number, memo, amount, split and name that the title speaks of. */
  lemma UntypedColumns(c: Column)
    requires Strip(c.colType) == ""
    ensures var title, r := Lower(Strip(c.title)), ColumnRole(c);
            var date := Contains(title, "date") && !Contains(title, "modify");
            && (r == Some(DateRole) <==> date)
            && (r == Some(TypeRole) <==> !date && Contains(title, "type"))
            && (r == Some(NumberRole) <==> !date && !Contains(title, "type") && Contains(title, "num"))
            && (r == Some(MemoRole) ==> Contains(title, "memo") || Contains(title, "description"))
            && (r == Some(AmountRole) ==> Contains(title, "amount"))
            && (r == Some(SplitRole) ==> Contains(title, "split") && !Contains(title, "amount"))
            && (r == Some(EntityRole) ==>
                  Contains(title, "name") || Contains(title, "customer") || Contains(title, "vendor"))
            && (r == None ==>
                  !Contains(title, "amount") && !Contains(title, "memo") && !Contains(title, "description")
                  && !Contains(title, "split") && !Contains(title, "name"))
  {
  }

  // ---- One row -------------------------------------------------------------

  /** Of several columns with one role the last one counts, stripped; without any there is no text. */
  lemma {:induction false} TextIs(cells: seq<Cell>, roles: Roles, role: Role, i: nat)
    ensures i < |cells| && i in roles && roles[i] == role
            && (forall j :: i < j < |cells| && j in roles ==> roles[j] != role) ==>
              TextOf(cells, roles, role) == Strip(cells[i].value)
    ensures (forall j :: 0 <= j < |cells| && j in roles ==> roles[j] != role) ==> TextOf(cells, roles, role) == []
  {
    if cells != [] {
      TextIs(cells[..|cells| - 1], roles, role, i);
    }
  }

  /** The transaction's id is the first there is under a column with a role. */
  lemma {:induction false} IdIs(cells: seq<Cell>, roles: Roles, i: nat)
    ensures i < |cells| && i in roles && cells[i].id != []
            && (forall j :: 0 <= j < i && j in roles ==> cells[j].id == []) ==>
              FirstId(cells, roles) == cells[i].id
    ensures (forall j :: 0 <= j < |cells| && j in roles ==> cells[j].id == []) ==> FirstId(cells, roles) == []
  {
    if cells != [] {
      var n := |cells| - 1;
      IdIs(cells[..n], roles, i);
      if i == n {
        assert forall j :: 0 <= j < n ==> cells[..n][j] == cells[j];
      }
    }
  }

  /** The roles of the seven columns in the order they are asked for. */
  ghost predicate IsStandard(roles: Roles) {
    && (forall i: nat :: i in roles <==> i < 7)
    && roles[0] == DateRole && roles[1] == TypeRole && roles[2] == NumberRole && roles[3] == EntityRole
    && roles[4] == MemoRole && roles[5] == AmountRole && roles[6] == SplitRole
  }

  lemma StandardTexts(cells: seq<Cell>, roles: Roles)
    requires |cells| == 7 && IsStandard(roles)
    ensures TextOf(cells, roles, DateRole) == Strip(cells[0].value)
    ensures TextOf(cells, roles, TypeRole) == Strip(cells[1].value)
    ensures TextOf(cells, roles, NumberRole) == Strip(cells[2].value)
    ensures TextOf(cells, roles, EntityRole) == Strip(cells[3].value)
    ensures TextOf(cells, roles, MemoRole) == Strip(cells[4].value)
    ensures TextOf(cells, roles, AmountRole) == Strip(cells[5].value)
  {
    TextIs(cells, roles, DateRole, 0);
    TextIs(cells, roles, TypeRole, 1);
    TextIs(cells, roles, NumberRole, 2);
    TextIs(cells, roles, EntityRole, 3);
    TextIs(cells, roles, MemoRole, 4);
    TextIs(cells, roles, AmountRole, 5);
  }

  /** A row under the seven columns asked for says date, type, number, name, memo, amount and split,
      in that order; a row without amount, number, name and memo says nothing. */
  lemma StandardRow(reader: Reader, cells: seq<Cell>, roles: Roles)
    requires |cells| == 7 && IsStandard(roles)
    ensures var number, entity, memo := Strip(cells[2].value), Strip(cells[3].value), Strip(cells[4].value);
            var kind, amount := Strip(cells[1].value), reader.dec(Strip(cells[5].value));
            TxnOf(reader, cells, roles) ==
              if amount == 0 && number == "" && entity == "" && memo == "" then None
              else
                Some(Txn(FirstId(cells, roles), if kind == "" then "Transaction" else kind, number,
                         reader.date(Strip(cells[0].value)), amount, memo, entity))
  {
    StandardTexts(cells, roles);
  }

  /** A heading, or a running balance. */
  predicate IsHeading(s: string) {
    s == "" || s == "beginning balance" || s == "total" || s == "ending balance"
  }

  /** A row is read exactly when it has cells, is data or belongs to no group, and does not start with
      a heading, in upper or lower case. */
  lemma RowsRead(r: Row)
    ensures Reads(r) <==>
              && r.cells != [] && (r.kind == "Data" || r.group == "")
              && !IsHeading(Lower(Strip(r.cells[0].value)))
  {
  }

  // ---- The tree ------------------------------------------------------------

  /** Rows are taken in order, each before those under it. */
  lemma {:induction false} PlainAre(reader: Reader, roles: Roles, rows: seq<Row>, more: seq<Row>)
    ensures Plain(reader, roles, rows + more) == Plain(reader, roles, rows) + Plain(reader, roles, more)
    ensures |rows| == 1 ==>
              var own := OwnTxn(reader, roles, rows[0]);
              Plain(reader, roles, rows) ==
                (if own.Some? then [own.value] else []) + Plain(reader, roles, rows[0].rows)
    decreases |more|
  {
    if |rows| == 1 {
      assert rows[..0] == [];
    }
    if more == [] {
      assert rows + more == rows;
    } else {
      var front := more[..|more| - 1];
      PlainAre(reader, roles, rows, front);
      assert (rows + more)[..|rows + more| - 1] == rows + front;
    }
  }

  /** Each row of the chain is nested in the one before. */
  predicate Nested(chain: seq<Row>, k: nat)
    requires k + 1 < |chain|
  {
    chain[k + 1] in chain[k].rows
  }

  /** A transaction is found in its own row, the last of its chain, which goes down from the given
      rows one nesting at a time. */
  ghost predicate WellFound(reader: Reader, roles: Roles, rows: seq<Row>, above: seq<Row>, f: Found) {
    && |f.chain| > |above| && f.chain[..|above|] == above && f.chain[|above|] in rows
    && OwnTxn(reader, roles, Last(f.chain)) == Some(f.txn)
    && forall k {:trigger Nested(f.chain, k)} :: |above| <= k < |f.chain| - 1 ==> Nested(f.chain, k)
  }

  lemma {:induction false} ChainsAreNested(reader: Reader, roles: Roles, rows: seq<Row>, above: seq<Row>)
    ensures forall f :: f in Finds(reader, roles, rows, above) ==> WellFound(reader, roles, rows, above, f)
    decreases rows
  {
    if rows != [] {
      var front, r := rows[..|rows| - 1], rows[|rows| - 1];
      ChainsAreNested(reader, roles, front, above);
      ChainsAreNested(reader, roles, r.rows, above + [r]);
      forall f | f in Finds(reader, roles, rows, above) ensures WellFound(reader, roles, rows, above, f) {
        if f in Finds(reader, roles, front, above) {
          assert WellFound(reader, roles, front, above, f);
        } else if f in Finds(reader, roles, r.rows, above + [r]) {
          Deeper(reader, roles, rows, above, r, f);
        } else {
          OwnRow(reader, roles, rows, above, r, f);
        }
      }
    }
  }

  lemma OwnRow(reader: Reader, roles: Roles, rows: seq<Row>, above: seq<Row>, r: Row, f: Found)
    requires r in rows && f in RowFinds(reader, roles, r, above) && f !in Finds(reader, roles, r.rows, above + [r])
    ensures WellFound(reader, roles, rows, above, f)
  {
    assert f.chain == above + [r];
    assert f.chain[..|above|] == above && Last(f.chain) == r;
  }

  lemma Deeper(reader: Reader, roles: Roles, rows: seq<Row>, above: seq<Row>, r: Row, f: Found)
    requires r in rows && WellFound(reader, roles, r.rows, above + [r], f)
    ensures WellFound(reader, roles, rows, above, f)
  {
    var n := |above|;
    assert f.chain[..n + 1][..n] == above && f.chain[n] == f.chain[..n + 1][n] == r;
    forall k | n <= k < |f.chain| - 1 ensures Nested(f.chain, k) {
      assert k > n ==> Nested(f.chain, k);
    }
  }

  /** The account in force: the nearest Section whose header has an id, and whose header has a name. */
  lemma {:induction false} NearestIs(chain: seq<Row>, i: nat)
    requires i < |chain|
    ensures GivesId(chain[i]) && (forall j :: i < j < |chain| ==> !GivesId(chain[j])) ==>
              NearestId(chain) == chain[i].header[0].id
    ensures GivesName(chain[i]) && (forall j :: i < j < |chain| ==> !GivesName(chain[j])) ==>
              NearestName(chain) == Strip(chain[i].header[0].value)
  {
    if i < |chain| - 1 {
      NearestIs(chain[..|chain| - 1], i);
    }
  }

  predicate GivesId(r: Row) {
    r.kind == "Section" && r.header != [] && r.header[0].id != ""
  }

  predicate GivesName(r: Row) {
    r.kind == "Section" && r.header != [] && Strip(r.header[0].value) != ""
  }

  lemma {:induction false} NoneIsNear(chain: seq<Row>)
    ensures (forall j :: 0 <= j < |chain| ==> !GivesId(chain[j])) ==> NearestId(chain) == ""
    ensures (forall j :: 0 <= j < |chain| ==> !GivesName(chain[j])) ==> NearestName(chain) == ""
  {
    if chain != [] {
      NoneIsNear(chain[..|chain| - 1]);
    }
  }

  /** A row without a readable date sorts as the earliest date there is. */
  lemma UndatedIsOldest(t: Txn, u: Txn)
    requires t.date.None? && (u.date.Some? ==> u.date.value >= 1)
    ensures TxnKey(t) == 1 <= TxnKey(u)
    ensures u.date.Some? ==> TxnKey(u) == u.date.value
  {
  }

  // ---- Many accounts -------------------------------------------------------

  /** There are as few calls as fifty ids to a call allow. */
  lemma {:induction false} CallsMade(ids: seq<string>)
    ensures |Batches(ids)| == (|ids| + 49) / 50
    decreases |ids|
  {
    if |ids| > 50 {
      CallsMade(ids[50..]);
      assert (|ids| + 49) / 50 == (|ids| - 50 + 49) / 50 + 1;
    }
  }

  /** Each asks for the next ids in order, and each but the last is full. */
  lemma {:induction false} CallIs(ids: seq<string>, k: nat)
    requires k < |Batches(ids)|
    ensures 50 * k < |ids| && Batches(ids)[k] == ids[50 * k..if 50 * k + 50 < |ids| then 50 * k + 50 else |ids|]
    decreases |ids|
  {
    if |ids| <= 50 {
      assert k == 0 && ids[0..|ids|] == ids;
    } else if k > 0 {
      CallIs(ids[50..], k - 1);
    }
  }

  /** The answers stand in the order of the calls. */
  lemma {:induction false} AnswersAre(fetch: Fetch, calls: seq<seq<string>>, more: seq<seq<string>>)
    ensures Answers(fetch, calls + more) == Answers(fetch, calls) + Answers(fetch, more)
  {
    if calls == [] {
      assert calls + more == more;
    } else {
      var all, rest := calls + more, calls[1..];
      assert all[1..] == rest + more && all[0] == calls[0];
      AnswersAre(fetch, rest, more);
      var first, middle, last := Answer(fetch, calls[0]), Answers(fetch, rest), Answers(fetch, more);
      assert first + (middle + last) == (first + middle) + last;
    }
  }

  /** Each is newest first; a failed call gives none. */
  lemma OneAnswerIs(fetch: Fetch, call: seq<string>)
    ensures Answers(fetch, [call]) == if fetch(call).Some? then NewestFirst(TaggedKey, fetch(call).value) else []
  {
    assert [call][1..] == [];
  }
}

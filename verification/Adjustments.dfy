/** The adjusting-entry lifecycle: backend/modules/adjustments/router.py, with the balance and
    self-approval rules it takes from backend/modules/adjustments/service.py. One workspace. */
module Adjustments {
  import opened Prelude
  import opened Text

  datatype Role = Preparer | Reviewer | Admin
  datatype Status = Open | Accepted | Posted | Dismissed

  /** A line of a journal entry in cents; an account without a QuickBooks id is "". */
  datatype JeLine = JeLine(account: string, debit: int, credit: int)

  /** A proposed entry. `approvedAs` records the role under which `approvedBy` was stamped;
      the row itself does not keep it. */
  datatype Entry = Entry(
    source: string, period: int, lines: seq<JeLine>, status: Status,
    savedAt: Option<int>, preparedBy: Option<int>, approvedBy: Option<int>, approvedAs: Option<Role>,
    dismissReason: Option<string>, postedDoc: Option<string>, confirmedAt: Option<int>)

  datatype State = State(entries: map<nat, Entry>, closed: set<int>)

  datatype User = User(id: int, role: Role)

  datatype Action =
    | Draft(id: nat, source: string, period: int, lines: seq<JeLine>)
    | Discard(id: nat)
    | ClosePeriod(period: int)
    | ReopenPeriod(period: int)
    | Accept(user: User, id: nat)
    | Dismiss(user: User, id: nat, reason: string)
    | MarkPosted(user: User, id: nat)
    | Reopen(user: User, id: nat)
    | Edit(user: User, id: nat, newLines: Option<seq<JeLine>>)
    | Save(user: User, period: int, now: int)
    | CheckPosted(user: User, period: int, now: int, found: map<nat, string>)

  // ---- Rules taken from the service --------------------------------------

  const NON_CLOSE_SOURCE := "allocation"
  const MIN_DISMISS_REASON := 3
  const MAX_REASON := 500

  function DebitTotal(lines: seq<JeLine>): int {
    if lines == [] then 0 else lines[0].debit + DebitTotal(lines[1..])
  }

  function CreditTotal(lines: seq<JeLine>): int {
    if lines == [] then 0 else lines[0].credit + CreditTotal(lines[1..])
  }

  /** Two or more lines, positive debits, equal to the credits within a cent. */
  predicate Balanced(lines: seq<JeLine>) {
    && |lines| >= 2 && DebitTotal(lines) > 0
    && -1 <= DebitTotal(lines) - CreditTotal(lines) <= 1
  }

  predicate BlocksSelfApproval(preparedBy: Option<int>, user: User) {
    preparedBy.Some? && user.role != Admin && preparedBy.value == user.id
  }

  predicate IsReviewer(u: User) {
    u.role != Preparer
  }

  /** What `_load` finds: another product's entry does not exist here. */
  predicate Loads(s: State, id: nat) {
    id in s.entries && s.entries[id].source != NON_CLOSE_SOURCE
  }

  function Truncated(s: string, n: nat): string {
    if |s| <= n then s else s[..n]
  }

  function ReasonOf(raw: string): string {
    Truncated(Strip(raw), MAX_REASON)
  }

  // ---- Transitions of one entry ------------------------------------------

  /** The fields `_transition` assigns. */
  function Moved(e: Entry, user: User, to: Status, clearSaved: bool, reason: Option<string>): Entry {
    var e1 := if clearSaved then e.(savedAt := None) else e;
    var e2 := e1.(status := to);
    var e3 := if to.Accepted? then e2.(approvedBy := Some(user.id), approvedAs := Some(user.role))
              else if to.Open? then e2.(approvedBy := None, approvedAs := None) else e2;
    if to.Dismissed? then e3.(dismissReason := reason)
    else if to.Open? then e3.(dismissReason := None) else e3
  }

  /** The HTTP status of `_transition`; 200 means the entry moves. */
  function TransitionCode(s: State, user: User, id: nat, to: Status, enforce: bool): int {
    if !Loads(s, id) then 404
    else if s.entries[id].period in s.closed then 423
    else if to.Dismissed? && s.entries[id].savedAt.Some? then 409
    else if enforce && BlocksSelfApproval(s.entries[id].preparedBy, user) then 403
    else 200
  }

  function EditCode(s: State, id: nat, lines: Option<seq<JeLine>>): int {
    if !Loads(s, id) then 404
    else if !s.entries[id].status.Open? then 409
    else if s.entries[id].period in s.closed then 423
    else if lines.Some? && !Balanced(lines.value) then 422
    else 200
  }

  // ---- Batches -----------------------------------------------------------

  predicate InPeriod(e: Entry, period: int) {
    e.source != NON_CLOSE_SOURCE && e.period == period
  }

  predicate IsActive(e: Entry, period: int) {
    InPeriod(e, period) && !e.status.Dismissed?
  }

  predicate IsSaved(e: Entry, period: int) {
    InPeriod(e, period) && e.savedAt.Some?
  }

  function SaveCode(s: State, user: User, period: int): int {
    if !IsReviewer(user) then 403
    else if period in s.closed then 423
    else if forall id :: id in s.entries ==> !IsActive(s.entries[id], period) then 400
    else if exists id :: id in s.entries && IsActive(s.entries[id], period) && s.entries[id].status.Open? then 409
    else 200
  }

  function Stamped(e: Entry, period: int, now: int): Entry {
    if IsActive(e, period) && e.savedAt.None? then e.(savedAt := Some(now)) else e
  }

  function CheckCode(s: State, period: int): int {
    if period in s.closed then 423
    else if forall id :: id in s.entries ==> !IsSaved(s.entries[id], period) then 400
    else 200
  }

  /** A saved entry found in QuickBooks keeps the proof and becomes posted. */
  function Confirmed(e: Entry, doc: string, now: int): Entry {
    e.(postedDoc := Some(Truncated(doc, 100)), confirmedAt := Some(now), status := Posted)
  }

  function Checked(id: nat, e: Entry, period: int, now: int, found: map<nat, string>): Entry {
    if IsSaved(e, period) && id in found then Confirmed(e, found[id], now) else e
  }

  // ---- One request ---------------------------------------------------------

  function Code(s: State, a: Action): int {
    match a
    case Accept(u, id) => if !IsReviewer(u) then 403 else TransitionCode(s, u, id, Status.Accepted, true)
    case Dismiss(u, id, raw) =>
      if !IsReviewer(u) then 403
      else if |ReasonOf(raw)| < MIN_DISMISS_REASON then 422
      else TransitionCode(s, u, id, Status.Dismissed, false)
    case MarkPosted(u, id) => if !IsReviewer(u) then 403 else TransitionCode(s, u, id, Status.Posted, false)
    case Reopen(u, id) =>
      if !IsReviewer(u) then 403
      else if !Loads(s, id) then 404
      else if !s.entries[id].status.Accepted? then 409
      else TransitionCode(s, u, id, Status.Open, false)
    case Edit(u, id, lines) => EditCode(s, id, lines)
    case Save(u, p, _) => SaveCode(s, u, p)
    case CheckPosted(_, p, _, _) => CheckCode(s, p)
    case Draft(id, _, _, _) => if id !in s.entries then 200 else 409
    case Discard(id) => if id in s.entries && s.entries[id].status.Open? then 200 else 404
    case _ => 200
  }

  /** A request that is refused changes nothing. */
  function Step(s: State, a: Action): State {
    if Code(s, a) != 200 then s
    else
      match a
      case Accept(u, id) => s.(entries := s.entries[id := Moved(s.entries[id], u, Status.Accepted, false, None)])
      case Dismiss(u, id, raw) =>
        s.(entries := s.entries[id := Moved(s.entries[id], u, Status.Dismissed, false, Some(ReasonOf(raw)))])
      case MarkPosted(u, id) => s.(entries := s.entries[id := Moved(s.entries[id], u, Status.Posted, false, None)])
      case Reopen(u, id) => s.(entries := s.entries[id := Moved(s.entries[id], u, Status.Open, true, None)])
      case Edit(u, id, lines) =>
        var e := s.entries[id];
        var chosen := if lines.Some? then lines.value else e.lines;
        s.(entries := s.entries[id := e.(lines := chosen, preparedBy := Some(u.id))])
      case Save(_, p, now) => s.(entries := map id | id in s.entries :: Stamped(s.entries[id], p, now))
      case CheckPosted(_, p, now, found) =>
        s.(entries := map id | id in s.entries :: Checked(id, s.entries[id], p, now, found))
      case Draft(id, source, p, lines) =>
        s.(entries := s.entries[id := Entry(source, p, lines, Status.Open, None, None, None, None, None, None, None)])
      case Discard(id) => s.(entries := s.entries - {id})
      case ClosePeriod(p) => s.(closed := s.closed + {p})
      case ReopenPeriod(p) => s.(closed := s.closed - {p})
  }

  // ---- The endpoints -------------------------------------------------------

  class AdjustmentStore {
    var entries: map<nat, Entry>
    var closed: set<int>

    ghost function Abstract(): State
      reads this
    {
      State(entries, closed)
    }

    method Transition(user: User, id: nat, to: Status, enforce: bool, clearSaved: bool, reason: Option<string>)
      returns (code: int)
      modifies this`entries
      ensures code == TransitionCode(old(Abstract()), user, id, to, enforce)
      ensures entries == if code == 200 then old(entries)[id := Moved(old(entries)[id], user, to, clearSaved, reason)]
                         else old(entries)
    {
      if id !in entries || entries[id].source == NON_CLOSE_SOURCE { return 404; }
      var e := entries[id];
      if e.period in closed { return 423; }
      if to == Dismissed && e.savedAt.Some? { return 409; }
      if enforce && BlocksSelfApproval(e.preparedBy, user) { return 403; }
      if clearSaved { e := e.(savedAt := None); }
      e := e.(status := to);
      if to == Accepted {
        e := e.(approvedBy := Some(user.id), approvedAs := Some(user.role));
      } else if to == Open {
        e := e.(approvedBy := None, approvedAs := None);
      }
      if to == Dismissed {
        e := e.(dismissReason := reason);
      } else if to == Open {
        e := e.(dismissReason := None);
      }
      entries := entries[id := e];
      return 200;
    }

    method AcceptProposal(user: User, id: nat) returns (code: int)
      modifies this`entries
      ensures code == Code(old(Abstract()), Accept(user, id)) && Abstract() == Step(old(Abstract()), Accept(user, id))
    {
      if user.role == Preparer { return 403; }
      code := Transition(user, id, Accepted, true, false, None);
    }

    method DismissProposal(user: User, id: nat, raw: string) returns (code: int)
      modifies this`entries
      ensures code == Code(old(Abstract()), Dismiss(user, id, raw))
          && Abstract() == Step(old(Abstract()), Dismiss(user, id, raw))
    {
      if user.role == Preparer { return 403; }
      var reason := Truncated(Strip(raw), MAX_REASON);
      if |reason| < MIN_DISMISS_REASON { return 422; }
      code := Transition(user, id, Dismissed, false, false, Some(reason));
    }

    method MarkPostedProposal(user: User, id: nat) returns (code: int)
      modifies this`entries
      ensures code == Code(old(Abstract()), MarkPosted(user, id))
          && Abstract() == Step(old(Abstract()), MarkPosted(user, id))
    {
      if user.role == Preparer { return 403; }
      code := Transition(user, id, Posted, false, false, None);
    }

    method ReopenProposal(user: User, id: nat) returns (code: int)
      modifies this`entries
      ensures code == Code(old(Abstract()), Reopen(user, id)) && Abstract() == Step(old(Abstract()), Reopen(user, id))
    {
      if user.role == Preparer { return 403; }
      if id !in entries || entries[id].source == NON_CLOSE_SOURCE { return 404; }
      if entries[id].status != Accepted { return 409; }
      code := Transition(user, id, Open, false, true, None);
    }

    method EditProposal(user: User, id: nat, lines: Option<seq<JeLine>>) returns (code: int)
      modifies this`entries
      ensures code == Code(old(Abstract()), Edit(user, id, lines))
          && Abstract() == Step(old(Abstract()), Edit(user, id, lines))
    {
      if id !in entries || entries[id].source == NON_CLOSE_SOURCE { return 404; }
      var e := entries[id];
      if e.status != Open { return 409; }
      if e.period in closed { return 423; }
      if lines.Some? {
        if !Balanced(lines.value) { return 422; }
        e := e.(lines := lines.value);
      }
      e := e.(preparedBy := Some(user.id));
      entries := entries[id := e];
      return 200;
    }

    method SaveBatch(user: User, period: int, now: int) returns (code: int)
      modifies this`entries
      ensures code == Code(old(Abstract()), Save(user, period, now))
          && Abstract() == Step(old(Abstract()), Save(user, period, now))
    {
      if user.role == Preparer { return 403; }
      if period in closed { return 423; }
      var rows := entries;
      var active := set id | id in rows && IsActive(rows[id], period);
      if active == {} {
        assert forall id :: id in rows ==> id !in active;
        return 400;
      }
      var anyActive :| anyActive in active;
      var open := set id | id in active && rows[id].status == Open;
      if open != {} {
        var anyOpen :| anyOpen in open;
        return 409;
      }
      assert forall id :: id in active ==> id !in open;
      var todo := active;
      while todo != {}
        invariant todo <= active
        invariant entries == map id | id in rows :: if id in todo then rows[id] else Stamped(rows[id], period, now)
        decreases todo
      {
        var id :| id in todo;
        if entries[id].savedAt.None? {
          entries := entries[id := entries[id].(savedAt := Some(now))];
        }
        todo := todo - {id};
      }
      return 200;
    }

    /** The entries written to the import file; None is the 404 of an empty selection. */
    method ExportCsv(period: int) returns (ids: Option<set<nat>>)
      ensures ids.None? <==> forall id :: !Exported(Abstract(), period, id)
      ensures ids.Some? ==> forall id :: id in ids.value <==> Exported(Abstract(), period, id)
    {
      var rows := entries;
      var found := set id | id in rows && IsSaved(rows[id], period) && rows[id].status == Accepted;
      if found == {} {
        forall id ensures !Exported(Abstract(), period, id) { assert id !in found; }
        return None;
      }
      var one :| one in found;
      assert Exported(Abstract(), period, one);
      return Some(found);
    }

    method CheckPostedEntries(user: User, period: int, now: int, found: map<nat, string>) returns (code: int)
      modifies this`entries
      ensures code == Code(old(Abstract()), CheckPosted(user, period, now, found))
      ensures Abstract() == Step(old(Abstract()), CheckPosted(user, period, now, found))
    {
      if period in closed { return 423; }
      var rows := entries;
      var saved := set id | id in rows && IsSaved(rows[id], period);
      if saved == {} {
        assert forall id :: id in rows ==> id !in saved;
        return 400;
      }
      var anySaved :| anySaved in saved;
      var todo := saved;
      while todo != {}
        invariant todo <= saved
        invariant entries == map id | id in rows ::
            if id in todo then rows[id] else Checked(id, rows[id], period, now, found)
        decreases todo
      {
        var id :| id in todo;
        if id in found {
          var e := entries[id].(postedDoc := Some(Truncated(found[id], 100)), confirmedAt := Some(now));
          if e.status != Posted {
            e := e.(status := Posted);
          }
          entries := entries[id := e];
        }
        todo := todo - {id};
      }
      return 200;
    }
  }

  // ---- What every run keeps ------------------------------------------------

  /** The lifecycle of one entry. */
  ghost predicate EntryOk(e: Entry) {
    && (e.savedAt.Some? ==> e.status.Accepted? || e.status.Posted?)
    && (e.status.Open? ==> e.approvedBy.None? && e.dismissReason.None? && e.savedAt.None?)
    && (e.status.Accepted? ==> e.approvedBy.Some?)
    && (e.status.Dismissed? ==> e.dismissReason.Some? && GoodReason(e.dismissReason.value))
    && (e.confirmedAt.Some? <==> e.postedDoc.Some?)
    && DutiesApart(e)
  }

  /** Maker and checker: every approval was a reviewer's or an admin's, and one's own only
      an admin's. */
  ghost predicate DutiesApart(e: Entry) {
    && (e.approvedBy.Some? <==> e.approvedAs.Some?)
    && (e.approvedAs.Some? ==> e.approvedAs.value != Preparer)
    && (e.approvedBy.Some? && e.approvedBy == e.preparedBy ==> e.approvedAs == Some(Admin))
  }

  predicate GoodReason(r: string) {
    MIN_DISMISS_REASON <= |r| <= MAX_REASON && !IsSpace(r[0])
  }

  ghost predicate Inv(s: State) {
    forall id :: id in s.entries ==> EntryOk(s.entries[id])
  }

  lemma ReasonIsGood(raw: string)
    requires |ReasonOf(raw)| >= MIN_DISMISS_REASON
    ensures GoodReason(ReasonOf(raw))
  {
    StripProperties(raw);
  }

  /** A transition that its guards let through keeps the lifecycle. */
  lemma MovedKeeps(s: State, user: User, id: nat, to: Status, enforce: bool, clearSaved: bool, reason: Option<string>)
    requires id in s.entries && EntryOk(s.entries[id]) && IsReviewer(user)
    requires TransitionCode(s, user, id, to, enforce) == 200
    requires to.Accepted? ==> enforce
    requires to.Open? ==> clearSaved
    requires to.Dismissed? ==> reason.Some? && GoodReason(reason.value)
    ensures EntryOk(Moved(s.entries[id], user, to, clearSaved, reason))
  {
  }

  lemma StampedKeeps(s: State, user: User, id: nat, period: int, now: int)
    requires id in s.entries && EntryOk(s.entries[id]) && SaveCode(s, user, period) == 200
    ensures EntryOk(Stamped(s.entries[id], period, now))
  {
  }

  lemma CheckedKeeps(id: nat, e: Entry, period: int, now: int, found: map<nat, string>)
    requires EntryOk(e)
    ensures EntryOk(Checked(id, e, period, now, found))
  {
  }

  /** An edit changes the preparer of an open entry, which nobody has approved. */
  lemma EditedKeeps(e: Entry, lines: seq<JeLine>, user: User)
    requires EntryOk(e) && e.status.Open?
    ensures EntryOk(e.(lines := lines, preparedBy := Some(user.id)))
  {
  }

  lemma StepEntryOk(s: State, a: Action, id: nat)
    requires Inv(s) && id in Step(s, a).entries
    ensures EntryOk(Step(s, a).entries[id])
  {
    if Code(s, a) == 200 && id in s.entries {
      ActionKeeps(s, a, id);
    }
  }

  lemma ActionKeeps(s: State, a: Action, id: nat)
    requires Code(s, a) == 200 && id in s.entries && EntryOk(s.entries[id]) && id in Step(s, a).entries
    ensures EntryOk(Step(s, a).entries[id])
  {
    match a
    case Accept(u, i) =>
      if i == id { MovedKeeps(s, u, id, Status.Accepted, true, false, None); }
    case Dismiss(u, i, raw) =>
      ReasonIsGood(raw);
      if i == id { MovedKeeps(s, u, id, Status.Dismissed, false, false, Some(ReasonOf(raw))); }
    case MarkPosted(u, i) =>
      if i == id { MovedKeeps(s, u, id, Status.Posted, false, false, None); }
    case Reopen(u, i) =>
      if i == id { MovedKeeps(s, u, id, Status.Open, false, true, None); }
    case Edit(u, i, lines) =>
      if i == id { EditedKeeps(s.entries[id], if lines.Some? then lines.value else s.entries[id].lines, u); }
    case Save(u, p, now) => StampedKeeps(s, u, id, p, now);
    case CheckPosted(_, p, now, found) => CheckedKeeps(id, s.entries[id], p, now, found);
    case Draft(_, _, _, _) =>
    case Discard(_) =>
    case ClosePeriod(_) =>
    case ReopenPeriod(_) =>
  }

  function Run(s: State, actions: seq<Action>): State {
    if actions == [] then s else Step(Run(s, actions[..|actions| - 1]), actions[|actions| - 1])
  }

  const EMPTY := State(map[], {})

  /** In every state any list of requests can reach, every entry keeps its lifecycle and
      nobody but an admin has approved their own work. */
  lemma {:induction false} LifecycleHolds(actions: seq<Action>)
    ensures Inv(Run(EMPTY, actions))
  {
    if actions != [] {
      var before, a := Run(EMPTY, actions[..|actions| - 1]), actions[|actions| - 1];
      LifecycleHolds(actions[..|actions| - 1]);
      forall id | id in Step(before, a).entries ensures EntryOk(Step(before, a).entries[id]) {
        StepEntryOk(before, a, id);
      }
    }
  }

  /** This request put this entry in the queue with these lines. */
  predicate Drafts(a: Action, id: nat, lines: seq<JeLine>) {
    a.Draft? && a.id == id && a.lines == lines
  }

  /** No request of this module unbalances an entry: in every reachable state an entry's lines
      balance, or are still the lines it was drafted with. */
  lemma {:induction false} LinesAreBalanced(actions: seq<Action>, id: nat)
    requires id in Run(EMPTY, actions).entries
    ensures var lines := Run(EMPTY, actions).entries[id].lines;
            Balanced(lines) || exists a :: a in actions && Drafts(a, id, lines)
  {
    if actions != [] {
      var front, a := actions[..|actions| - 1], actions[|actions| - 1];
      var before := Run(EMPTY, front);
      assert actions == front + [a];
      LinesStep(before, a, id);
      if id in before.entries {
        LinesAreBalanced(front, id);
      }
      assert a in actions;
    }
  }

  /** After a request an entry's lines are those it had, or balanced, or the ones drafted. */
  lemma LinesStep(s: State, a: Action, id: nat)
    requires id in Step(s, a).entries
    ensures var lines := Step(s, a).entries[id].lines;
            || (id in s.entries && lines == s.entries[id].lines)
            || Balanced(lines)
            || Drafts(a, id, lines)
  {
  }

  /** So all lines balance exactly as long as every producer drafts balanced lines. */
  lemma BalanceLostExactly(s: State, a: Action)
    requires forall id :: id in s.entries ==> Balanced(s.entries[id].lines)
    ensures (forall id :: id in Step(s, a).entries ==> Balanced(Step(s, a).entries[id].lines)) <==>
              !(a.Draft? && Code(s, a) == 200 && !Balanced(a.lines))
  {
    var after := Step(s, a).entries;
    if a.Draft? && Code(s, a) == 200 {
      assert a.id in after && after[a.id].lines == a.lines;
    }
    forall id | id in after ensures Balanced(after[id].lines) || (Code(s, a) == 200 && a.Draft? && !Balanced(a.lines)) {
      LinesStep(s, a, id);
    }
  }

  predicate IsEndpoint(a: Action) {
    !a.Draft? && !a.Discard? && !a.ClosePeriod? && !a.ReopenPeriod?
  }

  /** No endpoint touches an entry of a closed period, and none adds or removes an entry. */
  lemma ClosedUnchanged(s: State, a: Action)
    requires IsEndpoint(a)
    ensures Step(s, a).entries.Keys == s.entries.Keys && Step(s, a).closed == s.closed
    ensures forall id :: id in s.entries && s.entries[id].period in s.closed ==> Step(s, a).entries[id] == s.entries[id]
  {
  }

  /** The stored reason is trimmed unless cutting it at 500 characters ends it in a space. */
  lemma ReasonTrimmedExactly(raw: string)
    requires |ReasonOf(raw)| >= MIN_DISMISS_REASON
    ensures Strip(ReasonOf(raw)) == ReasonOf(raw) <==>
              !(|Strip(raw)| > MAX_REASON && IsSpace(Strip(raw)[MAX_REASON - 1]))
  {
    StripProperties(raw);
    var r := ReasonOf(raw);
    assert LStrip(r) == r;
    if IsSpace(r[|r| - 1]) {
      RStripProperties(r[..|r| - 1]);
      assert |RStrip(r)| < |r|;
    }
  }

  // ---- Export and the posting check -----------------------------------------

  /** The entries `export_csv` writes. */
  predicate Exported(s: State, period: int, id: nat) {
    id in s.entries && IsSaved(s.entries[id], period) && s.entries[id].status.Accepted?
  }

  /** An entry found in QuickBooks is posted and stays in its saved batch. */
  ghost predicate FoundStays(s: State, id: nat) {
    id in s.entries && s.entries[id].confirmedAt.Some? ==> s.entries[id].status.Posted? && s.entries[id].savedAt.Some?
  }

  /** The request approves an entry that was found in QuickBooks. */
  predicate AcceptsFound(s: State, a: Action, id: nat) {
    a.Accept? && a.id == id && Code(s, a) == 200 && s.entries[id].confirmedAt.Some?
  }

  /** A found entry leaves `posted` by one request only, its approval; and that puts it back
      into the export. */
  lemma FoundReturnsExactly(s: State, a: Action, id: nat)
    requires Inv(s) && FoundStays(s, id)
    ensures FoundStays(Step(s, a), id) <==> !AcceptsFound(s, a, id)
    ensures AcceptsFound(s, a, id) ==> Exported(Step(s, a), s.entries[id].period, id)
  {
    assert id in s.entries ==> EntryOk(s.entries[id]);
  }

  /** In a run that never approves a found entry, no found entry is ever exported. */
  lemma {:induction false} FoundNeverExported(actions: seq<Action>, id: nat, period: int)
    requires forall i :: 0 <= i < |actions| ==> !AcceptsFound(Run(EMPTY, actions[..i]), actions[i], id)
    ensures FoundStays(Run(EMPTY, actions), id)
    ensures id in Run(EMPTY, actions).entries && Run(EMPTY, actions).entries[id].confirmedAt.Some? ==>
              !Exported(Run(EMPTY, actions), period, id)
  {
    if actions != [] {
      var n := |actions| - 1;
      forall i | 0 <= i < n ensures !AcceptsFound(Run(EMPTY, actions[..n][..i]), actions[..n][i], id) {
        assert actions[..n][..i] == actions[..i];
      }
      FoundNeverExported(actions[..n], id, period);
      LifecycleHolds(actions[..n]);
      FoundReturnsExactly(Run(EMPTY, actions[..n]), actions[n], id);
    }
  }

  /** The proof of posting is never erased while the entry exists. */
  lemma ConfirmationStays(s: State, a: Action, id: nat)
    requires Inv(s) && id in s.entries && s.entries[id].confirmedAt.Some? && !a.Discard?
    ensures id in Step(s, a).entries && Step(s, a).entries[id].confirmedAt.Some?
  {
  }

  // ---- The baseline partition -------------------------------------------------

  datatype Disposition = Apply | AlreadyIn | Stale

  function BaselineDisposition(confirmedAt: Option<int>, capturedAt: Option<int>): Disposition {
    if confirmedAt.None? then Apply
    else if capturedAt.Some? && capturedAt.value >= confirmedAt.value then AlreadyIn
    else Stale
  }

  predicate IsBooked(e: Entry) {
    e.status.Accepted? || e.status.Posted?
  }

  function Booked(rows: seq<Entry>): seq<Entry> {
    if rows == [] then []
    else if IsBooked(rows[|rows| - 1]) then Booked(rows[..|rows| - 1]) + [rows[|rows| - 1]]
    else Booked(rows[..|rows| - 1])
  }

  /** The rows of one disposition, in order. */
  function Having(rows: seq<Entry>, capturedAt: Option<int>, d: Disposition): seq<Entry> {
    if rows == [] then []
    else if BaselineDisposition(rows[|rows| - 1].confirmedAt, capturedAt) == d
    then Having(rows[..|rows| - 1], capturedAt, d) + [rows[|rows| - 1]]
    else Having(rows[..|rows| - 1], capturedAt, d)
  }

  method PartitionBooked(rows: seq<Entry>, capturedAt: Option<int>)
    returns (booked: seq<Entry>, apply: seq<Entry>, alreadyIn: nat, stale: nat)
    ensures booked == Booked(rows) && apply == Having(booked, capturedAt, Apply)
    ensures alreadyIn == |Having(booked, capturedAt, AlreadyIn)| && stale == |Having(booked, capturedAt, Stale)|
  {
    booked := [];
    for i := 0 to |rows|
      invariant booked == Booked(rows[..i])
    {
      assert rows[..i + 1][..i] == rows[..i];
      if IsBooked(rows[i]) { booked := booked + [rows[i]]; }
    }
    assert rows[..|rows|] == rows;
    apply, alreadyIn, stale := [], 0, 0;
    for i := 0 to |booked|
      invariant apply == Having(booked[..i], capturedAt, Apply)
      invariant alreadyIn == |Having(booked[..i], capturedAt, AlreadyIn)|
      invariant stale == |Having(booked[..i], capturedAt, Stale)|
    {
      assert booked[..i + 1][..i] == booked[..i];
      match BaselineDisposition(booked[i].confirmedAt, capturedAt)
      case Apply => apply := apply + [booked[i]];
      case AlreadyIn => alreadyIn := alreadyIn + 1;
      case Stale => stale := stale + 1;
    }
    assert booked[..|booked|] == booked;
  }

  /** Booked entries fall into exactly three parts; the part applied on top of the baseline is
      exactly the booked entries never found in QuickBooks. */
  lemma PartsAreExact(rows: seq<Entry>, capturedAt: Option<int>)
    ensures var b := Booked(rows);
            && |b| == |Having(b, capturedAt, Apply)| + |Having(b, capturedAt, AlreadyIn)|
                + |Having(b, capturedAt, Stale)|
            && (forall e :: e in Having(b, capturedAt, Apply) <==> e in rows && IsBooked(e) && e.confirmedAt.None?)
            && (forall e :: e in Having(b, capturedAt, AlreadyIn) <==>
                  e in rows && IsBooked(e) && e.confirmedAt.Some? && capturedAt.Some?
                  && e.confirmedAt.value <= capturedAt.value)
            && (forall e :: e in Having(b, capturedAt, Stale) <==>
                  e in rows && IsBooked(e) && e.confirmedAt.Some?
                  && (capturedAt.None? || capturedAt.value < e.confirmedAt.value))
  {
    BookedIs(rows);
    PartsSum(Booked(rows), capturedAt);
    HavingIs(Booked(rows), capturedAt, Apply);
    HavingIs(Booked(rows), capturedAt, AlreadyIn);
    HavingIs(Booked(rows), capturedAt, Stale);
  }

  /** Booked entries are the accepted and the posted ones. */
  lemma {:induction false} BookedIs(rows: seq<Entry>)
    ensures forall e :: e in Booked(rows) <==> e in rows && IsBooked(e)
    ensures forall e :: e in Booked(rows) ==> e.status != Open && e.status != Dismissed
  {
    if rows != [] {
      BookedIs(rows[..|rows| - 1]);
      assert rows == rows[..|rows| - 1] + [rows[|rows| - 1]];
    }
  }

  lemma {:induction false} HavingIs(rows: seq<Entry>, capturedAt: Option<int>, d: Disposition)
    ensures forall e :: e in Having(rows, capturedAt, d) <==>
        e in rows && BaselineDisposition(e.confirmedAt, capturedAt) == d
  {
    if rows != [] {
      HavingIs(rows[..|rows| - 1], capturedAt, d);
      assert rows == rows[..|rows| - 1] + [rows[|rows| - 1]];
    }
  }

  lemma {:induction false} PartsSum(rows: seq<Entry>, capturedAt: Option<int>)
    ensures |rows| ==
        |Having(rows, capturedAt, Apply)| + |Having(rows, capturedAt, AlreadyIn)| + |Having(rows, capturedAt, Stale)|
  {
    if rows != [] {
      PartsSum(rows[..|rows| - 1], capturedAt);
    }
  }
}

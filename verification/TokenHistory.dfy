/** Where tokens come from: what the calls of backend/core/qbo_auth.py return and store, traced
    back over whole runs to the replies the server gave. */
module TokenHistory {
  import opened Prelude
  import opened TokenRefresh

  // ---- One call ------------------------------------------------------------

  /** A token is fresh when more than five minutes of it are left. */
  lemma FreshMeans(tok: Tokens, now: int)
    ensures IsFresh(tok, now) <==> tok.expires.Some? && tok.expires.value - now > 300
  {
  }

  /** An accepted reply decides what the call returns and what the realm's row stores: the reply's
      access token, its refresh token if it has one, and an expiry counted from the POST. */
  lemma ReplyIsStored(s: State, c: nat)
    requires Inv(s) && Enabled(s, Receive(c))
    ensures Inv(Step(s, Receive(c))) && Enabled(Step(s, Receive(c)), Commit(c))
    ensures var reply, at := At(s, c).reply, At(s, c).at;
            var t := Step(Step(s, Receive(c)), Commit(c));
            && c in t.callers && At(t, c) == Done(reply.access) && RealmOf(s, c) in t.rows
            && t.rows[RealmOf(s, c)].access == reply.access
            && t.rows[RealmOf(s, c)].expires == Some(at + reply.lifetime)
            && t.rows[RealmOf(s, c)].refresh ==
                 (if reply.refresh.Some? then reply.refresh.value else TokOf(s, c).refresh)
  {
    StepKeeps(s, Receive(c));
  }

  /** The call has ended, with a result, in this step. */
  ghost predicate Finishes(s: State, t: State, c: nat) {
    c in t.callers && t.callers[c].pc.Done? && (c in s.callers ==> s.callers[c].pc != t.callers[c].pc)
  }

  /** Whichever way a call ends, it returns the access token its object then holds; unless it has
      just committed a reply, that token is fresh. */
  lemma FinishedReturnsHeld(s: State, a: Action, c: nat)
    requires Inv(s) && Enabled(s, a) && Finishes(s, Step(s, a), c)
    ensures Inv(Step(s, a)) && At(Step(s, a), c) == Done(TokOf(Step(s, a), c).access)
    ensures a == Commit(c) || IsFresh(TokOf(Step(s, a), c), Step(s, a).now)
  {
    StepKeeps(s, a);
    FinishingSteps(s, a, c);
  }

  /** Only four steps end a call with a result: the call itself, entering the lock, a reload and
      the commit. */
  lemma FinishingSteps(s: State, a: Action, c: nat)
    requires Inv(s) && Enabled(s, a) && Finishes(s, Step(s, a), c)
    ensures (exists k :: a == Enter(c, k)) || a == Acquire(c) || a == Reload(c, true) || a == Commit(c)
  {
    if ByCaller(a) {
      MovesOne(s, a);
    }
  }

  /** A successful reload takes over the whole row, whether or not the call then goes on. */
  lemma ReloadTakesRow(s: State, c: nat)
    requires Inv(s) && Enabled(s, Reload(c, true))
    ensures Inv(Step(s, Reload(c, true))) && c in Step(s, Reload(c, true)).callers
    ensures TokOf(Step(s, Reload(c, true)), c) == s.rows[RealmOf(s, c)]
    ensures At(Step(s, Reload(c, true)), c).Done? <==> IsFresh(s.rows[RealmOf(s, c)], s.now)
  {
    StepKeeps(s, Reload(c, true));
  }

  // ---- Whole runs ----------------------------------------------------------

  /** A request and its accepted answer: the POST is action `sent`, the answer action `served`. */
  datatype Exchange = Exchange(c: nat, sent: nat, served: nat, reply: Reply)

  ghost predicate Took(states: seq<State>, actions: seq<Action>, n: nat, x: Exchange)
    requires n <= |actions| && |states| == |actions| + 1
  {
    && x.sent < x.served < n
    && actions[x.sent] == Post(x.c) && actions[x.served] == Serve(x.c, x.reply)
    && x.c in states[x.served].callers && states[x.served].callers[x.c].conn in states[x.served].conns
  }

  /** The access token and expiry are those the exchange gave. */
  ghost predicate Gives(states: seq<State>, x: Exchange, tok: Tokens)
    requires x.sent < |states|
  {
    tok.access == x.reply.access && tok.expires == Some(states[x.sent].now + x.reply.lifetime)
  }

  /** The caller sent its request at this time. */
  ghost predicate Asked(states: seq<State>, actions: seq<Action>, n: nat, c: nat, at: int)
    requires n <= |actions| && |states| == |actions| + 1
  {
    exists i :: 0 <= i < n && actions[i] == Post(c) && states[i].now == at
  }

  /** An exchange of the caller, for this realm. */
  ghost predicate TookFor(states: seq<State>, actions: seq<Action>, n: nat, c: nat, r: string, x: Exchange)
    requires n <= |actions| && |states| == |actions| + 1
  {
    Took(states, actions, n, x) && x.c == c && RealmOf(states[x.served], c) == r
  }

  ghost predicate ToldReply(
    states: seq<State>, actions: seq<Action>, n: nat, c: nat, r: string, at: int, reply: Reply)
    requires n <= |actions| && |states| == |actions| + 1
  {
    exists x :: TookFor(states, actions, n, c, r, x) && x.reply == reply && states[x.sent].now == at
  }

  ghost predicate ToldTokens(states: seq<State>, actions: seq<Action>, n: nat, c: nat, r: string, tok: Tokens)
    requires n <= |actions| && |states| == |actions| + 1
  {
    exists x :: TookFor(states, actions, n, c, r, x) && Gives(states, x, tok)
  }

  /** A caller between POST and commit has an exchange behind it that says what it holds. */
  ghost predicate Told(states: seq<State>, actions: seq<Action>, n: nat, pc: Pc, c: nat, r: string, tok: Tokens)
    requires n <= |actions| && |states| == |actions| + 1
  {
    match pc
    case Sent(at, _) => Asked(states, actions, n, c, at)
    case Answered(at, reply) => ToldReply(states, actions, n, c, r, at, reply)
    case Committing => ToldTokens(states, actions, n, c, r, tok)
    case _ => true
  }

  lemma ToldStays(states: seq<State>, actions: seq<Action>, n: nat, pc: Pc, c: nat, r: string, tok: Tokens)
    requires n < |actions| && |states| == |actions| + 1 && Told(states, actions, n, pc, c, r, tok)
    ensures Told(states, actions, n + 1, pc, c, r, tok)
  {
    match pc
    case Sent(at, _) =>
      var i :| 0 <= i < n && actions[i] == Post(c) && states[i].now == at;
      assert 0 <= i < n + 1;
    case Answered(at, reply) =>
      var x :| TookFor(states, actions, n, c, r, x) && x.reply == reply && states[x.sent].now == at;
      assert TookFor(states, actions, n + 1, c, r, x);
    case Committing =>
      var x :| TookFor(states, actions, n, c, r, x) && Gives(states, x, tok);
      assert TookFor(states, actions, n + 1, c, r, x);
    case _ =>
  }

  /** No call is under way between POST and commit. */
  ghost predicate Idle(s: State) {
    forall c :: c in s.callers ==> !InWindow(s.callers[c].pc)
  }

  /** Nobody else moves a call, nor, between POST and commit, its connection object. */
  lemma HolderStands(s: State, a: Action, c: nat)
    requires Inv(s) && Enabled(s, a) && Inv(Step(s, a))
    requires c in s.callers && !(ByCaller(a) && a.c == c)
    ensures c in Step(s, a).callers && Step(s, a).callers[c] == s.callers[c]
    ensures InWindow(At(s, c)) ==> TokOf(Step(s, a), c) == TokOf(s, c) && RealmOf(Step(s, a), c) == RealmOf(s, c)
  {
    if ByCaller(a) {
      MovesOne(s, a);
      TouchesOwn(s, a);
      if s.callers[a.c].conn == s.callers[c].conn && Holds(At(s, a.c)) && InWindow(At(s, c)) {
        OneInside(s, a.c, c);
      }
    }
  }

  /** How a call comes to be between POST and commit, and what it carries from step to step. */
  lemma OwnStep(s: State, a: Action)
    requires Inv(s) && Enabled(s, a) && ByCaller(a) && Inv(Step(s, a))
    ensures var t, c := Step(s, a), a.c;
            && c in s.callers && c in t.callers && RealmOf(t, c) == RealmOf(s, c)
            && (InWindow(At(t, c)) <==> a.Post? || a.Serve? || a.Receive?)
  {
    MovesOne(s, a);
    OwnWindow(s, a);
  }

  lemma OwnWindow(s: State, a: Action)
    requires Inv(s) && Enabled(s, a) && ByCaller(a) && a.c in Step(s, a).callers
    ensures InWindow(Step(s, a).callers[a.c].pc) <==> a.Post? || a.Serve? || a.Receive?
  {
  }

  lemma OwnCarries(s: State, a: Action)
    requires Inv(s) && Enabled(s, a) && (a.Post? || a.Serve? || a.Receive?) && Inv(Step(s, a))
    ensures a.c in s.callers && a.c in Step(s, a).callers
    ensures a.Post? ==> At(Step(s, a), a.c).Sent? && At(Step(s, a), a.c).at == s.now
    ensures a.Serve? ==> At(s, a.c).Sent? && At(Step(s, a), a.c) == Answered(At(s, a.c).at, a.reply)
    ensures a.Receive? ==>
              && At(s, a.c).Answered? && At(Step(s, a), a.c).Committing?
              && TokOf(Step(s, a), a.c).access == At(s, a.c).reply.access
              && TokOf(Step(s, a), a.c).expires == Some(At(s, a.c).at + At(s, a.c).reply.lifetime)
  {
  }

  ghost predicate ToldAt(states: seq<State>, actions: seq<Action>, n: nat, c: nat)
    requires n <= |actions| && |states| == |actions| + 1 && Inv(states[n]) && c in states[n].callers
  {
    Told(states, actions, n, At(states[n], c), c, RealmOf(states[n], c), TokOf(states[n], c))
  }

  /** The caller's own step from one point of the exchange to the next. */
  ghost predicate Advances(s: State, t: State, a: Action, c: nat)
    requires Inv(s) && Inv(t) && c in s.callers && c in t.callers
  {
    var p, q := At(s, c), At(t, c);
    && RealmOf(t, c) == RealmOf(s, c)
    && (|| (a == Post(c) && q.Sent? && q.at == s.now)
        || (a.Serve? && a.c == c && p.Sent? && q == Answered(p.at, a.reply))
        || (a == Receive(c) && p.Answered? && q.Committing?
            && TokOf(t, c).access == p.reply.access && TokOf(t, c).expires == Some(p.at + p.reply.lifetime)))
  }

  ghost predicate Stands(s: State, t: State, c: nat)
    requires Inv(s) && Inv(t) && c in s.callers && c in t.callers
  {
    At(t, c) == At(s, c) && TokOf(t, c) == TokOf(s, c) && RealmOf(t, c) == RealmOf(s, c)
  }

  /** A caller between POST and commit has advanced by a step of its own, or stands as it was. */
  lemma WindowStep(s: State, a: Action, c: nat)
    requires Inv(s) && Enabled(s, a) && Inv(Step(s, a)) && c in Step(s, a).callers
    requires InWindow(At(Step(s, a), c))
    ensures c in s.callers && (Advances(s, Step(s, a), a, c) || Stands(s, Step(s, a), c))
  {
    if c !in s.callers {
      NewIsNotInWindow(s, a, c);
    } else if ByCaller(a) && a.c == c {
      OwnStep(s, a);
      OwnCarries(s, a);
    } else {
      HolderStands(s, a, c);
    }
  }

  lemma RunWindowStep(states: seq<State>, actions: seq<Action>, n: nat, c: nat)
    requires IsRun(states, actions) && n < |actions| && c in states[n + 1].callers
    ensures Inv(states[n]) && Inv(states[n + 1])
    ensures InWindow(At(states[n + 1], c)) ==>
              c in states[n].callers
              && (Advances(states[n], states[n + 1], actions[n], c) || Stands(states[n], states[n + 1], c))
  {
    StepOfRun(states, actions, n);
    if InWindow(At(states[n + 1], c)) {
      WindowStep(states[n], actions[n], c);
    }
  }

  lemma {:induction false} AllTold(states: seq<State>, actions: seq<Action>, n: nat, c: nat)
    requires IsRun(states, actions) && n <= |actions| && Idle(states[0])
    requires c in states[n].callers
    ensures Inv(states[n]) && ToldAt(states, actions, n, c)
  {
    RunKeeps(states, actions, n);
    if n > 0 && InWindow(At(states[n], c)) {
      RunWindowStep(states, actions, n - 1, c);
      AllTold(states, actions, n - 1, c);
      if Stands(states[n - 1], states[n], c) {
        ToldStays(states, actions, n - 1, At(states[n], c), c, RealmOf(states[n], c), TokOf(states[n], c));
      } else {
        OwnTold(states, actions, n - 1, c);
      }
    }
  }

  lemma StepOfRun(states: seq<State>, actions: seq<Action>, n: nat)
    requires IsRun(states, actions) && n < |actions|
    ensures Inv(states[n]) && Inv(states[n + 1])
    ensures Enabled(states[n], actions[n]) && states[n + 1] == Step(states[n], actions[n])
  {
    RunKeeps(states, actions, n);
    RunKeeps(states, actions, n + 1);
    OneStep(states, actions, n);
  }

  lemma OneStep(states: seq<State>, actions: seq<Action>, n: nat)
    requires IsRun(states, actions) && n < |actions|
    ensures StepsAt(states, actions, n)
  {
  }

  lemma NewIsNotInWindow(s: State, a: Action, c: nat)
    requires Inv(s) && Enabled(s, a) && c !in s.callers && c in Step(s, a).callers
    ensures !InWindow(Step(s, a).callers[c].pc)
  {
  }

  lemma OwnTold(states: seq<State>, actions: seq<Action>, n: nat, c: nat)
    requires n < |actions| && |states| == |actions| + 1 && Inv(states[n]) && Inv(states[n + 1])
    requires c in states[n].callers && c in states[n + 1].callers && ToldAt(states, actions, n, c)
    requires Advances(states[n], states[n + 1], actions[n], c)
    ensures ToldAt(states, actions, n + 1, c)
  {
    var p, q, r := At(states[n], c), At(states[n + 1], c), RealmOf(states[n], c);
    if actions[n] == Post(c) {
      assert 0 <= n < n + 1 && actions[n] == Post(c);
    } else if p.Sent? {
      ServeTold(states, actions, n, c, r, p.at);
    } else {
      ReceiveTold(states, actions, n, c, r, p.at, p.reply, TokOf(states[n + 1], c));
    }
  }

  lemma ServeTold(states: seq<State>, actions: seq<Action>, n: nat, c: nat, r: string, at: int)
    requires n < |actions| && |states| == |actions| + 1 && Asked(states, actions, n, c, at)
    requires actions[n].Serve? && actions[n].c == c
    requires c in states[n].callers && states[n].callers[c].conn in states[n].conns && RealmOf(states[n], c) == r
    ensures ToldReply(states, actions, n + 1, c, r, at, actions[n].reply)
  {
    var i :| 0 <= i < n && actions[i] == Post(c) && states[i].now == at;
    var x := Exchange(c, i, n, actions[n].reply);
    assert TookFor(states, actions, n + 1, c, r, x);
  }

  lemma ReceiveTold(
    states: seq<State>, actions: seq<Action>, n: nat, c: nat, r: string, at: int, reply: Reply, tok: Tokens)
    requires n < |actions| && |states| == |actions| + 1 && ToldReply(states, actions, n, c, r, at, reply)
    requires tok.access == reply.access && tok.expires == Some(at + reply.lifetime)
    ensures ToldTokens(states, actions, n + 1, c, r, tok)
  {
    var x :| TookFor(states, actions, n, c, r, x) && x.reply == reply && states[x.sent].now == at;
    assert TookFor(states, actions, n + 1, c, r, x) && Gives(states, x, tok);
  }

  /** A committed call has stored, and returns, what the server answered it. */
  lemma CommitStoresReply(states: seq<State>, actions: seq<Action>, n: nat, c: nat) returns (x: Exchange)
    requires IsRun(states, actions) && n < |actions| && Idle(states[0]) && actions[n] == Commit(c)
    ensures Inv(states[n]) && c in states[n].callers
    ensures TookFor(states, actions, n, c, RealmOf(states[n], c), x)
    ensures RealmOf(states[n], c) in states[n + 1].rows
    ensures Gives(states, x, states[n + 1].rows[RealmOf(states[n], c)])
    ensures c in states[n + 1].callers && states[n + 1].callers[c].pc == Done(x.reply.access)
  {
    StepOfRun(states, actions, n);
    AllTold(states, actions, n, c);
    x :| TookFor(states, actions, n, c, RealmOf(states[n], c), x) && Gives(states, x, TokOf(states[n], c));
    CommitWrites(states[n], c);
  }

  lemma CommitWrites(s: State, c: nat)
    requires Inv(s) && Enabled(s, Commit(c))
    ensures var t := Step(s, Commit(c));
            && RealmOf(s, c) in t.rows && t.rows[RealmOf(s, c)] == TokOf(s, c)
            && c in t.callers && t.callers[c].pc == Done(TokOf(s, c).access)
  {
  }

  /** The last commit of a realm among the first n actions. */
  ghost predicate LastCommit(states: seq<State>, actions: seq<Action>, n: nat, r: string, j: nat)
    requires n <= |actions| && |states| == |actions| + 1
  {
    j < n && CommitsFor(states, actions, j, r) && forall i :: j < i < n ==> !CommitsFor(states, actions, i, r)
  }

  ghost predicate CommitsFor(states: seq<State>, actions: seq<Action>, i: nat, r: string)
    requires i < |actions| && |states| == |actions| + 1
  {
    actions[i].Commit? && Inv(states[i]) && actions[i].c in states[i].callers && RealmOf(states[i], actions[i].c) == r
  }

  lemma OnlyCommitsStore(s: State, a: Action, r: string)
    requires Inv(s) && Enabled(s, a) && r in s.rows
    ensures r in Step(s, a).rows
    ensures !(a.Commit? && RealmOf(s, a.c) == r) ==> Step(s, a).rows[r] == s.rows[r]
  {
  }

  ghost predicate StoredBy(states: seq<State>, actions: seq<Action>, j: nat, tok: Tokens)
    requires j < |actions| && |states| == |actions| + 1
  {
    exists x :: Took(states, actions, j, x) && actions[j] == Commit(x.c) && Gives(states, x, tok)
  }

  /** What a row stores is what the last accepted and committed reply of its realm issued; before
      any commit it is what it was. */
  lemma {:induction false} RowIsLastReply(states: seq<State>, actions: seq<Action>, n: nat, r: string)
    requires IsRun(states, actions) && n <= |actions| && Idle(states[0]) && r in states[0].rows
    ensures r in states[n].rows
    ensures NoCommits(states, actions, n, r) ==> states[n].rows[r] == states[0].rows[r]
    ensures forall j: nat :: LastCommit(states, actions, n, r, j) ==> StoredBy(states, actions, j, states[n].rows[r])
  {
    if n > 0 {
      RowIsLastReply(states, actions, n - 1, r);
      RunRowStep(states, actions, n - 1, r);
      LastCommitBack(states, actions, n, r);
    }
  }

  lemma RunRowStep(states: seq<State>, actions: seq<Action>, n: nat, r: string)
    requires IsRun(states, actions) && n < |actions| && Idle(states[0]) && r in states[n].rows
    ensures r in states[n + 1].rows
    ensures if CommitsFor(states, actions, n, r) then StoredBy(states, actions, n, states[n + 1].rows[r])
            else states[n + 1].rows[r] == states[n].rows[r]
  {
    StepOfRun(states, actions, n);
    OnlyCommitsStore(states[n], actions[n], r);
    if CommitsFor(states, actions, n, r) {
      var x := CommitStoresReply(states, actions, n, actions[n].c);
    }
  }

  ghost predicate NoCommits(states: seq<State>, actions: seq<Action>, n: nat, r: string)
    requires n <= |actions| && |states| == |actions| + 1
  {
    forall i :: 0 <= i < n ==> !CommitsFor(states, actions, i, r)
  }

  lemma LastCommitBack(states: seq<State>, actions: seq<Action>, n: nat, r: string)
    requires 0 < n <= |actions| && |states| == |actions| + 1
    ensures NoCommits(states, actions, n, r) ==>
              NoCommits(states, actions, n - 1, r) && !CommitsFor(states, actions, n - 1, r)
    ensures forall j: nat :: LastCommit(states, actions, n, r, j) ==>
              if CommitsFor(states, actions, n - 1, r) then j == n - 1 else LastCommit(states, actions, n - 1, r, j)
  {
  }

  // ---- What objects hold and calls return ----------------------------------

  /** The realm had this access token and expiry at the start, in its row or in an object, or an
      exchange of the realm gave it. */
  ghost predicate Known(states: seq<State>, actions: seq<Action>, n: nat, r: string, tok: Tokens)
    requires n <= |actions| && |states| == |actions| + 1
  {
    || (r in states[0].rows && SameAccess(states[0].rows[r], tok))
    || (exists k :: k in states[0].conns && states[0].conns[k].realm == r && SameAccess(states[0].conns[k].tok, tok))
    || (exists c :: ToldTokens(states, actions, n, c, r, tok))
  }

  predicate SameAccess(a: Tokens, b: Tokens) {
    a.access == b.access && a.expires == b.expires
  }

  lemma KnownStays(states: seq<State>, actions: seq<Action>, n: nat, r: string, tok: Tokens)
    requires n < |actions| && |states| == |actions| + 1 && Known(states, actions, n, r, tok)
    ensures Known(states, actions, n + 1, r, tok)
  {
    if c :| ToldTokens(states, actions, n, c, r, tok) {
      ToldStays(states, actions, n, Committing, c, r, tok);
    }
  }

  ghost predicate AllKnown(states: seq<State>, actions: seq<Action>, n: nat)
    requires n <= |actions| && |states| == |actions| + 1
  {
    && (forall r :: r in states[n].rows ==> Known(states, actions, n, r, states[n].rows[r]))
    && (forall k :: k in states[n].conns ==>
          Known(states, actions, n, states[n].conns[k].realm, states[n].conns[k].tok))
  }

  /** Every token in a row or an object is one the realm had or was given. */
  lemma {:induction false} TokensAreKnown(states: seq<State>, actions: seq<Action>, n: nat)
    requires IsRun(states, actions) && n <= |actions| && Idle(states[0])
    ensures AllKnown(states, actions, n)
  {
    if n > 0 {
      TokensAreKnown(states, actions, n - 1);
      StepOfRun(states, actions, n - 1);
      forall r | r in states[n].rows ensures Known(states, actions, n, r, states[n].rows[r]) {
        RowKnown(states, actions, n, r);
      }
      forall k | k in states[n].conns
        ensures Known(states, actions, n, states[n].conns[k].realm, states[n].conns[k].tok)
      {
        ConnKnown(states, actions, n, k);
      }
    }
  }

  lemma RowKnown(states: seq<State>, actions: seq<Action>, n: nat, r: string)
    requires IsRun(states, actions) && 0 < n <= |actions| && AllKnown(states, actions, n - 1)
    requires r in states[n].rows
    ensures Known(states, actions, n, r, states[n].rows[r])
  {
    var k := RunRowFrom(states, actions, n - 1, r);
    var tok := states[n].rows[r];
    assert Known(states, actions, n - 1, r, tok);
    KnownStays(states, actions, n - 1, r, tok);
  }

  lemma RunRowFrom(states: seq<State>, actions: seq<Action>, n: nat, r: string) returns (k: Option<nat>)
    requires IsRun(states, actions) && n < |actions| && r in states[n + 1].rows
    ensures k.None? ==> r in states[n].rows && states[n + 1].rows[r] == states[n].rows[r]
    ensures k.Some? ==> k.value in states[n].conns && states[n].conns[k.value] == Conn(r, states[n + 1].rows[r])
  {
    StepOfRun(states, actions, n);
    k := RowFrom(states[n], actions[n], r);
  }

  /** A row is as it was, or holds the tokens of an object of its realm. */
  lemma RowFrom(s: State, a: Action, r: string) returns (k: Option<nat>)
    requires Inv(s) && Enabled(s, a) && r in Step(s, a).rows
    ensures k.None? ==> r in s.rows && Step(s, a).rows[r] == s.rows[r]
    ensures k.Some? ==> k.value in s.conns && s.conns[k.value].realm == r && Step(s, a).rows[r] == s.conns[k.value].tok
  {
    k := if a.Commit? && RealmOf(s, a.c) == r then Some(s.callers[a.c].conn) else None;
  }

  /** An object is as it was, or took over its realm's row, or a reply. */
  lemma ConnFrom(s: State, a: Action, k: nat)
    requires Inv(s) && Enabled(s, a) && k in Step(s, a).conns
    ensures k in s.conns && Step(s, a).conns[k].realm == s.conns[k].realm && s.conns[k].realm in s.rows
    ensures || Step(s, a).conns[k].tok == s.conns[k].tok
            || Step(s, a).conns[k].tok == s.rows[s.conns[k].realm]
            || (a.Receive? && s.callers[a.c].conn == k && a.c in Step(s, a).callers
                && Step(s, a).callers[a.c] == Caller(k, Committing))
  {
    if !(a.Reload? && a.ok) && !a.Receive? {
      ConnsStand(s, a);
    }
  }

  lemma ConnsStand(s: State, a: Action)
    requires Typed(s) && Enabled(s, a) && !(a.Reload? && a.ok) && !a.Receive?
    ensures Step(s, a).conns == s.conns
  {
  }

  lemma ConnKnown(states: seq<State>, actions: seq<Action>, n: nat, k: nat)
    requires IsRun(states, actions) && 0 < n <= |actions| && AllKnown(states, actions, n - 1)
    requires Idle(states[0]) && k in states[n].conns
    ensures Known(states, actions, n, states[n].conns[k].realm, states[n].conns[k].tok)
  {
    var c := RunConnFrom(states, actions, n - 1, k);
    if c.Some? {
      AllTold(states, actions, n, c.value);
    } else {
      KnownStays(states, actions, n - 1, states[n].conns[k].realm, states[n].conns[k].tok);
    }
  }

  lemma RunConnFrom(states: seq<State>, actions: seq<Action>, n: nat, k: nat) returns (c: Option<nat>)
    requires IsRun(states, actions) && n < |actions| && k in states[n + 1].conns
    ensures var r, tok := states[n + 1].conns[k].realm, states[n + 1].conns[k].tok;
            && (c.None? ==>
                  || (k in states[n].conns && states[n].conns[k] == Conn(r, tok))
                  || (r in states[n].rows && states[n].rows[r] == tok))
            && (c.Some? ==> c.value in states[n + 1].callers && states[n + 1].callers[c.value] == Caller(k, Committing))
  {
    StepOfRun(states, actions, n);
    ConnFrom(states[n], actions[n], k);
    var conn := states[n + 1].conns[k];
    c := if conn == states[n].conns[k] || conn.tok == states[n].rows[conn.realm] then None else Some(actions[n].c);
  }

  /** So whatever a call returns, in any run, is an access token its realm had at the start or that
      the server issued to it; and it is fresh, or just issued to this very call. */
  lemma CallsReturnIssuedTokens(states: seq<State>, actions: seq<Action>, n: nat, c: nat) returns (tok: Tokens)
    requires IsRun(states, actions) && n < |actions| && Idle(states[0]) && Finishes(states[n], states[n + 1], c)
    ensures Inv(states[n + 1]) && At(states[n + 1], c) == Done(tok.access)
    ensures Known(states, actions, n + 1, RealmOf(states[n + 1], c), tok)
    ensures IsFresh(tok, states[n + 1].now) || actions[n] == Commit(c)
  {
    StepOfRun(states, actions, n);
    FinishedReturnsHeld(states[n], actions[n], c);
    TokensAreKnown(states, actions, n + 1);
    tok := TokOf(states[n + 1], c);
  }

  // ---- The remaining steps -------------------------------------------------

  /** A call that finds a fresh token, on entering or once it has the lock, ends with it and leaves
      the locks alone; any other waits for its realm's lock, which only then becomes its own. */
  lemma FreshEndsTheCall(s: State, c: nat, k: nat)
    ensures Inv(s) && Enabled(s, Enter(c, k)) ==>
              var t := Step(s, Enter(c, k));
              && c in t.callers && t.callers[c].conn == k
              && t.callers[c].pc == (if IsFresh(s.conns[k].tok, s.now) then Done(s.conns[k].tok.access) else Waiting)
              && (forall r :: r in s.locks ==> r in t.locks && t.locks[r] == s.locks[r])
              && (t.callers[c].pc == Waiting ==> s.conns[k].realm in t.locks)
    ensures Inv(s) && Enabled(s, Acquire(c)) ==>
              var t := Step(s, Acquire(c));
              && c in t.callers
              && t.callers[c].pc == (if IsFresh(TokOf(s, c), s.now) then Done(TokOf(s, c).access) else Holding)
              && t.locks == (if IsFresh(TokOf(s, c), s.now) then s.locks else s.locks[RealmOf(s, c) := Some(c)])
  {
  }

  /** A refused or abandoned call fails; it changes no token anywhere and frees the lock it held. */
  lemma GivingUp(s: State, c: nat, a: Action)
    requires Inv(s) && Enabled(s, a) && (a == Refuse(c) || a == Abort(c))
    ensures var t := Step(s, a);
            && c in t.callers && t.callers[c].pc == Failed
            && t.conns == s.conns && t.rows == s.rows && t.server == s.server
            && t.locks == if Holds(At(s, c)) then s.locks[RealmOf(s, c) := None] else s.locks
  {
  }

  /** A failed reload leaves the object as it is and the call goes on; the clock moves by what has
      elapsed. */
  lemma FailedReloadGoesOn(s: State, c: nat, elapsed: nat)
    requires Inv(s)
    ensures Enabled(s, Reload(c, false)) ==> Step(s, Reload(c, false)) == Goto(s, c, Ready(false))
    ensures Step(s, Tick(elapsed)) == s.(now := s.now + elapsed)
  {
  }
}

/** The tamper-evident audit chain: hashing and verification in backend/core/audit/chain.py. */
module AuditChain {
  import opened Prelude
  import opened Canonical

  const CHAIN_VERSION := 1

  datatype Row = Row(
    id: string, tenantId: string, userId: Option<string>, action: string,
    entityType: Option<string>, entityId: Option<string>, eventData: Value, createdAt: int,
    prevHash: Option<string>, rowHash: Option<string>)

  /** What is serialised for one row. */
  datatype Payload = Payload(
    version: int, id: string, tenantId: string, userId: Option<string>, action: string,
    entityType: Option<string>, entityId: Option<string>, eventData: Value, createdAt: string)

  /** The parts of the platform the chain relies on: the ISO rendering of an instant, the
      JSON text of a payload, and SHA-256 in hexadecimal. */
  datatype Hasher = Hasher(iso: int -> string, dumps: Payload -> string, sha: string -> string)

  /** The predecessor of a tenant's first row: sixty-four zeros. */
  function Genesis(): (s: string)
    ensures |s| == 64 && forall i :: 0 <= i < 64 ==> s[i] == '0'
  {
    seq(64, i => '0')
  }

  // ---- Hashing -----------------------------------------------------------

  /** `event_data or {}`: the empty and absent values are written as an empty object. */
  function OrEmpty(v: Value): Value {
    if v == Null || v == Bool(false) || v == Int(0) || v == Str("") || v == List([]) then Obj([]) else v
  }

  function PayloadOf(h: Hasher, r: Row): Payload {
    Payload(CHAIN_VERSION, r.id, r.tenantId, r.userId, r.action, r.entityType, r.entityId,
            Canon(OrEmpty(r.eventData)), h.iso(r.createdAt))
  }

  function Fingerprint(h: Hasher, r: Row): string {
    h.sha(h.dumps(PayloadOf(h, r)))
  }

  /** `prev_hash or GENESIS`. */
  function Predecessor(prev: Option<string>): string {
    if prev == None || prev == Some("") then Genesis() else prev.value
  }

  function Link(h: Hasher, prev: Option<string>, fingerprint: string): string {
    h.sha(Predecessor(prev) + fingerprint)
  }

  function ComputeRowHash(h: Hasher, prev: Option<string>, r: Row): string {
    Link(h, prev, Fingerprint(h, r))
  }

  // ---- Verification ------------------------------------------------------

  datatype Reason = ContentAltered | LinkBroken
  datatype Break = Break(index: nat, rowId: string, reason: Reason)
  datatype Report = Report(
    total: nat, verified: nat, unchained: nat, breaks: seq<Break>, intact: bool,
    head: Option<string>, chainVersion: int)

  predicate IsHashed(r: Row) {
    r.rowHash.Some? && r.rowHash.value != ""
  }

  /** The hashed rows of a log, in log order. */
  function Hashed(rows: seq<Row>): (c: seq<Row>)
    ensures |c| <= |rows|
  {
    if rows == [] then []
    else if IsHashed(Last(rows)) then Hashed(rows[..|rows| - 1]) + [Last(rows)]
    else Hashed(rows[..|rows| - 1])
  }

  predicate Rehashes(h: Hasher, r: Row) {
    r.rowHash == Some(ComputeRowHash(h, r.prevHash, r))
  }

  /** Every row rehashes to its stored hash and names the hash of the row before it. */
  ghost predicate ChainOk(h: Hasher, c: seq<Row>) {
    && (forall i {:trigger Rehashes(h, c[i])} :: 0 <= i < |c| ==> Rehashes(h, c[i]))
    && (forall i {:trigger Linked(c, i)} :: 0 < i < |c| ==> Linked(c, i))
  }

  predicate Linked(c: seq<Row>, i: nat)
    requires 0 < i < |c|
  {
    c[i].prevHash == c[i - 1].rowHash
  }

  /** What is wrong with row `i`, given the hashed rows before it. */
  function Verdict(h: Hasher, rows: seq<Row>, i: nat): Option<Reason>
    requires i < |rows|
  {
    var before := Hashed(rows[..i]);
    if !IsHashed(rows[i]) then None
    else if !Rehashes(h, rows[i]) then Some(ContentAltered)
    else if before != [] && rows[i].prevHash != Last(before).rowHash then Some(LinkBroken)
    else None
  }

  /** The breaks among the first `n` rows. */
  function Breaks(h: Hasher, rows: seq<Row>, n: nat): seq<Break>
    requires n <= |rows|
  {
    if n == 0 then []
    else
      var v := Verdict(h, rows, n - 1);
      Breaks(h, rows, n - 1) + (if v.Some? then [Break(n - 1, rows[n - 1].id, v.value)] else [])
  }

  /** The verifier counts every row once, reports exactly the failing rows, and calls the log
      intact exactly when its hashed rows form one linked chain. */
  method VerifyChain(h: Hasher, rows: seq<Row>) returns (report: Report)
    ensures report.total == |rows| == report.verified + report.unchained + |report.breaks|
    ensures report.unchained == |rows| - |Hashed(rows)|
    ensures report.breaks == Breaks(h, rows, |rows|)
    ensures report.intact <==> ChainOk(h, Hashed(rows))
    ensures report.head == if rows == [] then None else Last(rows).rowHash
    ensures report.chainVersion == 1
  {
    var unchained, verified := 0, 0;
    var breaks: seq<Break> := [];
    var expectedPrev: Option<string> := None;
    var started := false;
    var i := 0;
    while i < |rows|
      invariant 0 <= i <= |rows|
      invariant unchained + verified + |breaks| == i && unchained == i - |Hashed(rows[..i])|
      invariant started == (Hashed(rows[..i]) != [])
      invariant started ==> expectedPrev == Last(Hashed(rows[..i])).rowHash
      invariant breaks == Breaks(h, rows, i)
    {
      var r := rows[i];
      assert rows[..i + 1][..i] == rows[..i] && Last(rows[..i + 1]) == r;
      if !IsHashed(r) {
        unchained := unchained + 1;
      } else {
        var recomputed := ComputeRowHash(h, r.prevHash, r);
        if Some(recomputed) != r.rowHash {
          breaks := breaks + [Break(i, r.id, ContentAltered)];
        } else if started && r.prevHash != expectedPrev {
          breaks := breaks + [Break(i, r.id, LinkBroken)];
        } else {
          verified := verified + 1;
        }
        started := true;
        expectedPrev := r.rowHash;
      }
      i := i + 1;
    }
    assert rows[..|rows|] == rows;
    NoBreaksIsOk(h, rows, |rows|);
    report := Report(|rows|, verified, unchained, breaks, breaks == [],
                     if rows == [] then None else Last(rows).rowHash, CHAIN_VERSION);
  }

  /** The breaks are the rows with a verdict, each once, in log order. */
  lemma {:induction false} BreaksAreVerdicts(h: Hasher, rows: seq<Row>, n: nat)
    requires n <= |rows|
    ensures forall b :: b in Breaks(h, rows, n) <==>
              b.index < n && Verdict(h, rows, b.index) == Some(b.reason) && b.rowId == rows[b.index].id
    ensures forall j, k :: 0 <= j < k < |Breaks(h, rows, n)| ==>
        Breaks(h, rows, n)[j].index < Breaks(h, rows, n)[k].index
  {
    if n > 0 {
      BreaksAreVerdicts(h, rows, n - 1);
      var before := Breaks(h, rows, n - 1);
      forall j | 0 <= j < |before| ensures before[j].index < n - 1 { assert before[j] in before; }
    }
  }

  lemma {:induction false} NoBreaksIsOk(h: Hasher, rows: seq<Row>, n: nat)
    requires n <= |rows|
    ensures Breaks(h, rows, n) == [] <==> ChainOk(h, Hashed(rows[..n]))
  {
    if n > 0 {
      NoBreaksIsOk(h, rows, n - 1);
      assert rows[..n][..n - 1] == rows[..n - 1] && Last(rows[..n]) == rows[n - 1];
      var c := Hashed(rows[..n - 1]);
      ChainExtends(h, c, rows[n - 1]);
      assert Hashed(rows[..n]) == if IsHashed(rows[n - 1]) then c + [rows[n - 1]] else c;
    }
  }

  lemma ChainExtends(h: Hasher, c: seq<Row>, r: Row)
    ensures ChainOk(h, c + [r]) <==>
              ChainOk(h, c) && Rehashes(h, r) && (c == [] || r.prevHash == Last(c).rowHash)
  {
    var d := c + [r];
    if ChainOk(h, d) {
      forall i | 0 <= i < |c| ensures Rehashes(h, c[i]) { assert d[i] == c[i]; }
      forall i | 0 < i < |c| ensures Linked(c, i) { assert Linked(d, i); }
      assert d[|c|] == r && Rehashes(h, d[|c|]);
      assert c == [] || Linked(d, |c|);
    }
    if ChainOk(h, c) && Rehashes(h, r) && (c == [] || r.prevHash == Last(c).rowHash) {
      forall i | 0 < i < |d| ensures Linked(d, i) { assert i == |c| || Linked(c, i); }
    }
  }

  // ---- What is assumed of the hash ---------------------------------------

  /** The strings hashed for one row: its serialisation, and its link text. */
  function Blobs(h: Hasher, rows: seq<Row>): set<string> {
    (set r | r in rows :: h.dumps(PayloadOf(h, r))) + (set r | r in rows :: LinkText(h, r))
  }

  function LinkText(h: Hasher, r: Row): string {
    Predecessor(r.prevHash) + Fingerprint(h, r)
  }

  /** SHA-256 written out has 64 hexadecimal digits. */
  ghost predicate Digests(h: Hasher) {
    forall s :: |h.sha(s)| == 64
  }

  /** Digests have their length; among the strings actually hashed here no two
      collide and none hashes to the genesis marker; renderings are one to one. */
  ghost predicate Sound(h: Hasher, blobs: set<string>) {
    && Digests(h)
    && (forall s, t :: s in blobs && t in blobs && h.sha(s) == h.sha(t) ==> s == t)
    && (forall s :: s in blobs ==> h.sha(s) != Genesis())
    && (forall a, b :: h.iso(a) == h.iso(b) ==> a == b)
    && (forall p: Payload, q: Payload ::
        InForm(p.eventData) && InForm(q.eventData) && h.dumps(p) == h.dumps(q) ==> p == q)
  }

  ghost predicate Covers(h: Hasher, blobs: set<string>, r: Row) {
    h.dumps(PayloadOf(h, r)) in blobs && LinkText(h, r) in blobs
  }

  ghost predicate CoversAll(h: Hasher, blobs: set<string>, rows: seq<Row>) {
    forall i {:trigger Covers(h, blobs, rows[i])} :: 0 <= i < |rows| ==> Covers(h, blobs, rows[i])
  }

  lemma BlobsCover(h: Hasher, rows: seq<Row>, blobs: set<string>)
    requires Blobs(h, rows) <= blobs
    ensures CoversAll(h, blobs, rows)
  {
  }

  /** Equal hashes come from equal content linked to an equal predecessor. */
  lemma EqualHashes(h: Hasher, blobs: set<string>, r: Row, s: Row)
    requires Sound(h, blobs) && Covers(h, blobs, r) && Covers(h, blobs, s)
    requires Rehashes(h, r) && Rehashes(h, s) && r.rowHash == s.rowHash
    ensures Predecessor(r.prevHash) == Predecessor(s.prevHash)
    ensures PayloadOf(h, r) == PayloadOf(h, s)
  {
    assert LinkText(h, r) == LinkText(h, s);
    var p, q := Predecessor(r.prevHash), Predecessor(s.prevHash);
    var f, g := Fingerprint(h, r), Fingerprint(h, s);
    assert |f| == 64 && |g| == 64 && |p| == |q|;
    assert p == (p + f)[..|p|] && q == (q + g)[..|p|];
    assert f == (p + f)[|p|..] && g == (q + g)[|p|..];
    CanonIsInForm(OrEmpty(r.eventData));
    CanonIsInForm(OrEmpty(s.eventData));
  }

  // ---- What an intact report proves --------------------------------------

  /** The chain the write path builds: the first row links to nothing, each later row to
      its predecessor. */
  ghost predicate Honest(h: Hasher, c: seq<Row>) {
    ChainOk(h, c) && (c != [] ==> c[0].prevHash == None)
  }

  /** The same hashed record: same hash, same content, same predecessor. A missing, a blank
      and a literal genesis predecessor are one and the same to the hash. */
  ghost predicate SameRecord(h: Hasher, r: Row, s: Row) {
    && r.rowHash == s.rowHash
    && Predecessor(r.prevHash) == Predecessor(s.prevHash)
    && PayloadOf(h, r) == PayloadOf(h, s)
  }

  /** `c` is, record for record, the last `|c|` rows of `honest`. */
  ghost predicate IsSuffix(h: Hasher, c: seq<Row>, honest: seq<Row>) {
    |c| <= |honest| && forall i :: 0 <= i < |c| ==> SameRecord(h, c[i], honest[|honest| - |c| + i])
  }

  /** Field for field: equal payloads mean equal fields, event data up to the order of object
      members and the rendering of what is not JSON. */
  lemma PayloadFields(h: Hasher, blobs: set<string>, r: Row, s: Row)
    requires Sound(h, blobs) && Keyed(r.eventData) && Keyed(s.eventData)
    ensures PayloadOf(h, r) == PayloadOf(h, s) <==>
              && r.id == s.id && r.tenantId == s.tenantId && r.userId == s.userId && r.action == s.action
              && r.entityType == s.entityType && r.entityId == s.entityId && r.createdAt == s.createdAt
              && Same(Rendered(OrEmpty(r.eventData)), Rendered(OrEmpty(s.eventData)))
  {
    CanonIffSame(OrEmpty(r.eventData), OrEmpty(s.eventData));
  }

  /** A linked row names its predecessor's hash, which is not the genesis marker. */
  lemma LinkNames(h: Hasher, blobs: set<string>, c: seq<Row>, i: nat)
    requires Sound(h, blobs) && ChainOk(h, c) && 0 < i < |c| && Covers(h, blobs, c[i - 1])
    ensures c[i - 1].rowHash.Some? && c[i].prevHash == c[i - 1].rowHash
    ensures Predecessor(c[i].prevHash) == c[i - 1].rowHash.value != Genesis()
  {
    assert Rehashes(h, c[i - 1]) && Linked(c, i);
    var text := LinkText(h, c[i - 1]);
    assert |h.sha(text)| == 64 && Covers(h, blobs, c[i - 1]);
  }

  /** If two linked records agree, so do the hashes of the rows before them. */
  lemma StepBack(h: Hasher, blobs: set<string>, c: seq<Row>, honest: seq<Row>, i: nat, j: nat)
    requires Sound(h, blobs) && CoversAll(h, blobs, c) && CoversAll(h, blobs, honest)
    requires ChainOk(h, c) && Honest(h, honest) && 0 < i < |c| && j < |honest|
    requires Predecessor(c[i].prevHash) == Predecessor(honest[j].prevHash)
    ensures j > 0 && c[i - 1].rowHash == honest[j - 1].rowHash
  {
    assert Covers(h, blobs, c[i - 1]);
    LinkNames(h, blobs, c, i);
    assert j > 0;
    assert Covers(h, blobs, honest[j - 1]);
    LinkNames(h, blobs, honest, j);
  }

  lemma {:induction false} EqualTails(h: Hasher, blobs: set<string>, c: seq<Row>, honest: seq<Row>, k: nat)
    requires Sound(h, blobs) && CoversAll(h, blobs, c) && CoversAll(h, blobs, honest)
    requires ChainOk(h, c) && Honest(h, honest) && k < |c| && honest != []
    requires Last(c).rowHash == Last(honest).rowHash
    ensures k < |honest| && SameRecord(h, c[|c| - 1 - k], honest[|honest| - 1 - k])
  {
    if k > 0 {
      EqualTails(h, blobs, c, honest, k - 1);
      StepBack(h, blobs, c, honest, |c| - k, |honest| - k);
    }
    EqualAt(h, blobs, c, honest, |c| - 1 - k, |honest| - 1 - k);
  }

  lemma EqualAt(h: Hasher, blobs: set<string>, c: seq<Row>, honest: seq<Row>, i: nat, j: nat)
    requires Sound(h, blobs) && CoversAll(h, blobs, c) && CoversAll(h, blobs, honest)
    requires ChainOk(h, c) && ChainOk(h, honest) && i < |c| && j < |honest|
    requires c[i].rowHash == honest[j].rowHash
    ensures SameRecord(h, c[i], honest[j])
  {
    var r, s := c[i], honest[j];
    assert Covers(h, blobs, r) && Covers(h, blobs, s) && Rehashes(h, r) && Rehashes(h, s);
    EqualHashes(h, blobs, r, s);
  }

  /** A run of records from the honest chain passes as it stands. */
  lemma SuffixIsOk(h: Hasher, blobs: set<string>, c: seq<Row>, honest: seq<Row>)
    requires Sound(h, blobs) && CoversAll(h, blobs, honest)
    requires Honest(h, honest) && IsSuffix(h, c, honest)
    ensures ChainOk(h, c)
  {
    var d := |honest| - |c|;
    forall i | 0 <= i < |c| ensures Rehashes(h, c[i]) {
      SameRehash(h, c[i], honest[d + i]);
    }
    forall i | 0 < i < |c| ensures Linked(c, i) {
      SuffixLink(h, blobs, c, honest, i);
    }
  }

  lemma SuffixLink(h: Hasher, blobs: set<string>, c: seq<Row>, honest: seq<Row>, i: nat)
    requires Sound(h, blobs) && CoversAll(h, blobs, honest)
    requires Honest(h, honest) && IsSuffix(h, c, honest) && 0 < i < |c|
    ensures Linked(c, i)
  {
    var d := |honest| - |c|;
    assert Covers(h, blobs, honest[d + i - 1]);
    LinkNames(h, blobs, honest, d + i);
    assert SameRecord(h, c[i], honest[d + i]) && SameRecord(h, c[i - 1], honest[d + i - 1]);
  }

  lemma SameRehash(h: Hasher, r: Row, s: Row)
    requires SameRecord(h, r, s) && Rehashes(h, s)
    ensures Rehashes(h, r)
  {
  }

  /** Against a published head, the verifier accepts a log exactly when its hashed rows are,
      record for record, a suffix of the honest chain; when they start at genesis they are
      the whole chain. */
  lemma PinnedHead(h: Hasher, log: seq<Row>, honest: seq<Row>)
    requires Honest(h, honest) && honest != []
    requires Sound(h, Blobs(h, Hashed(log)) + Blobs(h, honest))
    requires Hashed(log) != [] && Last(Hashed(log)).rowHash == Last(honest).rowHash
    ensures ChainOk(h, Hashed(log)) <==> IsSuffix(h, Hashed(log), honest)
    ensures (ChainOk(h, Hashed(log)) && Predecessor(Hashed(log)[0].prevHash) == Genesis()) ==>
              |Hashed(log)| == |honest|
  {
    var c := Hashed(log);
    var blobs := Blobs(h, c) + Blobs(h, honest);
    BlobsCover(h, c, blobs);
    BlobsCover(h, honest, blobs);
    PinnedChain(h, blobs, c, honest);
  }

  lemma PinnedChain(h: Hasher, blobs: set<string>, c: seq<Row>, honest: seq<Row>)
    requires Sound(h, blobs) && CoversAll(h, blobs, c) && CoversAll(h, blobs, honest)
    requires Honest(h, honest) && honest != [] && c != [] && Last(c).rowHash == Last(honest).rowHash
    ensures ChainOk(h, c) <==> IsSuffix(h, c, honest)
    ensures (ChainOk(h, c) && Predecessor(c[0].prevHash) == Genesis()) ==> |c| == |honest|
  {
    if ChainOk(h, c) {
      OkIsSuffix(h, blobs, c, honest);
    }
    if IsSuffix(h, c, honest) {
      SuffixIsOk(h, blobs, c, honest);
    }
  }

  lemma OkIsSuffix(h: Hasher, blobs: set<string>, c: seq<Row>, honest: seq<Row>)
    requires Sound(h, blobs) && CoversAll(h, blobs, c) && CoversAll(h, blobs, honest)
    requires ChainOk(h, c) && Honest(h, honest) && honest != [] && c != []
    requires Last(c).rowHash == Last(honest).rowHash
    ensures IsSuffix(h, c, honest)
    ensures Predecessor(c[0].prevHash) == Genesis() ==> |c| == |honest|
  {
    EqualTails(h, blobs, c, honest, |c| - 1);
    var d := |honest| - |c|;
    forall k | 0 <= k < |c| ensures SameRecord(h, c[k], honest[d + k]) {
      EqualTails(h, blobs, c, honest, |c| - 1 - k);
    }
    OnlyFirstIsGenesis(h, blobs, honest, d);
  }

  lemma OnlyFirstIsGenesis(h: Hasher, blobs: set<string>, honest: seq<Row>, i: nat)
    requires Sound(h, blobs) && CoversAll(h, blobs, honest) && Honest(h, honest) && i < |honest|
    ensures Predecessor(honest[i].prevHash) == Genesis() ==> i == 0
  {
    if i > 0 {
      assert Covers(h, blobs, honest[i - 1]);
      LinkNames(h, blobs, honest, i);
    }
  }

  lemma HonestIsHashed(h: Hasher, c: seq<Row>)
    requires Digests(h) && forall i :: 0 <= i < |c| ==> Rehashes(h, c[i])
    ensures Hashed(c) == c
  {
    forall i | 0 <= i < |c| ensures IsHashed(c[i]) {
      assert Rehashes(h, c[i]);
      assert |c[i].rowHash.value| == 64;
    }
    AllHashed(c);
  }

  lemma {:induction false} AllHashed(c: seq<Row>)
    requires forall i :: 0 <= i < |c| ==> IsHashed(c[i])
    ensures Hashed(c) == c
  {
    if c != [] {
      AllHashed(c[..|c| - 1]);
      assert c == c[..|c| - 1] + [Last(c)];
    }
  }

  /** No row unchained means that all rows are in the chain. */
  lemma {:induction false} NoneUnchained(c: seq<Row>)
    requires |Hashed(c)| == |c|
    ensures Hashed(c) == c
  {
    if c != [] {
      assert IsHashed(Last(c));
      NoneUnchained(c[..|c| - 1]);
      assert c == c[..|c| - 1] + [Last(c)];
    }
  }

  lemma HashedSnoc(rows: seq<Row>, r: Row)
    ensures Hashed(rows + [r]) == if IsHashed(r) then Hashed(rows) + [r] else Hashed(rows)
  {
    assert (rows + [r])[..|rows|] == rows;
  }

  lemma {:induction false} HashedAppend(a: seq<Row>, b: seq<Row>)
    ensures Hashed(a + b) == Hashed(a) + Hashed(b)
  {
    if b == [] {
      assert a + b == a;
    } else {
      HashedAppend(a, b[..|b| - 1]);
      AppendThenSnoc(a, b);
    }
  }

  lemma AppendThenSnoc(a: seq<Row>, b: seq<Row>)
    requires b != [] && Hashed(a + b[..|b| - 1]) == Hashed(a) + Hashed(b[..|b| - 1])
    ensures Hashed(a + b) == Hashed(a) + Hashed(b)
  {
    var front, r := b[..|b| - 1], Last(b);
    assert front + [r] == b;
    Assoc(a, front, r);
    HashedSnoc(a + front, r);
    HashedSnoc(front, r);
    Assoc(Hashed(a), Hashed(front), r);
  }

  lemma Assoc(x: seq<Row>, y: seq<Row>, r: Row)
    ensures (x + y) + [r] == x + (y + [r])
  {
  }

  lemma {:induction false} NoneHashed(c: seq<Row>)
    requires forall i :: 0 <= i < |c| ==> !IsHashed(c[i])
    ensures Hashed(c) == []
  {
    if c != [] {
      NoneHashed(c[..|c| - 1]);
    }
  }

  /** A log as long as the honest chain whose last row stands: it is reported intact exactly
      when its hashed rows are the last ones of the chain, and intact with none unchained
      exactly when no row was edited. */
  lemma EditIsCaught(h: Hasher, honest: seq<Row>, log: seq<Row>)
    requires Honest(h, honest) && honest != [] && Sound(h, Blobs(h, log) + Blobs(h, honest))
    requires |log| == |honest| && Last(log) == Last(honest)
    ensures ChainOk(h, Hashed(log)) <==> IsSuffix(h, Hashed(log), honest)
    ensures ChainOk(h, Hashed(log)) && |Hashed(log)| == |log| <==>
              forall k :: 0 <= k < |log| ==> SameRecord(h, log[k], honest[k])
  {
    var c, blobs := Hashed(log), Blobs(h, log) + Blobs(h, honest);
    BlobsCover(h, log, blobs);
    BlobsCover(h, honest, blobs);
    LastIsHashed(h, honest, log);
    HashedCovered(h, blobs, log);
    PinnedChain(h, blobs, c, honest);
    if ChainOk(h, c) && |c| == |log| {
      NoneUnchained(log);
      var d := |honest| - |c|;
      forall k | 0 <= k < |log| ensures SameRecord(h, log[k], honest[k]) {
        assert SameRecord(h, c[k], honest[d + k]);
      }
    }
    if forall k :: 0 <= k < |log| ==> SameRecord(h, log[k], honest[k]) {
      SameIsIntact(h, honest, log);
    }
  }

  lemma SameIsIntact(h: Hasher, honest: seq<Row>, log: seq<Row>)
    requires Honest(h, honest) && Digests(h) && |log| == |honest|
    requires forall k :: 0 <= k < |log| ==> SameRecord(h, log[k], honest[k])
    ensures Hashed(log) == log && IsSuffix(h, log, honest)
  {
    forall k | 0 <= k < |log| ensures Rehashes(h, log[k]) {
      assert Rehashes(h, honest[k]);
      SameRehash(h, log[k], honest[k]);
    }
    HonestIsHashed(h, log);
  }

  lemma LastIsHashed(h: Hasher, honest: seq<Row>, log: seq<Row>)
    requires Honest(h, honest) && Digests(h) && honest != [] && log != [] && Last(log) == Last(honest)
    ensures Hashed(log) != [] && Last(Hashed(log)) == Last(log)
  {
    assert Rehashes(h, honest[|honest| - 1]);
    assert |Last(honest).rowHash.value| == 64;
  }

  lemma {:induction false} HashedCovered(h: Hasher, blobs: set<string>, log: seq<Row>)
    requires CoversAll(h, blobs, log)
    ensures CoversAll(h, blobs, Hashed(log))
  {
    if log != [] {
      var front := log[..|log| - 1];
      forall i | 0 <= i < |front| ensures Covers(h, blobs, front[i]) { assert Covers(h, blobs, log[i]); }
      HashedCovered(h, blobs, front);
      assert Covers(h, blobs, log[|log| - 1]);
    }
  }

  /** What does survive: any rows at all in place of a prefix, once their hashes are blank. They
      are only counted as unchained. */
  lemma BlankedPrefixSurvives(h: Hasher, honest: seq<Row>, forged: seq<Row>)
    requires Honest(h, honest) && Digests(h) && |forged| <= |honest|
    requires forall i :: 0 <= i < |forged| ==> !IsHashed(forged[i])
    ensures var log := forged + honest[|forged|..];
            ChainOk(h, Hashed(log)) && |log| - |Hashed(log)| == |forged|
  {
    var rest := honest[|forged|..];
    RestIsOk(h, honest, |forged|);
    NoneHashed(forged);
    HashedAppend(forged, rest);
    assert [] + rest == rest;
  }

  lemma RestIsOk(h: Hasher, honest: seq<Row>, n: nat)
    requires Honest(h, honest) && Digests(h) && n <= |honest|
    ensures ChainOk(h, honest[n..]) && Hashed(honest[n..]) == honest[n..]
  {
    var rest := honest[n..];
    forall i | 0 <= i < |rest| ensures Rehashes(h, rest[i]) { assert Rehashes(h, honest[n + i]); }
    forall i | 0 < i < |rest| ensures Linked(rest, i) { assert Linked(honest, n + i); }
    HonestIsHashed(h, rest);
  }

  /** For one: the first row rewritten and its hash blanked, in any chain of two rows or more. */
  lemma ForgedFirstRow(h: Hasher, honest: seq<Row>, action: string)
    requires Honest(h, honest) && Digests(h) && |honest| >= 2 && action != honest[0].action
    ensures var log := [honest[0].(action := action, rowHash := None)] + honest[1..];
            && ChainOk(h, Hashed(log)) && Last(log) == Last(honest) && |log| == |honest|
            && !SameRecord(h, log[0], honest[0])
  {
    BlankedPrefixSurvives(h, honest, [honest[0].(action := action, rowHash := None)]);
  }

  // ---- Deleting, repeating and reordering rows ---------------------------

  /** No two rows of an honest chain share a hash. */
  lemma {:induction false} HashesDiffer(h: Hasher, blobs: set<string>, honest: seq<Row>, i: nat, j: nat)
    requires Honest(h, honest) && Sound(h, blobs) && CoversAll(h, blobs, honest)
    requires i < j < |honest|
    ensures honest[i].rowHash != honest[j].rowHash
    decreases i
  {
    LinkNames(h, blobs, honest, j);
    if i > 0 {
      HashesDiffer(h, blobs, honest, i - 1, j - 1);
      LinkNames(h, blobs, honest, i);
    }
    assert Predecessor(honest[i].prevHash) != Predecessor(honest[j].prevHash);
    if honest[i].rowHash == honest[j].rowHash {
      EqualHashes(h, blobs, honest[i], honest[j]);
      assert false;
    }
  }

  /** The rows of `c` at the positions `idx`: any selection, repetition and reordering. */
  function Pick(c: seq<Row>, idx: seq<nat>): (r: seq<Row>)
    requires forall k :: 0 <= k < |idx| ==> idx[k] < |c|
    ensures |r| == |idx|
    ensures forall k :: 0 <= k < |idx| ==> r[k] == c[idx[k]]
  {
    seq(|idx|, k requires 0 <= k < |idx| => c[idx[k]])
  }

  lemma PickIsHashed(h: Hasher, honest: seq<Row>, idx: seq<nat>)
    requires Honest(h, honest) && Digests(h)
    requires forall k :: 0 <= k < |idx| ==> idx[k] < |honest|
    ensures Hashed(Pick(honest, idx)) == Pick(honest, idx)
  {
    var c := Pick(honest, idx);
    forall k | 0 <= k < |idx| ensures Rehashes(h, c[k]) { assert Rehashes(h, honest[idx[k]]); }
    HonestIsHashed(h, c);
  }

  /** Rows taken from an honest chain, in any order and any number, are reported intact exactly
      when they are one contiguous segment of it. */
  lemma {:induction false} SelectionIsSegment(h: Hasher, honest: seq<Row>, idx: seq<nat>)
    requires Honest(h, honest) && Sound(h, Blobs(h, honest))
    requires forall k :: 0 <= k < |idx| ==> idx[k] < |honest|
    ensures ChainOk(h, Hashed(Pick(honest, idx))) <==> forall k :: 0 <= k < |idx| ==> idx[k] == idx[0] + k
  {
    var c, blobs := Pick(honest, idx), Blobs(h, honest);
    BlobsCover(h, honest, blobs);
    PickIsHashed(h, honest, idx);
    if ChainOk(h, c) {
      OkIsConsecutive(h, blobs, honest, idx);
    }
    if forall k :: 0 <= k < |idx| ==> idx[k] == idx[0] + k {
      ConsecutiveIsOk(h, honest, idx);
    }
  }

  lemma OkIsConsecutive(h: Hasher, blobs: set<string>, honest: seq<Row>, idx: seq<nat>)
    requires Honest(h, honest) && Sound(h, blobs) && CoversAll(h, blobs, honest)
    requires forall k :: 0 <= k < |idx| ==> idx[k] < |honest|
    requires ChainOk(h, Pick(honest, idx))
    ensures forall k :: 0 <= k < |idx| ==> idx[k] == idx[0] + k
  {
    var c := Pick(honest, idx);
    forall k | 0 < k < |idx| ensures idx[k] == idx[k - 1] + 1 {
      assert Linked(c, k);
      SuccessorIsNext(h, blobs, honest, idx[k - 1], idx[k]);
    }
    Steps(idx);
  }

  lemma ConsecutiveIsOk(h: Hasher, honest: seq<Row>, idx: seq<nat>)
    requires Honest(h, honest)
    requires forall k :: 0 <= k < |idx| ==> idx[k] < |honest| && idx[k] == idx[0] + k
    ensures ChainOk(h, Pick(honest, idx))
  {
    var c := Pick(honest, idx);
    forall k | 0 <= k < |idx| ensures Rehashes(h, c[k]) { assert Rehashes(h, honest[idx[k]]); }
    forall k | 0 < k < |idx| ensures Linked(c, k) {
      assert Linked(honest, idx[k]) && idx[k - 1] == idx[0] + (k - 1);
    }
  }

  /** In an honest chain only the next row names a row's hash. */
  lemma SuccessorIsNext(h: Hasher, blobs: set<string>, honest: seq<Row>, a: nat, b: nat)
    requires Honest(h, honest) && Sound(h, blobs) && CoversAll(h, blobs, honest)
    requires a < |honest| && b < |honest| && honest[b].prevHash == honest[a].rowHash
    ensures b == a + 1
  {
    assert Rehashes(h, honest[a]);
    assert b > 0 && Linked(honest, b);
    if a < b - 1 { HashesDiffer(h, blobs, honest, a, b - 1); }
    if b - 1 < a { HashesDiffer(h, blobs, honest, b - 1, a); }
  }

  lemma {:induction false} Steps(idx: seq<nat>)
    requires forall k :: 0 < k < |idx| ==> idx[k] == idx[k - 1] + 1
    ensures forall k :: 0 <= k < |idx| ==> idx[k] == idx[0] + k
  {
    if |idx| > 1 {
      Steps(idx[..|idx| - 1]);
      var n := |idx| - 1;
      assert idx[..n][n - 1] == idx[..n][0] + (n - 1);
      forall k | 0 <= k < |idx| ensures idx[k] == idx[0] + k {
        if k < n { assert idx[..n][k] == idx[..n][0] + k; }
      }
    }
  }

  /** Dropping rows: a gap between rows that are left is reported. */
  lemma DeletionIsCaught(h: Hasher, honest: seq<Row>, idx: seq<nat>, k: nat)
    requires Honest(h, honest) && Sound(h, Blobs(h, honest))
    requires forall j :: 0 <= j < |idx| ==> idx[j] < |honest|
    requires 0 < k < |idx| && idx[k - 1] + 1 < idx[k]
    ensures !ChainOk(h, Hashed(Pick(honest, idx)))
  {
    SelectionIsSegment(h, honest, idx);
    assert idx[k] != idx[0] + k || idx[k - 1] != idx[0] + (k - 1);
  }

  /** Reordering the whole chain passes only as the identity. */
  lemma PermutationIsIdentity(h: Hasher, honest: seq<Row>, idx: seq<nat>)
    requires Honest(h, honest) && Sound(h, Blobs(h, honest))
    requires |idx| == |honest| && forall k :: 0 <= k < |idx| ==> idx[k] < |honest|
    ensures ChainOk(h, Hashed(Pick(honest, idx))) <==> Pick(honest, idx) == honest
  {
    SelectionIsSegment(h, honest, idx);
    PickIsHashed(h, honest, idx);
    if forall k :: 0 <= k < |idx| ==> idx[k] == idx[0] + k {
      WholeSegment(honest, idx);
    }
  }

  lemma WholeSegment(honest: seq<Row>, idx: seq<nat>)
    requires |idx| == |honest| && forall k :: 0 <= k < |idx| ==> idx[k] < |honest| && idx[k] == idx[0] + k
    ensures Pick(honest, idx) == honest
  {
    if idx != [] {
      assert idx[|idx| - 1] == idx[0] + (|idx| - 1);
    }
  }

  // ---- What is hashed, and what a verdict says ------------------------------

  /** A row's hash is that of its predecessor's hash followed by the hash of its own text; without
      a predecessor, or with a blank one, sixty-four zeros stand there. */
  lemma RowHashIs(h: Hasher, prev: Option<string>, r: Row)
    ensures prev.Some? && prev.value != "" ==>
              ComputeRowHash(h, prev, r) == h.sha(prev.value + h.sha(h.dumps(PayloadOf(h, r))))
    ensures ComputeRowHash(h, None, r) == ComputeRowHash(h, Some(""), r) == ComputeRowHash(h, Some(Genesis()), r)
  {
  }

  /** The text covers the version, every field, the instant as text, and the event data in canonical
      form, an empty object standing for absent data. */
  lemma PayloadSays(h: Hasher, r: Row)
    ensures PayloadOf(h, r).version == 1
    ensures PayloadOf(h, r).id == r.id && PayloadOf(h, r).tenantId == r.tenantId
    ensures PayloadOf(h, r).userId == r.userId && PayloadOf(h, r).action == r.action
    ensures PayloadOf(h, r).entityType == r.entityType && PayloadOf(h, r).entityId == r.entityId
    ensures PayloadOf(h, r).createdAt == h.iso(r.createdAt)
    ensures r.eventData == Null ==> PayloadOf(h, r).eventData == Obj([])
    ensures r.eventData.Obj? ==> PayloadOf(h, r).eventData == Canon(r.eventData)
  {
  }

  /** The nearest hashed row before position i. */
  ghost predicate HashedBefore(rows: seq<Row>, i: nat, j: nat)
    requires i <= |rows|
  {
    j < i && IsHashed(rows[j]) && forall k :: j < k < i ==> !IsHashed(rows[k])
  }

  lemma {:induction false} LastHashed(rows: seq<Row>, i: nat)
    requires i <= |rows|
    ensures Hashed(rows[..i]) == [] <==> forall k :: 0 <= k < i ==> !IsHashed(rows[k])
    ensures forall j: nat {:trigger HashedBefore(rows, i, j)} ::
              HashedBefore(rows, i, j) ==> Hashed(rows[..i]) != [] && Last(Hashed(rows[..i])) == rows[j]
  {
    if i > 0 {
      LastHashed(rows, i - 1);
      assert rows[..i][..i - 1] == rows[..i - 1] && Last(rows[..i]) == rows[i - 1];
      forall j: nat | HashedBefore(rows, i, j) && j != i - 1 ensures HashedBefore(rows, i - 1, j) {}
    }
  }

  /** A row is called altered exactly when it carries a hash that is not the one its content and
      predecessor give; it is called unlinked exactly when its own hash is right but it does not
      name the hash of the nearest hashed row before it. */
  lemma VerdictMeans(h: Hasher, rows: seq<Row>, i: nat)
    requires i < |rows|
    ensures var r := rows[i];
            var carries, right :=
              r.rowHash.Some? && r.rowHash.value != "", r.rowHash == Some(ComputeRowHash(h, r.prevHash, r));
            && (Verdict(h, rows, i) == Some(ContentAltered) <==> carries && !right)
            && (forall j: nat {:trigger HashedBefore(rows, i, j)} :: HashedBefore(rows, i, j) ==>
                  (Verdict(h, rows, i) == Some(LinkBroken) <==> carries && right && r.prevHash != rows[j].rowHash))
            && ((forall k :: 0 <= k < i ==> !IsHashed(rows[k])) ==> Verdict(h, rows, i) != Some(LinkBroken))
  {
    LastHashed(rows, i);
  }
}

// Refresh tokens: stored by the digest of their jti, rotated by the refresh
// grant, revoked as a chain when a revoked one is presented again.
module RefreshTokens {
  import opened Options

  /** A token identifier; digests are taken to be collision-free, so it stands for its digest. */
  type Jti = string
  type User = string
  type Client = string

  const DAY := 86400

  /** What is signed into a token besides its jti and its expiry. */
  datatype Claims = Claims(user: User, client: Client, scope: string)

  datatype Row = Row(claims: Claims, expiresAt: int, parent: Option<Jti>, revoked: bool, revokedAt: Option<int>)

  type Db = map<Jti, Row>

  datatype Verdict = Valid | NotFound | ReuseDetected | Expired

  predicate IsExpired(r: Row, now: int)
  {
    now > r.expiresAt
  }

  predicate IsValid(r: Row, now: int)
  {
    !r.revoked && !IsExpired(r, now)
  }

  predicate SamePair(a: Claims, b: Claims)
  {
    a.user == b.user && a.client == b.client
  }

  function Killed(r: Row, now: int): Row
  {
    r.(revoked := true, revokedAt := Some(now))
  }

  function KillAll(db: Db, victims: set<Jti>, now: int): Db
  {
    map k | k in db :: if k in victims then Killed(db[k], now) else db[k]
  }

  /** The unrevoked tokens of the same user and client. */
  function LiveOf(db: Db, claims: Claims): set<Jti>
  {
    set k | k in db && SamePair(db[k].claims, claims) && !db[k].revoked
  }

  /** The token itself and every unrevoked token of its user and client are revoked. */
  function ChainRevoked(db: Db, jti: Jti, now: int): Db
    requires jti in db
  {
    KillAll(db, LiveOf(db, db[jti].claims) + {jti}, now)
  }

  function VerdictOf(db: Db, jti: Jti, now: int): Verdict
  {
    if jti !in db then NotFound
    else if db[jti].revoked then ReuseDetected
    else if IsExpired(db[jti], now) then Expired
    else Valid
  }

  function Validated(db: Db, jti: Jti, now: int): Db
  {
    if VerdictOf(db, jti, now).ReuseDetected? then ChainRevoked(db, jti, now) else db
  }

  function Revoked(db: Db, jti: Jti, now: int): Db
  {
    if jti in db then db[jti := Killed(db[jti], now)] else db
  }

  function Cleaned(db: Db, now: int, daysToKeep: int): Db
  {
    map k | k in db && !(db[k].expiresAt < now - daysToKeep * DAY) :: db[k]
  }

  datatype SaveError = DuplicateJti

  /** The store; each method is here one call that nothing interrupts. */
  class RefreshTokenStore {
    var rows: Db

    constructor ()
      ensures rows == map[]
    {
      rows := map[];
    }

    /** Adding a row under a digest that is already stored breaks the unique constraint. */
    method SaveRefreshToken(jti: Jti, claims: Claims, expiresAt: int, parent: Option<Jti>)
      returns (r: Result<Row, SaveError>)
      modifies this
      ensures jti in old(rows) <==> r.Err?
      ensures r.Err? ==> rows == old(rows)
      ensures r.Ok? ==> rows == old(rows)[jti := r.value] && r.value == Row(claims, expiresAt, parent, false, None)
    {
      if jti in rows {
        return Err(DuplicateJti);
      }
      var row := Row(claims, expiresAt, parent, false, None);
      rows := rows[jti := row];
      return Ok(row);
    }

    method ValidateRefreshToken(jti: Jti, now: int) returns (verdict: Verdict)
      modifies this
      ensures verdict == VerdictOf(old(rows), jti, now)
      ensures verdict == Valid <==> jti in old(rows) && IsValid(old(rows)[jti], now)
      ensures verdict == NotFound <==> jti !in old(rows)
      ensures verdict == ReuseDetected <==> jti in old(rows) && old(rows)[jti].revoked
      ensures verdict != ReuseDetected ==> rows == old(rows)
      ensures rows == Validated(old(rows), jti, now)
    {
      if jti !in rows {
        return NotFound;
      }
      if rows[jti].revoked {
        RevokeTokenChain(jti, now);
        return ReuseDetected;
      }
      if now > rows[jti].expiresAt {
        return Expired;
      }
      return Valid;
    }

    method RevokeToken(jti: Jti, now: int) returns (found: bool)
      modifies this
      ensures found <==> jti in old(rows)
      ensures rows == Revoked(old(rows), jti, now)
      ensures rows == if found then old(rows)[jti := old(rows)[jti].(revoked := true, revokedAt := Some(now))]
                      else old(rows)
    {
      if jti !in rows {
        return false;
      }
      rows := rows[jti := rows[jti].(revoked := true, revokedAt := Some(now))];
      return true;
    }

    method RevokeTokenChain(jti: Jti, now: int)
      requires jti in rows
      modifies this
      ensures rows == ChainRevoked(old(rows), jti, now)
      ensures rows.Keys == old(rows).Keys
      ensures forall k :: k in rows ==>
        var hit := k == jti || (!old(rows)[k].revoked && old(rows)[k].claims.user == old(rows)[jti].claims.user
                                && old(rows)[k].claims.client == old(rows)[jti].claims.client);
        rows[k] == if hit then old(rows)[k].(revoked := true, revokedAt := Some(now)) else old(rows)[k]
    {
      var claims := rows[jti].claims;
      rows := rows[jti := rows[jti].(revoked := true, revokedAt := Some(now))];
      var todo := LiveOf(rows, claims);
      ghost var chosen := todo;
      while todo != {}
        invariant todo <= chosen && rows.Keys == old(rows).Keys
        invariant rows == KillAll(old(rows), chosen - todo + {jti}, now)
        decreases todo
      {
        var k :| k in todo;
        rows := rows[k := rows[k].(revoked := true, revokedAt := Some(now))];
        todo := todo - {k};
      }
      assert chosen + {jti} == LiveOf(old(rows), claims) + {jti};
    }

    method CleanupExpiredTokens(now: int, daysToKeep: int) returns (count: nat)
      modifies this
      ensures rows == Cleaned(old(rows), now, daysToKeep)
      ensures forall k :: k in rows <==> k in old(rows) && old(rows)[k].expiresAt >= now - daysToKeep * 86400
      ensures forall k :: k in rows ==> rows[k] == old(rows)[k]
      ensures count == |set k | k in old(rows) && old(rows)[k].expiresAt < now - daysToKeep * 86400|
    {
      var cutoff := now - daysToKeep * DAY;
      var doomed := set k | k in rows && rows[k].expiresAt < cutoff;
      DeleteAll(doomed);
      count := |doomed|;
    }

    method DeleteAll(doomed: set<Jti>)
      requires doomed <= rows.Keys
      modifies this
      ensures rows == old(rows) - doomed && |rows| == |old(rows)| - |doomed|
    {
      var todo := doomed;
      ghost var gone: set<Jti> := {};
      while todo != {}
        invariant gone + todo == doomed
        invariant rows == old(rows) - gone
        decreases todo
      {
        var k :| k in todo;
        rows := rows - {k};
        todo, gone := todo - {k}, gone + {k};
      }
      MinusSize(old(rows), doomed);
    }
  }

  lemma MinusSize(rows: Db, doomed: set<Jti>)
    requires doomed <= rows.Keys
    ensures |rows - doomed| == |rows| - |doomed|
  {
    assert (rows - doomed).Keys == rows.Keys - doomed;
    assert |rows.Keys - doomed| == |rows.Keys| - |doomed|;
  }

  // ----- The refresh grant -----

  /** `authenticate_refresh_grant`: what the new token is signed with. `presented` is what the old one
      is signed with, `granted` that client, grant type and user pass their checks. */
  function Authenticated(presented: Claims, requestClient: Client, granted: bool): Option<Claims>
  {
    if granted && presented.client == requestClient then Some(Claims(presented.user, requestClient, presented.scope))
    else None
  }

  // ----- Concurrent requests -----

  type Req = nat

  /** Where a refresh request is between two awaits. */
  datatype Pc =
    | Idle
    | Arrived(jti: Jti)                         // the presented token is signed and not expired
    | Reused(jti: Jti, claims: Claims)          // the row was read and is revoked
    | Marking(jti: Jti, chosen: set<Jti>)       // the rows to revoke have been read, not yet committed
    | Checked(jti: Jti)                         // the row was read and is valid
    | Granted(jti: Jti, claims: Claims)         // the new token is signed
    | Rotating(jti: Jti, claims: Claims)        // the old token is revoked, the new one not yet saved

  /** An issued token: `grant` is the token of the login it descends from, `rotations` how many
      refreshes ago that was. */
  datatype Issued = Issued(claims: Claims, expiresAt: int, parent: Option<Jti>, grant: Jti, rotations: nat)

  datatype State = State(db: Db, ledger: map<Jti, Issued>, pcs: map<Req, Pc>, clock: int)

  datatype Event =
    | Issue(jti: Jti, claims: Claims, expiresAt: int, at: int)
    | Arrive(req: Req, jti: Jti, at: int)
    | Check(req: Req, at: int)
    | Select(req: Req, at: int)
    | Commit(req: Req, at: int)
    | Authenticate(req: Req, requestClient: Client, granted: bool, at: int)
    | RevokeOld(req: Req, at: int)
    | SaveNew(req: Req, jti: Jti, expiresAt: int, at: int)
    | Drop(req: Req, at: int)
    | Revoke(jti: Jti, at: int)
    | Cleanup(daysToKeep: int, at: int)

  function PcOf(s: State, r: Req): Pc
  {
    if r in s.pcs then s.pcs[r] else Idle
  }

  /** The clock does not go back, and a new jti was never issued before. */
  predicate Enabled(s: State, e: Event)
  {
    && s.clock <= e.at
    && match e
       case Issue(jti, _, _, _) => jti !in s.ledger
       case Arrive(r, _, _) => PcOf(s, r).Idle?
       case Check(r, _) => PcOf(s, r).Arrived?
       case Select(r, _) => PcOf(s, r).Reused?
       case Commit(r, _) => PcOf(s, r).Marking?
       case Authenticate(r, _, _, _) => PcOf(s, r).Checked? && PcOf(s, r).jti in s.ledger
       case RevokeOld(r, _) => PcOf(s, r).Granted?
       case SaveNew(r, jti, _, _) => PcOf(s, r).Rotating? && PcOf(s, r).jti in s.ledger && jti !in s.ledger
       case Drop(r, _) => !PcOf(s, r).Idle?
       case Revoke(_, _) => true
       case Cleanup(_, _) => true
  }

  function WithToken(s: State, jti: Jti, t: Issued): State
  {
    s.(db := s.db[jti := Row(t.claims, t.expiresAt, t.parent, false, None)], ledger := s.ledger[jti := t])
  }

  predicate Unexpired(s: State, jti: Jti, now: int)
  {
    jti in s.ledger && now <= s.ledger[jti].expiresAt
  }

  function AfterCheck(db: Db, jti: Jti, now: int): Pc
  {
    match VerdictOf(db, jti, now)
    case Valid => Checked(jti)
    case ReuseDetected => Reused(jti, db[jti].claims)
    case NotFound => Idle
    case Expired => Idle
  }

  function Next(s: State, e: Event): State
    requires Enabled(s, e)
  {
    var now := s.(clock := e.at);
    match e
    case Issue(jti, claims, exp, _) => WithToken(now, jti, Issued(claims, exp, None, jti, 0))
    case Arrive(r, jti, at) => if Unexpired(s, jti, at) then Put(now, r, Arrived(jti)) else now
    case Check(r, at) => Put(now, r, AfterCheck(s.db, PcOf(s, r).jti, at))
    case Select(r, _) => Put(now, r, Marking(PcOf(s, r).jti, LiveOf(s.db, PcOf(s, r).claims)))
    case Commit(r, at) =>
      Put(now, r, Idle).(db := KillAll(s.db, PcOf(s, r).chosen + {PcOf(s, r).jti}, at))
    case Authenticate(r, client, granted, at) =>
      var j := PcOf(s, r).jti;
      var claims := Authenticated(s.ledger[j].claims, client, granted);
      Put(now, r, if Unexpired(s, j, at) && claims.Some? then Granted(j, claims.value) else Idle)
    case RevokeOld(r, at) =>
      var pc := PcOf(s, r);
      Put(now, r, Rotating(pc.jti, pc.claims)).(db := Revoked(s.db, pc.jti, at))
    case SaveNew(r, jti, exp, _) =>
      var pc := PcOf(s, r);
      var parent := s.ledger[pc.jti];
      WithToken(Put(now, r, Idle), jti, Issued(pc.claims, exp, Some(pc.jti), parent.grant, parent.rotations + 1))
    case Drop(r, _) => Put(now, r, Idle)
    case Revoke(jti, at) => now.(db := Revoked(s.db, jti, at))
    case Cleanup(days, at) => now.(db := Cleaned(s.db, at, days))
  }

  function Put(s: State, r: Req, pc: Pc): State
  {
    s.(pcs := s.pcs[r := pc])
  }

  function Start(clock: int): State
  {
    State(map[], map[], map[], clock)
  }

  /** The request has found its token valid and not yet saved the next one. */
  predicate Holds(s: State, r: Req)
  {
    PcOf(s, r).Checked? || PcOf(s, r).Granted? || PcOf(s, r).Rotating?
  }

  /** No token is found valid while another request holds it. */
  predicate Exclusive(s: State, e: Event)
    requires Enabled(s, e)
  {
    e.Check? && VerdictOf(s.db, PcOf(s, e.req).jti, e.at).Valid? ==>
      forall r :: r in s.pcs && r != e.req && Holds(s, r) ==> PcOf(s, r).jti != PcOf(s, e.req).jti
  }

  /** Which checks a run may have: any, or only those that Exclusive allows. */
  datatype Checks = AnyChecks | ExclusiveChecks

  predicate IsRun(s: State, run: seq<Event>, checks: Checks)
    decreases run
  {
    run == [] || (Enabled(s, run[0]) && (checks.ExclusiveChecks? ==> Exclusive(s, run[0]))
                  && IsRun(Next(s, run[0]), run[1..], checks))
  }

  /** The state after a run; a step that is not enabled ends it. */
  function Final(s: State, run: seq<Event>): State
    decreases run
  {
    if run == [] || !Enabled(s, run[0]) then s else Final(Next(s, run[0]), run[1..])
  }

  lemma {:induction false} RunAppend(s: State, a: seq<Event>, b: seq<Event>, checks: Checks)
    requires IsRun(s, a, checks) && IsRun(Final(s, a), b, checks)
    ensures IsRun(s, a + b, checks) && Final(s, a + b) == Final(Final(s, a), b)
    decreases a
  {
    if a == [] {
      assert a + b == b;
    } else {
      assert (a + b)[1..] == a[1..] + b;
      RunAppend(Next(s, a[0]), a[1..], b, checks);
    }
  }

  // ----- What every step keeps -----

  predicate Live(s: State, j: Jti)
  {
    j in s.db && !s.db[j].revoked
  }

  /** A rotated token has its parent's user, client, scope and grant, and the parent is no longer live. */
  ghost predicate LineageOk(s: State, j: Jti)
    requires j in s.ledger
  {
    var t := s.ledger[j];
    && t.grant in s.ledger
    && match t.parent
       case None => t.grant == j && t.rotations == 0
       case Some(p) =>
         && p in s.ledger && !Live(s, p)
         && t.claims == s.ledger[p].claims && t.grant == s.ledger[p].grant && t.rotations == s.ledger[p].rotations + 1
  }

  /** Stored rows are as issued. */
  ghost predicate EntryOk(s: State, j: Jti)
  {
    && (j in s.db ==> j in s.ledger && s.db[j].claims == s.ledger[j].claims && s.db[j].parent == s.ledger[j].parent
                      && s.db[j].expiresAt == s.ledger[j].expiresAt)
    && (j in s.ledger ==> LineageOk(s, j))
  }

  /** A request is about an issued token; it grants what that token is signed with, an alarm
      concerns one user and client, and a token being rotated away is dead. */
  ghost predicate PcOk(s: State, r: Req)
  {
    var pc := PcOf(s, r);
    !pc.Idle? ==>
      && pc.jti in s.ledger
      && (pc.Reused? || pc.Granted? || pc.Rotating? ==> pc.claims == s.ledger[pc.jti].claims)
      && (pc.Marking? ==> forall k :: k in pc.chosen ==>
            k in s.ledger && SamePair(s.ledger[k].claims, s.ledger[pc.jti].claims))
      && (pc.Reused? || pc.Marking? || pc.Rotating? ==> !Live(s, pc.jti))
  }

  ghost predicate Inv(s: State)
  {
    (forall j :: EntryOk(s, j)) && (forall r :: PcOk(s, r))
  }

  /** Nothing issued is forgotten or changed, and what is dead stays dead. */
  lemma StepGrows(s: State, e: Event, j: Jti)
    requires Enabled(s, e) && j in s.ledger
    ensures var n := Next(s, e);
            j in n.ledger && n.ledger[j] == s.ledger[j] && (Live(n, j) ==> Live(s, j))
  {
  }

  lemma InvStep(s: State, e: Event)
    requires Inv(s) && Enabled(s, e)
    ensures Inv(Next(s, e))
  {
    forall j ensures EntryOk(Next(s, e), j) { EntryStep(s, e, j); }
    forall r ensures PcOk(Next(s, e), r) { PcStep(s, e, r); }
  }

  lemma EntryStep(s: State, e: Event, j: Jti)
    requires Inv(s) && Enabled(s, e)
    ensures EntryOk(Next(s, e), j)
  {
    assert EntryOk(s, j);
    if j in s.ledger {
      StepGrows(s, e, j);
      StepGrows(s, e, s.ledger[j].grant);
      if s.ledger[j].parent.Some? { StepGrows(s, e, s.ledger[j].parent.value); }
    } else if e.SaveNew? && j == e.jti {
      assert PcOk(s, e.req) && EntryOk(s, PcOf(s, e.req).jti);
    }
  }

  lemma PcStep(s: State, e: Event, r: Req)
    requires Inv(s) && Enabled(s, e)
    ensures PcOk(Next(s, e), r)
  {
    assert PcOk(s, r);
    var n := Next(s, e);
    var pc := PcOf(n, r);
    if !PcOf(s, r).Idle? {
      var j := PcOf(s, r).jti;
      assert EntryOk(s, j);
      StepGrows(s, e, j);
    }
    if pc.Marking? {
      forall k | k in pc.chosen
        ensures k in n.ledger && SamePair(n.ledger[k].claims, n.ledger[pc.jti].claims)
      {
        assert EntryOk(s, k);
        StepGrows(s, e, k);
      }
    }
  }

  lemma {:induction false} RunKeeps(s: State, run: seq<Event>)
    requires Inv(s) && IsRun(s, run, AnyChecks)
    ensures Inv(Final(s, run))
    ensures forall j :: j in s.ledger ==>
      j in Final(s, run).ledger && Final(s, run).ledger[j] == s.ledger[j] && (Live(Final(s, run), j) ==> Live(s, j))
    ensures s.clock <= Final(s, run).clock
    decreases run
  {
    if run != [] {
      InvStep(s, run[0]);
      RunKeeps(Next(s, run[0]), run[1..]);
      forall j | j in s.ledger
        ensures j in Final(s, run).ledger && Final(s, run).ledger[j] == s.ledger[j]
        ensures Live(Final(s, run), j) ==> Live(s, j)
      {
        StepGrows(s, run[0], j);
      }
    }
  }

  // ----- Dead stays dead -----

  /** The token was issued and would be refused now and at any later time. */
  predicate Dead(s: State, j: Jti)
  {
    j in s.ledger && (s.clock > s.ledger[j].expiresAt || !Live(s, j))
  }

  lemma DeadStep(s: State, e: Event, j: Jti)
    requires Dead(s, j) && Enabled(s, e)
    ensures Dead(Next(s, e), j)
  {
  }

  /** An answer to a presented token: an expired one is refused when it arrives, any other is
      answered by the check of its row. */
  datatype Answer = Silent | Answer(jti: Jti, known: bool, verdict: Verdict)

  function AnswerTo(s: State, e: Event): Answer
    requires Enabled(s, e)
  {
    match e
    case Arrive(_, j, at) => if j in s.ledger && !Unexpired(s, j, at) then Answer(j, true, Expired) else Silent
    case Check(r, at) => Answer(PcOf(s, r).jti, PcOf(s, r).jti in s.ledger, VerdictOf(s.db, PcOf(s, r).jti, at))
    case _ => Silent
  }

  function Answers(s: State, run: seq<Event>): (a: seq<Answer>)
    requires IsRun(s, run, AnyChecks)
    ensures |a| == |run|
    decreases run
  {
    if run == [] then [] else [AnswerTo(s, run[0])] + Answers(Next(s, run[0]), run[1..])
  }

  lemma {:induction false} DeadIsRefused(s: State, run: seq<Event>, j: Jti, k: nat)
    requires Inv(s) && Dead(s, j) && IsRun(s, run, AnyChecks) && k < |run|
    requires Answers(s, run)[k].Answer? && Answers(s, run)[k].jti == j
    ensures !Answers(s, run)[k].verdict.Valid?
    decreases run
  {
    assert EntryOk(s, j);
    if k > 0 {
      DeadStep(s, run[0], j);
      InvStep(s, run[0]);
      DeadIsRefused(Next(s, run[0]), run[1..], j, k - 1);
    }
  }

  /** However requests interleave, an issued token that is refused once is never accepted again in
      the run, whether it was revoked, expired or deleted, and also after a clean-up deletes its row. */
  lemma {:induction false} DeadStaysDead(s: State, run: seq<Event>, i: nat, k: nat)
    requires Inv(s) && IsRun(s, run, AnyChecks) && i < k < |run|
    requires var a := Answers(s, run);
             a[i].Answer? && a[k].Answer? && a[i].jti == a[k].jti && a[i].known && !a[i].verdict.Valid?
    ensures !Answers(s, run)[k].verdict.Valid?
    decreases run
  {
    var n := Next(s, run[0]);
    InvStep(s, run[0]);
    if i > 0 {
      DeadStaysDead(n, run[1..], i - 1, k - 1);
    } else {
      var j := Answers(s, run)[0].jti;
      assert EntryOk(s, j);
      assert Dead(n, j);
      DeadIsRefused(n, run[1..], j, k - 1);
    }
  }

  // ----- A token lives until something ends it -----

  /** The step does not revoke the token, and no clean-up reaches into the future. */
  predicate Harmless(s: State, e: Event, j: Jti)
    requires Enabled(s, e)
  {
    match e
    case Revoke(k, _) => k != j
    case RevokeOld(r, _) => PcOf(s, r).jti != j
    case Commit(r, _) => j !in PcOf(s, r).chosen && j != PcOf(s, r).jti
    case Cleanup(days, _) => days >= 0
    case _ => true
  }

  ghost predicate HarmlessRun(s: State, run: seq<Event>, j: Jti)
    decreases run
  {
    run == [] || (Enabled(s, run[0]) && Harmless(s, run[0], j) && HarmlessRun(Next(s, run[0]), run[1..], j))
  }

  /** An unrevoked token stays valid up to and including its expiry, and is refused after it, as long
      as no revocation, rotation or alarm that has chosen it and no early clean-up is committed. */
  lemma {:induction false} ValidUntilExpiry(s: State, run: seq<Event>, j: Jti, now: int)
    requires Inv(s) && HarmlessRun(s, run, j) && Final(s, run).clock <= now
    requires j in s.ledger && (Live(s, j) || s.clock > s.ledger[j].expiresAt)
    ensures IsRun(s, run, AnyChecks)
    ensures VerdictOf(Final(s, run).db, j, now).Valid? <==> now <= s.ledger[j].expiresAt
    decreases run
  {
    assert EntryOk(s, j);
    if run != [] {
      var n := Next(s, run[0]);
      InvStep(s, run[0]);
      StepGrows(s, run[0], j);
      ValidUntilExpiry(n, run[1..], j, now);
    } else if !Live(s, j) {
      assert now > s.ledger[j].expiresAt;
    }
  }

  // ----- Reuse revokes the chain -----

  predicate Linked(s: State, a: Jti, b: Jti)
  {
    && a in s.ledger && b in s.ledger
    && (s.ledger[a].parent == Some(b) || s.ledger[b].parent == Some(a))
  }

  /** Each token of the path is the parent or the child of the next, deleted ones included. */
  predicate IsPath(s: State, path: seq<Jti>)
  {
    && path != [] && path[0] in s.ledger
    && forall i :: 0 <= i < |path| - 1 ==> Linked(s, path[i], path[i + 1])
  }

  lemma {:induction false} PathKeepsPair(s: State, path: seq<Jti>)
    requires Inv(s) && IsPath(s, path)
    ensures path[|path| - 1] in s.ledger
    ensures s.ledger[path[0]].claims == s.ledger[path[|path| - 1]].claims
    ensures s.ledger[path[0]].grant == s.ledger[path[|path| - 1]].grant
  {
    if |path| > 1 {
      assert Linked(s, path[0], path[1]);
      assert EntryOk(s, path[0]) && EntryOk(s, path[1]);
      var rest := path[1..];
      forall i | 0 <= i < |rest| - 1
        ensures Linked(s, rest[i], rest[i + 1])
      {
        assert Linked(s, path[i + 1], path[i + 2]);
      }
      PathKeepsPair(s, rest);
    }
  }

  predicate StepOf(e: Event, r: Req)
  {
    && (e.Arrive? || e.Check? || e.Select? || e.Commit? || e.Authenticate? || e.RevokeOld? || e.SaveNew? || e.Drop?)
    && e.req == r
  }

  lemma {:induction false} OthersKeepPc(s: State, run: seq<Event>, r: Req)
    requires IsRun(s, run, AnyChecks) && forall e :: e in run ==> !StepOf(e, r)
    ensures PcOf(Final(s, run), r) == PcOf(s, r)
    decreases run
  {
    if run != [] {
      assert run[0] in run;
      OthersKeepPc(Next(s, run[0]), run[1..], r);
    }
  }

  /** Request `r` presented a revoked token and reads the chain; others run; then it commits. Every
      token issued before that reading is then dead if it is connected with the presented one by
      parents and children, deleted ones included, or just has the same user and client. The
      commit touches no token of another pair. */
  lemma ReuseRevokesChain(s: State, r: Req, readAt: int, run: seq<Event>, at: int)
    requires Inv(s) && Enabled(s, Select(r, readAt)) && IsRun(Next(s, Select(r, readAt)), run, AnyChecks)
    requires forall e :: e in run ==> !StepOf(e, r)
    requires Final(Next(s, Select(r, readAt)), run).clock <= at
    ensures var f := Final(Next(s, Select(r, readAt)), run);
            && Enabled(f, Commit(r, at)) && PcOf(s, r).jti in s.ledger
            && var n, claims := Next(f, Commit(r, at)), s.ledger[PcOf(s, r).jti].claims;
               && n.db.Keys == f.db.Keys && n.ledger == f.ledger
               && (forall path :: IsPath(s, path) && path[0] == PcOf(s, r).jti ==> !Live(n, path[|path| - 1]))
               && (forall k :: k in s.ledger && SamePair(s.ledger[k].claims, claims) ==> !Live(n, k))
               && (forall k :: k in n.db && !SamePair(n.db[k].claims, claims) ==> n.db[k] == f.db[k])
  {
    var m, j := Next(s, Select(r, readAt)), PcOf(s, r).jti;
    var f := Final(m, run);
    assert PcOk(s, r) && EntryOk(s, j);
    InvStep(s, Select(r, readAt));
    RunKeeps(m, run);
    OthersKeepPc(m, run, r);
    var n := Next(f, Commit(r, at));
    forall k | k in s.ledger && SamePair(s.ledger[k].claims, s.ledger[j].claims)
      ensures !Live(n, k)
    {
      assert EntryOk(s, k);
      assert Live(s, k) ==> k in PcOf(m, r).chosen;
      StepGrows(f, Commit(r, at), k);
    }
    forall path | IsPath(s, path) && path[0] == j
      ensures !Live(n, path[|path| - 1])
    {
      PathKeepsPair(s, path);
    }
    forall k | k in n.db && !SamePair(n.db[k].claims, s.ledger[j].claims)
      ensures n.db[k] == f.db[k]
    {
      assert EntryOk(f, k) && PcOk(f, r);
    }
  }

  // ----- Who gets a new token -----

  /** A checked request is granted a new token exactly when the checks of client, grant type and user pass,
      it comes from the client the token was issued to, and the token has not expired meanwhile. */
  lemma GrantedIff(s: State, r: Req, client: Client, granted: bool, at: int)
    requires Inv(s) && Enabled(s, Authenticate(r, client, granted, at))
    ensures var n, j := Next(s, Authenticate(r, client, granted, at)), PcOf(s, r).jti;
            && j in s.ledger && n.db == s.db && n.ledger == s.ledger
            && (PcOf(n, r).Granted? || PcOf(n, r).Idle?)
            && (PcOf(n, r).Granted? <==> granted && client == s.ledger[j].claims.client && at <= s.ledger[j].expiresAt)
            && (PcOf(n, r).Granted? ==> PcOf(n, r).jti == j && PcOf(n, r).claims == s.ledger[j].claims)
  {
    assert PcOk(s, r);
  }

  /** The step does not pass the checks for a new token in place of `j` from the client it was issued to. */
  predicate TurnsAway(s: State, e: Event, j: Jti)
    requires Enabled(s, e)
  {
    e.Authenticate? && PcOf(s, e.req).jti == j ==> !e.granted || e.requestClient != s.ledger[j].claims.client
  }

  ghost predicate TurnsAllAway(s: State, run: seq<Event>, j: Jti)
    decreases run
  {
    run == [] || (Enabled(s, run[0]) && TurnsAway(s, run[0], j) && TurnsAllAway(Next(s, run[0]), run[1..], j))
  }

  /** No request has been granted a new token in place of `j`. */
  ghost predicate NoneGranted(s: State, j: Jti)
  {
    forall r :: PcOf(s, r).Granted? || PcOf(s, r).Rotating? ==> PcOf(s, r).jti != j
  }

  lemma TurnedAwayStep(s: State, e: Event, j: Jti)
    requires Inv(s) && NoneGranted(s, j) && Enabled(s, e) && TurnsAway(s, e, j)
    ensures NoneGranted(Next(s, e), j)
    ensures forall k :: k in Next(s, e).ledger && Next(s, e).ledger[k].parent == Some(j) ==> k in s.ledger
  {
    var n := Next(s, e);
    if e.Authenticate? { GrantedIff(s, e.req, e.requestClient, e.granted, e.at); }
    forall r | PcOf(n, r).Granted? || PcOf(n, r).Rotating?
      ensures PcOf(n, r).jti != j
    {
      assert StepOf(e, r) || PcOf(n, r) == PcOf(s, r);
      assert !e.Authenticate? && StepOf(e, r) ==> e.RevokeOld?;
    }
  }

  /** A token that only other clients, or requests that fail their checks, try to redeem gets no child. */
  lemma {:induction false} NobodyElseRedeems(s: State, run: seq<Event>, j: Jti)
    requires Inv(s) && NoneGranted(s, j) && TurnsAllAway(s, run, j)
    ensures IsRun(s, run, AnyChecks)
    ensures forall k :: k in Final(s, run).ledger && Final(s, run).ledger[k].parent == Some(j) ==> k in s.ledger
    decreases run
  {
    if run != [] {
      InvStep(s, run[0]);
      TurnedAwayStep(s, run[0], j);
      NobodyElseRedeems(Next(s, run[0]), run[1..], j);
      forall k | k in Final(s, run).ledger && Final(s, run).ledger[k].parent == Some(j)
        ensures k in s.ledger
      {
        RunKeeps(Next(s, run[0]), run[1..]);
      }
    }
  }

  /** Clean-up steps delete exactly the rows that expired before the cutoff, and a dropped request is over. */
  lemma EndsOfThings(s: State, e: Event)
    requires Enabled(s, e)
    ensures e.Cleanup? ==>
      && (forall k :: k in Next(s, e).db <==> k in s.db && s.db[k].expiresAt >= e.at - e.daysToKeep * 86400)
      && (forall k :: k in Next(s, e).db ==> Next(s, e).db[k] == s.db[k])
    ensures e.Drop? ==> PcOf(Next(s, e), e.req).Idle? && Next(s, e).db == s.db && Next(s, e).ledger == s.ledger
    ensures e.Revoke? && e.jti in s.db ==> e.jti in Next(s, e).db && Next(s, e).db[e.jti].revoked
  {
  }

  // ----- When an alarm is raised -----

  /** A run in which the request does not start anew. */
  ghost predicate RunsOn(s: State, run: seq<Event>, r: Req)
  {
    IsRun(s, run, AnyChecks) && forall e :: e in run ==> !(e.Arrive? && e.req == r)
  }

  lemma {:induction false} IdleStaysIdle(s: State, run: seq<Event>, r: Req)
    requires PcOf(s, r).Idle? && RunsOn(s, run, r)
    ensures PcOf(Final(s, run), r).Idle?
    decreases run
  {
    if run != [] {
      assert run[0] in run;
      IdleStaysIdle(Next(s, run[0]), run[1..], r);
    }
  }

  /** A request that presents a stored revoked token can get as far as revoking the chain exactly when the
      token has not expired on arrival: an expired one is turned away before its row is read. */
  lemma AlarmIsRaisedIff(s: State, r: Req, j: Jti, at: int)
    requires Inv(s) && PcOf(s, r).Idle? && j in s.db && s.db[j].revoked && s.clock <= at
    ensures (exists run :: RunsOn(Next(s, Arrive(r, j, at)), run, r)
                           && PcOf(Final(Next(s, Arrive(r, j, at)), run), r).Marking?)
            <==> at <= s.db[j].expiresAt
  {
    assert EntryOk(s, j);
    var n := Next(s, Arrive(r, j, at));
    if at <= s.db[j].expiresAt {
      var n1 := Next(n, Check(r, at));
      var run := Prepend(n1, Select(r, at), [], AnyChecks);
      run := Prepend(n, Check(r, at), run, AnyChecks);
      assert RunsOn(n, run, r) && PcOf(Final(n, run), r).Marking?;
    } else {
      forall run | RunsOn(n, run, r)
        ensures PcOf(Final(n, run), r).Idle?
      {
        IdleStaysIdle(n, run, r);
      }
    }
  }

  /** Token "a" is revoked and expires at 10; presented at 11 it is turned away, and a live token of the
      same user and client stays live. */
  lemma ExpiredReuseIsNotNoticed() returns (run: seq<Event>)
    ensures IsRun(Start(0), run, AnyChecks) && run != [] && run[|run| - 1] == Arrive(1, "a", 11)
    ensures var f := Final(Start(0), run);
            && "a" in f.db && f.db["a"].revoked && PcOf(f, 1).Idle?
            && Live(f, "b") && SamePair(f.db["a"].claims, f.db["b"].claims)
  {
    var before := TwoLogins(10);
    var s := Final(Start(0), before);
    var last := Prepend(s, Arrive(1, "a", 11), [], AnyChecks);
    RunAppend(Start(0), before, last, AnyChecks);
    run := before + last;
  }

  /** Two logins of one user with one client, and the first token is revoked. */
  lemma TwoLogins(expiresAt: int) returns (run: seq<Event>)
    ensures IsRun(Start(0), run, AnyChecks)
    ensures var f, claims := Final(Start(0), run), Claims("user", "client", "");
            && f.clock == 0 && f.pcs == map[]
            && f.db == map["a" := Row(claims, expiresAt, None, true, Some(0)),
                           "b" := Row(claims, 100, None, false, None)]
            && f.ledger == map["a" := Issued(claims, expiresAt, None, "a", 0), "b" := Issued(claims, 100, None, "b", 0)]
  {
    var claims := Claims("user", "client", "");
    var s1 := Next(Start(0), Issue("a", claims, expiresAt, 0));
    var s2 := Next(s1, Issue("b", claims, 100, 0));
    run := Prepend(s2, Revoke("a", 0), [], AnyChecks);
    run := Prepend(s1, Issue("b", claims, 100, 0), run, AnyChecks);
    run := Prepend(Start(0), Issue("a", claims, expiresAt, 0), run, AnyChecks);
  }

  // ----- Whom an alarm hits -----

  /** A path of parents and children leads from one token to the other. */
  ghost predicate Connected(s: State, a: Jti, b: Jti)
  {
    exists path :: IsPath(s, path) && path[0] == a && path[|path| - 1] == b
  }

  lemma PathAppend(s: State, p: seq<Jti>, q: seq<Jti>)
    requires IsPath(s, p) && IsPath(s, q) && p[|p| - 1] == q[0]
    ensures IsPath(s, p + q[1..]) && (p + q[1..])[|p + q[1..]| - 1] == q[|q| - 1]
  {
    var path := p + q[1..];
    forall i | 0 <= i < |path| - 1
      ensures Linked(s, path[i], path[i + 1])
    {
      if i < |p| - 1 {
        assert Linked(s, p[i], p[i + 1]);
      } else {
        assert path[i + 1] == q[i + 2 - |p|] && path[i] == q[i + 1 - |p|];
        assert Linked(s, q[i + 1 - |p|], q[i + 1 - |p| + 1]);
      }
    }
  }

  lemma PathReverse(s: State, p: seq<Jti>) returns (q: seq<Jti>)
    requires IsPath(s, p)
    ensures IsPath(s, q) && q[0] == p[|p| - 1] && q[|q| - 1] == p[0]
  {
    q := seq(|p|, i requires 0 <= i < |p| => p[|p| - 1 - i]);
    forall i | 0 <= i < |q| - 1
      ensures Linked(s, q[i], q[i + 1])
    {
      assert Linked(s, p[|p| - 2 - i], p[|p| - 2 - i + 1]);
    }
    if |p| > 1 { assert Linked(s, p[|p| - 2], p[|p| - 2 + 1]); }
  }

  lemma {:induction false} PathToGrant(s: State, k: Jti) returns (path: seq<Jti>)
    requires Inv(s) && k in s.ledger
    ensures IsPath(s, path) && path[0] == k && path[|path| - 1] == s.ledger[k].grant
    decreases s.ledger[k].rotations
  {
    assert EntryOk(s, k);
    path := [k];
    if s.ledger[k].parent.Some? {
      var rest := PathToGrant(s, s.ledger[k].parent.value);
      assert Linked(s, k, rest[0]);
      forall i | 0 <= i < |rest|
        ensures Linked(s, ([k] + rest)[i], ([k] + rest)[i + 1])
      {
        if i > 0 { assert Linked(s, rest[i - 1], rest[i - 1 + 1]); }
      }
      path := [k] + rest;
    }
  }

  /** Tokens are connected exactly when they descend from the same login. */
  lemma ConnectedIffSameGrant(s: State, a: Jti, b: Jti)
    requires Inv(s) && a in s.ledger && b in s.ledger
    ensures Connected(s, a, b) <==> s.ledger[a].grant == s.ledger[b].grant
  {
    if s.ledger[a].grant == s.ledger[b].grant {
      var p := PathToGrant(s, a);
      var q := PathToGrant(s, b);
      var back := PathReverse(s, q);
      PathAppend(s, p, back);
      assert Connected(s, a, b);
    }
    if path :| IsPath(s, path) && path[0] == a && path[|path| - 1] == b {
      PathKeepsPair(s, path);
    }
  }

  /** The commit of an alarm kills a live token that is not connected with the presented one exactly when
      such a token of another login of the same user and client was among the rows it had read. */
  lemma AlarmHitsOthersIff(s: State, e: Event)
    requires Inv(s) && Enabled(s, e) && e.Commit?
    ensures var j, chosen := PcOf(s, e.req).jti, PcOf(s, e.req).chosen;
            && j in s.ledger
            && ((exists k :: Live(s, k) && !Live(Next(s, e), k) && !Connected(s, j, k))
                <==> exists k :: k in chosen && Live(s, k) && k in s.ledger && s.ledger[k].grant != s.ledger[j].grant)
  {
    var j, chosen := PcOf(s, e.req).jti, PcOf(s, e.req).chosen;
    assert PcOk(s, e.req);
    forall k | Live(s, k)
      ensures k in s.ledger && (Connected(s, j, k) <==> s.ledger[j].grant == s.ledger[k].grant)
      ensures !Live(Next(s, e), k) <==> k in chosen
    {
      assert EntryOk(s, k);
      ConnectedIffSameGrant(s, j, k);
    }
  }

  /** A user logs in twice; the first token is revoked and presented again, and the alarm ends the second
      login, which is not connected with it. */
  lemma AlarmHitsAnotherLogin() returns (before: seq<Event>, alarm: seq<Event>)
    ensures var s := Final(Start(0), before);
            && IsRun(Start(0), before, AnyChecks) && IsRun(s, alarm, AnyChecks)
            && alarm != [] && alarm[|alarm| - 1] == Commit(1, 0)
            && Live(s, "b") && !Connected(s, "a", "b") && !Live(Final(s, alarm), "b")
  {
    before := TwoLogins(100);
    var s := Final(Start(0), before);
    RunKeeps(Start(0), before);
    ConnectedIffSameGrant(s, "a", "b");
    alarm := Alarm(s, 1, "a");
  }

  // ----- When an alarm is final -----

  /** The request can still save a new token for the presented one. */
  predicate CanSave(s: State, r: Req)
  {
    var pc := PcOf(s, r);
    (pc.Checked? && Unexpired(s, pc.jti, s.clock)) || ((pc.Granted? || pc.Rotating?) && pc.jti in s.ledger)
  }

  ghost predicate NoneLive(s: State, claims: Claims)
  {
    forall k :: Live(s, k) ==> !SamePair(s.db[k].claims, claims)
  }

  ghost predicate NoneCanSave(s: State, claims: Claims)
  {
    forall r :: CanSave(s, r) ==> !SamePair(s.ledger[PcOf(s, r).jti].claims, claims)
  }

  /** The live tokens of the user and client in `f` all come from logins after `s`. */
  ghost predicate OnlyNewGrants(s: State, f: State, claims: Claims)
  {
    forall k :: Live(f, k) && k in f.ledger && SamePair(f.ledger[k].claims, claims) ==> f.ledger[k].grant !in s.ledger
  }

  ghost predicate StaysSilent(s: State, claims: Claims)
  {
    forall run :: IsRun(s, run, AnyChecks) ==> OnlyNewGrants(s, Final(s, run), claims)
  }

  /** So do the tokens that requests can still rotate. */
  ghost predicate SavesOnlyNew(s: State, f: State, claims: Claims)
  {
    forall r :: CanSave(f, r) && SamePair(f.ledger[PcOf(f, r).jti].claims, claims) ==>
      f.ledger[PcOf(f, r).jti].grant !in s.ledger
  }

  lemma SilentStep(s: State, f: State, e: Event, claims: Claims)
    requires Inv(f) && Enabled(f, e) && (forall j :: j in s.ledger ==> j in f.ledger)
    requires OnlyNewGrants(s, f, claims) && SavesOnlyNew(s, f, claims)
    ensures OnlyNewGrants(s, Next(f, e), claims) && SavesOnlyNew(s, Next(f, e), claims)
  {
    var n := Next(f, e);
    forall k | Live(n, k) && k in n.ledger && SamePair(n.ledger[k].claims, claims)
      ensures n.ledger[k].grant !in s.ledger
    {
      if k in f.ledger {
        StepGrows(f, e, k);
      } else if e.SaveNew? {
        assert PcOk(f, e.req) && CanSave(f, e.req);
      }
    }
    forall r | CanSave(n, r) && SamePair(n.ledger[PcOf(n, r).jti].claims, claims)
      ensures n.ledger[PcOf(n, r).jti].grant !in s.ledger
    {
      SaverStep(f, e, r);
    }
  }

  /** Who can save after a step could before, or has just found the token valid. */
  lemma SaverStep(s: State, e: Event, r: Req)
    requires Inv(s) && Enabled(s, e) && CanSave(Next(s, e), r)
    ensures var j := PcOf(Next(s, e), r).jti;
            && j in s.ledger && Next(s, e).ledger[j] == s.ledger[j]
            && ((CanSave(s, r) && PcOf(s, r).jti == j) || (e.Check? && Live(s, j)))
  {
    assert PcOk(s, r);
    StepGrows(s, e, PcOf(s, r).jti);
  }

  lemma {:induction false} SilentRun(s: State, f: State, run: seq<Event>, claims: Claims)
    requires Inv(f) && IsRun(f, run, AnyChecks) && (forall j :: j in s.ledger ==> j in f.ledger)
    requires OnlyNewGrants(s, f, claims) && SavesOnlyNew(s, f, claims)
    ensures OnlyNewGrants(s, Final(f, run), claims)
    decreases run
  {
    if run != [] {
      SilentStep(s, f, run[0], claims);
      InvStep(f, run[0]);
      forall j | j in s.ledger ensures j in Next(f, run[0]).ledger { StepGrows(f, run[0], j); }
      SilentRun(s, Next(f, run[0]), run[1..], claims);
    }
  }

  /** Some text is longer than all used ones. */
  lemma {:induction false} Longer(used: set<Jti>) returns (n: nat)
    ensures forall k :: k in used ==> |k| < n
    decreases used
  {
    if used == {} {
      n := 0;
    } else {
      var k :| k in used;
      var m := Longer(used - {k});
      n := if |k| < m then m else |k| + 1;
      forall x | x in used
        ensures |x| < n
      {
        assert x == k || x in used - {k};
      }
    }
  }

  lemma UnusedJti(s: State) returns (j: Jti)
    ensures j !in s.ledger
  {
    var n := Longer(s.ledger.Keys);
    j := seq(n, _ => 'x');
    assert j in s.ledger.Keys ==> |j| < n;
  }

  function StepsToSave(pc: Pc): nat
  {
    if pc.Checked? then 3 else if pc.Granted? then 2 else if pc.Rotating? then 1 else 0
  }

  /** A request that can still save does so without anyone else taking a step. */
  lemma {:induction false} Finish(s: State, r: Req, b: Jti) returns (run: seq<Event>)
    requires Inv(s) && CanSave(s, r) && b !in s.ledger
    ensures IsRun(s, run, ExclusiveChecks)
    ensures var f, j := Final(s, run), PcOf(s, r).jti;
            && Inv(f) && f.clock == s.clock && Live(f, b)
            && f.ledger == s.ledger[b := Issued(s.ledger[j].claims, s.clock, Some(j), s.ledger[j].grant,
                                                s.ledger[j].rotations + 1)]
            && PcOf(f, r).Idle? && (forall q :: q != r ==> PcOf(f, q) == PcOf(s, q))
            && (j in s.db ==> j in f.db && f.db[j].revoked)
            && (forall k :: k != b && k != j ==> (Live(f, k) <==> Live(s, k)))
    decreases StepsToSave(PcOf(s, r))
  {
    assert PcOk(s, r);
    var j := PcOf(s, r).jti;
    var e := match PcOf(s, r)
      case Checked(_) => Authenticate(r, s.ledger[j].claims.client, true, s.clock)
      case Granted(_, _) => RevokeOld(r, s.clock)
      case _ => SaveNew(r, b, s.clock, s.clock);
    InvStep(s, e);
    if PcOf(s, r).Rotating? {
      run := [e];
      assert run[1..] == [] && Final(Next(s, e), []) == Next(s, e) && IsRun(Next(s, e), [], ExclusiveChecks);
    } else {
      var rest := Finish(Next(s, e), r, b);
      run := [e] + rest;
      assert run[1..] == rest;
    }
  }

  /** A user and client have no live token from older logins in any later state exactly when they
      have none now and no request about one of their tokens can still save. */
  lemma SilentIff(s: State, claims: Claims)
    requires Inv(s)
    ensures StaysSilent(s, claims) <==> NoneLive(s, claims) && NoneCanSave(s, claims)
  {
    if NoneLive(s, claims) && NoneCanSave(s, claims) {
      forall run | IsRun(s, run, AnyChecks)
        ensures OnlyNewGrants(s, Final(s, run), claims)
      {
        forall k | Live(s, k) ensures EntryOk(s, k) {}
        SilentRun(s, s, run, claims);
      }
    } else {
      var run := Loud(s, claims);
      assert IsRun(s, run, AnyChecks) && !OnlyNewGrants(s, Final(s, run), claims);
    }
  }

  lemma Loud(s: State, claims: Claims) returns (run: seq<Event>)
    requires Inv(s) && !(NoneLive(s, claims) && NoneCanSave(s, claims))
    ensures IsRun(s, run, AnyChecks) && !OnlyNewGrants(s, Final(s, run), claims)
  {
    if !NoneLive(s, claims) {
      var k :| Live(s, k) && SamePair(s.db[k].claims, claims);
      assert EntryOk(s, k);
      run := [];
    } else {
      var r :| CanSave(s, r) && SamePair(s.ledger[PcOf(s, r).jti].claims, claims);
      var b := UnusedJti(s);
      run := Finish(s, r, b);
      ExclusiveIsRun(s, run);
      assert EntryOk(s, PcOf(s, r).jti) && Live(Final(s, run), b);
    }
  }

  /** An alarm that commits leaves the user and client without a live token of an older login, now
      and in all later states, exactly when it had read all their live tokens and no request
      about one of their tokens is between its check and its save. */
  lemma AlarmIsFinalIff(s: State, e: Event)
    requires Inv(s) && Enabled(s, e) && e.Commit?
    ensures var pc := PcOf(s, e.req);
            && pc.jti in s.ledger
            && var claims := s.ledger[pc.jti].claims;
               StaysSilent(Next(s, e), claims) <==>
                 (LiveOf(s.db, claims) <= pc.chosen && NoneCanSave(Next(s, e), claims))
  {
    var pc := PcOf(s, e.req);
    assert PcOk(s, e.req);
    var claims, n := s.ledger[pc.jti].claims, Next(s, e);
    InvStep(s, e);
    SilentIff(n, claims);
    if LiveOf(s.db, claims) <= pc.chosen {
      forall k | Live(n, k) ensures !SamePair(n.db[k].claims, claims) {
        assert k !in pc.chosen && k in s.db;
      }
    } else {
      var k :| k in LiveOf(s.db, claims) && k !in pc.chosen;
      assert Live(n, k) && SamePair(n.db[k].claims, claims);
    }
  }

  // ----- One live token per grant -----

  lemma {:induction false} ExclusiveIsRun(s: State, run: seq<Event>)
    requires IsRun(s, run, ExclusiveChecks)
    ensures IsRun(s, run, AnyChecks)
    decreases run
  {
    if run != [] { ExclusiveIsRun(Next(s, run[0]), run[1..]); }
  }

  predicate SameParent(s: State, j: Jti, k: Jti)
  {
    && j in s.ledger && k in s.ledger
    && s.ledger[j].parent.Some? && s.ledger[j].parent == s.ledger[k].parent
  }

  ghost predicate OneChild(s: State)
  {
    forall j, k :: SameParent(s, j, k) ==> j == k
  }

  ghost predicate OneLivePerGrant(s: State)
  {
    forall a, b :: Live(s, a) && Live(s, b) && a in s.ledger && b in s.ledger && s.ledger[a].grant == s.ledger[b].grant
      ==> a == b
  }

  /** A held token has one holder and no child. */
  ghost predicate Solo(s: State)
  {
    && (forall r, q :: Holds(s, r) && Holds(s, q) && PcOf(s, r).jti == PcOf(s, q).jti ==> r == q)
    && (forall r, k :: Holds(s, r) && k in s.ledger ==> s.ledger[k].parent != Some(PcOf(s, r).jti))
    && OneChild(s)
  }

  lemma SoloStep(s: State, e: Event)
    requires Inv(s) && Solo(s) && Enabled(s, e) && Exclusive(s, e)
    ensures Solo(Next(s, e))
  {
    var n := Next(s, e);
    forall r, q | Holds(n, r) && Holds(n, q) && PcOf(n, r).jti == PcOf(n, q).jti
      ensures r == q
    {
      HolderStep(s, e, r);
      HolderStep(s, e, q);
    }
    forall r, k | Holds(n, r) && k in n.ledger
      ensures n.ledger[k].parent != Some(PcOf(n, r).jti)
    {
      HolderStep(s, e, r);
      assert PcOk(s, r) && EntryOk(s, k);
    }
    forall j, k | SameParent(n, j, k)
      ensures j == k
    {
      assert EntryOk(s, j) && EntryOk(s, k);
      assert j in s.ledger && k in s.ledger ==> SameParent(s, j, k);
    }
  }

  /** Who holds a token after a step did before, or has just found it valid. */
  lemma HolderStep(s: State, e: Event, r: Req)
    requires Enabled(s, e) && Holds(Next(s, e), r)
    ensures var j := PcOf(Next(s, e), r).jti;
            || (Holds(s, r) && PcOf(s, r).jti == j && !(e.SaveNew? && e.req == r))
            || (e.Check? && e.req == r && PcOf(s, r).jti == j && VerdictOf(s.db, j, e.at).Valid?)
  {
  }

  lemma {:induction false} ExclusiveKeeps(s: State, run: seq<Event>)
    requires Inv(s) && Solo(s) && IsRun(s, run, ExclusiveChecks)
    ensures Inv(Final(s, run)) && Solo(Final(s, run)) && OneLivePerGrant(Final(s, run))
    decreases run
  {
    if run == [] {
      SoloIsOneLive(s);
    } else {
      InvStep(s, run[0]);
      SoloStep(s, run[0]);
      ExclusiveKeeps(Next(s, run[0]), run[1..]);
    }
  }

  lemma {:induction false} SamePlaceSameToken(s: State, a: Jti, b: Jti)
    requires Inv(s) && OneChild(s) && a in s.ledger && b in s.ledger
    requires s.ledger[a].grant == s.ledger[b].grant && s.ledger[a].rotations == s.ledger[b].rotations
    ensures a == b
    decreases s.ledger[a].rotations
  {
    assert EntryOk(s, a) && EntryOk(s, b);
    if s.ledger[a].parent.Some? {
      SamePlaceSameToken(s, s.ledger[a].parent.value, s.ledger[b].parent.value);
      assert SameParent(s, a, b);
    }
  }

  /** An earlier token of the same grant has been rotated away. */
  lemma {:induction false} EarlierIsDead(s: State, a: Jti, b: Jti)
    requires Inv(s) && OneChild(s) && a in s.ledger && b in s.ledger
    requires s.ledger[a].grant == s.ledger[b].grant && s.ledger[a].rotations < s.ledger[b].rotations
    ensures !Live(s, a)
    decreases s.ledger[b].rotations
  {
    assert EntryOk(s, b);
    var p := s.ledger[b].parent.value;
    if s.ledger[a].rotations == s.ledger[p].rotations {
      SamePlaceSameToken(s, a, p);
    } else {
      EarlierIsDead(s, a, p);
    }
  }

  lemma SoloIsOneLive(s: State)
    requires Inv(s) && OneChild(s)
    ensures OneLivePerGrant(s)
  {
    forall a, b | Live(s, a) && Live(s, b) && a in s.ledger && b in s.ledger && s.ledger[a].grant == s.ledger[b].grant
      ensures a == b
    {
      if s.ledger[a].rotations < s.ledger[b].rotations {
        EarlierIsDead(s, a, b);
      } else if s.ledger[b].rotations < s.ledger[a].rotations {
        EarlierIsDead(s, b, a);
      } else {
        SamePlaceSameToken(s, a, b);
      }
    }
  }

  /** In every run in which no token is found valid while another request holds it, no token has
      two children and each grant has at most one live token. */
  lemma OneLiveTokenPerGrant(clock: int, run: seq<Event>)
    requires IsRun(Start(clock), run, ExclusiveChecks)
    ensures var f := Final(Start(clock), run); Inv(f) && OneChild(f) && OneLivePerGrant(f)
  {
    ExclusiveKeeps(Start(clock), run);
  }

  /** Two requests that hold the same token both rotate it. */
  lemma BothRotate(s: State, r: Req, q: Req) returns (run: seq<Event>)
    requires Inv(s) && r != q && CanSave(s, r) && CanSave(s, q) && PcOf(s, r).jti == PcOf(s, q).jti
    ensures IsRun(s, run, ExclusiveChecks) && !OneChild(Final(s, run)) && !OneLivePerGrant(Final(s, run))
  {
    var b := UnusedJti(s);
    var first := Finish(s, r, b);
    var m := Final(s, first);
    assert PcOk(s, q);
    var c := UnusedJti(m);
    var second := Finish(m, q, c);
    RunAppend(s, first, second, ExclusiveChecks);
    run := first + second;
    var f := Final(s, run);
    assert Live(f, b) && Live(f, c) && b != c;
    assert SameParent(f, b, c);
  }

  /** Letting a request find a token valid keeps "no token has two children" and "each grant has one
      live token" for all later runs, without another such step, exactly when no other request
      holds that token. */
  lemma CheckIsSafeIff(s: State, e: Event)
    requires Inv(s) && Solo(s) && Enabled(s, e) && e.Check?
    ensures Exclusive(s, e) <==>
            forall run :: IsRun(Next(s, e), run, ExclusiveChecks) ==> OneLivePerGrant(Final(Next(s, e), run))
    ensures Exclusive(s, e) <==>
            forall run :: IsRun(Next(s, e), run, ExclusiveChecks) ==> OneChild(Final(Next(s, e), run))
  {
    var n := Next(s, e);
    InvStep(s, e);
    if Exclusive(s, e) {
      SoloStep(s, e);
      forall run | IsRun(n, run, ExclusiveChecks)
        ensures OneLivePerGrant(Final(n, run)) && OneChild(Final(n, run))
      {
        ExclusiveKeeps(n, run);
      }
    } else {
      var j := PcOf(s, e.req).jti;
      var r :| r in s.pcs && r != e.req && Holds(s, r) && PcOf(s, r).jti == j;
      assert EntryOk(s, j) && PcOk(s, r);
      var run := BothRotate(n, r, e.req);
      assert IsRun(n, run, ExclusiveChecks) && !OneLivePerGrant(Final(n, run)) && !OneChild(Final(n, run));
    }
  }

  // ----- Runs in which rotation fails -----

  lemma Prepend(s: State, e: Event, rest: seq<Event>, checks: Checks) returns (run: seq<Event>)
    requires Enabled(s, e) && (checks.ExclusiveChecks? ==> Exclusive(s, e)) && IsRun(Next(s, e), rest, checks)
    ensures IsRun(s, run, checks) && Final(s, run) == Final(Next(s, e), rest)
    ensures run == [e] + rest
  {
    run := [e] + rest;
    assert run[1..] == rest;
  }

  /** Two requests check the same token before either revokes it: both of its children live. */
  lemma TokenForks() returns (run: seq<Event>)
    ensures IsRun(Start(0), run, AnyChecks) && !OneChild(Final(Start(0), run)) && !OneLivePerGrant(Final(Start(0), run))
  {
    var s0 := Start(0);
    var s1 := Next(s0, Issue("a", Claims("user", "client", ""), 100, 0));
    var s2 := Next(s1, Arrive(1, "a", 0));
    var s3 := Next(s2, Arrive(2, "a", 0));
    var s4 := Next(s3, Check(1, 0));
    var s5 := Next(s4, Check(2, 0));
    InvStep(s0, Issue("a", Claims("user", "client", ""), 100, 0));
    InvStep(s1, Arrive(1, "a", 0));
    InvStep(s2, Arrive(2, "a", 0));
    InvStep(s3, Check(1, 0));
    InvStep(s4, Check(2, 0));
    run := BothRotate(s5, 1, 2);
    ExclusiveIsRun(s5, run);
    run := Prepend(s4, Check(2, 0), run, AnyChecks);
    run := Prepend(s3, Check(1, 0), run, AnyChecks);
    run := Prepend(s2, Arrive(2, "a", 0), run, AnyChecks);
    run := Prepend(s1, Arrive(1, "a", 0), run, AnyChecks);
    run := Prepend(s0, Issue("a", Claims("user", "client", ""), 100, 0), run, AnyChecks);
  }

  /** Presenting a revoked token that has not expired raises the alarm. */
  lemma Alarm(s: State, r: Req, j: Jti) returns (run: seq<Event>)
    requires PcOf(s, r).Idle? && j in s.db && s.db[j].revoked && Unexpired(s, j, s.clock)
    ensures IsRun(s, run, AnyChecks) && run != [] && run[|run| - 1] == Commit(r, s.clock)
    ensures var f := Final(s, run);
            && f.db == ChainRevoked(s.db, j, s.clock) && f.ledger == s.ledger && f.clock == s.clock
            && forall q :: q != r ==> PcOf(f, q) == PcOf(s, q)
  {
    var s1 := Next(s, Arrive(r, j, s.clock));
    var s2 := Next(s1, Check(r, s.clock));
    var s3 := Next(s2, Select(r, s.clock));
    run := Prepend(s3, Commit(r, s.clock), [], AnyChecks);
    run := Prepend(s2, Select(r, s.clock), run, AnyChecks);
    run := Prepend(s1, Check(r, s.clock), run, AnyChecks);
    run := Prepend(s, Arrive(r, j, s.clock), run, AnyChecks);
  }

  /** A live token that has not expired is found valid. */
  lemma FoundValid(s: State, r: Req, j: Jti) returns (run: seq<Event>)
    requires Inv(s) && PcOf(s, r).Idle? && Live(s, j) && Unexpired(s, j, s.clock)
    ensures IsRun(s, run, AnyChecks)
    ensures Final(s, run) == s.(pcs := Final(s, run).pcs) && PcOf(Final(s, run), r) == Checked(j)
    ensures forall q :: q != r ==> PcOf(Final(s, run), q) == PcOf(s, q)
  {
    assert EntryOk(s, j);
    var s1 := Next(s, Arrive(r, j, s.clock));
    run := Prepend(s1, Check(r, s.clock), [], AnyChecks);
    run := Prepend(s, Arrive(r, j, s.clock), run, AnyChecks);
  }

  /** Token "z" is rotated to "a". Request 1 checks "a"; request 2 presents "z" again and its alarm
      revokes everything of the pair; request 1 goes on and saves a live descendant. */
  lemma AlarmComesTooLate() returns (alarm: seq<Event>, rest: seq<Event>)
    ensures IsRun(Start(0), alarm, AnyChecks) && alarm != [] && alarm[|alarm| - 1] == Commit(2, 0)
    ensures var s := Final(Start(0), alarm);
            && NoneLive(s, Claims("user", "client", "")) && IsRun(s, rest, AnyChecks)
            && !OnlyNewGrants(s, Final(s, rest), Claims("user", "client", ""))
  {
    var rotate := RotateOnce();
    var s := Final(Start(0), rotate);
    RunKeeps(Start(0), rotate);
    var check := FoundValid(s, 1, "a");
    var m := Final(s, check);
    var last := Alarm(m, 2, "z");
    RunAppend(s, check, last, AnyChecks);
    RunAppend(Start(0), rotate, check + last, AnyChecks);
    alarm := rotate + (check + last);
    RunKeeps(Start(0), alarm);
    assert CanSave(Final(Start(0), alarm), 1) && EntryOk(s, "z");
    rest := Loud(Final(Start(0), alarm), Claims("user", "client", ""));
  }

  lemma RotateOnce() returns (run: seq<Event>)
    ensures IsRun(Start(0), run, AnyChecks)
    ensures var s := Final(Start(0), run);
            && Live(s, "a") && "z" in s.db && s.db["z"].revoked && PcOf(s, 1).Idle? && PcOf(s, 2).Idle? && s.clock == 0
            && Unexpired(s, "z", 0) && Unexpired(s, "a", 0)
            && s.ledger["z"].claims == Claims("user", "client", "") && s.ledger["a"].claims == s.ledger["z"].claims
  {
    var issue := Issue("z", Claims("user", "client", ""), 100, 0);
    var s := Next(Start(0), issue);
    InvStep(Start(0), issue);
    var check := FoundValid(s, 1, "z");
    RunKeeps(s, check);
    var m := Final(s, check);
    var finish := Finish(m, 1, "a");
    ExclusiveIsRun(m, finish);
    RunAppend(s, check, finish, AnyChecks);
    run := Prepend(Start(0), issue, check + finish, AnyChecks);
  }
}

/** Refresh token rotation: each token is single use, and all tokens that descend from one login share
    a family, which is revoked as a whole when a used token comes back. */
module Tokens {
  import opened Wrappers
  import opened Sets

  /** One row of refresh_tokens. */
  datatype Token = Token(user: int, family: int, expiresAt: int, used: bool, revoked: bool)

  type Rows = map<int, Token>

  datatype Error = InvalidToken | TokenReused | TokenExpired | Failed

  // ------------------------------------------------------------------------------------- the queries

  predicate Claimable(rows: Rows, hash: int, now: int) {
    hash in rows && !rows[hash].used && !rows[hash].revoked && rows[hash].expiresAt > now
  }

  function Created(rows: Rows, hash: int, user: int, family: int, expiresAt: int): Rows {
    rows[hash := Token(user, family, expiresAt, false, false)]
  }

  function Claimed(rows: Rows, hash: int): Rows
    requires hash in rows
  {
    rows[hash := rows[hash].(used := true)]
  }

  function FamilyRevoked(rows: Rows, family: int): Rows {
    map h | h in rows :: if rows[h].family == family then rows[h].(revoked := true) else rows[h]
  }

  function ExpiredDeleted(rows: Rows, now: int): Rows {
    map h | h in rows && !(rows[h].expiresAt < now) :: rows[h]
  }

  // ------------------------------------------------------------------------------- the protocol's runs

  /** The table, and what only the past knows: the hashes and families ever handed out, the claims in
      the order they were committed, each with the token it made, and the families that were ended. */
  datatype State = State(now: int, rows: Rows, issued: set<int>, families: set<int>, claims: seq<Claim>, ended: set<int>)

  datatype Claim = Claim(token: int, family: int, successor: int)

  datatype Step =
    | Tick(to: int)
    | SignIn(user: int, hash: int, family: int, expiresAt: int)
    | Refresh(hash: int, newHash: int, expiresAt: int)
    | Logout(hash: int)
    | Cleanup
    | Fault

  ghost predicate Init(s: State) {
    s.rows == map[] && s.issued == {} && s.families == {} && s.claims == [] && s.ended == {}
  }

  /** Whether a refresh commits a claim, and of which family. */
  predicate Claims(s: State, step: Step, family: int) {
    step.Refresh? && Claimable(s.rows, step.hash, s.now) && s.rows[step.hash].family == family
  }

  /** A family is over once one of its recorded used tokens comes back or it is logged out. */
  predicate Ends(s: State, step: Step, family: int) {
    || (step.Refresh? && step.hash in s.rows && s.rows[step.hash].used && s.rows[step.hash].family == family)
    || (step.Logout? && step.hash in s.rows && s.rows[step.hash].family == family)
  }

  /** New tokens and families are random, so never seen before. */
  ghost predicate Next(s: State, step: Step, t: State) {
    match step
    case Tick(to) => s.now <= to && t == s.(now := to)
    case SignIn(user, hash, family, expiresAt) =>
      && hash !in s.issued && family !in s.families
      && t == s.(rows := Created(s.rows, hash, user, family, expiresAt),
                 issued := s.issued + {hash}, families := s.families + {family})
    case Refresh(hash, newHash, expiresAt) =>
      && newHash !in s.issued
      && if Claimable(s.rows, hash, s.now) then
           var token := s.rows[hash];
           t == s.(rows := Created(Claimed(s.rows, hash), newHash, token.user, token.family, expiresAt),
                   issued := s.issued + {newHash},
                   claims := s.claims + [Claim(hash, token.family, newHash)])
         else if hash in s.rows && s.rows[hash].used then
           t == s.(rows := FamilyRevoked(s.rows, s.rows[hash].family), ended := s.ended + {s.rows[hash].family})
         else t == s
    case Logout(hash) =>
      if hash in s.rows then
        t == s.(rows := FamilyRevoked(s.rows, s.rows[hash].family), ended := s.ended + {s.rows[hash].family})
      else t == s
    case Cleanup => t == s.(rows := ExpiredDeleted(s.rows, s.now))
    case Fault => t == s
  }

  ghost predicate Path(states: seq<State>, steps: seq<Step>) {
    && |states| == |steps| + 1
    && forall i | 0 <= i < |steps| :: Next(states[i], steps[i], states[i + 1])
  }

  predicate Live(rows: Rows, hash: int) {
    hash in rows && !rows[hash].used && !rows[hash].revoked
  }

  /** At most one token of a family can still be claimed. */
  ghost predicate OneLive(rows: Rows) {
    forall g, h | Live(rows, g) && Live(rows, h) && rows[g].family == rows[h].family :: g == h
  }

  /** No token is claimed twice, and every claim made one token of its own, of the same family. */
  ghost predicate ClaimedOnce(claims: seq<Claim>) {
    && (forall i, j | 0 <= i < j < |claims| :: claims[i].token != claims[j].token)
    && (forall i, j | 0 <= i < j < |claims| :: claims[i].successor != claims[j].successor)
  }

  ghost predicate Inv(s: State) {
    && (forall h | h in s.rows :: h in s.issued && s.rows[h].family in s.families)
    && OneLive(s.rows)
    && (forall h | Live(s.rows, h) :: s.rows[h].family !in s.ended)
    && s.ended <= s.families
    && ClaimedOnce(s.claims)
    && (forall i | 0 <= i < |s.claims| :: ClaimKnown(s, s.claims[i]))
  }

  /** A claimed token, as long as it is recorded, is recorded as used. */
  predicate ClaimKnown(s: State, c: Claim) {
    && c.token in s.issued && c.successor in s.issued
    && (c.token in s.rows ==> s.rows[c.token].used && s.rows[c.token].family == c.family)
    && (c.successor in s.rows ==> s.rows[c.successor].family == c.family)
  }

  lemma NextKeeps(s: State, step: Step, t: State)
    requires Inv(s) && Next(s, step, t)
    ensures Inv(t)
  {
    forall i | 0 <= i < |t.claims|
      ensures ClaimKnown(t, t.claims[i])
    {
      if i < |s.claims| {
        assert ClaimKnown(s, s.claims[i]);
      }
    }
    forall h | Live(t.rows, h)
      ensures t.rows[h].family !in t.ended
    {
      if step.Refresh? && Claimable(s.rows, step.hash, s.now) && h == step.newHash {
        assert Live(s.rows, step.hash);
      } else if !step.SignIn? || h != step.hash {
        assert Live(s.rows, h);
      }
    }
    LiveKeeps(s, step, t);
    ClaimsKeep(s, step, t);
  }

  lemma LiveKeeps(s: State, step: Step, t: State)
    requires Inv(s) && Next(s, step, t)
    ensures OneLive(t.rows)
  {
    forall g, h | Live(t.rows, g) && Live(t.rows, h) && t.rows[g].family == t.rows[h].family
      ensures g == h
    {
      if step.Refresh? && Claimable(s.rows, step.hash, s.now) {
        assert Live(s.rows, step.hash);
        assert g == step.newHash || Live(s.rows, g);
        assert h == step.newHash || Live(s.rows, h);
      } else if step.SignIn? {
        assert g == step.hash || Live(s.rows, g);
        assert h == step.hash || Live(s.rows, h);
      } else {
        assert Live(s.rows, g) && Live(s.rows, h);
      }
    }
  }

  lemma ClaimsKeep(s: State, step: Step, t: State)
    requires Inv(s) && Next(s, step, t)
    ensures ClaimedOnce(t.claims)
  {
    if step.Refresh? && Claimable(s.rows, step.hash, s.now) {
      forall i | 0 <= i < |s.claims|
        ensures s.claims[i].token != step.hash && s.claims[i].successor != step.newHash
      {
        assert ClaimKnown(s, s.claims[i]);
      }
    }
  }

  lemma {:induction false} PathKeeps(states: seq<State>, steps: seq<Step>)
    requires Path(states, steps) && Inv(states[0])
    ensures Inv(states[|steps|])
  {
    if steps != [] {
      var n := |steps| - 1;
      PathKeeps(states[..n + 1], steps[..n]);
      NextKeeps(states[n], steps[n], states[n + 1]);
    }
  }

  /** In every run, each family has at most one token that could still be claimed, no token has been
      claimed twice, and no two claims made the same token. */
  lemma RotationIsSingleUse(states: seq<State>, steps: seq<Step>)
    requires Path(states, steps) && Init(states[0])
    ensures OneLive(states[|steps|].rows) && ClaimedOnce(states[|steps|].claims)
  {
    PathKeeps(states, steps);
  }

  /** The claims are exactly the refreshes that committed one: such a step adds one claim, of the token it
      presented, uses that token up and makes one row, its live successor; no other refresh, and nothing but
      a sign-in, makes a row or a claim. */
  lemma ClaimsAreRecorded(s: State, step: Step, t: State, family: int)
    requires Inv(s) && Next(s, step, t)
    ensures Claims(s, step, family) ==>
              && t.claims == s.claims + [Claim(step.hash, family, step.newHash)]
              && step.newHash !in s.rows && t.rows.Keys == s.rows.Keys + {step.newHash}
              && Live(t.rows, step.newHash) && t.rows[step.newHash].family == family
              && t.rows[step.hash] == s.rows[step.hash].(used := true)
              && forall h | h in s.rows && h != step.hash :: t.rows[h] == s.rows[h]
    ensures !(exists f :: Claims(s, step, f)) ==> t.claims == s.claims && (step.SignIn? || t.rows.Keys <= s.rows.Keys)
  {
    if step.Refresh? && Claimable(s.rows, step.hash, s.now) {
      assert Claims(s, step, s.rows[step.hash].family);
    }
  }

  lemma {:induction false} EndedStays(states: seq<State>, steps: seq<Step>, i: nat, j: nat, family: int)
    requires Path(states, steps) && i <= j <= |steps|
    requires family in states[i].ended
    ensures family in states[j].ended
    decreases j
  {
    if i < j {
      EndedStays(states, steps, i, j - 1, family);
      assert Next(states[j - 1], steps[j - 1], states[j]);
    }
  }

  /** Once a recorded used token is presented again, or a family is logged out, no token of that family
      is ever claimed again, whatever else happens. */
  lemma EndedForEver(states: seq<State>, steps: seq<Step>, i: nat, j: nat, family: int)
    requires Path(states, steps) && Init(states[0])
    requires i < j < |steps| && Ends(states[i], steps[i], family)
    ensures !Claims(states[j], steps[j], family)
  {
    assert Next(states[i], steps[i], states[i + 1]);
    EndedStays(states, steps, i + 1, j, family);
    assert Path(states[..j + 1], steps[..j]);
    PathKeeps(states[..j + 1], steps[..j]);
    if Claims(states[j], steps[j], family) {
      assert Live(states[j].rows, steps[j].hash);
    }
  }

  // --------------------------------------------------------------------- what a token may be relied on for

  /** A family's end is nobody else's: it revokes that family's rows, changes nothing else about them, and
      leaves every other row alone. */
  lemma EndingTouchesOneFamily(s: State, step: Step, t: State, family: int, hash: int)
    requires Next(s, step, t) && Ends(s, step, family) && hash in s.rows
    ensures hash in t.rows && t.rows.Keys == s.rows.Keys
    ensures s.rows[hash].family != family ==> t.rows[hash] == s.rows[hash]
    ensures s.rows[hash].family == family ==>
              t.rows[hash].revoked && t.rows[hash].(revoked := false) == s.rows[hash].(revoked := false)
  {
  }

  /** Clearing up takes the rows past their expiry, and no other. */
  lemma CleanupTakesTheExpired(s: State, t: State, hash: int)
    requires Next(s, Cleanup, t)
    ensures hash in t.rows <==> hash in s.rows && s.rows[hash].expiresAt >= s.now
    ensures hash in t.rows ==> t.rows[hash] == s.rows[hash]
  {
  }

  /** A step that gives out a token, of a family and until an instant. */
  predicate Gives(s: State, step: Step, hash: int, family: int, expiresAt: int) {
    match step
    case SignIn(_, h, f, x) => h == hash && f == family && x == expiresAt
    case Refresh(_, h, x) => h == hash && x == expiresAt && Claims(s, step, family)
    case _ => false
  }

  /** A step that takes it back: its own claim, or the end of its family. */
  predicate Takes(s: State, step: Step, hash: int, family: int) {
    (Claims(s, step, family) && step.hash == hash) || Ends(s, step, family)
  }

  predicate Held(rows: Rows, hash: int, family: int, expiresAt: int) {
    hash in rows && rows[hash] == Token(rows[hash].user, family, expiresAt, false, false)
  }

  lemma GivenIsHeld(s: State, step: Step, t: State, hash: int, family: int, expiresAt: int)
    requires Next(s, step, t) && Gives(s, step, hash, family, expiresAt)
    ensures Held(t.rows, hash, family, expiresAt)
  {
  }

  lemma HeldStays(s: State, step: Step, t: State, hash: int, family: int, expiresAt: int)
    requires Inv(s) && Next(s, step, t) && Held(s.rows, hash, family, expiresAt) && s.now <= expiresAt
    requires !Takes(s, step, hash, family)
    ensures Held(t.rows, hash, family, expiresAt) && t.rows[hash].user == s.rows[hash].user
  {
    assert hash in s.issued;
  }

  lemma InvAt(states: seq<State>, steps: seq<Step>, j: nat)
    requires Path(states, steps) && Init(states[0]) && j <= |steps|
    ensures Inv(states[j])
  {
    assert Path(states[..j + 1], steps[..j]);
    PathKeeps(states[..j + 1], steps[..j]);
  }

  lemma {:induction false} ClockAdvances(states: seq<State>, steps: seq<Step>, i: nat, j: nat)
    requires Path(states, steps) && i <= j <= |steps|
    ensures states[i].now <= states[j].now
    decreases j
  {
    if i < j {
      ClockAdvances(states, steps, i, j - 1);
      assert Next(states[j - 1], steps[j - 1], states[j]);
    }
  }

  /** A token that was given out can be claimed at any time before it expires, unless it has been claimed or
      its family ended in between: whatever else goes on, other families' ends included, nobody is signed
      out. */
  lemma {:induction false} TokenLasts(states: seq<State>, steps: seq<Step>, i: nat, j: nat, hash: int, family: int, expiresAt: int)
    requires Path(states, steps) && Init(states[0]) && i < j <= |steps|
    requires Gives(states[i], steps[i], hash, family, expiresAt) && states[j].now < expiresAt
    requires forall m {:trigger steps[m]} | i < m < j :: !Takes(states[m], steps[m], hash, family)
    ensures Held(states[j].rows, hash, family, expiresAt) && Claimable(states[j].rows, hash, states[j].now)
    decreases j
  {
    if j == i + 1 {
      GivenIsHeld(states[i], steps[i], states[j], hash, family, expiresAt);
    } else {
      ClockAdvances(states, steps, j - 1, j);
      TokenLasts(states, steps, i, j - 1, hash, family, expiresAt);
      InvAt(states, steps, j - 1);
      HeldStays(states[j - 1], steps[j - 1], states[j], hash, family, expiresAt);
    }
  }

  /** A claimed token stays known as used until it would have expired, so that it is recognised when it comes
      back. */
  lemma {:induction false} ClaimedIsRemembered(states: seq<State>, steps: seq<Step>, i: nat, j: nat, family: int)
    requires Path(states, steps) && Init(states[0]) && i < j <= |steps| && Claims(states[i], steps[i], family)
    requires states[j].now <= states[i].rows[steps[i].hash].expiresAt
    ensures var hash := steps[i].hash;
            && hash in states[j].rows && states[j].rows[hash].used && states[j].rows[hash].family == family
            && states[j].rows[hash].expiresAt == states[i].rows[hash].expiresAt
    decreases j
  {
    if j == i + 1 {
      InvAt(states, steps, i);
      assert Next(states[i], steps[i], states[j]) && steps[i].hash in states[i].issued;
    } else {
      ClockAdvances(states, steps, j - 1, j);
      ClaimedIsRemembered(states, steps, i, j - 1, family);
      InvAt(states, steps, j - 1);
      UsedStays(states[j - 1], steps[j - 1], states[j], steps[i].hash);
    }
  }

  lemma UsedStays(s: State, step: Step, t: State, hash: int)
    requires Inv(s) && Next(s, step, t) && hash in s.rows && s.rows[hash].used && s.now <= s.rows[hash].expiresAt
    ensures hash in t.rows && t.rows[hash].used && t.rows[hash].family == s.rows[hash].family
    ensures t.rows[hash].expiresAt == s.rows[hash].expiresAt
  {
    assert hash in s.issued;
  }

  /** The sign-in a family began with. */
  predicate Began(step: Step, family: int, user: int) {
    step.SignIn? && step.family == family && step.user == user
  }

  ghost predicate BeganBefore(steps: seq<Step>, j: nat, family: int, user: int)
    requires j <= |steps|
  {
    exists k :: 0 <= k < j && Began(steps[k], family, user)
  }

  /** Whoever presents a token of a family is the user who signed in to begin it. */
  lemma {:induction false} TokenIsOfSignIn(states: seq<State>, steps: seq<Step>, j: nat, hash: int)
    requires Path(states, steps) && Init(states[0]) && j <= |steps| && hash in states[j].rows
    ensures BeganBefore(steps, j, states[j].rows[hash].family, states[j].rows[hash].user)
    decreases j
  {
    if j > 0 {
      var s, step, t := states[j - 1], steps[j - 1], states[j];
      assert Next(s, step, t);
      if step.SignIn? && step.hash == hash {
        assert Began(steps[j - 1], t.rows[hash].family, t.rows[hash].user);
      } else {
        var of := if hash in s.rows then hash else step.hash;
        InvAt(states, steps, j - 1);
        RowsFromRows(s, step, t, hash, of);
        TokenIsOfSignIn(states, steps, j - 1, of);
        BeganStays(steps, j - 1, j, t.rows[hash].family, t.rows[hash].user);
      }
    }
  }

  lemma BeganStays(steps: seq<Step>, i: nat, j: nat, family: int, user: int)
    requires i <= j <= |steps| && BeganBefore(steps, i, family, user)
    ensures BeganBefore(steps, j, family, user)
  {
    var k :| 0 <= k < i && Began(steps[k], family, user);
    assert Began(steps[k], family, user) && k < j;
  }

  lemma RowsFromRows(s: State, step: Step, t: State, hash: int, of: int)
    requires Inv(s) && Next(s, step, t) && hash in t.rows && !(step.SignIn? && step.hash == hash)
    requires of == if hash in s.rows then hash else step.hash
    ensures of in s.rows && t.rows[hash].family == s.rows[of].family && t.rows[hash].user == s.rows[of].user
  {
  }

  /** And that was one sign-in alone: families are never begun twice. */
  lemma FamilyBeginsOnce(states: seq<State>, steps: seq<Step>, i: nat, j: nat, family: int, user: int)
    requires Path(states, steps) && i < j < |steps| && Began(steps[i], family, user)
    ensures !(steps[j].SignIn? && steps[j].family == family)
  {
    assert Next(states[i], steps[i], states[i + 1]);
    FamilyStays(states, steps, i + 1, j, family);
    assert Next(states[j], steps[j], states[j + 1]);
  }

  lemma {:induction false} FamilyStays(states: seq<State>, steps: seq<Step>, i: nat, j: nat, family: int)
    requires Path(states, steps) && i <= j <= |steps| && family in states[i].families
    ensures family in states[j].families
    decreases j
  {
    if i < j {
      FamilyStays(states, steps, i, j - 1, family);
      assert Next(states[j - 1], steps[j - 1], states[j]);
    }
  }

  // -------------------------------------------------------------------------------------- the service

  datatype Pair = Pair(refreshToken: int, expiresAt: int)

  /** Which query of a request fails: the claim, the lookup that follows a claim of nothing, or one that
      writes, the commit included. */
  datatype Trouble = NoTrouble | Claiming | LookingUp | Writing

  class Service {
    var now: int
    var rows: Rows
    const refreshTtl: int
    ghost var issued: set<int>
    ghost var families: set<int>
    ghost var claims: seq<Claim>
    ghost var ended: set<int>

    constructor (now: int, refreshTtl: int)
      ensures Init(History()) && this.now == now && this.refreshTtl == refreshTtl
    {
      this.now, this.rows, this.refreshTtl := now, map[], refreshTtl;
      issued, families, claims, ended := {}, {}, [], {};
    }

    ghost function History(): State
      reads this
    {
      State(now, rows, issued, families, claims, ended)
    }

    /** The last step of a registration or a login: a first token of a new family. */
    method SignIn(user: int, newHash: int, family: int) returns (pair: Pair)
      requires newHash !in issued && family !in families
      modifies this
      ensures Next(old(History()), Step.SignIn(user, newHash, family, now + refreshTtl), History())
      ensures pair == Pair(newHash, now + refreshTtl)
    {
      var created;
      created, pair := IssuePair(rows, user, family, newHash);
      rows := created;
      issued, families := issued + {newHash}, families + {family};
    }

    method IssuePair(table: Rows, user: int, family: int, newHash: int) returns (created: Rows, pair: Pair)
      ensures created == Created(table, newHash, user, family, now + refreshTtl)
      ensures pair == Pair(newHash, now + refreshTtl)
    {
      var expiresAt := now + refreshTtl;
      created := table[newHash := Token(user, family, expiresAt, false, false)];
      pair := Pair(newHash, expiresAt);
    }

    /** Exchanges a token for a new pair. The transaction works on its own copy of the table and takes
        effect when it commits; if a query or the commit fails, nothing has happened. */
    method Refresh(hash: int, newHash: int, trouble: Trouble) returns (r: Result<Pair, Error>)
      requires newHash !in issued
      modifies this
      ensures Next(old(History()), if r == Err(Failed) then Fault else Step.Refresh(hash, newHash, now + refreshTtl), History())
      ensures r.Ok? <==> Claimable(old(rows), hash, now) && trouble != Claiming && trouble != Writing
      ensures r.Ok? ==> r.value == Pair(newHash, now + refreshTtl)
      ensures r == Err(TokenReused) <==> hash in old(rows) && old(rows)[hash].used && trouble == NoTrouble
      ensures r == Err(TokenExpired) <==>
              && hash in old(rows) && !old(rows)[hash].used && !old(rows)[hash].revoked && old(rows)[hash].expiresAt <= now
              && trouble != Claiming && trouble != LookingUp
      ensures r == Err(Failed) <==>
              || trouble == Claiming
              || (trouble == LookingUp && !Claimable(old(rows), hash, now))
              || (trouble == Writing && (Claimable(old(rows), hash, now) || (hash in old(rows) && old(rows)[hash].used)))
    {
      if trouble == Claiming {
        return Err(Failed);
      }
      var tx := rows;
      if !(hash in tx && !tx[hash].used && !tx[hash].revoked && tx[hash].expiresAt > now) {
        r := RejectClaim(hash, trouble);
        return;
      }
      var claimed := tx[hash];
      tx := tx[hash := claimed.(used := true)];
      var pair;
      tx, pair := IssuePair(tx, claimed.user, claimed.family, newHash);
      if trouble == Writing {
        return Err(Failed);
      }
      rows := tx;
      issued := issued + {newHash};
      claims := claims + [Claim(hash, claimed.family, newHash)];
      return Ok(pair);
    }

    /** Why a token could not be claimed. Only a used one has an effect: its family is revoked, and that
        is committed although the request fails. */
    method RejectClaim(hash: int, trouble: Trouble) returns (r: Result<Pair, Error>)
      requires !Claimable(rows, hash, now) && trouble != Claiming
      modifies this
      ensures rows.Keys == old(rows).Keys
      ensures forall h | h in rows ::
                rows[h] == if r == Err(TokenReused) && hash in old(rows) && old(rows)[h].family == old(rows)[hash].family
                           then old(rows)[h].(revoked := true) else old(rows)[h]
      ensures r.Err?
      ensures r == Err(Failed) <==> trouble == LookingUp || (trouble == Writing && hash in old(rows) && old(rows)[hash].used)
      ensures r == Err(TokenReused) <==> trouble == NoTrouble && hash in old(rows) && old(rows)[hash].used
      ensures r == Err(TokenExpired) <==>
              trouble != LookingUp && hash in old(rows) && !old(rows)[hash].used && !old(rows)[hash].revoked
      ensures History() ==
              if r == Err(TokenReused) then
                old(History()).(rows := FamilyRevoked(old(rows), old(rows)[hash].family), ended := old(ended) + {old(rows)[hash].family})
              else old(History())
    {
      if trouble == LookingUp {
        return Err(Failed);
      }
      if hash !in rows {
        return Err(InvalidToken);
      }
      var existing := rows[hash];
      if existing.used {
        if trouble == Writing {
          return Err(Failed);
        }
        rows := FamilyRevoked(rows, existing.family);
        ended := ended + {existing.family};
        return Err(TokenReused);
      } else if existing.revoked {
        return Err(InvalidToken);
      } else {
        return Err(TokenExpired);
      }
    }

    /** Ends the session a token belongs to; an unknown token is already logged out. */
    method Logout(hash: int, trouble: Trouble) returns (ok: bool)
      modifies this
      ensures ok <==> trouble != LookingUp && !(trouble == Writing && hash in old(rows))
      ensures rows.Keys == old(rows).Keys
      ensures forall h | h in rows ::
                rows[h] == if ok && hash in old(rows) && old(rows)[h].family == old(rows)[hash].family
                           then old(rows)[h].(revoked := true) else old(rows)[h]
      ensures Next(old(History()), if ok then Step.Logout(hash) else Fault, History())
    {
      if trouble == LookingUp {
        return false;
      }
      if hash !in rows {
        return true;
      }
      if trouble == Writing {
        return false;
      }
      var family := rows[hash].family;
      rows := FamilyRevoked(rows, family);
      ended := ended + {family};
      return true;
    }

    method DeleteExpired() returns (removed: nat)
      modifies this
      ensures Next(old(History()), Cleanup, History())
      ensures removed == |old(rows)| - |rows|
      ensures forall h :: h in rows <==> h in old(rows) && old(rows)[h].expiresAt >= now
      ensures forall h | h in rows :: rows[h] == old(rows)[h]
    {
      var kept := ExpiredDeleted(rows, now);
      assert kept.Keys <= rows.Keys;
      Within(kept.Keys, rows.Keys);
      removed := |rows| - |kept|;
      rows := kept;
    }
  }
}

/** What every run of the token store keeps, and exactly how long a token is good. */
module TokenLaws {
  import opened Bytes
  import opened Tokens

  // ---------------------------------------------------------------- the two-table invariant

  /** At most one key is active, and every unrevoked token is that key's. */
  ghost predicate OneKey(s: Store) {
    && (forall a, b :: IsActive(s, a) && IsActive(s, b) ==> a == b)
    && (forall r :: r in s.rows && !s.rows[r].revoked ==> IsActive(s, s.rows[r].key))
  }

  /** Identifiers are old, and unique columns are unique. */
  ghost predicate Unique(s: Store) {
    && (forall k :: k in s.keys ==> k < s.nextKey) && (forall r :: r in s.rows ==> r < s.nextRow)
    && (forall r, q :: r in s.rows && q in s.rows && s.rows[r].token == s.rows[q].token ==> r == q)
    && (forall a, b :: a in s.keys && b in s.keys && s.keys[a].secret == s.keys[b].secret ==> a == b)
  }

  /** Every row's token was signed by its key and says so. */
  ghost predicate Signed(s: Store) {
    forall r :: r in s.rows ==>
      && s.rows[r].key in s.keys && s.rows[r].token.secret == s.keys[s.rows[r].key].secret
      && s.rows[r].token.claims.kid == s.rows[r].key && s.rows[r].token.claims.did == s.rows[r].device
  }

  ghost predicate Inv(s: Store) { OneKey(s) && Unique(s) && Signed(s) }

  lemma NewKeyKeeps(s: Store, secret: Secret)
    requires Inv(s) && secret !in Secrets(s)
    ensures var t := NewKey(s, secret);
            && Inv(t) && IsActive(t, s.nextKey) && t.keys[s.nextKey].secret == secret && t.rows.Keys == s.rows.Keys && t.nextRow == s.nextRow
            && (forall r :: r in s.rows ==> t.rows[r] == s.rows[r].(revoked := true))
  {
    var t := NewKey(s, secret);
    forall k | k in s.keys
      ensures s.keys[k].secret != secret
    {
      assert s.keys[k].secret in Secrets(s);
    }
    forall r | r in t.rows
      ensures t.rows[r].revoked && t.rows[r].token == s.rows[r].token && t.rows[r].key == s.rows[r].key && t.rows[r].device == s.rows[r].device
    {
    }
  }

  lemma AddRowKeeps(s: Store, token: Jwt, device: Device, key: KeyId)
    requires Inv(s) && IsActive(s, key) && token !in Values(s)
    requires token.secret == s.keys[key].secret && token.claims.kid == key && token.claims.did == device
    ensures Inv(AddRow(s, token, device, key)) && s.nextRow !in s.rows
  {
    assert forall k :: IsActive(AddRow(s, token, device, key), k) <==> IsActive(s, k);
    forall r | r in s.rows
      ensures s.rows[r].token != token
    {
      assert s.rows[r].token in Values(s);
    }
  }

  /** A successful attempt adds one row for one new token, and changes the other rows at most by revoking them. */
  lemma AttemptAdds(s: Store, device: Device, life: real, now: Clock, d: Draw)
    requires Inv(s) && Attempt(s, device, life, now, d).Some?
    ensures var (t, token) := Attempt(s, device, life, now, d).value;
            && Inv(t) && t.rows.Keys == s.rows.Keys + {s.nextRow} && s.nextRow !in s.rows
            && t.rows[s.nextRow].token == token && !t.rows[s.nextRow].revoked && t.rows[s.nextRow].device == device
            && (forall r :: r in s.rows ==> t.rows[r] == s.rows[r] || t.rows[r] == s.rows[r].(revoked := true))
            && (HasActive(s) ==> t == s.(rows := t.rows, nextRow := s.nextRow + 1) && forall r :: r in s.rows ==> t.rows[r] == s.rows[r])
            && token.claims == Issued(device, token.claims.kid, d.jti, life, now) && token.claims.jti == d.jti
  {
    hide Inv, NewKey;
    var token := Attempt(s, device, life, now, d).value.1;
    if !HasActive(s) {
      NewKeyKeeps(s, d.secret);
      AddRowKeeps(NewKey(s, d.secret), token, device, s.nextKey);
    } else {
      AddRowKeeps(s, token, device, TheKey(s));
    }
  }

  /** However often it retries, a create that succeeds does so by exactly one attempt on the store as it was. */
  lemma {:induction false} CreateIsOneAttempt(s: Store, device: Device, life: real, now: Clock, draws: seq<Draw>, tries: nat) returns (i: nat)
    requires Create(s, device, life, now, draws, tries).Some?
    ensures i < tries && i < |draws| && Create(s, device, life, now, draws, tries) == Attempt(s, device, life, now, draws[i])
    ensures forall j :: 0 <= j < i ==> Attempt(s, device, life, now, draws[j]).None?
    decreases tries
  {
    hide Attempt;
    if Attempt(s, device, life, now, draws[0]).Some? {
      i := 0;
    } else {
      i := CreateIsOneAttempt(s, device, life, now, draws[1..], tries - 1);
      i := i + 1;
      assert forall j :: 0 < j <= i ==> draws[j] == draws[1..][j - 1];
    }
  }

  /** A successful create adds exactly one row despite retries. */
  lemma CreateAddsOne(s: Store, device: Device, life: real, now: Clock, draws: seq<Draw>)
    requires Inv(s) && Create(s, device, life, now, draws, ATTEMPTS).Some?
    ensures var (t, token) := Create(s, device, life, now, draws, ATTEMPTS).value;
            && Inv(t) && t.rows.Keys == s.rows.Keys + {s.nextRow} && s.nextRow !in s.rows
            && t.rows[s.nextRow].token == token && !t.rows[s.nextRow].revoked && t.rows[s.nextRow].device == device
            && (forall r :: r in s.rows ==> t.rows[r] == s.rows[r] || t.rows[r] == s.rows[r].(revoked := true))
            && token.claims == Issued(device, token.claims.kid, token.claims.jti, life, now)
            && (exists i :: 0 <= i < |draws| && token.claims.jti == draws[i].jti)
            && (HasActive(s) ==> t == s.(rows := t.rows, nextRow := s.nextRow + 1) && forall r :: r in s.rows ==> t.rows[r] == s.rows[r])
  {
    var i := CreateIsOneAttempt(s, device, life, now, draws, ATTEMPTS);
    AttemptAdds(s, device, life, now, draws[i]);
  }

  /** A draw the database can take: a new secret when a key has to be made, and a token that is not there yet. */
  ghost predicate Usable(s: Store, device: Device, life: real, now: Clock, d: Draw) {
    && !d.refused
    && (forall k :: k in s.keys && s.keys[k].active ==>
          forall r :: r in s.rows ==> s.rows[r].token != Jwt(Issued(device, k, d.jti, life, now), s.keys[k].secret))
    && ((forall k :: k in s.keys ==> !s.keys[k].active) ==> forall k :: k in s.keys ==> s.keys[k].secret != d.secret)
  }

  lemma AttemptExactly(s: Store, device: Device, life: real, now: Clock, d: Draw)
    requires Inv(s)
    ensures Attempt(s, device, life, now, d).Some? <==> Usable(s, device, life, now, d)
  {
    if HasActive(s) {
      var k := TheKey(s);
      var token := Jwt(Issued(device, k, d.jti, life, now), s.keys[k].secret);
      forall x | x in s.keys && s.keys[x].active
        ensures x == k
      {
        assert IsActive(s, x) && IsActive(s, k);
      }
      assert token in Values(s) <==> exists r :: r in s.rows && s.rows[r].token == token;
    } else {
      assert forall k :: k in s.keys ==> !IsActive(s, k);
      var token := Jwt(Issued(device, s.nextKey, d.jti, life, now), d.secret);
      assert d.secret in Secrets(s) <==> exists k :: k in s.keys && s.keys[k].secret == d.secret;
      if d.secret !in Secrets(s) {
        forall r | r in s.rows
          ensures s.rows[r].token != token
        {
          assert s.keys[s.rows[r].key].secret in Secrets(s);
        }
        assert forall r :: r in NewKey(s, d.secret).rows ==> NewKey(s, d.secret).rows[r].token == s.rows[r].token;
      }
    }
  }

  /** With a key active, an attempt that is not refused succeeds if its random id is new among that key's tokens. */
  lemma FreshDrawWorks(s: Store, device: Device, life: real, now: Clock, d: Draw)
    requires Inv(s) && !d.refused && (exists k :: k in s.keys && s.keys[k].active)
    requires forall r :: r in s.rows && s.rows[r].key in s.keys && s.keys[s.rows[r].key].active ==> s.rows[r].token.claims.jti != d.jti
    ensures Attempt(s, device, life, now, d).Some?
  {
    AttemptExactly(s, device, life, now, d);
    forall k, r | k in s.keys && s.keys[k].active && r in s.rows
      ensures s.rows[r].token != Jwt(Issued(device, k, d.jti, life, now), s.keys[k].secret)
    {
      assert s.rows[r].token.claims.kid == k ==> s.rows[r].key == k;
    }
    hide Inv, Attempt;
  }

  /** A create succeeds exactly if one of its first three draws is usable, and then with the first that is. */
  lemma {:induction false} CreateExactly(s: Store, device: Device, life: real, now: Clock, draws: seq<Draw>, tries: nat)
    requires Inv(s) && tries <= 3
    ensures Create(s, device, life, now, draws, tries).Some? <==>
            exists i :: 0 <= i < tries && i < |draws| && Usable(s, device, life, now, draws[i])
    decreases tries
  {
    hide Inv, Attempt, Usable;
    if tries > 0 && draws != [] {
      AttemptExactly(s, device, life, now, draws[0]);
      CreateExactly(s, device, life, now, draws[1..], tries - 1);
      if i :| 0 <= i < tries && i < |draws| && Usable(s, device, life, now, draws[i]) {
        assert i > 0 ==> draws[i] == draws[1..][i - 1];
      }
      if i :| 0 <= i < tries - 1 && i < |draws[1..]| && Usable(s, device, life, now, draws[1..][i]) {
        assert draws[i + 1] == draws[1..][i];
      }
    }
  }

  // ---------------------------------------------------------------- runs

  datatype Call =
    | CreateToken(device: Device, life: real, now: Clock, draws: seq<Draw>)
    | RotateKey(secret: Secret)
    | RevokeToken(token: Jwt)
    | RevokeDeviceTokens(device: Device)

  ghost function After(s: Store, c: Call): Store {
    match c
    case CreateToken(device, life, now, draws) =>
      (match Create(s, device, life, now, draws, ATTEMPTS) case Some(r) => r.0 case None => s)
    case RotateKey(secret) => (match Rotate(s, secret) case Some(t) => t case None => s)
    case RevokeToken(token) => Revoke(s, token)
    case RevokeDeviceTokens(device) => RevokeDevice(s, device)
  }

  ghost predicate History(ss: seq<Store>, cs: seq<Call>) {
    |ss| == |cs| + 1 && Inv(ss[0]) && forall i :: 0 <= i < |cs| ==> ss[i + 1] == After(ss[i], cs[i])
  }

  /** This call ends the row: a successful rotation, its own revocation, or its device's. */
  predicate Ends(s: Store, c: Call, row: Row) {
    || (c.RotateKey? && forall k :: k in s.keys ==> s.keys[k].secret != c.secret)
    || (c.RevokeToken? && c.token == row.token)
    || (c.RevokeDeviceTokens? && c.device == row.device)
  }

  /** A row is only ever changed by being revoked. */
  ghost predicate Kept(s: Store, t: Store) {
    forall r :: r in s.rows ==> r in t.rows && (t.rows[r] == s.rows[r] || t.rows[r] == s.rows[r].(revoked := true))
  }

  /** Revoking rows, whichever, keeps the tables in agreement. */
  lemma RevokingKeeps(s: Store, t: Store)
    requires Inv(s) && t == s.(rows := t.rows) && t.rows.Keys == s.rows.Keys && Kept(s, t)
    ensures Inv(t)
  {
    assert forall k :: IsActive(t, k) <==> IsActive(s, k);
    hide IsActive;
  }

  lemma RevokeKeeps(s: Store, token: Jwt, device: Device)
    requires Inv(s)
    ensures Inv(Revoke(s, token)) && Inv(RevokeDevice(s, device)) && Kept(s, Revoke(s, token)) && Kept(s, RevokeDevice(s, device))
  {
    hide Inv;
    RevokingKeeps(s, Revoke(s, token));
    RevokingKeeps(s, RevokeDevice(s, device));
  }

  lemma AfterKeeps(s: Store, c: Call)
    requires Inv(s)
    ensures Inv(After(s, c)) && Kept(s, After(s, c))
  {
    hide Inv, Create, Revoke, RevokeDevice, NewKey;
    match c
    case CreateToken(device, life, now, draws) =>
      if Create(s, device, life, now, draws, ATTEMPTS).Some? {
        CreateAddsOne(s, device, life, now, draws);
      }
    case RotateKey(secret) =>
      if secret !in Secrets(s) {
        NewKeyKeeps(s, secret);
      }
    case RevokeToken(token) => RevokeKeeps(s, token, 0);
    case RevokeDeviceTokens(device) => RevokeKeeps(s, Jwt(Claims(0, 0, 0, 0, 0, None, None), 0), device);
  }

  lemma KeptTrans(s: Store, t: Store, u: Store)
    requires Kept(s, t) && Kept(t, u)
    ensures Kept(s, u)
  {
  }

  /** In every run the two tables agree: one active key, whose the unrevoked tokens are. */
  lemma {:induction false} EveryRun(ss: seq<Store>, cs: seq<Call>, i: nat, j: nat)
    requires History(ss, cs) && i <= j < |ss|
    ensures Inv(ss[i]) && Inv(ss[j]) && Kept(ss[i], ss[j])
    decreases j
  {
    hide Inv, After, Kept;
    KeptSelf(ss[i]);
    if j > 0 {
      if i < j {
        EveryRun(ss, cs, i, j - 1);
      } else {
        EveryRun(ss, cs, i - 1, j - 1);
      }
      AfterKeeps(ss[j - 1], cs[j - 1]);
      if i < j {
        KeptTrans(ss[i], ss[j - 1], ss[j]);
      }
    }
  }

  lemma KeptSelf(s: Store)
    ensures Kept(s, s)
  {
  }

  /** An unrevoked row verifies exactly within its token's lifetime. */
  lemma RowVerifiesExactly(s: Store, r: nat, now: Clock)
    requires Inv(s) && r in s.rows
    ensures Verifies(s, s.rows[r].token, now) <==> !s.rows[r].revoked && Lifetime(s.rows[r].token.claims, now) == Accepted
  {
    assert Holds(s, r, s.rows[r].token);
    assert forall q :: q in s.rows && Holds(s, q, s.rows[r].token) ==> q == r;
  }

  /** A revoked token never verifies again, whatever happens later and whatever the clocks say. */
  lemma RevokedForever(ss: seq<Store>, cs: seq<Call>, i: nat, j: nat, r: nat, now: Clock)
    requires History(ss, cs) && i <= j < |ss| && r in ss[i].rows && ss[i].rows[r].revoked
    ensures !Verifies(ss[j], ss[i].rows[r].token, now)
  {
    EveryRun(ss, cs, i, j);
    RowVerifiesExactly(ss[j], r, now);
    hide Inv;
  }

  lemma FreshSecret(s: Store, secret: Secret)
    ensures secret !in Secrets(s) <==> forall k :: k in s.keys ==> s.keys[k].secret != secret
  {
    if secret !in Secrets(s) {
      forall k | k in s.keys
        ensures s.keys[k].secret in Secrets(s)
      {
      }
    }
  }

  /** Nothing issued before a rotation verifies after it. */
  lemma RotationEndsAll(ss: seq<Store>, cs: seq<Call>, i: nat, j: nat, r: nat, now: Clock)
    requires History(ss, cs) && i < j < |ss| && cs[i].RotateKey? && r in ss[i].rows
    requires forall k :: k in ss[i].keys ==> ss[i].keys[k].secret != cs[i].secret
    ensures !Verifies(ss[j], ss[i].rows[r].token, now)
  {
    hide Inv, Verifies;
    EveryRun(ss, cs, i, i + 1);
    FreshSecret(ss[i], cs[i].secret);
    NewKeyKeeps(ss[i], cs[i].secret);
    RevokedForever(ss, cs, i + 1, j, r, now);
  }

  /** One call ends an unrevoked row exactly if it is one of the three that do. */
  lemma EndsExactly(s: Store, c: Call, r: nat)
    requires Inv(s) && r in s.rows && !s.rows[r].revoked
    ensures r in After(s, c).rows && (After(s, c).rows[r].revoked <==> Ends(s, c, s.rows[r]))
  {
    assert IsActive(s, s.rows[r].key);
    assert HasActive(s);
    if c.RotateKey? {
      FreshSecret(s, c.secret);
    }
    hide Inv;
    if c.CreateToken? && Create(s, c.device, c.life, c.now, c.draws, ATTEMPTS).Some? {
      var i := CreateIsOneAttempt(s, c.device, c.life, c.now, c.draws, ATTEMPTS);
      AttemptAdds(s, c.device, c.life, c.now, c.draws[i]);
    }
  }

  /** Some call from `i` on and before `j` ended the row. */
  ghost predicate Ended(ss: seq<Store>, cs: seq<Call>, i: nat, j: nat, row: Row)
    requires History(ss, cs) && j < |ss|
  {
    exists k :: i <= k < j && Ends(ss[k], cs[k], row)
  }

  lemma {:induction false} RevokedExactly(ss: seq<Store>, cs: seq<Call>, i: nat, j: nat, r: nat)
    requires History(ss, cs) && i <= j < |ss| && r in ss[i].rows && !ss[i].rows[r].revoked
    ensures r in ss[j].rows && ss[j].rows[r] == ss[i].rows[r].(revoked := Ended(ss, cs, i, j, ss[i].rows[r]))
    decreases j
  {
    hide Inv, After, Ends, Ended, Kept;
    var row := ss[i].rows[r];
    if j == i {
      EndedNone(ss, cs, i, row);
    } else {
      RevokedExactly(ss, cs, i, j - 1, r);
      EveryRun(ss, cs, j - 1, j);
      EndedStep(ss, cs, i, j, row);
      var s, t := ss[j - 1], ss[j];
      if !s.rows[r].revoked {
        EndsExactly(s, cs[j - 1], r);
        SameEnds(s, cs[j - 1], s.rows[r], row);
      }
      KeptRow(s, t, r);
    }
  }

  lemma KeptRow(s: Store, t: Store, r: nat)
    requires Kept(s, t) && r in s.rows
    ensures r in t.rows && t.rows[r] == s.rows[r].(revoked := t.rows[r].revoked) && (s.rows[r].revoked ==> t.rows[r].revoked)
  {
  }

  lemma EndedNone(ss: seq<Store>, cs: seq<Call>, i: nat, row: Row)
    requires History(ss, cs) && i < |ss|
    ensures !Ended(ss, cs, i, i, row)
  {
    hide History;
  }

  lemma EndedStep(ss: seq<Store>, cs: seq<Call>, i: nat, j: nat, row: Row)
    requires History(ss, cs) && i < j < |ss|
    ensures Ended(ss, cs, i, j, row) <==> Ended(ss, cs, i, j - 1, row) || Ends(ss[j - 1], cs[j - 1], row)
  {
    assert |ss| == |cs| + 1;
    hide History, Ends;
  }

  lemma SameEnds(s: Store, c: Call, a: Row, b: Row)
    requires a.token == b.token && a.device == b.device
    ensures Ends(s, c, a) <==> Ends(s, c, b)
  {
  }

  /**
   Any token, in any store, at any reading of the clocks, is accepted exactly if an unrevoked row with an active key
   that signed it holds it, its lifetime claims fit together, and it is in time: in the boot that issued it
   before `bexp` by the boot clock; in any other, and without boot claims, from 30 seconds before `iat` until before `exp`
   by the wall clock.
   */
  lemma VerifiesExactly(s: Store, token: Jwt, now: Clock)
    ensures var c := token.claims;
            Verifies(s, token, now) <==>
            && (exists r :: r in s.rows && s.rows[r].token == token && !s.rows[r].revoked && s.rows[r].key == c.kid
                            && c.kid in s.keys && s.keys[c.kid].active && token.secret == s.keys[c.kid].secret)
            && c.exp > c.iat && (c.bid.Some? <==> c.bexp.Some?) && (c.bexp.Some? ==> c.bexp.value >= 0.0)
            && (if c.bid == Some(now.boot) then now.boottime < c.bexp.value
                else c.iat as real - 30.0 <= now.wall && now.wall < c.exp as real)
  {
    var c := token.claims;
    if r :| r in s.rows && Holds(s, r, token) && RowVerifies(s, r, now) {
      assert s.rows[r].token == token && s.rows[r].key == c.kid;
    }
    if r :| r in s.rows && s.rows[r].token == token && !s.rows[r].revoked && s.rows[r].key == c.kid
            && c.kid in s.keys && s.keys[c.kid].active && token.secret == s.keys[c.kid].secret {
      assert Holds(s, r, token);
      assert Lifetime(c, now) == Accepted ==> RowVerifies(s, r, now);
    }
  }

  /**
   A token, from the moment it is created, verifies exactly as long as it has not been revoked, its device's
   tokens have not been revoked, the key has not been rotated, and it is in time: for its lifetime by the boot clock in
   the boot that issued it, and otherwise by the wall clock, in whole seconds and not before its issue by more than 30.
   */
  lemma GoodUntil(ss: seq<Store>, cs: seq<Call>, i: nat, j: nat, now: Clock)
    requires History(ss, cs) && i < j < |ss| && cs[i].CreateToken?
    requires Create(ss[i], cs[i].device, cs[i].life, cs[i].now, cs[i].draws, ATTEMPTS).Some?
    ensures var token := Create(ss[i], cs[i].device, cs[i].life, cs[i].now, cs[i].draws, ATTEMPTS).value.1;
            var issue, life := cs[i].now, cs[i].life;
            Verifies(ss[j], token, now) <==>
            && !Ended(ss, cs, i + 1, j, Row(token, cs[i].device, token.claims.kid, false))
            && (issue.wall + life).Floor > issue.wall.Floor && issue.boottime + life >= 0.0
            && (if now.boot == issue.boot then now.boottime < issue.boottime + life
                else issue.wall.Floor as real - 30.0 <= now.wall && now.wall < (issue.wall + life).Floor as real)
  {
    hide Inv, Create, Verifies, Ended, Lifetime;
    EveryRun(ss, cs, i, j);
    EveryRun(ss, cs, i + 1, j);
    CreateAddsOne(ss[i], cs[i].device, cs[i].life, cs[i].now, cs[i].draws);
    var token := Create(ss[i], cs[i].device, cs[i].life, cs[i].now, cs[i].draws, ATTEMPTS).value.1;
    var r := ss[i].nextRow;
    RevokedExactly(ss, cs, i + 1, j, r);
    RowVerifiesExactly(ss[j], r, now);
    SignedRow(ss[i + 1], r);
    IssuedInTime(token.claims, cs[i].device, cs[i].life, cs[i].now, now);
  }

  /** A new token's claims, read at any later reading of the clocks. */
  lemma IssuedInTime(c: Claims, device: Device, life: real, issue: Clock, now: Clock)
    requires c == Issued(device, c.kid, c.jti, life, issue)
    ensures Lifetime(c, now) == Accepted <==>
            && (issue.wall + life).Floor > issue.wall.Floor && issue.boottime + life >= 0.0
            && (if now.boot == issue.boot then now.boottime < issue.boottime + life
                else issue.wall.Floor as real - 30.0 <= now.wall && now.wall < (issue.wall + life).Floor as real)
  {
  }

  lemma SignedRow(s: Store, r: nat)
    requires Inv(s) && r in s.rows
    ensures s.rows[r].token.claims.kid == s.rows[r].key
  {
  }

  // ---------------------------------------------------------------- the two clocks

  /** In the issuing boot the wall clock plays no part: the token is good until exactly its lifetime has passed. */
  lemma InIssuingBoot(device: Device, kid: KeyId, jti: nat, life: real, issue: Clock, now: Clock)
    requires now.boot == issue.boot && issue.boottime >= 0.0 && life >= 1.0
    ensures Lifetime(Issued(device, kid, jti, life, issue), now) == if now.boottime < issue.boottime + life then Accepted else Expired
  {
    WholeSeconds(issue.wall, life);
  }

  lemma WholeSeconds(wall: real, life: real)
    ensures life >= 1.0 ==> (wall + life).Floor > wall.Floor
    ensures wall + life - 1.0 < (wall + life).Floor as real <= wall + life
  {
  }

  /** So expiry is permanent there, whatever the wall clock does. */
  lemma ExpiryIsPermanent(c: Claims, now: Clock, later: Clock)
    requires c.bid == Some(now.boot) && later.boot == now.boot && later.boottime >= now.boottime && Lifetime(c, now) == Expired
    ensures Lifetime(c, later) == Expired
  {
  }

  /** The same instant, `e` after the token was issued, in the issuing boot and after a reboot. */
  lemma ClocksAgree(device: Device, kid: KeyId, jti: nat, life: real, issue: Clock, e: real, boot: nat, boottime: real, wall: real)
    requires boot != issue.boot && issue.boottime >= 0.0 && life >= 1.0 && e >= 0.0
    ensures var c := Issued(device, kid, jti, life, issue);
            var here, after := Clock(issue.boot, issue.boottime + e, wall), Clock(boot, boottime, issue.wall + e);
            && (Lifetime(c, here) == Accepted <==> e < life)
            && (Lifetime(c, after) == Accepted ==> Lifetime(c, here) == Accepted)
            && (e <= life - 1.0 ==> Lifetime(c, after) == Accepted)
            && Lifetime(c, after) in {Accepted, Expired}
  {
    WholeSeconds(issue.wall, life);
    WholeSeconds(issue.wall, 0.0);
  }

  /** A token is good for any time at all exactly if its lifetime reaches into another whole second. */
  lemma EverGood(device: Device, kid: KeyId, jti: nat, life: real, issue: Clock)
    requires issue.boottime >= 0.0 && life > 0.0
    ensures (exists now :: Lifetime(Issued(device, kid, jti, life, issue), now) == Accepted) <==> (issue.wall + life).Floor > issue.wall.Floor
  {
    var c := Issued(device, kid, jti, life, issue);
    if (issue.wall + life).Floor > issue.wall.Floor {
      assert Lifetime(c, issue) == Accepted;
    }
  }

  /** Half a second from a whole second on is too short: such a token is never good. */
  lemma TooShort(now: Clock)
    ensures Lifetime(Issued(0, 0, 0, 0.5, Clock(0, 0.0, 10.0)), now) == BadLifetime
  {
    assert (10.5).Floor == 10;
    assert (10.0).Floor == 10;
  }
}

/** The token store as it runs: rows are changed in place, and a refused transaction is rolled back. */
module TokenManager {
  import opened Bytes
  import opened Tokens
  import opened TokenLaws

  class TokenStore {
    var keys: map<KeyId, Key>
    var rows: map<nat, Row>
    var nextKey: KeyId
    var nextRow: nat

    constructor ()
      ensures Now() == EMPTY
    {
      keys, rows, nextKey, nextRow := map[], map[], 0, 0;
    }

    function Now(): Store
      reads this
    {
      Store(keys, rows, nextKey, nextRow)
    }

    /** Find the active key. */
    method ActiveKey() returns (k: Option<KeyId>)
      requires Inv(Now())
      ensures k.None? <==> !HasActive(Now())
      ensures k.Some? ==> k.value == TheKey(Now())
    {
      var left := keys.Keys;
      k := None;
      while left != {}
        invariant left <= keys.Keys
        invariant k.None? ==> forall x :: x in keys && x !in left ==> !keys[x].active
        invariant k.Some? ==> IsActive(Now(), k.value)
      {
        var x: KeyId :| x in left;
        left := left - {x};
        if keys[x].active {
          k := Some(x);
        }
      }
    }

    /** Deactivate all keys, add one, and revoke the tokens of every other. */
    method InsertKey(secret: Secret) returns (k: KeyId)
      modifies this
      ensures Now() == NewKey(old(Now()), secret) && k == old(nextKey)
    {
      k := nextKey;
      keys := (map x | x in keys :: keys[x].(active := false))[k := Key(secret, true)];
      nextKey := nextKey + 1;
      rows := map r | r in rows :: if rows[r].key != k then rows[r].(revoked := true) else rows[r];
    }

    /** One transaction; when it is refused, everything is as before. */
    method TryCreate(device: Device, life: real, now: Clock, d: Draw) returns (token: Option<Jwt>)
      requires Inv(Now())
      modifies this
      ensures var r := Attempt(old(Now()), device, life, now, d);
              if r.Some? then Now() == r.value.0 && token == Some(r.value.1) else Now() == old(Now()) && token == None
      ensures Inv(Now())
    {
      ghost var was := Now();
      if Attempt(was, device, life, now, d).Some? {
        AttemptAdds(was, device, life, now, d);
      }
      NotSeveral(was);
      hide Inv, Secrets, Values, NewKey;
      var saved := (keys, rows, nextKey, nextRow);
      var key := ActiveKey();
      var k: KeyId;
      if key.Some? {
        k := key.value;
      } else {
        if d.secret in Secrets(Now()) {
          return None;
        }
        NewKeyKeeps(Now(), d.secret);
        k := InsertKey(d.secret);
      }
      token := Some(Jwt(Issued(device, k, d.jti, life, now), keys[k].secret));
      if d.refused || token.value in Values(Now()) {
        keys, rows, nextKey, nextRow := saved.0, saved.1, saved.2, saved.3;
        return None;
      }
      rows := rows[nextRow := Row(token.value, device, k, false)];
      nextRow := nextRow + 1;
    }

    /** Retry a refused transaction, up to three times in all. */
    method CreateToken(device: Device, life: real, now: Clock, draws: seq<Draw>) returns (token: Option<Jwt>)
      requires Inv(Now()) && |draws| >= ATTEMPTS
      modifies this
      ensures var r := Create(old(Now()), device, life, now, draws, ATTEMPTS);
              if r.Some? then Now() == r.value.0 && token == Some(r.value.1) else Now() == old(Now()) && token == None
      ensures token.Some? <==> exists i :: 0 <= i < 3 && Usable(old(Now()), device, life, now, draws[i])
      ensures Inv(Now())
    {
      CreateExactly(Now(), device, life, now, draws, ATTEMPTS);
      hide Inv, Attempt, Usable;
      var tries := 0;
      token := None;
      assert draws[0..] == draws;
      while tries < ATTEMPTS && token.None?
        invariant tries <= ATTEMPTS && Inv(Now())
        invariant token.None? ==> Now() == old(Now())
        invariant token.None? ==>
                    Create(old(Now()), device, life, now, draws, ATTEMPTS) == Create(old(Now()), device, life, now, draws[tries..], ATTEMPTS - tries)
        invariant token.Some? ==> Create(old(Now()), device, life, now, draws, ATTEMPTS) == Some((Now(), token.value))
        decreases ATTEMPTS - tries, token.None?
      {
        assert draws[tries..][1..] == draws[tries + 1..];
        token := TryCreate(device, life, now, draws[tries]);
        tries := tries + 1;
      }
    }

    method RotateKey(secret: Secret) returns (k: Option<KeyId>)
      requires Inv(Now())
      modifies this
      ensures var r := Rotate(old(Now()), secret);
              if r.Some? then Now() == r.value && k == Some(old(nextKey)) else Now() == old(Now()) && k == None
      ensures Inv(Now())
    {
      if secret in Secrets(Now()) {
        return None;
      }
      NewKeyKeeps(Now(), secret);
      hide Inv, NewKey;
      var id := InsertKey(secret);
      k := Some(id);
    }

    /** The row that holds a token. */
    method Find(token: Jwt) returns (r: Option<nat>)
      ensures r.None? ==> forall x :: x in rows ==> rows[x].token != token
      ensures r.Some? ==> r.value in rows && rows[r.value].token == token
    {
      var left := rows.Keys;
      r := None;
      while left != {}
        invariant left <= rows.Keys
        invariant forall x :: x in rows && x !in left ==> rows[x].token != token
      {
        var x: nat :| x in left;
        left := left - {x};
        if rows[x].token == token {
          return Some(x);
        }
      }
    }

    method RevokeToken(token: Jwt) returns (found: bool, changed: bool)
      requires Inv(Now())
      modifies this`rows
      ensures Now() == Revoke(old(Now()), token) && Inv(Now())
      ensures found == (token in Values(old(Now()))) && changed == (Now() != old(Now()))
    {
      hide Inv, Kept, Unique, Revoke, RevokeDevice, Values;
      RevokeKeeps(Now(), token, 0);
      var r := Find(token);
      InvUnique(Now());
      found, changed := r.Some?, false;
      if r.Some? {
        RevokeOne(Now(), r.value);
        if !rows[r.value].revoked {
          rows := rows[r.value := rows[r.value].(revoked := true)];
          changed := true;
        }
      } else {
        RevokeNone(Now(), token);
      }
    }

    /** Revoke row by row, and count those that changed. */
    method RevokeDeviceTokens(device: Device) returns (n: nat)
      requires Inv(Now())
      modifies this`rows
      ensures Now() == RevokeDevice(old(Now()), device) && Inv(Now())
      ensures n == |LiveRows(old(Now()), device)|
    {
      hide Inv, Kept, Revoke, RevokeDevice, LiveRows, Marked;
      ghost var was := Now();
      RevokeKeeps(was, Jwt(Claims(0, 0, 0, 0, 0, None, None), 0), device);
      var live := LiveRows(Now(), device);
      n := |live|;
      LiveRevoked(was, device);
      var left, seen := live, {};
      while left != {}
        invariant seen + left == live && Now() == was.(rows := Marked(was.rows, seen))
      {
        var r: nat :| r in left;
        MarkedMore(was.rows, seen, r);
        LiveRowsAre(was, device);
        left, seen := left - {r}, seen + {r};
        rows := rows[r := rows[r].(revoked := true)];
      }
      assert seen == live;
    }

    method VerifyToken(token: Jwt, now: Clock) returns (valid: bool)
      requires Unique(Now())
      ensures valid <==> Verifies(Now(), token, now)
    {
      var r := Find(token);
      if r.None? {
        return false;
      }
      VerifiesByRow(Now(), r.value, now);
      hide Unique, Lifetime, Verifies;
      var row := rows[r.value];
      if row.revoked {
        return false;
      }
      if row.key !in keys || !keys[row.key].active {
        return false;
      }
      if token.secret != keys[row.key].secret || token.claims.kid != row.key {
        return false;
      }
      valid := Lifetime(token.claims, now) == Accepted;
    }
  }

  /** The device's unrevoked rows. */
  function LiveRows(s: Store, device: Device): set<nat> { set r | r in s.rows && s.rows[r].device == device && !s.rows[r].revoked }

  lemma LiveRowsAre(s: Store, device: Device)
    ensures forall r :: r in LiveRows(s, device) ==> r in s.rows
  {
  }

  function Marked(rows: map<nat, Row>, gone: set<nat>): map<nat, Row> {
    map r | r in rows :: if r in gone then rows[r].(revoked := true) else rows[r]
  }

  lemma MarkedMore(rows: map<nat, Row>, gone: set<nat>, r: nat)
    ensures r in rows ==> r in Marked(rows, gone)
    ensures r in rows ==> Marked(rows, gone + {r}) == Marked(rows, gone)[r := Marked(rows, gone)[r].(revoked := true)]
  {
  }

  lemma LiveRevoked(s: Store, device: Device)
    ensures Marked(s.rows, {}) == s.rows && s.(rows := Marked(s.rows, LiveRows(s, device))) == RevokeDevice(s, device)
  {
    assert Marked(s.rows, LiveRows(s, device)) == RevokeDevice(s, device).rows;
  }

  lemma RevokeOne(s: Store, r: nat)
    requires Unique(s) && r in s.rows
    ensures Revoke(s, s.rows[r].token) == s.(rows := s.rows[r := s.rows[r].(revoked := true)]) && s.rows[r].token in Values(s)
    ensures Revoke(s, s.rows[r].token) == s <==> s.rows[r].revoked
  {
    var t := Revoke(s, s.rows[r].token);
    assert t.rows == s.rows[r := s.rows[r].(revoked := true)];
    assert t.rows[r] == s.rows[r] <==> s.rows[r].revoked;
    assert s.rows[r].revoked ==> t.rows == s.rows;
  }

  lemma RevokeNone(s: Store, token: Jwt)
    requires forall x :: x in s.rows ==> s.rows[x].token != token
    ensures Revoke(s, token) == s && token !in Values(s)
  {
    assert Revoke(s, token).rows == s.rows;
  }

  lemma InvUnique(s: Store)
    requires Inv(s)
    ensures Unique(s)
  {
  }

  lemma VerifiesByRow(s: Store, r: nat, now: Clock)
    requires Unique(s) && r in s.rows
    ensures Verifies(s, s.rows[r].token, now) <==> RowVerifies(s, r, now)
  {
    assert Holds(s, r, s.rows[r].token);
    assert forall q :: q in s.rows && Holds(s, q, s.rows[r].token) ==> q == r;
  }

  lemma NotSeveral(s: Store)
    requires Inv(s)
    ensures !Several(s)
  {
  }
}

/** The token store: signing keys and issued tokens, each operation one transaction, and a token's lifetime. */
module Tokens {
  import opened Bytes

  type Device = nat
  type KeyId = nat
  type Secret = nat

  const CLOCK_SKEW := 30.0

  const ATTEMPTS := 3

  datatype Key = Key(secret: Secret, active: bool)

  /** `bid` and `bexp` are the boot-clock claims; tokens from before they existed have neither. */
  datatype Claims = Claims(did: Device, kid: KeyId, jti: nat, iat: int, exp: int, bid: Option<nat>, bexp: Option<real>)

  /** A token is its claims and the secret that signed them. */
  datatype Jwt = Jwt(claims: Claims, secret: Secret)

  datatype Row = Row(token: Jwt, device: Device, key: KeyId, revoked: bool)

  datatype Store = Store(keys: map<KeyId, Key>, rows: map<nat, Row>, nextKey: KeyId, nextRow: nat)

  const EMPTY := Store(map[], map[], 0, 0)

  /** The current boot, the time since it began, and the wall clock. */
  datatype Clock = Clock(boot: nat, boottime: real, wall: real)

  /** What one attempt draws at random, and whether the database refuses it for a reason of its own. */
  datatype Draw = Draw(secret: Secret, jti: nat, refused: bool)

  // ---------------------------------------------------------------- lifetime

  datatype Verdict = Accepted | BadLifetime | Expired | ClockNotSet

  function Issued(device: Device, kid: KeyId, jti: nat, life: real, now: Clock): Claims {
    Claims(device, kid, jti, now.wall.Floor, (now.wall + life).Floor, Some(now.boot), Some(now.boottime + life))
  }

  /** In the issuing boot only the boot clock counts; otherwise the wall clock does. */
  function Lifetime(c: Claims, now: Clock): Verdict {
    if c.exp <= c.iat || c.bid.Some? != c.bexp.Some? then BadLifetime
    else if c.bexp.Some? && c.bexp.value < 0.0 then BadLifetime
    else if c.bid == Some(now.boot) then
      if now.boottime >= c.bexp.value then Expired else Accepted
    else if now.wall + CLOCK_SKEW < c.iat as real then ClockNotSet
    else if now.wall >= c.exp as real then Expired
    else Accepted
  }

  // ---------------------------------------------------------------- transactions

  predicate IsActive(s: Store, k: KeyId) { k in s.keys && s.keys[k].active }

  predicate HasActive(s: Store) { exists k :: k in s.keys && IsActive(s, k) }

  /** More than one key is active: the lookup raises. */
  predicate Several(s: Store) { exists a, b :: a in s.keys && b in s.keys && a != b && IsActive(s, a) && IsActive(s, b) }

  function Secrets(s: Store): set<Secret> { set k | k in s.keys :: s.keys[k].secret }

  function Values(s: Store): set<Jwt> { set r | r in s.rows :: s.rows[r].token }

  /** A new active key, all others inactive, and every token of another key revoked. */
  function NewKey(s: Store, secret: Secret): Store {
    s.(keys := (map k | k in s.keys :: s.keys[k].(active := false))[s.nextKey := Key(secret, true)],
       rows := map r | r in s.rows :: if s.rows[r].key != s.nextKey then s.rows[r].(revoked := true) else s.rows[r],
       nextKey := s.nextKey + 1)
  }

  ghost function TheKey(s: Store): (k: KeyId)
    requires HasActive(s)
    ensures IsActive(s, k)
  {
    var k :| k in s.keys && IsActive(s, k); k
  }

  function AddRow(s: Store, token: Jwt, device: Device, key: KeyId): Store {
    s.(rows := s.rows[s.nextRow := Row(token, device, key, false)], nextRow := s.nextRow + 1)
  }

  /** One attempt: use or create the signing key, and store the token; None when a value is not unique. */
  ghost function Attempt(s: Store, device: Device, life: real, now: Clock, d: Draw): Option<(Store, Jwt)> {
    if d.refused || Several(s) || (!HasActive(s) && d.secret in Secrets(s)) then None
    else
      var t := if HasActive(s) then s else NewKey(s, d.secret);
      var k := if HasActive(s) then TheKey(s) else s.nextKey;
      var token := Jwt(Issued(device, k, d.jti, life, now), t.keys[k].secret);
      if token in Values(t) then None else Some((AddRow(t, token, device, k), token))
  }

  /** Try again after a refused attempt, up to three times in all. */
  ghost function Create(s: Store, device: Device, life: real, now: Clock, draws: seq<Draw>, tries: nat): Option<(Store, Jwt)>
    decreases tries
  {
    if tries == 0 || draws == [] then None
    else
      var r := Attempt(s, device, life, now, draws[0]);
      if r.Some? then r else Create(s, device, life, now, draws[1..], tries - 1)
  }

  function Rotate(s: Store, secret: Secret): Option<Store> {
    if secret in Secrets(s) then None else Some(NewKey(s, secret))
  }

  predicate Holds(s: Store, r: nat, token: Jwt) { r in s.rows && s.rows[r].token == token }

  function Revoke(s: Store, token: Jwt): Store {
    s.(rows := map r | r in s.rows :: if s.rows[r].token == token then s.rows[r].(revoked := true) else s.rows[r])
  }

  function RevokeDevice(s: Store, device: Device): Store {
    s.(rows := map r | r in s.rows :: if s.rows[r].device == device then s.rows[r].(revoked := true) else s.rows[r])
  }

  /** The row is unrevoked, its key is active and signed it, and it is within its lifetime. */
  predicate RowVerifies(s: Store, r: nat, now: Clock)
    requires r in s.rows
  {
    var row := s.rows[r];
    && !row.revoked && row.key in s.keys && s.keys[row.key].active && row.token.secret == s.keys[row.key].secret
    && row.token.claims.kid == row.key && Lifetime(row.token.claims, now) == Accepted
  }

  predicate Verifies(s: Store, token: Jwt, now: Clock) { exists r :: r in s.rows && Holds(s, r, token) && RowVerifies(s, r, now) }
}

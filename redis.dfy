/** The revocation blocklist of `src/db/redis.py`: a key-value store whose
    keys expire, holding the jti of every revoked token for a fixed time. */
module Redis {
  import opened Common

  /** Time to live of a blocklist entry (one hour). */
  const JTI_EXPIRATION_SECONDS: int := 3600

  /** A stored value and the instant its time to live runs out. */
  datatype Entry = Entry(value: string, expiresAt: int)

  /** `GET key` at time `now`: the stored value until the key expires. */
  function Get(entries: map<string, Entry>, key: string, now: int): (r: Option<string>)
    ensures r.Some? <==> key in entries && now < entries[key].expiresAt
    ensures r.Some? ==> r.value == entries[key].value
  {
    if key in entries && now < entries[key].expiresAt then Some(entries[key].value) else None
  }

  /** `SET key value EX ttl` at time `now`: the key reads as `value` until
      `now + ttl`, whatever it held before, and no other key changes. */
  function SetEx(entries: map<string, Entry>, key: string, value: string, ttl: int, now: int): (r: map<string, Entry>)
    ensures forall t :: Get(r, key, t) == (if t < now + ttl then Some(value) else None)
    ensures forall k, t :: k != key ==> Get(r, k, t) == Get(entries, k, t)
  {
    entries[key := Entry(value, now + ttl)]
  }

  /** `is_token_blocked`: a jti is blocked when GET finds any value for it. */
  predicate Blocked(entries: map<string, Entry>, jti: string, now: int): (b: bool)
    ensures b <==> jti in entries && now < entries[jti].expiresAt
  {
    Get(entries, jti, now).Some?
  }

  /** `add_token_to_blocklist` as a function of the store. */
  function Block(entries: map<string, Entry>, jti: string, now: int): (r: map<string, Entry>)
    ensures jti in r && r[jti] == Entry("", now + JTI_EXPIRATION_SECONDS)
    ensures forall k :: k != jti ==> (k in r <==> k in entries)
    ensures forall k :: k != jti && k in entries ==> r[k] == entries[k]
  {
    SetEx(entries, jti, "", JTI_EXPIRATION_SECONDS, now)
  }

  /** The shared blocklist store. */
  class Blocklist {
    var entries: map<string, Entry>

    constructor ()
      ensures entries == map[]
    {
      entries := map[];
    }

    /** `add_token_to_blocklist(jti)`: stores the empty string under `jti` for
        one hour from `now`. */
    method AddTokenToBlocklist(jti: string, now: int)
      modifies this
      ensures entries == Block(old(entries), jti, now)
    {
      entries := entries[jti := Entry("", now + JTI_EXPIRATION_SECONDS)];
    }

    /** `is_token_blocked(jti)`: whether GET finds a value, read without
        changing the store. */
    method IsTokenBlocked(jti: string, now: int) returns (b: bool)
      ensures b <==> Blocked(entries, jti, now)
      ensures b <==> jti in entries && now < entries[jti].expiresAt
    {
      var stored := Get(entries, jti, now);
      b := stored.Some?;
    }
  }

  /** After a jti is added at time `t`, it is blocked at every time before
      `t + 3600`, and the value found is the empty string, which still counts. */
  lemma BlockedWithinTtl(entries: map<string, Entry>, jti: string, t: int, at: int)
    requires at < t + JTI_EXPIRATION_SECONDS
    ensures Get(Block(entries, jti, t), jti, at) == Some("")
    ensures Blocked(Block(entries, jti, t), jti, at)
  {
  }

  /** Once an hour has passed since the last add, the jti is no longer blocked. */
  lemma UnblockedAfterTtl(entries: map<string, Entry>, jti: string, t: int, at: int)
    requires t + JTI_EXPIRATION_SECONDS <= at
    ensures !Blocked(Block(entries, jti, t), jti, at)
  {
  }

  /** Adding a jti leaves the status of every other jti as it was, at every time. */
  lemma BlockLeavesOthers(entries: map<string, Entry>, jti: string, other: string, t: int, at: int)
    requires other != jti
    ensures Blocked(Block(entries, jti, t), other, at) == Blocked(entries, other, at)
  {
  }

  /** Re-adding a jti restarts its hour from the later add, and adding twice at
      the same time is the same as adding once. */
  lemma ReAddResetsTtl(entries: map<string, Entry>, jti: string, t1: int, t2: int, at: int)
    ensures Blocked(Block(Block(entries, jti, t1), jti, t2), jti, at) <==> at < t2 + JTI_EXPIRATION_SECONDS
    ensures Block(Block(entries, jti, t1), jti, t1) == Block(entries, jti, t1)
  {
  }
}

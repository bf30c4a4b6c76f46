/** The store of db/redis_config.py: Redis sets (SADD, SREM, SRANDMEMBER)
    and string keys with a lifetime (SETEX, GET, DEL, EXISTS), reached
    through a client that does not decode replies, so the wrapper's
    `str(reply, 'utf-8')` raises on a missing reply.

    The commands are pure functions on a `KvState` value; module RedisConfig
    below holds the client class that issues them. */
module RedisCommands {
  import opened Common

  /** Redis's reply to SETEX with a lifetime that is not positive. */
  const InvalidExpireTime: Exception := RedisError("invalid expire time in 'setex' command")

  /** A string value and the instant (in seconds) at which it expires. */
  datatype Entry = Entry(value: string, expiresAt: int)

  /** Set keys and string keys. An expired string entry may linger in
      `strings`; every command treats it as absent. */
  datatype KvState = KvState(sets: map<string, set<string>>, strings: map<string, Entry>)
  {
    function Members(key: string): set<string>
    {
      if key in sets then sets[key] else {}
    }

    predicate Live(key: string, now: int)
    {
      key in strings && now < strings[key].expiresAt
    }
  }

  const Empty := KvState(map[], map[])

  /** SADD key value: the reply counts the newly added member. */
  function SAdd(s: KvState, key: string, value: string): (r: (KvState, nat))
    ensures r.0.Members(key) == s.Members(key) + {value}
    ensures forall k :: k != key ==> r.0.Members(k) == s.Members(k)
    ensures r.0.strings == s.strings
    ensures r.1 == 1 <==> value !in s.Members(key)
    ensures r.1 <= 1
  {
    (s.(sets := s.sets[key := s.Members(key) + {value}]), if value in s.Members(key) then 0 else 1)
  }

  /** SREM key value: the reply counts the removed member. */
  function SRem(s: KvState, key: string, value: string): (r: (KvState, nat))
    ensures r.0.Members(key) == s.Members(key) - {value}
    ensures forall k :: k != key ==> r.0.Members(k) == s.Members(k)
    ensures r.0.strings == s.strings
    ensures r.1 == 1 <==> value in s.Members(key)
    ensures r.1 <= 1
  {
    (s.(sets := s.sets[key := s.Members(key) - {value}]), if value in s.Members(key) then 1 else 0)
  }

  /** EXISTS key: 1 when the key holds a live string or a non-empty set.
      Members of a set are not keys. */
  function Exists(s: KvState, key: string, now: int): (n: nat)
    ensures n <= 1
    ensures n == 1 <==> s.Live(key, now) || s.Members(key) != {}
  {
    if s.Live(key, now) || s.Members(key) != {} then 1 else 0
  }

  /** Redis's parse of an integer argument (`string2ll`): an optional minus
      sign and decimal digits without leading zeros, or "0". */
  function ParseInteger(w: string): (r: Option<int>)
  {
    if w == "0" then Some(0)
    else if w != [] && w[0] == '-' then
      var d := ParseNatural(w[1..]);
      if d.Some? && d.value > 0 then Some(-d.value) else None
    else ParseNatural(w)
  }

  /** Digits without a leading zero (the value is then positive). */
  function ParseNatural(w: string): (r: Option<int>)
    ensures r.Some? ==> r.value > 0
  {
    if w == [] || !('1' <= w[0] <= '9') || !AllDigits(w) then None
    else LeadingDigitBound(w); Some(DigitsValue(w))
  }

  predicate AllDigits(w: string)
  {
    forall i :: 0 <= i < |w| ==> '0' <= w[i] <= '9'
  }

  function DigitsValue(w: string): (n: nat)
    requires AllDigits(w)
    decreases |w|
  {
    if w == [] then 0 else DigitsValue(w[..|w| - 1]) * 10 + (w[|w| - 1] - '0') as nat
  }

  lemma {:induction false} LeadingDigitBound(w: string)
    requires AllDigits(w)
    ensures w != [] && '1' <= w[0] <= '9' ==> DigitsValue(w) > 0
    decreases |w|
  {
    if |w| > 1 { LeadingDigitBound(w[..|w| - 1]); }
  }

  /** The character of a decimal digit. */
  function Digit(d: nat): (c: char)
    requires d < 10
    ensures '0' <= c <= '9' && (c - '0') as nat == d
  {
    ('0' as int + d) as char
  }

  /** The decimal spelling of a natural number, the inverse of ParseInteger
      on the values SETEX accepts. */
  function Decimal(n: nat): (w: string)
    ensures w != [] && AllDigits(w)
    ensures n > 0 ==> '1' <= w[0] <= '9'
    ensures DigitsValue(w) == n
    decreases n
  {
    if n < 10 then [Digit(n)]
    else
      var w := Decimal(n / 10) + [Digit(n % 10)];
      assert w[..|w| - 1] == Decimal(n / 10);
      w
  }

  lemma ParseDecimal(n: nat)
    ensures ParseInteger(Decimal(n)) == Some(n)
  {
    if n == 0 {
      assert Decimal(0) == "0";
    }
  }

  /** SETEX key seconds value. Redis refuses a lifetime that is not a
      positive integer. Any previous value of the key is replaced. */
  function SetEx(s: KvState, key: string, value: string, seconds: int, now: int): (r: Result<KvState>)
    ensures seconds <= 0 ==> r == Err(InvalidExpireTime)
    ensures seconds > 0 ==> r.Ok? && r.value.Live(key, now) && r.value.strings[key] == Entry(value, now + seconds)
    ensures r.Ok? ==> r.value.sets == s.sets && forall k :: k != key ==> (k in r.value.strings <==> k in s.strings)
    ensures r.Ok? ==> forall k :: k != key && k in s.strings ==> r.value.strings[k] == s.strings[k]
  {
    if seconds <= 0 then Err(InvalidExpireTime)
    else Ok(s.(strings := s.strings[key := Entry(value, now + seconds)]))
  }

  /** GET key, then `str(reply, 'utf-8')`: a missing or expired key gives a
      None reply and the decode raises TypeError. */
  function Get(s: KvState, key: string, now: int): (r: Result<string>)
    ensures r.Ok? <==> s.Live(key, now)
    ensures r.Ok? ==> r.value == s.strings[key].value
    ensures r.Err? ==> r.error == TypeError
  {
    if s.Live(key, now) then Ok(s.strings[key].value) else Err(TypeError)
  }

  /** DEL key: removes the key whatever it holds and counts it if it existed. */
  function Delete(s: KvState, key: string, now: int): (r: (KvState, nat))
    ensures !r.0.Live(key, now) && r.0.Members(key) == {}
    ensures forall k :: k != key ==> r.0.Members(k) == s.Members(k)
    ensures forall k :: k != key ==> (k in r.0.strings <==> k in s.strings)
    ensures forall k :: k != key && k in s.strings ==> r.0.strings[k] == s.strings[k]
    ensures r.1 == Exists(s, key, now)
  {
    (KvState(s.sets - {key}, s.strings - {key}), Exists(s, key, now))
  }

  /** Adding a present member changes nothing and replies 0. */
  lemma SAddIdempotent(s: KvState, key: string, value: string)
    requires value in s.Members(key)
    ensures SAdd(s, key, value).1 == 0
    ensures SAdd(s, key, value).0.Members(key) == s.Members(key)
  {
  }

  /** Adding twice is the same as adding once. */
  lemma SAddTwice(s: KvState, key: string, value: string)
    ensures SAdd(SAdd(s, key, value).0, key, value).0 == SAdd(s, key, value).0
    ensures SAdd(SAdd(s, key, value).0, key, value).1 == 0
  {
    var once := SAdd(s, key, value).0;
    assert once.sets[key := once.Members(key) + {value}] == once.sets;
  }

  /** SREM undoes an SADD of a new member. */
  lemma SRemUndoesSAdd(s: KvState, key: string, value: string)
    requires value !in s.Members(key)
    ensures SRem(SAdd(s, key, value).0, key, value).0.Members(key) == s.Members(key)
    ensures SRem(SAdd(s, key, value).0, key, value).1 == 1
  {
  }
}

/** The client wrapper `RedisClient` of db/redis_config.py. Its fields hold
    the state of the store; each method issues one command and is tied to
    the pure definition of that command. */
module RedisConfig {
  import opened Common
  import RedisCommands

  class RedisClient {
    var sets: map<string, set<string>>
    var strings: map<string, RedisCommands.Entry>

    function State(): RedisCommands.KvState
      reads this
    {
      RedisCommands.KvState(sets, strings)
    }

    constructor ()
      ensures State() == RedisCommands.Empty
    {
      sets, strings := map[], map[];
    }

    method SAdd(key: string, value: string) returns (added: nat)
      modifies this
      ensures (State(), added) == RedisCommands.SAdd(old(State()), key, value)
    {
      var r := RedisCommands.SAdd(State(), key, value);
      sets, strings := r.0.sets, r.0.strings;
      added := r.1;
    }

    method SRem(key: string, value: string) returns (removed: nat)
      modifies this
      ensures (State(), removed) == RedisCommands.SRem(old(State()), key, value)
    {
      var r := RedisCommands.SRem(State(), key, value);
      sets, strings := r.0.sets, r.0.strings;
      removed := r.1;
    }

    /** SRANDMEMBER key, then the utf-8 decode: a member chosen
        nondeterministically and left in place, or TypeError when the set is
        empty (the client's None reply cannot be decoded). */
    method SRandMember(key: string) returns (r: Result<string>)
      ensures r.Ok? <==> State().Members(key) != {}
      ensures r.Ok? ==> r.value in State().Members(key)
      ensures r.Err? ==> r.error == TypeError
    {
      var members := State().Members(key);
      if members == {} {
        return Err(TypeError);
      }
      var m :| m in members;
      r := Ok(m);
    }

    method Exists(key: string, now: int) returns (n: nat)
      ensures n == RedisCommands.Exists(State(), key, now)
    {
      n := RedisCommands.Exists(State(), key, now);
    }

    /** `setex(key, value, time)` issues SETEX key time value; every caller
        in the modelled code passes the lifetime, so the default of 300
        seconds is never used. */
    method SetEx(key: string, value: string, seconds: int, now: int) returns (r: Result<()>)
      modifies this
      ensures var spec := RedisCommands.SetEx(old(State()), key, value, seconds, now);
        (r.Ok? <==> spec.Ok?) && (spec.Ok? ==> State() == spec.value) && (spec.Err? ==> r.error == spec.error && State() == old(State()))
    {
      var spec := RedisCommands.SetEx(State(), key, value, seconds, now);
      if spec.Err? {
        return Err(spec.error);
      }
      sets, strings := spec.value.sets, spec.value.strings;
      r := Ok(());
    }

    /** `get(key)`: GET, then the utf-8 decode of the reply, which raises
        TypeError when the key is missing or expired. */
    method Get(key: string, now: int) returns (r: Result<string>)
      ensures r == RedisCommands.Get(State(), key, now)
    {
      r := RedisCommands.Get(State(), key, now);
    }

    method Delete(key: string, now: int) returns (n: nat)
      modifies this
      ensures (State(), n) == RedisCommands.Delete(old(State()), key, now)
    {
      var r := RedisCommands.Delete(State(), key, now);
      sets, strings := r.0.sets, r.0.strings;
      n := r.1;
    }
  }
}

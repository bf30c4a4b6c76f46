/** The two periodic jobs of handlers/cron_handler.py. The chat messages and
    log lines they send are left out; what remains is what each job does to
    the store and what it reports. */
module CronHandler {
  import opened Common
  import RedisCommands
  import opened RedisConfig
  import opened OpenaiKey

  /** What a validation tick did with the token it sampled. `NoToken` is the
      branch for a None sample, which the client never produces. */
  datatype Tick = NoToken | Kept(token: string) | Evicted(token: string)

  /** The effect of a validation tick once `token` has been sampled: the
      verdict of the validity check decides whether the token stays. */
  function Validate(st: RedisCommands.KvState, token: string, verdict: ValidateReply)
    : (r: (Result<Tick>, RedisCommands.KvState))
    ensures r.0.Err? ==> r.1 == st && ValidateOpenaiKey(verdict).Err?
    ensures r.0 == Ok(Kept(token)) <==> ValidateOpenaiKey(verdict) == Ok(true)
    ensures r.0 == Ok(Kept(token)) ==> r.1 == st
    ensures r.0 == Ok(Evicted(token)) <==> ValidateOpenaiKey(verdict) == Ok(false)
    ensures r.0 == Ok(Evicted(token)) ==>
      && r.1.Members(PoolKey) == st.Members(PoolKey) - {token}
      && (forall k :: k != PoolKey ==> r.1.Members(k) == st.Members(k))
      && r.1.strings == st.strings
    ensures r.0.Ok? ==> r.0.value.Kept? || r.0.value.Evicted?
    ensures st.Members(PoolKey) - r.1.Members(PoolKey) <= {token}
  {
    var valid := ValidateOpenaiKey(verdict);
    if valid.Err? then (Err(valid.error), st)
    else if valid.value then (Ok(Kept(token)), st)
    else (Ok(Evicted(token)), RedisCommands.SRem(st, PoolKey, token).0)
  }

  /** `cron_validate_openkey`: sample one token of the pool, validate it and
      remove it when it is invalid. An empty pool makes the sample raise
      TypeError, so the `token is None` branch is never taken. */
  method CronValidateOpenkey(store: RedisClient, verdict: ValidateReply) returns (r: Result<Tick>)
    modifies store
    ensures old(store.State()).Members(PoolKey) == {} ==> r == Err(TypeError) && store.State() == old(store.State())
    ensures r != Ok(NoToken)
    ensures r.Ok? ==> r.value.token in old(store.State()).Members(PoolKey)
    ensures r.Ok? ==> (r, store.State()) == Validate(old(store.State()), r.value.token, verdict)
    ensures r.Err? ==> store.State() == old(store.State())
  {
    var token := store.SRandMember(PoolKey);
    if token.Err? {
      return Err(token.error);
    }
    var valid := ValidateOpenaiKey(verdict);
    if valid.Err? {
      return Err(valid.error);
    }
    if valid.value {
      r := Ok(Kept(token.value));
    } else {
      var removed := store.SRem(PoolKey, token.value);
      r := Ok(Evicted(token.value));
    }
  }

  /** Over any run of ticks, a token that every verdict found valid is never
      removed: only a token judged invalid leaves the pool. */
  lemma {:induction false} ValidTokensStay(st: RedisCommands.KvState, samples: seq<string>,
                                           verdicts: seq<ValidateReply>, t: string)
    requires |samples| == |verdicts|
    requires t in st.Members(PoolKey)
    requires forall i :: 0 <= i < |samples| && samples[i] == t ==> ValidateOpenaiKey(verdicts[i]) != Ok(false)
    ensures t in Ticks(st, samples, verdicts).Members(PoolKey)
    decreases |samples|
  {
    if samples != [] {
      var next := Validate(st, samples[0], verdicts[0]).1;
      assert t in next.Members(PoolKey);
      ValidTokensStay(next, samples[1..], verdicts[1..], t);
    }
  }

  /** The pool after a run of ticks with the given samples and verdicts. */
  function Ticks(st: RedisCommands.KvState, samples: seq<string>, verdicts: seq<ValidateReply>)
    : (r: RedisCommands.KvState)
    requires |samples| == |verdicts|
    ensures r.Members(PoolKey) <= st.Members(PoolKey)
    ensures |st.Members(PoolKey) - r.Members(PoolKey)| <= |samples|
    decreases |samples|
  {
    if samples == [] then st
    else
      var next := Validate(st, samples[0], verdicts[0]).1;
      var r := Ticks(next, samples[1..], verdicts[1..]);
      assert st.Members(PoolKey) - r.Members(PoolKey)
          <= (st.Members(PoolKey) - next.Members(PoolKey)) + (next.Members(PoolKey) - r.Members(PoolKey));
      SubsetCard(st.Members(PoolKey) - next.Members(PoolKey), {samples[0]});
      UnionCard(st.Members(PoolKey) - next.Members(PoolKey), next.Members(PoolKey) - r.Members(PoolKey),
                st.Members(PoolKey) - r.Members(PoolKey));
      r
  }

  lemma SubsetCard(a: set<string>, b: set<string>)
    requires a <= b
    ensures |a| <= |b|
  {
    assert b == a + (b - a);
  }

  lemma UnionCard(a: set<string>, b: set<string>, c: set<string>)
    requires c <= a + b
    ensures |c| <= |a| + |b|
  {
    SubsetCard(c, a + b);
  }

  /** The report a key-request job sends. */
  datatype Report = NewTokens(tokens: seq<string>) | JobError(error: Exception)

  /** `cron_request_openkey`: ask for one key; both an outcome and an
      exception become a report, so the job itself never raises. */
  method CronRequestOpenkey(store: RedisClient, items: seq<EmailItem>, now: int, o: Oracles)
    returns (report: Report)
    modifies store
    ensures var run := Hack(items, 1, old(store.State()), now, o, Start, []);
      && store.State() == run.state
      && report == (if run.result.Ok? then NewTokens(run.result.value) else JobError(run.result.error))
  {
    var tokens := HackOpenaiToken(store, items, 1, now, o);
    if tokens.Ok? {
      report := NewTokens(tokens.value);
    } else {
      report := JobError(tokens.error);
    }
  }

  /** The report of a key-request job: with at most `bound` codes per mailbox
      read, it reports fewer than `1 + bound` tokens, every one of them in
      the pool afterwards, and the job only grows the store. */
  lemma RequestJobReport(items: seq<EmailItem>, st: RedisCommands.KvState, now: int, o: Oracles, bound: nat)
    requires 1 <= bound
    requires forall n :: o.icloud(n).ICloudCodes? ==> |o.icloud(n).codes| <= bound
    ensures var run := Hack(items, 1, st, now, o, Start, []);
      && Grows(st, run.state, now)
      && (run.result.Ok? ==>
            && |run.result.value| < 1 + bound
            && forall t :: t in run.result.value ==> t in run.state.Members(PoolKey))
  {
    HackKeys(items, 1, st, now, o, Start, []);
    HackOvershoot(items, 1, st, now, o, Start, [], bound);
  }
}

/** The token pool of db/redis_util.py: the Redis sorted set `all_openai_key`,
    member -> score, where the score is the admission time in whole seconds.
    ZADD, ZREM and ZRANGEBYSCORE are modelled by their documented semantics. */
module SortedPool {
  import opened Common

  /** Length of the default query window: 2.8 days in seconds. */
  const DefaultWindow: int := 241920

  /** Redis's reply to ZREM without members. */
  const ZRemWithoutMembers: Exception := RedisError("wrong number of arguments for 'zrem' command")

  /** Python's `int()` on a number: truncation toward zero. */
  function Truncate(x: real): (n: int)
    ensures 0.0 <= x ==> n as real <= x < n as real + 1.0
    ensures x < 0.0 ==> n as real - 1.0 < x <= n as real
  {
    if x >= 0.0 then x.Floor else -((-x).Floor)
  }

  /** Redis orders members of equal score by their bytes; for UTF-8 text
      this is the lexicographic order of code points. */
  predicate StrLess(a: string, b: string)
    decreases |a|
  {
    if a == [] then b != []
    else if b == [] then false
    else a[0] < b[0] || (a[0] == b[0] && StrLess(a[1..], b[1..]))
  }

  lemma {:induction false} StrLessIrreflexive(a: string)
    ensures !StrLess(a, a)
    decreases |a|
  {
    if a != [] { StrLessIrreflexive(a[1..]); }
  }

  lemma {:induction false} StrLessTrichotomy(a: string, b: string)
    ensures StrLess(a, b) || a == b || StrLess(b, a)
    ensures !(StrLess(a, b) && StrLess(b, a))
    decreases |a|
  {
    if a != [] && b != [] {
      StrLessTrichotomy(a[1..], b[1..]);
      if a[0] == b[0] && a[1..] == b[1..] {
        assert a == [a[0]] + a[1..] && b == [b[0]] + b[1..];
      }
    }
  }

  lemma {:induction false} StrLessTransitive(a: string, b: string, c: string)
    requires StrLess(a, b) && StrLess(b, c)
    ensures StrLess(a, c)
    decreases |a|
  {
    if a != [] && b != [] && c != [] && a[0] == b[0] && b[0] == c[0] {
      StrLessTransitive(a[1..], b[1..], c[1..]);
    }
  }

  /** The order of ZRANGEBYSCORE: by score, then by member. */
  predicate Before(scores: map<string, int>, a: string, b: string)
    requires a in scores && b in scores
  {
    scores[a] < scores[b] || (scores[a] == scores[b] && StrLess(a, b))
  }

  predicate Ascending(scores: map<string, int>, r: seq<string>)
    requires forall i :: 0 <= i < |r| ==> r[i] in scores
  {
    forall i, j :: 0 <= i < j < |r| ==> Before(scores, r[i], r[j])
  }

  lemma BeforeIrreflexive(scores: map<string, int>, a: string)
    requires a in scores
    ensures !Before(scores, a, a)
  {
    StrLessIrreflexive(a);
  }

  lemma BeforeTotal(scores: map<string, int>, a: string, b: string)
    requires a in scores && b in scores && a != b
    ensures Before(scores, a, b) || Before(scores, b, a)
  {
    StrLessTrichotomy(a, b);
  }

  lemma BeforeTransitive(scores: map<string, int>, a: string, b: string, c: string)
    requires a in scores && b in scores && c in scores
    requires Before(scores, a, b) && Before(scores, b, c)
    ensures Before(scores, a, c)
  {
    if scores[a] == scores[b] == scores[c] {
      StrLessTransitive(a, b, c);
    }
  }

  lemma BeforeAsymmetric(scores: map<string, int>, a: string, b: string)
    requires a in scores && b in scores
    ensures !(Before(scores, a, b) && Before(scores, b, a))
  {
    StrLessTrichotomy(a, b);
  }

  /** `m` comes first among `ks` in ZRANGEBYSCORE order. */
  predicate IsLeast(ks: set<string>, scores: map<string, int>, m: string)
    requires ks <= scores.Keys
  {
    m in ks && forall k :: k in ks && k != m ==> Before(scores, m, k)
  }

  /** Every non-empty set of members has a first one. */
  lemma {:induction false} LeastExists(ks: set<string>, scores: map<string, int>)
    requires ks != {} && ks <= scores.Keys
    ensures exists m :: IsLeast(ks, scores, m)
    decreases ks
  {
    var x :| x in ks;
    if ks == {x} {
      assert IsLeast(ks, scores, x);
    } else {
      LeastExists(ks - {x}, scores);
      var m :| IsLeast(ks - {x}, scores, m);
      if Before(scores, m, x) {
        assert IsLeast(ks, scores, m);
      } else {
        BeforeTotal(scores, m, x);
        forall k | k in ks && k != x
          ensures Before(scores, x, k)
        {
          if k != m {
            BeforeTransitive(scores, x, m, k);
          }
        }
        assert IsLeast(ks, scores, x);
      }
    }
  }

  /** The first one is unique. */
  lemma LeastUnique(ks: set<string>, scores: map<string, int>)
    requires ks <= scores.Keys
    ensures forall a, b :: IsLeast(ks, scores, a) && IsLeast(ks, scores, b) ==> a == b
  {
    forall a, b | IsLeast(ks, scores, a) && IsLeast(ks, scores, b)
      ensures a == b
    {
      BeforeAsymmetric(scores, a, b);
    }
  }

  /** The members of `ks` listed in ZRANGEBYSCORE order. */
  function Sorted(ks: set<string>, scores: map<string, int>): (r: seq<string>)
    requires ks <= scores.Keys
    ensures |r| == |ks|
    ensures forall i :: 0 <= i < |r| ==> r[i] in ks
    ensures forall k :: k in ks ==> k in r
    ensures Ascending(scores, r)
    decreases ks
  {
    if ks == {} then []
    else
      LeastExists(ks, scores);
      LeastUnique(ks, scores);
      var m :| IsLeast(ks, scores, m);
      var rest := Sorted(ks - {m}, scores);
      LeastThenRest(ks, scores, m, rest);
      [m] + rest
  }

  /** The first member followed by the others in order lists all of `ks` in
      order. */
  lemma LeastThenRest(ks: set<string>, scores: map<string, int>, m: string, rest: seq<string>)
    requires ks <= scores.Keys && IsLeast(ks, scores, m)
    requires |rest| == |ks - {m}|
    requires forall i :: 0 <= i < |rest| ==> rest[i] in ks - {m}
    requires forall k :: k in ks - {m} ==> k in rest
    requires Ascending(scores, rest)
    ensures var r := [m] + rest;
      && |r| == |ks|
      && (forall i :: 0 <= i < |r| ==> r[i] in ks)
      && (forall k :: k in ks ==> k in r)
      && Ascending(scores, r)
  {
    var r := [m] + rest;
    assert forall j :: 1 <= j < |r| ==> r[j] == rest[j - 1];
    forall i, j | 0 <= i < j < |r|
      ensures Before(scores, r[i], r[j])
    {
      if i > 0 {
        assert Before(scores, rest[i - 1], rest[j - 1]);
      }
    }
  }

  /** A score bound of ZRANGEBYSCORE: a number or `+inf`. */
  datatype Bound = At(n: int) | PlusInf

  predicate InWindow(score: int, lo: int, hi: Bound)
  {
    lo <= score && (hi.At? ==> score <= hi.n)
  }

  class RedisUtil {
    /** The sorted set `all_openai_key`: member -> score. */
    var scores: map<string, int>

    constructor ()
      ensures scores == map[]
    {
      scores := map[];
    }

    /** `add_token(token, value=None)`: ZADD with score `int(value)`, or the
        current time when no value is given. Returns ZADD's count of newly
        added members. */
    method AddToken(token: string, value: Option<real>, now: int) returns (added: nat)
      modifies this
      ensures scores == old(scores)[token := if value.Some? then Truncate(value.value) else now]
      ensures added == if token in old(scores) then 0 else 1
      ensures scores.Keys == old(scores).Keys + {token}
    {
      added := if token in scores then 0 else 1;
      scores := scores[token := if value.Some? then Truncate(value.value) else now];
    }

    /** `remove_token(*token)`: ZREM of every listed token. Absent tokens are
        ignored; the reply counts the members actually removed. Redis refuses
        ZREM without members. */
    method RemoveToken(tokens: seq<string>) returns (r: Result<nat>)
      modifies this
      ensures tokens == [] ==> r == Err(ZRemWithoutMembers) && scores == old(scores)
      ensures tokens != [] ==> r == Ok(|old(scores).Keys * set t | t in tokens|)
      ensures tokens != [] ==> scores == old(scores) - set t | t in tokens
    {
      if tokens == [] {
        return Err(ZRemWithoutMembers);
      }
      var gone := set t | t in tokens;
      r := Ok(|scores.Keys * gone|);
      scores := scores - gone;
    }

    /** `get_all_tokens(start, end)`: ZRANGEBYSCORE over [start, end].
        An omitted end means `+inf`; an omitted start means the default
        window back from `now`; explicit bounds go through `int()`. */
    function GetAllTokens(start: Option<real>, end: Option<real>, now: int): (r: seq<string>)
      reads this
      ensures forall k :: k in r <==> k in scores && InWindow(scores[k], Lower(start, now), Upper(end))
      ensures forall i, j :: 0 <= i < j < |r| ==> r[i] != r[j]
      ensures forall i :: 0 <= i < |r| ==> r[i] in scores
      ensures Ascending(scores, r)
    {
      var lo := Lower(start, now);
      var hi := Upper(end);
      var ks := set k | k in scores && InWindow(scores[k], lo, hi);
      var r := Sorted(ks, scores);
      assert forall i, j :: 0 <= i < j < |r| ==> r[i] != r[j] by {
        forall i, j | 0 <= i < j < |r| ensures r[i] != r[j] {
          BeforeIrreflexive(scores, r[i]);
        }
      }
      r
    }

    /** `get_random_token()`: `random.choice` over the default window, which
        raises IndexError on an empty list. The choice is nondeterministic. */
    method GetRandomToken(now: int) returns (r: Result<string>)
      ensures r.Err? <==> GetAllTokens(None, None, now) == []
      ensures r.Err? ==> r.error == IndexError
      ensures r.Ok? ==> r.value in GetAllTokens(None, None, now)
      ensures r.Ok? ==> r.value in scores && now - DefaultWindow <= scores[r.value]
    {
      var tokens := GetAllTokens(None, None, now);
      if tokens == [] {
        return Err(IndexError);
      }
      var i :| 0 <= i < |tokens|;
      r := Ok(tokens[i]);
    }
  }

  function Lower(start: Option<real>, now: int): (lo: int)
  {
    if start.Some? then Truncate(start.value) else now - DefaultWindow
  }

  function Upper(end: Option<real>): (hi: Bound)
  {
    if end.Some? then At(Truncate(end.value)) else PlusInf
  }
}

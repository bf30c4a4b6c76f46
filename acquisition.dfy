/** Key acquisition of openkey/openai_key.py. Every network and mailbox call
    is an oracle: an infinite sequence of replies, read in call order through
    a cursor. `random.shuffle` is the order in which the configured items
    are given; the random letters of a plus address are draws of letter
    indices. The store is the RedisClient of db/redis_config.py.

    Each loop of the source is a method on the client, proved equal to a
    pure reference function over the store's state; the properties of the
    source are lemmas about those functions. */
module OpenaiKey {
  import opened Common
  import RedisCommands
  import opened RedisConfig

  const PoolKey: string := "all_openai_key"
  const GmailSuffix: string := "@gmail.com"
  const ICloudSuffix: string := "@icloud.com"
  /** `60 * 60 * 24`: how long an address stays cached after it yielded a key. */
  const AddressLifetime: int := 86400

  type LetterIndex = i: nat | i < 26

  /** `generate_random_letters(length)`: `draw(i)` is the index into
      `string.ascii_lowercase` that `random.choice` picks for position i. */
  function GenerateRandomLetters(length: nat, draw: nat -> LetterIndex): (s: string)
    ensures |s| == length
    ensures forall i :: 0 <= i < |s| ==> 'a' <= s[i] <= 'z'
  {
    seq(length, (i: int) requires 0 <= i => ('a' as int + draw(i)) as char)
  }

  /** A configured mailbox: its address and, for Gmail, its refresh token. */
  datatype EmailItem = EmailItem(email: string, refreshToken: Option<string>)

  /** The JSON body of a reply, as far as the code looks at it. */
  datatype Body = Unparseable | JsonObject(statusIsOne: bool)

  datatype CodeReply = CodeTransportError | CodeResponse(status: int, body: Body)
  datatype CodeEmail = CodeEmail(code: string, email: string)
  datatype GmailReply = GmailRaised | GmailCode(code: string)
  datatype ICloudReply = ICloudRaised | ICloudNone | ICloudCodes(codes: seq<CodeEmail>)
  datatype KeyReply = KeyTransportError | KeyUnparseable | KeyJson(token: Option<string>)
  datatype ValidateReply = ValidateTransportError | ValidateResponse(status: int, isJson: bool)

  /** The replies of the outside world, one sequence per kind of call. */
  datatype Oracles = Oracles(
    code: nat -> CodeReply,
    gmail: nat -> GmailReply,
    icloud: nat -> ICloudReply,
    key: nat -> KeyReply,
    letters: nat -> nat -> LetterIndex)

  /** The calls made so far: the addresses a verification code was requested
      for, in order, and how many mailbox reads and key requests were made.
      The next reply of each oracle is the one at that count. */
  datatype Cursor = Cursor(requested: seq<string>, gmail: nat, icloud: nat, key: nat)

  const Start := Cursor([], 0, 0, 0)

  /** The outcome of a run: what the method returns or raises, the store
      afterwards and the calls made. */
  datatype Run = Run(result: Result<seq<string>>, state: RedisCommands.KvState, cur: Cursor)

  /** `validate_openai_key`: the body is parsed as JSON before the status is
      looked at, so a transport failure or a non-JSON body raises. */
  function ValidateOpenaiKey(reply: ValidateReply): (r: Result<bool>)
    ensures reply.ValidateResponse? && reply.isJson <==> r.Ok?
    ensures r.Ok? ==> (r.value <==> reply.status == 200)
  {
    match reply
    case ValidateTransportError => Err(TransportError)
    case ValidateResponse(status, isJson) =>
      if !isJson then Err(JsonDecodeError) else Ok(status == 200)
  }

  /** The guard of lines 208 and 252: a code request succeeded when the
      status is 200 and the JSON field `status` is 1. The body is parsed
      only for a 200 reply. */
  function CodeRequestAccepted(reply: CodeReply): (r: Result<bool>)
    ensures r == Ok(true) <==> reply == CodeResponse(200, JsonObject(true))
    ensures r.Err? <==> reply.CodeTransportError? || reply == CodeResponse(200, Unparseable)
  {
    match reply
    case CodeTransportError => Err(TransportError)
    case CodeResponse(status, body) =>
      if status != 200 then Ok(false)
      else if body.Unparseable? then Err(JsonDecodeError)
      else Ok(body.statusIsOne)
  }

  /** `request_for_openai_key`: the `token` field of the JSON reply. */
  function RequestForOpenaiKey(reply: KeyReply): (token: Result<Option<string>>)
  {
    match reply
    case KeyTransportError => Err(TransportError)
    case KeyUnparseable => Err(JsonDecodeError)
    case KeyJson(token) => Ok(token)
  }

  /** Nothing the acquisition does removes anything: every set keeps its
      members and every live key stays live. */
  ghost predicate Grows(a: RedisCommands.KvState, b: RedisCommands.KvState, now: int)
  {
    && (forall k :: a.Members(k) <= b.Members(k))
    && (forall k :: a.Live(k, now) ==> b.Live(k, now))
  }

  /** `request_for_openai_key_and_set_cache`, on the state of the store: a
      token is added to the pool set and the address is cached to it for a
      day; no token, or a failed request, leaves the store as it was. */
  function RequestKeyAndCache(st: RedisCommands.KvState, address: string, reply: KeyReply, now: int)
    : (r: (Result<Option<string>>, RedisCommands.KvState))
    ensures r.0 == RequestForOpenaiKey(reply)
    ensures r.0.Ok? && r.0.value.Some? ==>
      var t := r.0.value.value;
      && r.1.Members(PoolKey) == st.Members(PoolKey) + {t}
      && r.1.Live(address, now) && r.1.strings[address] == RedisCommands.Entry(t, now + AddressLifetime)
      && (forall k :: k != PoolKey ==> r.1.Members(k) == st.Members(k))
      && (forall k :: k != address ==> (k in r.1.strings <==> k in st.strings))
      && (forall k :: k != address && k in st.strings ==> r.1.strings[k] == st.strings[k])
    ensures !(r.0.Ok? && r.0.value.Some?) ==> r.1 == st
    ensures Grows(st, r.1, now)
  {
    var token := RequestForOpenaiKey(reply);
    if token.Err? || token.value.None? then (token, st)
    else
      var added := RedisCommands.SAdd(st, PoolKey, token.value.value).0;
      var cached := RedisCommands.SetEx(added, address, token.value.value, AddressLifetime, now);
      (token, cached.value)
  }

  /** Which mailbox class the source builds for an address. */
  datatype Mailbox = Gmail | ICloud | NoMailbox

  function MailboxFor(address: string): (m: Mailbox)
    ensures m == Gmail <==> EndsWith(address, GmailSuffix)
    ensures m == ICloud <==> !EndsWith(address, GmailSuffix) && EndsWith(address, ICloudSuffix)
  {
    if EndsWith(address, GmailSuffix) then Gmail
    else if EndsWith(address, ICloudSuffix) then ICloud
    else NoMailbox
  }

  /** `Gmail(item).read_email_code()` and `ICloud(item).read_email_code()`:
      the codes read, None (only iCloud swallows its errors into None), or
      the exception raised. Building a Gmail reader needs the item's refresh
      token. Gmail reports one code for its own address. */
  function ReadCodes(item: EmailItem, mailbox: Mailbox, o: Oracles, cur: Cursor)
    : (r: (Result<Option<seq<CodeEmail>>>, Cursor))
    requires mailbox != NoMailbox
    ensures r.1.requested == cur.requested && r.1.key == cur.key
    ensures mailbox == Gmail && r.0.Ok? ==> r.0.value.Some? && |r.0.value.value| == 1 && r.0.value.value[0].email == item.email
    ensures r.0.Err? ==> r.0.error == MailError || (mailbox == Gmail && r.0.error == KeyError("refresh_token"))
  {
    if mailbox == Gmail then
      if item.refreshToken.None? then (Err(KeyError("refresh_token")), cur)
      else
        var next := cur.(gmail := cur.gmail + 1);
        match o.gmail(cur.gmail)
        case GmailRaised => (Err(MailError), next)
        case GmailCode(code) => (Ok(Some([CodeEmail(code, item.email)])), next)
    else
      var next := cur.(icloud := cur.icloud + 1);
      match o.icloud(cur.icloud)
      case ICloudRaised => (Err(MailError), next)
      case ICloudNone => (Ok(None), next)
      case ICloudCodes(codes) => (Ok(Some(codes)), next)
  }

  /** One code of the inner loop: the code is exchanged for a key, which is
      cached. With `contain` an exception is logged and the loop goes on
      with the keys it had (read_code_and_request_key); without it the
      exception ends the run (the two hack loops). */
  function RedeemOne(code: CodeEmail, contain: bool, st: RedisCommands.KvState, now: int, o: Oracles,
                     cur: Cursor, keys: seq<string>): (r: Run)
  {
    var step := RequestKeyAndCache(st, code.email, o.key(cur.key), now);
    var next := cur.(key := cur.key + 1);
    if step.0.Err? then
      if contain then Run(Ok(keys), step.1, next) else Run(Err(step.0.error), step.1, next)
    else if step.0.value.None? then Run(Ok(keys), step.1, next)
    else Run(Ok(keys + [step.0.value.value]), step.1, next)
  }

  /** The `for` loop over a code list. */
  function RedeemCodes(codes: seq<CodeEmail>, contain: bool, st: RedisCommands.KvState, now: int,
                       o: Oracles, cur: Cursor, keys: seq<string>): (run: Run)
    ensures run.cur == cur.(key := cur.key + |codes|) || (!contain && run.result.Err?)
    decreases |codes|
  {
    if codes == [] then Run(Ok(keys), st, cur)
    else
      var step := RedeemOne(codes[0], contain, st, now, o, cur, keys);
      if step.result.Err? then step
      else RedeemCodes(codes[1..], contain, step.state, now, o, step.cur, step.result.value)
  }

  /** One pass of the `for email_item` loop of `hack_openai_token`, once the
      `num_keys` check has let it through: a skipped item gives back the
      keys it was given. */
  function HackItem(item: EmailItem, st: RedisCommands.KvState, now: int, o: Oracles, cur: Cursor,
                    keys: seq<string>): (r: Run)
  {
    if RedisCommands.Exists(st, item.email, now) != 0 then Run(Ok(keys), st, cur)
    else
      var accepted := CodeRequestAccepted(o.code(|cur.requested|));
      var cur1 := cur.(requested := cur.requested + [item.email]);
      if accepted.Err? then Run(Err(accepted.error), st, cur1)
      else if !accepted.value then Run(Ok(keys), st, cur1)
      else
        var mailbox := MailboxFor(item.email);
        if mailbox == NoMailbox then Run(Ok(keys), st, cur1)
        else
          var read := ReadCodes(item, mailbox, o, cur1);
          if read.0.Err? then Run(Err(read.0.error), st, read.1)
          else if read.0.value.None? then Run(Ok(keys), st, read.1)
          else RedeemCodes(read.0.value.value, false, st, now, o, read.1, keys)
  }

  /** `hack_openai_token(num_keys)` from the item at hand on, with `keys`
      collected so far. */
  function Hack(items: seq<EmailItem>, numKeys: int, st: RedisCommands.KvState, now: int,
                o: Oracles, cur: Cursor, keys: seq<string>): (run: Run)
    decreases |items|
  {
    if items == [] || |keys| >= numKeys then Run(Ok(keys), st, cur)
    else
      var step := HackItem(items[0], st, now, o, cur, keys);
      if step.result.Err? then step
      else Hack(items[1..], numKeys, step.state, now, o, step.cur, step.result.value)
  }

  /** `str.replace(pat, rep)`: every non-overlapping occurrence, left to right. */
  function ReplaceAll(s: string, pat: string, rep: string): (r: string)
    requires pat != []
    decreases |s|
  {
    if |s| < |pat| then s
    else if s[..|pat|] == pat then rep + ReplaceAll(s[|pat|..], pat, rep)
    else [s[0]] + ReplaceAll(s[1..], pat, rep)
  }

  /** The plus address of one attempt: `+` and five random letters before
      every `@gmail.com`. */
  function PlusAddress(address: string, letters: string): (plus: string)
  {
    ReplaceAll(address, GmailSuffix, "+" + letters + GmailSuffix)
  }

  /** Attempt `count` of the plus loop, after the loop condition: a refused
      request gives back the keys it was given. */
  function PlusAttempt(item: EmailItem, count: nat, st: RedisCommands.KvState, now: int, o: Oracles,
                       cur: Cursor, keys: seq<string>): (r: Run)
  {
    var letters := GenerateRandomLetters(5, o.letters(count));
    var attempt := item.(email := PlusAddress(item.email, letters));
    var accepted := CodeRequestAccepted(o.code(|cur.requested|));
    var cur1 := cur.(requested := cur.requested + [attempt.email]);
    if accepted.Err? then Run(Err(accepted.error), st, cur1)
    else if !accepted.value then Run(Ok(keys), st, cur1)
    else
      var read := ReadCodes(attempt, Gmail, o, cur1);
      if read.0.Err? then Run(Err(read.0.error), st, read.1)
      else RedeemCodes(read.0.value.value, false, st, now, o, read.1, keys)
  }

  /** The `while` loop of `hack_openai_token_via_plus_gmail`, from attempt
      `count` on. */
  function PlusLoop(item: EmailItem, numKey: int, count: nat, st: RedisCommands.KvState, now: int,
                    o: Oracles, cur: Cursor, keys: seq<string>): (run: Run)
    decreases 2 * numKey - count
  {
    if !(|keys| < numKey && count < 2 * numKey) then Run(Ok(keys), st, cur)
    else
      var step := PlusAttempt(item, count, st, now, o, cur, keys);
      if step.result.Err? then step
      else PlusLoop(item, numKey, count + 1, step.state, now, o, step.cur, step.result.value)
  }

  function GmailItems(items: seq<EmailItem>): (g: seq<EmailItem>)
    ensures forall i :: 0 <= i < |g| ==> EndsWith(g[i].email, GmailSuffix) && g[i] in items
    ensures g != [] ==> g[0] in items && EndsWith(g[0].email, GmailSuffix)
    ensures (exists i :: 0 <= i < |items| && EndsWith(items[i].email, GmailSuffix)) ==> g != []
  {
    if items == [] then []
    else if EndsWith(items[0].email, GmailSuffix) then [items[0]] + GmailItems(items[1..])
    else
      var rest := GmailItems(items[1..]);
      assert (exists i :: 0 <= i < |items| && EndsWith(items[i].email, GmailSuffix)) ==>
        exists i :: 0 <= i < |items[1..]| && EndsWith(items[1..][i].email, GmailSuffix) by {
        if i :| 0 <= i < |items| && EndsWith(items[i].email, GmailSuffix) {
          assert i > 0 && EndsWith(items[1..][i - 1].email, GmailSuffix);
        }
      }
      rest
  }

  /** `hack_openai_token_via_plus_gmail(num_key)`. */
  function HackPlus(items: seq<EmailItem>, numKey: int, st: RedisCommands.KvState, now: int, o: Oracles): (run: Run)
  {
    var gmails := GmailItems(items);
    if gmails == [] then Run(Ok([]), st, Start)
    else PlusLoop(gmails[0], numKey, 0, st, now, o, Start, [])
  }

  function ConfiguredWith(config: seq<EmailItem>, address: string): (m: seq<EmailItem>)
    ensures forall i :: 0 <= i < |m| ==> m[i].email == address && m[i] in config
    ensures (exists i :: 0 <= i < |config| && config[i].email == address) ==> m != []
  {
    if config == [] then []
    else if config[0].email == address then [config[0]] + ConfiguredWith(config[1..], address)
    else
      var rest := ConfiguredWith(config[1..], address);
      assert (exists i :: 0 <= i < |config| && config[i].email == address) ==>
        exists i :: 0 <= i < |config[1..]| && config[1..][i].email == address by {
        if i :| 0 <= i < |config| && config[i].email == address {
          assert i > 0 && config[1..][i - 1].email == address;
        }
      }
      rest
  }

  /** `read_code_and_request_key(email_address)`. */
  function ReadCodeAndRequest(address: string, config: seq<EmailItem>, st: RedisCommands.KvState,
                              now: int, o: Oracles): (run: Run)
  {
    var mailbox := MailboxFor(address);
    if mailbox == NoMailbox then Run(Err(Unsupported(address)), st, Start)
    else
      var configured := ConfiguredWith(config, address);
      if mailbox == Gmail && configured == [] then Run(Err(Unsupported(address)), st, Start)
      else
        var item := if mailbox == Gmail then configured[0] else EmailItem(address, None);
        var read := ReadCodes(item, mailbox, o, Start);
        if read.0.Err? then Run(Err(read.0.error), st, read.1)
        else if read.0.value.None? || read.0.value.value == [] then Run(Err(ReadCodeFailed(address)), st, read.1)
        else RedeemCodes(read.0.value.value, true, st, now, o, read.1, [])
  }

  // ---------------------------------------------------------------------
  // The methods, on the client, proved equal to the functions above.
  // ---------------------------------------------------------------------

  /** `request_for_openai_key_and_set_cache(email_address, code)`. */
  method RequestForOpenaiKeyAndSetCache(store: RedisClient, address: string, reply: KeyReply, now: int)
    returns (token: Result<Option<string>>)
    modifies store
    ensures (token, store.State()) == RequestKeyAndCache(old(store.State()), address, reply, now)
  {
    token := RequestForOpenaiKey(reply);
    if token.Ok? && token.value.Some? {
      var added := store.SAdd(PoolKey, token.value.value);
      var cached := store.SetEx(address, token.value.value, AddressLifetime, now);
    }
  }

  /** One pass of the `for ec in code_list` loop: redeem one code, keep the
      token it brings, and swallow a failure when `contain` is set. */
  method RedeemCode(store: RedisClient, code: CodeEmail, contain: bool, now: int, o: Oracles, cur0: Cursor,
                    keys0: seq<string>)
    returns (r: Result<seq<string>>, cur: Cursor)
    modifies store
    ensures Run(r, store.State(), cur) == RedeemOne(code, contain, old(store.State()), now, o, cur0, keys0)
  {
    var token := RequestForOpenaiKeyAndSetCache(store, code.email, o.key(cur0.key), now);
    cur := cur0.(key := cur0.key + 1);
    if token.Err? {
      r := if contain then Ok(keys0) else Err(token.error);
    } else if token.value.None? {
      r := Ok(keys0);
    } else {
      r := Ok(keys0 + [token.value.value]);
    }
  }

  /** The `for ec in code_list` loop shared by the three acquisition methods. */
  method RedeemCodeList(store: RedisClient, codes: seq<CodeEmail>, contain: bool, now: int, o: Oracles,
                        cur0: Cursor, keys0: seq<string>)
    returns (r: Result<seq<string>>, cur: Cursor)
    modifies store
    ensures var run := RedeemCodes(codes, contain, old(store.State()), now, o, cur0, keys0);
      r == run.result && store.State() == run.state && cur == run.cur
  {
    var keys := keys0;
    cur := cur0;
    var i := 0;
    while i < |codes|
      invariant 0 <= i <= |codes|
      invariant RedeemCodes(codes, contain, old(store.State()), now, o, cur0, keys0)
             == RedeemCodes(codes[i..], contain, store.State(), now, o, cur, keys)
    {
      RedeemCodesUnfold(codes, i, contain, store.State(), now, o, cur, keys);
      var step;
      step, cur := RedeemCode(store, codes[i], contain, now, o, cur, keys);
      if step.Err? {
        return step, cur;
      }
      keys := step.value;
      i := i + 1;
    }
    r := Ok(keys);
  }

  /** One turn of the code loop, from position `i`. */
  lemma RedeemCodesUnfold(codes: seq<CodeEmail>, i: nat, contain: bool, st: RedisCommands.KvState, now: int,
                          o: Oracles, cur: Cursor, keys: seq<string>)
    requires i < |codes|
    ensures var step := RedeemOne(codes[i], contain, st, now, o, cur, keys);
      && (step.result.Err? ==> RedeemCodes(codes[i..], contain, st, now, o, cur, keys) == step)
      && (step.result.Ok? ==> RedeemCodes(codes[i..], contain, st, now, o, cur, keys)
                               == RedeemCodes(codes[i + 1..], contain, step.state, now, o, step.cur, step.result.value))
  {
    assert codes[i..][1..] == codes[i + 1..];
  }

  /** `OpenaiKey.hack_openai_token(num_keys)`; `items` is the configured
      list in the order the shuffle left it. */
  method HackOpenaiToken(store: RedisClient, items: seq<EmailItem>, numKeys: int, now: int, o: Oracles)
    returns (r: Result<seq<string>>)
    modifies store
    ensures var run := Hack(items, numKeys, old(store.State()), now, o, Start, []);
      r == run.result && store.State() == run.state
  {
    var keys: seq<string> := [];
    var cur := Start;
    var i := 0;
    while i < |items|
      invariant 0 <= i <= |items|
      invariant Hack(items, numKeys, old(store.State()), now, o, Start, [])
             == Hack(items[i..], numKeys, store.State(), now, o, cur, keys)
    {
      if |keys| >= numKeys {
        break;
      }
      var item := items[i];
      var cached := store.Exists(item.email, now);
      if cached != 0 {
        i := i + 1;
        continue;
      }
      var accepted := CodeRequestAccepted(o.code(|cur.requested|));
      cur := cur.(requested := cur.requested + [item.email]);
      if accepted.Err? {
        return Err(accepted.error);
      }
      var mailbox := MailboxFor(item.email);
      if !accepted.value || mailbox == NoMailbox {
        i := i + 1;
        continue;
      }
      var read := ReadCodes(item, mailbox, o, cur);
      cur := read.1;
      if read.0.Err? {
        return Err(read.0.error);
      }
      if read.0.value.None? {
        i := i + 1;
        continue;
      }
      var redeemed;
      redeemed, cur := RedeemCodeList(store, read.0.value.value, false, now, o, cur, keys);
      if redeemed.Err? {
        return redeemed;
      }
      keys := redeemed.value;
      i := i + 1;
    }
    r := Ok(keys);
  }

  /** `OpenaiKey.hack_openai_token_via_plus_gmail(num_key)`. */
  method HackOpenaiTokenViaPlusGmail(store: RedisClient, items: seq<EmailItem>, numKey: int, now: int, o: Oracles)
    returns (r: Result<seq<string>>)
    modifies store
    ensures var run := HackPlus(items, numKey, old(store.State()), now, o);
      r == run.result && store.State() == run.state
  {
    var gmails := GmailItems(items);
    if gmails == [] {
      return Ok([]);
    }
    var item := gmails[0];
    var keys: seq<string> := [];
    var count: nat := 0;
    var cur := Start;
    while |keys| < numKey && count < 2 * numKey
      invariant HackPlus(items, numKey, old(store.State()), now, o)
             == PlusLoop(item, numKey, count, store.State(), now, o, cur, keys)
      decreases 2 * numKey - count
    {
      var letters := GenerateRandomLetters(5, o.letters(count));
      count := count + 1;
      var attempt := item.(email := PlusAddress(item.email, letters));
      var accepted := CodeRequestAccepted(o.code(|cur.requested|));
      cur := cur.(requested := cur.requested + [attempt.email]);
      if accepted.Err? {
        return Err(accepted.error);
      }
      if !accepted.value {
        continue;
      }
      var read := ReadCodes(attempt, Gmail, o, cur);
      cur := read.1;
      if read.0.Err? {
        return Err(read.0.error);
      }
      var redeemed;
      redeemed, cur := RedeemCodeList(store, read.0.value.value, false, now, o, cur, keys);
      if redeemed.Err? {
        return redeemed;
      }
      keys := redeemed.value;
    }
    r := Ok(keys);
  }

  /** `OpenaiKey.read_code_and_request_key(email_address)`; `config` is the
      configured list of mailboxes. */
  method ReadCodeAndRequestKey(store: RedisClient, address: string, config: seq<EmailItem>, now: int, o: Oracles)
    returns (r: Result<seq<string>>)
    modifies store
    ensures var run := ReadCodeAndRequest(address, config, old(store.State()), now, o);
      r == run.result && store.State() == run.state
  {
    var mailbox := MailboxFor(address);
    if mailbox == NoMailbox {
      return Err(Unsupported(address));
    }
    var configured := ConfiguredWith(config, address);
    if mailbox == Gmail && configured == [] {
      return Err(Unsupported(address));
    }
    var item := if mailbox == Gmail then configured[0] else EmailItem(address, None);
    var read := ReadCodes(item, mailbox, o, Start);
    if read.0.Err? {
      return Err(read.0.error);
    }
    if read.0.value.None? || read.0.value.value == [] {
      return Err(ReadCodeFailed(address));
    }
    var cur;
    r, cur := RedeemCodeList(store, read.0.value.value, true, now, o, read.1, []);
  }

  // ---------------------------------------------------------------------
  // Properties of the acquisition loops.
  // ---------------------------------------------------------------------

  /** The keys from position `from` on are all in the pool. */
  ghost predicate KeysInPool(keys: seq<string>, from: nat, st: RedisCommands.KvState)
  {
    forall i :: from <= i < |keys| ==> keys[i] in st.Members(PoolKey)
  }

  lemma GrowsReflexive(st: RedisCommands.KvState, now: int)
    ensures Grows(st, st, now)
  {
  }

  lemma GrowsTransitive(a: RedisCommands.KvState, b: RedisCommands.KvState, c: RedisCommands.KvState, now: int)
    requires Grows(a, b, now) && Grows(b, c, now)
    ensures Grows(a, c, now)
  {
  }

  /** Keys in the pool of `st`, then more keys in the pool of a grown store:
      all of them are in the grown pool. */
  lemma KeysInPoolExtend(mid: seq<string>, final: seq<string>, from: nat, st: RedisCommands.KvState,
                         st': RedisCommands.KvState, now: int)
    requires mid <= final && from <= |mid|
    requires KeysInPool(mid, from, st) && Grows(st, st', now) && KeysInPool(final, |mid|, st')
    ensures KeysInPool(final, from, st')
  {
    forall i | from <= i < |final| ensures final[i] in st'.Members(PoolKey) {
      if i < |mid| {
        assert final[i] == mid[i] && mid[i] in st.Members(PoolKey);
      }
    }
  }

  /** One code only grows the store, moves only the key-request count,
      keeps the keys it has and adds at most one key, which is in the pool.
      When it contains errors it never raises. */
  lemma RedeemOneFacts(code: CodeEmail, contain: bool, st: RedisCommands.KvState, now: int, o: Oracles,
                       cur: Cursor, keys: seq<string>)
    ensures var r := RedeemOne(code, contain, st, now, o, cur, keys);
      && Grows(st, r.state, now)
      && r.cur == cur.(key := cur.key + 1)
      && (contain ==> r.result.Ok?)
      && (r.result.Ok? ==>
            && keys <= r.result.value && |r.result.value| <= |keys| + 1
            && KeysInPool(r.result.value, |keys|, r.state))
  {
  }

  /** The code loop only grows the store and makes no call other than key
      requests. When it contains errors it never raises. */
  lemma {:induction false} RedeemCodesGrows(codes: seq<CodeEmail>, contain: bool, st: RedisCommands.KvState,
                                            now: int, o: Oracles, cur: Cursor, keys: seq<string>)
    ensures var run := RedeemCodes(codes, contain, st, now, o, cur, keys);
      && Grows(st, run.state, now)
      && run.cur.requested == cur.requested && run.cur.gmail == cur.gmail && run.cur.icloud == cur.icloud
      && (contain ==> run.result.Ok?)
    decreases |codes|
  {
    GrowsReflexive(st, now);
    if codes == [] {
      return;
    }
    var step := RedeemOne(codes[0], contain, st, now, o, cur, keys);
    RedeemOneFacts(codes[0], contain, st, now, o, cur, keys);
    if step.result.Ok? {
      RedeemCodesGrows(codes[1..], contain, step.state, now, o, step.cur, step.result.value);
      GrowsTransitive(st, step.state, RedeemCodes(codes, contain, st, now, o, cur, keys).state, now);
    }
  }

  /** The code loop keeps the keys it was given, adds at most one key per
      code, and leaves every key it adds in the pool. */
  lemma {:induction false} RedeemCodesFacts(codes: seq<CodeEmail>, contain: bool, st: RedisCommands.KvState,
                                            now: int, o: Oracles, cur: Cursor, keys: seq<string>)
    ensures var run := RedeemCodes(codes, contain, st, now, o, cur, keys);
      run.result.Ok? ==>
        && keys <= run.result.value
        && |run.result.value| <= |keys| + |codes|
        && KeysInPool(run.result.value, |keys|, run.state)
    decreases |codes|
  {
    if codes == [] {
      return;
    }
    var whole := RedeemCodes(codes, contain, st, now, o, cur, keys);
    var step := RedeemOne(codes[0], contain, st, now, o, cur, keys);
    RedeemOneFacts(codes[0], contain, st, now, o, cur, keys);
    if step.result.Ok? {
      RedeemCodesFacts(codes[1..], contain, step.state, now, o, step.cur, step.result.value);
      RedeemCodesGrows(codes[1..], contain, step.state, now, o, step.cur, step.result.value);
      if whole.result.Ok? {
        KeysInPoolExtend(step.result.value, whole.result.value, |keys|, step.state, whole.state, now);
      }
    }
  }

  /** One item of `hack_openai_token` only grows the store, keeps the keys
      it has and adds keys that are in the pool. It requests at most one
      code, for the item's address, and only when that address did not
      exist as a key. */
  lemma HackItemFacts(item: EmailItem, st: RedisCommands.KvState, now: int, o: Oracles, cur: Cursor,
                      keys: seq<string>)
    ensures var r := HackItem(item, st, now, o, cur, keys);
      && Grows(st, r.state, now)
      && (r.cur.requested == cur.requested
          || (r.cur.requested == cur.requested + [item.email] && RedisCommands.Exists(st, item.email, now) == 0))
      && (r.result.Ok? ==> keys <= r.result.value && KeysInPool(r.result.value, |keys|, r.state))
  {
    var r := HackItem(item, st, now, o, cur, keys);
    GrowsReflexive(st, now);
    if RedisCommands.Exists(st, item.email, now) != 0 {
      assert r == Run(Ok(keys), st, cur);
      return;
    }
    var accepted := CodeRequestAccepted(o.code(|cur.requested|));
    var cur1 := cur.(requested := cur.requested + [item.email]);
    if accepted.Err? || !accepted.value {
      assert r.state == st && r.cur == cur1 && (r.result.Err? || r.result == Ok(keys));
      return;
    }
    var mailbox := MailboxFor(item.email);
    if mailbox == NoMailbox {
      assert r == Run(Ok(keys), st, cur1);
      return;
    }
    var read := ReadCodes(item, mailbox, o, cur1);
    if read.0.Err? {
      assert r == Run(Err(read.0.error), st, read.1);
    } else if read.0.value.None? {
      assert r == Run(Ok(keys), st, read.1);
    } else {
      assert r == RedeemCodes(read.0.value.value, false, st, now, o, read.1, keys);
      RedeemCodesGrows(read.0.value.value, false, st, now, o, read.1, keys);
      RedeemCodesFacts(read.0.value.value, false, st, now, o, read.1, keys);
    }
  }

  /** An address that already exists as a key is skipped before any code is
      requested; an address with neither mail suffix gets its code request
      but is skipped before any mailbox is read, and adds no key. */
  lemma HackItemSkips(item: EmailItem, st: RedisCommands.KvState, now: int, o: Oracles, cur: Cursor,
                      keys: seq<string>)
    ensures RedisCommands.Exists(st, item.email, now) != 0 ==>
              HackItem(item, st, now, o, cur, keys) == Run(Ok(keys), st, cur)
    ensures MailboxFor(item.email) == NoMailbox ==>
              var r := HackItem(item, st, now, o, cur, keys);
              r.state == st && r.cur.key == cur.key && r.cur.gmail == cur.gmail && r.cur.icloud == cur.icloud
              && (r.result.Ok? ==> r.result.value == keys)
  {
  }

  /** With at most `bound` codes per mailbox read, one item of
      `hack_openai_token` adds at most `bound` keys. */
  lemma HackItemBound(item: EmailItem, st: RedisCommands.KvState, now: int, o: Oracles, cur: Cursor,
                      keys: seq<string>, bound: nat)
    requires 1 <= bound
    requires forall n :: o.icloud(n).ICloudCodes? ==> |o.icloud(n).codes| <= bound
    ensures var r := HackItem(item, st, now, o, cur, keys);
      r.result.Ok? ==> |r.result.value| <= |keys| + bound
  {
    var r := HackItem(item, st, now, o, cur, keys);
    if RedisCommands.Exists(st, item.email, now) != 0 {
      assert r == Run(Ok(keys), st, cur);
      return;
    }
    var accepted := CodeRequestAccepted(o.code(|cur.requested|));
    var cur1 := cur.(requested := cur.requested + [item.email]);
    if accepted.Err? || !accepted.value {
      assert r.state == st && r.cur == cur1 && (r.result.Err? || r.result == Ok(keys));
      return;
    }
    var mailbox := MailboxFor(item.email);
    if mailbox == NoMailbox {
      assert r == Run(Ok(keys), st, cur1);
      return;
    }
    var read := ReadCodes(item, mailbox, o, cur1);
    if read.0.Err? {
      assert r == Run(Err(read.0.error), st, read.1);
    } else if read.0.value.None? {
      assert r == Run(Ok(keys), st, read.1);
    } else {
      assert r == RedeemCodes(read.0.value.value, false, st, now, o, read.1, keys);
      assert |read.0.value.value| <= bound;
      RedeemCodesFacts(read.0.value.value, false, st, now, o, read.1, keys);
    }
  }

  /** `hack_openai_token` only grows the store, keeps the keys it has, and
      every key it returns is in the pool. */
  lemma {:induction false} HackKeys(items: seq<EmailItem>, numKeys: int, st: RedisCommands.KvState, now: int,
                                    o: Oracles, cur: Cursor, keys: seq<string>)
    ensures var run := Hack(items, numKeys, st, now, o, cur, keys);
      && Grows(st, run.state, now)
      && (run.result.Ok? ==> keys <= run.result.value && KeysInPool(run.result.value, |keys|, run.state))
    decreases |items|
  {
    GrowsReflexive(st, now);
    if items == [] || |keys| >= numKeys {
      return;
    }
    var whole := Hack(items, numKeys, st, now, o, cur, keys);
    var step := HackItem(items[0], st, now, o, cur, keys);
    HackItemFacts(items[0], st, now, o, cur, keys);
    if step.result.Ok? {
      HackKeys(items[1..], numKeys, step.state, now, o, step.cur, step.result.value);
      GrowsTransitive(st, step.state, whole.state, now);
      if whole.result.Ok? {
        KeysInPoolExtend(step.result.value, whole.result.value, |keys|, step.state, whole.state, now);
      }
    }
  }

  /** The code requests `reqs` of a walk over `items`, in item order: each
      item adds at most one request, for its own address, and only when that
      address did not exist as a key in `st`. */
  ghost predicate RequestsInItemOrder(reqs: seq<string>, items: seq<EmailItem>, st: RedisCommands.KvState,
                                      now: int)
    decreases |items|
  {
    if items == [] then reqs == []
    else
      || RequestsInItemOrder(reqs, items[1..], st, now)
      || (&& reqs != [] && reqs[0] == items[0].email
          && RedisCommands.Exists(st, items[0].email, now) == 0
          && RequestsInItemOrder(reqs[1..], items[1..], st, now))
  }

  lemma {:induction false} NoRequestsInItemOrder(items: seq<EmailItem>, st: RedisCommands.KvState, now: int)
    ensures RequestsInItemOrder([], items, st, now)
    decreases |items|
  {
    if items != [] {
      NoRequestsInItemOrder(items[1..], st, now);
    }
  }

  /** An address absent from a grown store was absent from the original
      one, so requests in order for the grown store are so for the original. */
  lemma {:induction false} RequestsInItemOrderShrink(reqs: seq<string>, items: seq<EmailItem>,
                                                     st: RedisCommands.KvState, st': RedisCommands.KvState, now: int)
    requires Grows(st, st', now)
    requires RequestsInItemOrder(reqs, items, st', now)
    ensures RequestsInItemOrder(reqs, items, st, now)
    decreases |items|
  {
    if items == [] {
      return;
    }
    if RequestsInItemOrder(reqs, items[1..], st', now) {
      RequestsInItemOrderShrink(reqs, items[1..], st, st', now);
    } else {
      assert !st'.Live(items[0].email, now) && st'.Members(items[0].email) == {};
      RequestsInItemOrderShrink(reqs[1..], items[1..], st, st', now);
    }
  }

  /** `hack_openai_token` walks the items in order and requests a code at
      most once per item, for that item's address, and never for an address
      that already existed as a key when the run started. */
  lemma {:induction false} HackRequests(items: seq<EmailItem>, numKeys: int, st: RedisCommands.KvState, now: int,
                                        o: Oracles, cur: Cursor, keys: seq<string>)
    ensures var run := Hack(items, numKeys, st, now, o, cur, keys);
      && cur.requested <= run.cur.requested
      && |run.cur.requested| <= |cur.requested| + |items|
      && RequestsInItemOrder(run.cur.requested[|cur.requested|..], items, st, now)
    decreases |items|
  {
    if items == [] || |keys| >= numKeys {
      NoRequestsInItemOrder(items, st, now);
      return;
    }
    var whole := Hack(items, numKeys, st, now, o, cur, keys);
    var step := HackItem(items[0], st, now, o, cur, keys);
    HackItemFacts(items[0], st, now, o, cur, keys);
    var n := |cur.requested|;
    var m := |step.cur.requested|;
    if step.result.Err? {
      assert whole == step;
      assert whole.cur.requested[m..] == [];
      NoRequestsInItemOrder(items[1..], step.state, now);
    } else {
      HackRequests(items[1..], numKeys, step.state, now, o, step.cur, step.result.value);
    }
    RequestsInItemOrderShrink(whole.cur.requested[m..], items[1..], st, step.state, now);
    if step.cur.requested == cur.requested {
      assert whole.cur.requested[n..] == whole.cur.requested[m..];
    } else {
      assert whole.cur.requested[n..][1..] == whole.cur.requested[m..];
      assert whole.cur.requested[n..][0] == items[0].email;
    }
  }

  /** No new address is started once `num_keys` keys are held, but one
      address can still add a whole code list: with at most `bound` codes
      per mailbox read, the result stays below `num_keys + bound`. */
  lemma {:induction false} HackOvershoot(items: seq<EmailItem>, numKeys: int, st: RedisCommands.KvState, now: int,
                                         o: Oracles, cur: Cursor, keys: seq<string>, bound: nat)
    requires 1 <= bound
    requires |keys| < numKeys + bound
    requires forall n :: o.icloud(n).ICloudCodes? ==> |o.icloud(n).codes| <= bound
    ensures var run := Hack(items, numKeys, st, now, o, cur, keys);
      run.result.Ok? ==> |run.result.value| < numKeys + bound
    decreases |items|
  {
    if items == [] || |keys| >= numKeys {
      return;
    }
    var step := HackItem(items[0], st, now, o, cur, keys);
    HackItemBound(items[0], st, now, o, cur, keys, bound);
    if step.result.Ok? {
      HackOvershoot(items[1..], numKeys, step.state, now, o, step.cur, step.result.value, bound);
    }
  }

  /** How many attempts the plus loop still makes at most. */
  function AttemptsLeft(numKey: int, count: nat): (n: nat)
  {
    if 2 * numKey > count then 2 * numKey - count else 0
  }

  /** The code requests from position `from` on are the plus addresses of
      `address` made from the letters of attempts `count`, `count + 1`, ... */
  ghost predicate PlusRequests(reqs: seq<string>, from: nat, address: string, count: nat, o: Oracles)
  {
    forall j :: from <= j < |reqs| ==>
      reqs[j] == PlusAddress(address, GenerateRandomLetters(5, o.letters(count + j - from)))
  }

  lemma PlusRequestsFirst(reqs: seq<string>, from: nat, address: string, count: nat, o: Oracles)
    requires from < |reqs|
    requires reqs[from] == PlusAddress(address, GenerateRandomLetters(5, o.letters(count)))
    requires PlusRequests(reqs, from + 1, address, count + 1, o)
    ensures PlusRequests(reqs, from, address, count, o)
  {
    forall j | from + 1 <= j < |reqs|
      ensures reqs[j] == PlusAddress(address, GenerateRandomLetters(5, o.letters(count + j - from)))
    {
      assert count + 1 + j - (from + 1) == count + j - from;
    }
  }

  /** One attempt of the plus loop only grows the store, keeps the keys it
      has and adds keys that are in the pool, and requests exactly one
      code: for the plus address made from that attempt's letters. */
  lemma PlusAttemptFacts(item: EmailItem, count: nat, st: RedisCommands.KvState, now: int, o: Oracles,
                         cur: Cursor, keys: seq<string>)
    ensures var r := PlusAttempt(item, count, st, now, o, cur, keys);
      && r.cur.requested == cur.requested + [PlusAddress(item.email, GenerateRandomLetters(5, o.letters(count)))]
  {
    var attempt := item.(email := PlusAddress(item.email, GenerateRandomLetters(5, o.letters(count))));
    var cur1 := cur.(requested := cur.requested + [attempt.email]);
    if CodeRequestAccepted(o.code(|cur.requested|)) == Ok(true) {
      var read := ReadCodes(attempt, Gmail, o, cur1);
      if read.0.Ok? {
        RedeemCodesGrows(read.0.value.value, false, st, now, o, read.1, keys);
      }
    }
  }

  /** One plus attempt only grows the store and keeps the keys it was given,
      and the keys it adds are in the pool. Gmail reports one code per read,
      so an attempt adds at most one key. */
  lemma PlusAttemptKeys(item: EmailItem, count: nat, st: RedisCommands.KvState, now: int, o: Oracles,
                        cur: Cursor, keys: seq<string>)
    ensures var r := PlusAttempt(item, count, st, now, o, cur, keys);
      && Grows(st, r.state, now)
      && (r.result.Ok? ==> keys <= r.result.value && KeysInPool(r.result.value, |keys|, r.state))
      && (r.result.Ok? ==> |r.result.value| <= |keys| + 1)
  {
    GrowsReflexive(st, now);
    var attempt := item.(email := PlusAddress(item.email, GenerateRandomLetters(5, o.letters(count))));
    var cur1 := cur.(requested := cur.requested + [attempt.email]);
    if CodeRequestAccepted(o.code(|cur.requested|)) == Ok(true) {
      var read := ReadCodes(attempt, Gmail, o, cur1);
      if read.0.Ok? {
        RedeemCodesGrows(read.0.value.value, false, st, now, o, read.1, keys);
        RedeemCodesFacts(read.0.value.value, false, st, now, o, read.1, keys);
      }
    }
  }

  /** The plus loop makes one code request per attempt and at most
      `2 * num_key` attempts in all, and every address it requests is the
      plus address made from that attempt's letters. */
  lemma {:induction false} PlusLoopRequests(item: EmailItem, numKey: int, count: nat, st: RedisCommands.KvState,
                                            now: int, o: Oracles, cur: Cursor, keys: seq<string>)
    ensures var run := PlusLoop(item, numKey, count, st, now, o, cur, keys);
      && cur.requested <= run.cur.requested
      && |run.cur.requested| <= |cur.requested| + AttemptsLeft(numKey, count)
      && PlusRequests(run.cur.requested, |cur.requested|, item.email, count, o)
    decreases 2 * numKey - count
  {
    if !(|keys| < numKey && count < 2 * numKey) {
      return;
    }
    var whole := PlusLoop(item, numKey, count, st, now, o, cur, keys);
    var step := PlusAttempt(item, count, st, now, o, cur, keys);
    PlusAttemptFacts(item, count, st, now, o, cur, keys);
    if step.result.Err? {
      assert whole == step;
      assert PlusRequests(whole.cur.requested, |step.cur.requested|, item.email, count + 1, o);
    } else {
      PlusLoopRequests(item, numKey, count + 1, step.state, now, o, step.cur, step.result.value);
    }
    PlusRequestsFirst(whole.cur.requested, |cur.requested|, item.email, count, o);
  }

  /** The loop condition in both directions: the plus loop stops early only
      once it holds `num_key` keys (a run that returns normally either has
      them or used every attempt), and it never goes past `num_key`, since
      each attempt adds at most one key. */
  lemma {:induction false} PlusLoopStops(item: EmailItem, numKey: int, count: nat, st: RedisCommands.KvState,
                                         now: int, o: Oracles, cur: Cursor, keys: seq<string>)
    ensures var run := PlusLoop(item, numKey, count, st, now, o, cur, keys);
      && (run.result.Ok? ==>
            |run.result.value| >= numKey || |run.cur.requested| == |cur.requested| + AttemptsLeft(numKey, count))
      && (run.result.Ok? ==> |run.result.value| <= if |keys| >= numKey then |keys| else numKey)
    decreases 2 * numKey - count
  {
    if !(|keys| < numKey && count < 2 * numKey) {
      return;
    }
    var step := PlusAttempt(item, count, st, now, o, cur, keys);
    PlusAttemptFacts(item, count, st, now, o, cur, keys);
    PlusAttemptKeys(item, count, st, now, o, cur, keys);
    if step.result.Ok? {
      PlusLoopStops(item, numKey, count + 1, step.state, now, o, step.cur, step.result.value);
    }
  }

  /** The plus loop only grows the store, keeps the keys it was given, and
      every key it adds is in the pool. */
  lemma {:induction false} PlusLoopKeys(item: EmailItem, numKey: int, count: nat, st: RedisCommands.KvState,
                                        now: int, o: Oracles, cur: Cursor, keys: seq<string>)
    ensures var run := PlusLoop(item, numKey, count, st, now, o, cur, keys);
      && Grows(st, run.state, now)
      && (run.result.Ok? ==> keys <= run.result.value && KeysInPool(run.result.value, |keys|, run.state))
    decreases 2 * numKey - count
  {
    GrowsReflexive(st, now);
    if !(|keys| < numKey && count < 2 * numKey) {
      return;
    }
    var whole := PlusLoop(item, numKey, count, st, now, o, cur, keys);
    var step := PlusAttempt(item, count, st, now, o, cur, keys);
    PlusAttemptKeys(item, count, st, now, o, cur, keys);
    if step.result.Err? {
      assert whole.result == step.result && whole.state == step.state;
      return;
    }
    var rest := PlusLoop(item, numKey, count + 1, step.state, now, o, step.cur, step.result.value);
    assert whole.result == rest.result && whole.state == rest.state;
    PlusLoopKeys(item, numKey, count + 1, step.state, now, o, step.cur, step.result.value);
    GrowsTransitive(st, step.state, rest.state, now);
    if rest.result.Ok? {
      KeysInPoolExtend(step.result.value, rest.result.value, |keys|, step.state, rest.state, now);
    }
  }

  /** `hack_openai_token_via_plus_gmail`: with no Gmail address configured it
      returns [] and does nothing; otherwise it requests codes only for plus
      addresses of one configured Gmail address, at most `2 * num_key` of
      them, stops early only once it holds `num_key` keys, and never returns
      more than `num_key` keys. */
  lemma HackPlusFacts(items: seq<EmailItem>, numKey: int, st: RedisCommands.KvState, now: int, o: Oracles)
    ensures var run := HackPlus(items, numKey, st, now, o);
      && (!(exists i :: 0 <= i < |items| && EndsWith(items[i].email, GmailSuffix)) ==> run == Run(Ok([]), st, Start))
      && Grows(st, run.state, now)
      && |run.cur.requested| <= AttemptsLeft(numKey, 0)
      && (forall j :: 0 <= j < |run.cur.requested| ==>
            exists g :: g in items && EndsWith(g.email, GmailSuffix) &&
              run.cur.requested[j] == PlusAddress(g.email, GenerateRandomLetters(5, o.letters(j))))
      && (run.result.Ok? && (exists i :: 0 <= i < |items| && EndsWith(items[i].email, GmailSuffix)) ==>
            |run.result.value| >= numKey || |run.cur.requested| == AttemptsLeft(numKey, 0))
      && (run.result.Ok? ==> forall t :: t in run.result.value ==> t in run.state.Members(PoolKey))
      && (run.result.Ok? ==> |run.result.value| <= if numKey > 0 then numKey else 0)
  {
    var gmails := GmailItems(items);
    var run := HackPlus(items, numKey, st, now, o);
    if gmails != [] {
      var g := gmails[0];
      var k :| 0 <= k < |items| && items[k] == g;
      assert EndsWith(items[k].email, GmailSuffix);
      PlusLoopRequests(g, numKey, 0, st, now, o, Start, []);
      PlusLoopStops(g, numKey, 0, st, now, o, Start, []);
      PlusLoopKeys(g, numKey, 0, st, now, o, Start, []);
      assert run == PlusLoop(g, numKey, 0, st, now, o, Start, []);
      forall j | 0 <= j < |run.cur.requested|
        ensures exists g :: g in items && EndsWith(g.email, GmailSuffix) &&
                            run.cur.requested[j] == PlusAddress(g.email, GenerateRandomLetters(5, o.letters(j)))
      {
        assert run.cur.requested[j] == PlusAddress(g.email, GenerateRandomLetters(5, o.letters(j)));
      }
    }
  }

  /** Python's `str.replace` leaves a string without the pattern unchanged. */
  lemma {:induction false} ReplaceAllAbsent(s: string, pat: string, rep: string)
    requires pat != []
    requires forall i :: 0 <= i <= |s| ==> !StartsWith(s[i..], pat)
    ensures ReplaceAll(s, pat, rep) == s
    decreases |s|
  {
    if |s| >= |pat| {
      assert !StartsWith(s[0..], pat) && s[0..] == s;
      forall i | 0 <= i <= |s[1..]| ensures !StartsWith(s[1..][i..], pat) {
        assert s[1..][i..] == s[i + 1..];
      }
      ReplaceAllAbsent(s[1..], pat, rep);
    }
  }

  /** A pattern whose first character does not occur before it is
      replaced only at the end. */
  lemma {:induction false} ReplaceAllAtEnd(local: string, pat: string, rep: string)
    requires pat != [] && pat[0] !in local
    ensures ReplaceAll(local + pat, pat, rep) == local + rep
    decreases |local|
  {
    var s := local + pat;
    if local == [] {
      assert s[..|pat|] == pat && s[|pat|..] == [];
    } else {
      assert s[..|pat|] != pat by {
        assert s[..|pat|][0] == local[0];
      }
      assert ReplaceAll(s, pat, rep) == [local[0]] + ReplaceAll(s[1..], pat, rep);
      assert s[1..] == local[1..] + pat;
      assert pat[0] !in local[1..] by {
        assert forall i :: 0 <= i < |local[1..]| ==> local[1..][i] == local[i + 1];
      }
      ReplaceAllAtEnd(local[1..], pat, rep);
      assert local == [local[0]] + local[1..];
    }
  }

  /** For an ordinary Gmail address (one `@`, at the suffix) the rewrite
      inserts `+` and the letters just before `@gmail.com`. */
  lemma PlusAddressOfGmail(local: string, letters: string)
    requires '@' !in local
    ensures PlusAddress(local + GmailSuffix, letters) == local + "+" + letters + GmailSuffix
  {
    assert GmailSuffix[0] == '@';
    ReplaceAllAtEnd(local, GmailSuffix, "+" + letters + GmailSuffix);
    assert local + ("+" + letters + GmailSuffix) == local + "+" + letters + GmailSuffix;
  }

  /** `read_code_and_request_key` raises for an address with an unsupported
      suffix and for a Gmail address that is not configured, both before any
      call. It raises "Read code from ... failed" exactly when the address is
      an iCloud one whose read returned None or no codes (a Gmail read that
      does not raise always reports one code), before any key request. It
      raises only before writing anything, and a failed key request never
      escapes it. */
  lemma ReadCodeAndRequestRefuses(address: string, config: seq<EmailItem>, st: RedisCommands.KvState,
                                  now: int, o: Oracles)
    ensures var run := ReadCodeAndRequest(address, config, st, now, o);
      && (MailboxFor(address) == NoMailbox ==> run == Run(Err(Unsupported(address)), st, Start))
      && (MailboxFor(address) == Gmail && (forall i :: 0 <= i < |config| ==> config[i].email != address) ==>
            run == Run(Err(Unsupported(address)), st, Start))
      && (run.result.Err? ==> run.state == st)
      && (run.result.Err? ==>
            || run.result.error == Unsupported(address) || run.result.error == ReadCodeFailed(address)
            || run.result.error == MailError || run.result.error == KeyError("refresh_token"))
      && (run.result == Err(ReadCodeFailed(address)) <==>
            MailboxFor(address) == ICloud && (o.icloud(0) == ICloudNone || o.icloud(0) == ICloudCodes([])))
      && (run.result == Err(ReadCodeFailed(address)) ==> run.state == st && run.cur.key == 0)
  {
    var run := ReadCodeAndRequest(address, config, st, now, o);
    var mailbox := MailboxFor(address);
    if mailbox == NoMailbox {
      assert run == Run(Err(Unsupported(address)), st, Start);
      return;
    }
    var configured := ConfiguredWith(config, address);
    if mailbox == Gmail && configured == [] {
      assert run == Run(Err(Unsupported(address)), st, Start);
      return;
    }
    if mailbox == Gmail {
      assert configured[0] in config && configured[0].email == address;
    }
    var item := if mailbox == Gmail then configured[0] else EmailItem(address, None);
    var read := ReadCodes(item, mailbox, o, Start);
    ReadCodeFailedExactly(address, config, st, now, o);
    if read.0.Err? {
      assert run == Run(Err(read.0.error), st, read.1);
    } else if read.0.value.None? || read.0.value.value == [] {
      assert run == Run(Err(ReadCodeFailed(address)), st, read.1);
    } else {
      assert run == RedeemCodes(read.0.value.value, true, st, now, o, read.1, []);
      RedeemCodesGrows(read.0.value.value, true, st, now, o, read.1, []);
    }
  }

  /** The "Read code from ... failed" branch of `read_code_and_request_key`:
      it is taken exactly when an iCloud read returns None or no codes, and
      then nothing has been written or requested. */
  lemma ReadCodeFailedExactly(address: string, config: seq<EmailItem>, st: RedisCommands.KvState,
                              now: int, o: Oracles)
    ensures var run := ReadCodeAndRequest(address, config, st, now, o);
      && (run.result == Err(ReadCodeFailed(address)) <==>
            MailboxFor(address) == ICloud && (o.icloud(0) == ICloudNone || o.icloud(0) == ICloudCodes([])))
      && (run.result == Err(ReadCodeFailed(address)) ==> run.state == st && run.cur.key == 0)
  {
    var run := ReadCodeAndRequest(address, config, st, now, o);
    var mailbox := MailboxFor(address);
    if mailbox == NoMailbox || (mailbox == Gmail && ConfiguredWith(config, address) == []) {
      assert run.result == Err(Unsupported(address));
      return;
    }
    var item := if mailbox == Gmail then ConfiguredWith(config, address)[0] else EmailItem(address, None);
    var read := ReadCodes(item, mailbox, o, Start);
    if read.0.Err? {
      assert run.result == Err(read.0.error);
    } else if read.0.value.None? || read.0.value.value == [] {
      assert mailbox == ICloud;
      assert run.result == Err(ReadCodeFailed(address)) && run.state == st && run.cur == read.1;
    } else {
      assert run == RedeemCodes(read.0.value.value, true, st, now, o, read.1, []);
      RedeemCodesGrows(read.0.value.value, true, st, now, o, read.1, []);
    }
  }

  /** `read_code_and_request_key` only grows the store, and what it returns
      is in the pool. */
  lemma ReadCodeAndRequestKeys(address: string, config: seq<EmailItem>, st: RedisCommands.KvState,
                               now: int, o: Oracles)
    ensures var run := ReadCodeAndRequest(address, config, st, now, o);
      && Grows(st, run.state, now)
      && (run.result.Ok? ==> forall t :: t in run.result.value ==> t in run.state.Members(PoolKey))
  {
    var run := ReadCodeAndRequest(address, config, st, now, o);
    var mailbox := MailboxFor(address);
    if mailbox == NoMailbox {
      assert run.state == st && run.result.Err?;
      return;
    }
    var configured := ConfiguredWith(config, address);
    if mailbox == Gmail && configured == [] {
      assert run.state == st && run.result.Err?;
      return;
    }
    var item := if mailbox == Gmail then configured[0] else EmailItem(address, None);
    var read := ReadCodes(item, mailbox, o, Start);
    if read.0.Err? || read.0.value.None? || read.0.value.value == [] {
      assert run.state == st && run.result.Err?;
    } else {
      assert run == RedeemCodes(read.0.value.value, true, st, now, o, read.1, []);
      RedeemCodesGrows(read.0.value.value, true, st, now, o, read.1, []);
      RedeemCodesFacts(read.0.value.value, true, st, now, o, read.1, []);
    }
  }
}

/** The operator conversation of handlers/redis_handler.py: the reply that
    answers a prompt for an add-token, remove-token, set-cache or
    remove-cache action, and the free-form Redis mode. Chat replies, the
    inactivity timer and the job queue are left out; which characters
    `str.split()` treats as whitespace is a parameter. */
module RedisHandler {
  import opened Common
  import RedisCommands
  import opened RedisConfig
  import OpenaiKey

  /** Conversation states (handlers/constants.py), and
      `ConversationHandler.END`. */
  const RedisMode: int := 0
  const WaitSingleInput: int := 1
  const End: int := -1

  /** The pending action stored with the prompt (handlers/constants.py).
      The fifth action, HACK_TOKEN, is not handled here: like any other
      value it ends the conversation and leaves the store alone. */
  const AddToken: int := 0
  const RemoveToken: int := 1
  const SetCache: int := 2
  const RemoveCache: int := 3

  /** Redis's reply to a lifetime that is not an integer. */
  const NotAnInteger: Exception := RedisError("value is not an integer or out of range")

  /** The message answers the prompt whose id was stored; no stored id, or
      no replied-to message, never matches. */
  predicate RepliesToPrompt(replyTo: Option<int>, promptId: Option<int>)
  {
    replyTo.Some? && promptId == replyTo
  }

  /** The actions that take exactly one word. */
  predicate SingleWordAction(action: Option<int>)
  {
    action == Some(AddToken) || action == Some(RemoveToken) || action == Some(RemoveCache)
  }

  /** `handle_redis_operation_input`: the next conversation state (or the
      exception the store raised) and the store afterwards. */
  function OperationInput(st: RedisCommands.KvState, text: string, isSpace: char -> bool, replyTo: Option<int>,
                          promptId: Option<int>, action: Option<int>, now: int)
    : (r: (Result<int>, RedisCommands.KvState))
    ensures !RepliesToPrompt(replyTo, promptId) ==> r == (Ok(WaitSingleInput), st)
    ensures r.0.Ok? ==> r.0.value == End || r.0.value == WaitSingleInput
    ensures r.0 == Ok(WaitSingleInput) ==> r.1 == st
    ensures r.0.Err? ==> r.1 == st && action == Some(SetCache)
    ensures RepliesToPrompt(replyTo, promptId) && SingleWordAction(action) && |Split(text, isSpace)| != 1 ==>
      r == (Ok(WaitSingleInput), st)
    ensures RepliesToPrompt(replyTo, promptId) && action == Some(SetCache) && |Split(text, isSpace)| != 3 ==>
      r == (Ok(WaitSingleInput), st)
    ensures RepliesToPrompt(replyTo, promptId) && !SingleWordAction(action) && action != Some(SetCache) ==>
      r == (Ok(End), st)
    ensures RepliesToPrompt(replyTo, promptId) && action == Some(AddToken) && |Split(text, isSpace)| == 1 ==>
      var w := Split(text, isSpace)[0];
      && r.0 == Ok(End)
      && r.1.Members(OpenaiKey.PoolKey) == st.Members(OpenaiKey.PoolKey) + {w}
      && (forall k :: k != OpenaiKey.PoolKey ==> r.1.Members(k) == st.Members(k))
      && r.1.strings == st.strings
    ensures RepliesToPrompt(replyTo, promptId) && action == Some(RemoveToken) && |Split(text, isSpace)| == 1 ==>
      var w := Split(text, isSpace)[0];
      && r.0 == Ok(End)
      && r.1.Members(OpenaiKey.PoolKey) == st.Members(OpenaiKey.PoolKey) - {w}
      && (forall k :: k != OpenaiKey.PoolKey ==> r.1.Members(k) == st.Members(k))
      && r.1.strings == st.strings
    ensures RepliesToPrompt(replyTo, promptId) && action == Some(RemoveCache) && |Split(text, isSpace)| == 1 ==>
      var w := Split(text, isSpace)[0];
      && r.0 == Ok(End)
      && !r.1.Live(w, now) && r.1.Members(w) == {}
      && (forall k :: k != w ==> r.1.Members(k) == st.Members(k))
      && (forall k :: k != w ==> (k in r.1.strings <==> k in st.strings))
      && (forall k :: k != w && k in st.strings ==> r.1.strings[k] == st.strings[k])
    ensures RepliesToPrompt(replyTo, promptId) && action == Some(SetCache) && |Split(text, isSpace)| == 3 ==>
      var inputs := Split(text, isSpace);
      var seconds := RedisCommands.ParseInteger(inputs[1]);
      && (seconds.None? ==> r == (Err(NotAnInteger), st))
      && (seconds.Some? && seconds.value <= 0 ==> r.0.Err?)
      && (seconds.Some? && seconds.value > 0 ==>
            && r.0 == Ok(End)
            && r.1.Live(inputs[0], now)
            && r.1.strings[inputs[0]] == RedisCommands.Entry(inputs[2], now + seconds.value)
            && r.1.sets == st.sets
            && (forall k :: k != inputs[0] ==> (k in r.1.strings <==> k in st.strings))
            && (forall k :: k != inputs[0] && k in st.strings ==> r.1.strings[k] == st.strings[k]))
  {
    if !RepliesToPrompt(replyTo, promptId) then (Ok(WaitSingleInput), st)
    else
      var inputs := Split(text, isSpace);
      if SingleWordAction(action) then
        if |inputs| != 1 then (Ok(WaitSingleInput), st)
        else if action == Some(AddToken) then (Ok(End), RedisCommands.SAdd(st, OpenaiKey.PoolKey, inputs[0]).0)
        else if action == Some(RemoveToken) then (Ok(End), RedisCommands.SRem(st, OpenaiKey.PoolKey, inputs[0]).0)
        else (Ok(End), RedisCommands.Delete(st, inputs[0], now).0)
      else if action == Some(SetCache) then
        if |inputs| != 3 then (Ok(WaitSingleInput), st)
        else
          var seconds := RedisCommands.ParseInteger(inputs[1]);
          if seconds.None? then (Err(NotAnInteger), st)
          else
            var stored := RedisCommands.SetEx(st, inputs[0], inputs[2], seconds.value, now);
            if stored.Err? then (Err(stored.error), st) else (Ok(End), stored.value)
      else (Ok(End), st)
  }

  /** `handle_redis_operation_input` on the client. */
  method HandleRedisOperationInput(store: RedisClient, text: string, isSpace: char -> bool, replyTo: Option<int>,
                                   promptId: Option<int>, action: Option<int>, now: int)
    returns (r: Result<int>)
    modifies store
    ensures (r, store.State()) == OperationInput(old(store.State()), text, isSpace, replyTo, promptId, action, now)
  {
    if !RepliesToPrompt(replyTo, promptId) {
      return Ok(WaitSingleInput);
    }
    var inputs := Split(text, isSpace);
    if action == Some(AddToken) {
      if |inputs| != 1 {
        return Ok(WaitSingleInput);
      }
      var added := store.SAdd(OpenaiKey.PoolKey, inputs[0]);
    } else if action == Some(RemoveToken) {
      if |inputs| != 1 {
        return Ok(WaitSingleInput);
      }
      var removed := store.SRem(OpenaiKey.PoolKey, inputs[0]);
    } else if action == Some(SetCache) {
      if |inputs| != 3 {
        return Ok(WaitSingleInput);
      }
      var seconds := RedisCommands.ParseInteger(inputs[1]);
      if seconds.None? {
        return Err(NotAnInteger);
      }
      var stored := store.SetEx(inputs[0], inputs[2], seconds.value, now);
      if stored.Err? {
        return Err(stored.error);
      }
    } else if action == Some(RemoveCache) {
      if |inputs| != 1 {
        return Ok(WaitSingleInput);
      }
      var deleted := store.Delete(inputs[0], now);
    }
    r := Ok(End);
  }

  /** A set-cache reply "key lifetime value" stores the value under the key
      for that many seconds: the words are taken as key, lifetime, value,
      and the lifetime written in decimal is read back exactly. */
  lemma SetCacheReply(st: RedisCommands.KvState, key: string, seconds: nat, value: string, isSpace: char -> bool,
                      id: int, now: int)
    requires key != [] && value != [] && 0 < seconds
    requires forall i :: 0 <= i < |key| ==> !isSpace(key[i])
    requires forall i :: 0 <= i < |value| ==> !isSpace(value[i])
    requires isSpace(' ') && forall c :: '0' <= c <= '9' ==> !isSpace(c)
    ensures var r := OperationInput(st, key + " " + RedisCommands.Decimal(seconds) + " " + value, isSpace,
                                    Some(id), Some(id), Some(SetCache), now);
      && r.0 == Ok(End)
      && r.1 == RedisCommands.SetEx(st, key, value, seconds, now).value
  {
    var lifetime := RedisCommands.Decimal(seconds);
    SplitSingleWord(value, isSpace);
    SplitWordThenRest(lifetime, ' ', value, isSpace);
    assert key + " " + lifetime + " " + value == key + [' '] + (lifetime + [' '] + value);
    SplitWordThenRest(key, ' ', lifetime + [' '] + value, isSpace);
    assert Split(key + " " + lifetime + " " + value, isSpace) == [key, lifetime, value];
    RedisCommands.ParseDecimal(seconds);
  }

  /** The outcome of a command typed in Redis mode. */
  datatype CommandReply = Executed(commandLine: seq<string>, result: Option<string>) | Failed(error: Exception)

  /** `handleRedis`: the first word names the command and the rest are its
      arguments; `execute` stands for looking the command up on the client
      and calling it. An empty line raises IndexError. Any exception becomes
      an error reply, and the conversation always stays in Redis mode. */
  function HandleRedis(text: string, isSpace: char -> bool, execute: (string, seq<string>) -> Result<Option<string>>)
    : (r: (int, CommandReply))
    ensures r.0 == RedisMode
    ensures Split(text, isSpace) == [] ==> r.1 == Failed(IndexError)
    ensures r.1.Executed? ==>
      var line := r.1.commandLine;
      line == Split(text, isSpace) && line != [] && execute(line[0], line[1..]) == Ok(r.1.result)
    ensures Split(text, isSpace) != [] && r.1.Failed? ==>
      var line := Split(text, isSpace);
      execute(line[0], line[1..]) == Err(r.1.error)
  {
    var line := Split(text, isSpace);
    if line == [] then (RedisMode, Failed(IndexError))
    else
      match execute(line[0], line[1..])
      case Ok(result) => (RedisMode, Executed(line, result))
      case Err(e) => (RedisMode, Failed(e))
  }

  /** A line "command argument" calls the command with the one argument. */
  lemma HandleRedisCommandLine(command: string, argument: string, isSpace: char -> bool,
                               execute: (string, seq<string>) -> Result<Option<string>>)
    requires command != [] && argument != [] && isSpace(' ')
    requires forall i :: 0 <= i < |command| ==> !isSpace(command[i])
    requires forall i :: 0 <= i < |argument| ==> !isSpace(argument[i])
    ensures var r := HandleRedis(command + " " + argument, isSpace, execute);
      && r.0 == RedisMode
      && r.1 == match execute(command, [argument])
                case Ok(result) => Executed([command, argument], result)
                case Err(e) => Failed(e)
  {
    SplitSingleWord(argument, isSpace);
    SplitWordThenRest(command, ' ', argument, isSpace);
    assert command + " " + argument == command + [' '] + argument;
  }
}

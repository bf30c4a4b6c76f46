# OpenAI key pool of the telegram_bot repository, in Dafny

The bot keeps a pool of OpenAI API keys in Redis. This project models the
parts of the code that fill, drain and guard the pool, and the helpers next
to them:

- how keys get into the pool: the mailbox-driven acquisition of
  `openkey/openai_key.py`;
- how keys leave it: the validation job of `handlers/cron_handler.py`;
- how an operator edits it by chat: `handlers/redis_handler.py`;
- the sorted-set wrapper of `db/redis_util.py`;
- the Redis client of `db/redis_config.py`;
- the bearer-token check of `telegram_http/main.py`;
- `sanitize_string` of `url/utils.py`;
- the URL guard and timestamp helper of `handlers/url_handler.py`.

Layout, one module per source file:

| file | module | models |
|---|---|---|
| `common.dfy` | `Common` | `Option`/`Result`, Python's `str.split()`, `endswith`, `lower` |
| `kv_store.dfy` | `RedisCommands`, `RedisConfig` | `RedisCommands`: SADD, SREM, EXISTS, SETEX, GET and DEL as pure functions on a store value. `RedisConfig`: the `RedisClient` class that issues them. |
| `sorted_pool.dfy` | `SortedPool` | the `RedisUtil` class over the sorted set `all_openai_key` |
| `acquisition.dfy` | `OpenaiKey` | key acquisition |
| `cron.dfy` | `CronHandler` | the two periodic jobs |
| `operator.dfy` | `RedisHandler` | the operator conversation |
| `bearer.dfy` | `TelegramHttp` | bearer-token extraction and verification |
| `sanitize.dfy` | `UrlUtils` | file-name sanitising |
| `url_handler.dfy` | `UrlHandler` | the URL guard and `transfer_now_time` |

How the outside world is modelled:

- **Stateful objects.** The Redis client and the sorted-set wrapper are classes. Their methods change fields. Each method is proved equal to a pure function on the old state.
- **Loops.** Each loop of the acquisition code is a method with a `while` loop. The method is proved to compute a recursive reference function. The properties of the source are lemmas about those reference functions.
- **Network and mailbox replies.** Every HTTP and mailbox reply is an *oracle*: a function from call number to reply. A `Cursor` records which calls were made. Randomness (`random.choice`, `random.shuffle`, SRANDMEMBER) is either a parameter or a nondeterministic choice.
- **Time.** The clock is a parameter `now`, in whole seconds, fixed for one call.

Behaviour of the code worth knowing:

- An empty pool makes `srandmember` raise `TypeError`. The reason is `str(None, 'utf-8')` at `db/redis_config.py:32`. So the "no token" branch of `cron_validate_openkey` is unreachable, and the job fails instead of reporting.
- In `hack_openai_token` and `hack_openai_token_via_plus_gmail`, a JSON or transport error is raised to the caller and aborts the whole run. `read_code_and_request_key` is different: it catches a failed key request and goes on with the next code (`openkey/openai_key.py:297-301`). That function raises before any key request on an unsupported suffix, on a Gmail address that is not configured, and on a mailbox read that returns None or no codes (`openkey/openai_key.py:283-293`).
- `cron_validate_openkey` samples the pool with the *set* command SRANDMEMBER. `RedisUtil` keeps the pool as a *sorted* set. The model keeps the two as separate stores, as listed under "Left out".

## Model

| member | source | states |
|---|---|---|
| SortedPool.Truncate | db/redis_util.py:47 | `int(value)` truncates toward zero, on both signs |
| SortedPool.RedisUtil.constructor | db/redis_util.py:11-65 | a new pool is empty |
| SortedPool.RedisUtil.AddToken | db/redis_util.py:44-47 | ZADD sets the token's score to the truncated value, or to now when no value is given. It returns 1 for a new token and 0 for an existing one. No other member changes. |
| SortedPool.RedisUtil.RemoveToken | db/redis_util.py:49-50 | no tokens: ZREM raises its arity error and the pool is unchanged. Otherwise it returns how many of the tokens were present, and exactly those are gone. |
| SortedPool.RedisUtil.GetAllTokens | db/redis_util.py:56-65 | a token is returned iff its score lies in the window, which defaults to the last 2.8 days up to +inf. Tokens are distinct and in ascending (score, member) order. The query changes nothing. |
| SortedPool.RedisUtil.GetRandomToken | db/redis_util.py:52-54 | raises IndexError exactly when the default window is empty. Otherwise it returns a token of that window. |
| SortedPool.Sorted | db/redis_util.py:65 | any set of members, in ZRANGEBYSCORE order: each member exactly once, ascending |
| SortedPool.LeastExists | db/redis_util.py:65 | every non-empty set of scored members has a least one in (score, member) order |
| RedisCommands.SAdd | db/redis_config.py:22-23 | adds the value to that set only. It returns 1 iff the value was new. |
| RedisCommands.SRem | db/redis_config.py:25-26 | removes the value from that set only. It returns 1 iff the value was there. |
| RedisCommands.Exists | db/redis_config.py:34-35 | 1 iff the key is a live string or a non-empty set |
| RedisCommands.SetEx | db/redis_config.py:10-11 | a lifetime that is not positive raises. Otherwise the key holds the value until now + lifetime, and every other key is unchanged. |
| RedisCommands.Get | db/redis_config.py:13-14 | the live value, or TypeError (the decode of None) iff the key is missing or expired |
| RedisCommands.Delete | db/redis_config.py:16-17 | the key is gone and every other key is unchanged. It returns what EXISTS returned before. |
| RedisCommands.Decimal | handlers/redis_handler.py:102 | the decimal numeral of n: digits only, no leading zero, value n |
| RedisCommands.ParseDecimal | handlers/redis_handler.py:102 | Redis's integer parse reads back every decimal numeral |
| RedisCommands.SAddIdempotent | db/redis_config.py:22-23 | adding a present member changes nothing and returns 0 |
| RedisCommands.SAddTwice | db/redis_config.py:22-23 | SADD twice equals SADD once, and the second call returns 0 |
| RedisCommands.SRemUndoesSAdd | db/redis_config.py:22-26 | SREM undoes the SADD of a new member and returns 1 |
| RedisConfig.RedisClient.constructor | db/redis_config.py:7-8 | a new client sees an empty store |
| RedisConfig.RedisClient.SAdd | db/redis_config.py:22-23 | the new state and the reply are those of RedisCommands.SAdd |
| RedisConfig.RedisClient.SRem | db/redis_config.py:25-26 | the new state and the reply are those of RedisCommands.SRem |
| RedisConfig.RedisClient.SRandMember | db/redis_config.py:31-32 | a member of the set, left in place. TypeError iff the set is empty. |
| RedisConfig.RedisClient.Exists | db/redis_config.py:34-35 | the reply of RedisCommands.Exists on the current state |
| RedisConfig.RedisClient.SetEx | db/redis_config.py:10-11 | the state of RedisCommands.SetEx. On its error, the store is unchanged. |
| RedisConfig.RedisClient.Get | db/redis_config.py:13-14 | the reply of RedisCommands.Get on the current state |
| RedisConfig.RedisClient.Delete | db/redis_config.py:16-17 | the new state and the reply are those of RedisCommands.Delete |
| OpenaiKey.GenerateRandomLetters | openkey/openai_key.py:185-187 | exactly `length` lower-case ASCII letters |
| OpenaiKey.ValidateOpenaiKey | openkey/openai_key.py:343-354 | raises iff the call fails or the body is not JSON. Otherwise the key is valid iff the status is 200. |
| OpenaiKey.CodeRequestAccepted | openkey/openai_key.py:207-212 | accepted iff status 200 with JSON `status` 1. Raises iff the call fails or a 200 body is not JSON. |
| OpenaiKey.RequestKeyAndCache | openkey/openai_key.py:306-322 | a returned token joins the pool set, and the address is cached to it for 86400 s; nothing else changes. With no token or an error, the store is unchanged. The store only grows. |
| OpenaiKey.MailboxFor | openkey/openai_key.py:215-220 | Gmail iff the address ends in `@gmail.com`. iCloud iff it ends in `@icloud.com` but not `@gmail.com`. |
| OpenaiKey.ReadCodes | openkey/openai_key.py:58-91 | a read changes neither the code requests nor the key requests. Gmail yields one code for its own address. Failures are mail errors, or the missing `refresh_token` of a Gmail item. |
| OpenaiKey.RedeemCodes | openkey/openai_key.py:229-234 | every code is redeemed, one key request each, unless a failure aborts. A contained failure never aborts. |
| OpenaiKey.GmailItems | openkey/openai_key.py:241 | only Gmail items from the configuration. Non-empty iff the configuration has one. |
| OpenaiKey.ConfiguredWith | openkey/openai_key.py:283 | only configuration entries for that address. Non-empty when one exists. |
| OpenaiKey.RequestForOpenaiKeyAndSetCache | openkey/openai_key.py:317-322 | the returned token and the new store are those of RequestKeyAndCache |
| OpenaiKey.RedeemCode | openkey/openai_key.py:230-234 | one code redeemed in place equals one step of the reference function |
| OpenaiKey.RedeemCodeList | openkey/openai_key.py:229-234 | the loop over the codes equals RedeemCodes: same result, store and calls |
| OpenaiKey.HackOpenaiToken | openkey/openai_key.py:194-237 | the loop's result and new store are those of the reference function Hack |
| OpenaiKey.HackOpenaiTokenViaPlusGmail | openkey/openai_key.py:239-268 | the loop's result and new store are those of HackPlus |
| OpenaiKey.ReadCodeAndRequestKey | openkey/openai_key.py:281-304 | the result and new store are those of ReadCodeAndRequest |
| OpenaiKey.RedeemOneFacts | openkey/openai_key.py:230-234 | one redemption makes one key request and only grows the store. It adds at most one key, and that key is in the pool. A contained failure still gives Ok. |
| OpenaiKey.RedeemCodesGrows | openkey/openai_key.py:229-234 | redeeming codes only grows the store and makes no code request or mailbox read. With containment it never fails. |
| OpenaiKey.RedeemCodesFacts | openkey/openai_key.py:229-234 | the keys only grow, by at most one per code, and every new key is in the pool set |
| OpenaiKey.HackItemFacts | openkey/openai_key.py:203-234 | one item only grows the store. It requests a code at most once, and only for an address that did not exist. New keys are in the pool. |
| OpenaiKey.HackItemSkips | openkey/openai_key.py:203-204 | an existing address is skipped with no call. An address with neither suffix reads no mail, redeems nothing, adds no key. |
| OpenaiKey.HackItemBound | openkey/openai_key.py:222-234 | one item adds at most as many keys as one mailbox read yields codes |
| OpenaiKey.HackKeys | openkey/openai_key.py:194-237 | the whole run only grows the store, and every key it returns is in the pool set |
| OpenaiKey.HackRequests | openkey/openai_key.py:200-212 | the run walks the items in order and makes at most one code request per item, for that item's own address. Each requested address was absent from the store when the run started. (HackItemFacts states the check against the store as it is at that item's turn.) |
| OpenaiKey.HackOvershoot | openkey/openai_key.py:200-202 | the `num_keys` check stops the run. It overshoots by less than one mailbox's worth of codes. |
| OpenaiKey.PlusAttemptFacts | openkey/openai_key.py:248-256 | each attempt requests a code for exactly one new plus address, built from that attempt's random letters |
| OpenaiKey.PlusAttemptKeys | openkey/openai_key.py:248-267 | an attempt only grows the store and adds only pooled keys. It adds at most one key, since a Gmail read yields one code. |
| OpenaiKey.PlusLoopRequests | openkey/openai_key.py:247-267 | at most `2 * num_key` code requests, the j-th for the j-th plus address |
| OpenaiKey.PlusLoopStops | openkey/openai_key.py:247 | both directions of the loop condition. The loop ends with at least `num_key` keys or with every attempt used. It never ends with more than `num_key` keys, unless it started with more. |
| OpenaiKey.PlusLoopKeys | openkey/openai_key.py:247-267 | the loop only grows the store, and every key it adds is in the pool set |
| OpenaiKey.HackPlusFacts | openkey/openai_key.py:239-268 | no Gmail item: `[]` and no call. Otherwise: at most `2 * num_key` requests, each a plus address of a configured Gmail item. Stops with enough keys or all attempts. Returns at most `max(0, num_key)` keys, all pooled. |
| OpenaiKey.ReplaceAllAbsent | openkey/openai_key.py:249-250 | `str.replace` leaves a string without the pattern unchanged |
| OpenaiKey.ReplaceAllAtEnd | openkey/openai_key.py:249-250 | a pattern that occurs only at the end is replaced once |
| OpenaiKey.PlusAddressOfGmail | openkey/openai_key.py:249-250 | `local@gmail.com` becomes `local+letters@gmail.com` |
| OpenaiKey.ReadCodeAndRequestRefuses | openkey/openai_key.py:281-293 | unknown suffix, or an unconfigured Gmail address: "Unsupported" with no call. "Read code ... failed" exactly when an iCloud read returns None or no codes (a modelled Gmail read yields one code or a mail error); the store is then unchanged and no key is requested. Every failure leaves the store unchanged and is one of the raised errors. |
| OpenaiKey.ReadCodeFailedExactly | openkey/openai_key.py:283-293 | "Read code ... failed" is raised exactly when the address is an iCloud one whose read returned None or no codes. The store is then unchanged and no key was requested. |
| OpenaiKey.ReadCodeAndRequestKeys | openkey/openai_key.py:295-304 | the store only grows, and every key returned is in the pool set |
| CronHandler.Validate | handlers/cron_handler.py:22-29 | a valid verdict keeps the token and a store. An invalid verdict removes exactly that token. A failed check raises and changes nothing. |
| CronHandler.CronValidateOpenkey | handlers/cron_handler.py:13-29 | empty pool: TypeError, nothing changes, never the "no token" branch. Otherwise a pool member is sampled, and the state is that of Validate. |
| CronHandler.Ticks | handlers/cron_handler.py:13-29 | any run of ticks only shrinks the pool, by at most one token per tick |
| CronHandler.ValidTokensStay | handlers/cron_handler.py:23-27 | a token that no verdict found invalid stays in the pool through any run of ticks |
| CronHandler.CronRequestOpenkey | handlers/cron_handler.py:32-43 | runs `hack_openai_token(1)`. It reports the new tokens or the error, and the store is that of the run. |
| CronHandler.RequestJobReport | handlers/cron_handler.py:35-40 | the job only grows the store. It reports fewer than 1 + (codes per mailbox) tokens, all in the pool. |
| RedisHandler.OperationInput | handlers/redis_handler.py:81-114 | a message that does not answer the prompt waits. Otherwise, by action: add/remove token change exactly that pool member; remove-cache deletes exactly that key; set-cache parses the lifetime and sets the key. A wrong word count waits. Other actions end. Errors change nothing. |
| RedisHandler.HandleRedisOperationInput | handlers/redis_handler.py:81-114 | the reply and the new store are those of OperationInput |
| RedisHandler.SetCacheReply | handlers/redis_handler.py:98-104 | `key seconds value`, answering the prompt, sets exactly what SETEX sets and ends the conversation |
| RedisHandler.HandleRedis | handlers/redis_handler.py:62-78 | stays in Redis mode. Empty text: IndexError. Otherwise it runs the first word as the command with the other words as arguments, and reports the reply or the error. |
| RedisHandler.HandleRedisCommandLine | handlers/redis_handler.py:62-78 | `command argument` runs that command with that one argument |
| TelegramHttp.GetBearerToken | telegram_http/main.py:25-33 | no header: None. Two words: the second, whatever the scheme. More words: the second if the first is `bearer` in any case, else None. One word: IndexError if it is `bearer`, else None. Empty: IndexError. |
| TelegramHttp.VerifyBearerToken | telegram_http/main.py:36-43 | accepted iff no server token is configured or the tokens are equal. Otherwise 401 Unauthorized. |
| TelegramHttp.BearerHeaderAccepted | telegram_http/main.py:25-43 | `Bearer <token>` is accepted for that token |
| TelegramHttp.AnySchemeAccepted | telegram_http/main.py:30-31 | any two-word header yields its second word, whatever the scheme |
| TelegramHttp.LoneWord | telegram_http/main.py:28-33 | a one-word header raises for `bearer` and yields None otherwise |
| TelegramHttp.MissingHeaderRefused | telegram_http/main.py:36-43 | with a server token configured, a request without the header is refused |
| UrlUtils.Remove | url/utils.py:108-109 | the kept characters are exactly the non-dropped ones, in order. Text without dropped characters is unchanged. |
| UrlUtils.Clean | url/utils.py:108-109 | no illegal or control character remains. The result is a subsequence of the input. Clean text is unchanged. |
| UrlUtils.Sanitize | url/utils.py:102-113 | the result is clean, starts with neither `.` nor space, and is a subsequence of the input |
| UrlUtils.ReservedOnCleanText | url/utils.py:110 | on clean text, the reserved-name step empties exactly the Windows reserved names |
| UrlUtils.SanitizeKeepsCleanText | url/utils.py:102-113 | a clean, non-reserved name with no leading `.` or space is returned unchanged |
| UrlUtils.SanitizeLetsReservedNameThrough | url/utils.py:110-111 | as written: a space before a reserved name lets the name through |
| UrlUtils.ConIsReserved | url/utils.py:105 | `con` is a reserved name |
| UrlUtils.SanitizeFileName | url/utils.py:102-113 | corrected order: clean, no leading `.` or space, never a reserved name, a subsequence of the input |
| UrlUtils.SanitizeFileNameAgrees | url/utils.py:102-113 | the corrected function differs from the code only where the code returns a reserved name |
| UrlHandler.SchemeLength | handlers/url_handler.py:115-116 | 8 iff `https://`, 7 iff `http://`, else 0 |
| UrlHandler.IsUrl | handlers/url_handler.py:115-116 | a match starts with a scheme and has at least 9 characters |
| UrlHandler.IsUrlExactly | handlers/url_handler.py:115-116 | after the scheme: a word character, then at least one more character. A newline may only be the last. |
| UrlHandler.OneCharacterHostRefused | handlers/url_handler.py:115-116 | `http://a` is not a URL |
| UrlHandler.NewlinesInUrl | handlers/url_handler.py:115-116 | `$` accepts one final newline but not an inner one |
| UrlHandler.UrlGuard | handlers/url_handler.py:21-26 | no argument: IndexError. A non-URL is refused. Otherwise it proceeds with the first argument. |
| UrlHandler.Pad | handlers/url_handler.py:119-121 | zero-padded digits of the given width whose value is n |
| UrlHandler.StrfTime | handlers/url_handler.py:120 | `%Y%m%d%H%M%S%f` gives 20 digits |
| UrlHandler.TransferNowTime | handlers/url_handler.py:119-121 | 17 digits, the microseconds cut to milliseconds |
| UrlHandler.TransferNowTimeReadsBack | handlers/url_handler.py:119-121 | the 17 digits read back as year, month, day, hour, minute, second and millisecond |

## Left out

- Network, mail and chat I/O are oracles or parameters. This covers the HTTP calls, Gmail's API, iCloud's IMAP, and the messages sent to the developer chat. Logging is left out.
- The `unicode_escape` decode of each logged code-request reply (`openkey/openai_key.py:211`, `255`, `278`) is left out. On a reply with a malformed backslash escape it raises UnicodeDecodeError, which would abort the hack loop; the model does not capture that raise.
- `time.sleep` between attempts is left out.
- The Gmail read of `openkey/openai_key.py:58-91` is one reply per read. Its internal polling loop is not part of this model.
- `handlers/openkey_handler.py` is not part of this model. Its commands issue SREM, SADD, DEL, SETEX, SRANDMEMBER and SMEMBERS on the pool (lines 18, 27, 36, 47, 105 and 117). SREM, SADD, DEL, SETEX and SRANDMEMBER correspond to client methods modelled here; SMEMBERS (line 117) is not modelled.
- `keys`, `smembers` and the other one-line wrappers of `db/redis_util.py` are left out, as is the configuration loading. None of them touch the pool's invariants.
- The sorted set of `db/redis_util.py` and the plain set of `db/redis_config.py` share the key `all_openai_key`. The model keeps them as separate stores. Redis would answer WRONGTYPE when both kinds are used on one key.
- RedisCommands.SetEx: set keys and string keys are separate namespaces of one store. Real Redis has one keyspace. So SETEX on a key that holds a set keeps the set here, where Redis replaces it. An operator set-cache of `all_openai_key` would empty the pool in Redis but not in the model.
- RedisCommands.SAdd: SADD and SREM on a key that holds a string never answer WRONGTYPE here.
- RedisCommands.Get: GET on a key that holds a set is a missing key here, not a WRONGTYPE error.
- RedisConfig.RedisClient.SRandMember: SRANDMEMBER on a key that holds a string never answers WRONGTYPE here.
- RedisCommands.ParseInteger: does not model the 64-bit range of Redis integers; an out-of-range lifetime is accepted.
- `now` is one value per call, so a multi-step run does not see the clock advance, and expiry during a run is not modelled.
- `random.shuffle` of the items is the order in which the items are given.
- The `getattr` dispatch of Redis mode is the `execute` parameter of RedisHandler.HandleRedis. The Redis commands it can reach are not modelled one by one.
- The job-queue timers, the conversation timeout and the handler registration are left out.
- The float window of `get_all_tokens` is in whole seconds. `time.time() - 2.8 days` is taken as `now - 241920` with an integer `now`.
- UrlHandler.TransferNowTime: requires a four-digit year. `strftime` pads years before 1000 differently on different platforms.
- Which characters count as `\w` and as whitespace are parameters (`isWord`, `isSpace`); Unicode character classes are not modelled.
- CronHandler.RequestJobReport: states a bound on the reported tokens, not the text of the chat message.
- OpenaiKey.ReadCodes: the Gmail code is one code per read. The text search that extracts it from the mail body is not part of this model.
- OpenaiKey.HackOvershoot: the bound holds only when every iCloud read yields at most `bound` codes. Gmail reads yield one code.

## Findings

| source | as written | input that shows it | evidently intended | confidence | as-written member | corrected member |
|---|---|---|---|---|---|---|
| url/utils.py:110-111 | the reserved-name check runs before the leading dots and spaces are stripped | `" con"` becomes `"con"`, a reserved Windows name | the result is never a reserved name | not executed | UrlUtils.SanitizeLetsReservedNameThrough | UrlUtils.SanitizeFileName |

/** Shared vocabulary of the model: optional values, results that carry the
    kind of exception the Python code would raise, and the few string
    operations (suffix tests, whitespace splitting) several handlers use. */
module Common {

  datatype Option<+T> = None | Some(value: T)

  /** The kinds of exception the modelled code can raise. Payloads name the
      offending input where the source's message does. */
  datatype Exception =
    | TypeError             // str(None, 'utf-8') on a missing reply
    | IndexError            // indexing past the end of a list
    | KeyError(key: string) // a missing dictionary key
    | TransportError        // the HTTP client raised (connection, timeout)
    | JsonDecodeError       // a response body that is not the expected JSON object
    | MailError             // a mailbox read that raised
    | Unsupported(address: string)
    | ReadCodeFailed(address: string)
    | RedisError(reason: string)
    | HttpUnauthorized      // HTTPException(status_code=401)

  datatype Result<+T> = Ok(value: T) | Err(error: Exception)

  predicate StartsWith(s: string, prefix: string)
  {
    |prefix| <= |s| && s[..|prefix|] == prefix
  }

  predicate EndsWith(s: string, suffix: string)
  {
    |suffix| <= |s| && s[|s| - |suffix|..] == suffix
  }

  /** ASCII lower-casing of one character. */
  function ToLower(c: char): (l: char)
    ensures 'A' <= c <= 'Z' ==> 'a' <= l <= 'z' && l as int - c as int == 32
    ensures !('A' <= c <= 'Z') ==> l == c
  {
    if 'A' <= c <= 'Z' then (c as int + 32) as char else c
  }

  /** Length of the run of non-space characters that starts `s`. */
  function WordLength(s: string, isSpace: char -> bool): (n: nat)
    ensures n <= |s|
    ensures forall i :: 0 <= i < n ==> !isSpace(s[i])
    ensures n < |s| ==> isSpace(s[n])
  {
    if s == [] || isSpace(s[0]) then 0 else 1 + WordLength(s[1..], isSpace)
  }

  /** Python's `str.split()` without arguments: the maximal runs of
      non-whitespace characters, in order. Which characters count as
      whitespace is a parameter. */
  function Split(s: string, isSpace: char -> bool): (words: seq<string>)
    ensures forall k :: 0 <= k < |words| ==> words[k] != []
    ensures forall k, i :: 0 <= k < |words| && 0 <= i < |words[k]| ==> !isSpace(words[k][i])
    decreases |s|
  {
    if s == [] then []
    else if isSpace(s[0]) then Split(s[1..], isSpace)
    else
      var n := WordLength(s, isSpace);
      [s[..n]] + Split(s[n..], isSpace)
  }

  /** The characters of `s` that are not whitespace. */
  function NonSpace(s: string, isSpace: char -> bool): (r: string)
  {
    if s == [] then [] else (if isSpace(s[0]) then [] else [s[0]]) + NonSpace(s[1..], isSpace)
  }

  function Concat(words: seq<string>): (s: string)
  {
    if words == [] then [] else words[0] + Concat(words[1..])
  }

  lemma {:induction false} NonSpaceAppend(a: string, b: string, isSpace: char -> bool)
    ensures NonSpace(a + b, isSpace) == NonSpace(a, isSpace) + NonSpace(b, isSpace)
    decreases |a|
  {
    if a != [] {
      assert (a + b)[1..] == a[1..] + b;
      NonSpaceAppend(a[1..], b, isSpace);
    } else {
      assert a + b == b;
    }
  }

  lemma {:induction false} NonSpaceOfWord(w: string, isSpace: char -> bool)
    requires forall i :: 0 <= i < |w| ==> !isSpace(w[i])
    ensures NonSpace(w, isSpace) == w
    decreases |w|
  {
    if w != [] {
      NonSpaceOfWord(w[1..], isSpace);
    }
  }

  /** Splitting loses exactly the whitespace: gluing the words back together
      gives the input with its whitespace characters deleted. */
  lemma {:induction false} SplitKeepsNonSpace(s: string, isSpace: char -> bool)
    ensures Concat(Split(s, isSpace)) == NonSpace(s, isSpace)
    decreases |s|
  {
    if s == [] {
    } else if isSpace(s[0]) {
      SplitKeepsNonSpace(s[1..], isSpace);
    } else {
      var n := WordLength(s, isSpace);
      assert s == s[..n] + s[n..];
      NonSpaceAppend(s[..n], s[n..], isSpace);
      NonSpaceOfWord(s[..n], isSpace);
      SplitKeepsNonSpace(s[n..], isSpace);
      var words := Split(s, isSpace);
      assert words[0] == s[..n] && words[1..] == Split(s[n..], isSpace);
    }
  }

  /** A non-empty string without whitespace is one word. */
  lemma {:induction false} SplitSingleWord(w: string, isSpace: char -> bool)
    requires w != []
    requires forall i :: 0 <= i < |w| ==> !isSpace(w[i])
    ensures Split(w, isSpace) == [w]
  {
    var n := WordLength(w, isSpace);
    assert n == |w|;
    assert w[..n] == w && w[n..] == [];
  }

  lemma {:induction false} WordLengthOfWord(w: string, rest: string, isSpace: char -> bool)
    requires forall i :: 0 <= i < |w| ==> !isSpace(w[i])
    requires rest == [] || isSpace(rest[0])
    ensures WordLength(w + rest, isSpace) == |w|
    decreases |w|
  {
    if w == [] {
      assert w + rest == rest;
    } else {
      assert (w + rest)[1..] == w[1..] + rest;
      WordLengthOfWord(w[1..], rest, isSpace);
    }
  }

  /** A word followed by a whitespace character splits off as the first
      word: this is how `" ".join` of words is split back. */
  lemma SplitWordThenRest(w: string, c: char, rest: string, isSpace: char -> bool)
    requires w != []
    requires forall i :: 0 <= i < |w| ==> !isSpace(w[i])
    requires isSpace(c)
    ensures Split(w + [c] + rest, isSpace) == [w] + Split(rest, isSpace)
  {
    var s := w + [c] + rest;
    assert s == w + ([c] + rest);
    WordLengthOfWord(w, [c] + rest, isSpace);
    assert s[..|w|] == w && s[|w|..] == [c] + rest;
    assert ([c] + rest)[1..] == rest;
  }
}

/** The slice of Python semantics the modelled code relies on: the exceptions it
    raises and the behaviour of list indexing and prefix slicing. */
module Py {
  import opened Wrappers

  /** The exceptions raised (or let through) by the modelled code. */
  datatype Exception =
    | AssertionError
    | TypeError(message: string)
    | IndexError
    | KeyError(key: string)
    | ValueError
    | AttributeError
    /** `bot_state.InvalidCallbackDataException`, carrying the offending data. */
    | InvalidCallbackData(data: string)

  /** `s[i]`: a negative index counts from the end; anything else outside the
      list raises `IndexError`. */
  function Index<T>(s: seq<T>, i: int): (r: Result<T, Exception>)
    ensures r.Ok? <==> -|s| <= i < |s|
    ensures 0 <= i < |s| ==> r.value == s[i]
    ensures -|s| <= i < 0 ==> r.value == s[|s| + i]
    ensures r.Err? ==> r.error == IndexError
  {
    if 0 <= i < |s| then Ok(s[i])
    else if -|s| <= i < 0 then Ok(s[|s| + i])
    else Err(IndexError)
  }

  /** The length of `s[:n]`: a negative `n` drops `-n` elements from the end. */
  function PrefixLength(len: nat, n: int): (k: nat)
    ensures k <= len
    ensures 0 <= n ==> k == (if n <= len then n else len)
    ensures n < 0 ==> k == (if len + n >= 0 then len + n else 0)
  {
    if 0 <= n then (if n <= len then n else len)
    else if len + n >= 0 then len + n else 0
  }

  /** `s[:n]`, Python prefix slicing. */
  function Prefix<T>(s: seq<T>, n: int): (r: seq<T>)
    ensures |r| == PrefixLength(|s|, n)
    ensures r <= s
  {
    s[..PrefixLength(|s|, n)]
  }
}

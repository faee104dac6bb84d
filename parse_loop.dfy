/**
  * The loop of bls_parse_line, on values: the invariant that ties the line
  * buffer, the saved strtok position and the argument vector to the tokens of
  * the line, and the proof that one turn of the loop keeps it.
  */
module ParseLoop {
  import opened Wrappers
  import opened Tokenizer
  import opened Strtok

  lemma SuffixCons<T>(s: seq<T>, n: nat, x: T, rest: seq<T>)
    requires n <= |s| && s[n..] == [x] + rest
    ensures n < |s| && s[n] == x && s[n + 1..] == rest
  {
    assert s[n..][0] == s[n];
    assert s[n..][1..] == s[n + 1..];
  }

  /** The loop invariant of bls_parse_line, on values: the buffer is in a state
      strtok can continue from; the vector has a free slot after the first n,
      which hold the first n tokens, and the pointers handed out so far are the
      starts of the first n spans; the token in hand, if any, is token n at
      span n, and the tokens and spans after it are those strtok has still to
      find. */
  ghost predicate Collecting(cur: seq<char>, orig: seq<char>, save: nat,
                             stored: seq<Option<string>>, starts: seq<nat>, n: nat, token: Option<Span>)
  {
    var toks := Tokens(CString(orig));
    var spans := Spans(CString(orig));
    StrtokState(cur, orig, save)
    && n < |stored|
    && n <= |toks| && n <= |spans| && |starts| == n
    && (forall k | 0 <= k < n :: stored[k] == Some(toks[k]) && starts[k] == spans[k].start)
    && (token.None? ==> n == |toks| == |spans| && save == CLen(orig))
    && (token.Some? ==>
          token.value.start <= token.value.end <= |cur|
          && n < |toks| && n < |spans|
          && toks[n] == cur[token.value.start..token.value.end]
          && token.value == spans[n]
          && toks[n + 1..] == TokensFrom(CString(orig), save)
          && spans[n + 1..] == SpansFrom(CString(orig), save))
  }

  /** One turn of the loop keeps the invariant: the token in hand is stored in
      slot n, its start joins the pointers handed out, and the next call of
      strtok hands out token n + 1 or finds none. */
  lemma CollectingStep(cur: seq<char>, cur': seq<char>, orig: seq<char>, save: nat, save': nat,
                       stored: seq<Option<string>>, stored': seq<Option<string>>, starts: seq<nat>,
                       n: nat, token: Option<Span>, token': Option<Span>)
    requires Collecting(cur, orig, save, stored, starts, n, token) && token.Some?
    requires n + 1 < |stored'|
    requires forall k | 0 <= k < n :: stored'[k] == stored[k]
    requires stored'[n] == Some(cur[token.value.start..token.value.end])
    requires StrtokState(cur', orig, save')
    requires token'.None? ==>
               TokensFrom(CString(orig), save) == [] && SpansFrom(CString(orig), save) == []
               && save' == CLen(orig)
    requires token'.Some? ==>
               token'.value.start < token'.value.end <= |cur'|
               && TokensFrom(CString(orig), save)
                  == [cur'[token'.value.start..token'.value.end]] + TokensFrom(CString(orig), save')
               && SpansFrom(CString(orig), save) == [token'.value] + SpansFrom(CString(orig), save')
    ensures Collecting(cur', orig, save', stored', starts + [token.value.start], n + 1, token')
  {
    var toks := Tokens(CString(orig));
    var spans := Spans(CString(orig));
    if token'.Some? {
      SuffixCons(toks, n + 1, cur'[token'.value.start..token'.value.end], TokensFrom(CString(orig), save'));
      SuffixCons(spans, n + 1, token'.value, SpansFrom(CString(orig), save'));
    }
  }
}

/**
  * bls_parse_line: the line buffer is cut into tokens in place by strtok, and
  * the tokens are collected into a NULL-terminated argument vector that grows
  * by TokenSize slots whenever it fills up.
  */
module Parser {
  import opened Wrappers
  import opened Tokenizer
  import opened Strtok
  import opened ParseLoop

  /** The initial number of argument slots, and the step the vector grows by. */
  const TokenSize: nat := 64

  /** The capacity of the argument vector that holds n tokens and its sentinel. */
  function Capacity(n: nat): (c: nat)
    ensures n < c <= n + TokenSize
    ensures c % TokenSize == 0
  {
    TokenSize * (n / TokenSize + 1)
  }

  /** One more token changes the capacity by TokenSize exactly when the count
      reaches the old capacity, and leaves it alone otherwise. */
  lemma CapacityStep(n: nat)
    ensures Capacity(n + 1) == if n + 1 == Capacity(n) then Capacity(n) + TokenSize else Capacity(n)
  {
    var q := n / TokenSize;
    assert n == TokenSize * q + n % TokenSize;
    if n % TokenSize == TokenSize - 1 {
      assert n + 1 == TokenSize * (q + 1);
      assert (n + 1) / TokenSize == q + 1;
    } else {
      assert n + 1 == TokenSize * q + (n % TokenSize + 1);
      assert (n + 1) / TokenSize == q;
    }
  }

  /** The buffer grows at n = 64, 128, ... tokens and at no other count. */
  lemma GrowthPoints(n: nat)
    ensures Capacity(n + 1) > Capacity(n) <==> (n + 1) % TokenSize == 0
  {
    CapacityStep(n);
  }

  /** realloc: a fresh buffer of `size` slots that keeps the old contents up to
      the smaller of the two sizes; new slots start out NULL. */
  method Realloc(a: array<Option<string>>, size: nat) returns (b: array<Option<string>>)
    ensures fresh(b) && b.Length == size
    ensures forall k | 0 <= k < size :: b[k] == if k < a.Length then a[k] else None
  {
    b := new Option<string>[size](_ => None);
    var k := 0;
    while k < a.Length && k < size
      invariant 0 <= k <= size && k <= a.Length
      invariant forall m | 0 <= m < size :: b[m] == if m < k then a[m] else None
    {
      b[k] := a[k];
      k := k + 1;
    }
  }

  /** The arguments a consumer reads off a NULL-terminated vector: the entries
      up to the first NULL. */
  function ArgList(v: seq<Option<string>>): (r: seq<string>)
    ensures |r| <= |v|
    ensures forall k | 0 <= k < |r| :: v[k] == Some(r[k])
    ensures |r| < |v| ==> v[|r|] == None
  {
    if v == [] || v[0].None? then [] else [v[0].value] + ArgList(v[1..])
  }

  /** The body of the tokenizing loop: store the token in the next slot, count
      it, and when the count reaches the capacity grow the buffer by TokenSize
      with realloc. */
  method StoreToken(args: array<Option<string>>, n: nat, bufSize: nat, word: string)
      returns (grown: array<Option<string>>, newSize: nat)
    requires args.Length == bufSize == Capacity(n)
    modifies args
    ensures n + 1 < Capacity(n) ==> grown == args
    ensures n + 1 == Capacity(n) ==> fresh(grown)
    ensures grown.Length == newSize == Capacity(n + 1)
    ensures forall k | 0 <= k < n :: grown[k] == old(args[k])
    ensures grown[n] == Some(word)
  {
    args[n] := Some(word);
    var count := n + 1;
    grown, newSize := args, bufSize;
    if count >= bufSize {
      newSize := bufSize + TokenSize;
      grown := Realloc(args, newSize);
    }
    CapacityStep(n);
  }

  /** A vector that holds the arguments in order followed by NULL reads back as
      exactly those arguments. */
  lemma ArgListOfVector(v: seq<Option<string>>, xs: seq<string>)
    requires |xs| < |v|
    requires forall k | 0 <= k < |xs| :: v[k] == Some(xs[k])
    requires v[|xs|] == None
    ensures ArgList(v) == xs
  {
    var r := ArgList(v);
    assert |r| == |xs|;
  }

  /** One turn of the tokenizing loop: the token in hand is stored, the vector
      grown if it is full, and strtok asked for the next token. */
  method CollectStep(line: array<char>, args: array<Option<string>>, n: nat, bufSize: nat,
                     save: nat, token: Option<Span>, ghost starts: seq<nat>, ghost orig: seq<char>)
      returns (args': array<Option<string>>, bufSize': nat, save': nat, token': Option<Span>)
    requires Collecting(line[..], orig, save, args[..], starts, n, token) && token.Some?
    requires args.Length == bufSize == Capacity(n)
    modifies line, args
    ensures args' == args || fresh(args')
    ensures Collecting(line[..], orig, save', args'[..], starts + [token.value.start], n + 1, token')
    ensures args'.Length == bufSize' == Capacity(n + 1)
  {
    ghost var cur, stored := line[..], args[..];
    var word := line[token.value.start..token.value.end];
    args', bufSize' := StoreToken(args, n, bufSize, word);
    token', save' := Next(line, save, orig);
    CollectingStep(cur, line[..], orig, save, save', stored, args'[..], starts, n, token, token');
  }

  /** The pointers handed out are the starts of the spans; in the cut buffer,
      the C string at each of them is the token the vector holds. */
  lemma PointerViews(orig: seq<char>, starts: seq<nat>)
    requires |starts| == |Tokens(CString(orig))| == |Spans(CString(orig))|
    requires forall k | 0 <= k < |starts| :: starts[k] == Spans(CString(orig))[k].start
    ensures forall k | 0 <= k < |starts| ::
              starts[k] <= |orig| && CString(Terminated(orig)[starts[k]..]) == Tokens(CString(orig))[k]
  {
    forall k | 0 <= k < |starts|
      ensures starts[k] <= |orig| && CString(Terminated(orig)[starts[k]..]) == Tokens(CString(orig))[k]
    {
      ArgumentViews(orig, k);
    }
  }

  /** bls_parse_line: the vector holds every token of the line, in order, at
      indices 0 .. n-1, then the NULL sentinel at n, in a buffer of
      64 * (n / 64 + 1) slots; the line is left with a NUL after each token.
      `starts` records the pointer stored in each slot: the start of the
      token's span, where the cut line holds exactly that token. */
  method ParseLine(line: array<char>) returns (args: array<Option<string>>, ghost starts: seq<nat>)
    modifies line
    ensures var toks := Tokens(CString(old(line[..])));
              args.Length == Capacity(|toks|)
              && (forall k | 0 <= k < |toks| :: args[k] == Some(toks[k]))
              && args[|toks|] == None
              && ArgList(args[..]) == toks
    ensures line[..] == Terminated(old(line[..]))
    ensures var spans := Spans(CString(old(line[..])));
              |starts| == |spans| == |Tokens(CString(old(line[..])))|
              && forall k | 0 <= k < |starts| :: starts[k] == spans[k].start
    ensures forall k | 0 <= k < |starts| ::
              starts[k] <= line.Length && args[k] == Some(CString(line[starts[k]..]))
  {
    ghost var orig := line[..];
    ghost var toks := Tokens(CString(orig));
    ghost var spans := Spans(CString(orig));
    var numTokens := 0;
    var bufSize := TokenSize;
    args := new Option<string>[bufSize](_ => None);
    starts := [];
    var token, save := Next(line, 0, orig);
    if token.Some? {
      SuffixCons(toks, 0, line[token.value.start..token.value.end], TokensFrom(CString(orig), save));
      SuffixCons(spans, 0, token.value, SpansFrom(CString(orig), save));
    }
    while token.Some?
      invariant Collecting(line[..], orig, save, args[..], starts, numTokens, token)
      invariant fresh(args)
      invariant args.Length == bufSize == Capacity(numTokens)
      decreases |toks| - numTokens
    {
      ghost var start := token.value.start;
      args, bufSize, save, token := CollectStep(line, args, numTokens, bufSize, save, token, starts, orig);
      starts := starts + [start];
      numTokens := numTokens + 1;
    }
    args[numTokens] := None;
    CutComplete(line[..], orig);
    ArgListOfVector(args[..], toks);
    PointerViews(orig, starts);
  }
}

/**
  * What the shell's tokenizer computes, stated on values: the delimiter set,
  * the C string a line buffer holds, the tokens (maximal delimiter-free runs)
  * and the buffer left behind once strtok has written its terminators.
  */
module Tokenizer {

  /** The delimiter set the tokenizer hands to strtok: space, tab, newline,
      carriage return and BEL. */
  const Delimiters: string := " \t\n\r\U{0007}"

  predicate IsDelim(c: char) {
    c in Delimiters
  }

  /** A token as strtok hands it out: non-empty and free of delimiters. */
  predicate ValidToken(t: string) {
    |t| > 0 && forall k | 0 <= k < |t| :: !IsDelim(t[k])
  }

  /** strlen: the index of the first NUL of a buffer, or its length when it has none. */
  function CLen(s: seq<char>): (n: nat)
    ensures n <= |s|
    ensures forall k | 0 <= k < n :: s[k] != '\0'
    ensures n < |s| ==> s[n] == '\0'
  {
    if s == [] || s[0] == '\0' then 0 else 1 + CLen(s[1..])
  }

  /** The C string a buffer holds: everything before its first NUL. */
  function CString(s: seq<char>): (str: string)
    ensures '\0' !in str
    ensures str <= s
    ensures |str| < |s| ==> s[|str|] == '\0'
  {
    s[..CLen(s)]
  }

  /** The index at which the run of non-delimiters that starts at `i` stops. */
  function WordEnd(s: string, i: nat): (e: nat)
    requires i <= |s|
    ensures i <= e <= |s|
    ensures forall k | i <= k < e :: !IsDelim(s[k])
    ensures e < |s| ==> IsDelim(s[e])
    decreases |s| - i
  {
    if i == |s| || IsDelim(s[i]) then i else WordEnd(s, i + 1)
  }

  /** The tokens of `s` from position `i` on: delimiters are skipped, and each
      maximal run of non-delimiters is one token. */
  function TokensFrom(s: string, i: nat): seq<string>
    requires i <= |s|
    decreases |s| - i
  {
    if i == |s| then []
    else if IsDelim(s[i]) then TokensFrom(s, i + 1)
    else
      var e := WordEnd(s, i);
      [s[i..e]] + TokensFrom(s, e)
  }

  function Tokens(s: string): seq<string> {
    TokensFrom(s, 0)
  }

  /** Where a token lies in the line: `start` is the pointer strtok returns,
      `end` the position of the delimiter it overwrites (or the end of the string). */
  datatype Span = Span(start: nat, end: nat)

  /** The positions of the tokens of `s` from `i` on, found the way TokensFrom finds the tokens. */
  function SpansFrom(s: string, i: nat): seq<Span>
    requires i <= |s|
    decreases |s| - i
  {
    if i == |s| then []
    else if IsDelim(s[i]) then SpansFrom(s, i + 1)
    else
      var e := WordEnd(s, i);
      [Span(i, e)] + SpansFrom(s, e)
  }

  function Spans(s: string): seq<Span> {
    SpansFrom(s, 0)
  }

  /** `sp` is a maximal run of non-delimiters in `s`: it is non-empty, holds no
      delimiter, and a delimiter or the edge of `s` stands on either side of it. */
  ghost predicate IsMaximalRun(s: string, sp: Span) {
    sp.start < sp.end <= |s|
    && (forall p | sp.start <= p < sp.end :: !IsDelim(s[p]))
    && (sp.start == 0 || IsDelim(s[sp.start - 1]))
    && (sp.end == |s| || IsDelim(s[sp.end]))
  }

  /** `sp` lists, from left to right, maximal runs of `s` that lie at or after
      `i` and together cover every non-delimiter of `s` at or after `i`. */
  ghost predicate RunsFrom(s: string, i: nat, sp: seq<Span>) {
    (forall k | 0 <= k < |sp| :: i <= sp[k].start && IsMaximalRun(s, sp[k]))
    && (forall k | 0 <= k < |sp| - 1 :: sp[k].end < sp[k + 1].start)
    && (forall p | i <= p < |s| && !IsDelim(s[p]) ::
          exists k | 0 <= k < |sp| :: sp[k].start <= p < sp[k].end)
  }

  /** `i` does not fall strictly inside a run of non-delimiters. */
  predicate AtBoundary(s: string, i: nat)
    requires i <= |s|
  {
    i == 0 || i == |s| || IsDelim(s[i - 1]) || IsDelim(s[i])
  }

  /** A delimiter at `i` changes nothing about the runs from `i + 1` on. */
  lemma RunsSkipDelim(s: string, i: nat, sp: seq<Span>)
    requires i < |s| && IsDelim(s[i])
    requires RunsFrom(s, i + 1, sp)
    ensures RunsFrom(s, i, sp)
  {
  }

  /** A maximal run put in front of the runs found after it. */
  lemma RunsCons(s: string, i: nat, e: nat, rest: seq<Span>)
    requires IsMaximalRun(s, Span(i, e))
    requires RunsFrom(s, e, rest)
    ensures RunsFrom(s, i, [Span(i, e)] + rest)
  {
    var sp := [Span(i, e)] + rest;
    forall k | 0 <= k < |sp| - 1
      ensures sp[k].end < sp[k + 1].start
    {
      if k == 0 {
        assert sp[1] == rest[0];
        assert IsMaximalRun(s, rest[0]);
        assert !IsDelim(s[rest[0].start]);
      } else {
        assert sp[k] == rest[k - 1] && sp[k + 1] == rest[k];
      }
    }
    forall p | i <= p < |s| && !IsDelim(s[p])
      ensures exists k | 0 <= k < |sp| :: sp[k].start <= p < sp[k].end
    {
      if p < e {
        assert sp[0].start <= p < sp[0].end;
      } else {
        var k :| 0 <= k < |rest| && rest[k].start <= p < rest[k].end;
        assert sp[k + 1] == rest[k];
      }
    }
  }

  /** The spans found from a position that is not inside a word are maximal
      runs, in order, covering every non-delimiter from there on. */
  lemma {:induction false} SpansFromAreRuns(s: string, i: nat)
    requires i <= |s| && AtBoundary(s, i)
    ensures RunsFrom(s, i, SpansFrom(s, i))
    decreases |s| - i
  {
    if i == |s| {
    } else if IsDelim(s[i]) {
      SpansFromAreRuns(s, i + 1);
      RunsSkipDelim(s, i, SpansFrom(s, i + 1));
    } else {
      var e := WordEnd(s, i);
      SpansFromAreRuns(s, e);
      assert IsMaximalRun(s, Span(i, e));
      RunsCons(s, i, e, SpansFrom(s, e));
    }
  }

  /** Token k is the text of span k. */
  lemma {:induction false} SpansFromText(s: string, i: nat)
    requires i <= |s|
    ensures |TokensFrom(s, i)| == |SpansFrom(s, i)|
    ensures forall k | 0 <= k < |SpansFrom(s, i)| ::
              SpansFrom(s, i)[k].start <= SpansFrom(s, i)[k].end <= |s|
              && TokensFrom(s, i)[k] == s[SpansFrom(s, i)[k].start..SpansFrom(s, i)[k].end]
    decreases |s| - i
  {
    if i == |s| {
    } else if IsDelim(s[i]) {
      SpansFromText(s, i + 1);
    } else {
      var e := WordEnd(s, i);
      SpansFromText(s, e);
      assert SpansFrom(s, i) == [Span(i, e)] + SpansFrom(s, e);
      assert TokensFrom(s, i) == [s[i..e]] + TokensFrom(s, e);
    }
  }

  /** The tokens of a line are exactly its maximal delimiter-free runs, from
      left to right: the spans are maximal runs in order, they cover every
      non-delimiter, and token k is the text of span k. */
  lemma TokensAreMaximalRuns(s: string)
    ensures RunsFrom(s, 0, Spans(s))
    ensures |Tokens(s)| == |Spans(s)|
    ensures forall k | 0 <= k < |Spans(s)| ::
              Spans(s)[k].start <= Spans(s)[k].end <= |s|
              && Tokens(s)[k] == s[Spans(s)[k].start..Spans(s)[k].end]
  {
    SpansFromAreRuns(s, 0);
    SpansFromText(s, 0);
  }

  lemma {:induction false} TokensFromValid(s: string, i: nat)
    requires i <= |s|
    ensures forall k | 0 <= k < |TokensFrom(s, i)| :: ValidToken(TokensFrom(s, i)[k])
    decreases |s| - i
  {
    if i == |s| {
    } else if IsDelim(s[i]) {
      TokensFromValid(s, i + 1);
    } else {
      var e := WordEnd(s, i);
      TokensFromValid(s, e);
      assert TokensFrom(s, i) == [s[i..e]] + TokensFrom(s, e);
    }
  }

  /** Every token is non-empty and holds none of the delimiters. */
  lemma TokensValid(s: string)
    ensures forall k | 0 <= k < |Tokens(s)| :: ValidToken(Tokens(s)[k])
  {
    TokensFromValid(s, 0);
  }

  lemma {:induction false} TokensFromEmpty(s: string, i: nat)
    requires i <= |s|
    ensures TokensFrom(s, i) == [] <==> forall k | i <= k < |s| :: IsDelim(s[k])
    decreases |s| - i
  {
    if i < |s| {
      TokensFromEmpty(s, i + 1);
    }
  }

  /** A stretch of delimiters contributes no token. */
  lemma {:induction false} TokensFromSkip(s: string, i: nat, j: nat)
    requires i <= j <= |s|
    requires forall k | i <= k < j :: IsDelim(s[k])
    ensures TokensFrom(s, i) == TokensFrom(s, j)
    decreases j - i
  {
    if i < j {
      TokensFromSkip(s, i + 1, j);
    }
  }

  /** A stretch of delimiters contributes no span. */
  lemma {:induction false} SpansFromSkip(s: string, i: nat, j: nat)
    requires i <= j <= |s|
    requires forall k | i <= k < j :: IsDelim(s[k])
    ensures SpansFrom(s, i) == SpansFrom(s, j)
    decreases j - i
  {
    if i < j {
      SpansFromSkip(s, i + 1, j);
    }
  }

  /** A line yields no token exactly when it is empty or made only of delimiters. */
  lemma TokensEmptyIff(s: string)
    ensures Tokens(s) == [] <==> forall k | 0 <= k < |s| :: IsDelim(s[k])
  {
    TokensFromEmpty(s, 0);
  }

  /** `t` is `s` with its first `d` characters dropped. */
  ghost predicate Shifted(s: string, t: string, d: nat) {
    |s| == d + |t| && forall k | 0 <= k < |t| :: t[k] == s[d + k]
  }

  lemma {:induction false} WordEndShift(s: string, t: string, d: nat, j: nat)
    requires Shifted(s, t, d) && d <= j <= |s|
    ensures WordEnd(s, j) == d + WordEnd(t, j - d)
    decreases |s| - j
  {
    if j < |s| && !IsDelim(s[j]) {
      assert t[j - d] == s[j];
      WordEndShift(s, t, d, j + 1);
    }
  }

  lemma ShiftDelim(s: string, t: string, d: nat, j: nat)
    requires Shifted(s, t, d) && d <= j < |s| && IsDelim(s[j])
    requires TokensFrom(s, j + 1) == TokensFrom(t, j + 1 - d)
    ensures TokensFrom(s, j) == TokensFrom(t, j - d)
  {
    assert t[j - d] == s[j];
  }

  lemma ShiftSlice(s: string, t: string, d: nat, i: nat, j: nat)
    requires Shifted(s, t, d) && d <= i <= j <= |s|
    ensures t[i - d..j - d] == s[i..j]
  {
  }

  lemma ShiftWord(s: string, t: string, d: nat, j: nat)
    requires Shifted(s, t, d) && d <= j < |s| && !IsDelim(s[j])
    requires WordEnd(s, j) == d + WordEnd(t, j - d)
    requires TokensFrom(s, WordEnd(s, j)) == TokensFrom(t, WordEnd(s, j) - d)
    ensures TokensFrom(s, j) == TokensFrom(t, j - d)
  {
    assert t[j - d] == s[j];
    ShiftSlice(s, t, d, j, WordEnd(s, j));
  }

  /** Tokenizing from position `j` only looks at what follows `d <= j`. */
  lemma {:induction false} TokensFromShift(s: string, t: string, d: nat, j: nat)
    requires Shifted(s, t, d) && d <= j <= |s|
    ensures TokensFrom(s, j) == TokensFrom(t, j - d)
    decreases |s| - j
  {
    if j == |s| {
    } else if IsDelim(s[j]) {
      TokensFromShift(s, t, d, j + 1);
      ShiftDelim(s, t, d, j);
    } else {
      WordEndShift(s, t, d, j);
      TokensFromShift(s, t, d, WordEnd(s, j));
      ShiftWord(s, t, d, j);
    }
  }

  /** Tokenizing from position `i` is tokenizing the rest of the line. */
  lemma TokensFromSuffix(s: string, i: nat)
    requires i <= |s|
    ensures TokensFrom(s, i) == Tokens(s[i..])
  {
    TokensFromShift(s, s[i..], i, i);
  }

  /** A leading delimiter contributes nothing. */
  lemma TokensSkipDelim(d: char, rest: string)
    requires IsDelim(d)
    ensures Tokens([d] + rest) == Tokens(rest)
  {
    TokensFromSuffix([d] + rest, 1);
    assert ([d] + rest)[1..] == rest;
  }

  /** A word followed by a delimiter (or by nothing) is the first token. */
  lemma TokensWordFirst(w: string, rest: string)
    requires ValidToken(w)
    requires rest == [] || IsDelim(rest[0])
    ensures Tokens(w + rest) == [w] + Tokens(rest)
  {
    var s := w + rest;
    WordEndAt(s, 0, |w|);
    TokensFromSuffix(s, |w|);
    assert s[..|w|] == w && s[|w|..] == rest;
  }

  /** WordEnd is pinned down by its contract. */
  lemma {:induction false} WordEndAt(s: string, i: nat, j: nat)
    requires i <= j <= |s|
    requires forall k | i <= k < j :: !IsDelim(s[k])
    requires j == |s| || IsDelim(s[j])
    ensures WordEnd(s, i) == j
    decreases j - i
  {
    if i < j {
      WordEndAt(s, i + 1, j);
    }
  }

  /** The tokens joined with single spaces: what a user types for a given argument list. */
  function Join(ts: seq<string>): string {
    if ts == [] then []
    else if |ts| == 1 then ts[0]
    else ts[0] + " " + Join(ts[1..])
  }

  /** Tokenizing undoes joining: a list of valid tokens written out with
      spaces between them is split back into exactly that list. */
  lemma {:induction false} TokensOfJoin(ts: seq<string>)
    requires forall k | 0 <= k < |ts| :: ValidToken(ts[k])
    ensures Tokens(Join(ts)) == ts
  {
    if ts == [] {
    } else if |ts| == 1 {
      TokensWordFirst(ts[0], []);
      assert ts[0] + [] == ts[0];
    } else {
      TokensOfJoin(ts[1..]);
      TokensSkipDelim(' ', Join(ts[1..]));
      TokensWordFirst(ts[0], " " + Join(ts[1..]));
      assert ts[0] + " " + Join(ts[1..]) == ts[0] + (" " + Join(ts[1..]));
      assert [ts[0]] + ts[1..] == ts;
    }
  }

  /** strtok overwrites with NUL the delimiter that ends each token. */
  predicate IsTokenEnd(s: seq<char>, k: nat)
    requires k < |s|
  {
    0 < k < CLen(s) && !IsDelim(s[k - 1]) && IsDelim(s[k])
  }

  /** What position k of the line holds once every token has been cut out of it. */
  function CutAt(s: seq<char>, k: nat): char
    requires k < |s|
  {
    if IsTokenEnd(s, k) then '\0' else s[k]
  }

  /** The line buffer once every token has been cut out of it. */
  function Terminated(s: seq<char>): seq<char>
  {
    seq(|s|, k requires 0 <= k < |s| => CutAt(s, k))
  }

  /** Cutting leaves a maximal run of the C string intact and puts a NUL
      (or the end of the buffer) right after it. */
  lemma RunSurvivesCut(line: seq<char>, sp: Span)
    requires IsMaximalRun(CString(line), sp)
    ensures forall p | sp.start <= p < sp.end :: Terminated(line)[p] == line[p] != '\0'
    ensures sp.end < |line| ==> Terminated(line)[sp.end] == '\0'
  {
    var str := CString(line);
    if sp.end < |str| {
      assert IsTokenEnd(line, sp.end);
    }
  }

  /** The C string that starts at a maximal run of the cut buffer is that run. */
  lemma ViewOfRun(line: seq<char>, sp: Span)
    requires IsMaximalRun(CString(line), sp)
    ensures CString(Terminated(line)[sp.start..]) == CString(line)[sp.start..sp.end]
  {
    RunSurvivesCut(line, sp);
    var v := Terminated(line)[sp.start..];
    var n := sp.end - sp.start;
    CLenAt(v, n);
    assert v[..n] == CString(line)[sp.start..sp.end];
  }

  /** What cutting does to the buffer, in terms of the tokens: every span of
      the C string keeps its characters and is followed by a NUL (or the end
      of the buffer), and no position other than the end of a span changes. */
  lemma TerminatedCuts(s: seq<char>)
    ensures |Terminated(s)| == |s|
    ensures var sp := Spans(CString(s));
      forall j | 0 <= j < |sp| ::
        sp[j].end <= |s|
        && (forall p | sp[j].start <= p < sp[j].end :: Terminated(s)[p] == s[p])
        && (sp[j].end < |s| ==> Terminated(s)[sp[j].end] == '\0')
    ensures var sp := Spans(CString(s));
      forall k | 0 <= k < |s| && Terminated(s)[k] != s[k] ::
        exists j | 0 <= j < |sp| :: sp[j].end == k
  {
    var str := CString(s);
    var sp := Spans(str);
    TokensAreMaximalRuns(str);
    forall j | 0 <= j < |sp|
      ensures sp[j].end <= |s|
      ensures forall p | sp[j].start <= p < sp[j].end :: Terminated(s)[p] == s[p]
      ensures sp[j].end < |s| ==> Terminated(s)[sp[j].end] == '\0'
    {
      assert IsMaximalRun(str, sp[j]);
      RunSurvivesCut(s, sp[j]);
    }
    forall k | 0 <= k < |s| && Terminated(s)[k] != s[k]
      ensures exists j | 0 <= j < |sp| :: sp[j].end == k
    {
      assert IsTokenEnd(s, k);
      assert !IsDelim(str[k - 1]);
      var j :| 0 <= j < |sp| && sp[j].start <= k - 1 < sp[j].end;
      assert IsMaximalRun(str, sp[j]);
    }
  }

  /** Each argument pointer is a view into the cut buffer: the C string that
      starts where token k starts is exactly token k. */
  lemma ArgumentViews(line: seq<char>, k: nat)
    requires k < |Tokens(CString(line))|
    ensures |Spans(CString(line))| == |Tokens(CString(line))|
    ensures var sp := Spans(CString(line))[k];
      sp.start <= |line| && CString(Terminated(line)[sp.start..]) == Tokens(CString(line))[k]
  {
    var str := CString(line);
    TokensAreMaximalRuns(str);
    var sp := Spans(str)[k];
    assert IsMaximalRun(str, sp);
    ViewOfRun(line, sp);
  }

  /** CLen is pinned down by its contract. */
  lemma CLenAt(s: seq<char>, n: nat)
    requires n <= |s|
    requires forall k | 0 <= k < n :: s[k] != '\0'
    requires n < |s| ==> s[n] == '\0'
    ensures CLen(s) == n
  {
  }
}

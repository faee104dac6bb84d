/**
  * strtok from the C library (section 7.24.5.8 of ISO C11), as the tokenizer
  * uses it: a saved position into the line buffer, delimiters skipped, and
  * each token cut off by a NUL written over the delimiter that ends it.
  */
module Strtok {
  import opened Wrappers
  import opened Tokenizer

  /** What the saved pointer of strtok may look like between calls: the buffer
      is `orig` with the terminators before `save` already written, and `save`
      is not inside a word of the C string. */
  ghost predicate StrtokState(cur: seq<char>, orig: seq<char>, save: nat) {
    |cur| == |orig|
    && save <= CLen(orig)
    && (save == 0 || save == CLen(orig) || IsDelim(orig[save - 1]))
    && (forall k | 0 <= k < save :: cur[k] == CutAt(orig, k))
    && (forall k | save <= k < |cur| :: cur[k] == orig[k])
  }

  /** No position from the saved pointer up to the first non-delimiter is the
      end of a token. */
  lemma SkippedNotCut(orig: seq<char>, save: nat, i: nat)
    requires save <= i <= CLen(orig)
    requires save == 0 || save == CLen(orig) || IsDelim(orig[save - 1])
    requires forall k | save <= k < i :: IsDelim(orig[k])
    ensures forall k | save <= k <= i && k < |orig| :: !IsTokenEnd(orig, k)
  {
    forall k | save <= k <= i && k < |orig|
      ensures !IsTokenEnd(orig, k)
    {
      if save < k {
        assert IsDelim(orig[k - 1]);
      }
    }
  }

  /** strtok finds no token: only delimiters are left before the NUL. */
  lemma NoTokenLeft(cur: seq<char>, orig: seq<char>, save: nat, i: nat)
    requires StrtokState(cur, orig, save)
    requires save <= i <= |cur|
    requires forall k | save <= k < i :: cur[k] != '\0' && IsDelim(cur[k])
    requires i == |cur| || cur[i] == '\0'
    ensures i == CLen(orig)
    ensures TokensFrom(CString(orig), save) == []
    ensures SpansFrom(CString(orig), save) == []
  {
    TokensFromSkip(CString(orig), save, i);
    SpansFromSkip(CString(orig), save, i);
  }

  /** Once the saved pointer has reached the end of the C string, every
      terminator has been written: the buffer is the cut line. */
  lemma CutComplete(cur: seq<char>, orig: seq<char>)
    requires StrtokState(cur, orig, CLen(orig))
    ensures cur == Terminated(orig)
  {
    assert forall k | 0 <= k < |cur| :: cur[k] == Terminated(orig)[k];
  }

  /** strtok hands out the word [i, j) of the C string: the delimiter at j, if
      there is one, is cut, and the saved pointer moves past it. */
  lemma TokenFound(cur: seq<char>, orig: seq<char>, save: nat, i: nat, j: nat)
    requires StrtokState(cur, orig, save)
    requires save <= i < j <= |cur|
    requires forall k | save <= k < i :: cur[k] != '\0' && IsDelim(cur[k])
    requires forall k | i <= k < j :: cur[k] != '\0' && !IsDelim(cur[k])
    requires j == |cur| || cur[j] == '\0' || IsDelim(cur[j])
    ensures var cut := j < |cur| && cur[j] != '\0';
      j <= CLen(orig)
      && (cut ==> j < CLen(orig) && StrtokState(cur[j := '\0'], orig, j + 1)
                  && TokensFrom(CString(orig), save) == [cur[i..j]] + TokensFrom(CString(orig), j + 1)
                  && SpansFrom(CString(orig), save) == [Span(i, j)] + SpansFrom(CString(orig), j + 1))
      && (!cut ==> j == CLen(orig) && StrtokState(cur, orig, j)
                   && TokensFrom(CString(orig), save) == [cur[i..j]] + TokensFrom(CString(orig), j)
                   && SpansFrom(CString(orig), save) == [Span(i, j)] + SpansFrom(CString(orig), j))
  {
    var str := CString(orig);
    TokensFromSkip(str, save, i);
    SpansFromSkip(str, save, i);
    WordEndAt(str, i, j);
    assert cur[i..j] == str[i..j];
    SkippedNotCut(orig, save, i);
    if j < |str| {
      assert IsTokenEnd(orig, j);
      assert TokensFrom(str, j) == TokensFrom(str, j + 1);
      assert SpansFrom(str, j) == SpansFrom(str, j + 1);
    }
  }

  /** strspn(line + from, delimiters): the first position at or after `from`
      that holds the string's NUL or a non-delimiter. */
  method SkipDelims(line: array<char>, from: nat) returns (i: nat)
    requires from <= line.Length
    ensures from <= i <= line.Length
    ensures forall k | from <= k < i :: line[k] != '\0' && IsDelim(line[k])
    ensures i < line.Length ==> line[i] == '\0' || !IsDelim(line[i])
  {
    i := from;
    while i < line.Length && line[i] != '\0' && IsDelim(line[i])
      invariant from <= i <= line.Length
      invariant forall k | from <= k < i :: line[k] != '\0' && IsDelim(line[k])
    {
      i := i + 1;
    }
  }

  /** strcspn(line + from, delimiters): the first position at or after `from`
      that holds the string's NUL or a delimiter. */
  method ScanWord(line: array<char>, from: nat) returns (j: nat)
    requires from <= line.Length
    ensures from <= j <= line.Length
    ensures forall k | from <= k < j :: line[k] != '\0' && !IsDelim(line[k])
    ensures j < line.Length ==> line[j] == '\0' || IsDelim(line[j])
  {
    j := from;
    while j < line.Length && line[j] != '\0' && !IsDelim(line[j])
      invariant from <= j <= line.Length
      invariant forall k | from <= k < j :: line[k] != '\0' && !IsDelim(line[k])
    {
      j := j + 1;
    }
  }

  /** strtok(line, " \t\n\r\a") continued from the saved position `save`
      (section 7.24.5.8 of ISO C11): skip delimiters; at the end of the string
      there is no token; otherwise the token runs to the next delimiter, which
      is overwritten with NUL, and the saved position moves past it. The
      span returned is the first span of the line not yet handed out. */
  method Next(line: array<char>, save: nat, ghost orig: seq<char>) returns (tok: Option<Span>, next: nat)
    requires StrtokState(line[..], orig, save)
    modifies line
    ensures StrtokState(line[..], orig, next)
    ensures tok.None? ==>
              TokensFrom(CString(orig), save) == [] && SpansFrom(CString(orig), save) == []
              && next == CLen(orig)
    ensures tok.Some? ==>
              tok.value.start < tok.value.end <= line.Length
              && (tok.value.end < line.Length ==> line[tok.value.end] == '\0')
              && TokensFrom(CString(orig), save)
                 == [line[tok.value.start..tok.value.end]] + TokensFrom(CString(orig), next)
              && SpansFrom(CString(orig), save) == [tok.value] + SpansFrom(CString(orig), next)
  {
    var i := SkipDelims(line, save);
    if i == line.Length || line[i] == '\0' {
      NoTokenLeft(line[..], orig, save, i);
      return None, i;
    }
    var j := ScanWord(line, i);
    ghost var before := line[..];
    TokenFound(before, orig, save, i, j);
    if j < line.Length && line[j] != '\0' {
      line[j] := '\0';
      assert line[..] == before[j := '\0'];
      assert line[i..j] == before[i..j];
      next := j + 1;
    } else {
      next := j;
    }
    tok := Some(Span(i, j));
  }
}

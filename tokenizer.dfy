/**
 * The tokenizer of the shell: `strtok_r` with the delimiter set " ".
 * Only the space character separates tokens; a tab or any other character
 * belongs to the token it is in.
 */
module Tokenizer {
  import opened Wrappers

  /** A possible token: non-empty and free of spaces. */
  predicate IsWord(w: string) {
    |w| > 0 && ' ' !in w
  }

  /** Length of the run of non-space characters at the start of `s`. */
  function RunLength(s: string): (n: nat)
    ensures n <= |s|
    ensures forall k :: 0 <= k < n ==> s[k] != ' '
    ensures n < |s| ==> s[n] == ' '
  {
    if s == [] || s[0] == ' ' then 0 else 1 + RunLength(s[1..])
  }

  /** The tokens of `s`: its maximal runs of non-space characters, in order. */
  function Tokens(s: string): (ts: seq<string>)
    ensures forall k :: 0 <= k < |ts| ==> IsWord(ts[k])
    decreases |s|
  {
    if s == [] then []
    else if s[0] == ' ' then Tokens(s[1..])
    else
      var n := RunLength(s);
      assert forall k :: 0 <= k < n ==> s[..n][k] != ' ';
      [s[..n]] + Tokens(s[n..])
  }

  /** The words of `ts` separated by single spaces. */
  function Join(ts: seq<string>): string
  {
    if ts == [] then ""
    else if |ts| == 1 then ts[0]
    else ts[0] + " " + Join(ts[1..])
  }

  /** `s` with every space removed. */
  function Unspaced(s: string): (r: string)
    ensures ' ' !in r
  {
    if s == [] then ""
    else if s[0] == ' ' then Unspaced(s[1..])
    else [s[0]] + Unspaced(s[1..])
  }

  /** The concatenation of a sequence of strings. */
  function Concat(ts: seq<string>): string
  {
    if ts == [] then "" else ts[0] + Concat(ts[1..])
  }

  lemma RunLengthUnique(s: string, m: nat)
    requires m <= |s|
    requires forall k :: 0 <= k < m ==> s[k] != ' '
    requires m < |s| ==> s[m] == ' '
    ensures RunLength(s) == m
  {
  }

  /** A word is one token: a run is never split. */
  lemma TokensOfWord(w: string)
    requires IsWord(w)
    ensures Tokens(w) == [w]
  {
    RunLengthUnique(w, |w|);
    assert w[..|w|] == w;
  }

  /** A space separates: the tokens of `a + " " + b` are those of `a` followed by those of `b`. */
  lemma {:induction false} TokensSplit(a: string, b: string)
    ensures Tokens(a + " " + b) == Tokens(a) + Tokens(b)
    decreases |a|
  {
    var s := a + " " + b;
    if a == [] {
      assert s[1..] == b;
    } else if a[0] == ' ' {
      assert s[1..] == a[1..] + " " + b;
      TokensSplit(a[1..], b);
    } else {
      var n := RunLength(a);
      RunLengthUnique(s, n);
      assert s[..n] == a[..n];
      assert s[n..] == a[n..] + " " + b;
      TokensSplit(a[n..], b);
    }
  }

  /** Joining words with single spaces and tokenizing gives the words back. */
  lemma {:induction false} TokensJoin(ts: seq<string>)
    requires forall k :: 0 <= k < |ts| ==> IsWord(ts[k])
    ensures Tokens(Join(ts)) == ts
  {
    if |ts| == 1 {
      TokensOfWord(ts[0]);
    } else if |ts| > 1 {
      TokensSplit(ts[0], Join(ts[1..]));
      TokensOfWord(ts[0]);
      TokensJoin(ts[1..]);
    }
  }

  lemma {:induction false} UnspacedAppend(a: string, b: string)
    ensures Unspaced(a + b) == Unspaced(a) + Unspaced(b)
  {
    if a == [] {
      assert a + b == b;
    } else {
      assert (a + b)[1..] == a[1..] + b;
      UnspacedAppend(a[1..], b);
    }
  }

  lemma {:induction false} UnspacedWord(w: string)
    requires ' ' !in w
    ensures Unspaced(w) == w
  {
    if w != [] {
      UnspacedWord(w[1..]);
    }
  }

  /** Tokenizing loses exactly the spaces: nothing else is dropped, added or reordered. */
  lemma {:induction false} TokensKeepNonSpaces(s: string)
    ensures Concat(Tokens(s)) == Unspaced(s)
    decreases |s|
  {
    if s != [] {
      if s[0] == ' ' {
        TokensKeepNonSpaces(s[1..]);
      } else {
        var n := RunLength(s);
        assert s == s[..n] + s[n..];
        TokensKeepNonSpaces(s[n..]);
        UnspacedAppend(s[..n], s[n..]);
        assert forall k :: 0 <= k < n ==> s[..n][k] != ' ';
        UnspacedWord(s[..n]);
        assert ([s[..n]] + Tokens(s[n..]))[1..] == Tokens(s[n..]);
      }
    }
  }

  /** The tokens not yet consumed: the token just returned, if any, then the rest of the line. */
  function Pending(tok: Option<string>, line: string, pos: nat): seq<string>
    requires pos <= |line|
  {
    (if tok.Some? then [tok.value] else []) + Tokens(line[pos..])
  }

  /**
   * One call of `strtok_r(…, " ", &posptr)`, where `pos` is the position the
   * saved pointer refers to. It skips leading spaces, returns the run of
   * non-space characters that follows and leaves the saved position just past
   * the space that ends the run (or at the end of the line). When only spaces
   * remain it reports no token, and so does every later call.
   */
  method NextToken(line: string, pos: nat) returns (tok: Option<string>, next: nat)
    requires pos <= |line|
    ensures pos <= next <= |line|
    ensures tok.None? <==> Tokens(line[pos..]) == []
    ensures tok.None? ==> next == |line|
    ensures tok.Some? ==> next > pos
    ensures Pending(tok, line, next) == Tokens(line[pos..])
  {
    var i := pos;
    while i < |line| && line[i] == ' '
      invariant pos <= i <= |line|
      invariant Tokens(line[i..]) == Tokens(line[pos..])
    {
      assert line[i..][1..] == line[i + 1..];
      i := i + 1;
    }
    if i == |line| {
      assert line[i..] == [];
      return None, i;
    }
    var j := i;
    while j < |line| && line[j] != ' '
      invariant i <= j <= |line|
      invariant forall k :: i <= k < j ==> line[k] != ' '
    {
      j := j + 1;
    }
    var rest := line[i..];
    RunLengthUnique(rest, j - i);
    assert rest[..j - i] == line[i..j];
    assert rest[j - i..] == line[j..];
    tok := Some(line[i..j]);
    if j < |line| {
      assert line[j..][1..] == line[j + 1..];
      next := j + 1;
    } else {
      next := j;
    }
  }
}

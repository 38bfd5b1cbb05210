/** Python's `str.split()` with no separator: the runs of non-whitespace characters of a string. */
module PyText {

  /** The characters that `str.isspace` accepts and `str.split()` therefore splits on. */
  predicate IsSpace(c: char)
  {
    || ('\t' <= c <= '\r')              // tab, line feed, vertical tab, form feed, carriage return
    || ('\U{1c}' <= c <= '\U{1f}')      // file, group, record and unit separators
    || c == ' '
    || c == '\U{85}' || c == '\U{a0}' || c == '\U{1680}'
    || ('\U{2000}' <= c <= '\U{200a}')
    || c == '\U{2028}' || c == '\U{2029}' || c == '\U{202f}' || c == '\U{205f}' || c == '\U{3000}'
  }

  /** A string made of whitespace only (so `s.split() == []`). */
  predicate IsBlank(s: string)
  {
    forall i :: 0 <= i < |s| ==> IsSpace(s[i])
  }

  /** A string `split()` can return as one element: non-empty, without whitespace. */
  predicate IsToken(t: string)
  {
    |t| > 0 && forall i :: 0 <= i < |t| ==> !IsSpace(t[i])
  }

  /** The length of the longest whitespace-free prefix of `s`. */
  function TokenLength(s: string): (n: nat)
    ensures n <= |s|
    ensures forall i :: 0 <= i < n ==> !IsSpace(s[i])
    ensures n == |s| || IsSpace(s[n])
  {
    if s == "" || IsSpace(s[0]) then 0 else 1 + TokenLength(s[1..])
  }

  /** `s.split()`: whitespace is dropped, every maximal whitespace-free run becomes one element. */
  function Split(s: string): (w: seq<string>)
    ensures forall k :: 0 <= k < |w| ==> IsToken(w[k])
    ensures w == [] <==> IsBlank(s)
    decreases |s|
  {
    if s == "" then []
    else if IsSpace(s[0]) then Split(s[1..])
    else
      var n := TokenLength(s);
      [s[..n]] + Split(s[n..])
  }

  /** Leading whitespace does not change the split. */
  lemma {:induction false} SplitAfterBlank(b: string, s: string)
    requires IsBlank(b)
    ensures Split(b + s) == Split(s)
    decreases |b|
  {
    if b != "" {
      assert (b + s)[0] == b[0] && IsSpace(b[0]);
      assert (b + s)[1..] == b[1..] + s;
      SplitAfterBlank(b[1..], s);
    } else {
      assert b + s == s;
    }
  }

  /** A whitespace-free prefix followed by whitespace (or nothing) is exactly the leading run. */
  lemma {:induction false} TokenLengthOfToken(t: string, s: string)
    requires forall i :: 0 <= i < |t| ==> !IsSpace(t[i])
    requires s == "" || IsSpace(s[0])
    ensures TokenLength(t + s) == |t|
    decreases |t|
  {
    if t != "" {
      assert (t + s)[1..] == t[1..] + s;
      TokenLengthOfToken(t[1..], s);
    }
  }

  /** A token followed by whitespace (or nothing) is split off as the first element. */
  lemma SplitAfterToken(t: string, s: string)
    requires IsToken(t)
    requires s == "" || IsSpace(s[0])
    ensures Split(t + s) == [t] + Split(s)
  {
    TokenLengthOfToken(t, s);
    assert (t + s)[..|t|] == t;
    assert (t + s)[|t|..] == s;
  }

  /** Tokens written one after another, each followed by a space. */
  function JoinSpaced(ts: seq<string>): (s: string)
    ensures |s| >= |ts|
  {
    if ts == [] then "" else ts[0] + " " + JoinSpaced(ts[1..])
  }

  /** Splitting undoes joining: tokens separated by spaces split back into the same tokens, in order. */
  lemma {:induction false} SplitJoinSpaced(ts: seq<string>)
    requires forall k :: 0 <= k < |ts| ==> IsToken(ts[k])
    ensures Split(JoinSpaced(ts)) == ts
    decreases |ts|
  {
    if ts != [] {
      var rest := JoinSpaced(ts[1..]);
      assert JoinSpaced(ts) == ts[0] + (" " + rest);
      SplitAfterToken(ts[0], " " + rest);
      SplitAfterBlank(" ", rest);
      SplitJoinSpaced(ts[1..]);
      assert ts == [ts[0]] + ts[1..];
    }
  }
}

/**
 * Character classes and the tokeniser behind `parse_id_list`:
 * the comma replacement `raw.replace(",", " ")` and the argument-less
 * `raw.split()`, which splits on runs of whitespace and drops empty pieces.
 */
module Text {

  type String = seq<char>

  /** The characters Python's `str.isspace` accepts, which are exactly the
      separators of an argument-less `str.split()`. None of them is a comma
      or a digit. */
  predicate IsSpace(c: char)
    ensures IsSpace(c) ==> c != ',' && !('0' <= c <= '9')
  {
    ('\t' <= c <= '\r')                     // tab, line feed, vertical tab, form feed, carriage return
    || ('\U{1C}' <= c <= '\U{1F}')          // file, group, record and unit separators
    || c == ' '
    || c == '\U{85}' || c == '\U{A0}' || c == '\U{1680}'
    || ('\U{2000}' <= c <= '\U{200A}')
    || c == '\U{2028}' || c == '\U{2029}' || c == '\U{202F}' || c == '\U{205F}' || c == '\U{3000}'
  }

  /** A comma or a whitespace character: what `parse_id_list` treats as a gap. */
  predicate IsSeparator(c: char) {
    c == ',' || IsSpace(c)
  }

  /** A piece `str.split()` can produce: non-empty and without whitespace. */
  predicate IsWord(t: String) {
    |t| > 0 && forall i :: 0 <= i < |t| ==> !IsSpace(t[i])
  }

  /** `s.replace(",", " ")`. */
  function ReplaceCommas(s: String): (r: String)
    ensures |r| == |s|
    ensures ',' !in r
    ensures forall i :: 0 <= i < |s| && s[i] != ',' ==> r[i] == s[i]
    ensures forall i :: 0 <= i < |s| && s[i] == ',' ==> IsSpace(r[i])
  {
    seq(|s|, i requires 0 <= i < |s| => if s[i] == ',' then ' ' else s[i])
  }

  /** Length of the longest whitespace-free prefix of `s`. */
  function WordLength(s: String): (n: nat)
    ensures n <= |s|
    ensures forall i :: 0 <= i < n ==> !IsSpace(s[i])
    ensures n < |s| ==> IsSpace(s[n])
  {
    if s == [] || IsSpace(s[0]) then 0 else 1 + WordLength(s[1..])
  }

  /** `s.split()`: the maximal whitespace-free runs of `s`, left to right. */
  function Tokens(s: String): (ts: seq<String>)
    ensures forall k :: 0 <= k < |ts| ==> IsWord(ts[k])
    ensures forall k, i :: 0 <= k < |ts| && 0 <= i < |ts[k]| ==> ts[k][i] in s
    decreases |s|
  {
    if s == [] then []
    else if IsSpace(s[0]) then
      assert forall c :: c in s[1..] ==> c in s;
      Tokens(s[1..])
    else
      var n := WordLength(s);
      assert forall c :: c in s[n..] ==> c in s;
      assert forall i :: 0 <= i < n ==> s[..n][i] in s;
      [s[..n]] + Tokens(s[n..])
  }

  /** The characters of `s` that are not whitespace, in order. */
  function NonSpace(s: String): String {
    if s == [] then []
    else (if IsSpace(s[0]) then [] else [s[0]]) + NonSpace(s[1..])
  }

  /** The words of `ts` laid end to end. */
  function Concat(ts: seq<String>): String {
    if ts == [] then [] else ts[0] + Concat(ts[1..])
  }

  /** The words of `ts`, each followed by one space. */
  function Join(ts: seq<String>): String {
    if ts == [] then [] else ts[0] + [' '] + Join(ts[1..])
  }

  /** Two strings that differ only where both hold whitespace. */
  predicate SameUpToSpaces(a: String, b: String) {
    |a| == |b| && forall i :: 0 <= i < |a| ==> a[i] == b[i] || (IsSpace(a[i]) && IsSpace(b[i]))
  }

  /** The word length is determined by where the first whitespace character sits. */
  lemma WordLengthIs(s: String, k: nat)
    requires k <= |s|
    requires forall i :: 0 <= i < k ==> !IsSpace(s[i])
    requires k < |s| ==> IsSpace(s[k])
    ensures WordLength(s) == k
  {
  }

  /** Tokenising loses no non-whitespace character and invents none. */
  lemma {:induction false} TokensKeepText(s: String)
    ensures Concat(Tokens(s)) == NonSpace(s)
    decreases |s|
  {
    if s == [] {
    } else if IsSpace(s[0]) {
      TokensKeepText(s[1..]);
    } else {
      var n := WordLength(s);
      TokensKeepText(s[n..]);
      NonSpaceOfWord(s[..n]);
      NonSpaceAppend(s[..n], s[n..]);
      assert s[..n] + s[n..] == s;
      assert Tokens(s) == [s[..n]] + Tokens(s[n..]);
      assert ([s[..n]] + Tokens(s[n..]))[1..] == Tokens(s[n..]);
    }
  }

  lemma {:induction false} NonSpaceOfWord(t: String)
    requires forall i :: 0 <= i < |t| ==> !IsSpace(t[i])
    ensures NonSpace(t) == t
  {
    if t != [] {
      NonSpaceOfWord(t[1..]);
    }
  }

  lemma {:induction false} NonSpaceAppend(a: String, b: String)
    ensures NonSpace(a + b) == NonSpace(a) + NonSpace(b)
  {
    if a != [] {
      assert (a + b)[1..] == a[1..] + b;
      NonSpaceAppend(a[1..], b);
    } else {
      assert a + b == b;
    }
  }

  /** Joining words with single spaces and splitting again gives the words back. */
  lemma {:induction false} TokensOfJoin(ts: seq<String>)
    requires forall k :: 0 <= k < |ts| ==> IsWord(ts[k])
    ensures Tokens(Join(ts)) == ts
  {
    if ts != [] {
      var t, rest := ts[0], Join(ts[1..]);
      var s := t + [' '] + rest;
      assert Join(ts) == s;
      WordLengthIs(s, |t|);
      assert s[..|t|] == t;
      assert s[|t|..] == [' '] + rest;
      assert ([' '] + rest)[1..] == rest;
      TokensOfJoin(ts[1..]);
      assert ts == [t] + ts[1..];
    }
  }

  /** Which whitespace character separates two words does not matter. */
  lemma {:induction false} TokensIgnoreSpaceKind(a: String, b: String)
    requires SameUpToSpaces(a, b)
    ensures Tokens(a) == Tokens(b)
    decreases |a|
  {
    if a == [] {
    } else if IsSpace(a[0]) {
      assert IsSpace(b[0]);
      TokensIgnoreSpaceKind(a[1..], b[1..]);
    } else {
      var n := WordLength(a);
      assert forall i :: 0 <= i < n ==> a[i] == b[i];
      WordLengthIs(b, n);
      assert a[..n] == b[..n];
      TokensIgnoreSpaceKind(a[n..], b[n..]);
    }
  }

  /** A word on its own is one token. */
  lemma TokensOfWord(w: String)
    requires IsWord(w)
    ensures Tokens(w) == [w]
  {
    WordLengthIs(w, |w|);
    assert w[..|w|] == w && w[|w|..] == [];
  }

  /** A whitespace character cuts the text in two independently tokenised halves. */
  lemma {:induction false} TokensSplitAtSpace(a: String, c: char, b: String)
    requires IsSpace(c)
    ensures Tokens(a + [c] + b) == Tokens(a) + Tokens(b)
    decreases |a|
  {
    var s := a + [c] + b;
    if a == [] {
      assert s[1..] == b;
    } else if IsSpace(a[0]) {
      assert s[1..] == a[1..] + [c] + b;
      TokensSplitAtSpace(a[1..], c, b);
    } else {
      var m := WordLength(a);
      assert forall i :: 0 <= i < m ==> s[i] == a[i];
      WordLengthIs(s, m);
      assert s[..m] == a[..m];
      assert s[m..] == a[m..] + [c] + b;
      TokensSplitAtSpace(a[m..], c, b);
    }
  }

  /** Replacing commas works character by character. */
  lemma ReplaceCommasAppend(a: String, b: String)
    ensures ReplaceCommas(a + b) == ReplaceCommas(a) + ReplaceCommas(b)
  {
  }
}

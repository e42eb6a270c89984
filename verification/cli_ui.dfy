/**
 * `parse_id_list`: turns a line such as "1 3 5", "1,3,5" or a mix of both
 * into the list of question IDs it names, without repetitions, in the order
 * in which they were first typed.
 */
module CliUi {
  import opened Text
  import opened Decimal
  import opened Dedup

  /** The list `ids` of the source's first pass: the value of every
      all-digit token, in token order, repetitions included. */
  function DigitValues(ts: seq<String>): (ids: seq<int>)
    ensures |ids| <= |ts|
    ensures forall x :: x in ids ==> x >= 0
    decreases |ts|
  {
    if ts == [] then []
    else
      var t := ts[|ts| - 1];
      DigitValues(ts[..|ts| - 1]) + (if IsNumeral(t) then [Value(t)] else [])
  }

  /** What a call of `parse_id_list` ends with: the list it returns, or the
      `ValueError` that `int` raises on the named token. */
  datatype Parsed = Ids(ids: seq<int>) | ValueError(token: String)

  /** The tokens `parse_id_list` looks at: the input split at commas and
      whitespace, each a non-empty run holding neither. */
  function Parts(raw: String): (ts: seq<String>)
    ensures forall k :: 0 <= k < |ts| ==> IsWord(ts[k]) && ',' !in ts[k]
  {
    var ts := Tokens(ReplaceCommas(raw));
    assert forall k, i :: 0 <= k < |ts| && 0 <= i < |ts[k]| ==> ts[k][i] != ',';
    ts
  }

  /** What `parse_id_list(raw)` returns when `int` raises on none of the tokens. */
  function IdList(raw: String): (ids: seq<int>)
    ensures NoDuplicates(ids)
    ensures forall x :: x in ids ==> x >= 0
    ensures |ids| <= |Parts(raw)|
  {
    Unique(DigitValues(Parts(raw)))
  }

  /** The source's two passes: collect the values of the all-digit tokens,
      then keep each value the first time it is seen. The first pass stops
      with `ValueError` at the first digit token too long for `int`. */
  method ParseIdList(raw: String) returns (r: Parsed)
    ensures r.ValueError? <==> exists t :: t in Parts(raw) && TooLongForInt(t)
    ensures r.ValueError? ==> exists k :: 0 <= k < |Parts(raw)| && Parts(raw)[k] == r.token && TooLongForInt(r.token)
                                           && forall j :: 0 <= j < k ==> !TooLongForInt(Parts(raw)[j])
    ensures r.Ids? ==> r.ids == IdList(raw)
    ensures r.Ids? ==> NoDuplicates(r.ids)
    ensures r.Ids? ==> forall x :: x in r.ids <==> exists t :: t in Parts(raw) && IsNumeral(t) && Value(t) == x
    ensures r.Ids? ==> InFirstOccurrenceOrder(r.ids, DigitValues(Parts(raw)))
  {
    var text := ReplaceCommas(raw);
    var parts := Tokens(text);
    var ids: seq<int> := [];
    for i := 0 to |parts|
      invariant ids == DigitValues(parts[..i])
      invariant forall j :: 0 <= j < i ==> !TooLongForInt(parts[j])
    {
      var part := parts[i];
      assert parts[..i + 1][..i] == parts[..i];
      if IsNumeral(part) {
        if |part| > MaxStrDigits {
          assert part in parts && TooLongForInt(part);
          return ValueError(part);
        }
        ids := ids + [Value(part)];
      }
    }
    assert parts[..|parts|] == parts;

    var seen: set<int> := {};
    var out: seq<int> := [];
    for i := 0 to |ids|
      invariant out == Unique(ids[..i])
      invariant forall x :: x in seen <==> x in out
    {
      var x := ids[i];
      assert ids[..i + 1][..i] == ids[..i];
      if x !in seen {
        seen := seen + {x};
        out := out + [x];
      }
    }
    assert ids[..|ids|] == ids;
    IdListMembers(raw);
    IdListFirstOccurrenceOrder(raw);
    r := Ids(out);
  }

  /** A value is among the digit values exactly when some all-digit token has it. */
  lemma {:induction false} DigitValuesMembers(ts: seq<String>)
    ensures forall x :: x in DigitValues(ts) <==> exists t :: t in ts && IsNumeral(t) && Value(t) == x
    decreases |ts|
  {
    if ts != [] {
      var p, t := ts[..|ts| - 1], ts[|ts| - 1];
      DigitValuesMembers(p);
      assert ts == p + [t];
      forall x | x in DigitValues(ts)
        ensures exists u :: u in ts && IsNumeral(u) && Value(u) == x
      {
        if x in DigitValues(p) {
          var u :| u in p && IsNumeral(u) && Value(u) == x;
          assert u in ts;
        } else {
          assert t in ts;
        }
      }
    }
  }

  /** Soundness and completeness: the output holds the value of every
      all-digit token of the input and nothing else. */
  lemma IdListMembers(raw: String)
    ensures forall x :: x in IdList(raw) <==> exists t :: t in Parts(raw) && IsNumeral(t) && Value(t) == x
  {
    DigitValuesMembers(Parts(raw));
  }

  /** The output lists values in the order of their first occurrence among
      the digit tokens. */
  lemma IdListFirstOccurrenceOrder(raw: String)
    ensures InFirstOccurrenceOrder(IdList(raw), DigitValues(Parts(raw)))
  {
    UniqueKeepsFirstOccurrenceOrder(DigitValues(Parts(raw)));
  }

  /** A comma and a whitespace character are interchangeable: two inputs
      that differ only in which separator stands at some positions give the
      same IDs. */
  lemma CommasAreSeparators(a: String, b: String)
    requires |a| == |b|
    requires forall i :: 0 <= i < |a| ==> a[i] == b[i] || (IsSeparator(a[i]) && IsSeparator(b[i]))
    ensures IdList(a) == IdList(b)
  {
    var a', b' := ReplaceCommas(a), ReplaceCommas(b);
    assert SameUpToSpaces(a', b');
    TokensIgnoreSpaceKind(a', b');
  }

  /** In particular, replacing every comma by a space changes nothing. */
  lemma CommasAsSpaces(raw: String)
    ensures IdList(ReplaceCommas(raw)) == IdList(raw)
  {
    CommasAreSeparators(ReplaceCommas(raw), raw);
  }

  /** The two spellings the docstring names are the same request. */
  lemma CommaListIsSpaceList()
    ensures IdList("1,3,5") == IdList("1 3 5")
  {
    CommasAreSeparators("1,3,5", "1 3 5");
  }

  lemma {:induction false} DigitValuesAppend(ts: seq<String>, us: seq<String>)
    ensures DigitValues(ts + us) == DigitValues(ts) + DigitValues(us)
    decreases |us|
  {
    if us == [] {
      assert ts + us == ts;
    } else {
      var p := us[..|us| - 1];
      DigitValuesAppend(ts, p);
      assert (ts + us)[..|ts + us| - 1] == ts + p;
    }
  }

  /** A whitespace character between two pieces of input separates their tokens. */
  lemma PartsSplitAtSpace(a: String, b: String)
    ensures Parts(a + [' '] + b) == Parts(a) + Parts(b)
  {
    ReplaceCommasAppend(a, [' ']);
    ReplaceCommasAppend(a + [' '], b);
    assert ReplaceCommas([' ']) == [' '];
    TokensSplitAtSpace(ReplaceCommas(a), ' ', ReplaceCommas(b));
  }

  /** A word without commas is one part. */
  lemma PartsOfWord(w: String)
    requires IsWord(w) && ',' !in w
    ensures Parts(w) == [w]
  {
    assert ReplaceCommas(w) == w;
    TokensOfWord(w);
  }

  /** A token with a character other than an ASCII digit ("-1", "3a", "+2")
      contributes nothing: dropping it from the input leaves the IDs alone. */
  lemma OtherTokensIgnored(a: String, w: String, b: String)
    requires IsWord(w) && ',' !in w && !IsNumeral(w)
    ensures IdList(a + [' '] + w + [' '] + b) == IdList(a + [' '] + b)
  {
    PartsAroundWord(a, w, b);
    PartsSplitAtSpace(a, b);
    DigitValuesSkip(Parts(a), w, Parts(b));
  }

  lemma PartsAroundWord(a: String, w: String, b: String)
    requires IsWord(w) && ',' !in w
    ensures Parts(a + [' '] + w + [' '] + b) == Parts(a) + [w] + Parts(b)
  {
    PartsSplitAtSpace(a + [' '] + w, b);
    PartsSplitAtSpace(a, w);
    PartsOfWord(w);
  }

  lemma DigitValuesSkip(ts: seq<String>, w: String, us: seq<String>)
    requires !IsNumeral(w)
    ensures DigitValues(ts + [w] + us) == DigitValues(ts + us)
  {
    assert [w][..0] == [];
    assert DigitValues([w]) == [];
    DigitValuesAppend(ts + [w], us);
    DigitValuesAppend(ts, [w]);
    DigitValuesAppend(ts, us);
  }

  /** Repetitions are recognised by value, not by spelling: two all-digit
      tokens with the same value, such as "7" and "007", give one ID. */
  lemma SameValueOnce(u: String, v: String)
    requires IsNumeral(u) && IsNumeral(v) && Value(u) == Value(v)
    ensures IdList(u + [' '] + v) == [Value(u)]
  {
    PartsSplitAtSpace(u, v);
    PartsOfWord(u);
    PartsOfWord(v);
    DigitValuesOfTwo(u, v);
    UniqueOfTwin(Value(u));
  }

  lemma DigitValuesOfTwo(u: String, v: String)
    requires IsNumeral(u) && IsNumeral(v)
    ensures DigitValues([u] + [v]) == [Value(u), Value(v)]
  {
    DigitValuesAppend([u], [v]);
    assert [u][..0] == [] && [v][..0] == [];
  }

  lemma UniqueOfTwin(n: int)
    ensures Unique([n, n]) == [n]
  {
    assert [n, n][..1] == [n] && [n][..0] == [];
  }

  lemma LeadingZerosDoNotMatter()
    ensures IdList("7 007") == [7]
  {
    var seven, padded := "7", "007";
    assert IsDigit('7');
    assert IsNumeral(seven);
    assert seven[..0] == [];
    assert Value(seven) == 7;
    ValueIgnoresLeadingZeros(2, seven);
    assert Zeros(2) + seven == padded;
    SameValueOnce(seven, padded);
    assert seven + [' '] + padded == "7 007";
  }

  /** Without any all-digit token, in particular for the empty line, the result is empty. */
  lemma NoNumeralsNoIds(raw: String)
    ensures IdList(raw) == [] <==> forall t :: t in Parts(raw) ==> !IsNumeral(t)
  {
    IdListMembers(raw);
    forall t | t in Parts(raw) && IsNumeral(t) ensures Value(t) in IdList(raw) {
    }
    if IdList(raw) != [] {
      assert IdList(raw)[0] in IdList(raw);
    }
  }
}

/** The calibration script of `1.py`: every line of the input is reduced to the
    digits it holds, the line's value is the two-digit number made of the first
    and the last of those digits, and the file's value is the sum over its lines.
    Two extraction policies exist: literal digits only (part 1), and literal
    digits together with the English words "one" to "nine" (part 2). */
module Calibration {
  import opened Wrappers
  import opened Sums
  import Text

  /* ---------- is_digit ---------- */

  /** The lookup table behind `is_digit`. */
  const DigitChars: set<char> := {'0', '1', '2', '3', '4', '5', '6', '7', '8', '9'}

  /** `is_digit(c)`: membership in the table, which is exactly the ASCII range
      '0'..'9'. */
  predicate IsDigit(c: char): (b: bool)
    ensures b <==> Text.IsDecimalDigit(c)
  {
    c in DigitChars
  }

  /* ---------- subsequences ---------- */

  /** `a` is obtained from `b` by deleting characters (keeping the order of the
      rest). Decided by matching the last characters greedily. */
  predicate IsSubsequence(a: string, b: string)
    decreases |b|
  {
    if a == [] then true
    else if b == [] then false
    else if a[|a| - 1] == b[|b| - 1] then IsSubsequence(a[..|a| - 1], b[..|b| - 1])
    else IsSubsequence(a, b[..|b| - 1])
  }

  lemma {:induction false} SubsequenceAppend(a: string, b: string, c: char)
    requires IsSubsequence(a, b)
    ensures IsSubsequence(a, b + [c])
    decreases |b|, 1
  {
    assert (b + [c])[..|b|] == b;
    if a != [] && a[|a| - 1] == c {
      SubsequenceDropLast(a, b);
    }
  }

  lemma {:induction false} SubsequenceDropLast(a: string, b: string)
    requires a != [] && IsSubsequence(a, b)
    ensures IsSubsequence(a[..|a| - 1], b)
    decreases |b|, 0
  {
    var b' := b[..|b| - 1];
    assert b' + [b[|b| - 1]] == b;
    if a[|a| - 1] != b[|b| - 1] {
      SubsequenceDropLast(a, b');
    }
    SubsequenceAppend(a[..|a| - 1], b', b[|b| - 1]);
  }

  lemma SubsequenceAppendShort(a: string, b: string, e: string)
    requires IsSubsequence(a, b) && |e| <= 1
    ensures IsSubsequence(a + [], b + e)
  {
    assert a + [] == a;
    if e == [] {
      assert b + e == b;
    } else {
      assert e == [e[0]];
      SubsequenceAppend(a, b, e[0]);
    }
  }

  lemma SubsequenceAppendBoth(a: string, b: string, c: char)
    requires IsSubsequence(a, b)
    ensures IsSubsequence(a + [c], b + [c])
  {
    assert (a + [c])[..|a|] == a;
    assert (b + [c])[..|b|] == b;
  }

  /* ---------- extract_digits1 ---------- */

  /** `extract_digits1`: the digit characters of `s`, in order. */
  function ExtractDigits1(s: string): (r: string)
    ensures |r| <= |s|
    ensures forall k :: 0 <= k < |r| ==> IsDigit(r[k])
  {
    if s == [] then []
    else ExtractDigits1(s[..|s| - 1]) + (if IsDigit(s[|s| - 1]) then [s[|s| - 1]] else [])
  }

  /** The indices of `s` that hold a digit character. */
  function DigitPositions(s: string): set<nat>
  {
    set k: nat | k < |s| && IsDigit(s[k])
  }

  /** `extract_digits1` keeps characters of `s` in their order: its result is a
      subsequence of `s` (made of digits, by the function's own contract). */
  lemma {:induction false} ExtractDigits1Subsequence(s: string)
    ensures IsSubsequence(ExtractDigits1(s), s)
  {
    if s != [] {
      var init, last := s[..|s| - 1], s[|s| - 1];
      assert s == init + [last];
      ExtractDigits1Subsequence(init);
      if IsDigit(last) {
        SubsequenceAppendBoth(ExtractDigits1(init), init, last);
      } else {
        SubsequenceAppend(ExtractDigits1(init), init, last);
        assert ExtractDigits1(s) == ExtractDigits1(init);
      }
    }
  }

  /** Exactly one character is extracted per digit position of `s`. */
  lemma {:induction false} ExtractDigits1Count(s: string)
    ensures |ExtractDigits1(s)| == |DigitPositions(s)|
  {
    if s != [] {
      var init := s[..|s| - 1];
      ExtractDigits1Count(init);
      if IsDigit(s[|s| - 1]) {
        assert DigitPositions(s) == DigitPositions(init) + {|s| - 1};
      } else {
        assert DigitPositions(s) == DigitPositions(init);
      }
    }
  }

  /** A string of digits passes through `extract_digits1` unchanged. */
  lemma {:induction false} ExtractDigits1OfDigits(t: string)
    requires forall k :: 0 <= k < |t| ==> IsDigit(t[k])
    ensures ExtractDigits1(t) == t
  {
    if t != [] {
      ExtractDigits1OfDigits(t[..|t| - 1]);
      assert t[..|t| - 1] + [t[|t| - 1]] == t;
    }
  }

  /** `extract_digits1` is idempotent. */
  lemma ExtractDigits1Idempotent(s: string)
    ensures ExtractDigits1(ExtractDigits1(s)) == ExtractDigits1(s)
  {
    ExtractDigits1OfDigits(ExtractDigits1(s));
  }

  /** Nothing is extracted exactly when `s` has no digit. */
  lemma {:induction false} ExtractDigits1Empty(s: string)
    ensures ExtractDigits1(s) == [] <==> forall k :: 0 <= k < |s| ==> !IsDigit(s[k])
  {
    if s != [] {
      ExtractDigits1Empty(s[..|s| - 1]);
      if ExtractDigits1(s) == [] {
        assert forall k :: 0 <= k < |s| - 1 ==> s[k] == s[..|s| - 1][k];
      }
    }
  }

  /** The first extracted digit is the first digit of `s`. */
  lemma {:induction false} ExtractDigits1First(s: string)
    requires ExtractDigits1(s) != []
    ensures exists i ::
      && 0 <= i < |s|
      && s[i] == ExtractDigits1(s)[0]
      && (forall k :: 0 <= k < i ==> !IsDigit(s[k]))
  {
    var init := s[..|s| - 1];
    var d := ExtractDigits1(init);
    if d != [] {
      ExtractDigits1First(init);
      var i :| 0 <= i < |init| && init[i] == d[0] && forall k :: 0 <= k < i ==> !IsDigit(init[k]);
      assert s[i] == ExtractDigits1(s)[0];
      assert forall k :: 0 <= k < i ==> s[k] == init[k];
    } else {
      ExtractDigits1Empty(init);
      assert forall k :: 0 <= k < |s| - 1 ==> s[k] == init[k];
      assert s[|s| - 1] == ExtractDigits1(s)[0];
    }
  }

  /** The last extracted digit is the last digit of `s`. */
  lemma {:induction false} ExtractDigits1Last(s: string)
    requires ExtractDigits1(s) != []
    ensures exists j ::
      && 0 <= j < |s|
      && s[j] == ExtractDigits1(s)[|ExtractDigits1(s)| - 1]
      && (forall k :: j < k < |s| ==> !IsDigit(s[k]))
  {
    var init, last := s[..|s| - 1], s[|s| - 1];
    var d' := ExtractDigits1(s);
    if IsDigit(last) {
      assert s[|s| - 1] == d'[|d'| - 1];
    } else {
      var d := ExtractDigits1(init);
      assert d' == d + [];
      ExtractDigits1Last(init);
      var j :| 0 <= j < |init| && init[j] == d[|d| - 1] && forall k :: j < k < |init| ==> !IsDigit(init[k]);
      assert s[j] == d'[|d'| - 1];
      assert forall k :: j < k < |s| ==> !IsDigit(s[k]) by {
        assert forall k :: j < k < |init| ==> s[k] == init[k];
      }
    }
  }

  /* ---------- extract_digits2 ---------- */

  /** `digit_mapping`: the written-out digits, in the order they are tried. */
  const DigitWords: seq<(string, char)> := [
    ("one", '1'), ("two", '2'), ("three", '3'), ("four", '4'), ("five", '5'),
    ("six", '6'), ("seven", '7'), ("eight", '8'), ("nine", '9')
  ]

  /** `s.startswith(word, i)`, compared character by character. */
  predicate StartsAt(s: string, word: string, i: nat)
    decreases |word|
  {
    i + |word| <= |s| && (word == [] || (s[i] == word[0] && StartsAt(s, word[1..], i + 1)))
  }

  /** `StartsAt` is the slice comparison `s[i:i + len(word)] == word`. */
  lemma {:induction false} StartsAtSlice(s: string, word: string, i: nat)
    ensures StartsAt(s, word, i) <==> i + |word| <= |s| && s[i..i + |word|] == word
    decreases |word|
  {
    if word != [] {
      var tail, j := word[1..], i + 1;
      StartsAtSlice(s, tail, j);
      if i + |word| <= |s| {
        var slice, rest := s[i..i + |word|], s[j..j + |tail|];
        assert slice == [s[i]] + rest;
        assert word == [word[0]] + tail;
        assert slice == word <==> s[i] == word[0] && rest == tail;
      }
    }
  }

  /** The digit of the first word of `DigitWords[k..]` that starts at index `i`
      of `s`: the `for` loop of `written_out_digit_at_index` from entry `k` on. */
  function FirstWordFrom(s: string, i: nat, k: nat): Option<char>
    requires k <= |DigitWords|
    decreases |DigitWords| - k
  {
    if k == |DigitWords| then None
    else if StartsAt(s, DigitWords[k].0, i) then Some(DigitWords[k].1)
    else FirstWordFrom(s, i, k + 1)
  }

  /** The search finds a word exactly when one of the remaining words starts at
      `i`, and then returns the digit of such a word. */
  lemma {:induction false} FirstWordFromFinds(s: string, i: nat, k: nat)
    requires k <= |DigitWords|
    decreases |DigitWords| - k
    ensures FirstWordFrom(s, i, k).Some? <==>
      exists j :: k <= j < |DigitWords| && StartsAt(s, DigitWords[j].0, i)
    ensures FirstWordFrom(s, i, k).Some? ==>
      exists j :: k <= j < |DigitWords| && StartsAt(s, DigitWords[j].0, i)
        && FirstWordFrom(s, i, k).value == DigitWords[j].1
  {
    if k < |DigitWords| && !StartsAt(s, DigitWords[k].0, i) {
      FirstWordFromFinds(s, i, k + 1);
    }
  }

  /** No two number words start at the same index: their first two letters
      already differ. */
  lemma WordsHaveDistinctStarts(s: string, i: nat, j1: nat, j2: nat)
    requires j1 < |DigitWords| && j2 < |DigitWords|
    requires StartsAt(s, DigitWords[j1].0, i) && StartsAt(s, DigitWords[j2].0, i)
    ensures j1 == j2
  {
    var w1, w2 := DigitWords[j1].0, DigitWords[j2].0;
    assert |w1| >= 3 && |w2| >= 3;
    assert w1[0] == s[i] == w2[0];
    assert StartsAt(s, w1[1..], i + 1) && StartsAt(s, w2[1..], i + 1);
    assert w1[1] == s[i + 1] == w2[1];
  }

  /** `written_out_digit_at_index`: the digit of the first table entry whose word
      starts at index `i`, if any. */
  function WrittenOutDigitAt(s: string, i: nat): (r: Option<char>)
    ensures r.Some? ==> IsDigit(r.value)
    ensures r.Some? ==> exists j :: 0 <= j < |DigitWords| && StartsAt(s, DigitWords[j].0, i) && r.value == DigitWords[j].1
  {
    FirstWordFromFinds(s, i, 0);
    FirstWordFrom(s, i, 0)
  }

  /** A digit is found exactly when some number word starts at `i`, and it is
      that word's digit; as no two words share a start, the order of the table
      does not matter. */
  lemma WrittenOutDigitAtFinds(s: string, i: nat)
    ensures WrittenOutDigitAt(s, i).Some? <==>
      exists j :: 0 <= j < |DigitWords| && StartsAt(s, DigitWords[j].0, i)
    ensures forall j :: 0 <= j < |DigitWords| && StartsAt(s, DigitWords[j].0, i) ==>
      WrittenOutDigitAt(s, i) == Some(DigitWords[j].1)
  {
    FirstWordFromFinds(s, i, 0);
    var r := WrittenOutDigitAt(s, i);
    forall j | 0 <= j < |DigitWords| && StartsAt(s, DigitWords[j].0, i)
      ensures r == Some(DigitWords[j].1)
    {
      var j' :| 0 <= j' < |DigitWords| && StartsAt(s, DigitWords[j'].0, i) && r.value == DigitWords[j'].1;
      WordsHaveDistinctStarts(s, i, j, j');
    }
  }

  /** `digit_at_index`: the character at `i` if it is a digit, otherwise what
      `written_out_digit_at_index` finds there. */
  function DigitAt(s: string, i: nat): (r: Option<char>)
    requires i < |s|
    ensures r.Some? ==> IsDigit(r.value)
  {
    if IsDigit(s[i]) then Some(s[i]) else WrittenOutDigitAt(s, i)
  }

  /** A literal digit at `i` takes precedence; otherwise the result is the digit
      of the number word starting at `i`, or nothing when no word starts there. */
  lemma DigitAtPrecedence(s: string, i: nat)
    requires i < |s|
    ensures IsDigit(s[i]) ==> DigitAt(s, i) == Some(s[i])
    ensures !IsDigit(s[i]) ==>
      (DigitAt(s, i).Some? <==> exists j :: 0 <= j < |DigitWords| && StartsAt(s, DigitWords[j].0, i))
    ensures !IsDigit(s[i]) ==> forall j :: 0 <= j < |DigitWords| && StartsAt(s, DigitWords[j].0, i) ==>
      DigitAt(s, i) == Some(DigitWords[j].1)
  {
    WrittenOutDigitAtFinds(s, i);
  }

  /** What index `i` contributes to the extracted digits: one digit or none. */
  function EmittedAt(s: string, i: nat): (r: string)
    requires i < |s|
    ensures |r| <= 1
    ensures forall k :: 0 <= k < |r| ==> IsDigit(r[k])
    ensures IsDigit(s[i]) ==> r == [s[i]]
  {
    match DigitAt(s, i)
    case Some(d) => [d]
    case None => []
  }

  /** The digits found at the indices `0 .. n - 1` of `s`, in index order. */
  function DigitsBefore(s: string, n: nat): (r: string)
    requires n <= |s|
    ensures |r| <= n
    ensures forall k :: 0 <= k < |r| ==> IsDigit(r[k])
  {
    if n == 0 then [] else DigitsBefore(s, n - 1) + EmittedAt(s, n - 1)
  }

  /** `extract_digits2`: the digit found at each index of `s`, in index order.
      At most one digit comes from each index. */
  function ExtractDigits2(s: string): (r: string)
    ensures |r| <= |s|
    ensures forall k :: 0 <= k < |r| ==> IsDigit(r[k])
  {
    DigitsBefore(s, |s|)
  }

  /** Extending a prefix of `s` by one character extends its literal digits by
      that character when it is a digit. */
  lemma ExtractDigits1Prefix(s: string, m: nat)
    requires m < |s|
    ensures ExtractDigits1(s[..m + 1]) == ExtractDigits1(s[..m]) + (if IsDigit(s[m]) then [s[m]] else [])
  {
    var t := s[..m + 1];
    assert t[..m] == s[..m] && t[m] == s[m];
  }

  lemma {:induction false} LiteralDigitsAmongDigitsBefore(s: string, n: nat)
    requires n <= |s|
    ensures IsSubsequence(ExtractDigits1(s[..n]), DigitsBefore(s, n))
  {
    if n > 0 {
      var m := n - 1;
      LiteralDigitsAmongDigitsBefore(s, m);
      ExtractDigits1Prefix(s, m);
      var a, b, e := ExtractDigits1(s[..m]), DigitsBefore(s, m), EmittedAt(s, m);
      if IsDigit(s[m]) {
        SubsequenceAppendBoth(a, b, s[m]);
      } else {
        SubsequenceAppendShort(a, b, e);
      }
    }
  }

  /** The literal digits of a line appear, in order, among the digits found
      when number words count too. */
  lemma ExtractDigits1SubsequenceOf2(s: string)
    ensures IsSubsequence(ExtractDigits1(s), ExtractDigits2(s))
  {
    LiteralDigitsAmongDigitsBefore(s, |s|);
    assert s[..|s|] == s;
  }

  /** The first two letters of some number word. */
  predicate WordOpening(a: char, b: char)
  {
    || (a == 'o' && b == 'n')
    || (a == 't' && (b == 'w' || b == 'h'))
    || (a == 'f' && (b == 'o' || b == 'i'))
    || (a == 's' && (b == 'i' || b == 'e'))
    || (a == 'e' && b == 'i')
    || (a == 'n' && b == 'i')
  }

  /** A number word starting at `i` opens with two of its letters there, and
      needs at least three characters. */
  lemma WordOpens(s: string, i: nat, j: nat)
    requires j < |DigitWords|
    ensures StartsAt(s, DigitWords[j].0, i) ==> i + 2 < |s| && WordOpening(s[i], s[i + 1])
  {
    var w := DigitWords[j].0;
    assert |w| >= 3 && WordOpening(w[0], w[1]);
    if StartsAt(s, w, i) {
      assert StartsAt(s, w[1..], i + 1);
    }
  }

  /** Nothing is found at an index that holds neither a digit nor the opening
      of a number word. */
  lemma NothingAt(s: string, i: nat)
    requires i < |s| && !IsDigit(s[i])
    requires i + 2 < |s| ==> !WordOpening(s[i], s[i + 1])
    ensures EmittedAt(s, i) == []
  {
    forall j | 0 <= j < |DigitWords|
      ensures StartsAt(s, DigitWords[j].0, i) ==> i + 2 < |s| && WordOpening(s[i], s[i + 1])
    {
      WordOpens(s, i, j);
    }
    WrittenOutDigitAtFinds(s, i);
  }

  /** A number word at `i` gives its digit there. */
  lemma WordAt(s: string, i: nat, j: nat)
    requires j < |DigitWords|
    requires i + |DigitWords[j].0| <= |s| && s[i..i + |DigitWords[j].0|] == DigitWords[j].0
    ensures i < |s| && EmittedAt(s, i) == [DigitWords[j].1]
  {
    var w := DigitWords[j].0;
    StartsAtSlice(s, w, i);
    assert s[i] == w[0] && !IsDigit(w[0]);
    WrittenOutDigitAtFinds(s, i);
  }

  /* Worked examples. Each is stated for a parameter equal to the line: Dafny
     unfolds a recursive function applied to a literal without bound, so the
     digits are followed one index at a time on a variable instead. */

  /** An index that holds neither a digit nor the opening of a number word adds
      nothing to the digits found so far. */
  lemma StepOverNothing(s: string, n: nat, found: string)
    requires n < |s| && DigitsBefore(s, n) == found
    requires !IsDigit(s[n]) && (n + 2 < |s| ==> !WordOpening(s[n], s[n + 1]))
    ensures DigitsBefore(s, n + 1) == found
  {
    NothingAt(s, n);
    assert found + [] == found;
  }

  /** An index where number word `j` starts adds that word's digit. */
  lemma StepOverWord(s: string, n: nat, found: string, j: nat)
    requires n < |s| && DigitsBefore(s, n) == found
    requires j < |DigitWords|
    requires n + |DigitWords[j].0| <= |s| && s[n..n + |DigitWords[j].0|] == DigitWords[j].0
    ensures DigitsBefore(s, n + 1) == found + [DigitWords[j].1]
  {
    WordAt(s, n, j);
  }

  lemma TwoOneNineStart(s: string)
    requires s == "two1nine"
    ensures DigitsBefore(s, 4) == "21"
  {
    assert s[0..3] == "two";
    StepOverWord(s, 0, "", 1);
    StepOverNothing(s, 1, "2");
    StepOverNothing(s, 2, "2");
  }

  /** "two1nine" gives the digits 2, 1, 9. */
  lemma TwoOneNine(s: string)
    requires s == "two1nine"
    ensures ExtractDigits2(s) == "219"
  {
    TwoOneNineStart(s);
    assert s[4..8] == "nine";
    StepOverWord(s, 4, "21", 8);
    StepOverNothing(s, 5, "219");
    StepOverNothing(s, 6, "219");
    StepOverNothing(s, 7, "219");
  }

  /** Where the number words of "eightwothree" stand. */
  lemma EightTwoThreeWords(s: string)
    requires s == "eightwothree"
    ensures s[0..5] == "eight" && s[4..7] == "two" && s[7..12] == "three"
  {
  }

  lemma EightTwoThreeStart(s: string)
    requires s == "eightwothree"
    ensures DigitsBefore(s, 4) == "8"
  {
    EightTwoThreeWords(s);
    StepOverWord(s, 0, "", 7);
    StepOverNothing(s, 1, "8");
    StepOverNothing(s, 2, "8");
    StepOverNothing(s, 3, "8");
  }

  lemma EightTwoThreeMiddle(s: string)
    requires s == "eightwothree"
    ensures DigitsBefore(s, 8) == "823"
  {
    EightTwoThreeStart(s);
    EightTwoThreeWords(s);
    StepOverWord(s, 4, "8", 1);
    StepOverNothing(s, 5, "82");
    StepOverNothing(s, 6, "82");
    StepOverWord(s, 7, "82", 2);
  }

  /** "eightwothree" gives 8, 2, 3: the "t" that ends "eight" also starts "two". */
  lemma EightTwoThree(s: string)
    requires s == "eightwothree"
    ensures ExtractDigits2(s) == "823"
  {
    EightTwoThreeMiddle(s);
    StepOverNothing(s, 8, "823");
    StepOverNothing(s, 9, "823");
    StepOverNothing(s, 10, "823");
    StepOverNothing(s, 11, "823");
  }

  lemma OneEightPrefix(s: string)
    requires s == "oneight"
    ensures DigitsBefore(s, 4) == "18"
  {
    assert s[0..3] == "one" && s[2..7] == "eight";
    StepOverWord(s, 0, "", 0);
    StepOverNothing(s, 1, "1");
    StepOverWord(s, 2, "1", 7);
    StepOverNothing(s, 3, "18");
  }

  /** "oneight" gives 1, 8: overlapping words both count. */
  lemma OneEight(s: string)
    requires s == "oneight"
    ensures ExtractDigits2(s) == "18"
  {
    OneEightPrefix(s);
    StepOverNothing(s, 4, "18");
    StepOverNothing(s, 5, "18");
    StepOverNothing(s, 6, "18");
  }

  /* ---------- sum_file: parse_line and sum_file_ ---------- */

  /** Which extractor `sum_file` was built with. */
  datatype Policy = DigitsOnly | DigitsAndWords

  function ExtractDigits(p: Policy, s: string): (r: string)
    ensures forall k :: 0 <= k < |r| ==> IsDigit(r[k])
  {
    match p
    case DigitsOnly => ExtractDigits1(s)
    case DigitsAndWords => ExtractDigits2(s)
  }

  /** The `ValueError` raised for a line without digits. */
  datatype LineError = NoDigit

  /** `parse_line`: `int(digits[0] + digits[-1])`, or an error without digits. */
  function ParseLine(p: Policy, line: string): (r: Result<nat, LineError>)
    ensures r.Failure? <==> ExtractDigits(p, line) == []
    ensures r.Success? ==> r.value <= 99
    ensures r.Success? ==>
      var d := ExtractDigits(p, line);
      r.value == 10 * Text.DigitValue(d[0]) + Text.DigitValue(d[|d| - 1])
    ensures r.Success? && |ExtractDigits(p, line)| == 1 ==>
      r.value == 11 * Text.DigitValue(ExtractDigits(p, line)[0])
  {
    var digits := ExtractDigits(p, line);
    if digits == [] then Failure(NoDigit)
    else
      var first, last := digits[0], digits[|digits| - 1];
      Text.TwoDigitValue(first, last);
      Success(Text.ParseNat([first, last]).value)
  }

  /** With literal digits only, a line fails exactly when it holds no digit. */
  lemma DigitsOnlyLineFails(line: string)
    ensures ParseLine(DigitsOnly, line).Failure? <==> forall k :: 0 <= k < |line| ==> !IsDigit(line[k])
  {
    ExtractDigits1Empty(line);
  }

  /** With literal digits only, a line's value is made of its first and its last
      digit character. */
  lemma DigitsOnlyLineValue(line: string)
    requires ParseLine(DigitsOnly, line).Success?
    ensures exists i, j ::
      && 0 <= i <= j < |line|
      && IsDigit(line[i]) && IsDigit(line[j])
      && (forall k :: 0 <= k < i ==> !IsDigit(line[k]))
      && (forall k :: j < k < |line| ==> !IsDigit(line[k]))
      && ParseLine(DigitsOnly, line).value == 10 * Text.DigitValue(line[i]) + Text.DigitValue(line[j])
  {
    var d := ExtractDigits1(line);
    var v := ParseLine(DigitsOnly, line).value;
    assert v == 10 * Text.DigitValue(d[0]) + Text.DigitValue(d[|d| - 1]);
    ExtractDigits1First(line);
    ExtractDigits1Last(line);
    var i :| 0 <= i < |line| && line[i] == d[0] && forall k :: 0 <= k < i ==> !IsDigit(line[k]);
    var j :| 0 <= j < |line| && line[j] == d[|d| - 1] && forall k :: j < k < |line| ==> !IsDigit(line[k]);
    assert IsDigit(line[i]) && IsDigit(line[j]);
    assert i <= j;
    assert v == 10 * Text.DigitValue(line[i]) + Text.DigitValue(line[j]);
  }

  /** Lines with number words: "two1nine" is worth 29, "eightwothree" 83. */
  lemma WordLineValues(s: string, t: string)
    requires s == "two1nine" && t == "eightwothree"
    ensures ParseLine(DigitsAndWords, s) == Success(29)
    ensures ParseLine(DigitsAndWords, t) == Success(83)
  {
    TwoOneNine(s);
    EightTwoThree(t);
  }

  /** `map(parse_line, f)`: the value of each line, in order. */
  function LineValues(p: Policy, lines: seq<string>): (values: seq<Result<nat, LineError>>)
    ensures |values| == |lines|
  {
    seq(|lines|, k requires 0 <= k < |lines| => ParseLine(p, lines[k]))
  }

  /** `sum_file_`: the sum of the line values; the first line without a digit
      aborts the whole sum, each line adds at most 99, and a one-line document
      is worth that line's value. */
  function SumFile(p: Policy, lines: seq<string>): (r: Result<nat, LineError>)
    ensures r.Success? ==> r.value <= 99 * |lines|
    ensures r.Success? ==> forall k :: 0 <= k < |lines| ==>
      ParseLine(p, lines[k]).Success? && ParseLine(p, lines[k]).value <= r.value
    ensures |lines| == 1 ==> r == ParseLine(p, lines[0])
  {
    var values := LineValues(p, lines);
    assert forall k :: 0 <= k < |lines| ==> values[k] == ParseLine(p, lines[k]);
    SumBounded(values, 99);
    Sum(values)
  }

  /** The sum succeeds exactly when every line holds a digit. */
  lemma SumFileSucceeds(p: Policy, lines: seq<string>)
    ensures SumFile(p, lines).Success? <==> forall k :: 0 <= k < |lines| ==> ExtractDigits(p, lines[k]) != []
  {
    SumSucceeds(LineValues(p, lines));
  }

  /** The sum over a concatenation of files fails exactly when the sum over one
      of them does, and otherwise is the sum of the two sums. */
  lemma SumFileAppend(p: Policy, a: seq<string>, b: seq<string>)
    ensures SumFile(p, a + b).Success? <==> SumFile(p, a).Success? && SumFile(p, b).Success?
    ensures SumFile(p, a + b).Success? ==>
      SumFile(p, a + b).value == SumFile(p, a).value + SumFile(p, b).value
  {
    var va, vb, vab := LineValues(p, a), LineValues(p, b), LineValues(p, a + b);
    assert vab == va + vb by {
      forall k | 0 <= k < |vab| ensures vab[k] == (va + vb)[k] {
        if k < |a| {
          assert (a + b)[k] == a[k];
        } else {
          assert (a + b)[k] == b[k - |a|];
        }
      }
    }
    SumAppend(va, vb);
  }
}

/** The pieces of Python's `str` and `int` that the game-record parser relies on:
    `str.split` with a one-character separator, `str.strip` and `int` on a
    decimal numeral. */
module Text {
  import opened Wrappers

  /* ---------- str.split(sep) ---------- */

  /** Number of occurrences of `c` in `s`. */
  function Occurrences(s: string, c: char): nat
  {
    if s == [] then 0 else (if s[0] == c then 1 else 0) + Occurrences(s[1..], c)
  }

  /** `s.split(sep)`: the maximal separator-free pieces of `s`, in order.
      Like Python, it never returns an empty list: `"".split(",") == [""]`. */
  function Split(s: string, sep: char): (pieces: seq<string>)
    ensures |pieces| == Occurrences(s, sep) + 1
    ensures |pieces| == 1 <==> sep !in s
    ensures forall k :: 0 <= k < |pieces| ==> sep !in pieces[k]
  {
    if s == [] then [[]]
    else
      var rest := Split(s[1..], sep);
      if s[0] == sep then [[]] + rest
      else [[s[0]] + rest[0]] + rest[1..]
  }

  /** `sep.join(pieces)` for a one-character separator. */
  function Join(pieces: seq<string>, sep: char): string
    requires |pieces| >= 1
  {
    if |pieces| == 1 then pieces[0] else pieces[0] + [sep] + Join(pieces[1..], sep)
  }

  /** Joining the pieces again gives back the split string. */
  lemma {:induction false} JoinSplit(s: string, sep: char)
    ensures Join(Split(s, sep), sep) == s
  {
    if s != [] {
      JoinSplit(s[1..], sep);
      var rest := Split(s[1..], sep);
      if s[0] != sep && |rest| > 1 {
        assert Join(rest, sep) == rest[0] + [sep] + Join(rest[1..], sep);
      }
    }
  }

  /** Splitting a string whose first part `w` holds no separator: `w` is glued to
      the first piece of the rest. */
  lemma {:induction false} SplitSeparatorFreePrefix(w: string, t: string, sep: char)
    requires sep !in w
    ensures Split(w + t, sep) == [w + Split(t, sep)[0]] + Split(t, sep)[1..]
  {
    var rest := Split(t, sep);
    if w == [] {
      assert w + t == t && w + rest[0] == rest[0];
      assert [rest[0]] + rest[1..] == rest;
    } else {
      SplitSeparatorFreePrefix(w[1..], t, sep);
      assert (w + t)[1..] == w[1..] + t;
      assert [w[0]] + (w[1..] + Split(t, sep)[0]) == w + Split(t, sep)[0];
    }
  }

  /** Splitting pieces joined by the separator gives back the pieces, when no
      piece holds the separator. */
  lemma {:induction false} SplitJoin(pieces: seq<string>, sep: char)
    requires |pieces| >= 1
    requires forall k :: 0 <= k < |pieces| ==> sep !in pieces[k]
    ensures Split(Join(pieces, sep), sep) == pieces
  {
    if |pieces| == 1 {
      SplitSeparatorFreePrefix(pieces[0], [], sep);
      assert pieces[0] + [] == pieces[0];
      assert Split([], sep) == [[]];
      assert Split(pieces[0], sep) == [pieces[0]];
    } else {
      var tail := Join(pieces[1..], sep);
      SplitJoin(pieces[1..], sep);
      SplitSeparatorFreePrefix(pieces[0], [sep] + tail, sep);
      assert pieces[0] + [sep] + tail == pieces[0] + ([sep] + tail);
      assert ([sep] + tail)[1..] == tail;
      assert Split([sep] + tail, sep) == [[]] + pieces[1..];
      assert pieces[0] + [] == pieces[0];
      assert Split(Join(pieces, sep), sep) == [pieces[0]] + pieces[1..];
      assert pieces == [pieces[0]] + pieces[1..];
    }
  }

  /** Joining one more piece appends the separator and the piece. */
  lemma {:induction false} JoinAppend(pieces: seq<string>, piece: string, sep: char)
    requires |pieces| >= 1
    ensures Join(pieces + [piece], sep) == Join(pieces, sep) + [sep] + piece
  {
    if |pieces| > 1 {
      JoinAppend(pieces[1..], piece, sep);
      assert (pieces + [piece])[1..] == pieces[1..] + [piece];
    } else {
      assert (pieces + [piece])[1..] == [piece];
    }
  }

  /** Joining pieces that lack a character other than the separator gives a
      string that lacks it too. */
  lemma {:induction false} JoinWithout(pieces: seq<string>, sep: char, c: char)
    requires |pieces| >= 1 && c != sep
    requires forall k :: 0 <= k < |pieces| ==> c !in pieces[k]
    ensures c !in Join(pieces, sep)
  {
    if |pieces| > 1 {
      JoinWithout(pieces[1..], sep, c);
      assert Join(pieces, sep) == pieces[0] + [sep] + Join(pieces[1..], sep);
    }
  }

  /* ---------- str.strip() ---------- */

  /** The characters below code point 256 that Python's `str.isspace` accepts. */
  predicate IsSpace(c: char)
  {
    c == ' ' || c == '\t' || c == '\n' || c == '\r' || c == '\U{0B}' || c == '\U{0C}'
    || c == '\U{1C}' || c == '\U{1D}' || c == '\U{1E}' || c == '\U{1F}'
    || c == '\U{85}' || c == '\U{A0}'
  }

  /** `s.lstrip()`: drops the leading white space, and nothing else. */
  function TrimStart(s: string): (r: string)
    ensures |r| <= |s| && r == s[|s| - |r|..]
    ensures forall k :: 0 <= k < |s| - |r| ==> IsSpace(s[k])
    ensures r == [] || !IsSpace(r[0])
  {
    if s != [] && IsSpace(s[0]) then TrimStart(s[1..]) else s
  }

  /** `s.rstrip()`: drops the trailing white space, and nothing else. */
  function TrimEnd(s: string): (r: string)
    ensures |r| <= |s| && r == s[..|r|]
    ensures forall k :: |r| <= k < |s| ==> IsSpace(s[k])
    ensures r == [] || !IsSpace(r[|r| - 1])
  {
    if s != [] && IsSpace(s[|s| - 1]) then TrimEnd(s[..|s| - 1]) else s
  }

  /** `s` is `r` with only white space around it. */
  predicate SurroundedBySpace(s: string, r: string, start: nat)
  {
    && start + |r| <= |s|
    && s[start..start + |r|] == r
    && (forall k :: 0 <= k < start ==> IsSpace(s[k]))
    && (forall k :: start + |r| <= k < |s| ==> IsSpace(s[k]))
  }

  /** `s.strip()`: `s` without the white space at either end. */
  function Strip(s: string): (r: string)
    ensures exists start :: SurroundedBySpace(s, r, start)
    ensures r == [] || (!IsSpace(r[0]) && !IsSpace(r[|r| - 1]))
  {
    var front := TrimStart(s);
    var r := TrimEnd(front);
    assert SurroundedBySpace(s, r, |s| - |front|);
    r
  }

  /** `lstrip` drops exactly the white space put before a string that does not
      itself start with white space. */
  lemma {:induction false} TrimStartPadded(lead: string, t: string)
    requires forall k :: 0 <= k < |lead| ==> IsSpace(lead[k])
    requires t != [] && !IsSpace(t[0])
    ensures TrimStart(lead + t) == t
  {
    if lead != [] {
      assert (lead + t)[1..] == lead[1..] + t;
      TrimStartPadded(lead[1..], t);
    } else {
      assert lead + t == t;
    }
  }

  /** `strip` gives back a string that neither starts nor ends with white space,
      whatever white space is put before it. */
  lemma StripPadded(lead: string, t: string)
    requires forall k :: 0 <= k < |lead| ==> IsSpace(lead[k])
    requires t != [] && !IsSpace(t[0]) && !IsSpace(t[|t| - 1])
    ensures Strip(lead + t) == t
  {
    TrimStartPadded(lead, t);
  }

  /* ---------- int(s) on decimal numerals ---------- */

  predicate IsDecimalDigit(c: char)
  {
    '0' <= c <= '9'
  }

  predicate IsNumeral(s: string)
  {
    s != [] && forall k :: 0 <= k < |s| ==> IsDecimalDigit(s[k])
  }

  function DigitValue(c: char): (d: nat)
    requires IsDecimalDigit(c)
    ensures d <= 9
  {
    c as int - '0' as int
  }

  function DigitChar(d: nat): (c: char)
    requires d <= 9
    ensures IsDecimalDigit(c) && DigitValue(c) == d
  {
    ('0' as int + d) as char
  }

  /** The value of a string of decimal digits, most significant first. */
  function DecimalValue(s: string): nat
    requires forall k :: 0 <= k < |s| ==> IsDecimalDigit(s[k])
  {
    if s == [] then 0 else 10 * DecimalValue(s[..|s| - 1]) + DigitValue(s[|s| - 1])
  }

  /** `int(s)` for the numerals it accepts; anything else raises in Python. */
  function ParseNat(s: string): (r: Option<nat>)
    ensures r.Some? <==> IsNumeral(s)
  {
    if IsNumeral(s) then Some(DecimalValue(s)) else None
  }

  /** `str(n)`: the shortest decimal numeral for `n`. */
  function NatToString(n: nat): (s: string)
    ensures IsNumeral(s)
    ensures s[0] != '0' || n == 0
  {
    if n < 10 then [DigitChar(n)] else NatToString(n / 10) + [DigitChar(n % 10)]
  }

  /** `int(str(n)) == n`. */
  lemma {:induction false} ParseNatToString(n: nat)
    ensures ParseNat(NatToString(n)) == Some(n)
  {
    var s := NatToString(n);
    if n < 10 {
      assert s[..|s| - 1] == [];
      assert DecimalValue(s) == n;
    } else {
      ParseNatToString(n / 10);
      assert s[..|s| - 1] == NatToString(n / 10);
      assert DecimalValue(s) == 10 * (n / 10) + n % 10;
    }
  }

  /** A two-digit numeral is worth ten times its first digit plus its second. */
  lemma TwoDigitValue(a: char, b: char)
    requires IsDecimalDigit(a) && IsDecimalDigit(b)
    ensures ParseNat([a, b]) == Some(10 * DigitValue(a) + DigitValue(b))
  {
    assert [a, b][..1] == [a];
    assert [a][..0] == [];
    assert DecimalValue([a]) == DigitValue(a);
    assert DecimalValue([a, b]) == 10 * DigitValue(a) + DigitValue(b);
  }
}

/** The handful of string primitives the scanner relies on: JavaScript's
    `startsWith`, `includes` and `Array.join`, and Python's `str.split`,
    `str.strip` and `str.upper`. Strings are sequences of characters. */
module Strings {

  // ---------------------------------------------------------------------------
  // Prefixes and substrings
  // ---------------------------------------------------------------------------

  /** JavaScript `s.startsWith(prefix)`. */
  predicate StartsWith(s: string, prefix: string)
  {
    |prefix| <= |s| && s[..|prefix|] == prefix
  }

  /** `sub` occurs in `s` starting at index `i`. */
  ghost predicate OccursAt(s: string, sub: string, i: int)
  {
    0 <= i && i + |sub| <= |s| && s[i..i + |sub|] == sub
  }

  /** JavaScript `s.includes(sub)`, as a left-to-right search. */
  predicate Includes(s: string, sub: string)
    decreases |s|
  {
    StartsWith(s, sub) || (|s| > 0 && Includes(s[1..], sub))
  }

  /** The search finds `sub` exactly when it occurs at some index. */
  lemma {:induction false} IncludesIffOccurs(s: string, sub: string)
    ensures Includes(s, sub) <==> exists i :: OccursAt(s, sub, i)
    decreases |s|
  {
    if StartsWith(s, sub) {
      assert OccursAt(s, sub, 0);
    } else if |s| > 0 {
      IncludesIffOccurs(s[1..], sub);
      if Includes(s[1..], sub) {
        var i :| OccursAt(s[1..], sub, i);
        assert s[1..][i..i + |sub|] == s[i + 1..i + 1 + |sub|];
        assert OccursAt(s, sub, i + 1);
      }
      if exists i :: OccursAt(s, sub, i) {
        var i :| OccursAt(s, sub, i);
        if i > 0 {
          assert s[1..][i - 1..i - 1 + |sub|] == s[i..i + |sub|];
          assert OccursAt(s[1..], sub, i - 1);
        }
      }
    }
  }

  /** A string that starts with `sub` has `sub`'s characters at the same
      places. */
  lemma StartsWithAt(s: string, sub: string, m: nat)
    requires m < |sub|
    ensures StartsWith(s, sub) ==> m < |s| && s[m] == sub[m]
  {
    if StartsWith(s, sub) {
      assert s[..|sub|][m] == s[m];
    }
  }

  /** A string cannot contain `sub` if it lacks one of `sub`'s characters. */
  lemma {:induction false} NotIncludesMissingChar(s: string, sub: string, m: nat)
    requires m < |sub|
    requires forall p :: 0 <= p < |s| ==> s[p] != sub[m]
    ensures !Includes(s, sub)
    decreases |s|
  {
    StartsWithAt(s, sub, m);
    if |s| > 0 {
      NotIncludesMissingChar(s[1..], sub, m);
    }
  }

  /** Nor if two adjacent characters of `sub` are never adjacent in `s`. */
  lemma {:induction false} NotIncludesMissingPair(s: string, sub: string, m: nat)
    requires m + 1 < |sub|
    requires forall p :: 0 <= p < |s| - 1 ==> !(s[p] == sub[m] && s[p + 1] == sub[m + 1])
    ensures !Includes(s, sub)
    decreases |s|
  {
    StartsWithAt(s, sub, m);
    StartsWithAt(s, sub, m + 1);
    if |s| > 0 {
      forall p | 0 <= p < |s[1..]| - 1 ensures !(s[1..][p] == sub[m] && s[1..][p + 1] == sub[m + 1]) {
        assert s[1..][p] == s[p + 1] && s[1..][p + 1] == s[p + 2];
      }
      NotIncludesMissingPair(s[1..], sub, m);
    }
  }

  // ---------------------------------------------------------------------------
  // Splitting and joining on a one-character separator
  // ---------------------------------------------------------------------------

  /** Number of occurrences of `c` in `s`. */
  function Count(s: string, c: char): nat
  {
    if |s| == 0 then 0 else (if s[0] == c then 1 else 0) + Count(s[1..], c)
  }

  /** Python `s.split(sep)` for a one-character separator: the pieces between
      separators, empty ones included, so there is always one piece more than
      there are separators and `"".split(",") == [""]`. */
  function Split(s: string, sep: char): (pieces: seq<string>)
    ensures |pieces| == Count(s, sep) + 1
    ensures forall i :: 0 <= i < |pieces| ==> sep !in pieces[i]
    decreases |s|
  {
    if |s| == 0 then [""]
    else
      var rest := Split(s[1..], sep);
      if s[0] == sep then [""] + rest
      else [[s[0]] + rest[0]] + rest[1..]
  }

  /** JavaScript `pieces.join(sep)`: `[].join(",") == ""`. */
  function Join(pieces: seq<string>, sep: char): string
  {
    if |pieces| == 0 then ""
    else if |pieces| == 1 then pieces[0]
    else pieces[0] + [sep] + Join(pieces[1..], sep)
  }

  /** Joining the pieces of a split gives back the original string. */
  lemma {:induction false} JoinSplit(s: string, sep: char)
    ensures Join(Split(s, sep), sep) == s
    decreases |s|
  {
    if |s| > 0 {
      JoinSplit(s[1..], sep);
      var rest := Split(s[1..], sep);
      if s[0] == sep {
        assert ([""] + rest)[1..] == rest;
      } else {
        var pieces := [[s[0]] + rest[0]] + rest[1..];
        if |rest| > 1 {
          assert pieces[1..] == rest[1..];
          assert Join(rest, sep) == rest[0] + [sep] + Join(rest[1..], sep);
        }
        assert s == [s[0]] + s[1..];
      }
    }
  }

  /** Splitting at a separator splits the pieces: `(a + sep + b).split(sep)`
      is `a.split(sep) + b.split(sep)`. */
  lemma {:induction false} SplitAppend(a: string, sep: char, b: string)
    ensures Split(a + [sep] + b, sep) == Split(a, sep) + Split(b, sep)
    decreases |a|
  {
    var s := a + [sep] + b;
    if |a| == 0 {
      assert s == [sep] + b;
      assert s[1..] == b;
    } else {
      assert s[0] == a[0];
      assert s[1..] == a[1..] + [sep] + b;
      SplitAppend(a[1..], sep, b);
    }
  }

  /** A string without the separator splits into itself. */
  lemma {:induction false} SplitNoSeparator(s: string, sep: char)
    requires sep !in s
    ensures Split(s, sep) == [s]
    decreases |s|
  {
    if |s| > 0 {
      assert sep !in s[1..] by {
        forall k | 0 <= k < |s[1..]| ensures s[1..][k] != sep {
          assert s[1..][k] == s[k + 1];
        }
      }
      SplitNoSeparator(s[1..], sep);
      assert s == [s[0]] + s[1..];
    }
  }

  /** Splitting the join of separator-free pieces gives back the pieces; the
      list must be non-empty, since `"".split(",")` is `[""]`, not `[]`. */
  lemma {:induction false} SplitJoin(pieces: seq<string>, sep: char)
    requires |pieces| > 0
    requires forall i :: 0 <= i < |pieces| ==> sep !in pieces[i]
    ensures Split(Join(pieces, sep), sep) == pieces
    decreases |pieces|
  {
    SplitNoSeparator(pieces[0], sep);
    if |pieces| > 1 {
      SplitJoin(pieces[1..], sep);
      SplitAppend(pieces[0], sep, Join(pieces[1..], sep));
      assert pieces == [pieces[0]] + pieces[1..];
    }
  }

  // ---------------------------------------------------------------------------
  // Whitespace trimming
  // ---------------------------------------------------------------------------

  /** The ASCII characters Python's `str.strip()` removes: space, tab, line
      feed, vertical tab, form feed, carriage return and the four information
      separators U+001C..U+001F. */
  predicate IsSpace(c: char)
  {
    c == ' ' || ('\t' <= c <= '\r') || ('\U{1C}' <= c <= '\U{1F}')
  }

  /** No whitespace at either end. */
  predicate Trimmed(s: string)
  {
    |s| == 0 || (!IsSpace(s[0]) && !IsSpace(s[|s| - 1]))
  }

  /** `s.lstrip()`: the suffix left after dropping leading whitespace. */
  function TrimStart(s: string): (r: string)
    ensures |r| <= |s| && r == s[|s| - |r|..]
    ensures forall k :: 0 <= k < |s| - |r| ==> IsSpace(s[k])
    ensures |r| > 0 ==> !IsSpace(r[0])
    decreases |s|
  {
    if |s| > 0 && IsSpace(s[0]) then TrimStart(s[1..]) else s
  }

  /** `s.rstrip()`: the prefix left after dropping trailing whitespace. */
  function TrimEnd(s: string): (r: string)
    ensures |r| <= |s| && r == s[..|r|]
    ensures forall k :: |r| <= k < |s| ==> IsSpace(s[k])
    ensures |r| > 0 ==> !IsSpace(r[|r| - 1])
    decreases |s|
  {
    if |s| > 0 && IsSpace(s[|s| - 1]) then TrimEnd(s[..|s| - 1]) else s
  }

  /** `s.strip()`: a slice of `s` with no whitespace at either end, obtained by
      removing only whitespace. */
  function Strip(s: string): (r: string)
    ensures Trimmed(r)
    ensures SliceOf(r, s)
    ensures WhitespaceAround(r, s)
    ensures Trimmed(s) ==> r == s
    ensures r == "" <==> Blank(s)
  {
    StripIsEmptyIffBlank(s);
    StripIsSlice(s);
    TrimEnd(TrimStart(s))
  }

  /** Nothing but whitespace. */
  predicate Blank(s: string)
  {
    forall k :: 0 <= k < |s| ==> IsSpace(s[k])
  }

  /** `r` is a slice of `s` with nothing but whitespace before and after it. */
  ghost predicate WhitespaceAround(r: string, s: string)
  {
    exists i :: OccursAt(s, r, i) && Blank(s[..i]) && Blank(s[i + |r|..])
  }

  /** `r` is a contiguous slice of `s`. */
  ghost predicate SliceOf(r: string, s: string)
  {
    exists i :: OccursAt(s, r, i)
  }

  /** What stripping keeps is a contiguous slice of the input, and what it
      drops on either side is whitespace. */
  lemma StripIsSlice(s: string)
    ensures SliceOf(TrimEnd(TrimStart(s)), s)
    ensures WhitespaceAround(TrimEnd(TrimStart(s)), s)
  {
    var t := TrimStart(s);
    var r := TrimEnd(t);
    LeadingBlank(s);
    TrailingBlank(t);
    SliceBetweenBlanks(s, t, r);
  }

  /** A prefix `r` of a suffix `t` of `s`, with only whitespace dropped on
      both sides, sits in `s` with whitespace around it. */
  lemma SliceBetweenBlanks(s: string, t: string, r: string)
    requires |t| <= |s| && t == s[|s| - |t|..] && Blank(s[..|s| - |t|])
    requires |r| <= |t| && r == t[..|r|] && Blank(t[|r|..])
    ensures SliceOf(r, s)
    ensures WhitespaceAround(r, s)
  {
    var i := |s| - |t|;
    assert s[i..i + |r|] == r;
    assert s[i + |r|..] == t[|r|..];
    assert OccursAt(s, r, i) && Blank(s[..i]) && Blank(s[i + |r|..]);
  }

  /** What `lstrip` drops is whitespace. */
  lemma LeadingBlank(s: string)
    ensures Blank(s[..|s| - |TrimStart(s)|])
  {
    var p := s[..|s| - |TrimStart(s)|];
    assert forall k :: 0 <= k < |p| ==> p[k] == s[k];
  }

  /** What `rstrip` drops is whitespace. */
  lemma TrailingBlank(t: string)
    ensures Blank(t[|TrimEnd(t)|..])
  {
    var q := t[|TrimEnd(t)|..];
    forall k | 0 <= k < |q| ensures IsSpace(q[k]) {
      assert q[k] == t[|TrimEnd(t)| + k];
    }
  }

  /** Stripping leaves nothing exactly when the string is all whitespace. */
  lemma StripIsEmptyIffBlank(s: string)
    ensures TrimEnd(TrimStart(s)) == "" <==> Blank(s)
  {
    var t := TrimStart(s);
    var r := TrimEnd(t);
    if |r| > 0 {
      assert s[|s| - |t|] == r[0];
    }
  }

  // ---------------------------------------------------------------------------
  // Upper-casing
  // ---------------------------------------------------------------------------

  predicate IsLower(c: char)
  {
    'a' <= c <= 'z'
  }

  /** Python `c.upper()` restricted to ASCII letters. */
  function UpperChar(c: char): (u: char)
    ensures !IsLower(u)
    ensures IsSpace(u) <==> IsSpace(c)
    ensures u == ',' <==> c == ','
    ensures !IsLower(c) ==> u == c
  {
    if IsLower(c) then (c as int - 32) as char else c
  }

  /** No lower-case ASCII letter anywhere. */
  predicate NoLower(s: string)
  {
    forall i :: 0 <= i < |s| ==> !IsLower(s[i])
  }

  /** `s.upper()` for ASCII text: same length, every letter upper-cased,
      nothing else touched. */
  function Upper(s: string): (r: string)
    ensures |r| == |s|
    ensures forall i :: 0 <= i < |s| ==> r[i] == UpperChar(s[i])
    ensures NoLower(r)
    ensures NoLower(s) ==> r == s
    decreases |s|
  {
    if |s| == 0 then "" else [UpperChar(s[0])] + Upper(s[1..])
  }

  /** Upper-casing neither adds nor removes surrounding whitespace or commas. */
  lemma UpperKeeps(s: string)
    ensures Trimmed(Upper(s)) <==> Trimmed(s)
    ensures ',' in Upper(s) <==> ',' in s
  {
    var r := Upper(s);
    if ',' in r {
      var k :| 0 <= k < |r| && r[k] == ',';
      assert s[k] == ',';
    }
    if ',' in s {
      var k :| 0 <= k < |s| && s[k] == ',';
      assert r[k] == ',';
    }
  }

  // ---------------------------------------------------------------------------
  // Decimal numerals
  // ---------------------------------------------------------------------------

  predicate IsDigit(c: char)
  {
    '0' <= c <= '9'
  }

  function DigitValue(c: char): (d: nat)
    requires IsDigit(c)
    ensures d < 10
  {
    c as int - '0' as int
  }

  function DigitChar(d: nat): (c: char)
    requires d < 10
    ensures IsDigit(c) && DigitValue(c) == d
  {
    ('0' as int + d) as char
  }

  /** JavaScript's `${n}` for a non-negative integer: its decimal digits,
      without leading zeros. */
  function ShowNat(n: nat): (s: string)
    ensures |s| > 0
    ensures forall i :: 0 <= i < |s| ==> IsDigit(s[i])
    ensures |s| > 1 ==> s[0] != '0'
    decreases n
  {
    if n < 10 then [DigitChar(n)] else ShowNat(n / 10) + [DigitChar(n % 10)]
  }

  /** The value of a string of decimal digits. */
  function ReadNat(s: string): nat
    requires forall i :: 0 <= i < |s| ==> IsDigit(s[i])
    decreases |s|
  {
    if |s| == 0 then 0 else ReadNat(s[..|s| - 1]) * 10 + DigitValue(s[|s| - 1])
  }

  /** The numeral shows its number: reading it back gives `n`. */
  lemma {:induction false} ReadShowNat(n: nat)
    ensures ReadNat(ShowNat(n)) == n
    decreases n
  {
    if n >= 10 {
      ReadShowNat(n / 10);
      var s := ShowNat(n);
      assert s[..|s| - 1] == ShowNat(n / 10);
    }
  }
}

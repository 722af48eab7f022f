/** The JavaScript string operations that the search-result parsing and the
    time formatting rely on: `split` on a one-character separator, `slice(0, n)`
    and `replace(/[^0-9]/g, '')`. */
module Strings {

  predicate IsDigit(c: char) {
    '0' <= c <= '9'
  }

  predicate AllDigits(s: string) {
    forall i :: 0 <= i < |s| ==> IsDigit(s[i])
  }

  predicate NoDigits(s: string) {
    forall i :: 0 <= i < |s| ==> !IsDigit(s[i])
  }

  /** `s.split(sep)`: the pieces between the occurrences of `sep`, in order.
      There is always at least one piece, and no piece contains `sep`. */
  function Split(s: string, sep: char): (parts: seq<string>)
    ensures |parts| >= 1
    ensures forall i :: 0 <= i < |parts| ==> sep !in parts[i]
    ensures |parts| == 1 <==> sep !in s
  {
    if |s| == 0 then [""]
    else
      var rest := Split(s[1..], sep);
      if s[0] == sep then [""] + rest
      else [[s[0]] + rest[0]] + rest[1..]
  }

  /** `parts.join(sep)`, the inverse of `Split`. */
  function Join(parts: seq<string>, sep: char): string
    requires |parts| >= 1
  {
    if |parts| == 1 then parts[0] else parts[0] + [sep] + Join(parts[1..], sep)
  }

  /** Joining the pieces of a split gives back the string. */
  lemma {:induction false} JoinSplit(s: string, sep: char)
    ensures Join(Split(s, sep), sep) == s
  {
    if |s| > 0 {
      var rest := Split(s[1..], sep);
      JoinSplit(s[1..], sep);
      if s[0] == sep {
        assert Split(s, sep) == [""] + rest;
        assert ([""] + rest)[1..] == rest;
        assert [s[0]] + s[1..] == s;
      } else {
        var parts := [[s[0]] + rest[0]] + rest[1..];
        assert Split(s, sep) == parts;
        if |rest| == 1 {
          assert [s[0]] + s[1..] == s;
        } else {
          assert parts[1..] == rest[1..];
          assert Join(rest, sep) == rest[0] + [sep] + Join(rest[1..], sep);
          assert [s[0]] + s[1..] == s;
        }
      }
    }
  }

  /** Splitting `a + b` when `a` holds no separator glues `a` onto the first
      piece of `b`. */
  lemma {:induction false} SplitPrefix(a: string, b: string, sep: char)
    requires sep !in a
    ensures Split(a + b, sep) == [a + Split(b, sep)[0]] + Split(b, sep)[1..]
  {
    if |a| > 0 {
      SplitPrefix(a[1..], b, sep);
      assert (a + b)[1..] == a[1..] + b;
      assert (a + b)[0] == a[0];
      assert [a[0]] + (a[1..] + Split(b, sep)[0]) == a + Split(b, sep)[0];
    } else {
      var parts := Split(b, sep);
      assert a + b == b;
      assert a + parts[0] == parts[0];
      assert [parts[0]] + parts[1..] == parts;
    }
  }

  /** Splitting a join of separator-free pieces gives back the pieces. */
  lemma {:induction false} SplitJoin(parts: seq<string>, sep: char)
    requires |parts| >= 1
    requires forall i :: 0 <= i < |parts| ==> sep !in parts[i]
    ensures Split(Join(parts, sep), sep) == parts
  {
    if |parts| == 1 {
      SplitPrefix(parts[0], "", sep);
      assert parts[0] + "" == parts[0];
    } else {
      var tail := Join(parts[1..], sep);
      SplitJoin(parts[1..], sep);
      assert Split([sep] + tail, sep) == [""] + Split(tail, sep);
      SplitPrefix(parts[0], [sep] + tail, sep);
      assert parts[0] + [sep] + tail == parts[0] + ([sep] + tail);
      assert parts[0] + "" == parts[0];
      assert [parts[0]] + parts[1..] == parts;
    }
  }

  /** The first piece of a split is the prefix before the first separator
      (the whole string when there is none). */
  lemma {:induction false} SplitFirstIsPrefix(s: string, sep: char)
    ensures var r := Split(s, sep)[0];
      && |r| <= |s|
      && r == s[..|r|]
      && sep !in r
      && (|r| < |s| ==> s[|r|] == sep)
      && (sep !in s ==> r == s)
  {
    if |s| > 0 {
      SplitFirstIsPrefix(s[1..], sep);
    }
  }

  /** The last piece of a split is the suffix after the last separator (the
      whole string when there is none). */
  lemma {:induction false} SplitLastIsSuffix(s: string, sep: char)
    ensures var parts := Split(s, sep);
      var r := parts[|parts| - 1];
      && |r| <= |s|
      && r == s[|s| - |r|..]
      && (|r| < |s| ==> s[|s| - |r| - 1] == sep)
  {
    if |s| > 0 {
      var rest := Split(s[1..], sep);
      SplitLastIsSuffix(s[1..], sep);
      var r := rest[|rest| - 1];
      if s[0] != sep && |rest| == 1 {
        assert sep !in s[1..];
        assert r == s[1..];
        assert [s[0]] + s[1..] == s;
      }
    }
  }

  /** `s.slice(0, n)`: the first `n` characters, or all of `s` when shorter. */
  function Take(s: string, n: nat): (r: string)
    ensures |r| == if n < |s| then n else |s|
    ensures r == s[..|r|]
  {
    if n < |s| then s[..n] else s
  }

  /** `s.replace(/[^0-9]/g, '')`: the digits of `s`, in order. */
  function DigitsOnly(s: string): (r: string)
    ensures AllDigits(r)
    ensures |r| <= |s|
  {
    if |s| == 0 then ""
    else (if IsDigit(s[0]) then [s[0]] else "") + DigitsOnly(s[1..])
  }

  /** Removing non-digits distributes over concatenation, so digit order is kept. */
  lemma {:induction false} DigitsOnlyAppend(a: string, b: string)
    ensures DigitsOnly(a + b) == DigitsOnly(a) + DigitsOnly(b)
  {
    if |a| > 0 {
      DigitsOnlyAppend(a[1..], b);
      assert (a + b)[1..] == a[1..] + b;
      assert (a + b)[0] == a[0];
    } else {
      assert a + b == b;
    }
  }

  /** A string of digits is left as it is; one without digits becomes empty. */
  lemma {:induction false} DigitsOnlyKeeps(s: string)
    ensures AllDigits(s) ==> DigitsOnly(s) == s
    ensures NoDigits(s) ==> DigitsOnly(s) == ""
  {
    if |s| > 0 {
      DigitsOnlyKeeps(s[1..]);
      assert [s[0]] + s[1..] == s;
    }
  }

  /** The run of digits at the start of `s`. */
  function LeadingDigits(s: string): (r: string)
    ensures AllDigits(r) && |r| <= |s| && r == s[..|r|]
    ensures |r| < |s| ==> !IsDigit(s[|r|])
  {
    if |s| > 0 && IsDigit(s[0]) then [s[0]] + LeadingDigits(s[1..]) else ""
  }

  /** `s` without its leading run of digits. */
  function DropLeadingDigits(s: string): (r: string)
    ensures s == LeadingDigits(s) + r
  {
    if |s| > 0 && IsDigit(s[0]) then DropLeadingDigits(s[1..]) else s
  }

  /** `s` without its leading run of non-digits. */
  function DropNonDigits(s: string): (r: string)
    ensures |r| <= |s| && r == s[|s| - |r|..]
    ensures |r| > 0 ==> IsDigit(r[0])
    ensures NoDigits(s[..|s| - |r|])
  {
    if |s| > 0 && !IsDigit(s[0]) then DropNonDigits(s[1..]) else s
  }

  /** Dropping the leading digits of `digits + rest`, when `rest` does not
      start with a digit, leaves `rest`. */
  lemma {:induction false} DropLeadingDigitsOf(digits: string, rest: string)
    requires AllDigits(digits)
    requires |rest| > 0 ==> !IsDigit(rest[0])
    ensures DropLeadingDigits(digits + rest) == rest
  {
    if |digits| > 0 {
      DropLeadingDigitsOf(digits[1..], rest);
      assert (digits + rest)[1..] == digits[1..] + rest;
    } else {
      assert digits + rest == rest;
    }
  }

  /** Dropping the leading non-digits of `letters + rest`, when `rest` starts
      with a digit, leaves `rest`. */
  lemma {:induction false} DropNonDigitsOf(letters: string, rest: string)
    requires NoDigits(letters)
    requires |rest| > 0 && IsDigit(rest[0])
    ensures DropNonDigits(letters + rest) == rest
  {
    if |letters| > 0 {
      DropNonDigitsOf(letters[1..], rest);
      assert (letters + rest)[1..] == letters[1..] + rest;
    } else {
      assert letters + rest == rest;
    }
  }

  /** The leading digits of `digits + rest`, when `rest` does not start with
      a digit, are `digits`. */
  lemma {:induction false} LeadingDigitsOf(digits: string, rest: string)
    requires AllDigits(digits)
    requires |rest| > 0 ==> !IsDigit(rest[0])
    ensures LeadingDigits(digits + rest) == digits
  {
    if |digits| > 0 {
      LeadingDigitsOf(digits[1..], rest);
      assert (digits + rest)[1..] == digits[1..] + rest;
      assert [digits[0]] + digits[1..] == digits;
    } else {
      assert digits + rest == rest;
    }
  }
}

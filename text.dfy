/** String primitives of the Go (and Python) standard library that the core relies on:
    white-space trimming, upper-casing, splitting on a separator, substring search,
    literal replacement and zero-padded decimal rendering. */
module Text {
  import opened Wrappers

  /** Go's unicode.IsSpace: the ASCII white space, NEL, NO-BREAK SPACE and the
      Unicode space separators. */
  predicate IsSpace(c: char) {
    c == ' ' || c == '\t' || c == '\n' || c == '\U{000B}' || c == '\U{000C}' || c == '\r'
    || c == '\U{0085}' || c == '\U{00A0}' || c == '\U{1680}'
    || ('\U{2000}' <= c <= '\U{200A}')
    || c == '\U{2028}' || c == '\U{2029}' || c == '\U{202F}' || c == '\U{205F}' || c == '\U{3000}'
  }

  /** Drops leading white space. */
  function TrimLeft(s: string): (r: string)
    ensures |r| <= |s|
  {
    if s != [] && IsSpace(s[0]) then TrimLeft(s[1..]) else s
  }

  /** TrimLeft keeps a suffix that does not start with white space, and drops only
      white space. */
  lemma {:induction false} TrimLeftShape(s: string)
    ensures var r := TrimLeft(s);
      && r == s[|s| - |r|..]
      && (r == [] || !IsSpace(r[0]))
      && forall i :: 0 <= i < |s| - |r| ==> IsSpace(s[i])
  {
    if s != [] && IsSpace(s[0]) {
      TrimLeftShape(s[1..]);
      var r := TrimLeft(s);
      forall i | 0 <= i < |s| - |r| ensures IsSpace(s[i]) {
        if i > 0 { assert s[i] == s[1..][i - 1]; }
      }
    }
  }

  /** Drops trailing white space. */
  function TrimRight(s: string): (r: string)
    ensures |r| <= |s|
  {
    if s != [] && IsSpace(s[|s| - 1]) then TrimRight(s[..|s| - 1]) else s
  }

  /** TrimRight keeps a prefix that does not end with white space, and drops only
      white space. */
  lemma {:induction false} TrimRightShape(s: string)
    ensures var r := TrimRight(s);
      && r == s[..|r|]
      && (r == [] || !IsSpace(r[|r| - 1]))
      && forall i :: |r| <= i < |s| ==> IsSpace(s[i])
  {
    if s != [] && IsSpace(s[|s| - 1]) {
      TrimRightShape(s[..|s| - 1]);
      var r := TrimRight(s);
      forall i | |r| <= i < |s| ensures IsSpace(s[i]) {
        if i < |s| - 1 { assert s[i] == s[..|s| - 1][i]; }
      }
    }
  }

  /** Go's strings.TrimSpace. */
  function TrimSpace(s: string): (r: string)
  {
    TrimRight(TrimLeft(s))
  }

  /** r is the run of s starting at k, with only white space around it. */
  predicate TrimmedAt(s: string, r: string, k: int) {
    && 0 <= k <= |s| - |r| && r == s[k..k + |r|]
    && (forall i :: 0 <= i < k ==> IsSpace(s[i]))
    && (forall i :: k + |r| <= i < |s| ==> IsSpace(s[i]))
  }

  /** TrimSpace yields the run of s that neither starts nor ends with white space
      and is surrounded only by white space. */
  lemma TrimSpaceShape(s: string)
    ensures var r := TrimSpace(s);
      && (r == [] || (!IsSpace(r[0]) && !IsSpace(r[|r| - 1])))
      && exists k :: TrimmedAt(s, r, k)
  {
    var l := TrimLeft(s);
    TrimLeftShape(s);
    var k := |s| - |l|;
    var r := TrimRight(l);
    TrimRightShape(l);
    assert r == s[k..k + |r|] by {
      assert l == s[k..] && r == l[..|r|];
    }
    forall i | k + |r| <= i < |s| ensures IsSpace(s[i]) {
      assert s[i] == l[i - k];
    }
    assert TrimmedAt(s, r, k);
  }

  /** Trimming is idempotent: trimmed text is its own trimmed form. */
  lemma TrimSpaceIdempotent(s: string)
    ensures TrimSpace(TrimSpace(s)) == TrimSpace(s)
  {
    TrimSpaceShape(s);
  }

  /** Text that neither starts nor ends with white space is its own trimmed form. */
  lemma TrimSpaceKeeps(s: string)
    requires s == [] || (!IsSpace(s[0]) && !IsSpace(s[|s| - 1]))
    ensures TrimSpace(s) == s
  {
    assert TrimLeft(s) == s;
  }

  /** A string that contains a non-space character does not trim to the empty string. */
  lemma TrimSpaceNonEmpty(s: string, i: nat)
    requires i < |s| && !IsSpace(s[i])
    ensures TrimSpace(s) != []
  {
    var l := TrimLeft(s);
    TrimLeftShape(s);
    TrimRightShape(l);
    assert i >= |s| - |l|;
    assert l[i - (|s| - |l|)] == s[i];
  }

  /** Go's unicode.ToUpper restricted to what matters here: ASCII letters, plus the
      two non-ASCII runes (dotless i, long s) whose upper case is an ASCII letter.
      Every other character is left unchanged. */
  function UpperChar(c: char): (u: char)
    ensures 'a' <= c <= 'z' ==> u as int == c as int - 32
    ensures ('A' <= u <= 'Z') ==> ('A' <= c <= 'Z' || 'a' <= c <= 'z' || c == '\U{0131}' || c == '\U{017F}')
  {
    if 'a' <= c <= 'z' then (c as int - 32) as char
    else if c == '\U{0131}' then 'I'
    else if c == '\U{017F}' then 'S'
    else c
  }

  /** Go's strings.ToUpper, character by character. */
  function ToUpper(s: string): (r: string)
    ensures |r| == |s|
    ensures forall i :: 0 <= i < |s| ==> r[i] == UpperChar(s[i])
  {
    if s == [] then [] else [UpperChar(s[0])] + ToUpper(s[1..])
  }

  /** ToUpper works character by character. */
  lemma ToUpperAppend(a: string, b: string)
    ensures ToUpper(a + b) == ToUpper(a) + ToUpper(b)
  {
    var l, r := ToUpper(a + b), ToUpper(a) + ToUpper(b);
    assert |l| == |r|;
    forall i | 0 <= i < |l| ensures l[i] == r[i] {
      if i < |a| {
        assert (a + b)[i] == a[i];
      } else {
        assert (a + b)[i] == b[i - |a|];
      }
    }
  }

  /** Joins pieces with a separator; the inverse of Split. */
  function JoinWith(parts: seq<string>, sep: char): string
    requires |parts| >= 1
  {
    if |parts| == 1 then parts[0] else parts[0] + [sep] + JoinWith(parts[1..], sep)
  }

  function Count(s: string, c: char): nat
  {
    if s == [] then 0 else (if s[0] == c then 1 else 0) + Count(s[1..], c)
  }

  /** Go's strings.Split(s, sep) for a one-character separator: the text between
      separators (see SplitPieces and SplitJoin). */
  function Split(s: string, sep: char): (r: seq<string>)
    ensures |r| >= 1
  {
    if s == [] then [[]]
    else
      var rest := Split(s[1..], sep);
      if s[0] == sep then [[]] + rest
      else [[s[0]] + rest[0]] + rest[1..]
  }

  /** One more piece than there are separators, none containing it. */
  lemma {:induction false} SplitPieces(s: string, sep: char)
    ensures |Split(s, sep)| == Count(s, sep) + 1
    ensures forall i :: 0 <= i < |Split(s, sep)| ==> sep !in Split(s, sep)[i]
  {
    if s != [] {
      SplitPieces(s[1..], sep);
    }
  }

  /** Splitting and joining again gives back the text. */
  lemma {:induction false} SplitJoin(s: string, sep: char)
    ensures JoinWith(Split(s, sep), sep) == s
  {
    if s != [] {
      var rest := Split(s[1..], sep);
      SplitJoin(s[1..], sep);
      if s[0] == sep {
        assert Split(s, sep)[1..] == rest;
      } else {
        var r := Split(s, sep);
        if |rest| == 1 {
          assert r == [[s[0]] + rest[0]];
        } else {
          assert r[1..] == rest[1..];
          assert JoinWith(r, sep) == [s[0]] + rest[0] + [sep] + JoinWith(rest[1..], sep);
        }
      }
    }
  }

  /** Joining pieces that do not contain the separator and splitting again gives
      back the pieces. */
  lemma {:induction false} JoinSplit(parts: seq<string>, sep: char)
    requires |parts| >= 1
    requires forall i :: 0 <= i < |parts| ==> sep !in parts[i]
    ensures Split(JoinWith(parts, sep), sep) == parts
  {
    if |parts| == 1 {
      NoSeparatorSplit(parts[0], sep);
    } else {
      JoinSplit(parts[1..], sep);
      SplitAppendSeparator(parts[0], sep, JoinWith(parts[1..], sep));
      assert [parts[0]] + parts[1..] == parts;
    }
  }

  lemma {:induction false} NoSeparatorSplit(s: string, sep: char)
    requires sep !in s
    ensures Split(s, sep) == [s]
  {
    if s != [] {
      NoSeparatorSplit(s[1..], sep);
      assert [s[0]] + s[1..] == s;
    }
  }

  lemma {:induction false} SplitAppendSeparator(a: string, sep: char, b: string)
    requires sep !in a
    ensures Split(a + [sep] + b, sep) == [a] + Split(b, sep)
  {
    if a == [] {
      assert [sep] + b == a + [sep] + b;
      assert ([sep] + b)[1..] == b;
    } else {
      assert (a + [sep] + b)[1..] == a[1..] + [sep] + b;
      SplitAppendSeparator(a[1..], sep, b);
      assert [a[0]] + a[1..] == a;
    }
  }

  predicate IsPrefix(p: string, s: string) {
    |p| <= |s| && s[..|p|] == p
  }

  /** Go's strings.Contains. */
  function Contains(s: string, q: string): bool
    decreases |s|
  {
    if IsPrefix(q, s) then true
    else if s == [] then false
    else Contains(s[1..], q)
  }

  /** q occurs in s at position i. */
  predicate OccursAt(s: string, q: string, i: int) {
    0 <= i <= |s| - |q| && s[i..i + |q|] == q
  }

  lemma SliceOfTail(s: string, i: int, len: nat)
    requires 1 <= i && i + len <= |s|
    ensures s[1..][i - 1..i - 1 + len] == s[i..i + len]
  {
    assert s[1..][i - 1..i - 1 + len] == s[i..i + len];
  }

  /** Contains holds exactly when q occurs at some position of s. */
  lemma {:induction false} ContainsOccurs(s: string, q: string)
    ensures Contains(s, q) <==> exists i :: OccursAt(s, q, i)
    decreases |s|
  {
    if IsPrefix(q, s) {
      assert OccursAt(s, q, 0);
    } else if s == [] {
    } else {
      ContainsOccurs(s[1..], q);
      if Contains(s[1..], q) {
        var i :| OccursAt(s[1..], q, i);
        SliceOfTail(s, i + 1, |q|);
        assert OccursAt(s, q, i + 1);
      } else {
        forall i | 0 <= i <= |s| - |q|
          ensures OccursAt(s, q, i) ==> if i == 0 then IsPrefix(q, s) else OccursAt(s[1..], q, i - 1)
        {
          if i > 0 {
            SliceOfTail(s, i, |q|);
          }
        }
      }
    }
  }

  /** Go's strings.ReplaceAll(s, pat, rep) for a non-empty old: every
      non-overlapping occurrence, scanned from the left, is replaced. */
  function ReplaceAll(s: string, pat: string, rep: string): string
    requires pat != []
    decreases |s|
  {
    if s == [] then []
    else if IsPrefix(pat, s) then rep + ReplaceAll(s[|pat|..], pat, rep)
    else [s[0]] + ReplaceAll(s[1..], pat, rep)
  }

  /** A text that starts with the pattern: the replacement, then the rest
      replaced. */
  lemma ReplaceAllHead(pat: string, t: string, rep: string)
    requires pat != []
    ensures ReplaceAll(pat + t, pat, rep) == rep + ReplaceAll(t, pat, rep)
  {
    assert IsPrefix(pat, pat + t);
    assert (pat + t)[|pat|..] == t;
  }

  /** A first character at which the pattern does not begin is copied. */
  lemma ReplaceAllMiss(a: char, t: string, pat: string, rep: string)
    requires pat != [] && !IsPrefix(pat, [a] + t)
    ensures ReplaceAll([a] + t, pat, rep) == [a] + ReplaceAll(t, pat, rep)
  {
    assert ([a] + t)[1..] == t;
  }

  /** A leading part in which the pattern cannot start is copied unchanged. */
  lemma {:induction false} ReplaceAllSkip(x: string, y: string, pat: string, rep: string)
    requires pat != [] && pat[0] !in x
    ensures ReplaceAll(x + y, pat, rep) == x + ReplaceAll(y, pat, rep)
    decreases |x|
  {
    if x != [] {
      assert (x + y)[0] == x[0];
      assert !IsPrefix(pat, x + y);
      assert (x + y)[1..] == x[1..] + y;
      ReplaceAllSkip(x[1..], y, pat, rep);
    } else {
      assert x + y == y;
    }
  }

  /** A text where the pattern begins at none of the positions holding its first
      character is left unchanged. */
  lemma {:induction false} ReplaceAllUnchanged(s: string, pat: string, rep: string)
    requires pat != []
    requires forall i :: 0 <= i < |s| && s[i] == pat[0] ==> !IsPrefix(pat, s[i..])
    ensures ReplaceAll(s, pat, rep) == s
    decreases |s|
  {
    if s != [] {
      assert !IsPrefix(pat, s) by {
        if s[0] == pat[0] {
          assert s[0..] == s;
        }
      }
      forall i | 0 <= i < |s[1..]| && s[1..][i] == pat[0] ensures !IsPrefix(pat, s[1..][i..]) {
        assert s[1..][i..] == s[i + 1..];
      }
      ReplaceAllUnchanged(s[1..], pat, rep);
    }
  }

  /** Replacement leaves a text without occurrences of the pattern unchanged. */
  lemma {:induction false} ReplaceAllAbsent(s: string, pat: string, rep: string)
    requires pat != []
    requires !Contains(s, pat)
    ensures ReplaceAll(s, pat, rep) == s
    decreases |s|
  {
    if s != [] {
      ReplaceAllAbsent(s[1..], pat, rep);
    }
  }

  function DigitChar(d: nat): char
    requires d < 10
  {
    ('0' as int + d) as char
  }

  predicate IsDigit(c: char) {
    '0' <= c <= '9'
  }

  predicate AllDigits(s: string) {
    forall i :: 0 <= i < |s| ==> IsDigit(s[i])
  }

  /** The shortest decimal rendering of n. */
  function Digits(n: nat): (r: string)
    ensures 1 <= |r|
    ensures forall i :: 0 <= i < |r| ==> IsDigit(r[i])
    ensures n >= 10 ==> r[0] != '0'
  {
    if n < 10 then [DigitChar(n)] else Digits(n / 10) + [DigitChar(n % 10)]
  }

  function Zeros(k: nat): (r: string)
    ensures |r| == k && forall i :: 0 <= i < k ==> r[i] == '0'
  {
    if k == 0 then [] else ['0'] + Zeros(k - 1)
  }

  function DigitValue(c: char): nat
    requires IsDigit(c)
  {
    c as int - '0' as int
  }

  /** Value of a string of decimal digits. */
  function DigitsValue(s: string): nat
    requires AllDigits(s)
  {
    if s == [] then 0 else DigitsValue(s[..|s| - 1]) * 10 + DigitValue(s[|s| - 1])
  }

  /** Reads back a rendering of ZeroPad: an optional minus sign, then at least one digit. */
  function ParseInt(s: string): Option<int>
  {
    if |s| >= 2 && s[0] == '-' && AllDigits(s[1..]) then Some(-(DigitsValue(s[1..]) as int))
    else if |s| >= 1 && AllDigits(s) then Some(DigitsValue(s) as int)
    else None
  }

  lemma {:induction false} DigitsValueOfDigits(n: nat)
    ensures AllDigits(Digits(n)) && DigitsValue(Digits(n)) == n
  {
    if n >= 10 {
      DigitsValueOfDigits(n / 10);
      var d := Digits(n);
      assert d[..|d| - 1] == Digits(n / 10);
    }
  }

  lemma {:induction false} LeadingZerosValue(k: nat, t: string)
    requires AllDigits(t)
    ensures AllDigits(Zeros(k) + t)
    ensures DigitsValue(Zeros(k) + t) == DigitsValue(t)
    decreases |t| + k
  {
    var s := Zeros(k) + t;
    assert AllDigits(s) by {
      forall i | 0 <= i < |s| ensures IsDigit(s[i]) {
        if i >= k { assert s[i] == t[i - k]; }
      }
    }
    if t == [] {
      assert s == Zeros(k);
      if k > 0 {
        assert s[..|s| - 1] == Zeros(k - 1) + [];
        LeadingZerosValue(k - 1, []);
      }
    } else {
      assert s[..|s| - 1] == Zeros(k) + t[..|t| - 1];
      LeadingZerosValue(k, t[..|t| - 1]);
    }
  }

  function Magnitude(n: int): nat {
    if n < 0 then -n else n
  }

  /** The unsigned part of ZeroPad(n, width): zeros, then the digits of |n|, at
      least width - 1 characters long for a negative n and width for the others. */
  function PaddedMagnitude(n: int, width: nat): string
  {
    var digits := Digits(Magnitude(n));
    var room := if n < 0 then width - 1 else width;
    Zeros(if |digits| < room then room - |digits| else 0) + digits
  }

  /** Go's fmt "%0Nd" and Python's "{:0Nd}": the sign, then zeros up to a total
      width of N, then the digits of the magnitude. */
  function ZeroPad(n: int, width: nat): (r: string)
    ensures |r| >= width
  {
    (if n < 0 then "-" else "") + PaddedMagnitude(n, width)
  }

  lemma PaddedMagnitudeValue(n: int, width: nat)
    ensures |PaddedMagnitude(n, width)| >= 1
    ensures AllDigits(PaddedMagnitude(n, width))
    ensures DigitsValue(PaddedMagnitude(n, width)) == Magnitude(n)
  {
    var digits := Digits(Magnitude(n));
    var room := if n < 0 then width - 1 else width;
    LeadingZerosValue(if |digits| < room then room - |digits| else 0, digits);
    DigitsValueOfDigits(Magnitude(n));
  }

  /** Zero padding loses nothing: the rendering reads back as the number. */
  lemma ZeroPadRoundTrip(n: int, width: nat)
    ensures ParseInt(ZeroPad(n, width)) == Some(n)
  {
    var body := PaddedMagnitude(n, width);
    PaddedMagnitudeValue(n, width);
    var r := ZeroPad(n, width);
    if n < 0 {
      assert r == "-" + body;
      assert r[1..] == body;
    } else {
      assert r == body;
    }
  }

  /** So two different numbers never render alike. */
  lemma ZeroPadInjective(a: int, b: int, width: nat)
    requires ZeroPad(a, width) == ZeroPad(b, width)
    ensures a == b
  {
    ZeroPadRoundTrip(a, width);
    ZeroPadRoundTrip(b, width);
  }
}

/**
 * The operations on Python `str` values that the configuration, request and
 * ingestion code relies on: `strip`/`lstrip`/`rstrip`, `lower`, `split` and
 * `join` with a separator, `str(int)` and `int(str)`.
 */
module Text {
  import opened Wrappers

  /** The characters for which Python's `str.isspace()` holds; `str.strip()` with no argument removes these. */
  predicate IsSpace(c: char) {
    || c == ' '
    || '\t' <= c <= '\r'
    || '\U{001C}' <= c <= '\U{001F}'
    || c == '\U{0085}' || c == '\U{00A0}' || c == '\U{1680}'
    || '\U{2000}' <= c <= '\U{200A}'
    || c == '\U{2028}' || c == '\U{2029}' || c == '\U{202F}' || c == '\U{205F}' || c == '\U{3000}'
  }

  /** True when every character of `s` satisfies `drop`. */
  predicate AllIn(s: string, drop: char -> bool) {
    forall i :: 0 <= i < |s| ==> drop(s[i])
  }

  // ---------------------------------------------------------------------------
  // strip, lstrip, rstrip

  /** `s.rstrip(chars)`: the longest prefix of `s` that does not end in a character that `drop` accepts. */
  function StripRight(s: string, drop: char -> bool): (r: string)
    ensures |r| <= |s| && r == s[..|r|]
    ensures forall i :: |r| <= i < |s| ==> drop(s[i])
    ensures r == [] || !drop(r[|r| - 1])
  {
    if s != [] && drop(s[|s| - 1]) then StripRight(s[..|s| - 1], drop) else s
  }

  /** `s.lstrip(chars)`: the longest suffix of `s` that does not start with a character that `drop` accepts. */
  function StripLeft(s: string, drop: char -> bool): (r: string)
    ensures |r| <= |s| && r == s[|s| - |r|..]
    ensures forall i :: 0 <= i < |s| - |r| ==> drop(s[i])
    ensures r == [] || !drop(r[0])
  {
    if s != [] && drop(s[0]) then StripLeft(s[1..], drop) else s
  }

  /** `s.strip(chars)`: removes the characters `drop` accepts from both ends. */
  function Strip(s: string, drop: char -> bool): (r: string)
    ensures |r| <= |s|
    ensures r == [] || (!drop(r[0]) && !drop(r[|r| - 1]))
  {
    StripLeft(StripRight(s, drop), drop)
  }

  /** `s.strip()`: removes whitespace from both ends. */
  function Trim(s: string): string {
    Strip(s, IsSpace)
  }

  /** The three properties in StripRight's contract single out its result. */
  lemma StripRightUnique(s: string, drop: char -> bool, r: string)
    requires |r| <= |s| && r == s[..|r|]
    requires forall i :: |r| <= i < |s| ==> drop(s[i])
    requires r == [] || !drop(r[|r| - 1])
    ensures StripRight(s, drop) == r
  {
    var t := StripRight(s, drop);
    if r != [] {
      assert !drop(s[|r| - 1]);
    }
    if t != [] {
      assert !drop(s[|t| - 1]);
    }
  }

  /** The three properties in StripLeft's contract single out its result. */
  lemma StripLeftUnique(s: string, drop: char -> bool, r: string)
    requires |r| <= |s| && r == s[|s| - |r|..]
    requires forall i :: 0 <= i < |s| - |r| ==> drop(s[i])
    requires r == [] || !drop(r[0])
    ensures StripLeft(s, drop) == r
  {
    var t := StripLeft(s, drop);
    if r != [] {
      assert !drop(s[|s| - |r|]);
    }
    if t != [] {
      assert !drop(s[|s| - |t|]);
    }
  }

  /** Dropped characters around `s` make no difference to stripping it. */
  lemma StripPadding(p: string, s: string, q: string, drop: char -> bool)
    requires AllIn(p, drop) && AllIn(q, drop)
    ensures Strip(p + s + q, drop) == Strip(s, drop)
  {
    var whole := p + s + q;
    var t := StripRight(s, drop);
    forall i | |p + t| <= i < |whole| ensures drop(whole[i]) {
      if i < |p + s| {
        assert whole[i] == s[i - |p|];
      } else {
        assert whole[i] == q[i - |p + s|];
      }
    }
    assert whole[..|p + t|] == p + t;
    if t == [] {
      forall i | 0 <= i < |p| ensures drop(whole[i]) {
        assert whole[i] == p[i];
      }
      StripRightUnique(whole, drop, []);
    } else {
      StripRightUnique(whole, drop, p + t);
      var u := StripLeft(t, drop);
      forall i | 0 <= i < |p + t| - |u| ensures drop((p + t)[i]) {
        if i >= |p| {
          assert (p + t)[i] == t[i - |p|];
        }
      }
      assert (p + t)[|p + t| - |u|..] == u;
      StripLeftUnique(p + t, drop, u);
    }
  }

  /** A string that neither starts nor ends with a dropped character is its own strip. */
  lemma StripUnchanged(s: string, drop: char -> bool)
    requires s == [] || (!drop(s[0]) && !drop(s[|s| - 1]))
    ensures Strip(s, drop) == s
  {
    StripRightUnique(s, drop, s);
    StripLeftUnique(s, drop, s);
  }

  /** Stripping twice is stripping once. */
  lemma StripIdempotent(s: string, drop: char -> bool)
    ensures Strip(Strip(s, drop), drop) == Strip(s, drop)
  {
    StripUnchanged(Strip(s, drop), drop);
  }

  // ---------------------------------------------------------------------------
  // lower

  /** `c.lower()` on ASCII letters; every other character is left as it is. */
  function LowerChar(c: char): char {
    if 'A' <= c <= 'Z' then (c as int + 32) as char else c
  }

  /** `s.lower()`, character by character. */
  function Lower(s: string): (r: string)
    ensures |r| == |s|
    ensures forall i :: 0 <= i < |s| ==> r[i] == LowerChar(s[i])
  {
    seq(|s|, i requires 0 <= i < |s| => LowerChar(s[i]))
  }

  /** Lower-casing twice is lower-casing once. */
  lemma LowerIdempotent(s: string)
    ensures Lower(Lower(s)) == Lower(s)
  {
    assert forall i :: 0 <= i < |s| ==> Lower(Lower(s))[i] == Lower(s)[i];
  }

  /** Lower-casing leaves whitespace alone and never produces it. */
  lemma LowerKeepsSpace(c: char)
    ensures IsSpace(c) <==> IsSpace(LowerChar(c))
    ensures IsSpace(c) ==> LowerChar(c) == c
  {
  }

  /** Removing trailing whitespace and lower-casing can be done in either order. */
  lemma LowerStripRight(s: string)
    ensures Lower(StripRight(s, IsSpace)) == StripRight(Lower(s), IsSpace)
  {
    var ls, lt := Lower(s), Lower(StripRight(s, IsSpace));
    forall i | |lt| <= i < |ls| ensures IsSpace(ls[i]) {
      LowerKeepsSpace(s[i]);
    }
    if lt != [] {
      LowerKeepsSpace(s[|lt| - 1]);
    }
    assert ls[..|lt|] == lt;
    StripRightUnique(ls, IsSpace, lt);
  }

  /** Removing leading whitespace and lower-casing can be done in either order. */
  lemma LowerStripLeft(t: string)
    ensures Lower(StripLeft(t, IsSpace)) == StripLeft(Lower(t), IsSpace)
  {
    var lt, lu := Lower(t), Lower(StripLeft(t, IsSpace));
    forall i | 0 <= i < |lt| - |lu| ensures IsSpace(lt[i]) {
      LowerKeepsSpace(t[i]);
    }
    if lu != [] {
      LowerKeepsSpace(t[|t| - |lu|]);
    }
    assert lt[|lt| - |lu|..] == lu;
    StripLeftUnique(lt, IsSpace, lu);
  }

  /** Trimming and lower-casing can be done in either order. */
  lemma LowerTrimCommute(s: string)
    ensures Lower(Trim(s)) == Trim(Lower(s))
  {
    LowerStripRight(s);
    LowerStripLeft(StripRight(s, IsSpace));
  }

  // ---------------------------------------------------------------------------
  // Sequence facts the proofs elsewhere cite by name

  lemma AppendAssoc<T>(a: seq<T>, b: seq<T>, c: seq<T>)
    ensures (a + b) + c == a + (b + c)
  {
  }

  lemma AppendEmpty<T>(a: seq<T>)
    ensures a + [] == a
  {
  }

  lemma PrefixOfConcat<T>(a: seq<T>, b: seq<T>)
    ensures (a + b)[..|a|] == a
  {
  }

  /** Dropping the last element of `a + b`, for a non-empty `b`, drops the last element of `b`. */
  lemma DropLastOfConcat<T>(a: seq<T>, b: seq<T>)
    requires b != []
    ensures (a + b)[..|a + b| - 1] == a + b[..|b| - 1] && (a + b)[|a + b| - 1] == b[|b| - 1]
  {
  }

  /** Cutting a sequence at `i` and joining the pieces gives it back. */
  lemma SplitAt<T>(s: seq<T>, i: nat)
    requires i <= |s|
    ensures s[..i] + s[i..] == s
  {
  }

  /** The prefix as long as the sequence is the sequence. */
  lemma WholePrefix<T>(s: seq<T>)
    ensures s[..|s|] == s
  {
  }

  /** The prefix of length `i` of the prefix of length `i + 1`. */
  lemma PrefixOfPrefix<T>(s: seq<T>, i: nat)
    requires i < |s|
    ensures s[..i + 1][..i] == s[..i] && s[..i + 1][i] == s[i]
  {
  }

  // ---------------------------------------------------------------------------
  // split and join

  /** `sep.join(parts)`. */
  function Join(sep: string, parts: seq<string>): string {
    if |parts| == 0 then ""
    else if |parts| == 1 then parts[0]
    else Join(sep, parts[..|parts| - 1]) + sep + parts[|parts| - 1]
  }

  /** `s.split(sep)` for a one-character separator: the pieces between separators (at least one, possibly empty). */
  function Split(s: string, sep: char): (parts: seq<string>)
    ensures |parts| >= 1
    ensures forall i :: 0 <= i < |parts| ==> sep !in parts[i]
  {
    if s == [] then [""]
    else
      var init := Split(s[..|s| - 1], sep);
      if s[|s| - 1] == sep then init + [""]
      else init[..|init| - 1] + [init[|init| - 1] + [s[|s| - 1]]]
  }

  /** Joining the pieces of a split with the same separator gives back the string. */
  lemma {:induction false} JoinSplit(s: string, sep: char)
    ensures Join([sep], Split(s, sep)) == s
  {
    if s != [] {
      var front, c := s[..|s| - 1], s[|s| - 1];
      var init := Split(front, sep);
      JoinSplit(front, sep);
      assert s == front + [c];
      if c == sep {
        assert (init + [""])[..|init|] == init;
      } else {
        var k := |init| - 1;
        var parts := init[..k] + [init[k] + [c]];
        assert Split(s, sep) == parts;
        if k > 0 {
          assert parts[..k] == init[..k];
          assert init[..k] + [init[k]] == init;
          calc {
            Join([sep], parts);
            Join([sep], init[..k]) + [sep] + (init[k] + [c]);
            (Join([sep], init[..k]) + [sep] + init[k]) + [c];
            Join([sep], init) + [c];
          }
        }
      }
    }
  }

  /** A separator followed by a piece without separators adds exactly that piece to the split. */
  lemma {:induction false} SplitAfterSeparator(a: string, sep: char, y: string)
    requires sep !in y
    ensures Split(a + [sep] + y, sep) == Split(a, sep) + [y]
  {
    if y == [] {
      assert (a + [sep] + y)[..|a + [sep] + y| - 1] == a;
    } else {
      var y' := y[..|y| - 1];
      SplitAfterSeparator(a, sep, y');
      assert (a + [sep] + y)[..|a + [sep] + y| - 1] == a + [sep] + y';
      assert y' + [y[|y| - 1]] == y;
    }
  }

  /** A string without the separator splits into itself alone. */
  lemma {:induction false} SplitNoSeparator(y: string, sep: char)
    requires sep !in y
    ensures Split(y, sep) == [y]
  {
    if y != [] {
      SplitNoSeparator(y[..|y| - 1], sep);
      assert y[..|y| - 1] + [y[|y| - 1]] == y;
    }
  }

  /** Splitting a join of separator-free pieces gives back the pieces. */
  lemma {:induction false} SplitJoin(parts: seq<string>, sep: char)
    requires |parts| >= 1
    requires forall i :: 0 <= i < |parts| ==> sep !in parts[i]
    ensures Split(Join([sep], parts), sep) == parts
  {
    if |parts| == 1 {
      SplitNoSeparator(parts[0], sep);
    } else {
      var init := parts[..|parts| - 1];
      SplitJoin(init, sep);
      SplitAfterSeparator(Join([sep], init), sep, parts[|parts| - 1]);
      assert init + [parts[|parts| - 1]] == parts;
    }
  }

  /** Splitting at a separator between two strings splits each of them: the pieces of `a`, then those of `y`. */
  lemma {:induction false} SplitConcat(a: string, sep: char, y: string)
    ensures Split(a + [sep] + y, sep) == Split(a, sep) + Split(y, sep)
  {
    var s := a + [sep] + y;
    SplitLast(s, sep);
    if y == [] {
      assert s[..|s| - 1] == a && s[|s| - 1] == sep;
    } else {
      var y' := y[..|y| - 1];
      assert s[..|s| - 1] == a + [sep] + y' && s[|s| - 1] == y[|y| - 1];
      SplitConcat(a, sep, y');
      SplitLast(y, sep);
      SplitStepConcat(Split(a, sep), Split(y', sep), y[|y| - 1], sep);
    }
  }

  /** The step of SplitLast applied after a prefix of pieces `p` leaves `p` in front. */
  lemma SplitStepConcat(p: seq<string>, q: seq<string>, c: char, sep: char)
    requires q != []
    ensures var init := p + q;
      (if c == sep then init + [""] else init[..|init| - 1] + [init[|init| - 1] + [c]])
      == p + (if c == sep then q + [""] else q[..|q| - 1] + [q[|q| - 1] + [c]])
  {
    var init := p + q;
    if c != sep {
      assert init[..|init| - 1] == p + q[..|q| - 1];
    }
  }

  /** One step of Split: the last character either starts a new piece or extends the last one. */
  lemma SplitLast(s: string, sep: char)
    requires s != []
    ensures var init := Split(s[..|s| - 1], sep);
      Split(s, sep) == if s[|s| - 1] == sep then init + [""] else init[..|init| - 1] + [init[|init| - 1] + [s[|s| - 1]]]
  {
  }

  /** The number of times `c` occurs in `s`. */
  function Count(s: string, c: char): nat {
    if s == [] then 0 else Count(s[..|s| - 1], c) + (if s[|s| - 1] == c then 1 else 0)
  }

  /** Counting in a concatenation adds up the counts of its halves. */
  lemma {:induction false} CountConcat(a: string, b: string, c: char)
    ensures Count(a + b, c) == Count(a, c) + Count(b, c)
  {
    if b != [] {
      CountConcat(a, b[..|b| - 1], c);
      assert (a + b)[..|a + b| - 1] == a + b[..|b| - 1];
      assert (a + b)[|a + b| - 1] == b[|b| - 1];
    } else {
      assert a + b == a;
    }
  }

  /** A character that does not occur in `s` is counted zero times. */
  lemma {:induction false} CountAbsent(s: string, c: char)
    requires c !in s
    ensures Count(s, c) == 0
  {
    if s != [] {
      assert s == s[..|s| - 1] + [s[|s| - 1]];
      CountAbsent(s[..|s| - 1], c);
    }
  }

  /** A character that occurs in `s` is counted at least once. */
  lemma {:induction false} CountPositive(s: string, c: char)
    requires c in s
    ensures Count(s, c) >= 1
  {
    if s[|s| - 1] != c {
      assert c in s[..|s| - 1] by {
        var i :| 0 <= i < |s| && s[i] == c;
        assert s[..|s| - 1][i] == c;
      }
      CountPositive(s[..|s| - 1], c);
    }
  }

  /** `s.split(sep)` has one piece more than `s` has separators. */
  lemma {:induction false} SplitLength(s: string, sep: char)
    ensures |Split(s, sep)| == Count(s, sep) + 1
  {
    if s != [] {
      SplitLength(s[..|s| - 1], sep);
    }
  }

  // ---------------------------------------------------------------------------
  // str(int) and int(str)

  predicate IsDigit(c: char) {
    '0' <= c <= '9'
  }

  predicate AllDigits(s: string) {
    forall i :: 0 <= i < |s| ==> IsDigit(s[i])
  }

  /** The value of a string of decimal digits. */
  function DigitsValue(ds: string): nat
    requires AllDigits(ds)
  {
    if ds == [] then 0 else DigitsValue(ds[..|ds| - 1]) * 10 + (ds[|ds| - 1] as int - '0' as int)
  }

  /** `str(n)` for a natural number. */
  function NatToString(n: nat): (s: string)
    ensures s != [] && AllDigits(s)
  {
    if n < 10 then [(n + '0' as int) as char]
    else NatToString(n / 10) + [((n % 10) + '0' as int) as char]
  }

  /** `str(i)`. */
  function IntToString(i: int): string {
    if i < 0 then "-" + NatToString(-i) else NatToString(i)
  }

  /**
   * `int(s)` on a decimal literal: whitespace around it, an optional `+` or `-`,
   * then one or more ASCII digits. Anything else raises ValueError, modelled as None.
   */
  function ParseInt(s: string): Option<int> {
    ParseTrimmedInt(Trim(s))
  }

  /** `int` of a string whose surrounding whitespace is already removed. */
  function ParseTrimmedInt(t: string): Option<int> {
    if t == [] then None
    else if t[0] == '+' || t[0] == '-' then
      var ds := t[1..];
      if ds != [] && AllDigits(ds) then Some(if t[0] == '-' then 0 - DigitsValue(ds) else DigitsValue(ds))
      else None
    else if AllDigits(t) then Some(DigitsValue(t))
    else None
  }

  /** Reading back the digits of `n` gives `n`. */
  lemma {:induction false} DigitsValueOfNat(n: nat)
    ensures DigitsValue(NatToString(n)) == n
  {
    if n >= 10 {
      DigitsValueOfNat(n / 10);
      var s := NatToString(n);
      assert s[..|s| - 1] == NatToString(n / 10);
    }
  }

  /** `str(i)` has no whitespace to trim. */
  lemma TrimIntToString(i: int)
    ensures Trim(IntToString(i)) == IntToString(i)
  {
    var s := IntToString(i);
    var ds := NatToString(if i < 0 then -i else i);
    assert s[|s| - 1] == ds[|ds| - 1];
    assert IsDigit(s[|s| - 1]) && (IsDigit(s[0]) || s[0] == '-');
    StripUnchanged(s, IsSpace);
  }

  /** `int(str(i)) == i`. */
  lemma ParseIntRoundTrip(i: int)
    ensures ParseInt(IntToString(i)) == Some(i)
  {
    var s := IntToString(i);
    var n: nat := if i < 0 then -i else i;
    DigitsValueOfNat(n);
    TrimIntToString(i);
    if i < 0 {
      assert s[1..] == NatToString(n);
    }
  }

  /** `int` ignores whitespace around its argument. */
  lemma ParseIntPadding(p: string, s: string, q: string)
    requires AllIn(p, IsSpace) && AllIn(q, IsSpace)
    ensures ParseInt(p + s + q) == ParseInt(s)
  {
    StripPadding(p, s, q, IsSpace);
    assert Trim(p + s + q) == Trim(s);
  }
}

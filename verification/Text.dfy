/**
 Strings as the Go standard library treats them: substring search, `Split`, `Cut`,
 trimming, ASCII case, and decimal numbers. Byte strings are strings of characters here.
 */
module Text {

  datatype Option<+T> = None | Some(value: T)

  /* Case, over the ASCII letters: every name that is compared without case is a token. */

  function LowerChar(c: char): char {
    if 'A' <= c <= 'Z' then c + 32 as char else c
  }

  function UpperChar(c: char): char {
    if 'a' <= c <= 'z' then c - 32 as char else c
  }

  function ToLower(s: string): (r: string)
    ensures |r| == |s|
  {
    seq(|s|, i requires 0 <= i < |s| => LowerChar(s[i]))
  }

  /** Equality without case does not depend on the case chosen. */
  lemma CaseOfChar(c: char, d: char)
    ensures LowerChar(LowerChar(c)) == LowerChar(UpperChar(c)) == LowerChar(c)
    ensures LowerChar(c) == LowerChar(d) <==> UpperChar(c) == UpperChar(d)
    ensures LowerChar(c) == LowerChar(d) ==> (c == '-' <==> d == '-')
  {}

  /* Searching and splitting. */

  predicate OccursAt(s: string, sep: string, i: int) {
    0 <= i <= |s| - |sep| && s[i..i + |sep|] == sep
  }

  /** The first position at or after `from` where `sep` occurs, or -1. */
  function IndexFrom(s: string, sep: string, from: nat): (r: int)
    requires from <= |s|
    ensures -1 <= r
    ensures r >= 0 ==> from <= r && OccursAt(s, sep, r) && forall j :: from <= j < r ==> !OccursAt(s, sep, j)
    ensures r < 0 ==> forall j :: from <= j ==> !OccursAt(s, sep, j)
    decreases |s| - from
  {
    if OccursAt(s, sep, from) then from
    else if from == |s| then -1
    else IndexFrom(s, sep, from + 1)
  }

  function Index(s: string, sep: string): (r: int)
    ensures -1 <= r
    ensures r >= 0 ==> r + |sep| <= |s| && OccursAt(s, sep, r) && forall j :: 0 <= j < r ==> !OccursAt(s, sep, j)
    ensures r < 0 ==> forall j :: !OccursAt(s, sep, j)
  {
    IndexFrom(s, sep, 0)
  }

  /** The first occurrence is the only possible index. */
  lemma IndexIs(s: string, sep: string, i: int)
    requires if i < 0 then i == -1 && forall j :: !OccursAt(s, sep, j)
             else OccursAt(s, sep, i) && forall j :: 0 <= j < i ==> !OccursAt(s, sep, j)
    ensures Index(s, sep) == i
  {
    hide OccursAt, IndexFrom;
  }

  function Split(s: string, sep: string): (parts: seq<string>)
    requires sep != ""
    ensures parts != []
    decreases |s|
  {
    var i := Index(s, sep);
    if i < 0 then [s] else [s[..i]] + Split(s[i + |sep|..], sep)
  }

  function Join(parts: seq<string>, sep: string): string {
    if parts == [] then ""
    else if |parts| == 1 then parts[0]
    else parts[0] + sep + Join(parts[1..], sep)
  }

  predicate Contains(s: string, sep: string) {
    Index(s, sep) >= 0
  }

  /** No occurrence of `sep` in `a + sep` starts inside `a`. */
  ghost predicate Clean(a: string, sep: string) {
    forall i :: 0 <= i < |a| ==> !OccursAt(a + sep, sep, i)
  }

  lemma IndexFirst(a: string, sep: string, b: string)
    requires Clean(a, sep)
    ensures Index(a + sep + b, sep) == |a|
  {
    var s := a + sep + b;
    assert s[|a|..|a| + |sep|] == sep;
    assert OccursAt(s, sep, |a|);
    forall i | 0 <= i < |a| ensures !OccursAt(s, sep, i) {
      assert s[..|a| + |sep|] == a + sep;
      assert s[i..i + |sep|] == (a + sep)[i..i + |sep|];
      assert OccursAt(s, sep, i) ==> OccursAt(a + sep, sep, i);
    }
  }

  lemma SplitFirst(a: string, sep: string, b: string)
    requires sep != "" && Clean(a, sep)
    ensures Split(a + sep + b, sep) == [a] + Split(b, sep)
  {
    hide OccursAt;
    IndexFirst(a, sep, b);
    var s := a + sep + b;
    assert s[..|a|] == a;
    assert s[|a| + |sep|..] == b;
  }

  /** For a separator of one character, `Clean` says that the character is absent. */
  lemma CleanChar(a: string, c: char)
    ensures Clean(a, [c]) <==> c !in a
    ensures Contains(a, [c]) <==> c in a
  {
    if c in a {
      var i :| 0 <= i < |a| && a[i] == c;
      assert OccursAt(a + [c], [c], i);
      assert OccursAt(a, [c], i);
    }
    forall i | 0 <= i < |a| && c !in a ensures !OccursAt(a + [c], [c], i) {
      assert (a + [c])[i..i + 1] == [a[i]];
    }
    if Contains(a, [c]) {
      var i := Index(a, [c]);
      assert a[i..i + 1] == [a[i]];
    }
  }

  lemma SplitNone(a: string, c: char)
    requires c !in a
    ensures Index(a, [c]) < 0 && Split(a, [c]) == [a]
  {
    hide OccursAt, IndexFrom;
    CleanChar(a, c);
  }

  /** No proper suffix of `sep` is also a prefix of it, so its occurrences cannot overlap. */
  ghost predicate Unbordered(sep: string) {
    forall j :: 0 < j < |sep| ==> sep[j..] != sep[..|sep| - j]
  }

  /** An occurrence that starts inside `a` and reaches over its end makes a border of `sep`. */
  lemma Straddle(a: string, sep: string, i: nat)
    requires i < |a| < i + |sep| && OccursAt(a + sep, sep, i)
    ensures var j := |a| - i; a[i..] == sep[..j] && sep[j..] == sep[..|sep| - j]
  {
    var j := |a| - i;
    var t := (a + sep)[i..i + |sep|];
    assert t == sep;
    assert t[..j] == a[i..];
    assert t[j..] == sep[..|sep| - j];
  }

  lemma NoOccurrenceIsClean(a: string, sep: string)
    requires Unbordered(sep) && !Contains(a, sep)
    ensures Clean(a, sep)
  {
    forall i | 0 <= i < |a| ensures !OccursAt(a + sep, sep, i) {
      assert !OccursAt(a, sep, i);
      assert i + |sep| <= |a| ==> (a + sep)[i..i + |sep|] == a[i..i + |sep|];
      if OccursAt(a + sep, sep, i) {
        Straddle(a, sep, i);
      }
    }
  }

  lemma IndexExtend(a: string, x: string, sep: string)
    requires Contains(a, sep)
    ensures Index(a + x, sep) == Index(a, sep)
  {
    hide IndexFrom;
    var i := Index(a, sep);
    assert (a + x)[i..i + |sep|] == a[i..i + |sep|];
    assert OccursAt(a + x, sep, i);
    forall k | 0 <= k < i ensures !OccursAt(a + x, sep, k) {
      assert (a + x)[k..k + |sep|] == a[k..k + |sep|];
      assert !OccursAt(a, sep, k);
    }
  }

  /** Splitting a text joined at a separator splits its two sides. */
  lemma {:induction false} SplitAppend(a: string, sep: string, b: string)
    requires sep != "" && Unbordered(sep)
    ensures Split(a + sep + b, sep) == Split(a, sep) + Split(b, sep)
    decreases |a|
  {
    hide OccursAt, Index;
    var i := Index(a, sep);
    if i < 0 {
      NoOccurrenceIsClean(a, sep);
      SplitFirst(a, sep, b);
    } else {
      IndexExtend(a, sep + b, sep);
      assert a + sep + b == a + (sep + b);
      var tail := a[i + |sep|..];
      assert (a + sep + b)[..i] == a[..i];
      assert (a + sep + b)[i + |sep|..] == tail + sep + b;
      SplitAppend(tail, sep, b);
      calc {
        Split(a + sep + b, sep);
        [a[..i]] + Split(tail + sep + b, sep);
        [a[..i]] + (Split(tail, sep) + Split(b, sep));
        ([a[..i]] + Split(tail, sep)) + Split(b, sep);
        Split(a, sep) + Split(b, sep);
      }
    }
  }

  /** What Go's `Cut` returns: the text before and after the first separator. */
  function Before(s: string, sep: string): (r: string) {
    var i := Index(s, sep); if i < 0 then s else s[..i]
  }

  function After(s: string, sep: string): (r: string)
  {
    var i := Index(s, sep); if i < 0 then "" else s[i + |sep|..]
  }

  /** Without a separator everything lies before it. */
  lemma NotCut(s: string, sep: string)
    requires !Contains(s, sep)
    ensures Before(s, sep) == s && After(s, sep) == ""
  {
    hide IndexFrom;
  }

  lemma CutAt(a: string, c: char, b: string)
    requires c !in a
    ensures Contains(a + [c] + b, [c])
    ensures Before(a + [c] + b, [c]) == a && After(a + [c] + b, [c]) == b
  {
    CleanChar(a, c);
    IndexFirst(a, [c], b);
    var s := a + [c] + b;
    assert s[..|a|] == a;
    assert s[|a| + 1..] == b;
  }

  /** Two texts divided by a character that neither head contains agree part by part. */
  lemma CutPrefix(a: string, c: char, x: string, b: string, y: string)
    requires c !in a && c !in b
    ensures a + [c] + x <= b + [c] + y <==> a == b && x <= y
  {
    var s, t := a + [c] + x, b + [c] + y;
    if s <= t {
      assert |s| <= |t| && s[|a|] == c == t[|a|] && t[|b|] == c;
      assert forall i :: 0 <= i < |a| ==> t[i] == s[i] == a[i] != c;
      assert |a| == |b|;
      assert a == s[..|a|] == t[..|b|] == b;
      assert x == s[|a| + 1..];
      assert y == t[|b| + 1..];
    }
    if a == b && x <= y {
      assert t == a + [c] + (x + y[|x|..]);
      assert t[..|s|] == s;
    }
  }

  /* Trimming. */

  /** The characters `strings.TrimSpace` removes. */
  const SPACES: set<char> := {' ', '\t', '\n', '\U{000B}', '\U{000C}', '\r', '\U{0085}', '\U{00A0}'}

  function TrimLeft(s: string, drop: set<char>): (r: string)
    ensures r == "" || r[0] !in drop
    ensures |r| <= |s| && r == s[|s| - |r|..]
  {
    if s != "" && s[0] in drop then TrimLeft(s[1..], drop) else s
  }

  function TrimRight(s: string, drop: set<char>): (r: string)
    ensures r == "" || r[|r| - 1] !in drop
    ensures |r| <= |s| && r == s[..|r|]
  {
    if s != "" && s[|s| - 1] in drop then TrimRight(s[..|s| - 1], drop) else s
  }

  function Trim(s: string, drop: set<char>): (r: string)
    ensures Trimmed(r, drop)
  {
    TrimLeft(TrimRight(s, drop), drop)
  }

  predicate Trimmed(s: string, drop: set<char>) {
    s != "" ==> s[0] !in drop && s[|s| - 1] !in drop
  }

  function TrimSpace(s: string): (r: string) {
    Trim(s, SPACES)
  }

  ghost predicate Only(s: string, drop: set<char>) {
    forall i :: 0 <= i < |s| ==> s[i] in drop
  }

  lemma {:induction false} TrimLeftOnly(pad: string, s: string, drop: set<char>)
    requires Only(pad, drop)
    ensures TrimLeft(pad + s, drop) == TrimLeft(s, drop)
  {
    if pad == "" {
      assert pad + s == s;
    } else {
      assert (pad + s)[1..] == pad[1..] + s;
      TrimLeftOnly(pad[1..], s, drop);
    }
  }

  lemma {:induction false} TrimRightOnly(s: string, pad: string, drop: set<char>)
    requires Only(pad, drop)
    ensures TrimRight(s + pad, drop) == TrimRight(s, drop)
  {
    if pad == "" {
      assert s + pad == s;
    } else {
      var n := |pad| - 1;
      assert (s + pad)[..|s + pad| - 1] == s + pad[..n];
      TrimRightOnly(s, pad[..n], drop);
    }
  }

  /** Padding on either side of a trimmed text disappears. */
  lemma TrimPadded(left: string, s: string, right: string, drop: set<char>)
    requires Only(left, drop) && Only(right, drop) && Trimmed(s, drop)
    ensures Trim(left + s + right, drop) == s
  {
    TrimRightOnly(left + s, right, drop);
    if s == "" {
      assert left + s == "" + left;
      TrimRightOnly("", left, drop);
    } else {
      assert TrimRight(left + s, drop) == left + s;
      TrimLeftOnly(left, s, drop);
    }
  }

  /** Padding makes no difference to what trimming leaves. */
  lemma TrimIgnoresPadding(left: string, s: string, right: string, drop: set<char>)
    requires Only(left, drop) && Only(right, drop)
    ensures Trim(left + s + right, drop) == Trim(s, drop)
  {
    TrimRightOnly(left + s, right, drop);
    TrimIgnoresLeft(left, s, drop);
  }

  lemma TrimRightStep(s: string, c: char, drop: set<char>)
    ensures TrimRight(s + [c], drop) == if c in drop then TrimRight(s, drop) else s + [c]
  {
    assert (s + [c])[..|s|] == s;
  }

  lemma {:induction false} TrimIgnoresLeft(left: string, s: string, drop: set<char>)
    requires Only(left, drop)
    ensures Trim(left + s, drop) == Trim(s, drop)
    decreases |s|
  {
    if s == "" {
      assert left + s == "" + left;
      TrimRightOnly("", left, drop);
    } else {
      var init, c := s[..|s| - 1], s[|s| - 1];
      assert s == init + [c] && left + s == (left + init) + [c];
      TrimRightStep(init, c, drop);
      TrimRightStep(left + init, c, drop);
      if c in drop {
        TrimIgnoresLeft(left, init, drop);
      } else {
        TrimLeftOnly(left, s, drop);
      }
    }
  }

  /* Decimal numbers. */

  predicate IsDigit(c: char) { '0' <= c <= '9' }

  predicate AllDigits(s: string) { forall i :: 0 <= i < |s| ==> IsDigit(s[i]) }

  function DigitChar(d: nat): (c: char)
    requires d < 10
    ensures IsDigit(c)
  {
    '0' + d as char
  }

  function Decimal(n: nat): (s: string)
    ensures s != "" && AllDigits(s)
  {
    if n < 10 then [DigitChar(n)] else Decimal(n / 10) + [DigitChar(n % 10)]
  }

  function DecimalValue(s: string): nat
    requires AllDigits(s)
  {
    if s == "" then 0
    else DecimalValue(s[..|s| - 1]) * 10 + (s[|s| - 1] as int - '0' as int)
  }

  lemma {:induction false} DecimalRoundTrip(n: nat)
    ensures DecimalValue(Decimal(n)) == n
  {
    if n < 10 {
      assert Decimal(n)[..0] == "";
    } else {
      DecimalRoundTrip(n / 10);
      var s := Decimal(n);
      assert s[..|s| - 1] == Decimal(n / 10);
    }
  }

  /** `strconv.ParseUint(s, 10, 64)`. */
  function ParseUint64(s: string): Option<nat> {
    if s != "" && AllDigits(s) && DecimalValue(s) < 0x1_0000_0000_0000_0000
    then Some(DecimalValue(s)) else None
  }

  lemma ParseUintDecimal(n: nat)
    ensures ParseUint64(Decimal(n)) == if n < 0x1_0000_0000_0000_0000 then Some(n) else None
  {
    DecimalRoundTrip(n);
  }

  /** `strconv.FormatInt(i, 10)` and `strconv.ParseInt(s, 10, 64)`. */
  function FormatInt(i: int): (s: string)
    ensures s != ""
  {
    if i < 0 then "-" + Decimal(-i) else Decimal(i)
  }

  function ParseInt64(s: string): Option<int> {
    var negative := s != "" && s[0] == '-';
    var digits := if s != "" && (s[0] == '-' || s[0] == '+') then s[1..] else s;
    if digits == "" || !AllDigits(digits) then None
    else
      var v := if negative then 0 - DecimalValue(digits) else DecimalValue(digits) as int;
      if -0x8000_0000_0000_0000 <= v < 0x8000_0000_0000_0000 then Some(v) else None
  }

  lemma ParseFormatInt(i: int)
    requires -0x8000_0000_0000_0000 <= i < 0x8000_0000_0000_0000
    ensures ParseInt64(FormatInt(i)) == Some(i)
  {
    var s := FormatInt(i);
    if i < 0 {
      DecimalRoundTrip(-i);
      assert s[1..] == Decimal(-i);
    } else {
      DecimalRoundTrip(i);
      assert IsDigit(s[0]);
    }
  }
}

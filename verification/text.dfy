/** Character classes, whitespace stripping, decimal numerals, joining, and the
    code-point ordering Python uses for `sorted` on strings. */
module Text {

  // ---------------------------------------------------------------------------
  // Character classes
  // ---------------------------------------------------------------------------

  /** An ASCII decimal digit (what `\d` and `int()` accept in this model). */
  predicate IsDigit(c: char) {
    '0' <= c <= '9'
  }

  /** The first character of a variable name: `[A-Za-z_]`. */
  predicate IsNameStart(c: char) {
    ('A' <= c <= 'Z') || ('a' <= c <= 'z') || c == '_'
  }

  /** A later character of a variable name: `[A-Za-z0-9_]`. */
  predicate IsNameChar(c: char) {
    IsNameStart(c) || IsDigit(c)
  }

  /** Python's `str.isspace()`: the characters `strip` and `lstrip` remove. */
  predicate IsSpace(c: char) {
    || ('\t' <= c <= '\r')
    || ('\U{1c}' <= c <= '\U{1f}')
    || c == ' '
    || c == '\U{85}'
    || c == '\U{a0}'
    || c == '\U{1680}'
    || ('\U{2000}' <= c <= '\U{200a}')
    || c == '\U{2028}'
    || c == '\U{2029}'
    || c == '\U{202f}'
    || c == '\U{205f}'
    || c == '\U{3000}'
  }

  datatype CharClass = Digits | NameChars

  predicate InClass(k: CharClass, c: char) {
    match k
    case Digits => IsDigit(c)
    case NameChars => IsNameChar(c)
  }

  predicate AllIn(k: CharClass, s: string) {
    forall i | 0 <= i < |s| :: InClass(k, s[i])
  }

  /** Length of the longest prefix of `s` drawn from class `k` (a greedy `\d+` or
      `[A-Za-z0-9_]*` repetition). */
  function RunLen(k: CharClass, s: string): (n: nat)
    ensures n <= |s|
    ensures AllIn(k, s[..n])
    ensures n == |s| || !InClass(k, s[n])
    decreases |s|
  {
    if s != [] && InClass(k, s[0]) then 1 + RunLen(k, s[1..]) else 0
  }

  /** A run cannot extend past a character outside its class. */
  lemma RunLenConcat(k: CharClass, a: string, b: string)
    requires b == [] || !InClass(k, b[0])
    ensures RunLen(k, a + b) == RunLen(k, a)
    decreases |a|
  {
    if a == [] {
      assert a + b == b;
    } else if InClass(k, a[0]) {
      assert (a + b)[1..] == a[1..] + b;
      RunLenConcat(k, a[1..], b);
    }
  }

  /** Slicing a concatenation at a point inside its left part. */
  lemma ConcatSlices<T>(a: seq<T>, b: seq<T>, m: nat)
    requires m <= |a|
    ensures (a + b)[..m] == a[..m]
    ensures (a + b)[m..] == a[m..] + b
  {
    assert |(a + b)[m..]| == |a[m..] + b|;
    forall i | 0 <= i < |a[m..] + b| ensures (a + b)[m..][i] == (a[m..] + b)[i] {
      if i < |a| - m {
        assert (a + b)[m + i] == a[m + i];
      } else {
        assert (a + b)[m + i] == b[i - (|a| - m)];
      }
    }
  }

  // ---------------------------------------------------------------------------
  // Decimal numerals
  // ---------------------------------------------------------------------------

  /** `int(d)` for a non-empty string of ASCII digits (leading zeros allowed). */
  function DigitsValue(d: string): nat
    requires AllIn(Digits, d)
    decreases |d|
  {
    if d == [] then 0
    else DigitsValue(d[..|d| - 1]) * 10 + (d[|d| - 1] as int - '0' as int)
  }

  function DigitChar(n: nat): (c: char)
    requires n < 10
    ensures IsDigit(c) && c as int - '0' as int == n
  {
    ('0' as int + n) as char
  }

  /** `str(n)` for a natural number: shortest decimal numeral. */
  function Dec(n: nat): (r: string)
    ensures |r| >= 1 && AllIn(Digits, r)
    ensures DigitsValue(r) == n
    ensures r[0] == '0' ==> n == 0
    ensures n == 0 ==> r == "0"
    ensures r[0] == '0' ==> r == "0"
    decreases n
  {
    if n < 10 then [DigitChar(n)]
    else
      var prefix := Dec(n / 10);
      var r := prefix + [DigitChar(n % 10)];
      assert r[..|r| - 1] == prefix;
      r
  }

  /** Distinct numbers have distinct numerals. */
  lemma DecInjective(a: nat, b: nat)
    requires Dec(a) == Dec(b)
    ensures a == b
  {
    assert DigitsValue(Dec(a)) == DigitsValue(Dec(b));
  }

  /** `str(i)` for a Python `int`: a minus sign before the numeral of a
      negative number, and no leading zero. */
  function IntStr(i: int): (r: string)
    ensures i >= 0 ==> AllIn(Digits, r) && r != [] && DigitsValue(r) == i && (r[0] == '0' ==> r == "0")
    ensures i < 0 ==> |r| >= 2 && r[0] == '-' && AllIn(Digits, r[1..]) && DigitsValue(r[1..]) == -i && r[1] != '0'
  {
    if i < 0 then "-" + Dec(-i) else Dec(i)
  }

  // ---------------------------------------------------------------------------
  // Stripping and joining
  // ---------------------------------------------------------------------------

  /** Python's `str.lstrip()`. */
  function LStrip(s: string): (r: string)
    ensures |r| <= |s| && r == s[|s| - |r|..]
    ensures forall i | 0 <= i < |s| - |r| :: IsSpace(s[i])
    ensures r == [] || !IsSpace(r[0])
    decreases |s|
  {
    if s != [] && IsSpace(s[0]) then LStrip(s[1..]) else s
  }

  /** Python's `str.rstrip()`. */
  function RStrip(s: string): (r: string)
    ensures |r| <= |s| && r == s[..|r|]
    ensures forall i | |r| <= i < |s| :: IsSpace(s[i])
    ensures r == [] || !IsSpace(r[|r| - 1])
    decreases |s|
  {
    if s != [] && IsSpace(s[|s| - 1]) then RStrip(s[..|s| - 1]) else s
  }

  /** A string with no leading or trailing whitespace. */
  predicate IsStripped(s: string) {
    s == [] || (!IsSpace(s[0]) && !IsSpace(s[|s| - 1]))
  }

  /** Python's `str.strip()`: `s` minus its leading and trailing whitespace. */
  function Strip(s: string): (r: string)
    ensures IsStripped(r)
    ensures exists i, j | 0 <= i <= j <= |s| :: r == s[i..j]
    ensures (forall i | 0 <= i < |s| :: IsSpace(s[i])) <==> r == []
  {
    StripBounds(s);
    RStrip(LStrip(s))
  }

  lemma StripBounds(s: string)
    ensures var l := LStrip(s); RStrip(l) == s[|s| - |l|..|s| - |l| + |RStrip(l)|]
    ensures var l := LStrip(s); RStrip(l) == [] && l != [] ==> IsSpace(l[0])
  {
  }

  /** `lstrip` removes exactly a whitespace prefix before a non-blank start. */
  lemma {:induction false} LStripAround(pre: string, rest: string)
    requires forall i | 0 <= i < |pre| :: IsSpace(pre[i])
    requires rest != [] && !IsSpace(rest[0])
    ensures LStrip(pre + rest) == rest
    decreases |pre|
  {
    if pre == [] {
      assert pre + rest == rest;
    } else {
      assert (pre + rest)[1..] == pre[1..] + rest;
      LStripAround(pre[1..], rest);
    }
  }

  /** `rstrip` removes exactly a whitespace suffix after a non-blank end. */
  lemma {:induction false} RStripAround(core: string, post: string)
    requires forall i | 0 <= i < |post| :: IsSpace(post[i])
    requires core != [] && !IsSpace(core[|core| - 1])
    ensures RStrip(core + post) == core
    decreases |post|
  {
    if post == [] {
      assert core + post == core;
    } else {
      var s := core + post;
      assert s[..|s| - 1] == core + post[..|post| - 1];
      RStripAround(core, post[..|post| - 1]);
    }
  }

  /** Stripping removes exactly the whitespace around a core that neither
      starts nor ends with whitespace. */
  lemma StripAround(pre: string, core: string, post: string)
    requires forall i | 0 <= i < |pre| :: IsSpace(pre[i])
    requires forall i | 0 <= i < |post| :: IsSpace(post[i])
    requires core != [] && !IsSpace(core[0]) && !IsSpace(core[|core| - 1])
    ensures LStrip(pre + core + post) == core + post
    ensures Strip(pre + core + post) == core
  {
    assert pre + core + post == pre + (core + post);
    LStripAround(pre, core + post);
    RStripAround(core, post);
  }

  /** `sep.join(parts)`. */
  function Join(sep: string, parts: seq<string>): string
    decreases |parts|
  {
    if parts == [] then ""
    else if |parts| == 1 then parts[0]
    else parts[0] + sep + Join(sep, parts[1..])
  }

  // ---------------------------------------------------------------------------
  // Ordering and sorting
  // ---------------------------------------------------------------------------

  /** Python's `<=` on `str`: lexicographic by code point. */
  predicate Le(a: string, b: string)
    decreases |a|
  {
    a == [] || (b != [] && (a[0] < b[0] || (a[0] == b[0] && Le(a[1..], b[1..]))))
  }

  lemma LeRefl(a: string)
    ensures Le(a, a)
    decreases |a|
  {
    if a != [] { LeRefl(a[1..]); }
  }

  lemma LeAntisym(a: string, b: string)
    requires Le(a, b) && Le(b, a)
    ensures a == b
    decreases |a|
  {
    if a != [] && b != [] && a[0] == b[0] { LeAntisym(a[1..], b[1..]); }
  }

  lemma LeTrans(a: string, b: string, c: string)
    requires Le(a, b) && Le(b, c)
    ensures Le(a, c)
    decreases |a|
  {
    if a != [] && b != [] && c != [] && a[0] == b[0] && b[0] == c[0] {
      LeTrans(a[1..], b[1..], c[1..]);
    }
  }

  lemma LeTotal(a: string, b: string)
    ensures Le(a, b) || Le(b, a)
    decreases |a|
  {
    if a != [] && b != [] && a[0] == b[0] { LeTotal(a[1..], b[1..]); }
  }

  predicate Sorted(s: seq<string>) {
    forall i, j | 0 <= i < j < |s| :: Le(s[i], s[j])
  }

  function Insert(x: string, s: seq<string>): (r: seq<string>)
    requires Sorted(s)
    ensures Sorted(r)
    ensures multiset(r) == multiset(s) + multiset{x}
    decreases |s|
  {
    if s == [] then [x]
    else if Le(x, s[0]) then
      InsertFront(x, s);
      [x] + s
    else
      var tail := Insert(x, s[1..]);
      InsertBehind(x, s, tail);
      [s[0]] + tail
  }

  lemma InsertFront(x: string, s: seq<string>)
    requires Sorted(s) && s != [] && Le(x, s[0])
    ensures Sorted([x] + s)
  {
    forall j | 0 <= j < |s| ensures Le(x, s[j]) {
      if j > 0 { LeTrans(x, s[0], s[j]); }
    }
  }

  lemma InsertBehind(x: string, s: seq<string>, tail: seq<string>)
    requires Sorted(s) && s != [] && !Le(x, s[0])
    requires Sorted(tail) && multiset(tail) == multiset(s[1..]) + multiset{x}
    ensures Sorted([s[0]] + tail)
    ensures multiset([s[0]] + tail) == multiset(s) + multiset{x}
  {
    assert s == [s[0]] + s[1..];
    LeTotal(x, s[0]);
    forall j | 0 <= j < |tail| ensures Le(s[0], tail[j]) {
      assert tail[j] in multiset(tail);
      if tail[j] != x {
        assert tail[j] in multiset(s[1..]);
        var k :| 0 <= k < |s[1..]| && s[1..][k] == tail[j];
        assert s[k + 1] == tail[j];
      }
    }
  }

  /** Python's `sorted` on a list of strings. */
  function Sort(s: seq<string>): (r: seq<string>)
    ensures Sorted(r)
    ensures multiset(r) == multiset(s)
    decreases |s|
  {
    if s == [] then []
    else
      assert s == [s[0]] + s[1..];
      Insert(s[0], Sort(s[1..]))
  }

  /** A sorted arrangement is determined by its multiset of elements, so the
      order in which a list was gathered cannot change what `sorted` returns. */
  lemma {:induction false} SortedUnique(a: seq<string>, b: seq<string>)
    requires Sorted(a) && Sorted(b)
    requires multiset(a) == multiset(b)
    ensures a == b
    decreases |a|
  {
    if a == [] {
      assert |multiset(b)| == 0;
    } else {
      assert |b| == |multiset(b)| == |multiset(a)| == |a|;
      SortedHeads(a, b);
      assert a == [a[0]] + a[1..];
      assert b == [b[0]] + b[1..];
      assert multiset(a[1..]) == multiset(a) - multiset{a[0]};
      assert multiset(b[1..]) == multiset(b) - multiset{b[0]};
      SortedUnique(a[1..], b[1..]);
    }
  }

  /** Two sorted lists with the same elements start with the same element. */
  lemma SortedHeads(a: seq<string>, b: seq<string>)
    requires Sorted(a) && Sorted(b) && a != [] && b != []
    requires multiset(a) == multiset(b)
    ensures a[0] == b[0]
  {
    assert a[0] in multiset(b);
    assert b[0] in multiset(a);
    var i :| 0 <= i < |a| && a[i] == b[0];
    var j :| 0 <= j < |b| && b[j] == a[0];
    LeRefl(a[0]);
    LeRefl(b[0]);
    assert Le(a[0], a[i]);
    assert Le(b[0], b[j]);
    LeAntisym(a[0], b[0]);
  }

  predicate IsLeast(m: string, s: set<string>) {
    m in s && forall x | x in s :: Le(m, x)
  }

  lemma {:induction false} LeastExists(s: set<string>)
    requires s != {}
    ensures exists m :: IsLeast(m, s)
    decreases |s|
  {
    var x :| x in s;
    LeRefl(x);
    if s - {x} == {} {
      assert s == {x};
      assert IsLeast(x, s);
    } else {
      LeastExists(s - {x});
      var m :| IsLeast(m, s - {x});
      LeTotal(x, m);
      if Le(x, m) {
        forall y | y in s ensures Le(x, y) {
          if y != x { LeTrans(x, m, y); }
        }
        assert IsLeast(x, s);
      } else {
        assert IsLeast(m, s);
      }
    }
  }

  lemma LeastUnique(s: set<string>)
    ensures forall m, n | IsLeast(m, s) && IsLeast(n, s) :: m == n
  {
    forall m, n | IsLeast(m, s) && IsLeast(n, s) ensures m == n {
      LeAntisym(m, n);
    }
  }

  /** The smallest string of a non-empty set. */
  function Least(s: set<string>): (m: string)
    requires s != {}
    ensures IsLeast(m, s)
  {
    LeastExists(s);
    LeastUnique(s);
    var m :| IsLeast(m, s);
    m
  }

  /** `sorted(keys)` for a set of distinct keys. */
  function SetToSorted(s: set<string>): (r: seq<string>)
    ensures Sorted(r)
    ensures |r| == |s|
    ensures forall x :: x in r <==> x in s
    ensures forall i, j | 0 <= i < j < |r| :: r[i] != r[j]
    decreases |s|
  {
    if s == {} then []
    else
      var m := Least(s);
      var rest := SetToSorted(s - {m});
      PrependLeast(m, s, rest);
      [m] + rest
  }

  lemma PrependLeast(m: string, s: set<string>, rest: seq<string>)
    requires IsLeast(m, s) && Sorted(rest)
    requires forall x :: x in rest ==> x in s
    ensures Sorted([m] + rest)
  {
    forall j | 0 <= j < |rest| ensures Le(m, rest[j]) {
      assert rest[j] in s;
    }
  }
}

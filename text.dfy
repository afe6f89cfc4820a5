/** The few Python string and sequence builtins that the document pipeline relies on,
    stated on `seq<char>` with the semantics of CPython 3: `str.split(sep)`, `str.split()`,
    `str.strip()`, `str.strip(chars)`, `str.join`, `str.endswith`, `str.replace` on one
    character, `str(int)` for naturals, and the slices `s[:n]` and `s[a:]`.
    Case mapping and `isalpha` are modelled on ASCII letters only. `random.shuffle`
    is modelled by `Permute`, which applies the permutation a Lehmer code selects. */
module Text {

  /** `str.isspace()` for one character: the characters CPython treats as whitespace
      in `split()` and `strip()`. */
  predicate IsSpace(c: char)
  {
    c == ' ' || ('\t' <= c <= '\r') || ('\U{1C}' <= c <= '\U{1F}')
    || c == '\U{85}' || c == '\U{A0}' || c == '\U{1680}'
    || ('\U{2000}' <= c <= '\U{200A}')
    || c == '\U{2028}' || c == '\U{2029}' || c == '\U{202F}' || c == '\U{205F}' || c == '\U{3000}'
  }

  /** No whitespace at either end: what `strip()` leaves. */
  predicate IsStripped(s: string)
  {
    s == [] || (!IsSpace(s[0]) && !IsSpace(s[|s| - 1]))
  }

  predicate IsUpperAscii(c: char) { 'A' <= c <= 'Z' }
  predicate IsLowerAscii(c: char) { 'a' <= c <= 'z' }
  predicate IsDigitAscii(c: char) { '0' <= c <= '9' }

  /** `str.isalpha()`: non-empty and made of letters. */
  predicate IsAlpha(s: string)
  {
    s != [] && forall i :: 0 <= i < |s| ==> IsUpperAscii(s[i]) || IsLowerAscii(s[i])
  }

  function LowerChar(c: char): char
  {
    if IsUpperAscii(c) then (c as int + 32) as char else c
  }

  function UpperChar(c: char): char
  {
    if IsLowerAscii(c) then (c as int - 32) as char else c
  }

  /** `str.lower()` */
  function Lower(s: string): (r: string)
    ensures |r| == |s|
    ensures forall i :: 0 <= i < |s| ==> r[i] == LowerChar(s[i])
  {
    seq(|s|, i requires 0 <= i < |s| => LowerChar(s[i]))
  }

  /** `str.upper()` */
  function Upper(s: string): (r: string)
    ensures |r| == |s|
    ensures forall i :: 0 <= i < |s| ==> r[i] == UpperChar(s[i])
  {
    seq(|s|, i requires 0 <= i < |s| => UpperChar(s[i]))
  }

  /** `s.replace(a, b)` for single characters `a` and `b`. */
  function ReplaceChar(s: string, a: char, b: char): (r: string)
    ensures |r| == |s|
    ensures forall i :: 0 <= i < |s| ==> r[i] == (if s[i] == a then b else s[i])
  {
    seq(|s|, i requires 0 <= i < |s| => if s[i] == a then b else s[i])
  }

  /** `s.endswith(suffix)` */
  predicate EndsWith(s: string, suffix: string)
  {
    |suffix| <= |s| && s[|s| - |suffix|..] == suffix
  }

  /** Python's `s[:n]` for any integer `n`. */
  function Prefix<T>(s: seq<T>, n: int): (r: seq<T>)
    ensures |r| <= |s|
    ensures r == s[..|r|]
    ensures 0 <= n ==> |r| == if n < |s| then n else |s|
  {
    if n >= 0 then (if n < |s| then s[..n] else s)
    else (if |s| + n > 0 then s[..|s| + n] else [])
  }

  /** Python's `s[a:]` for any integer `a`: a negative `a` counts from the end,
      so `s[-k:]` is the last `k` elements when `k > 0` and, for `k == 0`, all of `s`. */
  function SliceFrom<T>(s: seq<T>, a: int): (r: seq<T>)
    ensures |r| <= |s|
    ensures r == s[|s| - |r|..]
    ensures a < 0 ==> |r| == if -a < |s| then -a else |s|
    ensures a == 0 ==> r == s
  {
    if a >= 0 then (if a < |s| then s[a..] else [])
    else (if |s| + a > 0 then s[|s| + a..] else s)
  }

  /** Drops leading characters while `drop` holds. */
  function TrimLeft(s: string, drop: char -> bool): (r: string)
    ensures |r| <= |s| && r == s[|s| - |r|..]
    ensures r == [] || !drop(r[0])
    ensures forall i :: 0 <= i < |s| - |r| ==> drop(s[i])
    decreases |s|
  {
    if s != [] && drop(s[0]) then TrimLeft(s[1..], drop) else s
  }

  /** Drops trailing characters while `drop` holds. */
  function TrimRight(s: string, drop: char -> bool): (r: string)
    ensures |r| <= |s| && r == s[..|r|]
    ensures r == [] || !drop(r[|r| - 1])
    ensures forall i :: |r| <= i < |s| ==> drop(s[i])
    decreases |s|
  {
    if s != [] && drop(s[|s| - 1]) then TrimRight(s[..|s| - 1], drop) else s
  }

  /** `str.strip()` */
  function Strip(s: string): (r: string)
    ensures IsStripped(r)
    ensures |r| <= |s|
  {
    TrimRight(TrimLeft(s, IsSpace), IsSpace)
  }

  /** Every character of `s.strip()` is a character of `s`. */
  lemma StripWithin(s: string)
    ensures forall i :: 0 <= i < |Strip(s)| ==> Strip(s)[i] in s
  {
    var l := TrimLeft(s, IsSpace);
    var r := TrimRight(l, IsSpace);
    assert Strip(s) == r;
    forall i | 0 <= i < |r|
      ensures r[i] in s
    {
      var j := |s| - |l| + i;
      assert r[i] == l[i] == s[j];
    }
  }

  /** `str.strip(chars)` */
  function StripChars(s: string, chars: set<char>): (r: string)
    ensures |r| <= |s|
    ensures r == [] || (r[0] !in chars && r[|r| - 1] !in chars)
  {
    TrimRight(TrimLeft(s, c => c in chars), c => c in chars)
  }

  /** `strip()` removes exactly the whitespace at both ends: a stripped string is kept
      whole, and the result is empty precisely when the input is all whitespace. */
  lemma StripFacts(s: string)
    ensures IsStripped(s) ==> Strip(s) == s
    ensures Strip(s) == [] <==> forall i :: 0 <= i < |s| ==> IsSpace(s[i])
  {
    var l := TrimLeft(s, IsSpace);
    if IsStripped(s) && s != [] {
      assert l == s;
    }
    if Strip(s) == [] {
      assert l == [];
    }
  }

  /** The number of leading non-whitespace characters. */
  function WordLength(s: string): (n: nat)
    ensures 0 < |s| && !IsSpace(s[0]) ==> 0 < n
    ensures n <= |s|
    ensures forall i :: 0 <= i < n ==> !IsSpace(s[i])
    ensures n < |s| ==> IsSpace(s[n])
  {
    if s == [] || IsSpace(s[0]) then 0 else 1 + WordLength(s[1..])
  }

  /** `str.split()` with no separator: the maximal runs of non-whitespace, in order. */
  function Words(s: string): (ws: seq<string>)
    ensures forall k :: 0 <= k < |ws| ==> ws[k] != []
    ensures forall k :: 0 <= k < |ws| ==> forall i :: 0 <= i < |ws[k]| ==> !IsSpace(ws[k][i])
    decreases |s|
  {
    if s == [] then []
    else if IsSpace(s[0]) then Words(s[1..])
    else
      var n := WordLength(s);
      [s[..n]] + Words(s[n..])
  }

  /** `sep.join(parts)` */
  function Join(parts: seq<string>, sep: string): string
  {
    if parts == [] then ""
    else if |parts| == 1 then parts[0]
    else parts[0] + sep + Join(parts[1..], sep)
  }

  /** `s.split(sep)` for a non-empty separator: scanning from the left, every
      non-overlapping occurrence of `sep` ends one piece. */
  function Split(s: string, sep: string): (parts: seq<string>)
    requires sep != ""
    ensures |parts| >= 1
    ensures |parts| <= |s| + 1
    decreases |s|
  {
    if |s| < |sep| then [s]
    else if s[..|sep|] == sep then [""] + Split(s[|sep|..], sep)
    else
      var rest := Split(s[1..], sep);
      [[s[0]] + rest[0]] + rest[1..]
  }

  /** Joining a list whose first piece has a prefix `x` puts `x` in front. */
  lemma JoinPrefixFirst(x: string, parts: seq<string>, sep: string)
    requires parts != []
    ensures Join([x + parts[0]] + parts[1..], sep) == x + Join(parts, sep)
  {
    if |parts| > 1 {
      assert ([x + parts[0]] + parts[1..])[1..] == parts[1..];
    }
  }

  /** Splitting and joining back with the same separator is the identity. */
  lemma {:induction false} JoinSplit(s: string, sep: string)
    requires sep != ""
    ensures Join(Split(s, sep), sep) == s
    decreases |s|
  {
    if |s| < |sep| {
    } else if s[..|sep|] == sep {
      var rest := Split(s[|sep|..], sep);
      JoinSplit(s[|sep|..], sep);
      assert ([""] + rest)[1..] == rest;
      assert s == s[..|sep|] + s[|sep|..];
    } else {
      var rest := Split(s[1..], sep);
      JoinSplit(s[1..], sep);
      JoinPrefixFirst([s[0]], rest, sep);
      assert s == [s[0]] + s[1..];
    }
  }

  function DigitChar(d: nat): char
    requires d < 10
  {
    ('0' as int + d) as char
  }

  /** `str(n)` for a natural number: its decimal digits, without leading zeros. */
  function NatToString(n: nat): (r: string)
    ensures 1 <= |r|
    ensures forall i :: 0 <= i < |r| ==> IsDigitAscii(r[i])
    ensures r[|r| - 1] == DigitChar(n % 10)
    ensures n < 10 <==> |r| == 1
  {
    if n < 10 then [DigitChar(n)] else NatToString(n / 10) + [DigitChar(n % 10)]
  }

  /** Different numbers print differently, so ids built from an index are distinct. */
  lemma {:induction false} NatToStringInjective(a: nat, b: nat)
    requires NatToString(a) == NatToString(b)
    ensures a == b
    decreases a
  {
    var s := NatToString(a);
    assert DigitChar(a % 10) == DigitChar(b % 10);
    if a >= 10 {
      assert NatToString(a / 10) == s[..|s| - 1] == NatToString(b / 10);
      NatToStringInjective(a / 10, b / 10);
    }
  }

  /** Distinct elements (a Python list turned into a dict key set keeps the same). */
  predicate Distinct<T(==)>(s: seq<T>)
  {
    forall i, j :: 0 <= i < j < |s| ==> s[i] != s[j]
  }

  function ToSet<T>(s: seq<T>): set<T>
  {
    set x | x in s
  }

  /** A list without repetitions is no longer than the set it is drawn from. */
  lemma {:induction false} DistinctLength<T>(s: seq<T>, bound: set<T>)
    requires Distinct(s)
    requires forall x :: x in s ==> x in bound
    ensures |s| <= |bound|
    decreases |s|
  {
    if s != [] {
      var last := s[|s| - 1];
      assert forall x :: x in s[..|s| - 1] ==> x in bound - {last} by {
        forall x | x in s[..|s| - 1] ensures x in bound - {last} {
          var i :| 0 <= i < |s| - 1 && s[..|s| - 1][i] == x;
          assert s[i] == x;
        }
      }
      DistinctLength(s[..|s| - 1], bound - {last});
    }
  }

  /** A list has at least as many elements as the set of its values. */
  lemma {:induction false} SetLength<T>(s: seq<T>)
    ensures |ToSet(s)| <= |s|
    decreases |s|
  {
    if s != [] {
      var init := s[..|s| - 1];
      SetLength(init);
      assert ToSet(s) == ToSet(init) + {s[|s| - 1]} by {
        assert s == init + [s[|s| - 1]];
      }
    }
  }

  /** `random.shuffle`: the permutation selected by a Lehmer code (missing code
      entries count as 0). */
  function Permute<T>(xs: seq<T>, code: seq<nat>): (r: seq<T>)
    ensures |r| == |xs| && multiset(r) == multiset(xs)
    decreases |xs|
  {
    if xs == [] then []
    else
      var i := (if code == [] then 0 else code[0]) % |xs|;
      var rest := xs[..i] + xs[i + 1..];
      assert xs == xs[..i] + [xs[i]] + xs[i + 1..];
      assert multiset(xs) == multiset{xs[i]} + multiset(rest);
      [xs[i]] + Permute(rest, if code == [] then [] else code[1..])
  }

  /** Shuffling a list without repetitions gives a list without repetitions. */
  lemma {:induction false} PermuteDistinct<T>(xs: seq<T>, code: seq<nat>)
    requires Distinct(xs)
    ensures Distinct(Permute(xs, code))
    decreases |xs|
  {
    if xs != [] {
      var i := (if code == [] then 0 else code[0]) % |xs|;
      var rest := xs[..i] + xs[i + 1..];
      var tail := if code == [] then [] else code[1..];
      RemoveDistinct(xs, i);
      PermuteDistinct(rest, tail);
      var p := Permute(rest, tail);
      assert xs[i] !in multiset(p);
      ConsDistinct(xs[i], p);
    }
  }

  /** Removing one element keeps the others distinct and leaves no copy of it. */
  lemma RemoveDistinct<T>(xs: seq<T>, i: nat)
    requires Distinct(xs) && i < |xs|
    ensures Distinct(xs[..i] + xs[i + 1..])
    ensures xs[i] !in xs[..i] + xs[i + 1..]
  {
    var rest := xs[..i] + xs[i + 1..];
    forall a, b | 0 <= a < b < |rest| ensures rest[a] != rest[b] {
      var a' := if a < i then a else a + 1;
      var b' := if b < i then b else b + 1;
      assert rest[a] == xs[a'] && rest[b] == xs[b'];
    }
    forall k | 0 <= k < |rest| ensures rest[k] != xs[i] {
      var k' := if k < i then k else k + 1;
      assert rest[k] == xs[k'];
    }
  }

  lemma ConsDistinct<T>(x: T, p: seq<T>)
    requires Distinct(p) && x !in p
    ensures Distinct([x] + p)
  {
    var s := [x] + p;
    forall a, b | 0 <= a < b < |s| ensures s[a] != s[b] {
      assert s[b] == p[b - 1];
      if a > 0 {
        assert s[a] == p[a - 1];
      }
    }
  }

  /** A word followed by whitespace or nothing splits off as the first word. */
  lemma WordsOfWord(w: string, t: string)
    requires w != [] && forall i :: 0 <= i < |w| ==> !IsSpace(w[i])
    requires t == [] || IsSpace(t[0])
    ensures Words(w + t) == [w] + Words(t)
  {
    var s := w + t;
    var n := WordLength(s);
    assert forall i :: 0 <= i < |w| ==> s[i] == w[i];
    assert |t| > 0 ==> s[|w|] == t[0];
    assert n == |w|;
    assert s[..n] == w && s[n..] == t;
  }

  /** Words separated by single spaces split back into the same words. */
  lemma {:induction false} WordsJoin(ws: seq<string>)
    requires forall k :: 0 <= k < |ws| ==> ws[k] != [] && forall i :: 0 <= i < |ws[k]| ==> !IsSpace(ws[k][i])
    ensures Words(Join(ws, " ")) == ws
    decreases |ws|
  {
    if |ws| == 1 {
      WordsOfWord(ws[0], "");
      assert ws[0] + "" == ws[0];
    } else if |ws| > 1 {
      var tail := Join(ws[1..], " ");
      WordsJoin(ws[1..]);
      assert Words(" " + tail) == Words(tail) by {
        assert (" " + tail)[1..] == tail;
      }
      WordsOfWord(ws[0], " " + tail);
      assert Join(ws, " ") == ws[0] + (" " + tail);
      assert ws == [ws[0]] + ws[1..];
    }
  }
}

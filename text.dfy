/** Character classes and the string operations the checker leans on:
    `str.split`, `String.prototype.split`, `strip`/`trim`, substring tests
    and the decimal rendering of line numbers. */
module Text {

  /** The six ASCII whitespace characters: space, tab, line feed, carriage
      return, vertical tab and form feed. `\s`, `str.strip` and
      `String.prototype.trim` all count these as whitespace, and each of them
      counts further characters (in Python `\x1c`-`\x1f`, `\x85` and the
      Unicode spaces; in JavaScript `\xa0`, `\ufeff` and the Unicode spaces)
      that this predicate leaves out. */
  predicate IsSpace(c: char) {
    c == ' ' || c == '\t' || c == '\n' || c == '\r' || c == 11 as char || c == 12 as char
  }

  predicate IsDigit(c: char) { '0' <= c <= '9' }

  /** `[a-zA-Z_]` */
  predicate IsIdentStart(c: char) { 'a' <= c <= 'z' || 'A' <= c <= 'Z' || c == '_' }

  /** `[a-zA-Z0-9_]` */
  predicate IsIdentChar(c: char) { IsIdentStart(c) || IsDigit(c) }

  function Last<T>(s: seq<T>): T
    requires |s| > 0
  {
    s[|s| - 1]
  }

  function DropLast<T>(s: seq<T>): seq<T>
    requires |s| > 0
  {
    s[..|s| - 1]
  }

  predicate StartsWith(s: string, prefix: string) {
    |prefix| <= |s| && s[..|prefix|] == prefix
  }

  /** `pat in s` (Python) and `s.includes(pat)` (JavaScript). */
  predicate Contains(s: string, pat: string)
    decreases |s|
  {
    StartsWith(s, pat) || (|s| > 0 && Contains(s[1..], pat))
  }

  /** A pattern whose first character never occurs is nowhere in the string. */
  lemma {:induction false} AbsentFirstChar(s: string, pat: string)
    requires |pat| > 0 && pat[0] !in s
    ensures !Contains(s, pat)
    decreases |s|
  {
    if |s| > 0 {
      assert pat[0] !in s[1..];
      AbsentFirstChar(s[1..], pat);
    }
  }

  /** Contains is "occurs at some offset". */
  lemma {:induction false} ContainsAtOffset(s: string, pat: string)
    ensures Contains(s, pat) <==> exists k :: 0 <= k <= |s| && StartsWith(s[k..], pat)
    decreases |s|
  {
    if Contains(s, pat) {
      if !StartsWith(s, pat) {
        ContainsAtOffset(s[1..], pat);
        var k :| 0 <= k <= |s[1..]| && StartsWith(s[1..][k..], pat);
        assert s[1..][k..] == s[k + 1..];
      } else {
        assert s[0..] == s;
      }
    } else {
      forall k | 0 <= k <= |s|
        ensures !StartsWith(s[k..], pat)
      {
        if k == 0 {
          assert s[0..] == s;
        } else {
          ContainsAtOffset(s[1..], pat);
          assert s[1..][k - 1..] == s[k..];
        }
      }
    }
  }

  /** `s.split(sep)` for a one-character separator; Python and JavaScript
      agree here: every occurrence cuts, so n separators give n + 1 parts. */
  function Split(s: string, sep: char): (parts: seq<string>)
    ensures |parts| >= 1
    decreases |s|
  {
    if |s| == 0 then [""]
    else
      var tail := Split(s[1..], sep);
      if s[0] == sep then [""] + tail
      else [[s[0]] + tail[0]] + tail[1..]
  }

  /** `sep.join(parts)`, the inverse of Split. */
  function Join(parts: seq<string>, sep: char): string
    requires |parts| >= 1
    decreases |parts|
  {
    if |parts| == 1 then parts[0] else parts[0] + [sep] + Join(parts[1..], sep)
  }

  /** Splitting loses nothing: joining the parts back gives the input. */
  lemma {:induction false} JoinSplit(s: string, sep: char)
    ensures Join(Split(s, sep), sep) == s
    decreases |s|
  {
    if |s| > 0 {
      var tail := Split(s[1..], sep);
      JoinSplit(s[1..], sep);
      if s[0] == sep {
        assert Split(s, sep)[1..] == tail;
      } else {
        var parts := Split(s, sep);
        if |tail| == 1 {
          assert parts == [[s[0]] + tail[0]];
        } else {
          assert parts[1..] == tail[1..];
          assert Join(tail, sep) == tail[0] + [sep] + Join(tail[1..], sep);
        }
      }
    }
  }

  /** A separator in the input is exactly what makes a second part. */
  lemma {:induction false} SplitHasSecondPart(s: string, sep: char)
    ensures |Split(s, sep)| >= 2 <==> sep in s
    decreases |s|
  {
    if |s| > 0 {
      SplitHasSecondPart(s[1..], sep);
      assert sep in s <==> s[0] == sep || sep in s[1..];
    }
  }

  /** Splitting at a first separator: the text before it is the first part,
      and the rest splits on its own. */
  lemma {:induction false} SplitAtFirst(x: string, y: string, sep: char)
    requires sep !in x
    ensures Split(x + [sep] + y, sep) == [x] + Split(y, sep)
    decreases |x|
  {
    if |x| == 0 {
      assert x + [sep] + y == [sep] + y;
      assert ([sep] + y)[1..] == y;
    } else {
      SplitAtFirst(x[1..], y, sep);
      assert (x + [sep] + y)[1..] == x[1..] + [sep] + y;
      assert [x[0]] + x[1..] == x;
    }
  }

  /** A string without the separator is one part. */
  lemma {:induction false} SplitWithout(s: string, sep: char)
    requires sep !in s
    ensures Split(s, sep) == [s]
    decreases |s|
  {
    if |s| > 0 {
      SplitWithout(s[1..], sep);
      assert [s[0]] + s[1..] == s;
    }
  }

  /** Two separator-free texts joined by the separator split back into the two. */
  lemma SplitPair(x: string, y: string, sep: char)
    requires sep !in x && sep !in y
    ensures Split(x + [sep] + y, sep) == [x, y]
  {
    SplitAtFirst(x, y, sep);
    SplitWithout(y, sep);
  }

  /** Python's `s.split(sep, 1)`: cut at the first separator only. */
  function SplitOnce(s: string, sep: char): (parts: seq<string>)
    ensures 1 <= |parts| <= 2
    ensures |parts| == 2 <==> sep in s
    ensures |parts| == 1 ==> parts[0] == s
    ensures |parts| == 2 ==> s == parts[0] + [sep] + parts[1] && sep !in parts[0]
    decreases |s|
  {
    if |s| == 0 then [""]
    else if s[0] == sep then ["", s[1..]]
    else
      var tail := SplitOnce(s[1..], sep);
      assert sep in s <==> sep in s[1..];
      [[s[0]] + tail[0]] + tail[1..]
  }

  /** SplitOnce cuts at the first separator: before it and after it. */
  lemma {:induction false} SplitOnceAt(x: string, y: string, sep: char)
    requires sep !in x
    ensures SplitOnce(x + [sep] + y, sep) == [x, y]
    decreases |x|
  {
    var s := x + [sep] + y;
    if |x| == 0 {
      assert s == [sep] + y;
      assert s[1..] == y;
    } else {
      assert s[0] == x[0] != sep;
      assert s[1..] == x[1..] + [sep] + y;
      SplitOnceAt(x[1..], y, sep);
      var tail := SplitOnce(s[1..], sep);
      assert tail == [x[1..], y];
      assert SplitOnce(s, sep) == [[s[0]] + tail[0]] + tail[1..];
      assert [x[0]] + x[1..] == x;
    }
  }

  /** Splitting everywhere begins with the cut SplitOnce makes. */
  lemma SplitOnceIsFirstCut(s: string, sep: char)
    ensures var once := SplitOnce(s, sep);
            Split(s, sep) == [once[0]] + (if |once| == 2 then Split(once[1], sep) else [])
  {
    var once := SplitOnce(s, sep);
    if |once| == 2 {
      SplitAtFirst(once[0], once[1], sep);
    } else {
      SplitWithout(s, sep);
    }
  }

  /** JavaScript's `s.split(sep, limit)`: split everywhere, keep the first `limit` parts. */
  function SplitLimit(s: string, sep: char, limit: nat): seq<string> {
    var parts := Split(s, sep);
    if |parts| <= limit then parts else parts[..limit]
  }

  /** Python's `s.lstrip()` / JavaScript's `s.trimStart()`. */
  function TrimStart(s: string): (r: string)
    ensures |r| <= |s| && r == s[|s| - |r|..]
    ensures r == [] || !IsSpace(r[0])
    decreases |s|
  {
    if |s| > 0 && IsSpace(s[0]) then TrimStart(s[1..]) else s
  }

  /** What TrimStart drops is whitespace. */
  lemma {:induction false} TrimStartDropsSpaces(s: string)
    ensures forall k :: 0 <= k < |s| - |TrimStart(s)| ==> IsSpace(s[k])
    decreases |s|
  {
    if |s| > 0 && IsSpace(s[0]) {
      TrimStartDropsSpaces(s[1..]);
      forall k | 1 <= k < |s| - |TrimStart(s)| ensures IsSpace(s[k]) {
        assert s[k] == s[1..][k - 1];
      }
    }
  }

  /** Python's `s.rstrip()` / JavaScript's `s.trimEnd()`. */
  function TrimEnd(s: string): (r: string)
    ensures |r| <= |s| && r == s[..|r|]
    ensures r == [] || !IsSpace(r[|r| - 1])
    decreases |s|
  {
    if |s| > 0 && IsSpace(s[|s| - 1]) then TrimEnd(s[..|s| - 1]) else s
  }

  /** What TrimEnd drops is whitespace. */
  lemma {:induction false} TrimEndDropsSpaces(s: string)
    ensures forall k :: |TrimEnd(s)| <= k < |s| ==> IsSpace(s[k])
    decreases |s|
  {
    if |s| > 0 && IsSpace(s[|s| - 1]) {
      TrimEndDropsSpaces(s[..|s| - 1]);
      forall k | |TrimEnd(s)| <= k < |s| - 1 ensures IsSpace(s[k]) {
        assert s[k] == s[..|s| - 1][k];
      }
    }
  }

  /** Python's `s.strip()` / JavaScript's `s.trim()`. */
  function Strip(s: string): string {
    TrimEnd(TrimStart(s))
  }

  /** A string with no whitespace at either end is left as it is. */
  lemma StripUntouched(s: string)
    requires |s| > 0 && !IsSpace(s[0]) && !IsSpace(s[|s| - 1])
    ensures Strip(s) == s
  {
  }

  /** Strip removes whitespace at both ends and nothing else. */
  lemma StripIsInfix(s: string)
    ensures exists i, j ::
              (0 <= i <= j <= |s| && Strip(s) == s[i..j]
               && (forall k :: 0 <= k < i ==> IsSpace(s[k]))
               && (forall k :: j <= k < |s| ==> IsSpace(s[k])))
  {
    var i, j := StripCuts(s);
  }

  /** Where TrimStart cuts: only whitespace before `i`. */
  lemma TrimStartCut(s: string) returns (i: nat)
    ensures i <= |s| && TrimStart(s) == s[i..]
    ensures forall k :: 0 <= k < i ==> IsSpace(s[k])
  {
    i := |s| - |TrimStart(s)|;
    TrimStartDropsSpaces(s);
  }

  /** Where TrimEnd cuts: only whitespace from `m` on. */
  lemma TrimEndCut(t: string) returns (m: nat)
    ensures m <= |t| && TrimEnd(t) == t[..m]
    ensures forall k :: m <= k < |t| ==> IsSpace(t[k])
  {
    m := |TrimEnd(t)|;
    TrimEndDropsSpaces(t);
  }

  /** Where Strip cuts: `Strip(s)` is `s[i..j]`, with only whitespace before
      `i` and from `j` on. */
  lemma StripCuts(s: string) returns (i: nat, j: nat)
    ensures i <= j <= |s| && Strip(s) == s[i..j]
    ensures forall k :: 0 <= k < i ==> IsSpace(s[k])
    ensures forall k :: j <= k < |s| ==> IsSpace(s[k])
  {
    i := TrimStartCut(s);
    var t := s[i..];
    var m := TrimEndCut(t);
    j := i + m;
    assert t[..m] == s[i..j];
    ShiftSpaces(s, i, m);
  }

  /** Whitespace from offset `m` of the suffix `s[i..]` is whitespace from
      offset `i + m` of `s`. */
  lemma ShiftSpaces(s: string, i: nat, m: nat)
    requires i <= |s| && forall k :: m <= k < |s| - i ==> IsSpace(s[i..][k])
    ensures forall k :: i + m <= k < |s| ==> IsSpace(s[k])
  {
    forall k | i + m <= k < |s| ensures IsSpace(s[k]) {
      assert s[k] == s[i..][k - i];
    }
  }

  /** `map(str.strip, parts)` / `parts.map((s) => s.trim())`. */
  function StripAll(parts: seq<string>): (r: seq<string>)
    ensures |r| == |parts|
  {
    seq(|parts|, k requires 0 <= k < |parts| => Strip(parts[k]))
  }

  /** Stripping two parts strips each of them. */
  lemma StripAllPair(x: string, y: string)
    ensures StripAll([x, y]) == [Strip(x), Strip(y)]
  {
    var r := StripAll([x, y]);
    assert r[0] == Strip([x, y][0]) && r[1] == Strip([x, y][1]);
  }

  /** Stripping one part strips it. */
  lemma StripAllOne(x: string)
    ensures StripAll([x]) == [Strip(x)]
  {
    assert StripAll([x])[0] == Strip([x][0]);
  }

  /** Python's `s.replace(c, "")`: every occurrence removed. */
  function RemoveAll(s: string, c: char): (r: string)
    ensures c !in r
    ensures forall x :: x != c ==> multiset(r)[x] == multiset(s)[x]
    ensures c !in s ==> r == s
    decreases |s|
  {
    if |s| == 0 then ""
    else
      assert s == [s[0]] + s[1..];
      if s[0] == c then RemoveAll(s[1..], c) else [s[0]] + RemoveAll(s[1..], c)
  }

  /** Removal works piece by piece, so the kept characters stay in order. */
  lemma {:induction false} RemoveAllConcat(x: string, y: string, c: char)
    ensures RemoveAll(x + y, c) == RemoveAll(x, c) + RemoveAll(y, c)
    decreases |x|
  {
    if |x| > 0 {
      assert (x + y)[0] == x[0] && (x + y)[1..] == x[1..] + y;
      RemoveAllConcat(x[1..], y, c);
    } else {
      assert x + y == y;
    }
  }

  /** The index of the first `c` in `s`, or `|s|` when there is none. */
  function IndexOf(s: string, c: char): (k: nat)
    ensures k <= |s| && c !in s[..k]
    ensures k < |s| ==> s[k] == c
    decreases |s|
  {
    if |s| == 0 then 0
    else if s[0] == c then 0
    else
      var k := IndexOf(s[1..], c);
      assert s[..k + 1] == [s[0]] + s[1..][..k];
      k + 1
  }

  /** JavaScript's `s.replace(c, "")` with a string pattern: only the first occurrence goes. */
  function RemoveFirst(s: string, c: char): (r: string)
    ensures c !in s ==> r == s
    ensures c in s ==> |r| == |s| - 1 && exists k :: 0 <= k < |s| && s[k] == c && c !in s[..k] && r == s[..k] + s[k + 1..]
  {
    var k := IndexOf(s, c);
    if k == |s| then s else s[..k] + s[k + 1..]
  }

  function DigitChar(d: nat): char
    requires d < 10
  {
    ['0', '1', '2', '3', '4', '5', '6', '7', '8', '9'][d]
  }

  /** The decimal text of a line number, as an f-string or template literal renders it. */
  function Decimal(n: nat): (r: string)
    ensures |r| >= 1 && forall k :: 0 <= k < |r| ==> IsDigit(r[k])
    ensures |r| > 1 ==> r[0] != '0'
    decreases n
  {
    if n < 10 then [DigitChar(n)] else Decimal(n / 10) + [DigitChar(n % 10)]
  }

  /** The value of a string of decimal digits. */
  function DecimalValue(s: string): nat
    requires forall k :: 0 <= k < |s| ==> IsDigit(s[k])
    decreases |s|
  {
    if |s| == 0 then 0
    else
      assert IsDigit(s[|s| - 1]);
      10 * DecimalValue(s[..|s| - 1]) + (s[|s| - 1] as int - '0' as int)
  }

  /** Rendering a line number and reading it back gives the number. */
  lemma {:induction false} DecimalRoundTrip(n: nat)
    ensures DecimalValue(Decimal(n)) == n
    decreases n
  {
    if n >= 10 {
      DecimalRoundTrip(n / 10);
      assert Decimal(n)[..|Decimal(n)| - 1] == Decimal(n / 10);
    }
  }
}

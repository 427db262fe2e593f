/** The string operations the day modules use, with Python's semantics:
    `str.split(sep)`, `str.split()`, `str.strip()`, `str.find`, slicing with
    negative and out-of-range bounds, indexing with negative indexes,
    `re.sub(' +', ' ', s)` and `int(s)`.  Each is stated once here and the day
    modules parse their input with them. */
module Text {
  import opened Wrappers

  /** The ASCII digits `0`..`9`: the digits `int()` gives a value to here.
      Python's `str.isdigit` also holds for other Unicode digits. */
  predicate IsDigit(c: char) { '0' <= c <= '9' }

  /** The ASCII characters Python's `str.isspace` accepts, which are also
      what `str.split()` and `str.strip()` remove: `\t` to `\r`, the
      separators `\x1c` to `\x1f`, and the space. */
  predicate IsSpace(c: char) {
    c == ' ' || '\t' <= c <= '\r' || '\U{001C}' <= c <= '\U{001F}'
  }

  predicate AllDigits(s: string) { forall i :: 0 <= i < |s| ==> IsDigit(s[i]) }

  function DigitValue(c: char): (d: nat)
    requires IsDigit(c)
    ensures d < 10
  {
    (c as int) - ('0' as int)
  }

  function DigitChar(d: nat): (c: char)
    requires d < 10
    ensures IsDigit(c) && DigitValue(c) == d
  {
    (('0' as int) + d) as char
  }

  // ---------------------------------------------------------------------------
  // Searching

  /** `sep` occurs in `s` starting at index `i`. */
  predicate OccursAt(s: string, sep: string, i: nat) {
    i + |sep| <= |s| && s[i..i + |sep|] == sep
  }

  /** An occurrence in a suffix is an occurrence in the whole string. */
  lemma OccursAtInSuffix(s: string, sep: string, off: nat, j: nat)
    requires off <= |s|
    ensures OccursAt(s[off..], sep, j) <==> OccursAt(s, sep, off + j)
  {
    if j + |sep| <= |s| - off {
      assert s[off..][j..j + |sep|] == s[off + j..off + j + |sep|];
    }
  }

  /** Python's `sub in s`. */
  predicate Contains(s: string, sub: string) {
    exists i: nat | i <= |s| :: OccursAt(s, sub, i)
  }

  /** Python's `s.find(sep, from)`: the first index at or after `from` where
      `sep` occurs, or -1 when there is none. */
  function Find(s: string, sep: string, from: nat): (r: int)
    ensures r == -1 || (from <= r && r + |sep| <= |s|)
    decreases |s| + 1 - from
  {
    if from + |sep| > |s| then -1
    else if s[from..from + |sep|] == sep then from
    else Find(s, sep, from + 1)
  }

  /** `find` returns the first occurrence at or after `from`, and -1 exactly
      when there is none. */
  lemma {:induction false} FindIsFirstOccurrence(s: string, sep: string, from: nat)
    ensures Find(s, sep, from) == -1 || OccursAt(s, sep, Find(s, sep, from))
    ensures Find(s, sep, from) == -1 ==> forall i: nat :: from <= i ==> !OccursAt(s, sep, i)
    ensures Find(s, sep, from) >= 0 ==> forall i: nat :: from <= i < Find(s, sep, from) ==> !OccursAt(s, sep, i)
    decreases |s| + 1 - from
  {
    if from + |sep| <= |s| && s[from..from + |sep|] != sep {
      FindIsFirstOccurrence(s, sep, from + 1);
    }
  }

  /** Python's `s.find(c)` for a single character. */
  function FindChar(s: string, c: char): (r: int)
    ensures -1 <= r < |s|
    ensures r >= 0 ==> s[r] == c && forall i :: 0 <= i < r ==> s[i] != c
    ensures r == -1 ==> forall i :: 0 <= i < |s| ==> s[i] != c
  {
    var r := Find(s, [c], 0);
    FindIsFirstOccurrence(s, [c], 0);
    assert forall i: nat :: i < |s| ==> (OccursAt(s, [c], i) <==> s[i] == c) by {
      forall i: nat | i < |s| ensures OccursAt(s, [c], i) <==> s[i] == c {
        assert s[i..i + 1] == [s[i]];
      }
    }
    r
  }

  // ---------------------------------------------------------------------------
  // Splitting and joining

  /** Python's `s.split(sep)` for a non-empty separator: the pieces between
      the non-overlapping occurrences of `sep`, found left to right. */
  function Split(s: string, sep: string): (parts: seq<string>)
    requires |sep| > 0
    ensures |parts| >= 1
    decreases |s|
  {
    var i := Find(s, sep, 0);
    if i < 0 then [s] else [s[..i]] + Split(s[i + |sep|..], sep)
  }

  /** Python's `sep.join(parts)`. */
  function Join(parts: seq<string>, sep: string): string
    requires |parts| >= 1
  {
    if |parts| == 1 then parts[0] else parts[0] + sep + Join(parts[1..], sep)
  }

  /** A character in none of the parts and not in the separator is not in
      their join. */
  lemma {:induction false} JoinLacks(parts: seq<string>, sep: string, c: char)
    requires |parts| >= 1 && c !in sep
    requires forall k :: 0 <= k < |parts| ==> c !in parts[k]
    ensures c !in Join(parts, sep)
  {
    if |parts| > 1 {
      JoinLacks(parts[1..], sep, c);
    }
  }

  /** Splitting loses nothing: joining the pieces with the separator gives the
      original string back. */
  lemma {:induction false} SplitJoin(s: string, sep: string)
    requires |sep| > 0
    ensures Join(Split(s, sep), sep) == s
    decreases |s|
  {
    var i := Find(s, sep, 0);
    if i >= 0 {
      assert OccursAt(s, sep, i) by { FindIsFirstOccurrence(s, sep, 0); }
      var rest := s[i + |sep|..];
      var parts := Split(rest, sep);
      SplitJoin(rest, sep);
      assert Split(s, sep) == [s[..i]] + parts;
      assert ([s[..i]] + parts)[1..] == parts;
      assert Join([s[..i]] + parts, sep) == s[..i] + sep + Join(parts, sep);
      assert s == s[..i] + sep + rest;
    }
  }

  /** No piece of a split contains the separator. */
  lemma {:induction false} SplitPiecesLackSeparator(s: string, sep: string)
    requires |sep| > 0
    ensures forall k :: 0 <= k < |Split(s, sep)| ==> !Contains(Split(s, sep)[k], sep)
    decreases |s|
  {
    var i := Find(s, sep, 0);
    FindIsFirstOccurrence(s, sep, 0);
    if i < 0 {
      assert Split(s, sep) == [s];
    } else {
      var first := s[..i];
      var rest := s[i + |sep|..];
      SplitPiecesLackSeparator(rest, sep);
      assert !Contains(first, sep) by {
        forall j: nat | j <= |first| ensures !OccursAt(first, sep, j) {
          if OccursAt(first, sep, j) {
            assert first[j..j + |sep|] == s[j..j + |sep|];
            assert OccursAt(s, sep, j);
          }
        }
      }
      var tail := Split(rest, sep);
      var parts := [first] + tail;
      assert Split(s, sep) == parts;
      forall k | 0 <= k < |parts| ensures !Contains(parts[k], sep) {
        if k > 0 {
          assert parts[k] == tail[k - 1];
        }
      }
    }
  }

  /** `s.split(c)` where the first `c` is at index `i`. */
  lemma SplitAtFirstChar(s: string, c: char, i: nat)
    requires i < |s| && s[i] == c
    requires forall j :: 0 <= j < i ==> s[j] != c
    ensures Split(s, [c]) == [s[..i]] + Split(s[i + 1..], [c])
  {
    assert FindChar(s, c) == i;
  }

  /** A string without `c` splits into itself alone. */
  lemma SplitWithoutChar(s: string, c: char)
    requires forall j :: 0 <= j < |s| ==> s[j] != c
    ensures Split(s, [c]) == [s]
  {
    assert FindChar(s, c) == -1;
  }

  /** A string with exactly one `c` splits at it into the two sides. */
  lemma SplitAtOnlyChar(head: string, tail: string, c: char)
    requires forall j :: 0 <= j < |head| ==> head[j] != c
    requires forall j :: 0 <= j < |tail| ==> tail[j] != c
    ensures Split(head + [c] + tail, [c]) == [head, tail]
  {
    var s := head + [c] + tail;
    assert s[..|head|] == head;
    assert s[|head| + 1..] == tail;
    SplitAtFirstChar(s, c, |head|);
    SplitWithoutChar(tail, c);
  }

  /** A string whose only occurrence of the separator `sep` is the one
      between `head` and `tail` (neither contains the first character of
      `sep`) splits into the two sides. */
  lemma SplitAtOnlySep(head: string, tail: string, sep: string)
    requires |sep| > 0
    requires forall j :: 0 <= j < |head| ==> head[j] != sep[0]
    requires forall j :: 0 <= j < |tail| ==> tail[j] != sep[0]
    ensures Split(head + sep + tail, sep) == [head, tail]
  {
    var s := head + sep + tail;
    assert s[..|head|] == head;
    assert s[|head| + |sep|..] == tail;
    FindAfterHead(head, tail, sep);
    FindNone(tail, sep);
  }

  /** No occurrence of `sep` starts at a character other than `sep[0]`. */
  lemma NoOccurrenceBefore(s: string, sep: string, n: nat)
    requires |sep| > 0 && n <= |s|
    requires forall j :: 0 <= j < n ==> s[j] != sep[0]
    ensures forall i: nat :: i < n ==> !OccursAt(s, sep, i)
  {
    forall i: nat | i < n ensures !OccursAt(s, sep, i) {
      if i + |sep| <= |s| {
        assert s[i..i + |sep|][0] == s[i];
      }
    }
  }

  lemma FindAfterHead(head: string, tail: string, sep: string)
    requires |sep| > 0
    requires forall j :: 0 <= j < |head| ==> head[j] != sep[0]
    ensures Find(head + sep + tail, sep, 0) == |head|
  {
    var s := head + sep + tail;
    assert OccursAt(s, sep, |head|) by {
      assert s[|head|..|head| + |sep|] == sep;
    }
    assert forall j :: 0 <= j < |head| ==> s[j] != sep[0];
    NoOccurrenceBefore(s, sep, |head|);
    FindIsFirstOccurrence(s, sep, 0);
  }

  lemma FindNone(tail: string, sep: string)
    requires |sep| > 0
    requires forall j :: 0 <= j < |tail| ==> tail[j] != sep[0]
    ensures Find(tail, sep, 0) == -1
  {
    NoOccurrenceBefore(tail, sep, |tail|);
    FindIsFirstOccurrence(tail, sep, 0);
  }


  /** Joining pieces that do not contain `c` with `c` and splitting the
      result at `c` gives the pieces back. */
  lemma {:induction false} SplitOfJoin(parts: seq<string>, c: char)
    requires |parts| >= 1
    requires forall k, j :: 0 <= k < |parts| && 0 <= j < |parts[k]| ==> parts[k][j] != c
    ensures Split(Join(parts, [c]), [c]) == parts
  {
    if |parts| == 1 {
      SplitWithoutChar(parts[0], c);
    } else {
      var rest := Join(parts[1..], [c]);
      var s := Join(parts, [c]);
      var i := |parts[0]|;
      assert s == parts[0] + [c] + rest;
      assert s[..i] == parts[0];
      assert s[i + 1..] == rest;
      SplitAtFirstChar(s, c, i);
      SplitOfJoin(parts[1..], c);
      assert parts == [parts[0]] + parts[1..];
    }
  }

  /** The longest prefix of `s` without whitespace. */
  function Word(s: string): (w: string)
    ensures |w| <= |s| && w == s[..|w|]
    ensures forall j :: 0 <= j < |w| ==> !IsSpace(w[j])
    ensures |w| < |s| ==> IsSpace(s[|w|])
  {
    if s == [] || IsSpace(s[0]) then [] else [s[0]] + Word(s[1..])
  }

  /** Python's `s.split()`: the maximal runs of non-whitespace, in order. */
  function SplitWs(s: string): (words: seq<string>)
    ensures forall k :: 0 <= k < |words| ==> |words[k]| > 0
    ensures forall k, j :: 0 <= k < |words| && 0 <= j < |words[k]| ==> !IsSpace(words[k][j])
    decreases |s|
  {
    if s == [] then []
    else if IsSpace(s[0]) then SplitWs(s[1..])
    else
      var w := Word(s);
      [w] + SplitWs(s[|w|..])
  }

  /** A word followed by whitespace is read off whole. */
  lemma {:induction false} WordBeforeSpace(w: string, rest: string)
    requires forall j :: 0 <= j < |w| ==> !IsSpace(w[j])
    requires rest == [] || IsSpace(rest[0])
    ensures Word(w + rest) == w
  {
    if w != [] {
      assert (w + rest)[1..] == w[1..] + rest;
      WordBeforeSpace(w[1..], rest);
    } else {
      assert w + rest == rest;
    }
  }

  /** Words without whitespace joined by single spaces split back into the
      words. */
  lemma {:induction false} SplitWsOfJoin(parts: seq<string>)
    requires |parts| >= 1
    requires forall k :: 0 <= k < |parts| ==> |parts[k]| > 0
    requires forall k, j :: 0 <= k < |parts| && 0 <= j < |parts[k]| ==> !IsSpace(parts[k][j])
    ensures SplitWs(Join(parts, " ")) == parts
  {
    if |parts| == 1 {
      var w := parts[0];
      assert Join(parts, " ") == w;
      WordBeforeSpace(w, []);
      assert w + [] == w;
      assert w[|w|..] == [];
    } else {
      var w := parts[0];
      var rest := Join(parts[1..], " ");
      var s := Join(parts, " ");
      assert s == w + (" " + rest);
      WordBeforeSpace(w, " " + rest);
      assert s[|w|..] == " " + rest;
      assert (" " + rest)[1..] == rest;
      SplitWsOfJoin(parts[1..]);
      assert parts == [w] + parts[1..];
    }
  }

  function Concat(parts: seq<string>): string {
    if parts == [] then [] else parts[0] + Concat(parts[1..])
  }

  /** `s` with its whitespace taken out. */
  function RemoveSpaces(s: string): string {
    if s == [] then [] else (if IsSpace(s[0]) then [] else [s[0]]) + RemoveSpaces(s[1..])
  }

  lemma {:induction false} RemoveSpacesAppend(a: string, b: string)
    ensures RemoveSpaces(a + b) == RemoveSpaces(a) + RemoveSpaces(b)
  {
    if a != [] {
      var head := if IsSpace(a[0]) then [] else [a[0]];
      assert (a + b)[0] == a[0];
      assert (a + b)[1..] == a[1..] + b;
      RemoveSpacesAppend(a[1..], b);
      calc {
        RemoveSpaces(a + b);
        head + RemoveSpaces(a[1..] + b);
        head + (RemoveSpaces(a[1..]) + RemoveSpaces(b));
        (head + RemoveSpaces(a[1..])) + RemoveSpaces(b);
      }
    } else {
      assert a + b == b;
    }
  }

  lemma {:induction false} RemoveSpacesOfWord(w: string)
    requires forall j :: 0 <= j < |w| ==> !IsSpace(w[j])
    ensures RemoveSpaces(w) == w
  {
    if w != [] {
      RemoveSpacesOfWord(w[1..]);
    }
  }

  /** Splitting on whitespace keeps every other character, in order. */
  lemma {:induction false} SplitWsKeepsText(s: string)
    ensures Concat(SplitWs(s)) == RemoveSpaces(s)
    decreases |s|
  {
    if s == [] {
    } else if IsSpace(s[0]) {
      SplitWsKeepsText(s[1..]);
    } else {
      var w := Word(s);
      SplitWsKeepsText(s[|w|..]);
      assert s == w + s[|w|..];
      RemoveSpacesAppend(w, s[|w|..]);
      RemoveSpacesOfWord(w);
      assert SplitWs(s) == [w] + SplitWs(s[|w|..]);
      assert Concat([w] + SplitWs(s[|w|..])) == w + Concat(SplitWs(s[|w|..]));
    }
  }

  // ---------------------------------------------------------------------------
  // Stripping and collapsing

  /** The number of leading whitespace characters of `s`. */
  function LeadingSpaces(s: string): (n: nat)
    ensures n <= |s|
  {
    if s == [] || !IsSpace(s[0]) then 0 else 1 + LeadingSpaces(s[1..])
  }

  /** The leading run is whitespace and ends at a non-whitespace character. */
  lemma {:induction false} LeadingSpacesAreMaximal(s: string)
    ensures forall j :: 0 <= j < LeadingSpaces(s) ==> IsSpace(s[j])
    ensures LeadingSpaces(s) < |s| ==> !IsSpace(s[LeadingSpaces(s)])
  {
    if s != [] && IsSpace(s[0]) {
      LeadingSpacesAreMaximal(s[1..]);
    }
  }

  /** The number of trailing whitespace characters of `s`. */
  function TrailingSpaces(s: string): (n: nat)
    ensures n <= |s|
  {
    if s == [] || !IsSpace(s[|s| - 1]) then 0 else 1 + TrailingSpaces(s[..|s| - 1])
  }

  /** The trailing run is whitespace and starts after a non-whitespace
      character. */
  lemma {:induction false} TrailingSpacesAreMaximal(s: string)
    ensures forall j :: |s| - TrailingSpaces(s) <= j < |s| ==> IsSpace(s[j])
    ensures TrailingSpaces(s) < |s| ==> !IsSpace(s[|s| - 1 - TrailingSpaces(s)])
  {
    if s != [] && IsSpace(s[|s| - 1]) {
      TrailingSpacesAreMaximal(s[..|s| - 1]);
    }
  }

  /** Python's `s.strip()`: `s` without its leading and trailing whitespace. */
  function Strip(s: string): (r: string)
    ensures |r| <= |s|
  {
    var a := LeadingSpaces(s);
    var t := s[a..];
    var n := TrailingSpaces(t);
    t[..|t| - n]
  }

  /** `strip` removes exactly the whitespace at both ends: what is left is a
      slice of `s` that neither starts nor ends with whitespace, and
      everything cut off is whitespace. */
  lemma StripRemovesOuterWhitespace(s: string)
    ensures Strip(s) == [] || (!IsSpace(Strip(s)[0]) && !IsSpace(Strip(s)[|Strip(s)| - 1]))
    ensures exists a, b ::
      (0 <= a <= b <= |s| && Strip(s) == s[a..b]
       && (forall j :: 0 <= j < a ==> IsSpace(s[j])) && (forall j :: b <= j < |s| ==> IsSpace(s[j])))
  {
    var a := LeadingSpaces(s);
    var t := s[a..];
    var n := TrailingSpaces(t);
    LeadingSpacesAreMaximal(s);
    TrailingSpacesAreMaximal(t);
    var r := t[..|t| - n];
    assert r == s[a..a + |t| - n];
    forall j | a + |t| - n <= j < |s| ensures IsSpace(s[j]) {
      assert s[j] == t[j - a];
    }
  }

  /** Python's `re.sub(' +', ' ', s)`: every run of spaces becomes one space. */
  function CollapseSpaces(s: string): (r: string)
    ensures |r| <= |s|
    ensures r == [] <==> s == []
    ensures r != [] ==> r[0] == s[0]
    ensures forall i :: 0 <= i < |r| - 1 ==> !(r[i] == ' ' && r[i + 1] == ' ')
    decreases |s|
  {
    if s == [] then []
    else if |s| >= 2 && s[0] == ' ' && s[1] == ' ' then CollapseSpaces(s[1..])
    else [s[0]] + CollapseSpaces(s[1..])
  }

  /** Collapsing runs of spaces only ever removes spaces. */
  lemma {:induction false} CollapseSpacesRemovesOnlySpaces(s: string)
    ensures RemoveSpaces(CollapseSpaces(s)) == RemoveSpaces(s)
    decreases |s|
  {
    if s != [] {
      CollapseSpacesRemovesOnlySpaces(s[1..]);
      if !(|s| >= 2 && s[0] == ' ' && s[1] == ' ') {
        var r := CollapseSpaces(s);
        assert r == [s[0]] + CollapseSpaces(s[1..]);
        assert r[1..] == CollapseSpaces(s[1..]);
      }
    }
  }

  /** No two spaces in a row. */
  predicate NoDoubleSpace(s: string) {
    forall i :: 0 <= i < |s| - 1 ==> !(s[i] == ' ' && s[i + 1] == ' ')
  }

  /** Collapsing leaves a string without two spaces in a row unchanged, so
      collapsing twice is collapsing once. */
  lemma {:induction false} CollapseSpacesKeeps(s: string)
    requires NoDoubleSpace(s)
    ensures CollapseSpaces(s) == s
    decreases |s|
  {
    if s != [] {
      assert NoDoubleSpace(s[1..]) by {
        forall i | 0 <= i < |s[1..]| - 1 ensures !(s[1..][i] == ' ' && s[1..][i + 1] == ' ') {
          assert s[1..][i] == s[i + 1] && s[1..][i + 1] == s[i + 2];
        }
      }
      CollapseSpacesKeeps(s[1..]);
      assert s == [s[0]] + s[1..];
    }
  }

  lemma CollapseSpacesIdempotent(s: string)
    ensures CollapseSpaces(CollapseSpaces(s)) == CollapseSpaces(s)
  {
    CollapseSpacesKeeps(CollapseSpaces(s));
  }

  /** Two strings without double spaces stay so when put together, unless
      the first ends and the second starts with a space. */
  lemma NoDoubleSpaceAppend(a: string, b: string)
    requires NoDoubleSpace(a) && NoDoubleSpace(b)
    requires a == [] || b == [] || a[|a| - 1] != ' ' || b[0] != ' '
    ensures NoDoubleSpace(a + b)
  {
    var s := a + b;
    forall i | 0 <= i < |s| - 1 ensures !(s[i] == ' ' && s[i + 1] == ' ') {
      if i + 1 < |a| {
        assert s[i] == a[i] && s[i + 1] == a[i + 1];
      } else if i >= |a| {
        assert s[i] == b[i - |a|] && s[i + 1] == b[i + 1 - |a|];
      } else {
        assert s[i] == a[|a| - 1] && s[i + 1] == b[0];
      }
    }
  }

  /** Stripping text that neither starts nor ends with whitespace, padded
      with one space on the left and `right` spaces (0 or 1) on the right,
      gives the text back. */
  lemma StripPadded(t: string, right: bool)
    requires |t| > 0 && !IsSpace(t[0]) && !IsSpace(t[|t| - 1])
    ensures Strip(" " + t + (if right then " " else "")) == t
  {
    var post: string := if right then " " else "";
    var s := " " + t + post;
    assert s[1..] == t + post;
    assert (t + post)[0] == t[0];
    assert LeadingSpaces(s) == 1;
    if right {
      assert (t + post)[..|t|] == t;
      assert TrailingSpaces(t + post) == 1;
    } else {
      assert t + post == t;
    }
  }

  /** Stripping text that neither starts nor ends with whitespace, after
      one space, gives the text back. */
  lemma StripLeadingSpace(t: string)
    requires |t| > 0 && !IsSpace(t[0]) && !IsSpace(t[|t| - 1])
    ensures Strip(" " + t) == t
  {
    StripPadded(t, false);
    assert " " + t + "" == " " + t;
  }

  /** Stripping text that neither starts nor ends with whitespace, followed
      by one space, gives the text back. */
  lemma StripTrailingSpace(t: string)
    requires |t| > 0 && !IsSpace(t[0]) && !IsSpace(t[|t| - 1])
    ensures Strip(t + " ") == t
  {
    var s := t + " ";
    assert s[0] == t[0];
    assert LeadingSpaces(s) == 0;
    assert s[0..] == s;
    assert s[..|t|] == t;
    assert TrailingSpaces(s) == 1;
  }

  /** A string that neither starts nor ends with whitespace is its own strip. */
  lemma StripUnpadded(t: string)
    requires |t| > 0 && !IsSpace(t[0]) && !IsSpace(t[|t| - 1])
    ensures Strip(t) == t
  {
    assert LeadingSpaces(t) == 0;
    assert t[0..] == t;
    assert TrailingSpaces(t) == 0;
  }

  // ---------------------------------------------------------------------------
  // Integers

  /** The value of a string of decimal digits. */
  function DigitsValue(s: string): nat
    requires AllDigits(s)
  {
    if s == [] then 0 else 10 * DigitsValue(s[..|s| - 1]) + DigitValue(s[|s| - 1])
  }

  function Pow10(n: nat): (p: nat)
    ensures p >= 1
  {
    if n == 0 then 1 else 10 * Pow10(n - 1)
  }

  /** Writing two digit strings next to each other: the value of the first is
      shifted left by the length of the second. */
  lemma {:induction false} DigitsValueAppend(a: string, b: string)
    requires AllDigits(a) && AllDigits(b)
    ensures AllDigits(a + b)
    ensures DigitsValue(a + b) == DigitsValue(a) * Pow10(|b|) + DigitsValue(b)
    decreases |b|
  {
    AllDigitsAppend(a, b);
    if b != [] {
      var b' := b[..|b| - 1];
      var d := DigitValue(b[|b| - 1]);
      var ab := a + b;
      assert ab[..|ab| - 1] == a + b';
      assert ab[|ab| - 1] == b[|b| - 1];
      DigitsValueAppend(a, b');
      assert DigitsValue(ab) == 10 * DigitsValue(a + b') + d;
      assert DigitsValue(b) == 10 * DigitsValue(b') + d;
      assert Pow10(|b|) == 10 * Pow10(|b'|);
      ShiftDigit(DigitsValue(a), DigitsValue(b'), DigitsValue(a + b'), Pow10(|b'|), d);
    } else {
      assert a + b == a;
    }
  }

  lemma AllDigitsAppend(a: string, b: string)
    requires AllDigits(a) && AllDigits(b)
    ensures AllDigits(a + b)
  {
    forall i | 0 <= i < |a + b| ensures IsDigit((a + b)[i]) {
      if i < |a| { assert (a + b)[i] == a[i]; } else { assert (a + b)[i] == b[i - |a|]; }
    }
  }

  /** Appending one digit `d` to both `b` and `a + b`. */
  lemma ShiftDigit(va: int, vb: int, vab: int, p: int, d: int)
    requires vab == va * p + vb
    ensures 10 * vab + d == va * (10 * p) + (10 * vb + d)
  {
    assert 10 * (va * p) == va * (10 * p);
  }

  /** Python's `str(n)` for a natural number. */
  function NatToString(n: nat): (s: string)
    ensures |s| > 0 && AllDigits(s)
  {
    if n < 10 then [DigitChar(n)] else NatToString(n / 10) + [DigitChar(n % 10)]
  }

  /** A whole number as `int` reads it once stripped: a digit or a sign,
      then digits only, and at least one digit in all. */
  predicate Numeral(t: string) {
    |t| > 0 && (IsDigit(t[0]) || ((t[0] == '-' || t[0] == '+') && |t| > 1)) &&
    forall i :: 1 <= i < |t| ==> IsDigit(t[i])
  }

  /** Python's `int(s)`: optional surrounding whitespace, an optional sign and at
      least one decimal digit; anything else raises ValueError (None here). */
  function ParseInt(s: string): Option<int> {
    var t := Strip(s);
    if |t| > 0 && (t[0] == '-' || t[0] == '+') then
      var d := t[1..];
      if |d| > 0 && AllDigits(d) then Some(if t[0] == '-' then -(DigitsValue(d) as int) else DigitsValue(d) as int)
      else None
    else if |t| > 0 && AllDigits(t) then Some(DigitsValue(t))
    else None
  }

  /** `int` reads a number exactly when the stripped text is a numeral, and
      a negative one only after a `-`. */
  lemma ParseIntReadsNumeral(s: string)
    ensures ParseInt(s).Some? <==> Numeral(Strip(s))
    ensures ParseInt(s).Some? && ParseInt(s).value < 0 ==> Strip(s)[0] == '-'
  {
  }

  /** `int` of a non-empty string of digits is their value. */
  lemma ParseIntOfDigits(t: string)
    requires |t| > 0 && AllDigits(t)
    ensures ParseInt(t) == Some(DigitsValue(t))
  {
    assert Strip(t) == t by {
      LeadingSpacesOfDigits(t);
      TrailingSpacesOfDigits(t);
    }
  }

  /** `int('')` raises ValueError. */
  lemma ParseIntOfEmpty()
    ensures ParseInt("") == None
  {
    assert Strip("") == "";
  }

  /** A string of digits has no surrounding whitespace. */
  lemma {:induction false} LeadingSpacesOfDigits(t: string)
    requires |t| > 0 && AllDigits(t)
    ensures LeadingSpaces(t) == 0
  {
    assert IsDigit(t[0]);
  }

  lemma {:induction false} TrailingSpacesOfDigits(t: string)
    requires |t| > 0 && AllDigits(t)
    ensures TrailingSpaces(t) == 0
  {
    assert IsDigit(t[|t| - 1]);
  }

  /** `int(str(n)) == n`. */
  lemma {:induction false} ParseIntNatToString(n: nat)
    ensures ParseInt(NatToString(n)) == Some(n)
  {
    var s := NatToString(n);
    assert DigitsValue(s) == n by { NatToStringValue(n); }
    assert LeadingSpaces(s) == 0;
    assert TrailingSpaces(s) == 0;
    assert Strip(s) == s;
  }

  lemma {:induction false} NatToStringValue(n: nat)
    ensures DigitsValue(NatToString(n)) == n
  {
    if n < 10 {
      assert NatToString(n)[..0] == [];
    } else {
      var s := NatToString(n);
      NatToStringValue(n / 10);
      assert s[..|s| - 1] == NatToString(n / 10);
    }
  }

  /** `[str(n) for n in ns]` for natural numbers. */
  function Numerals(ns: seq<int>): (r: seq<string>)
    requires forall i :: 0 <= i < |ns| ==> ns[i] >= 0
    ensures |r| == |ns|
    ensures forall i :: 0 <= i < |ns| ==> r[i] == NatToString(ns[i])
  {
    if ns == [] then [] else [NatToString(ns[0])] + Numerals(ns[1..])
  }

  /** Reading back the numerals of natural numbers gives the numbers. */
  lemma {:induction false} ParseIntsNumerals(ns: seq<int>)
    requires forall i :: 0 <= i < |ns| ==> ns[i] >= 0
    ensures ParseInts(Numerals(ns)) == Some(ns)
  {
    if ns != [] {
      ParseIntNatToString(ns[0]);
      ParseIntsNumerals(ns[1..]);
      assert Numerals(ns)[1..] == Numerals(ns[1..]);
      assert ns == [ns[0]] + ns[1..];
    }
  }

  /** Numerals joined by single spaces split back into the numerals. */
  lemma SplitNumerals(ns: seq<int>)
    requires |ns| >= 1 && forall i :: 0 <= i < |ns| ==> ns[i] >= 0
    ensures Split(Join(Numerals(ns), " "), " ") == Numerals(ns)
  {
    var parts := Numerals(ns);
    forall k, j | 0 <= k < |parts| && 0 <= j < |parts[k]| ensures parts[k][j] != ' ' {
      assert IsDigit(NatToString(ns[k])[j]);
    }
    SplitOfJoin(parts, ' ');
  }

  /** Numerals joined by single spaces: digits and spaces, no two spaces in
      a row, starting and ending with a digit. */
  lemma {:induction false} JoinedNumerals(ns: seq<int>)
    requires |ns| >= 1 && forall i :: 0 <= i < |ns| ==> ns[i] >= 0
    ensures |Join(Numerals(ns), " ")| > 0
    ensures IsDigit(Join(Numerals(ns), " ")[0])
    ensures IsDigit(Join(Numerals(ns), " ")[|Join(Numerals(ns), " ")| - 1])
    ensures NoDoubleSpace(Join(Numerals(ns), " "))
    ensures forall j :: 0 <= j < |Join(Numerals(ns), " ")| ==>
      IsDigit(Join(Numerals(ns), " ")[j]) || Join(Numerals(ns), " ")[j] == ' '
  {
    var parts := Numerals(ns);
    var first := parts[0];
    assert first == NatToString(ns[0]);
    assert NoDoubleSpace(first);
    if |ns| > 1 {
      JoinedNumerals(ns[1..]);
      assert parts[1..] == Numerals(ns[1..]);
      var rest := Join(parts[1..], " ");
      var s := Join(parts, " ");
      assert s == first + " " + rest;
      NoDoubleSpaceAppend(first, " ");
      NoDoubleSpaceAppend(first + " ", rest);
      forall j | 0 <= j < |s| ensures IsDigit(s[j]) || s[j] == ' ' {
        if j < |first| {
          assert s[j] == first[j];
        } else if j > |first| {
          assert s[j] == rest[j - |first| - 1];
        }
      }
      assert s[|s| - 1] == rest[|rest| - 1];
    }
  }

  /** Numerals are non-empty words without whitespace. */
  lemma NumeralsAreWords(ns: seq<int>)
    requires forall i :: 0 <= i < |ns| ==> ns[i] >= 0
    ensures forall k :: 0 <= k < |ns| ==> |Numerals(ns)[k]| > 0
    ensures forall k, j :: 0 <= k < |ns| && 0 <= j < |Numerals(ns)[k]| ==> !IsSpace(Numerals(ns)[k][j])
  {
    var parts := Numerals(ns);
    forall k, j | 0 <= k < |parts| && 0 <= j < |parts[k]| ensures !IsSpace(parts[k][j]) {
      assert IsDigit(NatToString(ns[k])[j]);
    }
  }

  /** Numerals joined by single spaces hold no character other than digits
      and spaces. */
  lemma JoinedNumeralsLack(ns: seq<int>, c: char)
    requires |ns| >= 1 && forall i :: 0 <= i < |ns| ==> ns[i] >= 0
    requires !IsDigit(c) && c != ' '
    ensures forall j :: 0 <= j < |Join(Numerals(ns), " ")| ==> Join(Numerals(ns), " ")[j] != c
  {
    JoinedNumerals(ns);
  }

  /** Numerals joined by single spaces start and end with a digit, which is
      not whitespace. */
  lemma JoinedNumeralsEnds(ns: seq<int>)
    requires |ns| >= 1 && forall i :: 0 <= i < |ns| ==> ns[i] >= 0
    ensures |Join(Numerals(ns), " ")| > 0
    ensures !IsSpace(Join(Numerals(ns), " ")[0])
    ensures !IsSpace(Join(Numerals(ns), " ")[|Join(Numerals(ns), " ")| - 1])
  {
    var t := Join(Numerals(ns), " ");
    assert |t| > 0 && IsDigit(t[0]) && IsDigit(t[|t| - 1]) by {
      JoinedNumerals(ns);
    }
  }

  /** Numerals joined by single spaces, after one space, strip to
      themselves. */
  lemma StripSpacedNumerals(ns: seq<int>)
    requires |ns| >= 1 && forall i :: 0 <= i < |ns| ==> ns[i] >= 0
    ensures Strip(" " + Join(Numerals(ns), " ")) == Join(Numerals(ns), " ")
  {
    JoinedNumeralsEnds(ns);
    StripLeadingSpace(Join(Numerals(ns), " "));
  }

  /** Numerals joined by single spaces have no surrounding whitespace. */
  lemma StripJoinedNumerals(ns: seq<int>)
    requires |ns| >= 1 && forall i :: 0 <= i < |ns| ==> ns[i] >= 0
    ensures Strip(Join(Numerals(ns), " ")) == Join(Numerals(ns), " ")
  {
    JoinedNumeralsEnds(ns);
    StripUnpadded(Join(Numerals(ns), " "));
  }

  /** `s.strip().split()` of numerals joined by single spaces gives the
      numerals back. */
  lemma SplitWsNumerals(ns: seq<int>)
    requires |ns| >= 1 && forall i :: 0 <= i < |ns| ==> ns[i] >= 0
    ensures SplitWs(Strip(Join(Numerals(ns), " "))) == Numerals(ns)
  {
    StripJoinedNumerals(ns);
    NumeralsAreWords(ns);
    SplitWsOfJoin(Numerals(ns));
  }

  // ---------------------------------------------------------------------------
  // Indexing and slicing

  /** A Python slice bound normalised against a length: negative bounds count
      from the end, and bounds outside `0..n` are clamped. */
  function SliceBound(i: int, n: nat): (r: nat)
    ensures r <= n
    ensures 0 <= i <= n ==> r == i
  {
    if i < 0 then (if i + n < 0 then 0 else i + n) else if i > n then n else i
  }

  /** Python's `s[i:j]`. */
  function Slice<T>(s: seq<T>, i: int, j: int): (r: seq<T>)
    ensures |r| <= |s|
    ensures 0 <= i <= j <= |s| ==> r == s[i..j]
  {
    var a := SliceBound(i, |s|);
    var b := SliceBound(j, |s|);
    if a < b then s[a..b] else []
  }

  /** Python's `s[i]`: negative indexes count from the end; anything else
      outside the sequence raises IndexError (None here). */
  function At<T>(s: seq<T>, i: int): (r: Option<T>)
    ensures 0 <= i < |s| ==> r == Some(s[i])
    ensures r.None? <==> (i >= |s| || i < -|s|)
  {
    if 0 <= i < |s| then Some(s[i]) else if -|s| <= i < 0 then Some(s[|s| + i]) else None
  }

  /** Python's `[int(x) for x in parts]`: None when any piece is not an integer. */
  function ParseInts(parts: seq<string>): (r: Option<seq<int>>)
    ensures r.Some? ==> |r.value| == |parts|
    ensures r.Some? ==> forall k :: 0 <= k < |parts| ==> ParseInt(parts[k]) == Some(r.value[k])
    ensures r.None? ==> exists k :: 0 <= k < |parts| && ParseInt(parts[k]).None?
  {
    if parts == [] then Some([])
    else match (ParseInt(parts[0]), ParseInts(parts[1..])) {
      case (Some(v), Some(vs)) => Some([v] + vs)
      case (None, _) => None
      case (_, None) => None
    }
  }
}

/** The JavaScript string primitives the core relies on: `trim`, `split` on a
    single character, the `\r?\n` line split, `indexOf` of a substring,
    `includes` and `toLowerCase`. Strings are modelled as sequences of code
    points rather than JavaScript's UTF-16 code units. */
module Strings {
  import opened Sequences

  /** The code points `String.prototype.trim` removes: ECMAScript WhiteSpace
      (tab, vertical tab, form feed, space, no-break space, byte-order mark and
      the Zs category) and LineTerminator (LF, CR, U+2028, U+2029). */
  predicate IsWhitespace(c: char) {
    var n := c as int;
    || n == 0x09 || n == 0x0A || n == 0x0B || n == 0x0C || n == 0x0D
    || n == 0x20 || n == 0xA0 || n == 0x1680
    || (0x2000 <= n <= 0x200A)
    || n == 0x2028 || n == 0x2029 || n == 0x202F || n == 0x205F
    || n == 0x3000 || n == 0xFEFF
  }

  predicate AllWhitespace(s: string) {
    forall k :: 0 <= k < |s| ==> IsWhitespace(s[k])
  }

  /** A string with no whitespace at either end. */
  predicate IsTrimmed(s: string) {
    0 < |s| ==> !IsWhitespace(s[0]) && !IsWhitespace(s[|s| - 1])
  }

  /** How many whitespace characters `trim` drops from the front. */
  function Lead(s: string): (n: nat)
    ensures n <= |s|
    ensures AllWhitespace(s[..n])
    ensures n < |s| ==> !IsWhitespace(s[n])
    decreases |s|
  {
    if 0 < |s| && IsWhitespace(s[0]) then
      var m := Lead(s[1..]);
      WhitespaceCons(s, m);
      1 + m
    else 0
  }

  /** Where the trailing whitespace that `trim` drops begins. */
  function TrailStart(s: string): (n: nat)
    ensures n <= |s|
    ensures AllWhitespace(s[n..])
    ensures 0 < n ==> !IsWhitespace(s[n - 1])
    decreases |s|
  {
    if 0 < |s| && IsWhitespace(s[|s| - 1]) then
      var m := TrailStart(s[..|s| - 1]);
      WhitespaceSnoc(s, m);
      m
    else |s|
  }

  lemma WhitespaceCons(s: string, m: nat)
    requires 0 < |s| && IsWhitespace(s[0]) && m <= |s| - 1 && AllWhitespace(s[1..][..m])
    ensures AllWhitespace(s[..m + 1])
  {
    var a, b := s[..m + 1], s[1..][..m];
    forall k | 0 < k < |a| ensures IsWhitespace(a[k]) {
      assert a[k] == b[k - 1];
    }
  }

  lemma WhitespaceSnoc(s: string, m: nat)
    requires 0 < |s| && IsWhitespace(s[|s| - 1]) && m <= |s| - 1 && AllWhitespace(s[..|s| - 1][m..])
    ensures AllWhitespace(s[m..])
  {
    var a, b := s[m..], s[..|s| - 1][m..];
    forall k | 0 <= k < |a| - 1 ensures IsWhitespace(a[k]) {
      assert a[k] == b[k];
    }
  }

  /** `s.trim()`: `s` without its leading and trailing whitespace. The result
      is the infix of `s` left after removing whitespace-only ends. */
  function Trim(s: string): (r: string)
    ensures IsTrimmed(r)
    ensures Lead(s) + |r| <= |s| && r == s[Lead(s)..Lead(s) + |r|]
    ensures AllWhitespace(s[..Lead(s)]) && AllWhitespace(s[Lead(s) + |r|..])
  {
    var i := Lead(s);
    var j := TrailStart(s[i..]);
    TrimParts(s, i, j);
    s[i..i + j]
  }

  /** The piece between the two cuts is trimmed, and what follows it is whitespace. */
  lemma TrimParts(s: string, i: nat, j: nat)
    requires i <= |s| && j <= |s| - i
    requires i < |s| ==> !IsWhitespace(s[i])
    requires AllWhitespace(s[i..][j..]) && (0 < j ==> !IsWhitespace(s[i..][j - 1]))
    ensures IsTrimmed(s[i..i + j]) && AllWhitespace(s[i + j..])
  {
    var t, r := s[i..], s[i..i + j];
    if 0 < j {
      assert r[0] == s[i];
      assert r[j - 1] == t[j - 1];
    }
    var a, b := s[i + j..], t[j..];
    forall k | 0 <= k < |a| ensures IsWhitespace(a[k]) {
      assert a[k] == b[k];
    }
  }

  /** Text with no whitespace at either end is left as it is. */
  lemma TrimmedUnchanged(s: string)
    requires IsTrimmed(s)
    ensures Trim(s) == s
  {
    assert Lead(s) == 0;
    assert s[0..] == s;
    assert TrailStart(s) == |s|;
    assert s[0..|s|] == s;
  }

  /** Trimming twice is trimming once. */
  lemma TrimIdempotent(s: string)
    ensures Trim(Trim(s)) == Trim(s)
  {
    var t := Trim(s);
    assert Lead(t) == 0;
    assert t[0..] == t;
    assert TrailStart(t) == |t|;
    assert t[0..|t|] == t;
  }

  /** A string made only of whitespace trims to the empty string, and only such a string does. */
  lemma TrimEmptyIff(s: string)
    ensures Trim(s) == "" <==> AllWhitespace(s)
  {
    var i := Lead(s);
    if Trim(s) == "" {
      assert i == |s|;
      assert s[..i] == s;
    }
    if AllWhitespace(s) {
      assert i == |s|;
    }
  }

  /** Split on a single separator character, as `s.split(",")` does: the
      pieces between separators, always at least one. */
  function Split(s: string, sep: char): (parts: seq<string>)
    ensures 1 <= |parts|
    ensures forall k :: 0 <= k < |parts| ==> sep !in parts[k]
    decreases |s|
  {
    var i := IndexOf(s, sep);
    if i == -1 then [s]
    else
      assert sep !in s[..i] by {
        forall k | 0 <= k < i ensures s[..i][k] != sep { }
      }
      [s[..i]] + Split(s[i + 1..], sep)
  }

  /** `parts.join(sep)`, the inverse of Split. */
  function Join(parts: seq<string>, sep: char): string
  {
    if |parts| == 0 then ""
    else if |parts| == 1 then parts[0]
    else parts[0] + [sep] + Join(parts[1..], sep)
  }

  /** A character other than the separator that no piece holds is not in the join. */
  lemma {:induction false} JoinAvoids(parts: seq<string>, sep: char, c: char)
    requires c != sep && forall k :: 0 <= k < |parts| ==> c !in parts[k]
    ensures c !in Join(parts, sep)
    decreases |parts|
  {
    if 1 < |parts| {
      JoinAvoids(parts[1..], sep, c);
    }
  }

  /** Joining the pieces with the separator gives back the string. */
  lemma {:induction false} JoinSplit(s: string, sep: char)
    ensures Join(Split(s, sep), sep) == s
    decreases |s|
  {
    var i := IndexOf(s, sep);
    if i != -1 {
      var front, back := s[..i], s[i + 1..];
      var rest := Split(back, sep);
      assert Split(s, sep) == [front] + rest;
      JoinSplit(back, sep);
      JoinCons(front, rest, sep);
      CutAt(s, i);
    }
  }

  /** A string is the part before position `i`, the character there, and the rest. */
  lemma CutAt(s: string, i: nat)
    requires i < |s|
    ensures s[..i] + [s[i]] + s[i + 1..] == s
  {
  }

  lemma JoinCons(p: string, rest: seq<string>, sep: char)
    requires 1 <= |rest|
    ensures Join([p] + rest, sep) == p + [sep] + Join(rest, sep)
  {
    assert ([p] + rest)[1..] == rest;
  }

  /** Splitting a join of separator-free pieces gives back the pieces. */
  lemma {:induction false} SplitJoin(parts: seq<string>, sep: char)
    requires 1 <= |parts|
    requires forall k :: 0 <= k < |parts| ==> sep !in parts[k]
    ensures Split(Join(parts, sep), sep) == parts
    decreases |parts|
  {
    var p := parts[0];
    assert sep !in p;
    if |parts| > 1 {
      var tail := parts[1..];
      assert forall k :: 0 <= k < |tail| ==> sep !in tail[k] by {
        forall k | 0 <= k < |tail| ensures sep !in tail[k] {
          assert tail[k] == parts[k + 1];
        }
      }
      var j := Join(tail, sep);
      var q := [sep] + j;
      var s := p + q;
      assert Join(parts, sep) == s;
      IndexOfAfterFree(p, q, sep);
      assert s[..|p|] == p;
      assert s[|p| + 1..] == j;
      SplitJoin(tail, sep);
      assert Split(s, sep) == [p] + Split(j, sep);
      assert parts == [p] + tail;
    } else {
      assert IndexOf(p, sep) == -1;
      assert parts == [p];
    }
  }

  /** The first separator of `p + q` is the first of `q` when `p` has none. */
  lemma {:induction false} IndexOfAfterFree(p: string, q: string, sep: char)
    requires sep !in p && 0 < |q| && q[0] == sep
    ensures IndexOf(p + q, sep) == |p|
  {
    assert (p + q)[|p|] == sep;
  }

  /** There is one more piece than there are separators. */
  lemma {:induction false} SplitCount(s: string, sep: char)
    ensures |Split(s, sep)| == multiset(s)[sep] + 1
    decreases |s|
  {
    var i := IndexOf(s, sep);
    if i != -1 {
      var back := s[i + 1..];
      SplitCount(back, sep);
      assert |Split(s, sep)| == 1 + |Split(back, sep)|;
      CountPastFirst(s, sep, i);
    } else {
      assert sep !in multiset(s);
    }
  }

  /** Cutting at the first separator removes exactly one occurrence of it. */
  lemma CountPastFirst(s: string, sep: char, i: int)
    requires i == IndexOf(s, sep) && i != -1
    ensures multiset(s)[sep] == multiset(s[i + 1..])[sep] + 1
  {
    var front, back := s[..i], s[i + 1..];
    CutAt(s, i);
    assert s == front + ([sep] + back);
    assert sep !in front by {
      forall k | 0 <= k < |front| ensures front[k] != sep {
        assert front[k] == s[k];
      }
    }
    assert multiset(s) == multiset(front) + multiset([sep] + back);
    assert multiset([sep] + back) == multiset{sep} + multiset(back);
    assert multiset(front)[sep] == 0;
  }

  /** Drops one trailing carriage return, if there is one. */
  function DropCr(s: string): (r: string)
    ensures r == s || (s == r + "\r")
  {
    if 0 < |s| && s[|s| - 1] == '\r' then s[..|s| - 1] else s
  }

  /** `s.split(/\r?\n/)`: pieces separated by LF, where a CR directly before
      an LF belongs to the separator. Every piece but the last is followed by
      an LF, so each of those loses one trailing CR. */
  function SplitLines(s: string): (lines: seq<string>)
    ensures |lines| == multiset(s)['\n'] + 1
    ensures forall k :: 0 <= k < |lines| ==> '\n' !in lines[k]
  {
    var parts := Split(s, '\n');
    SplitCount(s, '\n');
    seq(|parts|, k requires 0 <= k < |parts| => if k < |parts| - 1 then DropCr(parts[k]) else parts[k])
  }

  /** Text without carriage returns is exactly its lines joined by LF. */
  lemma SplitLinesWithoutCr(s: string)
    requires '\r' !in s
    ensures Join(SplitLines(s), '\n') == s
  {
    var parts := Split(s, '\n');
    SplitKeepsAbsent(s, '\n', '\r');
    assert SplitLines(s) == parts;
    JoinSplit(s, '\n');
  }

  /** A character absent from the string is absent from every piece. */
  lemma {:induction false} SplitKeepsAbsent(s: string, sep: char, c: char)
    requires c !in s
    ensures forall k :: 0 <= k < |Split(s, sep)| ==> c !in Split(s, sep)[k]
    decreases |s|
  {
    var i := IndexOf(s, sep);
    if i != -1 {
      assert c !in s[i + 1..];
      SplitKeepsAbsent(s[i + 1..], sep, c);
      assert c !in s[..i];
      assert Split(s, sep) == [s[..i]] + Split(s[i + 1..], sep);
    }
  }

  /** Lines joined with CRLF, as a Windows-style CSV is written. */
  function JoinCrLf(lines: seq<string>): string
    decreases |lines|
  {
    if |lines| == 0 then ""
    else if |lines| == 1 then lines[0]
    else lines[0] + "\r\n" + JoinCrLf(lines[1..])
  }

  /** Each line but the last with its CR, the pieces that `split("\n")` sees. */
  function WithCr(lines: seq<string>): (parts: seq<string>)
    ensures |parts| == |lines|
  {
    seq(|lines|, k requires 0 <= k < |lines| => if k < |lines| - 1 then lines[k] + "\r" else lines[k])
  }

  /** CRLF-joined text splits back into its lines: the CR before each LF
      belongs to the separator, and any other CR stays in its line. */
  lemma SplitLinesCrLf(lines: seq<string>)
    requires 1 <= |lines|
    requires forall k :: 0 <= k < |lines| ==> '\n' !in lines[k]
    ensures SplitLines(JoinCrLf(lines)) == lines
  {
    var text, parts := JoinCrLf(lines), WithCr(lines);
    WithCrHasNoLf(lines);
    JoinCrLfWithCr(lines);
    SplitJoin(parts, '\n');
    SplitLinesDropsCr(text, lines);
  }

  lemma WithCrHasNoLf(lines: seq<string>)
    requires forall k :: 0 <= k < |lines| ==> '\n' !in lines[k]
    ensures forall k :: 0 <= k < |lines| ==> '\n' !in WithCr(lines)[k]
  {
    forall k | 0 <= k < |lines| ensures '\n' !in WithCr(lines)[k] {
      if k < |lines| - 1 {
        assert WithCr(lines)[k] == lines[k] + "\r";
      }
    }
  }

  lemma SplitLinesDropsCr(text: string, lines: seq<string>)
    requires Split(text, '\n') == WithCr(lines)
    ensures SplitLines(text) == lines
  {
    var r := SplitLines(text);
    forall k | 0 <= k < |lines|
      ensures r[k] == lines[k]
    {
      if k < |lines| - 1 {
        var c := lines[k] + "\r";
        assert r[k] == DropCr(c);
        assert c[..|c| - 1] == lines[k];
      }
    }
  }

  lemma {:induction false} JoinCrLfWithCr(lines: seq<string>)
    requires 1 <= |lines|
    ensures JoinCrLf(lines) == Join(WithCr(lines), '\n')
    decreases |lines|
  {
    if 1 < |lines| {
      JoinCrLfWithCr(lines[1..]);
      assert WithCr(lines) == [lines[0] + "\r"] + WithCr(lines[1..]);
      JoinCons(lines[0] + "\r", WithCr(lines[1..]), '\n');
    }
  }

  /** `s.startsWith(p)`. */
  predicate StartsWith(s: string, p: string) {
    |p| <= |s| && s[..|p|] == p
  }

  /** `sub` starts at position `k` of `text`. */
  predicate OccursAt(text: string, sub: string, k: int) {
    0 <= k && k + |sub| <= |text| && text[k..k + |sub|] == sub
  }

  /** `text.indexOf(sub)` for a non-empty `sub`: the first position where
      `sub` starts, or -1 when it does not occur. */
  function FindSubstring(text: string, sub: string): (r: int)
    requires 0 < |sub|
    ensures -1 <= r
    ensures 0 <= r ==> OccursAt(text, sub, r)
    ensures r == -1 ==> forall k :: !OccursAt(text, sub, k)
    ensures 0 <= r ==> forall k :: k < r ==> !OccursAt(text, sub, k)
    decreases |text|
  {
    if |text| < |sub| then -1
    else if StartsWith(text, sub) then 0
    else
      var r := FindSubstring(text[1..], sub);
      assert forall k :: 1 <= k ==> (OccursAt(text, sub, k) <==> OccursAt(text[1..], sub, k - 1)) by {
        forall k | 1 <= k ensures OccursAt(text, sub, k) <==> OccursAt(text[1..], sub, k - 1) {
          if k + |sub| <= |text| {
            SliceOfTail(text, k, |sub|);
          }
        }
      }
      if r == -1 then -1 else r + 1
  }

  lemma SliceOfTail(text: string, k: nat, n: nat)
    requires 1 <= k && k + n <= |text|
    ensures text[1..][k - 1..k - 1 + n] == text[k..k + n]
  {
    var a, b := text[1..][k - 1..k - 1 + n], text[k..k + n];
    assert |a| == |b|;
    forall j | 0 <= j < n ensures a[j] == b[j] {
      assert a[j] == text[1..][k - 1 + j] == text[k + j];
    }
  }

  /** `text.includes(sub)`. */
  predicate Contains(text: string, sub: string)
    requires 0 < |sub|
  {
    FindSubstring(text, sub) != -1
  }

  function LowerChar(c: char): char {
    if 'A' <= c <= 'Z' then (c as int + 32) as char else c
  }

  /** `s.toLowerCase()` on the ASCII letters. */
  function Lower(s: string): (r: string)
    ensures |r| == |s|
    ensures forall k :: 0 <= k < |s| ==> r[k] == LowerChar(s[k])
  {
    seq(|s|, k requires 0 <= k < |s| => LowerChar(s[k]))
  }

  /** Lower-casing is idempotent, so comparisons after it ignore case. */
  lemma LowerIdempotent(s: string)
    ensures Lower(Lower(s)) == Lower(s)
  {
  }
}

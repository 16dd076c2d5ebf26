/**
 * The JavaScript string operations the application relies on, over `string`
 * (`seq<char>`): `toLowerCase`, `trim`, `includes`, `startsWith`,
 * `split` on a literal separator and `split(/\s+/)`.  Case mapping and the
 * whitespace class are the ASCII ones.
 */
module Text {

  /** The `\s` class (and what `trim` strips), restricted to ASCII:
      space, tab, line feed, vertical tab, form feed, carriage return. */
  predicate IsSpace(c: char) {
    c == ' ' || c == '\t' || c == '\n' || c == '\U{B}' || c == '\U{C}' || c == '\r'
  }

  predicate AllSpace(s: string) {
    forall k :: 0 <= k < |s| ==> IsSpace(s[k])
  }

  predicate NoSpace(s: string) {
    forall k :: 0 <= k < |s| ==> !IsSpace(s[k])
  }

  function LowerChar(c: char): char {
    if 'A' <= c <= 'Z' then (c as int + 32) as char else c
  }

  /** `toLowerCase` on ASCII letters. */
  function Lower(s: string): string {
    seq(|s|, k requires 0 <= k < |s| => LowerChar(s[k]))
  }

  /** Lower-casing keeps the length, leaves no capital letter, keeps every
      character that is not a capital, and replaces each capital by its small
      letter. */
  lemma LowerChars(s: string)
    ensures |Lower(s)| == |s|
    ensures forall k :: 0 <= k < |s| ==> !('A' <= Lower(s)[k] <= 'Z')
    ensures forall k :: 0 <= k < |s| && !('A' <= s[k] <= 'Z') ==> Lower(s)[k] == s[k]
    ensures forall k :: 0 <= k < |s| && 'A' <= s[k] <= 'Z' ==> 'a' <= Lower(s)[k] <= 'z' && Lower(s)[k] as int - s[k] as int == 32
  {
  }

  predicate StartsWith(s: string, prefix: string) {
    |prefix| <= |s| && s[..|prefix|] == prefix
  }

  predicate EndsWith(s: string, suffix: string) {
    |suffix| <= |s| && s[|s| - |suffix|..] == suffix
  }

  /** `sub` occurs in `s` starting at index `k`. */
  predicate OccursAt(s: string, sub: string, k: int) {
    0 <= k && k + |sub| <= |s| && s[k..k + |sub|] == sub
  }

  /** `s.includes(sub)`. */
  predicate Includes(s: string, sub: string) {
    exists k :: 0 <= k <= |s| - |sub| && OccursAt(s, sub, k)
  }

  lemma IncludesEmpty(s: string)
    ensures Includes(s, "")
  {
    assert OccursAt(s, "", 0);
  }

  /** Lower-casing twice is lower-casing once. */
  lemma LowerIdempotent(s: string)
    ensures Lower(Lower(s)) == Lower(s)
  {
  }

  /** An occurrence survives lower-casing both strings. */
  lemma IncludesLower(s: string, sub: string)
    requires Includes(s, sub)
    ensures Includes(Lower(s), Lower(sub))
  {
    var k :| 0 <= k <= |s| - |sub| && OccursAt(s, sub, k);
    assert forall i :: 0 <= i < |sub| ==> sub[i] == s[k + i] by {
      forall i | 0 <= i < |sub| ensures sub[i] == s[k + i] { assert s[k..k + |sub|][i] == s[k + i]; }
    }
    assert OccursAt(Lower(s), Lower(sub), k);
  }

  /** An occurrence of an occurrence is an occurrence. */
  lemma IncludesTransitive(a: string, b: string, c: string)
    requires Includes(a, b) && Includes(b, c)
    ensures Includes(a, c)
  {
    var i :| 0 <= i <= |a| - |b| && OccursAt(a, b, i);
    var j :| 0 <= j <= |b| - |c| && OccursAt(b, c, j);
    forall t | 0 <= t < |c| ensures a[i + j..i + j + |c|][t] == c[t] {
      assert a[i..i + |b|][j + t] == b[j + t];
      assert b[j..j + |c|][t] == c[t];
    }
    assert OccursAt(a, c, i + j);
  }

  /** The index of the first non-whitespace character at or after `a`
      (`|s|` when there is none). */
  function SkipSpaces(s: string, a: nat): (r: nat)
    requires a <= |s|
    ensures a <= r <= |s|
    ensures forall k :: a <= k < r ==> IsSpace(s[k])
    ensures r < |s| ==> !IsSpace(s[r])
    decreases |s| - a
  {
    if a < |s| && IsSpace(s[a]) then SkipSpaces(s, a + 1) else a
  }

  /** The end of `s[a..b]` once its trailing whitespace is dropped. */
  function DropTrailingSpaces(s: string, a: nat, b: nat): (r: nat)
    requires a <= b <= |s|
    ensures a <= r <= b
    ensures forall k :: r <= k < b ==> IsSpace(s[k])
    ensures r > a ==> !IsSpace(s[r - 1])
    decreases b - a
  {
    if b > a && IsSpace(s[b - 1]) then DropTrailingSpaces(s, a, b - 1) else b
  }

  predicate IsTrimmed(s: string) {
    s == [] || (!IsSpace(s[0]) && !IsSpace(s[|s| - 1]))
  }

  /** `s.trim()`: the result is a slice of `s` with no whitespace at either end,
      everything cut off is whitespace, and it is empty exactly when `s` is all
      whitespace. */
  function Trim(s: string): (r: string)
    ensures IsTrimmed(r)
    ensures exists a :: 0 <= a <= |s| - |r| && OccursAt(s, r, a) && AllSpace(s[..a]) && AllSpace(s[a + |r|..])
    ensures r == [] <==> AllSpace(s)
    ensures IsTrimmed(s) ==> r == s
  {
    var a := SkipSpaces(s, 0);
    var b := DropTrailingSpaces(s, a, |s|);
    assert AllSpace(s[..a]) by {
      forall k | 0 <= k < a ensures IsSpace(s[..a][k]) { assert s[..a][k] == s[k]; }
    }
    assert AllSpace(s[b..]) by {
      forall k | 0 <= k < |s| - b ensures IsSpace(s[b..][k]) { assert s[b..][k] == s[b + k]; }
    }
    assert OccursAt(s, s[a..b], a);
    assert a == b ==> AllSpace(s);
    s[a..b]
  }

  lemma TrimIdempotent(s: string)
    ensures Trim(Trim(s)) == Trim(s)
  {
  }

  /** Trimming only removes characters. */
  lemma TrimChars(s: string, c: char)
    ensures c in Trim(s) ==> c in s
  {
    var r := Trim(s);
    if c in r {
      var a :| 0 <= a <= |s| - |r| && OccursAt(s, r, a);
      var i :| 0 <= i < |r| && r[i] == c;
      assert s[a + i] == s[a..a + |r|][i];
    }
  }

  /** Greedy, left-to-right count of non-overlapping occurrences of `sep`. */
  function Occurrences(s: string, sep: string): nat
    requires |sep| > 0
    decreases |s|
  {
    if |s| < |sep| then 0
    else if s[..|sep|] == sep then 1 + Occurrences(s[|sep|..], sep)
    else Occurrences(s[1..], sep)
  }

  /** Pieces glued back together with `sep` between them. */
  function Join(pieces: seq<string>, sep: string): string
    decreases |pieces|
  {
    if |pieces| == 0 then ""
    else if |pieces| == 1 then pieces[0]
    else pieces[0] + sep + Join(pieces[1..], sep)
  }

  /** `s.split(sep)` for a non-empty literal separator: the leftmost occurrence
      is cut first and the scan resumes after it; `"".split(sep)` is `[""]`. */
  function Split(s: string, sep: string): (r: seq<string>)
    requires |sep| > 0
    ensures |r| >= 1
    decreases |s|
  {
    if |s| < |sep| then [s]
    else if s[..|sep|] == sep then [""] + Split(s[|sep|..], sep)
    else
      var rest := Split(s[1..], sep);
      [[s[0]] + rest[0]] + rest[1..]
  }

  /** `s.split(sep)` has one piece more than `s` has occurrences of `sep`. */
  lemma {:induction false} SplitCount(s: string, sep: string)
    requires |sep| > 0
    ensures |Split(s, sep)| == Occurrences(s, sep) + 1
    decreases |s|
  {
    if |s| < |sep| {
    } else if s[..|sep|] == sep {
      SplitCount(s[|sep|..], sep);
    } else {
      SplitCount(s[1..], sep);
    }
  }

  lemma JoinCons(c: char, pieces: seq<string>, sep: string)
    requires |pieces| >= 1
    ensures Join([[c] + pieces[0]] + pieces[1..], sep) == [c] + Join(pieces, sep)
  {
    var q := [[c] + pieces[0]] + pieces[1..];
    assert q[1..] == pieces[1..];
  }

  /** Splitting loses nothing: joining the pieces with the separator gives `s` back. */
  lemma {:induction false} SplitJoin(s: string, sep: string)
    requires |sep| > 0
    ensures Join(Split(s, sep), sep) == s
    decreases |s|
  {
    if |s| < |sep| {
    } else if s[..|sep|] == sep {
      SplitJoin(s[|sep|..], sep);
      SplitJoinAtSeparator(s, sep);
    } else {
      SplitJoin(s[1..], sep);
      SplitJoinPastChar(s, sep);
    }
  }

  lemma SplitJoinAtSeparator(s: string, sep: string)
    requires |sep| > 0 && |s| >= |sep| && s[..|sep|] == sep
    requires Join(Split(s[|sep|..], sep), sep) == s[|sep|..]
    ensures Join(Split(s, sep), sep) == s
  {
    var pieces := [""] + Split(s[|sep|..], sep);
    JoinSeparated(pieces, sep);
    assert pieces[1..] == Split(s[|sep|..], sep);
    TakeDrop(s, |sep|);
  }

  lemma TakeDrop(s: string, n: nat)
    requires n <= |s|
    ensures s[..n] + s[n..] == s
  {
  }

  lemma JoinSeparated(pieces: seq<string>, sep: string)
    requires |pieces| >= 2
    ensures Join(pieces, sep) == pieces[0] + sep + Join(pieces[1..], sep)
  {
  }

  lemma SplitJoinPastChar(s: string, sep: string)
    requires |sep| > 0 && |s| >= |sep| && s[..|sep|] != sep
    requires Join(Split(s[1..], sep), sep) == s[1..]
    ensures Join(Split(s, sep), sep) == s
  {
    var rest := Split(s[1..], sep);
    assert Split(s, sep) == [[s[0]] + rest[0]] + rest[1..];
    JoinCons(s[0], rest, sep);
    assert s == [s[0]] + s[1..];
  }

  /** Splitting at `c` a string that starts with a `c`-free word and a `c`
      gives that word, then the pieces of the rest. */
  lemma {:induction false} SplitAfterWord(w: string, c: char, rest: string)
    requires c !in w
    ensures Split(w + [c] + rest, [c]) == [w] + Split(rest, [c])
    decreases |w|
  {
    var s := w + [c] + rest;
    if w == [] {
      assert s[..1] == [c] && s[1..] == rest;
    } else {
      assert s[..1] != [c] by { assert s[0] == w[0]; }
      assert s[1..] == w[1..] + [c] + rest;
      SplitAfterWord(w[1..], c, rest);
      assert [s[0]] + w[1..] == w;
    }
  }

  /** A string without the separator splits into itself. */
  lemma SplitWithoutSeparator(s: string, sep: string)
    requires |sep| > 0 && Occurrences(s, sep) == 0
    ensures Split(s, sep) == [s]
  {
    SplitCount(s, sep);
    SplitJoin(s, sep);
  }

  /** Every piece of an all-whitespace string is all whitespace. */
  lemma {:induction false} SplitOfSpaces(s: string, sep: string)
    requires |sep| > 0 && AllSpace(s)
    ensures forall k :: 0 <= k < |Split(s, sep)| ==> AllSpace(Split(s, sep)[k])
    decreases |s|
  {
    if |s| < |sep| {
    } else if s[..|sep|] == sep {
      assert AllSpace(s[|sep|..]) by {
        forall k | 0 <= k < |s| - |sep| ensures IsSpace(s[|sep|..][k]) { assert s[|sep|..][k] == s[|sep| + k]; }
      }
      SplitOfSpaces(s[|sep|..], sep);
    } else {
      assert AllSpace(s[1..]) by {
        forall k | 0 <= k < |s| - 1 ensures IsSpace(s[1..][k]) { assert s[1..][k] == s[k + 1]; }
      }
      SplitOfSpaces(s[1..], sep);
      var rest := Split(s[1..], sep);
      assert AllSpace([s[0]] + rest[0]) by {
        forall k | 0 <= k < |rest[0]| + 1 ensures IsSpace(([s[0]] + rest[0])[k]) {
          if k > 0 { assert ([s[0]] + rest[0])[k] == rest[0][k - 1]; }
        }
      }
    }
  }

  /** For a one-character separator the greedy count is the number of times the
      character occurs. */
  lemma {:induction false} OccurrencesOfChar(s: string, c: char)
    ensures Occurrences(s, [c]) == multiset(s)[c]
    decreases |s|
  {
    if s != [] {
      OccurrencesOfChar(s[1..], c);
      assert s == [s[0]] + s[1..];
      assert s[..1] == [s[0]];
    }
  }

  /** No piece of `s.split(c)` contains `c`. */
  lemma {:induction false} SplitCharPieces(s: string, c: char)
    ensures forall k :: 0 <= k < |Split(s, [c])| ==> c !in Split(s, [c])[k]
    decreases |s|
  {
    if |s| >= 1 {
      SplitCharPieces(s[1..], c);
      assert s[..1] == [s[0]];
    }
  }

  /** The first piece of `s.split(c)` is the longest prefix of `s` free of `c`. */
  lemma {:induction false} SplitCharHead(s: string, c: char)
    ensures var p := Split(s, [c])[0];
      |p| <= |s| && s[..|p|] == p && c !in p && (|p| == |s| || s[|p|] == c)
    decreases |s|
  {
    if |s| >= 1 {
      SplitCharHead(s[1..], c);
      assert s[..1] == [s[0]];
    }
  }

  /** Past the first piece and its separator, the pieces are those of the rest. */
  lemma {:induction false} SplitCharTail(s: string, c: char)
    requires c in s
    ensures var p := Split(s, [c])[0];
      |p| < |s| && Split(s, [c])[1..] == Split(s[|p| + 1..], [c])
    decreases |s|
  {
    SplitCharHead(s, c);
    assert s[..1] == [s[0]];
    if s[0] != c {
      SplitCharTail(s[1..], c);
      SplitCharHead(s[1..], c);
    }
  }

  /** `s.split(/\s+/)`: maximal runs of whitespace separate the pieces; leading
      or trailing whitespace gives an empty first or last piece, and
      `"".split(/\s+/)` is `[""]`. */
  function Words(s: string): (r: seq<string>)
    ensures |r| >= 1
    ensures forall k :: 0 <= k < |r| ==> NoSpace(r[k])
    ensures r[0] == [] <==> s == [] || IsSpace(s[0])
    ensures forall k :: 0 < k < |r| - 1 ==> r[k] != []
    decreases |s|
  {
    if s == [] then [""]
    else if IsSpace(s[0]) then
      [""] + Words(s[SkipSpaces(s, 0)..])
    else
      var rest := Words(s[1..]);
      [[s[0]] + rest[0]] + rest[1..]
  }

  /** The non-whitespace characters of `s`, in order. */
  function NonSpaceChars(s: string): string
    decreases |s|
  {
    if s == [] then [] else (if IsSpace(s[0]) then [] else [s[0]]) + NonSpaceChars(s[1..])
  }

  function Concat(pieces: seq<string>): string
    decreases |pieces|
  {
    if pieces == [] then [] else pieces[0] + Concat(pieces[1..])
  }

  lemma {:induction false} NonSpaceCharsOfSpaces(s: string)
    requires AllSpace(s)
    ensures NonSpaceChars(s) == []
    decreases |s|
  {
    if s != [] {
      NonSpaceCharsOfSpaces(s[1..]);
    }
  }

  lemma {:induction false} NonSpaceCharsAppend(a: string, b: string)
    ensures NonSpaceChars(a + b) == NonSpaceChars(a) + NonSpaceChars(b)
    decreases |a|
  {
    if a == [] {
      assert a + b == b;
    } else {
      NonSpaceCharsAppend(a[1..], b);
      assert (a + b)[0] == a[0];
      assert (a + b)[1..] == a[1..] + b;
    }
  }

  /** Tokenising drops exactly the whitespace: the pieces, concatenated, are the
      non-whitespace characters of `s` in order. */
  lemma {:induction false} WordsKeepText(s: string)
    ensures Concat(Words(s)) == NonSpaceChars(s)
    decreases |s|
  {
    if s == [] {
    } else if IsSpace(s[0]) {
      var a := SkipSpaces(s, 0);
      WordsKeepText(s[a..]);
      assert s == s[..a] + s[a..];
      NonSpaceCharsAppend(s[..a], s[a..]);
      NonSpaceCharsOfSpaces(s[..a]);
    } else {
      var rest := Words(s[1..]);
      WordsKeepText(s[1..]);
      assert Concat(rest) == rest[0] + Concat(rest[1..]);
    }
  }

  /** Text without whitespace is a single token. */
  lemma {:induction false} WordsOfWord(s: string)
    requires NoSpace(s)
    ensures Words(s) == [s]
    decreases |s|
  {
    if s != [] {
      assert NoSpace(s[1..]) by {
        forall k | 0 <= k < |s| - 1 ensures !IsSpace(s[1..][k]) { assert s[1..][k] == s[k + 1]; }
      }
      WordsOfWord(s[1..]);
      assert s == [s[0]] + s[1..];
    }
  }

  /** `s` with every maximal run of whitespace written as one space. */
  function Collapse(s: string): string
    decreases |s|
  {
    if s == [] then []
    else if IsSpace(s[0]) then [' '] + Collapse(s[SkipSpaces(s, 0)..])
    else [s[0]] + Collapse(s[1..])
  }

  /** The words joined by single spaces are the text with each whitespace run
      collapsed to one space. As no word holds whitespace, this fixes the words:
      every whitespace run separates two of them, and nothing else does. */
  lemma {:induction false} WordsJoin(s: string)
    ensures Join(Words(s), " ") == Collapse(s)
    decreases |s|
  {
    if s == [] {
    } else if IsSpace(s[0]) {
      var t := s[SkipSpaces(s, 0)..];
      WordsJoin(t);
      var w := Words(t);
      assert ([""] + w)[1..] == w;
    } else {
      WordsJoin(s[1..]);
      JoinCons(s[0], Words(s[1..]), " ");
    }
  }

  /** `s.replace(/\s/g, c)`: the same length, every whitespace character
      replaced by `c`, every other character kept; with `c` not whitespace,
      no whitespace is left. */
  function ReplaceSpaces(s: string, c: char): (r: string)
    ensures |r| == |s|
    ensures forall k :: 0 <= k < |s| ==> if IsSpace(s[k]) then r[k] == c else r[k] == s[k]
    ensures !IsSpace(c) ==> NoSpace(r)
  {
    seq(|s|, k requires 0 <= k < |s| => if IsSpace(s[k]) then c else s[k])
  }
}

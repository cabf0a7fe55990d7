/**
 * The Python `str` operations the screener relies on, over strings as
 * sequences of characters: `isspace`, `strip()`, `split(sep)`, `split()`,
 * `startswith` and `endswith`.
 */
module PyText {

  /** `c.isspace()`: the characters `strip()` and `split()` treat as whitespace. */
  predicate IsSpace(c: char) {
    || c == ' '
    || ('\t' <= c <= '\r')
    || ('\U{1c}' <= c <= '\U{1f}')
    || c == '\U{85}' || c == '\U{a0}' || c == '\U{1680}'
    || ('\U{2000}' <= c <= '\U{200a}')
    || c == '\U{2028}' || c == '\U{2029}' || c == '\U{202f}' || c == '\U{205f}' || c == '\U{3000}'
  }

  predicate NoSpace(s: string) {
    forall i :: 0 <= i < |s| ==> !IsSpace(s[i])
  }

  /** `s.startswith(prefix)` */
  predicate StartsWith(s: string, prefix: string) {
    |prefix| <= |s| && s[..|prefix|] == prefix
  }

  /** `s.endswith(suffix)` */
  predicate EndsWith(s: string, suffix: string) {
    |suffix| <= |s| && s[|s| - |suffix|..] == suffix
  }

  /** `s.lstrip()` */
  function TrimStart(s: string): (r: string)
    ensures |r| <= |s|
    ensures r == [] || !IsSpace(r[0])
  {
    if |s| > 0 && IsSpace(s[0]) then TrimStart(s[1..]) else s
  }

  /** `s.rstrip()` */
  function TrimEnd(s: string): (r: string)
    ensures |r| <= |s| && r == s[..|r|]
    ensures r == [] || !IsSpace(r[|r| - 1])
  {
    if |s| > 0 && IsSpace(s[|s| - 1]) then TrimEnd(s[..|s| - 1]) else s
  }

  /** `s.strip()`: the longest infix that neither begins nor ends with whitespace. */
  function Strip(s: string): (r: string)
    ensures |r| <= |s|
    ensures r == [] || (!IsSpace(r[0]) && !IsSpace(r[|r| - 1]))
  {
    var t := TrimStart(s);
    var r := TrimEnd(t);
    assert r != [] ==> r[0] == t[0];
    r
  }

  /** A string that neither begins nor ends with whitespace is its own `strip()`. */
  lemma StripUnpadded(s: string)
    requires s == [] || (!IsSpace(s[0]) && !IsSpace(s[|s| - 1]))
    ensures Strip(s) == s
  {
  }

  /** A string of whitespace only strips to the empty string. */
  lemma {:induction false} StripBlank(s: string)
    requires forall i :: 0 <= i < |s| ==> IsSpace(s[i])
    ensures TrimStart(s) == [] && Strip(s) == []
  {
    if s != [] {
      assert IsSpace(s[0]);
      StripBlank(s[1..]);
    }
  }

  /** The number of occurrences of `c` in `s` (`s.count(c)`). */
  function Count(s: string, c: char): (n: nat)
    ensures n <= |s|
    ensures n == 0 <==> c !in s
  {
    if s == [] then 0 else (if s[0] == c then 1 else 0) + Count(s[1..], c)
  }

  /** `s.split(sep)` for a one-character separator: the pieces between the separators. */
  function Split(s: string, sep: char): (r: seq<string>)
    ensures |r| >= 1
    ensures forall i :: 0 <= i < |r| ==> sep !in r[i]
  {
    if s == [] then [""]
    else
      var rest := Split(s[1..], sep);
      if s[0] == sep then [""] + rest
      else [[s[0]] + rest[0]] + rest[1..]
  }

  /** `sep.join(parts)` */
  function Join(parts: seq<string>, sep: char): string
    requires |parts| >= 1
  {
    if |parts| == 1 then parts[0] else parts[0] + [sep] + Join(parts[1..], sep)
  }

  /** Splitting on `sep` and joining the pieces with `sep` gives back the string. */
  lemma {:induction false} JoinSplit(s: string, sep: char)
    ensures Join(Split(s, sep), sep) == s
  {
    if s != [] {
      var rest := Split(s[1..], sep);
      JoinSplit(s[1..], sep);
      if s[0] != sep && |rest| > 1 {
        assert Split(s, sep)[1..] == rest[1..];
      }
    }
  }

  /** Joining separator-free pieces and splitting again gives back the pieces. */
  lemma {:induction false} SplitJoin(parts: seq<string>, sep: char)
    requires |parts| >= 1
    requires forall i :: 0 <= i < |parts| ==> sep !in parts[i]
    ensures Split(Join(parts, sep), sep) == parts
  {
    if |parts| == 1 {
      SplitNoSep(parts[0], sep);
    } else {
      SplitJoin(parts[1..], sep);
      SplitPrefix(parts[0], Join(parts[1..], sep), sep);
      assert Join(parts, sep) == parts[0] + ([sep] + Join(parts[1..], sep));
    }
  }

  lemma {:induction false} SplitNoSep(s: string, sep: char)
    requires sep !in s
    ensures Split(s, sep) == [s]
  {
    if s != [] {
      SplitNoSep(s[1..], sep);
      assert [s[0]] + s[1..] == s;
    }
  }

  /** A separator-free prefix followed by a separator becomes the first piece. */
  lemma {:induction false} SplitPrefix(a: string, b: string, sep: char)
    requires sep !in a
    ensures Split(a + [sep] + b, sep) == [a] + Split(b, sep)
  {
    if a != [] {
      assert (a + [sep] + b)[1..] == a[1..] + [sep] + b;
      SplitPrefix(a[1..], b, sep);
      assert [a[0]] + a[1..] == a;
    } else {
      assert (a + [sep] + b)[1..] == b;
    }
  }

  /** There is one more piece than there are separators. */
  lemma {:induction false} SplitCount(s: string, sep: char)
    ensures |Split(s, sep)| == Count(s, sep) + 1
  {
    if s != [] {
      SplitCount(s[1..], sep);
    }
  }

  /** Position of the first `c` in `s` (`s.index(c)`). */
  function IndexOf(s: string, c: char): (i: nat)
    requires c in s
    ensures i < |s| && s[i] == c && c !in s[..i]
  {
    if s[0] == c then 0 else 1 + IndexOf(s[1..], c)
  }

  /** A string holding `sep` exactly once splits into what comes before and after it. */
  lemma SplitOnce(s: string, sep: char)
    requires Count(s, sep) == 1
    ensures Split(s, sep) == [s[..IndexOf(s, sep)], s[IndexOf(s, sep) + 1..]]
  {
    var i := IndexOf(s, sep);
    assert s == s[..i] + [sep] + s[i + 1..];
    SplitPrefix(s[..i], s[i + 1..], sep);
    SplitCount(s, sep);
    CountSplit(s[..i], s[i + 1..], sep);
    SplitNoSep(s[i + 1..], sep);
  }

  lemma {:induction false} CountSplit(a: string, b: string, sep: char)
    requires sep !in a
    ensures Count(a + [sep] + b, sep) == 1 + Count(b, sep)
  {
    if a != [] {
      assert (a + [sep] + b)[1..] == a[1..] + [sep] + b;
      CountSplit(a[1..], b, sep);
    } else {
      assert (a + [sep] + b)[1..] == b;
    }
  }

  /** Length of the leading run of non-whitespace characters. */
  function WordLen(s: string): (n: nat)
    ensures n <= |s| && NoSpace(s[..n]) && (n == |s| || IsSpace(s[n]))
  {
    if s == [] || IsSpace(s[0]) then 0 else 1 + WordLen(s[1..])
  }

  /** `s.split()`: the maximal runs of non-whitespace characters, in order. */
  function Words(s: string): (r: seq<string>)
    ensures forall i :: 0 <= i < |r| ==> r[i] != [] && NoSpace(r[i])
    decreases |s|
  {
    if s == [] then []
    else if IsSpace(s[0]) then Words(s[1..])
    else
      var n := WordLen(s);
      [s[..n]] + Words(s[n..])
  }

  /** `split()` of blank text gives no words. */
  lemma {:induction false} WordsBlank(s: string)
    requires forall i :: 0 <= i < |s| ==> IsSpace(s[i])
    ensures Words(s) == []
    decreases |s|
  {
    if s != [] {
      WordsBlank(s[1..]);
    }
  }

  /** `split()` of one non-empty whitespace-free word gives that word. */
  lemma WordsSingle(w: string)
    requires w != [] && NoSpace(w)
    ensures Words(w) == [w]
  {
    WordLenOf(w, "");
    assert w + "" == w;
    assert w[..|w|] == w && w[|w|..] == "";
  }

  /**
   * A whitespace character separates the words on either side: with
   * `WordsBlank` and `WordsSingle` this fixes `split()` on every string,
   * whatever its leading, trailing or repeated whitespace.
   */
  lemma {:induction false} WordsSplitAt(a: string, c: char, b: string)
    requires IsSpace(c)
    ensures Words(a + [c] + b) == Words(a) + Words(b)
    decreases |a|
  {
    var s := a + [c] + b;
    if a == [] {
      assert s[1..] == b;
    } else if IsSpace(a[0]) {
      WordsSpaceHead(a, c, b);
      WordsSplitAt(a[1..], c, b);
    } else if WordLen(a) < |a| {
      var n := WordLen(a);
      WordsInnerWord(a, c, b);
      WordsSplitAt(a[n..], c, b);
      assert [a[..n]] + (Words(a[n..]) + Words(b)) == ([a[..n]] + Words(a[n..])) + Words(b);
    } else {
      WordsLastWord(a, c, b);
    }
  }

  /** A leading whitespace character of `a` is skipped in `a` and in `a + [c] + b` alike. */
  lemma WordsSpaceHead(a: string, c: char, b: string)
    requires a != [] && IsSpace(a[0])
    ensures Words(a) == Words(a[1..])
    ensures Words(a + [c] + b) == Words(a[1..] + [c] + b)
  {
    assert (a + [c] + b)[1..] == a[1..] + [c] + b;
  }

  /** The first word of `a` ends inside `a`: it is also the first word of `a + [c] + b`. */
  lemma WordsInnerWord(a: string, c: char, b: string)
    requires a != [] && !IsSpace(a[0]) && WordLen(a) < |a|
    ensures var n := WordLen(a);
      && 0 < n
      && Words(a) == [a[..n]] + Words(a[n..])
      && Words(a + [c] + b) == [a[..n]] + Words(a[n..] + [c] + b)
  {
    var s := a + [c] + b;
    var n := WordLen(a);
    WordLenAppend(a, [c] + b);
    assert s == a + ([c] + b);
    assert s[..n] == a[..n];
    assert s[n..] == a[n..] + [c] + b;
  }

  /** `a` is one whole word: the first word of `a + [c] + b` is `a`, and the rest follows `c`. */
  lemma WordsLastWord(a: string, c: char, b: string)
    requires IsSpace(c) && a != [] && !IsSpace(a[0]) && WordLen(a) == |a|
    ensures Words(a + [c] + b) == Words(a) + Words(b)
  {
    var s := a + [c] + b;
    assert a[..|a|] == a;
    WordsSingle(a);
    WordLenOf(a, [c] + b);
    assert s == a + ([c] + b);
    assert s[..|a|] == a && s[|a|..] == [c] + b;
    assert ([c] + b)[1..] == b;
  }

  /** A word that ends inside `a` ends at the same place in any extension of `a`. */
  lemma {:induction false} WordLenAppend(a: string, x: string)
    requires WordLen(a) < |a|
    ensures WordLen(a + x) == WordLen(a)
    decreases |a|
  {
    if !IsSpace(a[0]) {
      assert (a + x)[1..] == a[1..] + x;
      WordLenAppend(a[1..], x);
    }
  }

  /** `" ".join(words)` */
  function Unwords(words: seq<string>): string
  {
    if words == [] then "" else if |words| == 1 then words[0] else words[0] + " " + Unwords(words[1..])
  }

  /** Joining non-empty, whitespace-free words with single spaces and splitting again gives back the words. */
  lemma {:induction false} WordsUnwords(words: seq<string>)
    requires forall i :: 0 <= i < |words| ==> words[i] != [] && NoSpace(words[i])
    ensures Words(Unwords(words)) == words
  {
    if |words| == 1 {
      WordLenOf(words[0], "");
      assert words[0] + "" == words[0];
      assert words[0][..|words[0]|] == words[0];
      assert words[0][|words[0]|..] == "";
    } else if |words| > 1 {
      var w := words[0];
      var rest := " " + Unwords(words[1..]);
      WordLenOf(w, rest);
      assert Unwords(words) == w + rest;
      assert (w + rest)[..|w|] == w;
      assert (w + rest)[|w|..] == rest;
      assert rest[1..] == Unwords(words[1..]);
      WordsUnwords(words[1..]);
    }
  }

  lemma {:induction false} WordLenOf(w: string, rest: string)
    requires NoSpace(w)
    requires rest == [] || IsSpace(rest[0])
    ensures WordLen(w + rest) == |w|
  {
    if w != [] {
      assert (w + rest)[1..] == w[1..] + rest;
      WordLenOf(w[1..], rest);
    } else {
      assert w + rest == rest;
    }
  }

  /** ASCII lower-casing of one character. */
  function ToLower(c: char): (r: char)
    ensures ('A' <= c <= 'Z') ==> 'a' <= r <= 'z'
    ensures !('A' <= c <= 'Z') ==> r == c
  {
    if 'A' <= c <= 'Z' then (c as int - 'A' as int + 'a' as int) as char else c
  }

  function Lower(s: string): (r: string)
    ensures |r| == |s|
  {
    if s == [] then "" else [ToLower(s[0])] + Lower(s[1..])
  }

  /** A character other than the space that no word holds is not in the words joined with spaces. */
  lemma {:induction false} UnwordsAvoids(words: seq<string>, c: char)
    requires c != ' '
    requires forall i :: 0 <= i < |words| ==> c !in words[i]
    ensures c !in Unwords(words)
    decreases |words|
  {
    if |words| > 1 {
      UnwordsAvoids(words[1..], c);
    }
  }

  /** Non-empty, whitespace-free words joined with spaces end in a non-space character. */
  lemma {:induction false} UnwordsEnd(words: seq<string>)
    requires forall i :: 0 <= i < |words| ==> words[i] != [] && NoSpace(words[i])
    ensures Unwords(words) == [] <==> words == []
    ensures Unwords(words) != [] ==> !IsSpace(Unwords(words)[|Unwords(words)| - 1])
    decreases |words|
  {
    if |words| > 1 {
      UnwordsEnd(words[1..]);
    }
  }

  /** The position of `c` after a prefix that does not hold it. */
  lemma {:induction false} IndexAfter(a: string, c: char, b: string)
    requires c !in a
    ensures IndexOf(a + [c] + b, c) == |a|
    decreases |a|
  {
    if a != [] {
      assert (a + [c] + b)[1..] == a[1..] + [c] + b;
      IndexAfter(a[1..], c, b);
    }
  }
}

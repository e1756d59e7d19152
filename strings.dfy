/** String operations the core relies on from Rust's standard library:
    `starts_with`, `ends_with`, `replace`, decimal formatting and `join`. */
module Strings {

  predicate StartsWith(s: string, prefix: string) {
    |prefix| <= |s| && s[..|prefix|] == prefix
  }

  predicate EndsWith(s: string, suffix: string) {
    |suffix| <= |s| && s[|s| - |suffix|..] == suffix
  }

  /** `str::replace`: every non-overlapping occurrence of `pat`, scanning
      from the left, is replaced by `rep`. */
  function ReplaceAll(s: string, pat: string, rep: string): string
    requires |pat| > 0
    decreases |s|
  {
    if |s| == 0 then []
    else if StartsWith(s, pat) then rep + ReplaceAll(s[|pat|..], pat, rep)
    else [s[0]] + ReplaceAll(s[1..], pat, rep)
  }

  /** Replacing by a text of the same length keeps the length. */
  lemma {:induction false} ReplaceAllLength(s: string, pat: string, rep: string)
    requires |pat| > 0 && |rep| == |pat|
    ensures |ReplaceAll(s, pat, rep)| == |s|
    decreases |s|
  {
    if |s| == 0 {
    } else if StartsWith(s, pat) {
      ReplaceAllLength(s[|pat|..], pat, rep);
    } else {
      ReplaceAllLength(s[1..], pat, rep);
    }
  }

  /** A character found in neither the input nor the replacement is not in the result. */
  lemma {:induction false} ReplaceAllAvoids(s: string, pat: string, rep: string, c: char)
    requires |pat| > 0 && c !in s && c !in rep
    ensures c !in ReplaceAll(s, pat, rep)
    decreases |s|
  {
    if |s| == 0 {
    } else if StartsWith(s, pat) {
      assert s[|pat|..] == s[|pat|..];
      assert forall k :: 0 <= k < |s[|pat|..]| ==> s[|pat|..][k] == s[|pat| + k];
      ReplaceAllAvoids(s[|pat|..], pat, rep, c);
    } else {
      assert forall k :: 0 <= k < |s[1..]| ==> s[1..][k] == s[1 + k];
      ReplaceAllAvoids(s[1..], pat, rep, c);
    }
  }

  /** Replacing a one-character pattern by text without that character removes it. */
  lemma {:induction false} ReplaceAllRemoves(s: string, c: char, rep: string)
    requires c !in rep
    ensures c !in ReplaceAll(s, [c], rep)
    decreases |s|
  {
    if |s| == 0 {
    } else if StartsWith(s, [c]) {
      ReplaceAllRemoves(s[1..], c, rep);
    } else {
      assert s[0] != c;
      ReplaceAllRemoves(s[1..], c, rep);
    }
  }

  /** A character that cannot start a match is kept as it is. */
  lemma {:induction false} ReplaceHead(ch: char, rest: string, pat: string, rep: string)
    requires |pat| > 0 && ch != pat[0]
    ensures ReplaceAll([ch] + rest, pat, rep) == [ch] + ReplaceAll(rest, pat, rep)
  {
    assert ([ch] + rest)[1..] == rest;
  }

  /** A prefix none of whose characters can start a match is kept as it is. */
  lemma {:induction false} ReplaceKeepsPrefix(a: string, y: string, pat: string, rep: string)
    requires |pat| > 0 && pat[0] !in a
    ensures ReplaceAll(a + y, pat, rep) == a + ReplaceAll(y, pat, rep)
    decreases |a|
  {
    if |a| == 0 {
      assert a + y == y;
    } else {
      assert a[1..] + y == (a + y)[1..];
      ReplaceKeepsPrefix(a[1..], y, pat, rep);
      ReplaceHead(a[0], a[1..] + y, pat, rep);
      assert a + y == [a[0]] + (a[1..] + y);
      assert a == [a[0]] + a[1..];
    }
  }

  /** Replacing one character by another works position by position. */
  lemma {:induction false} ReplaceCharPointwise(s: string, c: char, d: char)
    ensures |ReplaceAll(s, [c], [d])| == |s|
    ensures forall k :: 0 <= k < |s| ==> ReplaceAll(s, [c], [d])[k] == if s[k] == c then d else s[k]
    decreases |s|
  {
    if |s| > 0 {
      ReplaceCharPointwise(s[1..], c, d);
      var h := if s[0] == c then [d] else [s[0]];
      assert StartsWith(s, [c]) <==> s[0] == c;
      assert ReplaceAll(s, [c], [d]) == h + ReplaceAll(s[1..], [c], [d]);
    }
  }

  /** A trailing ".c" is always one of the matches, so it becomes ".o". */
  lemma {:induction false} ReplaceSuffix(s: string)
    requires EndsWith(s, ".c")
    ensures EndsWith(ReplaceAll(s, ".c", ".o"), ".o")
    decreases |s|
  {
    if |s| == 2 {
      assert s == ".c";
    } else if StartsWith(s, ".c") {
      assert s[1] == 'c';
      assert |s| != 3;
      assert s[2..][|s[2..]| - 2..] == s[|s| - 2..];
      ReplaceSuffix(s[2..]);
    } else {
      assert s[1..][|s[1..]| - 2..] == s[|s| - 2..];
      ReplaceSuffix(s[1..]);
      var t := ReplaceAll(s[1..], ".c", ".o");
      assert ReplaceAll(s, ".c", ".o") == [s[0]] + t;
      assert ([s[0]] + t)[|[s[0]] + t| - 2..] == t[|t| - 2..];
    }
  }

  function DigitChar(d: nat): char
    requires d < 10
  {
    "0123456789"[d]
  }

  /** Decimal formatting of a natural number (`{}` of an integer). */
  function Decimal(n: nat): string
    decreases n
  {
    if n < 10 then [DigitChar(n)] else Decimal(n / 10) + [DigitChar(n % 10)]
  }

  /** The number of line breaks in `s`. */
  function Newlines(s: string): nat
    decreases |s|
  {
    if |s| == 0 then 0 else (if s[0] == '\n' then 1 else 0) + Newlines(s[1..])
  }

  lemma {:induction false} NewlinesAppend(a: string, b: string)
    ensures Newlines(a + b) == Newlines(a) + Newlines(b)
    decreases |a|
  {
    if |a| == 0 {
      assert a + b == b;
    } else {
      assert (a + b)[1..] == a[1..] + b;
      NewlinesAppend(a[1..], b);
    }
  }

  lemma {:induction false} NoNewlines(s: string)
    requires '\n' !in s
    ensures Newlines(s) == 0
    decreases |s|
  {
    if |s| > 0 {
      assert s[0] != '\n';
      assert forall k :: 0 <= k < |s[1..]| ==> s[1..][k] == s[k + 1];
      NoNewlines(s[1..]);
    }
  }

  /** `slice.join(sep)`. */
  function Join(xs: seq<string>, sep: string): string
    decreases |xs|
  {
    if |xs| == 0 then ""
    else if |xs| == 1 then xs[0]
    else xs[0] + sep + Join(xs[1..], sep)
  }

  /** Joining lines free of line breaks with "\n" gives one break fewer
      than there are lines. */
  lemma {:induction false} JoinNewlines(xs: seq<string>)
    requires |xs| > 0
    requires forall i :: 0 <= i < |xs| ==> '\n' !in xs[i]
    ensures Newlines(Join(xs, "\n")) == |xs| - 1
    decreases |xs|
  {
    NoNewlines(xs[0]);
    if |xs| > 1 {
      JoinNewlines(xs[1..]);
      NewlinesAppend(xs[0] + "\n", Join(xs[1..], "\n"));
      NewlinesAppend(xs[0], "\n");
    }
  }
}

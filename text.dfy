/**
 * The string operations of Python that the page relies on: `str.isspace`,
 * `str.strip()`, `str.split(sep)`, `sep.join(xs)`, `str.split()` and `+=` over
 * a list of strings. Strings are sequences of Unicode scalar values.
 */
module Text {

  /** Python's `str.isspace` for one character: the whole Unicode set it accepts. */
  predicate IsSpace(c: char)
    ensures c == ' ' || c == '\t' || c == '\n' || c == '\r' ==> IsSpace(c)
    ensures ('a' <= c <= 'z') || ('A' <= c <= 'Z') || ('0' <= c <= '9') ==> !IsSpace(c)
    ensures IsSpace(c) ==> c as int <= 0x3000
  {
    var n := c as int;
    (0x09 <= n <= 0x0D) || (0x1C <= n <= 0x20) || n == 0x85 || n == 0xA0 || n == 0x1680
    || (0x2000 <= n <= 0x200A) || n == 0x2028 || n == 0x2029 || n == 0x202F
    || n == 0x205F || n == 0x3000
  }

  predicate AllSpace(s: string) {
    forall i :: 0 <= i < |s| ==> IsSpace(s[i])
  }

  predicate NoSpace(s: string) {
    forall i :: 0 <= i < |s| ==> !IsSpace(s[i])
  }

  // ---------------------------------------------------------------------------
  // str.strip()

  /** Drops the trailing whitespace: what is dropped is all whitespace, and what is kept does not end with it. */
  function TrimRight(s: string): (r: string)
    ensures |r| <= |s| && r == s[..|r|]
    ensures AllSpace(s[|r|..])
    ensures r == [] || !IsSpace(r[|r| - 1])
  {
    if s != [] && IsSpace(s[|s| - 1]) then
      var t := s[..|s| - 1];
      var r := TrimRight(t);
      assert r == s[..|r|];
      assert s[|r|..] == t[|r|..] + [s[|s| - 1]];
      r
    else s
  }

  /** Number of whitespace characters at the start of `s`. */
  function LeadingSpaces(s: string): (k: nat)
    ensures k <= |s|
  {
    if s != [] && IsSpace(s[0]) then 1 + LeadingSpaces(s[1..]) else 0
  }

  /** Python's `s.strip()`: `s` without the whitespace at both ends. */
  function Strip(s: string): (r: string)
    ensures |r| <= |s|
  {
    if s != [] && IsSpace(s[0]) then Strip(s[1..]) else TrimRight(s)
  }

  /** A stripped string is empty exactly when `s` is blank; otherwise it neither starts nor ends with whitespace. */
  lemma {:induction false} StripEnds(s: string)
    ensures Strip(s) == [] <==> AllSpace(s)
    ensures Strip(s) != [] ==> !IsSpace(Strip(s)[0]) && !IsSpace(Strip(s)[|Strip(s)| - 1])
  {
    if s != [] && IsSpace(s[0]) {
      StripEnds(s[1..]);
      assert s == [s[0]] + s[1..];
    } else {
      var r := TrimRight(s);
      assert r == [] ==> s == r + s[|r|..];
    }
  }

  /**
   * What `strip` removes is whitespace at the two ends: the result is the infix
   * of `s` that starts after its leading whitespace.
   */
  lemma {:induction false} StripInfix(s: string)
    ensures LeadingSpaces(s) + |Strip(s)| <= |s|
    ensures Strip(s) == s[LeadingSpaces(s)..LeadingSpaces(s) + |Strip(s)|]
    ensures AllSpace(s[..LeadingSpaces(s)]) && AllSpace(s[LeadingSpaces(s) + |Strip(s)|..])
  {
    if s != [] && IsSpace(s[0]) {
      var t := s[1..];
      StripInfix(t);
      var r := Strip(t);
      var i := LeadingSpaces(t);
      assert r == s[i + 1..i + 1 + |r|];
      assert s[..i + 1] == [s[0]] + t[..i];
      assert s[i + 1 + |r|..] == t[i + |r|..];
    } else {
      var r := TrimRight(s);
      assert r == s[0..0 + |r|];
      assert s[..0] == [];
    }
  }

  lemma StripIdempotent(s: string)
    ensures Strip(Strip(s)) == Strip(s)
  {
    var r := Strip(s);
    StripEnds(s);
    if r != [] {
      assert TrimRight(r) == r;
    }
  }

  // ---------------------------------------------------------------------------
  // sep.join(xs) and s.split(sep)

  /** Number of occurrences of `c` in `s`. */
  function Occurrences(s: string, c: char): nat {
    if s == [] then 0 else (if s[0] == c then 1 else 0) + Occurrences(s[1..], c)
  }

  /** Sum of the lengths of the pieces. */
  function TotalLength(xs: seq<string>): nat {
    if xs == [] then 0 else |xs[0]| + TotalLength(xs[1..])
  }

  /**
   * Python's `sep.join(xs)`: the pieces in order with one `sep` between
   * consecutive pieces, so the length is the pieces' total plus `|xs| - 1`.
   */
  function Join(xs: seq<string>, sep: char): (r: string)
    ensures |xs| == 0 ==> r == []
    ensures |xs| > 0 ==> |r| == TotalLength(xs) + |xs| - 1
  {
    if |xs| == 0 then []
    else if |xs| == 1 then xs[0]
    else xs[0] + [sep] + Join(xs[1..], sep)
  }

  /**
   * Python's `s.split(sep)` for a one-character separator: always at least one
   * piece (the empty string gives `[""]`), one more piece than there are
   * separators, and no piece holds the separator.
   */
  function Split(s: string, sep: char): (r: seq<string>)
    ensures |r| == Occurrences(s, sep) + 1
    ensures forall i :: 0 <= i < |r| ==> sep !in r[i]
  {
    if s == [] then [[]]
    else
      var rest := Split(s[1..], sep);
      if s[0] == sep then [[]] + rest
      else [[s[0]] + rest[0]] + rest[1..]
  }

  /** Prefixing text without a separator extends the first piece only. */
  lemma {:induction false} SplitPrefix(a: string, t: string, sep: char)
    requires sep !in a
    ensures Split(a + t, sep) == [a + Split(t, sep)[0]] + Split(t, sep)[1..]
  {
    if a != [] {
      var st := Split(t, sep);
      assert (a + t)[0] == a[0] && (a + t)[1..] == a[1..] + t;
      SplitPrefix(a[1..], t, sep);
      var rest := Split(a[1..] + t, sep);
      assert rest[0] == a[1..] + st[0] && rest[1..] == st[1..];
      assert a[0] != sep;
      assert Split(a + t, sep) == [[a[0]] + rest[0]] + rest[1..];
      assert [a[0]] + (a[1..] + st[0]) == a + st[0];
    } else {
      var st := Split(t, sep);
      assert a + t == t && a + st[0] == st[0];
      assert [st[0]] + st[1..] == st;
    }
  }

  /** Splitting at a separator splits the pieces: lines never merge across a separator. */
  lemma {:induction false} SplitAppend(a: string, b: string, sep: char)
    ensures Split(a + [sep] + b, sep) == Split(a, sep) + Split(b, sep)
    decreases |a|
  {
    if a == [] {
      assert a + [sep] + b == [sep] + b;
      assert ([sep] + b)[1..] == b;
    } else {
      assert (a + [sep] + b)[1..] == a[1..] + [sep] + b;
      SplitAppend(a[1..], b, sep);
    }
  }

  /** Joining the pieces of a split with the separator gives the text back. */
  lemma {:induction false} JoinSplit(s: string, sep: char)
    ensures Join(Split(s, sep), sep) == s
  {
    if s != [] {
      var rest := Split(s[1..], sep);
      JoinSplit(s[1..], sep);
      if s[0] == sep {
        assert Split(s, sep)[1..] == rest;
      } else {
        var r := Split(s, sep);
        if |rest| == 1 {
          assert r == [[s[0]] + rest[0]];
        } else {
          assert r[1..] == rest[1..];
          assert Join(rest, sep) == rest[0] + [sep] + Join(rest[1..], sep);
        }
      }
    }
  }

  /** `s.split(sep)` undoes `sep.join(xs)` when no piece holds the separator and there is at least one piece. */
  lemma {:induction false} SplitJoin(xs: seq<string>, sep: char)
    requires |xs| > 0
    requires forall i :: 0 <= i < |xs| ==> sep !in xs[i]
    ensures Split(Join(xs, sep), sep) == xs
  {
    if |xs| == 1 {
      SplitPrefix(xs[0], [], sep);
      assert xs[0] + [] == xs[0];
    } else {
      SplitJoin(xs[1..], sep);
      var tail := Join(xs[1..], sep);
      SplitPrefix(xs[0], [sep] + tail, sep);
      assert xs[0] + [sep] + tail == xs[0] + ([sep] + tail);
      assert ([sep] + tail)[1..] == tail;
      assert xs[0] + [] == xs[0];
      assert [xs[0]] + xs[1..] == xs;
    }
  }

  // ---------------------------------------------------------------------------
  // Concatenation of a sequence of strings

  /** The pieces written one after the other, without a separator. */
  function Concat(xs: seq<string>): (r: string)
    ensures |r| == TotalLength(xs)
  {
    if xs == [] then [] else xs[0] + Concat(xs[1..])
  }

  lemma {:induction false} ConcatAppend(a: seq<string>, b: seq<string>)
    ensures Concat(a + b) == Concat(a) + Concat(b)
  {
    if a != [] {
      assert (a + b)[1..] == a[1..] + b;
      ConcatAppend(a[1..], b);
    } else {
      assert a + b == b;
    }
  }

  // ---------------------------------------------------------------------------
  // s.split() with no argument

  /** Length of the run of non-whitespace characters at the start of `s`. */
  function RunLength(s: string): (k: nat)
    ensures k <= |s|
    ensures NoSpace(s[..k])
    ensures k < |s| ==> IsSpace(s[k])
  {
    if s == [] || IsSpace(s[0]) then 0 else 1 + RunLength(s[1..])
  }

  /**
   * Python's `s.split()`: the maximal runs of non-whitespace characters, in
   * order. Every word is non-empty and holds no whitespace.
   */
  function Words(s: string): (r: seq<string>)
    ensures forall i :: 0 <= i < |r| ==> r[i] != [] && NoSpace(r[i])
    decreases |s|
  {
    if s == [] then []
    else if IsSpace(s[0]) then Words(s[1..])
    else
      var k := RunLength(s);
      [s[..k]] + Words(s[k..])
  }

  /**
   * Reference count of the maximal runs of non-whitespace characters: a
   * left-to-right scan that counts each non-whitespace character standing at
   * the start of `s` (when `afterSpace`) or right after a whitespace character.
   */
  function CountRuns(s: string, afterSpace: bool): nat {
    if s == [] then 0
    else (if afterSpace && !IsSpace(s[0]) then 1 else 0) + CountRuns(s[1..], IsSpace(s[0]))
  }

  /** The characters of `s` that are not whitespace, in order. */
  function NonSpace(s: string): string {
    if s == [] then [] else (if IsSpace(s[0]) then [] else [s[0]]) + NonSpace(s[1..])
  }

  lemma {:induction false} SkipRun(t: string)
    ensures CountRuns(t, false) == CountRuns(t[RunLength(t)..], true)
  {
    if t != [] && !IsSpace(t[0]) {
      SkipRun(t[1..]);
      assert t[1..][RunLength(t[1..])..] == t[RunLength(t)..];
    }
  }

  /** `len(s.split())` is the number of maximal non-whitespace runs. */
  lemma {:induction false} WordsCountRuns(s: string)
    ensures |Words(s)| == CountRuns(s, true)
    decreases |s|
  {
    if s != [] {
      if IsSpace(s[0]) {
        WordsCountRuns(s[1..]);
      } else {
        var k := RunLength(s);
        WordsCountRuns(s[k..]);
        SkipRun(s[1..]);
        assert s[1..][RunLength(s[1..])..] == s[k..];
      }
    }
  }

  lemma {:induction false} NonSpaceAppend(a: string, b: string)
    ensures NonSpace(a + b) == NonSpace(a) + NonSpace(b)
  {
    if a == [] {
      assert a + b == b;
    } else {
      assert (a + b)[1..] == a[1..] + b;
      NonSpaceAppend(a[1..], b);
    }
  }

  lemma {:induction false} NonSpaceOfWord(w: string)
    requires NoSpace(w)
    ensures NonSpace(w) == w
  {
    if w != [] {
      NonSpaceOfWord(w[1..]);
    }
  }

  /** The words hold exactly the non-whitespace characters of `s`, in order. */
  lemma {:induction false} WordsKeepContent(s: string)
    ensures Concat(Words(s)) == NonSpace(s)
    decreases |s|
  {
    if s != [] {
      if IsSpace(s[0]) {
        WordsKeepContent(s[1..]);
      } else {
        var k := RunLength(s);
        WordsKeepContent(s[k..]);
        assert s == s[..k] + s[k..];
        NonSpaceAppend(s[..k], s[k..]);
        NonSpaceOfWord(s[..k]);
        assert ([s[..k]] + Words(s[k..]))[1..] == Words(s[k..]);
      }
    }
  }
}

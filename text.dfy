/** The slice of Python's `str` that the core relies on: `isspace`,
    `split(sep)`, `strip()`, `split()` (whitespace tokens), `sep.join(...)`
    and `str(n)` for a non-negative integer. Strings are sequences of
    Unicode scalar values, as Python's are. */
module Text {

  /** The characters for which Python's `str.isspace()` is true. */
  const Whitespace: set<char> := set c: char |
    9 <= c as int <= 13 || 0x1C <= c as int <= 0x20 || c as int == 0x85 || c as int == 0xA0 ||
    c as int == 0x1680 || 0x2000 <= c as int <= 0x200A || c as int == 0x2028 || c as int == 0x2029 ||
    c as int == 0x202F || c as int == 0x205F || c as int == 0x3000

  /** The line boundaries recognised by Python's `str.splitlines()`. */
  const LineBreaks: set<char> := set c: char |
    0x0A <= c as int <= 0x0D || 0x1C <= c as int <= 0x1E || c as int == 0x85 ||
    c as int == 0x2028 || c as int == 0x2029

  /** No character of `s` is in `chars`. */
  predicate Free(s: string, chars: set<char>) {
    forall i :: 0 <= i < |s| ==> s[i] !in chars
  }

  // ---------- split on separator characters ----------

  /** Python's `s.split(sep)` generalised to a set of one-character
      separators: the pieces between separators, empty ones included. */
  function Split(s: string, seps: set<char>): (r: seq<string>)
    ensures |r| >= 1
  {
    if s == [] then [[]]
    else
      var rest := Split(s[1..], seps);
      if s[0] in seps then [[]] + rest
      else [[s[0]] + rest[0]] + rest[1..]
  }

  lemma {:induction false} SplitPiecesFree(s: string, seps: set<char>)
    ensures forall k :: 0 <= k < |Split(s, seps)| ==> Free(Split(s, seps)[k], seps)
  {
    if s != [] {
      SplitPiecesFree(s[1..], seps);
    }
  }

  lemma {:induction false} SplitFree(s: string, seps: set<char>)
    requires Free(s, seps)
    ensures Split(s, seps) == [s]
  {
    if s != [] {
      SplitFree(s[1..], seps);
      assert [s[0]] + s[1..] == s;
    }
  }

  /** How `Split` treats the first character. */
  lemma {:induction false} SplitCons(x: char, s: string, seps: set<char>)
    ensures x in seps ==> Split([x] + s, seps) == [[]] + Split(s, seps)
    ensures x !in seps ==> Split([x] + s, seps) == [[x] + Split(s, seps)[0]] + Split(s, seps)[1..]
  {
    assert ([x] + s)[0] == x && ([x] + s)[1..] == s;
  }

  /** The sequence algebra behind `SplitConsBoth`: a character joins the
      first piece, or a separator opens a new empty piece. */
  lemma {:induction false} ConsPieces(x: char, isSep: bool, tail: seq<string>, right: seq<string>)
    requires |tail| >= 1
    ensures var whole := tail + right;
      (if isSep then [[]] + whole else [[x] + whole[0]] + whole[1..])
      == (if isSep then [[]] + tail else [[x] + tail[0]] + tail[1..]) + right
  {
    var whole := tail + right;
    if !isSep {
      assert whole[0] == tail[0] && whole[1..] == tail[1..] + right;
    }
  }

  /** One step of `SplitAt`: a character put in front of both texts keeps
      the pieces of `u` those of `a` followed by `right`. */
  lemma {:induction false} SplitConsBoth(x: char, u: string, a: string, right: seq<string>, seps: set<char>)
    requires Split(u, seps) == Split(a, seps) + right
    ensures Split([x] + u, seps) == Split([x] + a, seps) + right
  {
    SplitCons(x, u, seps);
    SplitCons(x, a, seps);
    ConsPieces(x, x in seps, Split(a, seps), right);
  }

  /** Splitting at a separator splits the two sides independently. */
  lemma {:induction false} SplitAt(a: string, c: char, b: string, seps: set<char>)
    requires c in seps
    ensures Split(a + [c] + b, seps) == Split(a, seps) + Split(b, seps)
  {
    if a == [] {
      assert a + [c] + b == [c] + b;
      SplitCons(c, b, seps);
    } else {
      SplitAt(a[1..], c, b, seps);
      SplitConsBoth(a[0], a[1..] + [c] + b, a[1..], Split(b, seps), seps);
      assert a + [c] + b == [a[0]] + (a[1..] + [c] + b) && a == [a[0]] + a[1..];
    }
  }

  // ---------- substrings ----------

  /** Python's `pat in s`: `pat` occurs somewhere in `s`. */
  predicate Occurs(pat: string, s: string)
    decreases |s|
  {
    |pat| <= |s| && (s[..|pat|] == pat || (s != [] && Occurs(pat, s[1..])))
  }

  /** A pattern found at any position of `s` occurs in `s`. */
  lemma {:induction false} OccursAt(pat: string, s: string, i: nat)
    requires i + |pat| <= |s| && s[i..i + |pat|] == pat
    ensures Occurs(pat, s)
    decreases i
  {
    if i > 0 {
      assert s[1..][i - 1..i - 1 + |pat|] == s[i..i + |pat|];
      OccursAt(pat, s[1..], i - 1);
    }
  }

  /** A pattern holding a character that `s` lacks does not occur in `s`. */
  lemma {:induction false} OccursNeedsChar(pat: string, s: string, i: nat)
    requires i < |pat| && pat[i] !in s
    ensures !Occurs(pat, s)
    decreases |s|
  {
    if |pat| <= |s| {
      assert s[..|pat|][i] == s[i];
      assert pat[i] !in s[1..] by {
        forall k | 0 <= k < |s| - 1 ensures s[1..][k] != pat[i] {
          assert s[1..][k] == s[k + 1];
        }
      }
      OccursNeedsChar(pat, s[1..], i);
    }
  }

  // ---------- join ----------

  /** Python's `sep.join(xs)`. */
  function Join(sep: string, xs: seq<string>): string
  {
    if xs == [] then []
    else if |xs| == 1 then xs[0]
    else xs[0] + sep + Join(sep, xs[1..])
  }

  lemma {:induction false} JoinAppend(sep: string, a: seq<string>, b: seq<string>)
    requires a != [] && b != []
    ensures Join(sep, a + b) == Join(sep, a) + sep + Join(sep, b)
  {
    if |a| == 1 {
      assert (a + b)[1..] == b;
    } else {
      JoinAppend(sep, a[1..], b);
      assert (a + b)[1..] == a[1..] + b;
    }
  }

  lemma {:induction false} JoinGroupLast(sep: string, xs: seq<string>, g: seq<string>)
    requires g != []
    ensures Join(sep, xs + [Join(sep, g)]) == Join(sep, xs + g)
  {
    if xs == [] {
      assert xs + [Join(sep, g)] == [Join(sep, g)];
      assert xs + g == g;
    } else {
      JoinAppend(sep, xs, [Join(sep, g)]);
      JoinAppend(sep, xs, g);
    }
  }

  /** Joining a group first and then joining with the same separator is the
      same as joining everything: `" ".join(xs + [" ".join(g)] + ys) == " ".join(xs + g + ys)`. */
  lemma {:induction false} JoinFlatten(sep: string, xs: seq<string>, g: seq<string>, ys: seq<string>)
    requires g != []
    ensures Join(sep, xs + [Join(sep, g)] + ys) == Join(sep, xs + g + ys)
  {
    JoinGroupLast(sep, xs, g);
    if ys == [] {
      assert xs + [Join(sep, g)] + ys == xs + [Join(sep, g)];
      assert xs + g + ys == xs + g;
    } else {
      JoinAppend(sep, xs + [Join(sep, g)], ys);
      JoinAppend(sep, xs + g, ys);
    }
  }

  /** Joining with a one-character separator and splitting on it again gives
      back the pieces, provided no piece contains a separator. */
  lemma {:induction false} SplitJoin(xs: seq<string>, c: char, seps: set<char>)
    requires c in seps && xs != []
    requires forall k :: 0 <= k < |xs| ==> Free(xs[k], seps)
    ensures Split(Join([c], xs), seps) == xs
  {
    if |xs| == 1 {
      SplitFree(xs[0], seps);
    } else {
      SplitJoin(xs[1..], c, seps);
      SplitFree(xs[0], seps);
      SplitAt(xs[0], c, Join([c], xs[1..]), seps);
      assert [xs[0]] + xs[1..] == xs;
    }
  }

  // ---------- strip ----------

  /** The first index at or after `i` that does not hold whitespace. */
  function SkipSpace(s: string, i: nat): (r: nat)
    requires i <= |s|
    ensures i <= r <= |s| && (r == |s| || s[r] !in Whitespace)
    decreases |s| - i
  {
    if i < |s| && s[i] in Whitespace then SkipSpace(s, i + 1) else i
  }

  /** The end of `s[lo..hi]` once trailing whitespace is dropped. */
  function SkipSpaceBack(s: string, lo: nat, hi: nat): (r: nat)
    requires lo <= hi <= |s|
    ensures lo <= r <= hi && (r == lo || s[r - 1] !in Whitespace)
  {
    if hi > lo && s[hi - 1] in Whitespace then SkipSpaceBack(s, lo, hi - 1) else hi
  }

  /** Neither end is whitespace: what `str.strip()` returns. */
  predicate IsStripped(s: string) {
    s == [] || (s[0] !in Whitespace && s[|s| - 1] !in Whitespace)
  }

  /** Python's `s.strip()`: the slice of `s` between its leading and its
      trailing whitespace. */
  function Strip(s: string): (r: string)
    ensures IsStripped(r)
  {
    var lo := SkipSpace(s, 0);
    s[lo..SkipSpaceBack(s, lo, |s|)]
  }

  lemma {:induction false} StripStripped(s: string)
    requires IsStripped(s)
    ensures Strip(s) == s
  {
    assert SkipSpace(s, 0) == 0;
    assert s[0..|s|] == s;
  }

  lemma {:induction false} StripKeepsFree(s: string, chars: set<char>)
    requires Free(s, chars)
    ensures Free(Strip(s), chars)
  {
    var lo := SkipSpace(s, 0);
    var r := Strip(s);
    assert forall k :: 0 <= k < |r| ==> r[k] == s[lo + k];
  }

  lemma {:induction false} SkipSpaceShift(x: string, i: nat)
    requires i <= |x|
    ensures SkipSpace(" " + x, i + 1) == SkipSpace(x, i) + 1
    decreases |x| - i
  {
    if i < |x| {
      assert (" " + x)[i + 1] == x[i];
      if x[i] in Whitespace {
        SkipSpaceShift(x, i + 1);
      }
    }
  }

  /** The leading space is skipped along with the text's own. */
  lemma SkipSpaceAfterSpace(x: string)
    ensures SkipSpace(" " + x, 0) == SkipSpace(x, 0) + 1
  {
    assert (" " + x)[0] == ' ' && ' ' in Whitespace;
    SkipSpaceShift(x, 0);
  }

  lemma {:induction false} SkipSpaceBackShift(x: string, lo: nat, hi: nat)
    requires lo <= hi <= |x|
    ensures SkipSpaceBack(" " + x, lo + 1, hi + 1) == SkipSpaceBack(x, lo, hi) + 1
  {
    if hi > lo {
      assert (" " + x)[hi] == x[hi - 1];
      if x[hi - 1] in Whitespace {
        SkipSpaceBackShift(x, lo, hi - 1);
      }
    }
  }

  lemma StripBounds(s: string, lo: nat, hi: nat)
    requires lo == SkipSpace(s, 0) && hi == SkipSpaceBack(s, lo, |s|)
    ensures Strip(s) == s[lo..hi]
  {
  }

  lemma {:induction false} SliceAfterSpace(x: string, lo: nat, hi: nat)
    requires lo <= hi <= |x|
    ensures (" " + x)[lo + 1..hi + 1] == x[lo..hi]
  {
    var y := " " + x;
    forall k | 0 <= k < hi - lo ensures y[lo + 1..hi + 1][k] == x[lo..hi][k] {
      assert y[lo + 1 + k] == x[lo + k];
    }
  }

  /** A space in front of a text is removed by `strip()`. */
  lemma {:induction false} StripAfterSpace(x: string)
    ensures Strip(" " + x) == Strip(x)
  {
    var y := " " + x;
    var lo := SkipSpace(x, 0);
    var hi := SkipSpaceBack(x, lo, |x|);
    SkipSpaceAfterSpace(x);
    SkipSpaceBackShift(x, lo, |x|);
    StripBounds(y, lo + 1, hi + 1);
    StripBounds(x, lo, hi);
    SliceAfterSpace(x, lo, hi);
  }

  /** `[x.strip() for x in xs]` */
  function StripEach(xs: seq<string>): (r: seq<string>)
    ensures |r| == |xs|
    ensures forall k :: 0 <= k < |r| ==> r[k] == Strip(xs[k])
  {
    if xs == [] then [] else [Strip(xs[0])] + StripEach(xs[1..])
  }

  /** `[x for x in xs if x]`: the non-empty elements, in order. */
  function NonEmpty(xs: seq<string>): (r: seq<string>)
    ensures |r| <= |xs|
    ensures forall k :: 0 <= k < |r| ==> r[k] != []
  {
    if xs == [] then []
    else (if xs[0] == [] then [] else [xs[0]]) + NonEmpty(xs[1..])
  }

  lemma NonEmptyCons(x: string, xs: seq<string>)
    ensures NonEmpty([x] + xs) == (if x == [] then [] else [x]) + NonEmpty(xs)
  {
    assert ([x] + xs)[0] == x && ([x] + xs)[1..] == xs;
  }

  lemma {:induction false} NonEmptyAppend(a: seq<string>, b: seq<string>)
    ensures NonEmpty(a + b) == NonEmpty(a) + NonEmpty(b)
  {
    if a == [] {
      assert a + b == b;
    } else {
      var head := if a[0] == [] then [] else [a[0]];
      assert NonEmpty(a + b) == head + NonEmpty(a[1..] + b) by {
        assert a + b == [a[0]] + (a[1..] + b);
        NonEmptyCons(a[0], a[1..] + b);
      }
      assert NonEmpty(a) == head + NonEmpty(a[1..]) by {
        assert a == [a[0]] + a[1..];
        NonEmptyCons(a[0], a[1..]);
      }
      NonEmptyAppend(a[1..], b);
    }
  }

  lemma {:induction false} NonEmptyKeepsAll(xs: seq<string>)
    requires forall k :: 0 <= k < |xs| ==> xs[k] != []
    ensures NonEmpty(xs) == xs
  {
    if xs != [] {
      NonEmptyKeepsAll(xs[1..]);
    }
  }

  lemma {:induction false} NonEmptyElements(xs: seq<string>)
    ensures forall k :: 0 <= k < |NonEmpty(xs)| ==> NonEmpty(xs)[k] in xs
  {
    if xs != [] {
      NonEmptyElements(xs[1..]);
    }
  }

  // ---------- whitespace tokens ----------

  /** A token of `str.split()`: non-empty and free of whitespace. */
  predicate IsToken(w: string) {
    w != [] && Free(w, Whitespace)
  }

  /** Python's `s.split()` with no argument: the maximal runs of
      non-whitespace characters. */
  function Words(s: string): (r: seq<string>)
    ensures forall k :: 0 <= k < |r| ==> IsToken(r[k])
  {
    SplitPiecesFree(s, Whitespace);
    NonEmptyElements(Split(s, Whitespace));
    NonEmpty(Split(s, Whitespace))
  }

  /** A single space between two texts only separates their tokens. */
  lemma {:induction false} WordsAroundSpace(a: string, b: string)
    ensures Words(a + " " + b) == Words(a) + Words(b)
  {
    assert a + " " + b == a + [' '] + b;
    SplitAt(a, ' ', b, Whitespace);
    NonEmptyAppend(Split(a, Whitespace), Split(b, Whitespace));
  }

  /** Token counts add up over a space-joined list. */
  lemma {:induction false} WordsOfJoinAppend(xs: seq<string>, s: string)
    ensures |Words(Join(" ", xs + [s]))| == |Words(Join(" ", xs))| + |Words(s)|
  {
    if xs == [] {
      assert xs + [s] == [s];
      assert Words([]) == [] by {
        assert Split([], Whitespace) == [[]];
      }
    } else {
      JoinAppend(" ", xs, [s]);
      WordsAroundSpace(Join(" ", xs), s);
    }
  }

  /** `" ".join(tokens).split() == tokens` */
  lemma {:induction false} WordsOfJoinedTokens(ws: seq<string>)
    requires forall k :: 0 <= k < |ws| ==> IsToken(ws[k])
    ensures Words(Join(" ", ws)) == ws
  {
    if ws == [] {
      assert Split([], Whitespace) == [[]];
    } else {
      SplitFree(ws[0], Whitespace);
      if |ws| == 1 {
      } else {
        WordsOfJoinedTokens(ws[1..]);
        WordsAroundSpace(ws[0], Join(" ", ws[1..]));
        assert [ws[0]] + ws[1..] == ws;
      }
    }
  }

  // ---------- decimal numerals ----------

  predicate IsDigit(c: char) {
    '0' as int <= c as int <= '9' as int
  }

  /** Python's `str(n)` for `n >= 0`. */
  function NatToString(n: nat): (r: string)
    ensures r != [] && forall k :: 0 <= k < |r| ==> IsDigit(r[k])
  {
    if n < 10 then [Digit(n)] else NatToString(n / 10) + [Digit(n % 10)]
  }

  function Digit(d: nat): (c: char)
    requires d < 10
    ensures IsDigit(c)
  {
    "0123456789"[d]
  }

  /** The value of a string of decimal digits. */
  function ParseNat(s: string): nat
    requires forall k :: 0 <= k < |s| ==> IsDigit(s[k])
  {
    if s == [] then 0 else 10 * ParseNat(s[..|s| - 1]) + DigitValue(s[|s| - 1])
  }

  function DigitValue(c: char): nat
    requires IsDigit(c)
  {
    c as int - '0' as int
  }

  lemma {:induction false} ParseNatToString(n: nat)
    ensures ParseNat(NatToString(n)) == n
  {
    var s := NatToString(n);
    if n < 10 {
      assert s[..0] == [];
    } else {
      ParseNatToString(n / 10);
      assert s[..|s| - 1] == NatToString(n / 10);
    }
  }

  lemma {:induction false} NatToStringInjective(m: nat, n: nat)
    requires NatToString(m) == NatToString(n)
    ensures m == n
  {
    ParseNatToString(m);
    ParseNatToString(n);
  }

  /** The longest all-digit suffix of `s`. */
  function TrailingDigits(s: string): (r: string)
    ensures forall k :: 0 <= k < |r| ==> IsDigit(r[k])
  {
    if s == [] || !IsDigit(s[|s| - 1]) then [] else TrailingDigits(s[..|s| - 1]) + [s[|s| - 1]]
  }

  lemma {:induction false} TrailingDigitsAfter(a: string, d: string)
    requires a != [] && !IsDigit(a[|a| - 1])
    requires forall k :: 0 <= k < |d| ==> IsDigit(d[k])
    ensures TrailingDigits(a + d) == d
  {
    if d == [] {
      assert a + d == a;
    } else {
      TrailingDigitsAfter(a, d[..|d| - 1]);
      assert (a + d)[..|a + d| - 1] == a + d[..|d| - 1];
      assert d[..|d| - 1] + [d[|d| - 1]] == d;
    }
  }
}

/**
 * The parts of Go's `strings` package that the flag binder relies on, over
 * strings as sequences of runes: TrimSpace, ToLower, Index, Count, Split and
 * Join.  These are the standard library's behaviour, stated once here so that
 * the tag parser and the string helpers can be specified in their terms.
 */
module GoStrings {

  /** unicode.IsSpace: the Unicode White_Space property. */
  predicate IsSpace(c: char)
  {
    ('\t' <= c <= '\r') || c == ' ' || c == '\U{0085}' || c == '\U{00A0}' ||
    c == '\U{1680}' || ('\U{2000}' <= c <= '\U{200A}') || c == '\U{2028}' || c == '\U{2029}' ||
    c == '\U{202F}' || c == '\U{205F}' || c == '\U{3000}'
  }

  /** Every rune of `s` is white space (vacuously so for ""). */
  predicate AllSpace(s: string)
  {
    forall k :: 0 <= k < |s| ==> IsSpace(s[k])
  }

  /** True when `s` neither starts nor ends with white space. */
  predicate Trimmed(s: string)
  {
    s == [] || (!IsSpace(s[0]) && !IsSpace(s[|s| - 1]))
  }

  /** The index of the first rune at or after `i` that is not white space (|s| if none). */
  function SkipSpace(s: string, i: nat): (r: nat)
    requires i <= |s|
    ensures i <= r <= |s|
    ensures r < |s| ==> !IsSpace(s[r])
    ensures forall k :: i <= k < r ==> IsSpace(s[k])
    decreases |s| - i
  {
    if i < |s| && IsSpace(s[i]) then SkipSpace(s, i + 1) else i
  }

  /** The end of `s[..j]` once trailing white space down to `lo` is dropped. */
  function SkipSpaceBack(s: string, lo: nat, j: nat): (r: nat)
    requires lo <= j <= |s|
    ensures lo <= r <= j
    ensures r > lo ==> !IsSpace(s[r - 1])
    ensures forall k :: r <= k < j ==> IsSpace(s[k])
    decreases j
  {
    if j > lo && IsSpace(s[j - 1]) then SkipSpaceBack(s, lo, j - 1) else j
  }

  /** strings.TrimSpace: drops leading and trailing white space and nothing else. */
  function TrimSpace(s: string): (r: string)
    ensures Trimmed(r) && |r| <= |s|
    ensures AllSpace(s) ==> r == []
  {
    var lo := SkipSpace(s, 0);
    var hi := SkipSpaceBack(s, lo, |s|);
    s[lo..hi]
  }

  /**
   * What TrimSpace keeps: the slice of `s` that starts at its first rune
   * that is not white space, with only white space before and after it.
   */
  lemma TrimSpaceStripsEnds(s: string)
    ensures var r := TrimSpace(s);
      var lo := SkipSpace(s, 0);
      lo + |r| <= |s| && r == s[lo..lo + |r|] && AllSpace(s[..lo]) && AllSpace(s[lo + |r|..])
  {
    var lo := SkipSpace(s, 0);
    var hi := SkipSpaceBack(s, lo, |s|);
    assert TrimSpace(s) == s[lo..hi];
  }

  /**
   * Padding a trimmed text with white space on either side is undone by
   * TrimSpace: the kept slice is determined by the text, not by how it was cut.
   */
  lemma TrimSpacePadded(a: string, t: string, b: string)
    requires AllSpace(a) && AllSpace(b) && Trimmed(t)
    ensures TrimSpace(a + t + b) == t
  {
    var s := a + t + b;
    if t == [] {
      assert AllSpace(s) by {
        forall k | 0 <= k < |s| ensures IsSpace(s[k]) {
          if k < |a| { assert s[k] == a[k]; } else { assert s[k] == b[k - |a|]; }
        }
      }
    } else {
      assert s[|a|] == t[0];
      assert forall k :: 0 <= k < |a| ==> s[k] == a[k];
      assert SkipSpace(s, 0) == |a| by {
        SkipSpaceStops(s, 0, |a|);
      }
      assert s[|a| + |t| - 1] == t[|t| - 1];
      assert forall k :: |a| + |t| <= k < |s| ==> s[k] == b[k - |a| - |t|];
      assert SkipSpaceBack(s, |a|, |s|) == |a| + |t| by {
        SkipSpaceBackStops(s, |a|, |a| + |t|, |s|);
      }
      assert s[|a|..|a| + |t|] == t;
    }
  }

  /** SkipSpace from `i` stops at the first rune that is not white space. */
  lemma {:induction false} SkipSpaceStops(s: string, i: nat, m: nat)
    requires i <= m < |s| && !IsSpace(s[m])
    requires forall k :: i <= k < m ==> IsSpace(s[k])
    ensures SkipSpace(s, i) == m
    decreases m - i
  {
    if i < m {
      SkipSpaceStops(s, i + 1, m);
    }
  }

  /** SkipSpaceBack from `j` stops after the last rune that is not white space. */
  lemma {:induction false} SkipSpaceBackStops(s: string, lo: nat, m: nat, j: nat)
    requires lo < m <= j <= |s| && !IsSpace(s[m - 1])
    requires forall k :: m <= k < j ==> IsSpace(s[k])
    ensures SkipSpaceBack(s, lo, j) == m
    decreases j
  {
    if m < j {
      SkipSpaceBackStops(s, lo, m, j - 1);
    }
  }

  /** Text that is already trimmed is left alone, so TrimSpace is idempotent. */
  lemma TrimSpaceKeepsTrimmed(s: string)
    requires Trimmed(s)
    ensures TrimSpace(s) == s
  {
  }

  /** strings.ToLower on ASCII letters; every other rune is kept. */
  function LowerChar(c: char): (r: char)
    ensures 'A' <= c <= 'Z' ==> r as int == c as int + 32
    ensures !('A' <= c <= 'Z') ==> r == c
  {
    if 'A' <= c <= 'Z' then (c as int + 32) as char else c
  }

  function ToLower(s: string): (r: string)
    ensures |r| == |s| && forall k :: 0 <= k < |s| ==> r[k] == LowerChar(s[k])
  {
    seq(|s|, k requires 0 <= k < |s| => LowerChar(s[k]))
  }

  /** `sep` occurs in `s` starting at position `k`. */
  predicate OccursAt(s: string, sep: string, k: nat)
  {
    k + |sep| <= |s| && s[k..k + |sep|] == sep
  }

  /** strings.Index: the position at which `sep` first occurs, or -1 (IndexFirst: no earlier occurrence). */
  function Index(s: string, sep: string): (r: int)
    requires sep != ""
    ensures r >= -1 && (r >= 0 ==> r + |sep| <= |s|)
    ensures r >= 0 ==> OccursAt(s, sep, r)
    decreases |s|
  {
    if |s| < |sep| then -1
    else if s[..|sep|] == sep then 0
    else
      var k := Index(s[1..], sep);
      if k < 0 then -1
      else
        OccursShift(s, sep, k);
        k + 1
  }

  /** Index finds the first occurrence: `sep` occurs nowhere before it, and nowhere at all when it is -1. */
  lemma {:induction false} IndexFirst(s: string, sep: string)
    requires sep != ""
    ensures forall k: nat :: k < |s| && (Index(s, sep) < 0 || k < Index(s, sep)) ==> !OccursAt(s, sep, k)
    decreases |s|
  {
    if |s| >= |sep| && s[..|sep|] != sep {
      var r := Index(s[1..], sep);
      IndexFirst(s[1..], sep);
      assert !OccursAt(s, sep, 0) by {
        assert s[0..|sep|] == s[..|sep|];
      }
      forall j: nat | 0 < j < |s| && (r < 0 || j < r + 1) ensures !OccursAt(s, sep, j) {
        OccursShift(s, sep, j - 1);
      }
    }
  }

  lemma OccursShift(s: string, sep: string, j: nat)
    requires s != []
    ensures OccursAt(s, sep, j + 1) <==> OccursAt(s[1..], sep, j)
  {
    if j + 1 + |sep| <= |s| {
      assert s[1..][j..j + |sep|] == s[j + 1..j + 1 + |sep|];
    }
  }

  /** For a one-rune separator, Index is the position of the first occurrence of that rune. */
  lemma IndexChar(s: string, c: char, m: int)
    requires -1 <= m < |s|
    requires m >= 0 ==> s[m] == c
    requires forall k :: 0 <= k < |s| && (m < 0 || k < m) ==> s[k] != c
    ensures Index(s, [c]) == m
  {
    var r := Index(s, [c]);
    if r >= 0 {
      assert s[r] == c by {
        assert s[r..r + 1] == [s[r]];
      }
    }
    if m >= 0 {
      assert OccursAt(s, [c], m) by {
        assert s[m..m + 1] == [s[m]];
      }
      IndexFirst(s, [c]);
    }
  }

  /** TrimSpace of a word with one leading space (no other white space at its ends) drops that space. */
  lemma TrimOneLeadingSpace(s: string)
    requires |s| >= 2 && IsSpace(s[0]) && !IsSpace(s[1]) && !IsSpace(s[|s| - 1])
    ensures TrimSpace(s) == s[1..]
  {
    assert SkipSpace(s, 1) == 1;
    assert SkipSpace(s, 0) == 1;
    assert SkipSpaceBack(s, 1, |s|) == |s|;
  }

  /** strings.Count for a non-empty separator: non-overlapping occurrences, from the left. */
  function Count(s: string, sep: string): nat
    requires sep != ""
    decreases |s|
  {
    var m := Index(s, sep);
    if m < 0 then 0 else 1 + Count(s[m + |sep|..], sep)
  }

  /**
   * strings.Split: the pieces of `s` between non-overlapping occurrences of
   * `sep`; an empty `sep` splits `s` into its runes (and "" into no pieces).
   */
  function Split(s: string, sep: string): (r: seq<string>)
    ensures sep != "" ==> |r| >= 1
    ensures sep == "" ==> |r| == |s|
  {
    if sep == "" then Explode(s) else SplitOn(s, sep)
  }

  /** Split on the empty separator: one piece per rune. */
  function Explode(s: string): (r: seq<string>)
    ensures |r| == |s|
  {
    seq(|s|, k requires 0 <= k < |s| => [s[k]])
  }

  /** Split on a non-empty separator: cut at the first occurrence and go on after it. */
  function SplitOn(s: string, sep: string): (r: seq<string>)
    requires sep != ""
    ensures |r| >= 1
    decreases |s|
  {
    var m := Index(s, sep);
    if m < 0 then [s] else [s[..m]] + SplitOn(s[m + |sep|..], sep)
  }

  /** With a non-empty separator there is one piece more than there are occurrences of it. */
  lemma {:induction false} SplitCount(s: string, sep: string)
    requires sep != ""
    ensures |Split(s, sep)| == Count(s, sep) + 1
    decreases |s|
  {
    var m := Index(s, sep);
    if m >= 0 {
      SplitCount(s[m + |sep|..], sep);
    }
  }

  /** strings.Join: the elements with `sep` between each adjacent pair. */
  function Join(elems: seq<string>, sep: string): string
  {
    if |elems| == 0 then ""
    else if |elems| == 1 then elems[0]
    else elems[0] + sep + Join(elems[1..], sep)
  }

  lemma JoinCons(a: string, t: seq<string>, sep: string)
    requires t != []
    ensures Join([a] + t, sep) == a + sep + Join(t, sep)
  {
    assert ([a] + t)[1..] == t;
  }

  /** Join undoes Split: gluing the pieces back with the separator gives the input, for every separator. */
  lemma {:induction false} JoinSplit(s: string, sep: string)
    ensures Join(Split(s, sep), sep) == s
    decreases |s|
  {
    var m := if sep == "" then -1 else Index(s, sep);
    if sep == "" {
      JoinExplode(s);
    } else if m < 0 {
      assert Split(s, sep) == [s];
    } else {
      var rest := s[m + |sep|..];
      var tail := Split(rest, sep);
      assert Split(s, sep) == [s[..m]] + tail;
      JoinSplit(rest, sep);
      JoinCons(s[..m], tail, sep);
      assert s[m..m + |sep|] == sep;
      Concat3(s, m, m + |sep|);
    }
  }

  /** Gluing the runes of `s` back together with nothing between them gives `s`. */
  lemma {:induction false} JoinExplode(s: string)
    ensures Join(Explode(s), "") == s
    decreases |s|
  {
    if |s| >= 2 {
      assert Explode(s) == [[s[0]]] + Explode(s[1..]);
      JoinExplode(s[1..]);
      JoinCons([s[0]], Explode(s[1..]), "");
      assert [s[0]] + s[1..] == s;
    } else if |s| == 1 {
      assert s == [s[0]];
      assert Explode(s) == [s];
    } else {
      assert Explode(s) == [];
    }
  }

  lemma SliceOfPrefix(s: string, m: nat, a: nat, b: nat)
    requires a <= b <= m <= |s|
    ensures s[..m][a..b] == s[a..b]
  {
  }

  /** A string is its prefix, a middle slice and its suffix glued together. */
  lemma Concat3(s: string, a: nat, b: nat)
    requires a <= b <= |s|
    ensures s == s[..a] + s[a..b] + s[b..]
  {
    assert s[..a] + s[a..b] == s[..b];
    assert s[..b] + s[b..] == s;
  }

  /** No piece produced by Split contains the separator. */
  lemma {:induction false} SplitPiecesAvoidSep(s: string, sep: string, p: nat, k: nat)
    requires sep != ""
    requires p < |Split(s, sep)|
    ensures !OccursAt(Split(s, sep)[p], sep, k)
    decreases |s|
  {
    var m := Index(s, sep);
    IndexFirst(s, sep);
    if m >= 0 {
      var rest := s[m + |sep|..];
      assert Split(s, sep) == [s[..m]] + Split(rest, sep);
      if p == 0 {
        if OccursAt(s[..m], sep, k) {
          SliceOfPrefix(s, m, k, k + |sep|);
          assert OccursAt(s, sep, k);
        }
      } else {
        assert Split(s, sep)[p] == Split(rest, sep)[p - 1];
        SplitPiecesAvoidSep(rest, sep, p - 1, k);
      }
    } else {
      assert Split(s, sep) == [s];
      assert k < |s| ==> !OccursAt(s, sep, k);
    }
  }

  /** Where `sep` occurs, Split cuts at its first occurrence and goes on after it. */
  lemma SplitCons(s: string, sep: string)
    requires sep != "" && Index(s, sep) >= 0
    ensures Split(s, sep) == [s[..Index(s, sep)]] + Split(s[Index(s, sep) + |sep|..], sep)
  {
  }

  /** Splitting on the first occurrence: the first piece is the text before it, the rest re-joins to the text after it. */
  lemma {:induction false} SplitAtFirst(s: string, sep: string)
    requires sep != ""
    ensures Index(s, sep) < 0 ==> Split(s, sep) == [s]
    ensures Index(s, sep) >= 0 ==>
      |Split(s, sep)| >= 2 &&
      Split(s, sep)[0] == s[..Index(s, sep)] &&
      Join(Split(s, sep)[1..], sep) == s[Index(s, sep) + |sep|..]
  {
    var m := Index(s, sep);
    if m >= 0 {
      var rest := s[m + |sep|..];
      var tail := Split(rest, sep);
      assert Split(s, sep) == [s[..m]] + tail;
      JoinSplit(rest, sep);
      DropHead(s[..m], tail);
    }
  }

  lemma DropHead(x: string, t: seq<string>)
    ensures ([x] + t)[1..] == t && ([x] + t)[0] == x
  {
  }

  /** Number of positions of `s` holding `c`. */
  function CountChar(s: string, c: char): nat
  {
    if s == [] then 0 else (if s[0] == c then 1 else 0) + CountChar(s[1..], c)
  }

  lemma {:induction false} CountCharSplit(s: string, c: char, m: nat)
    requires m < |s| && s[m] == c
    ensures CountChar(s, c) == CountChar(s[..m], c) + 1 + CountChar(s[m + 1..], c)
  {
    if m > 0 {
      CountCharSplit(s[1..], c, m - 1);
      assert s[1..][..m - 1] == s[..m][1..];
      assert s[1..][m..] == s[m + 1..];
    } else {
      assert s[..0] == [];
    }
  }

  lemma {:induction false} CountCharNone(s: string, c: char)
    requires forall k :: 0 <= k < |s| ==> s[k] != c
    ensures CountChar(s, c) == 0
  {
    if s != [] {
      CountCharNone(s[1..], c);
    }
  }

  /** For a one-rune separator, Count is the number of times that rune occurs. */
  lemma {:induction false} CountSingle(s: string, c: char)
    ensures Count(s, [c]) == CountChar(s, c)
    decreases |s|
  {
    var m := Index(s, [c]);
    IndexFirst(s, [c]);
    if m < 0 {
      forall k | 0 <= k < |s| ensures s[k] != c {
        assert !OccursAt(s, [c], k);
        assert s[k..k + 1] == [s[k]];
      }
      CountCharNone(s, c);
    } else {
      assert s[m..m + 1] == [c];
      CountSingle(s[m + 1..], c);
      CountCharSplit(s, c, m);
      forall k | 0 <= k < m ensures s[..m][k] != c {
        assert !OccursAt(s, [c], k);
        assert s[k..k + 1] == [s[k]];
      }
      CountCharNone(s[..m], c);
    }
  }
}

/**
 * The helpers of lib/stringx that turn the raw `default:` text of a tag into
 * a typed default: ToBool, Atoi, AtoSlice and Split.
 */
module Stringx {
  import GoStrings
  import opened GoStrconv

  /**
   * ToBool: false for the empty text; otherwise true exactly for "t" and
   * "true" in any mix of letter case ("1" and "yes" are false).
   */
  function ToBool(s: string): (r: bool)
    ensures r <==> (|s| == 1 && s[0] in "tT") ||
                   (|s| == 4 && s[0] in "tT" && s[1] in "rR" && s[2] in "uU" && s[3] in "eE")
  {
    if |s| == 0 then false
    else
      var l := GoStrings.ToLower(s);
      assert l == "t" <==> |s| == 1 && s[0] in "tT" by {
        if |s| == 1 { assert l == [l[0]]; }
      }
      assert l == "true" <==> |s| == 4 && s[0] in "tT" && s[1] in "rR" && s[2] in "uU" && s[3] in "eE" by {
        if |s| == 4 { assert l == [l[0], l[1], l[2], l[3]]; }
      }
      l == "true" || l == "t"
  }

  /**
   * Atoi[T]: strconv.ParseInt(v, 10, 64) with its error dropped, converted to
   * the `bits`-bit signed type T.  Decimal text gives its value (saturated to
   * int64, then wrapped to T); any other text gives 0, except when its leading
   * digits already overflow 2^64-1.
   */
  function Atoi(v: string, bits: nat): (r: int)
    requires bits in {8, 16, 32, 64}
    ensures -Half(bits) <= r < Half(bits)
    ensures IsDecimal(v) ==> r == Wrap(Clamp(DecimalValue(v)), bits)
    ensures IsDecimal(v) && -Half(bits) <= DecimalValue(v) < Half(bits) ==> r == DecimalValue(v)
    ensures !IsDecimal(v) && DigitPrefixFits(v) ==> r == 0
  {
    var n := ParseInt(v);
    assert IsDecimal(v) ==> n == Clamp(DecimalValue(v)) by {
      if IsDecimal(v) {
        ParseIntDecimal(v);
      }
    }
    assert !IsDecimal(v) && DigitPrefixFits(v) ==> n == 0 by {
      if !IsDecimal(v) && DigitPrefixFits(v) {
        ParseIntMalformed(v);
      }
    }
    Wrap(n, bits)
  }

  /**
   * What AtoSlice[T] returns: one element per `sep`-separated piece of `s`,
   * in order, each the Atoi of that (untrimmed) piece.
   */
  function AtoiPieces(s: string, sep: string, bits: nat): (r: seq<int>)
    requires bits in {8, 16, 32, 64}
    ensures |r| == |GoStrings.Split(s, sep)|
    ensures forall k :: 0 <= k < |r| ==> r[k] == Atoi(GoStrings.Split(s, sep)[k], bits)
    ensures sep != "" ==> |r| == GoStrings.Count(s, sep) + 1
  {
    var ss := GoStrings.Split(s, sep);
    var r := seq(|ss|, k requires 0 <= k < |ss| => Atoi(ss[k], bits));
    assert sep != "" ==> |r| == GoStrings.Count(s, sep) + 1 by {
      if sep != "" {
        GoStrings.SplitCount(s, sep);
      }
    }
    r
  }

  /** AtoSlice[T]: the loop appends the Atoi of each piece in turn. */
  method AtoSlice(s: string, sep: string, bits: nat) returns (l: seq<int>)
    requires bits in {8, 16, 32, 64}
    ensures l == AtoiPieces(s, sep, bits)
  {
    var ss := GoStrings.Split(s, sep);
    l := [];
    for i := 0 to |ss|
      invariant |l| == i
      invariant forall k :: 0 <= k < i ==> l[k] == Atoi(ss[k], bits)
    {
      l := l + [Atoi(ss[i], bits)];
    }
  }

  /**
   * What Split returns: the input is trimmed, split on `sep`, and every piece
   * trimmed in turn.
   */
  function TrimmedSplit(s0: string, sep: string): (r: seq<string>)
    ensures |r| == |GoStrings.Split(GoStrings.TrimSpace(s0), sep)|
    ensures forall k :: 0 <= k < |r| ==> GoStrings.Trimmed(r[k])
  {
    var pieces := GoStrings.Split(GoStrings.TrimSpace(s0), sep);
    seq(|pieces|, k requires 0 <= k < |pieces| => GoStrings.TrimSpace(pieces[k]))
  }

  /**
   * Element `k` is piece `k` of the trimmed input with only white space
   * removed from its two ends: what is kept is the slice of the piece from
   * its first rune that is not white space, and everything around it is white space.
   */
  lemma TrimmedSplitElement(s0: string, sep: string, k: nat)
    requires k < |TrimmedSplit(s0, sep)|
    ensures var p := GoStrings.Split(GoStrings.TrimSpace(s0), sep)[k];
      var e := TrimmedSplit(s0, sep)[k];
      var lo := GoStrings.SkipSpace(p, 0);
      lo + |e| <= |p| && e == p[lo..lo + |e|] && GoStrings.AllSpace(p[..lo]) && GoStrings.AllSpace(p[lo + |e|..])
  {
    GoStrings.TrimSpaceStripsEnds(GoStrings.Split(GoStrings.TrimSpace(s0), sep)[k]);
  }

  /**
   * Split: like strings.Split, but with the white space around the input and
   * around every piece removed; the trimmed pieces are written back over the
   * pieces' own storage.
   */
  method Split(s0: string, sep: string) returns (r: seq<string>)
    ensures r == TrimmedSplit(s0, sep)
  {
    var s := GoStrings.TrimSpace(s0);
    var pieces := GoStrings.Split(s, sep);
    var l := new string[|pieces|](k requires 0 <= k < |pieces| => pieces[k]);
    TrimInPlace(l);
    r := l[..];
  }

  /** Without the separator in the trimmed input, the result is that trimmed input alone. */
  lemma TrimmedSplitNoSeparator(s0: string, sep: string)
    requires sep != "" && GoStrings.Index(GoStrings.TrimSpace(s0), sep) < 0
    ensures TrimmedSplit(s0, sep) == [GoStrings.TrimSpace(s0)]
  {
    var s := GoStrings.TrimSpace(s0);
    GoStrings.SplitAtFirst(s, sep);
    GoStrings.TrimSpaceKeepsTrimmed(s);
  }

  /** Blank text (a missing `default:` label) gives one empty element, not an empty slice. */
  lemma TrimmedSplitBlank(s0: string, sep: string)
    requires sep != "" && GoStrings.AllSpace(s0)
    ensures TrimmedSplit(s0, sep) == [""]
  {
    assert GoStrings.TrimSpace(s0) == [];
    TrimmedSplitNoSeparator(s0, sep);
  }

  /**
   * When no piece carries white space at its ends, trimming changes nothing and
   * joining the result with `sep` gives back the trimmed input.
   */
  lemma TrimmedSplitJoin(s0: string, sep: string)
    requires sep != ""
    requires forall k :: 0 <= k < |GoStrings.Split(GoStrings.TrimSpace(s0), sep)| ==>
      GoStrings.Trimmed(GoStrings.Split(GoStrings.TrimSpace(s0), sep)[k])
    ensures GoStrings.Join(TrimmedSplit(s0, sep), sep) == GoStrings.TrimSpace(s0)
  {
    var pieces := GoStrings.Split(GoStrings.TrimSpace(s0), sep);
    forall k | 0 <= k < |pieces| ensures TrimmedSplit(s0, sep)[k] == pieces[k] {
      GoStrings.TrimSpaceKeepsTrimmed(pieces[k]);
    }
    assert TrimmedSplit(s0, sep) == pieces;
    GoStrings.JoinSplit(GoStrings.TrimSpace(s0), sep);
  }

  /**
   * The loop of Split: appending to `r := l[:0]` writes each trimmed piece back
   * over the slot it was read from, so `l` ends up holding the trimmed pieces.
   */
  method TrimInPlace(l: array<string>)
    modifies l
    ensures forall k :: 0 <= k < l.Length ==> l[k] == GoStrings.TrimSpace(old(l[k]))
  {
    var n := 0;
    for i := 0 to l.Length
      invariant n == i
      invariant forall k :: 0 <= k < i ==> l[k] == GoStrings.TrimSpace(old(l[k]))
      invariant forall k :: i <= k < l.Length ==> l[k] == old(l[k])
    {
      var str := l[i];
      l[n] := GoStrings.TrimSpace(str);
      n := n + 1;
    }
  }
}

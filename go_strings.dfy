/** The three Go `strings` functions the rule assembler relies on, each
    specialised to the one-character text "\n" that the assembler passes:
    - `strings.Trim(s, "\n")`, Go's single-ASCII-byte cutset path
      (trimLeftByte applied to the result of trimRightByte);
    - `strings.Join(elems, "\n")`;
    - `strings.Split(s, "\n")`, which is not called by the assembler but
      is the inverse of Join and gives the "lines" view used to state
      what the assembled ruleset and the ruleset header contain.
    All text involved is ASCII and the separator is a single ASCII byte, so
    a Go string is modelled as a sequence of characters. */
module GoStrings {

  const NL: char := '\n'

  // ---------------------------------------------------------------------
  // Trim
  // ---------------------------------------------------------------------

  /** Go's trimLeftByte(s, '\n'): drops every leading newline. */
  function TrimLeftNL(s: string): (r: string)
    ensures |r| <= |s|
    ensures r == [] || r[0] != NL
    decreases |s|
  {
    if |s| > 0 && s[0] == NL then TrimLeftNL(s[1..]) else s
  }

  /** What trimLeftByte keeps is a suffix of its input, and everything it
      drops is a newline. */
  lemma {:induction false} TrimLeftNLDropsNewlines(s: string)
    ensures var r := TrimLeftNL(s);
            r == s[|s| - |r|..] && forall k :: 0 <= k < |s| - |r| ==> s[k] == NL
    decreases |s|
  {
    if |s| > 0 && s[0] == NL {
      var t, r := s[1..], TrimLeftNL(s);
      TrimLeftNLDropsNewlines(t);
      assert r == TrimLeftNL(t) == t[|t| - |r|..];
      assert t[|t| - |r|..] == s[|s| - |r|..];
      forall k | 1 <= k < |s| - |r|
        ensures s[k] == NL
      {
        assert s[k] == t[k - 1];
      }
    }
  }

  /** Go's trimRightByte(s, '\n'): drops every trailing newline. */
  function TrimRightNL(s: string): (r: string)
    ensures |r| <= |s|
    ensures r == [] || r[|r| - 1] != NL
    decreases |s|
  {
    if |s| > 0 && s[|s| - 1] == NL then TrimRightNL(s[..|s| - 1]) else s
  }

  /** What trimRightByte keeps is a prefix of its input, and everything it
      drops is a newline. */
  lemma {:induction false} TrimRightNLDropsNewlines(s: string)
    ensures var r := TrimRightNL(s);
            (forall k :: 0 <= k < |r| ==> r[k] == s[k])
            && (forall k :: |r| <= k < |s| ==> s[k] == NL)
    decreases |s|
  {
    if |s| > 0 && s[|s| - 1] == NL {
      var t, r := s[..|s| - 1], TrimRightNL(s);
      TrimRightNLDropsNewlines(t);
      assert r == TrimRightNL(t);
      forall k | 0 <= k < |r|
        ensures r[k] == s[k]
      {
        assert r[k] == t[k];
      }
      forall k | |r| <= k < |s| - 1
        ensures s[k] == NL
      {
        assert s[k] == t[k];
      }
    }
  }

  /** trimLeftByte stops at the first character that is not a newline:
      when `s` has newlines before `i` and, if `i` is inside `s`, something
      else at `i`, it returns `s[i..]`. */
  lemma {:induction false} TrimLeftStopsAt(s: string, i: int)
    requires 0 <= i <= |s|
    requires forall k :: 0 <= k < i ==> s[k] == NL
    requires i < |s| ==> s[i] != NL
    ensures TrimLeftNL(s) == s[i..]
    decreases i
  {
    if i > 0 {
      var t := s[1..];
      assert forall k :: 0 <= k < i - 1 ==> t[k] == s[k + 1];
      TrimLeftStopsAt(t, i - 1);
      assert t[i - 1..] == s[i..];
    }
  }

  /** trimRightByte stops at the last character that is not a newline:
      when `s` has newlines from `j` on and, if `j > 0`, something else at
      `j - 1`, it returns `s[..j]`. */
  lemma {:induction false} TrimRightStopsAt(s: string, j: int)
    requires 0 <= j <= |s|
    requires forall k :: j <= k < |s| ==> s[k] == NL
    requires 0 < j ==> s[j - 1] != NL
    ensures TrimRightNL(s) == s[..j]
    decreases |s| - j
  {
    if j < |s| {
      var t := s[..|s| - 1];
      assert forall k :: j <= k < |t| ==> t[k] == s[k];
      TrimRightStopsAt(t, j);
      assert t[..j] == s[..j];
    } else {
      assert s[..j] == s;
    }
  }

  /** `strings.Trim(s, "\n")`: the right end is trimmed first, then the left
      end, as Go does for a cutset of one ASCII byte.  (Go returns an empty
      `s` unchanged before either loop; both loops leave it unchanged too.) */
  function TrimNL(s: string): (r: string)
    ensures |r| <= |s|
    ensures r == [] || (r[0] != NL && r[|r| - 1] != NL)
  {
    var t := TrimRightNL(s);
    TrimLeftNLDropsNewlines(t);
    TrimLeftNL(t)
  }

  /** `s[i..j]` keeps exactly what lies strictly between the leading and the
      trailing runs of newlines of `s`: everything before `i` and from `j` on
      is a newline, and the kept slice, when not empty, starts and ends with
      a character other than a newline. */
  ghost predicate TrimmedAt(s: string, i: int, j: int)
  {
    && 0 <= i <= j <= |s|
    && (forall k :: 0 <= k < i ==> s[k] == NL)
    && (forall k :: j <= k < |s| ==> s[k] == NL)
    && (i < j ==> s[i] != NL && s[j - 1] != NL)
  }

  /** Reference characterisation of Trim: whenever a slice of `s` is bounded
      by runs of newlines as `TrimmedAt` says, Trim returns that very slice.
      Only newlines at the two ends are removed; interior newlines stay. */
  lemma {:induction false} TrimIsTheSlice(s: string, i: int, j: int)
    requires TrimmedAt(s, i, j)
    ensures TrimNL(s) == s[i..j]
  {
    if i < j {
      TrimRightStopsAt(s, j);
      var t := s[..j];
      assert t[i] == s[i];
      TrimLeftStopsAt(t, i);
      assert t[i..] == s[i..j];
    } else {
      TrimRightStopsAt(s, 0);
      assert s[..0] == [];
    }
  }

  /** The slice described by `TrimmedAt` always exists: Trim's result is a
      contiguous part of its input running from the first to the last
      character that is not a newline. */
  lemma {:induction false} TrimSliceExists(s: string)
    ensures exists i, j :: TrimmedAt(s, i, j) && TrimNL(s) == s[i..j]
  {
    var t := TrimRightNL(s);
    var r := TrimLeftNL(t);
    TrimRightNLDropsNewlines(s);
    TrimLeftNLDropsNewlines(t);
    var i, j := |t| - |r|, |t|;
    assert s[i..j] == t[i..];
    if r != [] {
      assert s[i] == r[0];
      assert s[j - 1] == t[j - 1];
    }
    assert TrimmedAt(s, i, j);
  }

  /** Trim leaves a text unchanged exactly when the text is empty or neither
      starts nor ends with a newline. */
  lemma {:induction false} TrimFixedPoint(s: string)
    ensures TrimNL(s) == s <==> (s == [] || (s[0] != NL && s[|s| - 1] != NL))
  {
    if s == [] || (s[0] != NL && s[|s| - 1] != NL) {
      TrimIsTheSlice(s, 0, |s|);
      assert s[0..|s|] == s;
    }
  }

  /** Trimming an already trimmed text changes nothing. */
  lemma {:induction false} TrimIdempotent(s: string)
    ensures TrimNL(TrimNL(s)) == TrimNL(s)
  {
    TrimFixedPoint(TrimNL(s));
  }

  // ---------------------------------------------------------------------
  // Join
  // ---------------------------------------------------------------------

  /** Sum of the lengths of the elements. */
  function TotalLength(parts: seq<string>): nat
  {
    if parts == [] then 0 else |parts[0]| + TotalLength(parts[1..])
  }

  /** `strings.Join(parts, "\n")`: no element gives "", one element gives
      that element, otherwise the elements in order with one newline between
      each adjacent pair. */
  function JoinNL(parts: seq<string>): (r: string)
    ensures |parts| == 0 ==> r == []
    ensures |parts| > 0 ==> |parts[0]| <= |r|
    ensures |parts| > 1 ==> |parts[0]| < |r| && r[|parts[0]|] == NL
  {
    if |parts| == 0 then []
    else if |parts| == 1 then parts[0]
    else parts[0] + [NL] + JoinNL(parts[1..])
  }

  /** Joining an element in front of at least one more element puts a
      single newline between it and the join of the rest. */
  lemma {:induction false} JoinCons(first: string, rest: seq<string>)
    requires |rest| > 0
    ensures JoinNL([first] + rest) == first + [NL] + JoinNL(rest)
  {
    assert ([first] + rest)[1..] == rest;
  }

  /** Joining three elements: the first, a newline, the second, a newline,
      the third, in this order. */
  lemma {:induction false} JoinThree(x: string, y: string, z: string)
    ensures JoinNL([x, y, z]) == x + [NL] + y + [NL] + z
  {
    assert [x, y, z] == [x] + [y, z];
    JoinCons(x, [y, z]);
    assert [y, z] == [y] + [z];
    JoinCons(y, [z]);
  }

  /** The joined text is as long as all elements together plus one
      separator between each adjacent pair. */
  lemma {:induction false} JoinLength(parts: seq<string>)
    requires |parts| > 0
    ensures |JoinNL(parts)| == TotalLength(parts) + |parts| - 1
  {
    if |parts| > 1 {
      JoinLength(parts[1..]);
    }
  }

  /** Where element `k` starts in `JoinNL(parts)`: the lengths of the
      elements before it plus one separator after each of them. */
  function Offset(parts: seq<string>, k: nat): nat
    requires k <= |parts|
  {
    if k == 0 then 0 else |parts[0]| + 1 + Offset(parts[1..], k - 1)
  }

  /** Reference characterisation of Join: element `k` sits at `Offset(parts, k)`
      unchanged and, unless it is the last one, is followed by exactly one
      newline.  With JoinNL's length this fixes every character of the
      result. */
  lemma {:induction false} JoinPartAt(parts: seq<string>, k: nat)
    requires k < |parts|
    ensures Offset(parts, k) + |parts[k]| <= |JoinNL(parts)|
    ensures k + 1 < |parts| ==> Offset(parts, k) + |parts[k]| < |JoinNL(parts)|
    ensures JoinNL(parts)[Offset(parts, k)..Offset(parts, k) + |parts[k]|] == parts[k]
    ensures k + 1 < |parts| ==> JoinNL(parts)[Offset(parts, k) + |parts[k]|] == NL
  {
    if k == 0 {
      if |parts| > 1 {
        assert JoinNL(parts) == parts[0] + ([NL] + JoinNL(parts[1..]));
      }
    } else {
      var rest := parts[1..];
      JoinPartAt(rest, k - 1);
      var pre := parts[0] + [NL];
      assert JoinNL(parts) == pre + JoinNL(rest);
      assert rest[k - 1] == parts[k];
      var o := Offset(rest, k - 1);
      assert Offset(parts, k) == |pre| + o;
      assert JoinNL(parts)[|pre| + o..|pre| + o + |parts[k]|] == JoinNL(rest)[o..o + |parts[k]|];
    }
  }

  /** The last element ends the joined text: nothing follows it. */
  lemma {:induction false} JoinLastEnds(parts: seq<string>)
    requires |parts| > 0
    ensures |JoinNL(parts)| == Offset(parts, |parts| - 1) + |parts[|parts| - 1]|
  {
    if |parts| > 1 {
      var rest := parts[1..];
      JoinLastEnds(rest);
      assert parts == [parts[0]] + rest;
      JoinCons(parts[0], rest);
      assert Offset(parts, |parts| - 1) == |parts[0]| + 1 + Offset(rest, |rest| - 1);
      assert rest[|rest| - 1] == parts[|parts| - 1];
    }
  }

  /** Joining preserves "trimmed": if every element is non-empty and neither
      starts nor ends with a newline, neither does the joined text. */
  lemma {:induction false} JoinKeepsTrimmed(parts: seq<string>)
    requires |parts| > 0
    requires forall k :: 0 <= k < |parts| ==> parts[k] != [] && parts[k][0] != NL && parts[k][|parts[k]| - 1] != NL
    ensures JoinNL(parts) != []
    ensures JoinNL(parts)[0] != NL && JoinNL(parts)[|JoinNL(parts)| - 1] != NL
  {
    var last := |parts| - 1;
    JoinPartAt(parts, 0);
    JoinPartAt(parts, last);
    JoinLastEnds(parts);
    var r := JoinNL(parts);
    var o := Offset(parts, last);
    assert r[o..o + |parts[last]|][|parts[last]| - 1] == r[|r| - 1];
    assert r[0..|parts[0]|][0] == r[0];
  }

  // ---------------------------------------------------------------------
  // Split, the inverse of Join
  // ---------------------------------------------------------------------

  /** `strings.Split(s, "\n")`: the maximal newline-free pieces of `s`, in
      order; a text with n newlines gives n + 1 pieces (so "" gives [""]). */
  function SplitNL(s: string): (r: seq<string>)
    ensures |r| > 0
  {
    if s == [] then [[]] else PrependChar(s[0], SplitNL(s[1..]))
  }

  /** The pieces of `[c] + s` from the pieces of `s`: a newline opens a new,
      empty first piece; any other character joins the first piece. */
  function PrependChar(c: char, pieces: seq<string>): (r: seq<string>)
    requires |pieces| > 0
    ensures |r| > 0
  {
    if c == NL then [[]] + pieces else [[c] + pieces[0]] + pieces[1..]
  }

  /** Prepending a character only touches the first piece, so it commutes
      with appending further pieces. */
  lemma {:induction false} PrependAppend(c: char, xs: seq<string>, ys: seq<string>)
    requires |xs| > 0
    ensures PrependChar(c, xs + ys) == PrependChar(c, xs) + ys
  {
    if c != NL {
      assert (xs + ys)[0] == xs[0];
      assert (xs + ys)[1..] == xs[1..] + ys;
    }
  }

  /** Joining the pieces of `[c] + s` puts `c` in front of the join of the
      pieces of `s`. */
  lemma {:induction false} JoinPrepend(c: char, pieces: seq<string>)
    requires |pieces| > 0
    ensures JoinNL(PrependChar(c, pieces)) == [c] + JoinNL(pieces)
  {
    if c == NL {
      JoinCons([], pieces);
    } else if |pieces| == 1 {
      assert PrependChar(c, pieces) == [[c] + pieces[0]];
    } else {
      var first, rest := pieces[0], pieces[1..];
      assert pieces == [first] + rest;
      JoinCons([c] + first, rest);
      JoinCons(first, rest);
      assert ([c] + first) + [NL] + JoinNL(rest) == [c] + (first + [NL] + JoinNL(rest));
    }
  }

  /** A text with no newline is a single piece. */
  lemma {:induction false} SplitNoNewline(s: string)
    requires NL !in s
    ensures SplitNL(s) == [s]
  {
    if s != [] {
      assert NL !in s[1..];
      SplitNoNewline(s[1..]);
      assert [s[0]] + s[1..] == s;
    }
  }

  /** Splitting distributes over one separating newline: the pieces of
      `a + "\n" + b` are the pieces of `a` followed by the pieces of `b`. */
  lemma {:induction false} SplitAtNewline(a: string, b: string)
    ensures SplitNL(a + [NL] + b) == SplitNL(a) + SplitNL(b)
  {
    var s := a + [NL] + b;
    if a == [] {
      assert s[0] == NL && s[1..] == b;
    } else {
      assert s[0] == a[0] && s[1..] == a[1..] + [NL] + b;
      SplitAtNewline(a[1..], b);
      PrependAppend(a[0], SplitNL(a[1..]), SplitNL(b));
    }
  }

  /** Join undoes Split: joining the pieces of a text gives the text back. */
  lemma {:induction false} JoinSplit(s: string)
    ensures JoinNL(SplitNL(s)) == s
  {
    if s != [] {
      JoinSplit(s[1..]);
      JoinPrepend(s[0], SplitNL(s[1..]));
      assert [s[0]] + s[1..] == s;
    }
  }

  /** Split undoes Join when no element contains a newline. */
  lemma {:induction false} SplitJoin(parts: seq<string>)
    requires |parts| > 0
    requires forall k :: 0 <= k < |parts| ==> NL !in parts[k]
    ensures SplitNL(JoinNL(parts)) == parts
  {
    SplitNoNewline(parts[0]);
    if |parts| > 1 {
      SplitJoin(parts[1..]);
      SplitAtNewline(parts[0], JoinNL(parts[1..]));
      assert [parts[0]] + parts[1..] == parts;
    }
  }
}

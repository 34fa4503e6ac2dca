/**
 The string operations the quiz applies to learner input and option
 labels: `String.prototype.trim`, `String.prototype.toLowerCase` (over ASCII)
 and `Array.prototype.join`.
 */
module Text {

  /** The characters that `trim` removes: ECMAScript's WhiteSpace
      (tab, vertical tab, form feed, space, no-break space, byte order mark
      and every Zs space separator) and LineTerminator (LF, CR, LS, PS). */
  predicate IsWhiteSpace(c: char) {
    || c == '\t' || c == '\n' || c == '\U{000B}' || c == '\U{000C}' || c == '\r'
    || c == ' ' || c == '\U{00A0}' || c == '\U{1680}'
    || ('\U{2000}' <= c <= '\U{200A}')
    || c == '\U{2028}' || c == '\U{2029}' || c == '\U{202F}' || c == '\U{205F}'
    || c == '\U{3000}' || c == '\U{FEFF}'
  }

  predicate AllWhiteSpace(s: string) {
    forall k :: 0 <= k < |s| ==> IsWhiteSpace(s[k])
  }

  /** Neither end of `s` is a white-space character. */
  predicate Trimmed(s: string) {
    s == [] || (!IsWhiteSpace(s[0]) && !IsWhiteSpace(s[|s| - 1]))
  }

  /** `r` is what is left of `s` once a white-space prefix of length `i`
      and a white-space suffix are cut off. */
  predicate CutAt(s: string, r: string, i: int) {
    && 0 <= i <= |s| - |r|
    && s[i..i + |r|] == r
    && AllWhiteSpace(s[..i])
    && AllWhiteSpace(s[i + |r|..])
  }

  function TrimStart(s: string): (r: string)
    ensures |r| <= |s| && r == s[|s| - |r|..]
    ensures AllWhiteSpace(s[..|s| - |r|])
    ensures r == [] || !IsWhiteSpace(r[0])
  {
    if s != [] && IsWhiteSpace(s[0]) then TrimStart(s[1..]) else s
  }

  function TrimEnd(s: string): (r: string)
    ensures |r| <= |s| && r == s[..|r|]
    ensures AllWhiteSpace(s[|r|..])
    ensures r == [] || !IsWhiteSpace(r[|r| - 1])
  {
    if s != [] && IsWhiteSpace(s[|s| - 1]) then TrimEnd(s[..|s| - 1]) else s
  }

  /** `String.prototype.trim`: drops leading and trailing white space. */
  function Trim(s: string): (r: string)
    ensures |r| <= |s|
    ensures Trimmed(r)
  {
    TrimEnd(TrimStart(s))
  }

  /** Every string is its trim with white space on either side. */
  lemma TrimParts(s: string) returns (a: string, b: string)
    ensures AllWhiteSpace(a) && AllWhiteSpace(b)
    ensures s == a + Trim(s) + b
  {
    var t := TrimStart(s);
    var r := TrimEnd(t);
    a, b := s[..|s| - |t|], t[|r|..];
    SplitAt(s, |s| - |t|);
    SplitAt(t, |r|);
    Associate(a, r, b);
  }

  lemma Associate(a: string, r: string, b: string)
    ensures a + (r + b) == a + r + b
  {
  }

  lemma SplitAt(s: string, k: nat)
    requires k <= |s|
    ensures s == s[..k] + s[k..]
  {
  }

  lemma {:induction false} TrimEndOfPadded(r: string, b: string)
    requires AllWhiteSpace(b) && Trimmed(r)
    ensures TrimEnd(r + b) == r
  {
    if b != [] {
      assert (r + b)[..|r + b| - 1] == r + b[..|b| - 1];
      TrimEndOfPadded(r, b[..|b| - 1]);
    } else {
      assert r + b == r;
    }
  }

  lemma {:induction false} TrimStartOfBlank(a: string)
    requires AllWhiteSpace(a)
    ensures TrimStart(a) == []
  {
    if a != [] {
      TrimStartOfBlank(a[1..]);
    }
  }

  /** Trimming is characterized by its two properties: the result of cutting
      white space off both ends, with no white space left at either end, is
      exactly what `Trim` returns. */
  lemma TrimOfPadded(a: string, r: string, b: string)
    requires AllWhiteSpace(a) && AllWhiteSpace(b) && Trimmed(r)
    ensures Trim(a + r + b) == r
  {
    if r == [] {
      assert a + r + b == a + b;
      TrimStartOfBlank(a + b);
    } else {
      assert a + r + b == a + (r + b);
      assert (r + b)[0] == r[0];
      // TrimStart stops at the first character of r, which is not white space.
      TrimStartFromFirstNonBlank(a, r + b);
      TrimEndOfPadded(r, b);
    }
  }

  lemma {:induction false} TrimStartFromFirstNonBlank(a: string, t: string)
    requires AllWhiteSpace(a) && t != [] && !IsWhiteSpace(t[0])
    ensures TrimStart(a + t) == t
  {
    if a != [] {
      assert (a + t)[1..] == a[1..] + t;
      TrimStartFromFirstNonBlank(a[1..], t);
    } else {
      assert a + t == t;
    }
  }

  lemma SlicesOfThree(a: string, r: string, b: string)
    ensures (a + r + b)[..|a|] == a
    ensures (a + r + b)[|a|..|a| + |r|] == r
    ensures (a + r + b)[|a| + |r|..] == b
  {
  }

  lemma ThreeOfSlices(s: string, i: nat, j: nat)
    requires i <= j <= |s|
    ensures s == s[..i] + s[i..j] + s[j..]
  {
  }

  /** `r` is the trim of `s` exactly when `r` has no white space at its ends
      and `s` is `r` padded with white space on both sides. */
  lemma TrimCharacterization(s: string, r: string)
    ensures Trim(s) == r <==> Trimmed(r) && exists i :: CutAt(s, r, i)
  {
    if Trim(s) == r {
      var a, b := TrimParts(s);
      SlicesOfThree(a, r, b);
      assert CutAt(s, r, |a|);
    }
    if Trimmed(r) && exists i :: CutAt(s, r, i) {
      var i :| CutAt(s, r, i);
      ThreeOfSlices(s, i, i + |r|);
      TrimOfPadded(s[..i], r, s[i + |r|..]);
    }
  }

  lemma AllWhiteSpaceAppend(a: string, b: string)
    requires AllWhiteSpace(a) && AllWhiteSpace(b)
    ensures AllWhiteSpace(a + b)
  {
    assert forall k :: 0 <= k < |a + b| ==> (a + b)[k] == if k < |a| then a[k] else b[k - |a|];
  }

  lemma Regroup(a: string, x: string, r: string, y: string, b: string)
    ensures a + (x + r + y) + b == (a + x) + r + (y + b)
  {
  }

  /** Extra white space around a string does not change its trim. */
  lemma TrimIgnoresPadding(a: string, s: string, b: string)
    requires AllWhiteSpace(a) && AllWhiteSpace(b)
    ensures Trim(a + s + b) == Trim(s)
  {
    var r := Trim(s);
    var a', b' := TrimParts(s);
    Regroup(a, a', r, b', b);
    AllWhiteSpaceAppend(a, a');
    AllWhiteSpaceAppend(b', b);
    TrimOfPadded(a + a', r, b' + b);
  }

  /** A string trims to nothing exactly when it is all white space. */
  lemma TrimEmptyIffBlank(s: string)
    ensures Trim(s) == [] <==> AllWhiteSpace(s)
  {
    if AllWhiteSpace(s) {
      TrimStartOfBlank(s);
    }
    var a, b := TrimParts(s);
    if Trim(s) == [] {
      assert s == a + b;
      AllWhiteSpaceAppend(a, b);
    }
  }

  lemma TrimIdempotent(s: string)
    ensures Trim(Trim(s)) == Trim(s)
  {
    var r := Trim(s);
    assert r == [] + r + [];
    TrimOfPadded([], r, []);
  }

  predicate IsUpper(c: char) {
    'A' <= c <= 'Z'
  }

  function LowerChar(c: char): (d: char)
    ensures IsUpper(c) ==> d as int == c as int + 32
    ensures !IsUpper(c) ==> d == c
    ensures !IsUpper(d)
  {
    if IsUpper(c) then (c as int + 32) as char else c
  }

  /** `String.prototype.toLowerCase`, restricted to the ASCII letters:
      the capitals A-Z become a-z and every other character is kept. */
  function ToLower(s: string): (r: string)
    ensures |r| == |s|
    ensures forall k :: 0 <= k < |s| ==> r[k] == LowerChar(s[k])
    ensures forall k :: 0 <= k < |r| ==> !IsUpper(r[k])
  {
    if s == [] then [] else [LowerChar(s[0])] + ToLower(s[1..])
  }

  lemma ToLowerIdempotent(s: string)
    ensures ToLower(ToLower(s)) == ToLower(s)
  {
  }

  lemma ToLowerKeepsWhiteSpace(a: string)
    requires AllWhiteSpace(a)
    ensures ToLower(a) == a
  {
    assert forall k :: 0 <= k < |a| ==> !IsUpper(a[k]);
  }

  lemma ToLowerKeepsTrimmed(r: string)
    requires Trimmed(r)
    ensures Trimmed(ToLower(r))
  {
  }

  lemma ToLowerAppend(a: string, b: string)
    ensures ToLower(a + b) == ToLower(a) + ToLower(b)
  {
    assert forall k :: 0 <= k < |a + b| ==> ToLower(a + b)[k] == (ToLower(a) + ToLower(b))[k];
  }

  /** Lower-casing never turns white space into anything else or anything
      else into white space, so it commutes with trimming. */
  lemma ToLowerTrimCommute(s: string)
    ensures ToLower(Trim(s)) == Trim(ToLower(s))
  {
    var r := Trim(s);
    var a, b := TrimParts(s);
    ToLowerAppend(a, r);
    ToLowerAppend(a + r, b);
    ToLowerKeepsWhiteSpace(a);
    ToLowerKeepsWhiteSpace(b);
    ToLowerKeepsTrimmed(r);
    TrimOfPadded(ToLower(a), ToLower(r), ToLower(b));
  }

  /** `Array.prototype.join`: the elements in order, `sep` between each pair. */
  function Join(xs: seq<string>, sep: string): (r: string)
    ensures xs == [] ==> r == []
    ensures |xs| == 1 ==> r == xs[0]
  {
    if xs == [] then "" else if |xs| == 1 then xs[0] else xs[0] + sep + Join(xs[1..], sep)
  }

  /** `c` does not occur in `s`. */
  predicate Lacks(s: string, c: char) {
    forall k :: 0 <= k < |s| ==> s[k] != c
  }

  /** The first position of `c` in `s`, or `|s|` when there is none. */
  function IndexOf(s: string, c: char): (i: nat)
    ensures i <= |s|
    ensures forall k :: 0 <= k < i ==> s[k] != c
    ensures i < |s| ==> s[i] == c
  {
    if s == [] then 0 else if s[0] == c then 0 else 1 + IndexOf(s[1..], c)
  }

  /** Reads a "; "-joined list back into its elements. */
  function SplitList(s: string): (parts: seq<string>)
    ensures |parts| >= 1
    decreases |s|
  {
    var i := IndexOf(s, ';');
    if i == |s| then [s]
    else if i + 1 < |s| && s[i + 1] == ' ' then [s[..i]] + SplitList(s[i + 2..])
    else [s[..i]] + SplitList(s[i + 1..])
  }

  lemma {:induction false} IndexOfFirst(x: string, rest: string, c: char)
    requires Lacks(x, c)
    ensures IndexOf(x + [c] + rest, c) == |x|
  {
    if x != [] {
      assert (x + [c] + rest)[1..] == x[1..] + [c] + rest;
      IndexOfFirst(x[1..], rest, c);
    }
  }

  lemma {:induction false} IndexOfAbsent(x: string, c: char)
    requires Lacks(x, c)
    ensures IndexOf(x, c) == |x|
  {
    if x != [] {
      IndexOfAbsent(x[1..], c);
    }
  }

  /** Joining with "; " loses nothing when no element contains ';':
      splitting the joined text gives back the elements, in their order. */
  lemma {:induction false} SplitJoin(xs: seq<string>)
    requires xs != []
    requires forall n :: 0 <= n < |xs| ==> Lacks(xs[n], ';')
    ensures SplitList(Join(xs, "; ")) == xs
  {
    if |xs| == 1 {
      IndexOfAbsent(xs[0], ';');
    } else {
      var rest := Join(xs[1..], "; ");
      var s := xs[0] + "; " + rest;
      assert s == xs[0] + [';'] + ([' '] + rest);
      IndexOfFirst(xs[0], [' '] + rest, ';');
      assert s[..|xs[0]|] == xs[0];
      assert s[|xs[0]| + 2..] == rest;
      SplitJoin(xs[1..]);
    }
  }
}

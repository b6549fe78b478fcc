/** The string operations of JavaScript that the amount parser and the answer cleanup use. */
module JsText {

  /** White space and line terminators: what `trim` strips and `\s` matches. */
  predicate IsSpace(c: char) {
    var u := c as int;
    0x09 <= u <= 0x0D || u == 0x20 || u == 0xA0 || u == 0x1680 || 0x2000 <= u <= 0x200A
    || u == 0x2028 || u == 0x2029 || u == 0x202F || u == 0x205F || u == 0x3000 || u == 0xFEFF
  }

  predicate AllSpace(s: string) {
    forall i :: 0 <= i < |s| ==> IsSpace(s[i])
  }

  function TrimStart(s: string): string {
    if s != [] && IsSpace(s[0]) then TrimStart(s[1..]) else s
  }

  function TrimEnd(s: string): string {
    if s != [] && IsSpace(s[|s| - 1]) then TrimEnd(s[..|s| - 1]) else s
  }

  function Trim(s: string): string {
    TrimEnd(TrimStart(s))
  }

  /** No white space at either end. */
  predicate Trimmed(s: string) {
    s == [] || (!IsSpace(s[0]) && !IsSpace(s[|s| - 1]))
  }

  lemma {:induction false} SpacesInFront(s: string) returns (p: string)
    ensures AllSpace(p) && s == p + TrimStart(s)
  {
    if s != [] && IsSpace(s[0]) {
      p := SpacesInFront(s[1..]);
      p := [s[0]] + p;
    } else {
      p := [];
    }
  }

  lemma {:induction false} TrimStartCuts(s: string)
    ensures var t := TrimStart(s);
            t == [] || (!IsSpace(t[0]) && t[|t| - 1] == s[|s| - 1])
  {
    if s != [] && IsSpace(s[0]) {
      TrimStartCuts(s[1..]);
    }
  }

  lemma {:induction false} TrimEndCuts(s: string)
    ensures var t := TrimEnd(s);
            && |t| <= |s| && s[..|t|] == t && AllSpace(s[|t|..])
            && (t == [] || (!IsSpace(t[|t| - 1]) && t[0] == s[0]))
  {
    if s != [] && IsSpace(s[|s| - 1]) {
      var init, last := s[..|s| - 1], s[|s| - 1];
      TrimEndCuts(init);
      var t := TrimEnd(s);
      assert s[..|t|] == init[..|t|];
      assert s[|t|..] == init[|t|..] + [last];
    }
  }

  lemma SpacesBehind(s: string) returns (q: string)
    ensures AllSpace(q) && s == TrimEnd(s) + q
  {
    TrimEndCuts(s);
    q := s[|TrimEnd(s)|..];
  }

  /** Trimming stops at a character that is not white space. */
  lemma {:induction false} TrimEndStops(s: string, k: nat)
    requires k < |s| && !IsSpace(s[k])
    ensures k < |TrimEnd(s)|
    decreases |s|
  {
    if IsSpace(s[|s| - 1]) {
      TrimEndStops(s[..|s| - 1], k);
    }
  }

  /** Trimming cuts white space off both ends, and nothing else. */
  lemma TrimCuts(s: string) returns (p: string, q: string)
    ensures AllSpace(p) && AllSpace(q) && s == p + (Trim(s) + q)
    ensures Trimmed(Trim(s))
  {
    TrimStartCuts(s);
    var t := TrimStart(s);
    TrimEndCuts(t);
    p := SpacesInFront(s);
    q := SpacesBehind(t);
  }

  lemma {:induction false} TrimStartPast(p: string, t: string)
    requires AllSpace(p) && (t == "" || !IsSpace(t[0]))
    ensures TrimStart(p + t) == t
    decreases |p|
  {
    if p == "" {
      assert p + t == t;
    } else {
      assert (p + t)[1..] == p[1..] + t;
      TrimStartPast(p[1..], t);
    }
  }

  lemma {:induction false} TrimEndPast(t: string, q: string)
    requires AllSpace(q) && (t == "" || !IsSpace(t[|t| - 1]))
    ensures TrimEnd(t + q) == t
    decreases |q|
  {
    if q == "" {
      assert t + q == t;
    } else {
      assert (t + q)[..|t + q| - 1] == t + q[..|q| - 1];
      TrimEndPast(t, q[..|q| - 1]);
    }
  }

  lemma TrimAround(p: string, t: string, q: string)
    requires AllSpace(p) && AllSpace(q) && Trimmed(t) && t != ""
    ensures Trim(p + (t + q)) == t
  {
    TrimStartPast(p, t + q);
    TrimEndPast(t, q);
  }

  lemma TrimIsEmpty(s: string)
    ensures Trim(s) == "" <==> AllSpace(s)
  {
    var p, q := TrimCuts(s);
    if AllSpace(s) {
      TrimStartPast(s, "");
      assert s + "" == s;
    }
  }

  lemma TrimmedStays(s: string)
    requires Trimmed(s)
    ensures Trim(s) == s
  {
  }

  predicate StartsWith(s: string, p: string) {
    |p| <= |s| && s[..|p|] == p
  }

  predicate EndsWith(s: string, p: string) {
    |p| <= |s| && s[|s| - |p|..] == p
  }

  /** `c` does not occur in `s` at a position from `lo` up to `hi`. */
  ghost predicate Absent(s: string, c: char, lo: int, hi: int) {
    forall j :: 0 <= j < |s| && lo <= j < hi ==> s[j] != c
  }

  /** The first position of `c`, or -1. */
  function IndexOf(s: string, c: char): (i: int)
    ensures -1 <= i < |s|
    ensures i == -1 ==> Absent(s, c, 0, |s|)
    ensures i >= 0 ==> s[i] == c && Absent(s, c, 0, i)
  {
    IndexFrom(s, c, 0)
  }

  function IndexFrom(s: string, c: char, from: nat): (i: int)
    requires from <= |s|
    ensures i == -1 || from <= i < |s|
    ensures i == -1 ==> Absent(s, c, from, |s|)
    ensures i >= 0 ==> s[i] == c && Absent(s, c, from, i)
    decreases |s| - from
  {
    if from == |s| then -1 else if s[from] == c then from else IndexFrom(s, c, from + 1)
  }

  /** The last position of `c`, or -1. */
  function LastIndexOf(s: string, c: char): (i: int)
    ensures -1 <= i < |s|
    ensures i == -1 ==> Absent(s, c, 0, |s|)
    ensures i >= 0 ==> s[i] == c && Absent(s, c, i + 1, |s|)
  {
    LastIndexBefore(s, c, |s|)
  }

  function LastIndexBefore(s: string, c: char, end: nat): (i: int)
    requires end <= |s|
    ensures -1 <= i < end
    ensures i == -1 ==> Absent(s, c, 0, end)
    ensures i >= 0 ==> s[i] == c && Absent(s, c, i + 1, end)
  {
    if end == 0 then -1 else if s[end - 1] == c then end - 1 else LastIndexBefore(s, c, end - 1)
  }

  /** The pieces of `s` between the occurrences of `c`; always at least one piece. */
  function Split(s: string, c: char): (parts: seq<string>)
    ensures |parts| >= 1
  {
    if s == [] then [""]
    else
      var rest := Split(s[1..], c);
      if s[0] == c then [""] + rest else [[s[0]] + rest[0]] + rest[1..]
  }

  /** How often `c` occurs. */
  function Count(s: string, c: char): nat {
    if s == [] then 0 else Count(s[1..], c) + if s[0] == c then 1 else 0
  }

  lemma {:induction false} SplitCount(s: string, c: char)
    ensures |Split(s, c)| == Count(s, c) + 1
  {
    if s != [] {
      SplitCount(s[1..], c);
    }
  }

  lemma {:induction false} SplitWithout(s: string, c: char)
    requires c !in s
    ensures Split(s, c) == [s]
  {
    if s != [] {
      SplitWithout(s[1..], c);
      assert s == [s[0]] + s[1..];
    }
  }

  lemma {:induction false} SplitAtOnly(a: string, b: string, c: char)
    requires c !in a && c !in b
    ensures Split(a + [c] + b, c) == [a, b]
    decreases |a|
  {
    var s := a + [c] + b;
    if a == [] {
      assert s[1..] == b;
      SplitWithout(b, c);
    } else {
      assert s[1..] == a[1..] + [c] + b;
      SplitAtOnly(a[1..], b, c);
      assert a == [a[0]] + a[1..];
    }
  }

  function Repeat(c: char, k: nat): string {
    seq(k, _ => c)
  }

  function PadStart(s: string, k: nat, c: char): string {
    if |s| >= k then s else Repeat(c, k - |s|) + s
  }

  function PadEnd(s: string, k: nat, c: char): string {
    if |s| >= k then s else s + Repeat(c, k - |s|)
  }
}

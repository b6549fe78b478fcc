/** Extracting the JSON text from a model's answer: the cleanup shared by the four parsers of server.js. */
module AnswerCleanup {
  import opened JsText

  const FENCE := "```"
  const JSON_FENCE := "```json"

  /** The text has a '{' before its last '}'. */
  predicate HasBraces(s: string) {
    var first := IndexOf(s, '{');
    var last := LastIndexOf(s, '}');
    first != -1 && last != -1 && last > first
  }

  /** From the first '{' to the last '}'. */
  function Braced(s: string): string
    requires HasBraces(s)
  {
    s[IndexOf(s, '{')..LastIndexOf(s, '}') + 1]
  }

  /** `replace(/^fence\s*../, '')` */
  function StripOpening(s: string, fence: string): string {
    if StartsWith(s, fence) then TrimStart(s[|fence|..]) else s
  }

  /** `replace(/\s*```$/, '')` */
  function StripClosing(s: string): string {
    if EndsWith(s, FENCE) then TrimEnd(s[..|s| - |FENCE|]) else s
  }

  function Unfenced(s: string): string {
    if StartsWith(s, JSON_FENCE) then StripClosing(StripOpening(s, JSON_FENCE))
    else if StartsWith(s, FENCE) then StripClosing(StripOpening(s, FENCE))
    else s
  }

  /** The one-line description of the cleanup. */
  function Extracted(content: string): string {
    if HasBraces(content) then Braced(content) else Unfenced(Trim(content))
  }

  /** `t` is `s` with a brace-free piece cut off at each end. */
  ghost predicate CutFrom(s: string, t: string) {
    exists p: string, q: string :: CutAs(s, p, t, q)
  }

  ghost predicate CutAs(s: string, p: string, t: string, q: string) {
    s == p + t + q && BraceFree(p) && BraceFree(q)
  }

  ghost predicate Lacks(s: string, c: char) {
    Absent(s, c, 0, |s|)
  }

  ghost predicate BraceFree(s: string) {
    Lacks(s, '{') && Lacks(s, '}')
  }

  /** Positions of the outer braces when something is put around a text. */
  lemma Surrounded(p: string, t: string, q: string)
    requires Lacks(p, '{') && Lacks(q, '}')
    ensures IndexOf(t, '{') >= 0 ==> IndexOf(p + t + q, '{') == |p| + IndexOf(t, '{')
    ensures LastIndexOf(t, '}') >= 0 ==> LastIndexOf(p + t + q, '}') == |p| + LastIndexOf(t, '}')
  {
    var s := p + t + q;
    var i, j := IndexOf(t, '{'), LastIndexOf(t, '}');
    if i >= 0 {
      assert s[|p| + i] == '{';
    }
    if j >= 0 {
      assert s[|p| + j] == '}';
    }
  }

  lemma NotAround(p: string, t: string, q: string, c: char)
    requires Lacks(p, c) && Lacks(q, c) && Lacks(t, c)
    ensures Lacks(p + t + q, c)
  {
  }

  lemma BracesAfterCut(p: string, t: string, q: string)
    requires BraceFree(p) && BraceFree(q)
    ensures HasBraces(p + t + q) <==> HasBraces(t)
    ensures HasBraces(t) ==> Braced(p + t + q) == Braced(t)
  {
    var i, j := IndexOf(t, '{'), LastIndexOf(t, '}');
    Surrounded(p, t, q);
    if i == -1 {
      NotAround(p, t, q, '{');
    } else if j == -1 {
      NotAround(p, t, q, '}');
    } else if i < j {
      SliceOfMiddle(p, t, q, i, j + 1);
    }
  }

  lemma SliceOfMiddle(p: string, t: string, q: string, i: nat, j: nat)
    requires i <= j <= |t|
    ensures (p + t + q)[|p| + i..|p| + j] == t[i..j]
  {
  }

  lemma CutKeepsBraces(s: string, t: string)
    requires CutFrom(s, t)
    ensures HasBraces(s) <==> HasBraces(t)
    ensures HasBraces(s) ==> Braced(s) == Braced(t)
  {
    var p: string, q: string :| CutAs(s, p, t, q);
    BracesAfterCut(p, t, q);
  }

  lemma SpacesAreBraceFree(s: string)
    requires AllSpace(s)
    ensures BraceFree(s)
  {
  }

  lemma BraceFreeConcat(p: string, q: string)
    requires BraceFree(p) && BraceFree(q)
    ensures BraceFree(p + q)
  {
  }

  lemma CutEnds(s: string, p: string, t: string, q: string)
    requires s == p + (t + q) && BraceFree(p) && BraceFree(q)
    ensures CutFrom(s, t)
  {
    assert s == p + t + q;
    assert CutAs(s, p, t, q);
  }

  lemma TrimIsCut(s: string)
    ensures CutFrom(s, Trim(s))
  {
    var p, q := TrimCuts(s);
    SpacesAreBraceFree(p);
    SpacesAreBraceFree(q);
    CutEnds(s, p, Trim(s), q);
  }

  lemma CutFront(fence: string, p: string, t: string)
    requires BraceFree(fence) && BraceFree(p)
    ensures CutFrom(fence + (p + t), t)
  {
    BraceFreeConcat(fence, p);
    assert t + "" == t;
    CutEnds(fence + (p + t), fence + p, t, "");
  }

  lemma CutBack(t: string, q: string, fence: string)
    requires BraceFree(fence) && BraceFree(q)
    ensures CutFrom(t + q + fence, t)
  {
    BraceFreeConcat(q, fence);
    assert t + q + fence == "" + (t + (q + fence));
    CutEnds(t + q + fence, "", t, q + fence);
  }

  lemma OpeningIsCut(s: string, fence: string)
    requires BraceFree(fence)
    ensures CutFrom(s, StripOpening(s, fence))
    ensures StartsWith(s, fence) ==> |StripOpening(s, fence)| <= |s| - |fence|
  {
    var t := StripOpening(s, fence);
    if StartsWith(s, fence) {
      var u := s[|fence|..];
      assert s == fence + u;
      var p := SpacesInFront(u);
      SpacesAreBraceFree(p);
      CutFront(fence, p, t);
    } else {
      CutEnds(s, "", t, "");
    }
  }

  lemma ClosingIsCut(s: string)
    ensures CutFrom(s, StripClosing(s)) && |StripClosing(s)| <= |s|
  {
    var t := StripClosing(s);
    if EndsWith(s, FENCE) {
      var u := s[..|s| - |FENCE|];
      assert s == u + FENCE;
      var q := SpacesBehind(u);
      SpacesAreBraceFree(q);
      CutBack(t, q, FENCE);
    } else {
      CutEnds(s, "", t, "");
    }
  }

  lemma UnfencingKeepsBraces(s: string)
    ensures HasBraces(s) <==> HasBraces(Unfenced(s))
    ensures HasBraces(s) ==> Braced(s) == Braced(Unfenced(s))
    ensures StartsWith(s, FENCE) ==> |Unfenced(s)| < |s|
  {
    var fence := if StartsWith(s, JSON_FENCE) then JSON_FENCE else FENCE;
    if StartsWith(s, fence) {
      OpeningIsCut(s, fence);
      var t := StripOpening(s, fence);
      CutKeepsBraces(s, t);
      ClosingIsCut(t);
      CutKeepsBraces(t, StripClosing(t));
    }
  }

  lemma CleanupKeepsBraces(content: string)
    ensures HasBraces(content) <==> HasBraces(Unfenced(Trim(content)))
    ensures HasBraces(content) ==> Braced(content) == Braced(Unfenced(Trim(content)))
  {
    TrimIsCut(content);
    CutKeepsBraces(content, Trim(content));
    UnfencingKeepsBraces(Trim(content));
  }

  /** Trimming, fence stripping and the boundary search, in the order of the source. */
  method CleanContent(content: string) returns (cleanContent: string)
    ensures cleanContent == Extracted(content)
  {
    CleanupKeepsBraces(content);
    cleanContent := Trim(content);
    if StartsWith(cleanContent, JSON_FENCE) {
      cleanContent := StripOpening(cleanContent, JSON_FENCE);
      cleanContent := StripClosing(cleanContent);
    } else if StartsWith(cleanContent, FENCE) {
      cleanContent := StripOpening(cleanContent, FENCE);
      cleanContent := StripClosing(cleanContent);
    }
    assert cleanContent == Unfenced(Trim(content));
    var jsonStart := IndexOf(cleanContent, '{');
    var jsonEnd := LastIndexOf(cleanContent, '}');
    if jsonStart != -1 && jsonEnd != -1 && jsonEnd > jsonStart {
      cleanContent := cleanContent[jsonStart..jsonEnd + 1];
    }
  }

  /** A braced text comes back unchanged from any wrapping that opens no brace before it and closes none after it. */
  lemma WrappingIsUndone(p: string, json: string, q: string)
    requires |json| >= 2 && json[0] == '{' && json[|json| - 1] == '}'
    requires Lacks(p, '{') && Lacks(q, '}')
    ensures Extracted(p + json + q) == json
  {
    assert IndexOf(json, '{') == 0 && LastIndexOf(json, '}') == |json| - 1;
    Surrounded(p, json, q);
  }

  /**
   An answer without braces in a fence: the fence, marked as json or not, the closing
   one and the white space around and inside them go, and the text stays.
   */
  lemma FencedTextIsFreed(lead: string, fence: string, p: string, t: string, q: string, trail: string)
    requires AllSpace(lead) && AllSpace(p) && AllSpace(q) && AllSpace(trail)
    requires Trimmed(t) && t != "" && BraceFree(t)
    requires fence == JSON_FENCE || (fence == FENCE && !StartsWith(p + t, "json"))
    ensures Extracted(lead + ((fence + (p + (t + (q + FENCE)))) + trail)) == t
  {
    var s := fence + (p + (t + (q + FENCE)));
    TrimAround(lead, s, trail);
    FencedBody(fence, p, t, q);
    SurroundedHasNone(lead, fence, p, t, q, trail);
  }

  lemma SurroundedHasNone(lead: string, fence: string, p: string, t: string, q: string, trail: string)
    requires BraceFree(t) && (fence == JSON_FENCE || fence == FENCE)
    requires AllSpace(lead) && AllSpace(p) && AllSpace(q) && AllSpace(trail)
    ensures !HasBraces(lead + ((fence + (p + (t + (q + FENCE)))) + trail))
  {
    BraceFreeConcat(q, FENCE);
    BraceFreeConcat(t, q + FENCE);
    BraceFreeConcat(p, t + (q + FENCE));
    BraceFreeConcat(fence, p + (t + (q + FENCE)));
    BraceFreeConcat(fence + (p + (t + (q + FENCE))), trail);
    BraceFreeConcat(lead, (fence + (p + (t + (q + FENCE)))) + trail);
  }

  lemma FencedBody(fence: string, p: string, t: string, q: string)
    requires AllSpace(p) && AllSpace(q) && Trimmed(t) && t != ""
    requires fence == JSON_FENCE || (fence == FENCE && !StartsWith(p + t, "json"))
    ensures Unfenced(fence + (p + (t + (q + FENCE)))) == t
  {
    var body := t + (q + FENCE);
    var s := fence + (p + body);
    FenceIsSeen(fence, p, t, q);
    assert s[|fence|..] == p + body;
    TrimStartPast(p, body);
    var u := t + q;
    assert body == u + FENCE;
    assert body[|body| - 3..] == FENCE && body[..|body| - 3] == u;
    TrimEndPast(t, q);
  }

  lemma FenceIsSeen(fence: string, p: string, t: string, q: string)
    requires AllSpace(p) && AllSpace(q) && t != ""
    requires fence == JSON_FENCE || (fence == FENCE && !StartsWith(p + t, "json"))
    ensures var s := fence + (p + (t + (q + FENCE)));
            StartsWith(s, fence) && StartsWith(s, FENCE) && (StartsWith(s, JSON_FENCE) <==> fence == JSON_FENCE)
  {
    var rest := p + (t + (q + FENCE));
    var s := fence + rest;
    assert s[..|fence|] == fence;
    assert JSON_FENCE[..3] == FENCE && s[..3] == FENCE;
    if fence == FENCE {
      assert rest == (p + t) + (q + FENCE);
      assert IsSpace((q + FENCE)[0]) || (q + FENCE)[0] == '`';
      NoJsonAhead(p + t, q + FENCE);
      assert |rest| >= 4 ==> s[..7][3..] == rest[..4];
      assert JSON_FENCE[3..] == "json";
    }
  }

  lemma NoJsonAhead(x: string, y: string)
    requires !StartsWith(x, "json") && y != "" && y[0] !in "json"
    ensures !StartsWith(x + y, "json")
  {
    if |x| >= 4 {
      assert (x + y)[..4] == x[..4];
    } else if |x + y| >= 4 {
      assert (x + y)[..4][|x|] == y[0];
      assert "json"[|x|] in "json";
    }
  }

  /** An answer without braces that does not start with a fence is only trimmed. */
  lemma PlainTextIsTrimmed(content: string)
    requires !HasBraces(content) && !StartsWith(Trim(content), FENCE)
    ensures Extracted(content) == Trim(content)
  {
    var s := Trim(content);
    assert |s| >= 7 ==> s[..7][..3] == s[..3];
    assert JSON_FENCE[..3] == FENCE;
  }

  lemma ClosingKeepsTrim(t: string)
    requires Trimmed(t)
    ensures Trimmed(StripClosing(t))
  {
    if EndsWith(t, FENCE) {
      TrimEndCuts(t[..|t| - |FENCE|]);
    }
  }

  lemma UnfencedIsTrimmed(s: string)
    requires Trimmed(s)
    ensures Trimmed(Unfenced(s))
  {
    var fence := if StartsWith(s, JSON_FENCE) then JSON_FENCE else FENCE;
    if StartsWith(s, fence) {
      var u := s[|fence|..];
      TrimStartCuts(u);
      ClosingKeepsTrim(TrimStart(u));
    }
  }

  /** The text after the opening fence and its white space. */
  function AfterFence(s: string): string
    requires StartsWith(s, FENCE)
  {
    TrimStart(s[if StartsWith(s, JSON_FENCE) then |JSON_FENCE| else |FENCE|..])
  }

  /** A fence directly inside the opening fence, that is not just the closing one. */
  predicate FencedTwice(s: string) {
    && StartsWith(s, FENCE)
    && var u := AfterFence(s);
       StartsWith(u, FENCE) && (EndsWith(u, FENCE) ==> |u| >= 2 * |FENCE|)
  }

  lemma FenceStaysInFront(s: string)
    requires StartsWith(s, FENCE)
    ensures StartsWith(TrimEnd(s), FENCE)
  {
    assert s[2] == s[..3][2];
    TrimEndStops(s, 2);
    TrimEndCuts(s);
    assert TrimEnd(s)[..3] == s[..3];
  }

  lemma ClosingKeepsFence(u: string)
    ensures StartsWith(StripClosing(u), FENCE)
       <==> StartsWith(u, FENCE) && (EndsWith(u, FENCE) ==> |u| >= 2 * |FENCE|)
  {
    if EndsWith(u, FENCE) {
      var v := u[..|u| - 3];
      TrimEndCuts(v);
      if |u| >= 6 {
        assert v[..3] == u[..3];
        if StartsWith(v, FENCE) {
          FenceStaysInFront(v);
        }
      }
      if StartsWith(TrimEnd(v), FENCE) {
        assert u[..3] == TrimEnd(v)[..3];
      }
    }
  }

  lemma UnfencedStarts(s: string)
    ensures StartsWith(Unfenced(s), FENCE) <==> FencedTwice(s)
  {
    if StartsWith(s, JSON_FENCE) {
      assert s[..3] == JSON_FENCE[..3] == FENCE;
    }
    if StartsWith(s, FENCE) {
      ClosingKeepsFence(AfterFence(s));
    }
  }

  /**
   A second cleanup changes nothing exactly when the answer had braces or its
   text does not open with one fence inside another.
   */
  lemma CleanupIdempotent(content: string)
    ensures Extracted(Extracted(content)) == Extracted(content)
       <==> HasBraces(content) || !FencedTwice(Trim(content))
  {
    if HasBraces(content) {
      var json := Braced(content);
      WrappingIsUndone("", json, "");
      assert "" + json + "" == json;
    } else {
      CleanupKeepsBraces(content);
      var p, q := TrimCuts(content);
      var t := Unfenced(Trim(content));
      UnfencedIsTrimmed(Trim(content));
      TrimmedStays(t);
      UnfencingKeepsBraces(t);
      UnfencedStarts(Trim(content));
      if StartsWith(t, JSON_FENCE) {
        assert t[..3] == JSON_FENCE[..3] == FENCE;
      }
    }
  }

  /** An answer without braces whose cleanup is not idempotent: a fence inside a fence. */
  lemma NestedFences()
    ensures Extracted("``````x") == "```x"
    ensures Extracted(Extracted("``````x")) == "x"
  {
    assert FENCE + "```x" == "``````x" && FENCE + "x" == "```x";
    assert Extracted(FENCE + "```x") == "```x" by {
      OneFence("```x");
    }
    assert Extracted(FENCE + "x") == "x" by {
      OneFence("x");
    }
  }

  /** A plain fence in front of a text is stripped. */
  lemma OneFence(t: string)
    requires Trimmed(t) && t != "" && Lacks(t, '{') && t[0] != 'j' && !EndsWith(t, FENCE)
    ensures Extracted(FENCE + t) == t
  {
    var s := FENCE + t;
    assert Lacks(s, '{');
    TrimmedStays(s);
    assert s[..3] == FENCE && s[3..] == t;
    if |s| >= 7 {
      assert s[..7][3] == t[0] != JSON_FENCE[3];
    }
  }
}

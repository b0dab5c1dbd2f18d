/**
 * Hook text as sequences of UTF-16 code units: well-formedness, trimming, and the truncation that both
 * context builders share (src/hook-session-format.ts:76-89).
 */
module HookText {
  import opened Characters

  /** The code units of a literal without supplementary characters. */
  function Units(s: string): (u: seq<int>)
    ensures |u| == |s| && forall i | 0 <= i < |s| :: u[i] == s[i] as int
  {
    seq(|s|, i requires 0 <= i < |s| => s[i] as int)
  }

  const NEWLINE := 10

  // ---------- surrogates ----------

  predicate High(u: int) { 0xD800 <= u <= 0xDBFF }

  predicate Low(u: int) { 0xDC00 <= u <= 0xDFFF }

  /** The two halves of the surrogate range, by their upper six bits. */
  lemma SurrogateRanges(u: int)
    ensures High(u) <==> u / 0x400 == 54
    ensures Low(u) <==> u / 0x400 == 55
  {
  }

  /** No surrogate is unpaired. */
  predicate WellFormed(s: seq<int>) {
    if s == [] then true
    else if High(s[0]) then |s| > 1 && Low(s[1]) && WellFormed(s[2..])
    else !Low(s[0]) && WellFormed(s[1..])
  }

  lemma {:induction false} HighThenLow(s: seq<int>, i: nat)
    requires WellFormed(s) && i < |s| && High(s[i])
    ensures i + 1 < |s| && Low(s[i + 1])
    decreases |s|
  {
    if High(s[0]) {
      if i > 1 { HighThenLow(s[2..], i - 2); }
    } else if i > 0 {
      HighThenLow(s[1..], i - 1);
    }
  }

  /** A cut is well-formed exactly when it does not follow a high surrogate. */
  lemma {:induction false} CutIff(s: seq<int>, c: nat)
    requires WellFormed(s) && c <= |s|
    ensures WellFormed(s[..c]) <==> c == 0 || !High(s[c - 1])
    decreases |s|
  {
    if c > 0 {
      if High(s[0]) {
        if c > 1 {
          CutIff(s[2..], c - 2);
          assert s[..c][2..] == s[2..][..c - 2];
        }
      } else {
        CutIff(s[1..], c - 1);
        assert s[..c][1..] == s[1..][..c - 1];
      }
    }
  }

  lemma CutBeforeUnit(s: seq<int>, c: nat)
    requires WellFormed(s) && c < |s| && !Low(s[c])
    ensures WellFormed(s[..c])
  {
    CutIff(s, c);
    if c > 0 && High(s[c - 1]) { HighThenLow(s, c - 1); }
  }

  lemma {:induction false} WellFormedJoins(a: seq<int>, b: seq<int>)
    requires WellFormed(a) && WellFormed(b)
    ensures WellFormed(a + b)
    decreases |a|
  {
    if a == [] {
      assert a + b == b;
    } else if High(a[0]) {
      assert (a + b)[2..] == a[2..] + b;
      WellFormedJoins(a[2..], b);
    } else {
      assert (a + b)[1..] == a[1..] + b;
      WellFormedJoins(a[1..], b);
    }
  }

  /** A well-formed beginning does not decide. */
  lemma {:induction false} BeginsIff(a: seq<int>, b: seq<int>)
    requires WellFormed(a)
    ensures WellFormed(a + b) <==> WellFormed(b)
    decreases |a|
  {
    if a == [] {
      assert a + b == b;
    } else if High(a[0]) {
      assert (a + b)[2..] == a[2..] + b;
      BeginsIff(a[2..], b);
    } else {
      assert (a + b)[1..] == a[1..] + b;
      BeginsIff(a[1..], b);
    }
  }

  /** A well-formed end does not decide. */
  lemma {:induction false} EndsIff(a: seq<int>, b: seq<int>)
    requires WellFormed(b)
    ensures WellFormed(a + b) <==> WellFormed(a)
    decreases |a|
  {
    if a == [] {
      assert a + b == b;
    } else if High(a[0]) && |a| > 1 {
      assert (a + b)[2..] == a[2..] + b;
      EndsIff(a[2..], b);
    } else {
      assert (a + b)[1..] == a[1..] + b;
      EndsIff(a[1..], b);
    }
  }

  predicate Plain(s: seq<int>) {
    forall i | 0 <= i < |s| :: !High(s[i]) && !Low(s[i])
  }

  lemma {:induction false} PlainIsWellFormed(s: seq<int>)
    requires Plain(s)
    ensures WellFormed(s)
  {
    if s != [] { PlainIsWellFormed(s[1..]); }
  }

  /** What follows plain units is well-formed when the whole is. */
  lemma {:induction false} AfterPlain(s: seq<int>, c: nat)
    requires WellFormed(s) && c <= |s| && Plain(s[..c])
    ensures WellFormed(s[c..])
    decreases c
  {
    if c > 0 {
      assert s[0] == s[..c][0];
      assert s[1..][..c - 1] == s[..c][1..];
      AfterPlain(s[1..], c - 1);
      assert s[1..][c - 1..] == s[c..];
    }
  }

  // ---------- trimming and truncation ----------

  function TrimEnd(s: seq<int>): (t: seq<int>)
    ensures t <= s && (t != [] ==> !IsWhiteSpace(t[|t| - 1]))
    ensures forall k | |t| <= k < |s| :: IsWhiteSpace(s[k])
  {
    if s != [] && IsWhiteSpace(s[|s| - 1]) then TrimEnd(s[..|s| - 1]) else s
  }

  predicate BreaksAt(s: seq<int>, p: int) {
    0 <= p && p + 2 <= |s| && s[p] == NEWLINE && s[p + 1] == NEWLINE
  }

  /** `s.lastIndexOf('\n\n')` */
  function LastBreak(s: seq<int>): (p: int)
    ensures p >= 0 ==> BreaksAt(s, p)
    ensures p < 0 ==> p == -1
    ensures forall q | q > p :: !BreaksAt(s, q)
  {
    if |s| < 2 then -1
    else if BreaksAt(s, |s| - 2) then |s| - 2
    else
      assert forall q | BreaksAt(s, q) && q < |s| - 2 :: BreaksAt(s[..|s| - 1], q);
      LastBreak(s[..|s| - 1])
  }

  /** What stays of the text before the marker: up to the last break of the slice if that is past its half. */
  function Kept(text: seq<int>, budget: nat): seq<int>
    requires budget <= |text|
  {
    var para := LastBreak(text[..budget]);
    if 2 * para > budget then text[..para] else text[..budget]
  }

  function TruncateAtParagraph(text: seq<int>, maxLen: int, marker: seq<int>): (r: seq<int>)
    ensures |text| <= maxLen ==> r == text
    ensures |text| > maxLen ==> |r| <= if maxLen < 0 then 0 else maxLen
    ensures |text| > maxLen > |marker| ==> r == TrimEnd(Kept(text, maxLen - |marker|)) + marker
  {
    if |text| <= maxLen then text
    else if maxLen <= |marker| then text[..if maxLen < 0 then 0 else maxLen]
    else TrimEnd(Kept(text, maxLen - |marker|)) + marker
  }

  /** Without room for the marker, the text is cut at the maximum. */
  lemma TruncationWithoutRoom(text: seq<int>, maxLen: int, marker: seq<int>)
    requires maxLen < |text| && maxLen <= |marker|
    ensures TruncateAtParagraph(text, maxLen, marker) == if maxLen > 0 then text[..maxLen] else []
  {
  }

  /** Everything the truncation keeps is a beginning of the text, followed by the marker if one fits. */
  lemma TruncationIsPrefix(text: seq<int>, maxLen: int, marker: seq<int>)
    ensures var r := TruncateAtParagraph(text, maxLen, marker);
      || r == text
      || (maxLen <= |marker| && r <= text)
      || exists c: nat | c <= |text| && c + |marker| <= maxLen :: r == text[..c] + marker
  {
    if |text| > maxLen > |marker| {
      var kept := Kept(text, maxLen - |marker|);
      var body := TrimEnd(kept);
      assert body == text[..|body|];
    }
  }

  /**
   * Where an overlong text is cut: at its last paragraph break within the room if that is past the half,
   * and otherwise at the room's end; so at least half of the room is kept, but for trailing white space.
   */
  lemma TruncationKeepsHalf(text: seq<int>, maxLen: nat, marker: seq<int>) returns (c: nat)
    requires |text| > maxLen > |marker|
    ensures c <= maxLen - |marker| <= 2 * c && TruncateAtParagraph(text, maxLen, marker) == TrimEnd(text[..c]) + marker
    ensures var room := maxLen - |marker|;
      if c == room then forall q: nat | q + 2 <= room && BreaksAt(text, q) :: 2 * q <= room
      else BreaksAt(text, c) && forall q: nat | q + 2 <= room && BreaksAt(text, q) :: q <= c
  {
    hide TrimEnd, LastBreak, TruncateAtParagraph;
    var room := maxLen - |marker|;
    var slice := text[..room];
    var para := LastBreak(slice);
    BreaksInSlice(text, room);
    c := if 2 * para > room then para else room;
    assert Kept(text, room) == text[..c];
  }

  lemma BreaksInSlice(text: seq<int>, room: nat)
    requires room <= |text|
    ensures forall q: nat :: BreaksAt(text[..room], q) <==> q + 2 <= room && BreaksAt(text, q)
  {
  }

  lemma BlanksArePlain()
    ensures forall u: int :: IsWhiteSpace(u) || u == NEWLINE ==> !Low(u)
  {
  }

  /** A truncated text is well-formed when its hard cut does not follow a high surrogate. */
  lemma TruncationIsWellFormed(text: seq<int>, maxLen: int, marker: seq<int>)
    requires WellFormed(text) && WellFormed(marker) && |marker| < maxLen
    requires |text| > maxLen ==> !High(text[maxLen - |marker| - 1])
    ensures WellFormed(TruncateAtParagraph(text, maxLen, marker))
  {
    hide WellFormed, TrimEnd, LastBreak, IsWhiteSpace, Low;
    BlanksArePlain();
    if |text| > maxLen {
      var budget := maxLen - |marker|;
      var kept := Kept(text, budget);
      var body := TrimEnd(kept);
      var c := |body|;
      assert body == text[..c];
      if c < |kept| {
        assert IsWhiteSpace(kept[c]) && kept[c] == text[c];
        CutBeforeUnit(text, c);
      } else if c < budget {
        CutBeforeUnit(text, c);
      } else {
        CutIff(text, c);
      }
      WellFormedJoins(body, marker);
    }
  }

  lemma UnpairedHigh(a: seq<int>, b: seq<int>)
    requires a != [] && High(a[|a| - 1]) && WellFormed(b)
    ensures !WellFormed(a + b)
  {
    if b != [] { assert (a + b)[|a|] == b[0]; }
    assert (a + b)[|a| - 1] == a[|a| - 1];
    if WellFormed(a + b) { HighThenLow(a + b, |a| - 1); }
  }

  /** A cut at a paragraph break splits no pair. */
  lemma BreakKeepsPairs(text: seq<int>, maxLen: int, marker: seq<int>)
    requires WellFormed(text) && WellFormed(marker) && |marker| < maxLen < |text|
    requires var room := maxLen - |marker|; 2 * LastBreak(text[..room]) > room
    ensures WellFormed(TruncateAtParagraph(text, maxLen, marker))
  {
    hide WellFormed, IsWhiteSpace, Low, TrimEnd;
    BlanksArePlain();
    var room := maxLen - |marker|;
    var para := LastBreak(text[..room]);
    assert text[para] == text[..room][para] == NEWLINE;
    assert Kept(text, room) == text[..room][..para] == text[..para];
    TrimmedIsWellFormed(text, para);
    WellFormedJoins(TrimEnd(text[..para]), marker);
  }

  lemma TrimmedIsWellFormed(text: seq<int>, c: nat)
    requires WellFormed(text) && c < |text| && !Low(text[c])
    ensures WellFormed(TrimEnd(text[..c]))
  {
    hide WellFormed, IsWhiteSpace, Low;
    BlanksArePlain();
    var n := |TrimEnd(text[..c])|;
    assert TrimEnd(text[..c]) == text[..n];
    if n < c { assert IsWhiteSpace(text[..c][n]); }
    CutBeforeUnit(text, n);
  }

  /**
   * Exactly when an overlong text stays well-formed: unless it is cut at the room's end, because no break
   * is past the half, and the unit before that is a high surrogate.
   */
  lemma TruncationIsWellFormedIff(text: seq<int>, maxLen: int, marker: seq<int>)
    requires WellFormed(text) && WellFormed(marker) && |marker| < maxLen < |text|
    ensures var room := maxLen - |marker|;
      WellFormed(TruncateAtParagraph(text, maxLen, marker)) <==>
        (2 * LastBreak(text[..room]) > room || !High(text[room - 1]))
  {
    hide WellFormed, TruncateAtParagraph, LastBreak, High, Low;
    var room := maxLen - |marker|;
    if 2 * LastBreak(text[..room]) > room {
      BreakKeepsPairs(text, maxLen, marker);
    } else if High(text[room - 1]) {
      SplittingTruncation(text, maxLen, marker);
      assert text[..room][room - 1] == text[room - 1];
      UnpairedHigh(text[..room], marker);
    } else {
      TruncationIsWellFormed(text, maxLen, marker);
    }
  }

  /** A truncation that splits a pair keeps all of the room, and what is before the pair is well-formed. */
  lemma SplittingTruncation(text: seq<int>, maxLen: int, marker: seq<int>)
    requires WellFormed(text) && |marker| < maxLen < |text|
    requires var room := maxLen - |marker|; 2 * LastBreak(text[..room]) <= room && High(text[room - 1])
    ensures var room := maxLen - |marker|;
      TruncateAtParagraph(text, maxLen, marker) == text[..room] + marker && WellFormed(text[..room - 1])
  {
    hide WellFormed, LastBreak, IsWhiteSpace;
    HighIsNoBlank();
    var room := maxLen - |marker|;
    assert text[..room][room - 1] == text[room - 1];
    CutIff(text, room - 1);
    if room > 1 && High(text[room - 2]) { HighThenLow(text, room - 2); }
  }

  lemma HighIsNoBlank()
    ensures forall u: int :: High(u) ==> !IsWhiteSpace(u)
  {
  }
}

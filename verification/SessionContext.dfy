/**
 * The session-start text and its budget: what is kept whole, what is cut, and when the hard cap is
 * reached (src/hook-session-format.ts:91-146).
 */
module SessionContext {
  import opened Wrappers
  import opened Characters
  import opened HookText

  const INJECT_BUDGET_CHARS := 9000
  const PROFILE_FLOOR_CHARS := 500
  const HARD_CAP_CHARS := 9800
  const BREAK: seq<int> := [NEWLINE, NEWLINE]

  function Header(): seq<int> { Units("[TIDE MIND — SESSION CONTEXT]\n\n## 使用指南\n") }

  function Footer(): seq<int> {
    Units("\n\n---\n以上内容由 Tide Mind 在会话启动时自动注入。") + Units("brain_recall 和 brain_digest 工具仍可在对话过程中使用。")
  }

  function ProfileMarker(): seq<int> { Units("……（画像过长已截断，完整画像可调 brain_prepare 获取）") }

  function CapMarker(): seq<int> { Units("……（上下文过长已截断，可调 brain_prepare ") + Units("/ brain_recall 获取完整记忆）") }

  /** `[profile, rest].filter(Boolean).join('\n\n')` */
  function Joined(profile: seq<int>, rest: seq<int>): seq<int> {
    if profile == [] then rest else if rest == [] then profile else profile + BREAK + rest
  }

  function Build(skill: seq<int>, profile: seq<int>, rest: seq<int>): seq<int> {
    Header() + skill + BREAK + Joined(profile, rest) + Footer()
  }

  /**
   * What stands where: the frame, the Skill, the profile and the rest, a blank line apart, and an empty
   * one left out.
   */
  lemma BuildReads(skill: seq<int>, profile: seq<int>, rest: seq<int>)
    ensures var blank := Units("\n\n");
      var sections := if profile == [] then rest else if rest == [] then profile else profile + blank + rest;
      Build(skill, profile, rest) == Header() + skill + blank + sections + Footer()
  {
    hide Header, Footer;
    assert Units("\n\n") == BREAK;
  }

  lemma BuildLength(skill: seq<int>, profile: seq<int>, rest: seq<int>)
    ensures |Build(skill, profile, rest)|
      == |Build(skill, [], rest)| + |profile| + if profile != [] && rest != [] then 2 else 0
  {
    hide Units, Header, Footer;
  }

  /** The room that the frame, the Skill and the rest section leave for the profile. */
  function ProfileRoom(skill: seq<int>, rest: seq<int>, budget: int): int {
    budget - |Build(skill, [], rest)| - (if rest != [] then 2 else 0)
  }

  /** The text as built is over budget, and the frame, Skill and rest leave less than the floor. */
  predicate OnFloor(skill: seq<int>, profile: seq<int>, rest: seq<int>, budget: int) {
    |Build(skill, profile, rest)| > budget && ProfileRoom(skill, rest, budget) < PROFILE_FLOOR_CHARS
  }

  function FlooredProfile(profile: seq<int>): seq<int> {
    TruncateAtParagraph(profile, PROFILE_FLOOR_CHARS, ProfileMarker())
  }

  predicate IsCut(skill: seq<int>, profile: seq<int>, rest: seq<int>, budget: int) {
    OnFloor(skill, profile, rest, budget) && |Build(skill, FlooredProfile(profile), rest)| > HARD_CAP_CHARS
  }

  lemma MarkersAreShort()
    ensures |ProfileMarker()| < PROFILE_FLOOR_CHARS && |CapMarker()| < HARD_CAP_CHARS
  {
  }

  // ---------- surrogate pairs ----------

  /** Truncating the profile to `maxLen` cuts a surrogate pair: no late break, and the room ends inside the pair. */
  predicate ProfileSplits(profile: seq<int>, maxLen: int)
    requires maxLen >= PROFILE_FLOOR_CHARS
  {
    MarkersAreShort();
    var room := maxLen - |ProfileMarker()|;
    |profile| > maxLen && 2 * LastBreak(profile[..room]) <= room && High(profile[room - 1])
  }

  /** Where the hard cut is made. */
  function CapRoom(): (n: nat)
    ensures 0 < n <= HARD_CAP_CHARS
  {
    MarkersAreShort();
    HARD_CAP_CHARS - |CapMarker()|
  }

  /** One past the last profile unit that a hard truncation to the floor keeps in the text. */
  function SplitEnd(skill: seq<int>): int {
    |Header()| + |skill| + 2 + PROFILE_FLOOR_CHARS - |ProfileMarker()|
  }

  /**
   * When the assembled text is well-formed, for well-formed parts: the profile's own truncation keeps its
   * pairs, and so does the hard cut, before which alone the profile's truncation then matters.
   */
  predicate KeepsPairs(skill: seq<int>, profile: seq<int>, rest: seq<int>, budget: int) {
    if |Build(skill, profile, rest)| <= budget then true
    else if !OnFloor(skill, profile, rest, budget) then !ProfileSplits(profile, ProfileRoom(skill, rest, budget))
    else if !IsCut(skill, profile, rest, budget) then !ProfileSplits(profile, PROFILE_FLOOR_CHARS)
    else
      && !High(Build(skill, FlooredProfile(profile), rest)[CapRoom() - 1])
      && (ProfileSplits(profile, PROFILE_FLOOR_CHARS) ==> CapRoom() < SplitEnd(skill))
  }

  lemma FrameIsPlain()
    ensures Plain(Header()) && Plain(Footer()) && Plain(ProfileMarker()) && Plain(CapMarker()) && Plain(BREAK)
    ensures WellFormed(Header()) && WellFormed(Footer()) && WellFormed(ProfileMarker()) && WellFormed(CapMarker())
    ensures WellFormed(BREAK)
  {
    hide WellFormed;
    PlainIsWellFormed(Header());
    PlainIsWellFormed(Footer());
    PlainIsWellFormed(ProfileMarker());
    PlainIsWellFormed(CapMarker());
    PlainIsWellFormed(BREAK);
  }

  /** A built text is well-formed exactly when its profile is. */
  lemma BuildIsWellFormedIff(skill: seq<int>, profile: seq<int>, rest: seq<int>)
    requires WellFormed(skill) && WellFormed(rest)
    ensures WellFormed(Build(skill, profile, rest)) <==> WellFormed(profile)
  {
    hide WellFormed, Header, Footer, Plain;
    FrameIsPlain();
    var before := Header() + skill + BREAK;
    WellFormedJoins(Header(), skill);
    WellFormedJoins(Header() + skill, BREAK);
    var joined := Joined(profile, rest);
    if profile != [] && rest != [] {
      WellFormedJoins(BREAK, rest);
      assert joined == profile + (BREAK + rest);
      EndsIff(profile, BREAK + rest);
    } else if profile == [] {
      EmptyIsWellFormed();
    }
    BeginsIff(before, joined);
    EndsIff(before + joined, Footer());
  }

  lemma EmptyIsWellFormed()
    ensures WellFormed([])
  {
  }

  lemma TruncatedIsWellFormedIff(profile: seq<int>, maxLen: int)
    requires WellFormed(profile) && maxLen >= PROFILE_FLOOR_CHARS
    ensures WellFormed(TruncateAtParagraph(profile, maxLen, ProfileMarker())) <==> !ProfileSplits(profile, maxLen)
  {
    hide WellFormed, ProfileMarker, LastBreak;
    MarkersAreShort();
    FrameIsPlain();
    if |profile| > maxLen { TruncationIsWellFormedIff(profile, maxLen, ProfileMarker()); }
  }

  lemma SplitProfile(profile: seq<int>)
    requires WellFormed(profile) && ProfileSplits(profile, PROFILE_FLOOR_CHARS)
    ensures var room := PROFILE_FLOOR_CHARS - |ProfileMarker()|;
      && 0 < room < |profile| && High(profile[room - 1]) && WellFormed(profile[..room - 1])
      && FlooredProfile(profile) == profile[..room] + ProfileMarker()
  {
    hide WellFormed, ProfileMarker, LastBreak, TruncateAtParagraph;
    MarkersAreShort();
    SplittingTruncation(profile, PROFILE_FLOOR_CHARS, ProfileMarker());
  }

  /** Where a profile that splits ends in the built text: after its high surrogate comes the marker. */
  lemma SplitPosition(skill: seq<int>, profile: seq<int>, rest: seq<int>)
    requires WellFormed(skill) && WellFormed(profile) && WellFormed(rest) && ProfileSplits(profile, PROFILE_FLOOR_CHARS)
    ensures var text := Build(skill, FlooredProfile(profile), rest); var n := SplitEnd(skill);
      && 0 < n < |text| && High(text[n - 1]) && !Low(text[n]) && WellFormed(text[..n - 1])
  {
    hide WellFormed, ProfileMarker, ProfileSplits, Header, Build, FlooredProfile;
    SplitProfile(profile);
    MarkerStarts();
    FrameIsPlain();
    var room := PROFILE_FLOOR_CHARS - |ProfileMarker()|;
    var part := FlooredProfile(profile);
    var before := Header() + skill + BREAK;
    var text := Build(skill, part, rest);
    var n := SplitEnd(skill);
    BuildStartsWith(skill, part, rest);
    assert |before| + room == n;
    assert before + part == (before + profile[..room]) + ProfileMarker();
    assert text[n - 1] == (before + part)[n - 1] == profile[room - 1];
    assert text[n] == (before + part)[n] == ProfileMarker()[0];
    assert text[..n - 1] == (before + part)[..n - 1] == before + profile[..room - 1];
    WellFormedJoins(Header(), skill);
    WellFormedJoins(Header() + skill, BREAK);
    WellFormedJoins(before, profile[..room - 1]);
  }

  lemma MarkerStarts()
    ensures |ProfileMarker()| > 0
  {
  }

  lemma BuildStartsWith(skill: seq<int>, part: seq<int>, rest: seq<int>)
    ensures Header() + skill + BREAK + part <= Build(skill, part, rest)
  {
    hide Header, Footer;
    var joined := Joined(part, rest);
    assert part <= joined;
  }

  /** The hard cut of a text, and what it leaves of its pairs. */
  lemma CutKeepsPairsIff(text: seq<int>, k: nat, marker: seq<int>)
    requires WellFormed(text) && WellFormed(marker) && 0 < k <= |text|
    ensures WellFormed(TrimEnd(text[..k]) + marker) <==> !High(text[k - 1])
  {
    hide WellFormed, TrimEnd, IsWhiteSpace, Low;
    BlanksArePlain();
    HighIsNoBlank();
    var body := TrimEnd(text[..k]);
    var c := |body|;
    assert body == text[..c];
    if c < k {
      assert text[..k][c] == text[c];
      CutBeforeUnit(text, c);
      assert text[..k][k - 1] == text[k - 1];
    } else {
      CutIff(text, k);
    }
    EndsIff(body, marker);
  }

  /** A cut that leaves an unpaired high surrogate inside. */
  lemma CutLeavesSplit(text: seq<int>, k: nat, n: nat, marker: seq<int>)
    requires WellFormed(marker) && 0 < n < k <= |text| && High(text[n - 1]) && !Low(text[n])
    ensures !WellFormed(TrimEnd(text[..k]) + marker)
  {
    hide WellFormed, TrimEnd, IsWhiteSpace;
    HighIsNoBlank();
    var body := TrimEnd(text[..k]);
    assert body == text[..|body|];
    assert text[..k][n - 1] == text[n - 1];
    assert |body| >= n;
    if WellFormed(body) {
      assert body[n - 1] == text[n - 1];
      HighThenLow(body, n - 1);
    }
    EndsIff(body, marker);
  }

  /** The text of each branch is well-formed exactly when the parts keep their pairs. */
  lemma PairsInBranches(skill: seq<int>, profile: seq<int>, rest: seq<int>, budget: int)
    requires WellFormed(skill) && WellFormed(profile) && WellFormed(rest)
    ensures var room := ProfileRoom(skill, rest, budget); var floored := Build(skill, FlooredProfile(profile), rest);
      && WellFormed(Build(skill, profile, rest))
      && (|Build(skill, profile, rest)| <= budget ==> KeepsPairs(skill, profile, rest, budget))
      && (|Build(skill, profile, rest)| > budget && room >= PROFILE_FLOOR_CHARS ==>
            var text := Build(skill, TruncateAtParagraph(profile, room, ProfileMarker()), rest);
            (WellFormed(text) <==> KeepsPairs(skill, profile, rest, budget)))
      && (OnFloor(skill, profile, rest, budget) && !IsCut(skill, profile, rest, budget) ==>
            (WellFormed(floored) <==> KeepsPairs(skill, profile, rest, budget)))
      && (IsCut(skill, profile, rest, budget) ==>
            (WellFormed(TrimEnd(floored[..CapRoom()]) + CapMarker()) <==> KeepsPairs(skill, profile, rest, budget)))
  {
    hide WellFormed, Build, ProfileMarker, CapMarker, ProfileSplits, TruncateAtParagraph, CapRoom, SplitEnd;
    var room := ProfileRoom(skill, rest, budget);
    BuildIsWellFormedIff(skill, profile, rest);
    if room >= PROFILE_FLOOR_CHARS {
      BuildIsWellFormedIff(skill, TruncateAtParagraph(profile, room, ProfileMarker()), rest);
      TruncatedIsWellFormedIff(profile, room);
    }
    BuildIsWellFormedIff(skill, FlooredProfile(profile), rest);
    TruncatedIsWellFormedIff(profile, PROFILE_FLOOR_CHARS);
    if IsCut(skill, profile, rest, budget) { PairsAtCap(skill, profile, rest); }
  }

  lemma PairsAtCap(skill: seq<int>, profile: seq<int>, rest: seq<int>)
    requires WellFormed(skill) && WellFormed(profile) && WellFormed(rest)
    requires |Build(skill, FlooredProfile(profile), rest)| > HARD_CAP_CHARS
    ensures var floored := Build(skill, FlooredProfile(profile), rest);
      WellFormed(TrimEnd(floored[..CapRoom()]) + CapMarker())
      <==> (!High(floored[CapRoom() - 1])
            && (ProfileSplits(profile, PROFILE_FLOOR_CHARS) ==> CapRoom() < SplitEnd(skill)))
  {
    hide WellFormed, Build, ProfileMarker, CapMarker, ProfileSplits, TruncateAtParagraph, TrimEnd, CapRoom, SplitEnd;
    FrameIsPlain();
    var floored, k, n := Build(skill, FlooredProfile(profile), rest), CapRoom(), SplitEnd(skill);
    BuildIsWellFormedIff(skill, FlooredProfile(profile), rest);
    TruncatedIsWellFormedIff(profile, PROFILE_FLOOR_CHARS);
    if !ProfileSplits(profile, PROFILE_FLOOR_CHARS) {
      CutKeepsPairsIff(floored, k, CapMarker());
    } else {
      SplitPosition(skill, profile, rest);
      if n < k {
        CutLeavesSplit(floored, k, n, CapMarker());
      } else if n == k {
        HighAtCut(floored, k, CapMarker());
      } else {
        var short := floored[..n - 1];
        assert short[..k] == floored[..k] && short[k - 1] == floored[k - 1];
        CutKeepsPairsIff(short, k, CapMarker());
      }
    }
  }

  lemma HighAtCut(text: seq<int>, k: nat, marker: seq<int>)
    requires WellFormed(marker) && 0 < k <= |text| && High(text[k - 1])
    ensures !WellFormed(TrimEnd(text[..k]) + marker)
  {
    hide WellFormed, IsWhiteSpace;
    HighIsNoBlank();
    assert text[..k][k - 1] == text[k - 1];
    assert TrimEnd(text[..k]) == text[..k];
    UnpairedHigh(text[..k], marker);
  }

  /** `n` letters, but for one surrogate pair that starts at unit `m`. */
  function OnePair(n: nat, m: nat): (s: seq<int>)
    requires m + 2 <= n
    ensures |s| == n && s[m] == 0xD83D
  {
    Letters(m) + [0xD83D, 0xDE00] + Letters(n - m - 2)
  }

  function Letters(n: nat): (s: seq<int>)
    ensures |s| == n && forall i | 0 <= i < n :: s[i] == 97
  {
    seq(n, i => 97)
  }

  lemma OnePairIsWellFormed(n: nat, m: nat)
    requires m + 2 <= n
    ensures WellFormed(OnePair(n, m))
  {
    hide WellFormed;
    PlainIsWellFormed(Letters(m));
    PlainIsWellFormed(Letters(n - m - 2));
    PairAlone();
    WellFormedJoins(Letters(m), [0xD83D, 0xDE00]);
    WellFormedJoins(Letters(m) + [0xD83D, 0xDE00], Letters(n - m - 2));
  }

  lemma PairAlone()
    ensures WellFormed([0xD83D, 0xDE00])
  {
    assert [0xD83D, 0xDE00][2..] == [];
  }

  /** The frame without Skill, profile and rest, and the markers, leave each truncation its room. */
  lemma FrameIsShort()
    ensures |Build([], [], [])| + |ProfileMarker()| + PROFILE_FLOOR_CHARS < INJECT_BUDGET_CHARS
    ensures |Header()| + |CapMarker()| + 2 < HARD_CAP_CHARS
  {
  }

  /** The last unit of a profile that the default budget keeps when there is no Skill and no rest section. */
  function LastKeptUnit(): (n: nat)
    ensures n < INJECT_BUDGET_CHARS && PROFILE_FLOOR_CHARS <= ProfileRoom([], [], INJECT_BUDGET_CHARS)
  {
    hide Build, Units, ProfileMarker;
    FrameIsShort();
    ProfileRoom([], [], INJECT_BUDGET_CHARS) - |ProfileMarker()| - 1
  }

  /** A profile of 20000 units with one pair, which the default budget cuts in two. */
  lemma ProfilePairCanSplit()
    ensures var profile := OnePair(20000, LastKeptUnit()); var room := ProfileRoom([], [], INJECT_BUDGET_CHARS);
      && WellFormed(profile) && |Build([], profile, [])| > INJECT_BUDGET_CHARS
      && !KeepsPairs([], profile, [], INJECT_BUDGET_CHARS)
      && !WellFormed(Build([], TruncateAtParagraph(profile, room, ProfileMarker()), []))
  {
    hide WellFormed, Units, Header, Footer, ProfileMarker, CapMarker, TruncateAtParagraph, Build;
    FrameIsShort();
    MarkersAreShort();
    var at := LastKeptUnit();
    var profile := OnePair(20000, at);
    OnePairIsWellFormed(20000, at);
    EmptyIsWellFormed();
    BuildLength([], profile, []);
    NoBreakInPair(20000, at, at + 1);
    PairsInBranches([], profile, [], INJECT_BUDGET_CHARS);
  }

  lemma NoBreakInPair(n: nat, m: nat, k: nat)
    requires m + 2 <= n && k <= n
    ensures LastBreak(OnePair(n, m)[..k]) == -1
  {
    var s := OnePair(n, m)[..k];
    forall p | 0 <= p < |s| ensures s[p] != NEWLINE {
      assert OnePair(n, m)[p] in {97, 0xD83D, 0xDE00};
    }
  }

  /** A Skill of 20000 units with one pair, which the hard cut splits: no profile is there to be truncated. */
  lemma SkillPairCanSplit()
    ensures 0 <= CapRoom() - |Header()| - 1 < 19998
    ensures var skill := OnePair(20000, CapRoom() - |Header()| - 1);
      && WellFormed(skill) && IsCut(skill, [], [], INJECT_BUDGET_CHARS)
      && !KeepsPairs(skill, [], [], INJECT_BUDGET_CHARS)
      && !WellFormed(TrimEnd(Build(skill, FlooredProfile([]), [])[..CapRoom()]) + CapMarker())
  {
    hide WellFormed, Units, Header, Footer, ProfileMarker, CapMarker, TruncateAtParagraph, TrimEnd;
    FrameIsShort();
    MarkersAreShort();
    var at := CapRoom() - |Header()| - 1;
    var skill := OnePair(20000, at);
    OnePairIsWellFormed(20000, at);
    EmptyIsWellFormed();
    assert FlooredProfile([]) == [];
    var text := Build(skill, [], []);
    assert text[CapRoom() - 1] == skill[at];
    PairsInBranches(skill, [], [], INJECT_BUDGET_CHARS);
  }

  /**
   * `assembleSessionContext`. The Skill and rest section are kept as they are and the profile whole, or
   * truncated to the room they leave, or to the floor; except exactly when the floored text passes the
   * hard cap, of which then everything that fits before the cap's marker is kept.
   */
  method AssembleSessionContext(skill: seq<int>, profile: seq<int>, rest: seq<int>, customBudget: Option<int>)
      returns (content: seq<int>)
    ensures var budget := if customBudget.None? then INJECT_BUDGET_CHARS else customBudget.value;
      var room := ProfileRoom(skill, rest, budget); var floored := Build(skill, FlooredProfile(profile), rest);
      && (|content| <= budget || |content| <= HARD_CAP_CHARS)
      && (!OnFloor(skill, profile, rest, budget) ==> |content| <= budget)
      && (|Build(skill, profile, rest)| <= budget ==> content == Build(skill, profile, rest))
      && (|Build(skill, profile, rest)| > budget && room >= PROFILE_FLOOR_CHARS ==>
            content == Build(skill, TruncateAtParagraph(profile, room, ProfileMarker()), rest))
      && (OnFloor(skill, profile, rest, budget) && !IsCut(skill, profile, rest, budget) ==> content == floored)
      && (IsCut(skill, profile, rest, budget) ==>
            && HARD_CAP_CHARS - |CapMarker()| >= 0
            && content == TrimEnd(floored[..HARD_CAP_CHARS - |CapMarker()|]) + CapMarker())
    ensures WellFormed(skill) && WellFormed(profile) && WellFormed(rest) ==>
      (WellFormed(content) <==>
         KeepsPairs(skill, profile, rest, if customBudget.None? then INJECT_BUDGET_CHARS else customBudget.value))
  {
    hide Build, ProfileMarker, CapMarker, TruncateAtParagraph, WellFormed, KeepsPairs, TrimEnd, Units, Header, Footer,
      LastBreak, IsWhiteSpace;
    MarkersAreShort();
    if WellFormed(skill) && WellFormed(profile) && WellFormed(rest) {
      PairsInBranches(skill, profile, rest, if customBudget.None? then INJECT_BUDGET_CHARS else customBudget.value);
    }
    var budget := if customBudget.None? then INJECT_BUDGET_CHARS else customBudget.value;
    content := Build(skill, profile, rest);
    if |content| <= budget { return; }
    var fixedLen := |Build(skill, [], rest)|;
    var sepLen := if rest != [] then 2 else 0;
    var profileBudget := budget - fixedLen - sepLen;
    if profileBudget >= PROFILE_FLOOR_CHARS {
      var truncated := TruncateAtParagraph(profile, profileBudget, ProfileMarker());
      BuildLength(skill, truncated, rest);
      content := Build(skill, truncated, rest);
      if |content| <= budget { return; }
    } else {
      content := Build(skill, TruncateAtParagraph(profile, PROFILE_FLOOR_CHARS, ProfileMarker()), rest);
    }
    if |content| > HARD_CAP_CHARS {
      content := TrimEnd(content[..HARD_CAP_CHARS - |CapMarker()|]) + CapMarker();
    }
  }

  /**
   * The hard cut is reached exactly when the floor is and the frame, Skill and rest, with the floored
   * profile, pass the cap; so never while they alone are within 9298 units, whatever the profile is.
   */
  lemma HardCutIff(skill: seq<int>, profile: seq<int>, rest: seq<int>, budget: int)
    ensures var fixedLen := |Build(skill, [], rest)|; var floored := |FlooredProfile(profile)|;
      && (IsCut(skill, profile, rest, budget) <==>
            && OnFloor(skill, profile, rest, budget)
            && fixedLen + floored + (if floored > 0 && rest != [] then 2 else 0) > HARD_CAP_CHARS)
      && (IsCut(skill, profile, rest, budget) ==> fixedLen > HARD_CAP_CHARS - PROFILE_FLOOR_CHARS - 2)
  {
    hide Build, ProfileMarker;
    BuildLength(skill, FlooredProfile(profile), rest);
  }
}

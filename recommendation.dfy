/** The recommendation builder: the prompt sent to the text generator and the
    post-processing of what it returns,
    `output.replace(prompt, "").strip().split("\n")[0]`.

    The generator is not modelled (it samples, so its output is not a function
    of the prompt): its output is a parameter. */
module Recommendation {

  // ---------------------------------------------------------------------------
  // The prompt
  // ---------------------------------------------------------------------------

  const PromptHead: string := "\nYou are an AI support assistant. A user sent this message: \""
  const PromptMiddle: string := "\"\nThe detected emotion is: "
  const PromptTail: string :=
    ".\nBased on the tone and context, give a personalized recommendation on how to respond"
    + " to this user to retain them, if there's a risk.\nKeep it short, empathetic, and helpful.\n"

  /** The f-string template filled with the user's message and the detected emotion. */
  function BuildPrompt(userMessage: string, emotion: string): (p: string)
    ensures |p| == |PromptHead| + |userMessage| + |PromptMiddle| + |emotion| + |PromptTail|
    ensures p[..|PromptHead|] == PromptHead
    ensures p[|PromptHead|..|PromptHead| + |userMessage|] == userMessage
  {
    PromptHead + userMessage + PromptMiddle + emotion + PromptTail
  }

  /** The prompt is never empty, so `replace` always has something to remove. */
  lemma PromptNonEmpty(userMessage: string, emotion: string)
    ensures BuildPrompt(userMessage, emotion) != []
  {
    assert |PromptHead| > 0;
  }

  // ---------------------------------------------------------------------------
  // str.replace(p, "")
  // ---------------------------------------------------------------------------

  /** `p` occurs in `s` starting at position `i`. */
  predicate OccursAt(s: string, p: string, i: int)
  {
    0 <= i && i + |p| <= |s| && s[i..i + |p|] == p
  }

  predicate Occurs(s: string, p: string)
  {
    exists i :: 0 <= i <= |s| && OccursAt(s, p, i)
  }

  /** `s.replace(p, "")`: scans left to right and drops each non-overlapping
      occurrence of `p`; text brought together by a removal is not scanned
      again. An empty `p` leaves `s` as it is. */
  function RemoveAll(s: string, p: string): (r: string)
    ensures |r| <= |s|
  {
    if p == [] || |s| < |p| then s
    else if s[..|p|] == p then RemoveAll(s[|p|..], p)
    else [s[0]] + RemoveAll(s[1..], p)
  }

  /** Without an occurrence of `p`, `replace` changes nothing. */
  lemma {:induction false} RemoveAllWithoutOccurrence(s: string, p: string)
    requires !Occurs(s, p)
    ensures RemoveAll(s, p) == s
  {
    if p != [] && |s| >= |p| {
      assert !OccursAt(s, p, 0);
      assert s[..|p|] == s[0..0 + |p|];
      assert !Occurs(s[1..], p) by {
        forall i | 0 <= i <= |s[1..]| ensures !OccursAt(s[1..], p, i) {
          assert !OccursAt(s, p, i + 1);
          if i + |p| <= |s[1..]| {
            assert s[1..][i..i + |p|] == s[i + 1..i + 1 + |p|];
          }
        }
      }
      RemoveAllWithoutOccurrence(s[1..], p);
    }
  }

  /** An echoed copy of `p` at the front of `s` is removed. */
  lemma RemoveAllEchoed(p: string, s: string)
    requires p != []
    ensures RemoveAll(p + s, p) == RemoveAll(s, p)
  {
    assert (p + s)[..|p|] == p;
    assert (p + s)[|p|..] == s;
  }

  /** No occurrence of `p` at the front: `replace` keeps the first character
      and goes on with the rest. */
  lemma RemoveAllKeepsHead(s: string, p: string)
    requires p != [] && |s| >= |p| && !OccursAt(s, p, 0)
    ensures RemoveAll(s, p) == [s[0]] + RemoveAll(s[1..], p)
  {
    assert s[..|p|] == s[0..0 + |p|];
  }

  /** Occurrences in `s` after the first character are occurrences in `s[1..]`,
      one position earlier. */
  lemma OccurrencesInTail(s: string, p: string, i: int)
    requires 0 < i && OccursAt(s, p, i)
    requires forall j :: 0 <= j < i ==> !OccursAt(s, p, j)
    ensures OccursAt(s[1..], p, i - 1)
    ensures forall j :: 0 <= j < i - 1 ==> !OccursAt(s[1..], p, j)
  {
    assert s[1..][i - 1..i - 1 + |p|] == s[i..i + |p|];
    forall j | 0 <= j < i - 1 ensures !OccursAt(s[1..], p, j) {
      assert !OccursAt(s, p, j + 1);
      if j + |p| <= |s| - 1 {
        assert s[1..][j..j + |p|] == s[j + 1..j + 1 + |p|];
      }
    }
  }

  /** `replace` removes the leftmost occurrence of `p` and goes on after it:
      the text before that occurrence is kept as it is. */
  lemma {:induction false} RemoveAllLeftmost(s: string, p: string, i: int)
    requires p != [] && OccursAt(s, p, i)
    requires forall j :: 0 <= j < i ==> !OccursAt(s, p, j)
    ensures RemoveAll(s, p) == s[..i] + RemoveAll(s[i + |p|..], p)
  {
    if i == 0 {
      assert s[..|p|] == s[0..0 + |p|];
      assert s[..0] + RemoveAll(s[|p|..], p) == RemoveAll(s[|p|..], p);
    } else {
      var t := s[1..];
      RemoveAllKeepsHead(s, p);
      OccurrencesInTail(s, p, i);
      RemoveAllLeftmost(t, p, i - 1);
      var rest := RemoveAll(s[i + |p|..], p);
      assert RemoveAll(t, p) == t[..i - 1] + rest by {
        assert t[i - 1 + |p|..] == s[i + |p|..];
      }
      HeadThenPrefix(s, i, rest);
    }
  }

  /** Putting the first character back in front of a prefix of the rest. */
  lemma HeadThenPrefix(s: string, i: int, rest: string)
    requires 0 < i <= |s|
    ensures [s[0]] + (s[1..][..i - 1] + rest) == s[..i] + rest
  {
    assert [s[0]] + s[1..][..i - 1] == s[..i];
  }

  // ---------------------------------------------------------------------------
  // str.strip()
  // ---------------------------------------------------------------------------

  /** Python's `str.isspace()` for one character: the ASCII tab, newline,
      vertical tab, form feed and carriage return, the four information
      separators 0x1C-0x1F, the space, NEL, NO-BREAK SPACE, and the Unicode
      space separators and line/paragraph separators. */
  predicate IsSpace(c: char)
  {
    var n := c as int;
    || (0x09 <= n <= 0x0D) || (0x1C <= n <= 0x20)
    || n == 0x85 || n == 0xA0 || n == 0x1680
    || (0x2000 <= n <= 0x200A) || n == 0x2028 || n == 0x2029
    || n == 0x202F || n == 0x205F || n == 0x3000
  }

  /** In the ASCII range the whitespace characters are exactly tab, newline,
      vertical tab, form feed, carriage return, the four information separators
      and the space; no character above U+3000 is whitespace. */
  lemma IsSpaceAscii(c: char)
    ensures c as int < 0x80 ==> (IsSpace(c) <==> c in "\t\n\U{0B}\U{0C}\r\U{1C}\U{1D}\U{1E}\U{1F} ")
    ensures IsSpace(c) ==> c as int <= 0x3000
  {
  }

  /** Drops the leading whitespace. */
  function StripLeading(s: string): (r: string)
    ensures |r| <= |s| && r == s[|s| - |r|..]
    ensures forall i :: 0 <= i < |s| - |r| ==> IsSpace(s[i])
    ensures r == [] || !IsSpace(r[0])
  {
    if s != [] && IsSpace(s[0]) then
      var r := StripLeading(s[1..]);
      assert forall i :: 1 <= i < |s| - |r| ==> s[i] == s[1..][i - 1];
      r
    else s
  }

  /** Drops the trailing whitespace. */
  function StripTrailing(s: string): (r: string)
    ensures |r| <= |s| && r == s[..|r|]
    ensures forall i :: |r| <= i < |s| ==> IsSpace(s[i])
    ensures r == [] || !IsSpace(r[|r| - 1])
  {
    if s != [] && IsSpace(s[|s| - 1]) then
      var r := StripTrailing(s[..|s| - 1]);
      assert forall i :: |r| <= i < |s| - 1 ==> s[i] == s[..|s| - 1][i];
      r
    else s
  }

  /** `s.strip()`: the part of `s` between its leading and its trailing
      whitespace. */
  function Strip(s: string): (r: string)
    ensures exists i, j :: 0 <= i <= j <= |s| && r == s[i..j]
                           && (forall k :: 0 <= k < i ==> IsSpace(s[k]))
                           && (forall k :: j <= k < |s| ==> IsSpace(s[k]))
    ensures r == [] || (!IsSpace(r[0]) && !IsSpace(r[|r| - 1]))
  {
    var t := StripLeading(s);
    var r := StripTrailing(t);
    TrimmedBothEnds(s, t, r);
    r
  }

  /** A suffix `t` of `s` after leading whitespace, and a prefix `r` of `t`
      before trailing whitespace, is an infix of `s` with only whitespace
      around it. */
  lemma TrimmedBothEnds(s: string, t: string, r: string)
    requires |t| <= |s| && t == s[|s| - |t|..]
    requires forall k :: 0 <= k < |s| - |t| ==> IsSpace(s[k])
    requires |r| <= |t| && r == t[..|r|]
    requires forall k :: |r| <= k < |t| ==> IsSpace(t[k])
    ensures exists i, j :: 0 <= i <= j <= |s| && r == s[i..j]
                           && (forall k :: 0 <= k < i ==> IsSpace(s[k]))
                           && (forall k :: j <= k < |s| ==> IsSpace(s[k]))
  {
    var i, j := |s| - |t|, |s| - |t| + |r|;
    assert r == s[i..j];
    forall k | j <= k < |s| ensures IsSpace(s[k]) {
      assert s[k] == t[k - i];
    }
  }

  /** Text without whitespace at either end is its own strip. */
  lemma StripOfTrimmed(s: string)
    requires s == [] || (!IsSpace(s[0]) && !IsSpace(s[|s| - 1]))
    ensures Strip(s) == s
  {
  }

  // ---------------------------------------------------------------------------
  // str.split("\n")[0]
  // ---------------------------------------------------------------------------

  /** `s.split("\n")[0]`: everything before the first newline, or all of `s`
      when it has none. */
  function FirstLine(s: string): (r: string)
    ensures '\n' !in r
    ensures |r| <= |s| && r == s[..|r|]
    ensures |r| < |s| ==> s[|r|] == '\n'
  {
    if s == [] || s[0] == '\n' then [] else [s[0]] + FirstLine(s[1..])
  }

  /** A string without a newline is its own first line. */
  lemma {:induction false} FirstLineOfSingleLine(s: string)
    ensures '\n' !in s ==> FirstLine(s) == s
  {
    if s != [] && '\n' !in s {
      assert s[0] in s;
      assert '\n' !in s[1..] by {
        assert forall c :: c in s[1..] ==> c in s;
      }
      FirstLineOfSingleLine(s[1..]);
    }
  }

  // ---------------------------------------------------------------------------
  // recommend_action
  // ---------------------------------------------------------------------------

  /** The post-processing chain applied to the generator's output. */
  function Extract(output: string, prompt: string): (r: string)
    ensures '\n' !in r
    ensures r == [] || !IsSpace(r[0])
    ensures |r| <= |Strip(RemoveAll(output, prompt))|
    ensures r == Strip(RemoveAll(output, prompt))[..|r|]
    ensures |r| < |Strip(RemoveAll(output, prompt))| ==> Strip(RemoveAll(output, prompt))[|r|] == '\n'
    ensures r == [] <==> Strip(RemoveAll(output, prompt)) == []
    ensures '\n' !in Strip(RemoveAll(output, prompt)) ==> r == Strip(RemoveAll(output, prompt))
  {
    var rest := Strip(RemoveAll(output, prompt));
    FirstLineOfSingleLine(rest);
    FirstLine(rest)
  }

  /** `recommend_action`: `generated` stands for the generator's output for the
      prompt. The risk flag is accepted and unused, as in main.py. */
  function RecommendAction(churnRisk: bool, emotion: string, userMessage: string, generated: string): (r: string)
    ensures '\n' !in r
    ensures r == [] || !IsSpace(r[0])
    ensures var rest := Strip(RemoveAll(generated, BuildPrompt(userMessage, emotion)));
            && |r| <= |rest| && r == rest[..|r|]
            && (|r| < |rest| ==> rest[|r|] == '\n')
            && (r == [] <==> rest == [])
  {
    Extract(generated, BuildPrompt(userMessage, emotion))
  }

  /** When the generator echoes the prompt and then continues with text that
      does not contain it, the recommendation is the continuation's first
      stripped line. */
  lemma RecommendFromEcho(churnRisk: bool, emotion: string, userMessage: string, continuation: string)
    requires !Occurs(continuation, BuildPrompt(userMessage, emotion))
    ensures RecommendAction(churnRisk, emotion, userMessage, BuildPrompt(userMessage, emotion) + continuation)
            == FirstLine(Strip(continuation))
  {
    var p := BuildPrompt(userMessage, emotion);
    PromptNonEmpty(userMessage, emotion);
    RemoveAllEchoed(p, continuation);
    RemoveAllWithoutOccurrence(continuation, p);
  }

  /** A generator that returns the prompt and nothing more yields the empty
      recommendation. */
  lemma RecommendFromBareEcho(churnRisk: bool, emotion: string, userMessage: string)
    ensures RecommendAction(churnRisk, emotion, userMessage, BuildPrompt(userMessage, emotion)) == ""
  {
    var p := BuildPrompt(userMessage, emotion);
    assert p + [] == p;
    RecommendFromEcho(churnRisk, emotion, userMessage, []);
  }
}

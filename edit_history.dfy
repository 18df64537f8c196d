/**
 * The prompt shown in the edit history (components/EditHistoryDB.tsx): the
 * stored instruction with the route's preamble and postamble taken off again.
 */
module EditHistory {
  import opened Common
  import opened EditPhotoRoute

  /**
   * As written: two `String.replace` calls with string patterns, each of which
   * removes the first occurrence only, wherever it is.
   */
  function StripAsWritten(stored: string): (r: string)
    ensures |stored| - |Preamble| - |Postamble| <= |r| <= |stored|
    ensures IndexOf(stored, Preamble).None? && IndexOf(stored, Postamble).None? ==> r == stored
  {
    RemoveFirst(RemoveFirst(stored, Preamble), Postamble)
  }

  /** A pattern at the front is the first occurrence, so removing it leaves the rest. */
  lemma RemoveFront(pattern: string, t: string)
    ensures RemoveFirst(pattern + t, pattern) == t
  {
    assert OccursAt(pattern + t, pattern, 0) by { assert (pattern + t)[..|pattern|] == pattern; }
    assert (pattern + t)[|pattern|..] == t;
  }

  /** A pattern that occurs only at the end is removed from the end. */
  lemma RemoveEnd(t: string, pattern: string)
    requires forall k :: 0 <= k < |t| ==> !OccursAt(t + pattern, pattern, k)
    ensures RemoveFirst(t + pattern, pattern) == t
  {
    assert OccursAt(t + pattern, pattern, |t|) by { assert (t + pattern)[|t|..] == pattern; }
    assert (t + pattern)[..|t|] == t;
  }

  /**
   * The round trip holds for the text as written as long as the postamble
   * occurs in the user's prompt followed by the postamble only at its end.
   */
  lemma StripAsWrittenRoundTrip(prompt: string)
    requires forall k :: 0 <= k < |prompt| ==> !OccursAt(prompt + Postamble, Postamble, k)
    ensures StripAsWritten(Compose(prompt)) == prompt
  {
    StripBoth(Preamble, prompt, Postamble);
  }

  /** Removing `pre` and then `post` from `pre + prompt + post` leaves `prompt` when `post` occurs there only at the end. */
  lemma StripBoth(pre: string, prompt: string, post: string)
    requires forall k :: 0 <= k < |prompt| ==> !OccursAt(prompt + post, post, k)
    ensures RemoveFirst(RemoveFirst(pre + prompt + post, pre), post) == prompt
  {
    assert pre + prompt + post == pre + (prompt + post);
    RemoveFront(pre, prompt + post);
    RemoveEnd(prompt, post);
  }

  /** Stripping the text as written from `pre + (post + tail) + post` leaves `tail + post`. */
  lemma StripLeadingPost(pre: string, post: string, tail: string)
    ensures RemoveFirst(RemoveFirst(pre + (post + tail) + post, pre), post) == tail + post
  {
    assert pre + (post + tail) + post == pre + (post + (tail + post));
    RemoveFront(pre, post + (tail + post));
    RemoveFront(post, tail + post);
  }

  /**
   * A prompt that itself begins with the postamble is shown wrongly: the first
   * occurrence removed is the user's own, and the appended one stays. For
   * instance the prompt `Postamble + "x"` is shown as `"x" + Postamble`.
   */
  lemma StripAsWrittenLosesPrompt(tail: string)
    requires |tail| > 0 && tail[|tail| - 1] != '.'
    ensures StripAsWritten(Compose(Postamble + tail)) == tail + Postamble
    ensures StripAsWritten(Compose(Postamble + tail)) != Postamble + tail
  {
    StripLeadingPost(Preamble, Postamble, tail);
    var p := Postamble;
    assert p[|p| - 1] == '.';
    assert (tail + p)[|tail| + |p| - 1] != (p + tail)[|tail| + |p| - 1];
  }

  /**
   * The intended display: when the stored text is a composed instruction, take
   * off exactly the leading preamble and the trailing postamble; any other
   * text is handled as before.
   */
  function StripComposed(stored: string): (r: string)
    ensures |r| <= |stored|
    ensures IsPrefix(Preamble, stored) && |Preamble| + |Postamble| <= |stored| && IsSuffix(Postamble, stored) ==>
      Compose(r) == stored
  {
    if IsPrefix(Preamble, stored) && |Preamble| + |Postamble| <= |stored| && IsSuffix(Postamble, stored) then
      SplitAround(Preamble, Postamble, stored);
      stored[|Preamble|..|stored| - |Postamble|]
    else
      StripAsWritten(stored)
  }

  /** A string that starts with `pre` and ends with `post`, without overlap, is `pre`, its middle and `post`. */
  lemma SplitAround(pre: string, post: string, s: string)
    requires IsPrefix(pre, s) && |pre| + |post| <= |s| && IsSuffix(post, s)
    ensures pre + s[|pre|..|s| - |post|] + post == s
  {
    assert s == s[..|pre|] + s[|pre|..|s| - |post|] + s[|s| - |post|..];
  }

  /** Every prompt is shown exactly as the user wrote it. */
  lemma StripComposedRoundTrip(prompt: string)
    ensures StripComposed(Compose(prompt)) == prompt
  {
  }

  /** The two agree on every prompt for which the text as written round-trips. */
  lemma StripComposedAgrees(prompt: string)
    requires forall k :: 0 <= k < |prompt| ==> !OccursAt(prompt + Postamble, Postamble, k)
    ensures StripComposed(Compose(prompt)) == StripAsWritten(Compose(prompt))
  {
    StripAsWrittenRoundTrip(prompt);
  }
}

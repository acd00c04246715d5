/** The helpers of Laravel's Illuminate\Support\Str that the checker calls,
    written after Laravel's own definitions: startsWith and endsWith over one
    needle or a list of needles (an empty needle never matches), and
    replaceFirst/replaceLast built on strpos/strrpos and substr_replace. */
module Str {
  import opened Php

  /** `prefix` is an initial segment of `s`. */
  predicate IsPrefix(prefix: string, s: string)
  {
    |prefix| <= |s| && s[..|prefix|] == prefix
  }

  /** Str::startsWith(haystack, needle). */
  predicate StartsWith(haystack: string, needle: string)
  {
    needle != "" && IsPrefix(needle, haystack)
  }

  /** Str::startsWith(haystack, needles) for an array of needles. */
  predicate StartsWithAny(haystack: string, needles: seq<string>)
  {
    exists k :: 0 <= k < |needles| && StartsWith(haystack, needles[k])
  }

  /** Str::endsWith(haystack, needle). */
  predicate EndsWith(haystack: string, needle: string)
  {
    needle != "" && |needle| <= |haystack| && haystack[|haystack| - |needle|..] == needle
  }

  /** Str::replaceFirst(search, replace, subject). */
  function ReplaceFirst(search: string, replace: string, subject: string): (r: string)
    ensures search == "" || FindFirst(subject, search).None? ==> r == subject
  {
    if search == "" then subject
    else
      match FindFirst(subject, search)
      case None => subject
      case Some(pos) => SubstrReplace(subject, replace, pos, |search|)
  }

  /** Str::replaceLast(search, replace, subject). */
  function ReplaceLast(search: string, replace: string, subject: string): (r: string)
    ensures FindLast(subject, search).None? ==> r == subject
  {
    match FindLast(subject, search)
    case None => subject
    case Some(pos) => SubstrReplace(subject, replace, pos, |search|)
  }

  /** Removing a base path the subject starts with leaves the rest of the
      subject: the first occurrence is the prefix itself. */
  lemma ReplaceFirstPrefix(basePath: string, subject: string)
    requires basePath != "" && IsPrefix(basePath, subject)
    ensures ReplaceFirst(basePath, "", subject) == subject[|basePath|..]
  {
    assert FindFirst(subject, basePath) == Some(0);
  }

  /** Removing a suffix the subject ends with leaves the rest of the
      subject: the last occurrence is the suffix itself. */
  lemma ReplaceLastSuffix(suffix: string, subject: string)
    requires EndsWith(subject, suffix)
    ensures ReplaceLast(suffix, "", subject) == subject[..|subject| - |suffix|]
  {
    assert OccursAt(subject, suffix, |subject| - |suffix|);
  }
}

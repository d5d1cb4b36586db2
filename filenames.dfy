/**
 * Output file names: the final extension is stripped with the pattern
 * `\.[^/.]+$` (a dot, then one or more characters that are neither `/` nor
 * `.`, up to the end of the name) and `_<template>.jpg` is appended.
 */
module FileNames {
  import opened Wrappers

  /** The strings the extension pattern matches when anchored at the end of a name. */
  predicate IsExtensionSuffix(s: string)
  {
    |s| >= 2 && s[0] == '.' && forall i :: 1 <= i < |s| ==> s[i] != '.' && s[i] != '/'
  }

  /** The position of the last dot in `s`, if there is one. */
  function LastDot(s: string): (k: Option<nat>)
    ensures k.Some? ==> k.value < |s| && s[k.value] == '.' && forall i :: k.value < i < |s| ==> s[i] != '.'
    ensures k.None? ==> forall i :: 0 <= i < |s| ==> s[i] != '.'
  {
    if |s| == 0 then None
    else if s[|s| - 1] == '.' then Some(|s| - 1)
    else LastDot(s[..|s| - 1])
  }

  /**
   * `name.replace(/\.[^/.]+$/, '')`: the name without its final extension.
   * A match must start at the last dot, so at most one suffix is removed.
   */
  function StripExtension(name: string): (base: string)
    ensures base <= name
  {
    match LastDot(name)
    case None => name
    case Some(k) =>
      if k + 1 < |name| && '/' !in name[k + 1..] then name[..k] else name
  }

  /**
   * What stripping removes is a suffix the pattern matches, and the name is
   * kept exactly when no suffix of it matches.
   */
  lemma StripExtensionMatchesPattern(name: string)
    ensures var base := StripExtension(name);
      && (base != name ==> IsExtensionSuffix(name[|base|..]))
      && (base == name <==> forall k :: 0 <= k < |name| ==> !IsExtensionSuffix(name[k..]))
  {
  }

  /** At most one suffix of a name matches the extension pattern. */
  lemma ExtensionSuffixUnique(name: string, j: nat, k: nat)
    requires j < |name| && k < |name|
    requires IsExtensionSuffix(name[j..]) && IsExtensionSuffix(name[k..])
    ensures j == k
  {
  }

  /** Stripping removes exactly the suffix the pattern matches, and nothing else. */
  lemma StripRemovesMatch(name: string, j: nat)
    requires j < |name| && IsExtensionSuffix(name[j..])
    ensures StripExtension(name) == name[..j]
  {
    var base := StripExtension(name);
    StripExtensionMatchesPattern(name);
    assert base != name;
    ExtensionSuffixUnique(name, j, |base|);
  }

  /** The name a framed image is saved under: the base name, the template id and `.jpg`. */
  function OutputFileName(name: string, templateId: string): (out: string)
    ensures StripExtension(name) <= out
    ensures |out| >= 5 && out[|out| - 4..] == ".jpg"
  {
    StripExtension(name) + "_" + templateId + ".jpg"
  }

  /**
   * The saved name keeps the base name and template id: stripping its
   * extension removes exactly the `.jpg` that was appended.
   */
  lemma OutputFileNameRoundTrip(name: string, templateId: string)
    ensures StripExtension(OutputFileName(name, templateId)) == StripExtension(name) + "_" + templateId
    ensures |OutputFileName(name, templateId)| == |StripExtension(name)| + |templateId| + 5
  {
    var out := OutputFileName(name, templateId);
    var stem := StripExtension(name) + "_" + templateId;
    assert out == stem + ".jpg";
    assert out[|stem|..] == ".jpg";
    StripRemovesMatch(out, |stem|);
  }

  /** Only the last of several extensions is removed. */
  lemma StripExample()
    ensures StripExtension("P1150666.jpg") == "P1150666"
    ensures StripExtension("holiday.tar.gz") == "holiday.tar"
    ensures StripExtension(".profile") == ""
  {
    StripRemovesMatch("P1150666.jpg", 8);
    StripRemovesMatch("holiday.tar.gz", 11);
    StripRemovesMatch(".profile", 0);
  }

  /** A name without a dot, with a trailing dot or with a slash after its last dot is kept. */
  lemma KeepExample()
    ensures StripExtension("scan") == "scan"
    ensures StripExtension("scan.") == "scan."
    ensures StripExtension("v1.2/scan") == "v1.2/scan"
  {
  }

  /** Two sources that differ only in their extension are saved under the same name. */
  lemma ExtensionOnlyNamesCollide(templateId: string)
    ensures OutputFileName("a.png", templateId) == OutputFileName("a.jpeg", templateId)
  {
    StripRemovesMatch("a.png", 1);
    StripRemovesMatch("a.jpeg", 1);
  }
}

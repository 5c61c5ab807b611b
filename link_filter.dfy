/**
 * The link filter of the crawler: which captured hrefs of a page are kept.
 *
 * The anchor pattern that finds the hrefs is not modelled; a page is given
 * by the sequence of strings the pattern captures, in the order they are
 * found.
 */
module LinkFilter {

  /** The extensions listed in the exclusion pattern, in the pattern's order. */
  const Exclusions: seq<string> :=
    ["jpg", "jpeg", "png", "gif", "pdf", "mp4", "zip", "tar", "exe", "docx", "download", "upload"]

  /** The characters that `.` in a regular expression does not match by default. */
  predicate IsLineTerminator(c: char) {
    c == '\n' || c == '\r' || c == '\U{0085}' || c == '\U{2028}' || c == '\U{2029}'
  }

  predicate NoLineTerminator(s: string) {
    forall i :: 0 <= i < |s| ==> !IsLineTerminator(s[i])
  }

  /**
   * Whether the whole link matches `.*\.(jpg|...|upload)$`: some text matched
   * by `.*` (so free of line terminators), a dot, then exactly one listed
   * extension up to the end. Letter case matters.
   */
  predicate HasExcludedExtension(link: string) {
    exists i :: 0 <= i < |link| && link[i] == '.' && NoLineTerminator(link[..i]) && link[i + 1..] in Exclusions
  }

  /** Whether `t` occurs in `s` at some position, as a string's `contains` decides. */
  predicate Contains(s: string, t: string) {
    exists i :: 0 <= i <= |s| && t <= s[i..]
  }

  /** The filter applied to each capture: not excluded, and in the domain's scope. */
  predicate Kept(domain: string, link: string) {
    !HasExcludedExtension(link) && Contains(link, domain)
  }

  /** The set a page's captures contribute to the crawl, built capture by capture. */
  function KeptLinks(domain: string, captures: seq<string>): set<string> {
    if captures == [] then {}
    else
      var last := captures[|captures| - 1];
      KeptLinks(domain, captures[..|captures| - 1]) + (if Kept(domain, last) then {last} else {})
  }

  /**
   * The filtering loop: every capture, in order, is tested and, when it
   * passes, inserted into the result set.
   */
  method ExtractLinks(domain: string, captures: seq<string>) returns (links: set<string>)
    ensures forall l :: l in links <==> l in captures && !HasExcludedExtension(l) && Contains(l, domain)
    ensures links == KeptLinks(domain, captures)
  {
    links := {};
    var i := 0;
    while i < |captures|
      invariant 0 <= i <= |captures|
      invariant links == KeptLinks(domain, captures[..i])
    {
      var link := captures[i];
      assert captures[..i + 1][..i] == captures[..i];
      if HasExcludedExtension(link) {
        i := i + 1;
        continue;
      }
      if Contains(link, domain) {
        links := links + {link};
      }
      i := i + 1;
    }
    assert captures[..i] == captures;
    forall l ensures l in links <==> l in captures && !HasExcludedExtension(l) && Contains(l, domain) {
      KeptLinksMembership(domain, captures, l);
    }
  }

  // ---------------------------------------------------------------------
  // Reference definitions of the two filters and the lemmas tying them to
  // the pattern-shaped definitions above.
  // ---------------------------------------------------------------------

  /** The position of the last dot in `s`, or -1 when there is none. */
  function LastDot(s: string): (r: int)
    ensures -1 <= r < |s|
    ensures r >= 0 ==> s[r] == '.'
    ensures forall j :: r < j < |s| ==> s[j] != '.'
  {
    if |s| == 0 then -1
    else if s[|s| - 1] == '.' then |s| - 1
    else LastDot(s[..|s| - 1])
  }

  /** The extension of a link: what follows its last dot. */
  predicate ExtensionExcluded(link: string) {
    var d := LastDot(link);
    d >= 0 && link[d + 1..] in Exclusions && NoLineTerminator(link)
  }

  predicate EndsWith(s: string, suffix: string) {
    |suffix| <= |s| && s[|s| - |suffix|..] == suffix
  }

  lemma ExclusionsHaveNoDotNorTerminator(e: string)
    requires e in Exclusions
    ensures forall j :: 0 <= j < |e| ==> e[j] != '.' && !IsLineTerminator(e[j])
  {
  }

  /**
   * A link is excluded exactly when it is free of line terminators and the
   * text after its last dot is one of the listed extensions.
   */
  lemma ExcludedIffLastExtension(link: string)
    ensures HasExcludedExtension(link) <==> ExtensionExcluded(link)
  {
    if HasExcludedExtension(link) {
      var i :| 0 <= i < |link| && link[i] == '.' && NoLineTerminator(link[..i]) && link[i + 1..] in Exclusions;
      ExcludedAtLastDot(link, i);
    }
    if ExtensionExcluded(link) {
      LastExtensionExcluded(link);
    }
  }

  lemma ExcludedAtLastDot(link: string, i: int)
    requires 0 <= i < |link| && link[i] == '.' && NoLineTerminator(link[..i]) && link[i + 1..] in Exclusions
    ensures ExtensionExcluded(link)
  {
    var e := link[i + 1..];
    ExclusionsHaveNoDotNorTerminator(e);
    assert forall j :: i < j < |link| ==> link[j] == e[j - i - 1];
    assert LastDot(link) == i;
    forall j | 0 <= j < |link| ensures !IsLineTerminator(link[j]) {
      if j < i {
        assert link[j] == link[..i][j];
      }
    }
  }

  lemma LastExtensionExcluded(link: string)
    requires ExtensionExcluded(link)
    ensures HasExcludedExtension(link)
  {
    var d := LastDot(link);
    assert forall j :: 0 <= j < d ==> link[..d][j] == link[j];
    assert NoLineTerminator(link[..d]);
  }

  /**
   * A link is excluded exactly when it is free of line terminators and ends
   * with a dot followed by one of the listed extensions.
   */
  lemma ExcludedIffEndsWithExtension(link: string)
    ensures HasExcludedExtension(link) <==>
      NoLineTerminator(link) && exists e :: e in Exclusions && EndsWith(link, "." + e)
  {
    if HasExcludedExtension(link) {
      var i :| 0 <= i < |link| && link[i] == '.' && NoLineTerminator(link[..i]) && link[i + 1..] in Exclusions;
      ExcludedEndsWith(link, i);
    }
    if NoLineTerminator(link) && exists e :: e in Exclusions && EndsWith(link, "." + e) {
      var e :| e in Exclusions && EndsWith(link, "." + e);
      EndsWithExcluded(link, e);
    }
  }

  lemma ExcludedEndsWith(link: string, i: int)
    requires 0 <= i < |link| && link[i] == '.' && NoLineTerminator(link[..i]) && link[i + 1..] in Exclusions
    ensures NoLineTerminator(link) && EndsWith(link, "." + link[i + 1..])
  {
    var e := link[i + 1..];
    ExclusionsHaveNoDotNorTerminator(e);
    forall j | 0 <= j < |link| ensures !IsLineTerminator(link[j]) {
      if j < i {
        assert link[j] == link[..i][j];
      } else if j > i {
        assert link[j] == e[j - i - 1];
      }
    }
    assert link[i..] == "." + e;
  }

  lemma EndsWithExcluded(link: string, e: string)
    requires NoLineTerminator(link) && e in Exclusions && EndsWith(link, "." + e)
    ensures HasExcludedExtension(link)
  {
    var i := |link| - |e| - 1;
    assert link[i..] == "." + e;
    assert link[i] == ("." + e)[0] == '.';
    assert link[i + 1..] == e;
    assert forall j :: 0 <= j < i ==> link[..i][j] == link[j];
    assert NoLineTerminator(link[..i]);
  }

  /** The index of the first occurrence of `t` in `s` at or after `from`, or -1. */
  function IndexOf(s: string, t: string, from: nat): (r: int)
    requires from <= |s|
    ensures -1 <= r <= |s|
    ensures r >= 0 ==> from <= r && t <= s[r..]
    ensures r >= 0 ==> forall j :: from <= j < r ==> !(t <= s[j..])
    ensures r == -1 ==> forall j :: from <= j <= |s| ==> !(t <= s[j..])
    decreases |s| - from
  {
    if t <= s[from..] then from
    else if from == |s| then -1
    else IndexOf(s, t, from + 1)
  }

  /** `contains` is `indexOf(...) >= 0`. */
  lemma ContainsIffIndexOf(s: string, t: string)
    ensures Contains(s, t) <==> IndexOf(s, t, 0) >= 0
  {
    var r := IndexOf(s, t, 0);
    if r >= 0 {
      assert t <= s[r..];
    }
  }

  /** Repeated captures collapse: capturing a link a second time adds nothing. */
  lemma KeptLinksIgnoresRepeats(domain: string, captures: seq<string>, link: string)
    requires link in captures
    ensures KeptLinks(domain, captures + [link]) == KeptLinks(domain, captures)
  {
    assert (captures + [link])[..|captures|] == captures;
    KeptLinksMembership(domain, captures, link);
  }

  /** Every kept link is a capture that passed both filters, and conversely. */
  lemma {:induction false} KeptLinksMembership(domain: string, captures: seq<string>, link: string)
    ensures link in KeptLinks(domain, captures) <==>
      link in captures && !HasExcludedExtension(link) && Contains(link, domain)
  {
    if captures != [] {
      var init := captures[..|captures| - 1];
      KeptLinksMembership(domain, init, link);
      assert captures == init + [captures[|captures| - 1]];
    }
  }
}

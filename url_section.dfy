/** The check applied to GM names and game URLs (Engine.verifyUrlSection with
    Engine.url_regex), and the name blacklist beside it (Engine.gm_blacklist). */
module UrlSection {

  /** GM names and game URLs that are never handed out. */
  const GmBlacklist: seq<string> := ["", "static", "asset", "vtt", "game"]

  /** A character of the class `[A-Za-z0-9_\-.]`. */
  predicate IsSectionChar(c: char) {
    ('A' <= c <= 'Z') || ('a' <= c <= 'z') || ('0' <= c <= '9') || c == '_' || c == '-' || c == '.'
  }

  predicate AllSectionChars(w: string) {
    forall k :: 0 <= k < |w| ==> IsSectionChar(w[k])
  }

  /** Where Python's `$` matches in s (no MULTILINE flag): at the very end,
      or just before a newline that ends the string. */
  predicate EndAnchorAt(s: string, k: nat) {
    k == |s| || (k + 1 == |s| && s[k] == '\n')
  }

  /** `re.match('^[A-Za-z0-9_\-.]+$', s)` finds a match: some run of one or
      more class characters from the start is followed by a place where `$` matches. */
  ghost predicate RegexMatches(s: string) {
    exists k: nat :: 1 <= k <= |s| && AllSectionChars(s[..k]) && EndAnchorAt(s, k)
  }

  /** Length of the longest run of class characters at the start of s. */
  function SectionRun(s: string): (n: nat)
    ensures n <= |s|
    ensures forall k :: 0 <= k < n ==> IsSectionChar(s[k])
    ensures n < |s| ==> !IsSectionChar(s[n])
  {
    if s == [] || !IsSectionChar(s[0]) then 0 else 1 + SectionRun(s[1..])
  }

  /** The greedy `+` followed by `$`. An accepted string is never empty and
      begins with a class character, and every non-empty run of class
      characters is accepted. */
  function VerifyUrlSection(s: string): (ok: bool)
    ensures ok ==> |s| >= 1 && IsSectionChar(s[0])
    ensures |s| >= 1 && AllSectionChars(s) ==> ok
  {
    var n := SectionRun(s);
    n >= 1 && EndAnchorAt(s, n)
  }

  /** Backtracking cannot help the regex: it matches exactly when the greedy run does. */
  lemma VerifyUrlSectionIsRegex(s: string)
    ensures VerifyUrlSection(s) <==> RegexMatches(s)
  {
  }

  /** The accepted strings are the non-empty runs of class characters, each
      also accepted with one trailing newline. */
  lemma VerifyUrlSectionAccepts(s: string)
    ensures VerifyUrlSection(s) <==>
      exists w :: |w| > 0 && AllSectionChars(w) && (s == w || s == w + "\n")
  {
    var n := SectionRun(s);
    if VerifyUrlSection(s) {
      var w := s[..n];
      assert AllSectionChars(w);
      assert s == w || s == w + "\n";
    }
    if exists w :: |w| > 0 && AllSectionChars(w) && (s == w || s == w + "\n") {
      var w :| |w| > 0 && AllSectionChars(w) && (s == w || s == w + "\n");
      assert s[..|w|] == w;
    }
  }

  /** The empty name fails the pattern; every other blacklisted word passes
      it, so only the blacklist keeps those words out. */
  lemma BlacklistBesideRegex()
    ensures !VerifyUrlSection(GmBlacklist[0])
    ensures forall i :: 1 <= i < |GmBlacklist| ==> VerifyUrlSection(GmBlacklist[i])
  {
  }

  /** As written, the pattern lets a name through with a newline at its end. */
  lemma TrailingNewlineAccepted()
    ensures VerifyUrlSection("game\n")
    ensures !IsSectionChar('\n')
  {
  }

  /** The pattern as evidently meant (`re.fullmatch`, or `\Z` in place of `$`):
      the whole string is a non-empty run of class characters. */
  predicate VerifyUrlSectionStrict(s: string) {
    SectionRun(s) == |s| && |s| >= 1
  }

  /** The strict pattern accepts exactly the non-empty runs of class
      characters, and differs from the written one only on a final newline. */
  lemma VerifyUrlSectionStrictAccepts(s: string)
    ensures VerifyUrlSectionStrict(s) <==> |s| > 0 && AllSectionChars(s)
    ensures VerifyUrlSectionStrict(s) ==> VerifyUrlSection(s)
    ensures VerifyUrlSection(s) && !VerifyUrlSectionStrict(s) ==> |s| > 1 && s[|s| - 1] == '\n'
  {
  }
}

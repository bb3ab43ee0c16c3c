/**
 * Target normalisation (`WebReconX._clean_target`): the raw target text is
 * trimmed with Python's `str.strip()`, given the default secure scheme
 * unless it already names `http://` or `https://`, and stripped of every
 * trailing `/` with `str.rstrip("/")`.
 */
module TargetNormalizer {

  /** The prefix added to a target that names no scheme. */
  const DefaultScheme: string := "https://"

  /**
   * The characters Python's `str.isspace()` accepts, which are the ones
   * `str.strip()` with no argument removes.
   */
  predicate IsSpace(c: char)
  {
    if c <= ' ' then c == ' ' || ('\t' <= c <= '\r') || ('\U{1C}' <= c <= '\U{1F}')
    else if c < '\U{85}' then false
    else
      c == '\U{85}' || c == '\U{A0}' || c == '\U{1680}'
      || ('\U{2000}' <= c <= '\U{200A}') || c == '\U{2028}' || c == '\U{2029}'
      || c == '\U{202F}' || c == '\U{205F}' || c == '\U{3000}'
  }

  /** The length of the run of whitespace that `str.strip()` removes on the left. */
  function LeadingSpaces(s: string): (n: nat)
    ensures n <= |s|
    ensures forall i :: 0 <= i < n ==> IsSpace(s[i])
    ensures n < |s| ==> !IsSpace(s[n])
  {
    if s != [] && IsSpace(s[0]) then 1 + LeadingSpaces(s[1..]) else 0
  }

  /** The length of the run of whitespace that `str.strip()` removes on the right. */
  function TrailingSpaces(s: string): (n: nat)
    ensures n <= |s|
    ensures forall i :: |s| - n <= i < |s| ==> IsSpace(s[i])
    ensures n < |s| ==> !IsSpace(s[|s| - 1 - n])
  {
    if s != [] && IsSpace(s[|s| - 1]) then 1 + TrailingSpaces(s[..|s| - 1]) else 0
  }

  /**
   * `str.strip()`: the result is the slice of the input that starts after
   * its leading whitespace; only whitespace lies outside it, and neither of
   * its ends is whitespace.
   */
  function Strip(s: string): (r: string)
    ensures var lo := LeadingSpaces(s);
            lo + |r| <= |s| && r == s[lo..lo + |r|]
            && forall i :: lo + |r| <= i < |s| ==> IsSpace(s[i])
    ensures r != [] ==> !IsSpace(r[0]) && !IsSpace(r[|r| - 1])
  {
    var lo := LeadingSpaces(s);
    if lo == |s| then [] else s[lo..|s| - TrailingSpaces(s)]
  }

  /** `str.rstrip("/")`: drop every trailing slash, keep the rest. */
  function RStripSlash(s: string): (r: string)
    ensures r <= s
    ensures forall i :: |r| <= i < |s| ==> s[i] == '/'
    ensures r == [] || r[|r| - 1] != '/'
  {
    if s != [] && s[|s| - 1] == '/' then RStripSlash(s[..|s| - 1]) else s
  }

  /** `target.startswith(("http://", "https://"))`, case-sensitive. */
  predicate HasScheme(s: string)
  {
    "http://" <= s || "https://" <= s
  }

  /** The scheme-qualified text before trailing slashes are removed. */
  function Qualified(t: string): string
  {
    if HasScheme(t) then t else DefaultScheme + t
  }

  /**
   * `_clean_target`. The result always starts with `http:` or `https:`
   * and never ends in `/`. It need not contain `://` (the empty target
   * gives `https:`).
   */
  function CleanTarget(raw: string): (r: string)
    ensures "http:" <= r || "https:" <= r
    ensures r[|r| - 1] != '/'
  {
    var u := Qualified(Strip(raw));
    QualifiedHasScheme(Strip(raw));
    SchemeSurvivesSlashStrip(u);
    RStripSlash(u)
  }

  /**
   * The normalised target is the trimmed input, with `https://` in front
   * unless it names a scheme, up to a run of trailing slashes.
   */
  lemma CleanTargetIsQualifiedUpToSlashes(raw: string)
    ensures var u := Qualified(Strip(raw));
            var r := CleanTarget(raw);
            r <= u && forall i :: |r| <= i < |u| ==> u[i] == '/'
  {
  }

  /** The normalised target never starts with whitespace: trimming comes first and the scheme follows. */
  lemma NoLeadingSpace(raw: string)
    ensures !IsSpace(CleanTarget(raw)[0])
  {
    var r := CleanTarget(raw);
    assert r[0] == 'h' by {
      assert r[..5] == "http:" || r[..6] == "https:";
    }
  }

  lemma QualifiedHasScheme(t: string)
    ensures HasScheme(Qualified(t))
  {
    if !HasScheme(t) {
      assert (DefaultScheme + t)[..|DefaultScheme|] == DefaultScheme;
    }
  }

  /** Stripping trailing slashes stops at the scheme's colon at the latest. */
  lemma SchemeSurvivesSlashStrip(u: string)
    requires HasScheme(u)
    ensures "http:" <= RStripSlash(u) || "https:" <= RStripSlash(u)
  {
    if "http://" <= u {
      assert u[4] == ':';
      SlashStripKeeps(u, 4);
      assert u[..5] == "http:";
    } else {
      assert u[5] == ':';
      SlashStripKeeps(u, 5);
      assert u[..6] == "https:";
    }
  }

  /** Removing trailing slashes never reaches a position that holds a non-slash. */
  lemma SlashStripKeeps(u: string, k: nat)
    requires k < |u| && u[k] != '/'
    ensures k < |RStripSlash(u)| && RStripSlash(u)[..k + 1] == u[..k + 1]
  {
  }

  /** Text that does not start with `h` names no scheme. */
  lemma NoSchemeWithoutH(t: string)
    requires t == [] || t[0] != 'h'
    ensures !HasScheme(t)
  {
    assert "http://"[0] == 'h' && "https://"[0] == 'h';
  }

  /** `str.strip()` leaves text alone whose ends are not whitespace. */
  lemma StripKeepsTrimmed(t: string)
    requires t != [] && !IsSpace(t[0]) && !IsSpace(t[|t| - 1])
    ensures Strip(t) == t
  {
    assert LeadingSpaces(t) == 0;
    assert TrailingSpaces(t) == 0;
  }

  /** A single trailing slash after a non-slash is the only thing removed. */
  lemma OneSlashRemoved(u: string)
    requires |u| >= 2 && u[|u| - 1] == '/' && u[|u| - 2] != '/'
    ensures RStripSlash(u) == u[..|u| - 1]
  {
    SlashStripKeeps(u, |u| - 2);
  }

  /**
   * A trimmed target that already names a scheme and has no trailing slash
   * comes back unchanged: no prefix is added.
   */
  lemma SchemeIsKept(raw: string)
    requires HasScheme(Strip(raw))
    requires Strip(raw)[|Strip(raw)| - 1] != '/'
    ensures CleanTarget(raw) == Strip(raw)
  {
  }

  /**
   * A trimmed target that names no scheme gets exactly the default prefix,
   * and otherwise only its trailing slashes are removed.
   */
  lemma {:induction false} SchemeIsAdded(raw: string)
    requires !HasScheme(Strip(raw))
    ensures DefaultScheme <= CleanTarget(raw) || CleanTarget(raw) == "https:"
    ensures Strip(raw) != [] && Strip(raw)[|Strip(raw)| - 1] != '/' ==>
              CleanTarget(raw) == DefaultScheme + Strip(raw)
  {
  }

  /**
   * A trimmed target that names no scheme (it does not start with `h`) and
   * has no trailing slash gets exactly the default prefix.
   */
  lemma HostGetsDefault(raw: string, h: string)
    requires Strip(raw) == h
    requires h != [] && h[0] != 'h' && h[|h| - 1] != '/'
    ensures CleanTarget(raw) == DefaultScheme + h
  {
    NoSchemeWithoutH(h);
    SchemeIsAdded(raw);
  }

  /**
   * A target that names a scheme and ends in whitespace is not a fixed
   * point: the whitespace goes on the next pass.
   */
  lemma TrailingSpaceIsTrimmed(c: string)
    requires HasScheme(c) && IsSpace(c[|c| - 1])
    ensures CleanTarget(c) != c
  {
    var k := if "http://" <= c then 7 else 8;
    assert c[0] == 'h' && c[k - 1] == '/' && c[..k] <= c;
    assert LeadingSpaces(c) == 0;
    var s := Strip(c);
    assert |s| < |c| && s == c[..|s|];
    assert k <= |s| && s[..k] == c[..k];
    assert HasScheme(s);
    assert |CleanTarget(c)| <= |s|;
  }

  /**
   * A text that already has a scheme, no surrounding whitespace and no
   * trailing slash is a fixed point of normalisation.
   */
  lemma CleanIsFixedPoint(u: string)
    requires HasScheme(u)
    requires !IsSpace(u[|u| - 1]) && u[|u| - 1] != '/'
    ensures CleanTarget(u) == u
  {
  }

  /**
   * Normalising twice is normalising once, provided the first result names
   * a scheme and does not end in whitespace; both side conditions are
   * needed, see `EmptyTargetIsNotStable` and `TrailingSpaceIsNotStable`.
   */
  lemma CleanTwice(raw: string)
    requires HasScheme(CleanTarget(raw))
    requires !IsSpace(CleanTarget(raw)[|CleanTarget(raw)| - 1])
    ensures CleanTarget(CleanTarget(raw)) == CleanTarget(raw)
  {
    CleanIsFixedPoint(CleanTarget(raw));
  }
}

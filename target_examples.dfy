/**
 * Worked inputs of `_clean_target`, including the degenerate ones. Each
 * lemma takes its input as a parameter fixed by its precondition; the
 * character-level facts about the literal are proved on their own first.
 */
module TargetExamples {
  import opened TargetNormalizer

  lemma ExampleHostFacts(h: string)
    requires h == "example.com"
    ensures h != [] && h[0] != 'h' && h[|h| - 1] != '/'
    ensures !IsSpace(h[0]) && !IsSpace(h[|h| - 1])
    ensures DefaultScheme + h == "https://example.com"
  {
  }

  /** A bare host name gets the default scheme. */
  lemma BareHostExample(t: string)
    requires t == "example.com"
    ensures CleanTarget(t) == "https://example.com"
  {
    ExampleHostFacts(t);
    StripKeepsTrimmed(t);
    HostGetsDefault(t, t);
  }

  lemma HttpSlashFacts(t: string)
    requires t == "http://example.com/"
    ensures "http://" <= t
    ensures !IsSpace(t[0]) && !IsSpace(t[|t| - 1])
    ensures |t| >= 2 && t[|t| - 1] == '/' && t[|t| - 2] != '/'
    ensures t[..|t| - 1] == "http://example.com"
  {
  }

  /** An `http://` target keeps its scheme and loses its trailing slash. */
  lemma HttpSlashExample(t: string)
    requires t == "http://example.com/"
    ensures CleanTarget(t) == "http://example.com"
  {
    HttpSlashFacts(t);
    StripKeepsTrimmed(t);
    OneSlashRemoved(t);
  }

  /** Surrounding whitespace is trimmed before the scheme is added. */
  lemma PaddedHostExample(t: string)
    requires t == "  example.com  "
    ensures CleanTarget(t) == "https://example.com"
  {
    var h := t[2..|t| - 2];
    PaddedHostFacts(t);
    ExampleHostFacts(h);
    PaddedHostLeading(t);
    PaddedHostTrailing(t);
    HostGetsDefault(t, h);
  }

  lemma PaddedHostFacts(t: string)
    requires t == "  example.com  "
    ensures |t| == 15 && t[2..|t| - 2] == "example.com"
  {
  }

  lemma PaddedHostLeading(t: string)
    requires t == "  example.com  "
    ensures LeadingSpaces(t) == 2
  {
    assert t[1..] == " example.com  " && t[2..] == "example.com  ";
    assert LeadingSpaces(t[2..]) == 0;
  }

  lemma PaddedHostTrailing(t: string)
    requires t == "  example.com  "
    ensures TrailingSpaces(t) == 2
  {
    assert t[..|t| - 1] == "  example.com " && t[..|t| - 2] == "  example.com";
    assert TrailingSpaces(t[..|t| - 2]) == 0;
  }

  lemma UpperCaseFacts(t: string)
    requires t == "HTTP://example.com"
    ensures t != [] && t[0] != 'h' && t[|t| - 1] != '/'
    ensures !IsSpace(t[0]) && !IsSpace(t[|t| - 1])
    ensures DefaultScheme + t == "https://HTTP://example.com"
  {
  }

  /** The scheme test is case-sensitive: `HTTP://` is not recognised. */
  lemma UpperCaseSchemeExample(t: string)
    requires t == "HTTP://example.com"
    ensures CleanTarget(t) == "https://HTTP://example.com"
  {
    UpperCaseFacts(t);
    StripKeepsTrimmed(t);
    HostGetsDefault(t, t);
  }

  /**
   * The empty target normalises to `https:`, which has no `://`, and
   * normalising that again gives something else.
   */
  lemma EmptyTargetIsNotStable(t: string)
    requires t == ""
    ensures CleanTarget(t) == "https:"
    ensures CleanTarget(CleanTarget(t)) != CleanTarget(t)
  {
    assert Strip(t) == "";
    NoSchemeWithoutH(t);
    var u := DefaultScheme;
    assert RStripSlash(u) == "https:" by {
      SlashStripKeeps(u, 5);
      assert u[..6] == "https:";
    }
    var c := "https:";
    StripKeepsTrimmed(c);
    assert !HasScheme(c);
    assert |CleanTarget(c)| == |DefaultScheme + c|;
  }

  lemma TrailingSpaceFacts(t: string)
    requires t == "example.com /"
    ensures t != [] && t[0] != 'h' && !IsSpace(t[0]) && !IsSpace(t[|t| - 1])
    ensures var u := DefaultScheme + t;
            |u| >= 2 && u[|u| - 1] == '/' && u[|u| - 2] != '/'
            && u[..|u| - 1] == "https://example.com "
  {
  }

  /** A space before the final slash survives normalisation, so a second pass changes the text. */
  lemma TrailingSpaceIsNotStable(t: string)
    requires t == "example.com /"
    ensures CleanTarget(t) == "https://example.com "
    ensures CleanTarget(CleanTarget(t)) != CleanTarget(t)
  {
    TrailingSpaceFacts(t);
    StripKeepsTrimmed(t);
    NoSchemeWithoutH(t);
    var u := DefaultScheme + t;
    OneSlashRemoved(u);
    var c := u[..|u| - 1];
    assert HasScheme(c) && IsSpace(c[|c| - 1]) by {
      assert c[..8] == "https://";
    }
    TrailingSpaceIsTrimmed(c);
  }
}

/**
 * The site's Content-Security-Policy header value. The policy is written in
 * the configuration as a multi-line template, one directive per line, and
 * the header value is that template with every line feed deleted
 * (`replace(/\n/g, '')`); the indentation and all other characters stay.
 */
module ContentSecurityPolicy {

  /**
   * The lines of the policy template, in order, each with its two-space
   * indentation. A long line is written as one literal per source it
   * lists, joined with `+`; the longer hosts are named constants.
   */
  const GoogleAnalytics: string := " https://www.google-analytics.com"
  const GoogleTagManager: string := " https://www.googletagmanager.com"
  const DisqusSite: string := " https://dandoescode.disqus.com"
  const LaunchpadWrapper: string := " https://launchpad-wrapper.privacymanager.io"
  const Launchpad: string := " https://launchpad.privacymanager.io"

  const DefaultSrc: string := "  default-src 'self';"
  const ScriptSrc: string := "  script-src 'self'"
    + " 'unsafe-eval'"
    + " 'unsafe-inline'"
    + GoogleAnalytics
    + GoogleTagManager
    + " https://vercel.live"
    + DisqusSite
    + " https://c.disquscdn.com"
    + LaunchpadWrapper
    + Launchpad
    + ";"
  const StyleSrc: string := "  style-src 'self'"
    + " 'unsafe-inline'"
    + " https://c.disquscdn.com;"
  const ImgSrc: string := "  img-src * blob: data: ;"
  const MediaSrc: string := "  media-src 'none';"
  const ConnectSrc: string := "  connect-src *;"
  const FontSrc: string := "  font-src 'self';"
  const FrameSrc: string := "  frame-src https://vercel.live"
    + " https://disqus.com/;"
  const PrefetchSrc: string := "  prefetch-src 'self'"
    + " https://c.disquscdn.com"
    + " https://disqus.com"

  const Directives: seq<string> :=
    [DefaultSrc, ScriptSrc, StyleSrc, ImgSrc, MediaSrc, ConnectSrc, FontSrc, FrameSrc, PrefetchSrc]

  /** Each line followed by a line feed. */
  function Block(lines: seq<string>): string
  {
    if lines == [] then "" else lines[0] + "\n" + Block(lines[1..])
  }

  /** The lines one after the other, nothing between them. */
  function Concat(lines: seq<string>): string
  {
    if lines == [] then "" else lines[0] + Concat(lines[1..])
  }

  /**
   * The template as written: it opens with a line feed right after the
   * backtick, and every directive line ends with one.
   */
  const Template: string := "\n" + Block(Directives)

  /** `s.replace(/\n/g, '')`: `s` with every line feed deleted. */
  function StripNewlines(s: string): (r: string)
    ensures '\n' !in r
  {
    if s == [] then []
    else (if s[0] == '\n' then [] else [s[0]]) + StripNewlines(s[1..])
  }

  /** Every character other than a line feed is kept, as often as it occurs. */
  lemma {:induction false} StripKeepsOtherCharacters(s: string)
    ensures multiset(StripNewlines(s)) == multiset(s)['\n' := 0]
    ensures |StripNewlines(s)| == |s| - multiset(s)['\n']
  {
    if s != [] {
      assert s == [s[0]] + s[1..];
      StripKeepsOtherCharacters(s[1..]);
    }
  }

  /** The header value sent with every response. */
  function HeaderValue(): (v: string)
    ensures '\n' !in v
  {
    StripNewlines(Template)
  }

  /** Deleting the line feeds of a block leaves its lines run together. */
  lemma {:induction false} StripBlock(lines: seq<string>)
    requires forall i :: 0 <= i < |lines| ==> '\n' !in lines[i]
    ensures StripNewlines(Block(lines)) == Concat(lines)
  {
    if lines != [] {
      var line, more := lines[0], Block(lines[1..]);
      assert Block(lines) == (line + "\n") + more;
      StripBlock(lines[1..]);
      StripAppend(line + "\n", more);
      StripAppend(line, "\n");
      StripWithoutNewlines(line);
    }
  }

  // One lemma per line or named host: each literal is checked character by character on its own.
  lemma NoNewlineInDefaultSrc() ensures '\n' !in DefaultSrc { }
  lemma NoNewlineInGoogleAnalytics() ensures '\n' !in GoogleAnalytics { }
  lemma NoNewlineInGoogleTagManager() ensures '\n' !in GoogleTagManager { }
  lemma NoNewlineInDisqusSite() ensures '\n' !in DisqusSite { }
  lemma NoNewlineInLaunchpadWrapper() ensures '\n' !in LaunchpadWrapper { }
  lemma NoNewlineInLaunchpad() ensures '\n' !in Launchpad { }
  lemma NoNewlineInScriptSrc() ensures '\n' !in ScriptSrc {
    NoNewlineInGoogleAnalytics();
    NoNewlineInGoogleTagManager();
    NoNewlineInDisqusSite();
    NoNewlineInLaunchpadWrapper();
    NoNewlineInLaunchpad();
  }
  lemma NoNewlineInStyleSrc() ensures '\n' !in StyleSrc { }
  lemma NoNewlineInImgSrc() ensures '\n' !in ImgSrc { }
  lemma NoNewlineInMediaSrc() ensures '\n' !in MediaSrc { }
  lemma NoNewlineInConnectSrc() ensures '\n' !in ConnectSrc { }
  lemma NoNewlineInFontSrc() ensures '\n' !in FontSrc { }
  lemma NoNewlineInFrameSrc() ensures '\n' !in FrameSrc { }
  lemma NoNewlineInPrefetchSrc() ensures '\n' !in PrefetchSrc { }

  /** No directive line holds a line feed of its own. */
  lemma DirectivesHaveNoNewline()
    ensures forall i :: 0 <= i < |Directives| ==> '\n' !in Directives[i]
  {
    NoNewlineInDefaultSrc();
    NoNewlineInScriptSrc();
    NoNewlineInStyleSrc();
    NoNewlineInImgSrc();
    NoNewlineInMediaSrc();
    NoNewlineInConnectSrc();
    NoNewlineInFontSrc();
    NoNewlineInFrameSrc();
    NoNewlineInPrefetchSrc();
  }

  /**
   * The header value is the nine directive lines run together: each keeps
   * its indentation, so consecutive directives are separated by "  " after
   * the ';'.
   */
  lemma {:induction false} HeaderValueIsDirectivesRunTogether()
    ensures HeaderValue() == Concat(Directives)
  {
    DirectivesHaveNoNewline();
    StripAppend("\n", Block(Directives));
    StripBlock(Directives);
  }

  /** `a` occurs in `b` in order, possibly with gaps. */
  predicate IsSubsequence(a: string, b: string)
  {
    if a == [] then true
    else if b == [] then false
    else if a[0] == b[0] then IsSubsequence(a[1..], b[1..])
    else IsSubsequence(a, b[1..])
  }

  /** The characters that remain keep their order. */
  lemma {:induction false} StripKeepsOrder(s: string)
    ensures IsSubsequence(StripNewlines(s), s)
  {
    if s != [] {
      StripKeepsOrder(s[1..]);
      var r := StripNewlines(s);
      if s[0] != '\n' {
        assert r[0] == s[0] && r[1..] == StripNewlines(s[1..]);
      } else {
        assert r == StripNewlines(s[1..]);
        DropHeadOfHost(r, s);
      }
    }
  }

  /** A subsequence of `b[1..]` is a subsequence of `b`. */
  lemma {:induction false} DropHeadOfHost(a: string, b: string)
    requires b != [] && IsSubsequence(a, b[1..])
    ensures IsSubsequence(a, b)
    decreases |a| + |b|
  {
    if a != [] && a[0] == b[0] {
      // `a[1..]` is a subsequence of `b[1..]` because `a` is
      SubsequenceTail(a, b[1..]);
    }
  }

  /** Dropping the first character of a subsequence keeps it a subsequence. */
  lemma {:induction false} SubsequenceTail(a: string, b: string)
    requires a != [] && IsSubsequence(a, b)
    ensures IsSubsequence(a[1..], b)
    decreases |a| + |b|
  {
    if b == [] {
    } else if a[0] == b[0] {
      DropHeadOfHost(a[1..], b);
    } else {
      SubsequenceTail(a, b[1..]);
      DropHeadOfHost(a[1..], b);
    }
  }

  /** Stripping works piece by piece. */
  lemma {:induction false} StripAppend(a: string, b: string)
    ensures StripNewlines(a + b) == StripNewlines(a) + StripNewlines(b)
  {
    if a != [] {
      assert (a + b)[0] == a[0] && (a + b)[1..] == a[1..] + b;
      var head := if a[0] == '\n' then [] else [a[0]];
      assert StripNewlines(a + b) == head + StripNewlines(a[1..] + b);
      StripAppend(a[1..], b);
    } else {
      assert a + b == b;
    }
  }

  /** A string with no line feed is left as it is. */
  lemma {:induction false} StripWithoutNewlines(s: string)
    requires '\n' !in s
    ensures StripNewlines(s) == s
  {
    if s != [] {
      assert s == [s[0]] + s[1..];
      StripWithoutNewlines(s[1..]);
    }
  }

  /** Removing line feeds a second time changes nothing. */
  lemma StripIdempotent(s: string)
    ensures StripNewlines(StripNewlines(s)) == StripNewlines(s)
  {
    StripWithoutNewlines(StripNewlines(s));
  }
}

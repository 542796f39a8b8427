/**
 * The site's permanent redirects: a fixed table of (source, destination,
 * permanent) entries returned by the `redirects()` hook, mapping the old
 * URLs of series articles to their new paths. The framework applies them
 * at request time; the model is the table and the lookup of a path in it.
 *
 * The destinations are kept exactly as written: two of them have no
 * leading '/', and one starts with '/og/' rather than '/blog/'.
 */
module Redirects {
  import opened Wrappers
  import opened Strings

  datatype Redirect = Redirect(source: string, destination: string, permanent: bool)

  /** Series and article slugs that occur in the longer paths. */
  const BitBucket: string := "bit-bucket-pipelines"
  const BitBucketOne: string := "part-one-building-and-testing-aspnet-core"
  const BitBucketTwo: string := "part-two-deploying-aspnet-core-to-azure"
  const BitBucketThree: string := "part-three-deploying-static-site-to-azure"
  const XunitOld: string := "unit-testing-dotnet-core-with-xunit"
  const XunitNew: string := "xunit-unit-testing"

  /** The `redirects()` table, in order. */
  const Table: seq<Redirect> := [
    Redirect("/blog/bicep-part-one", "/blog/bicep/part-one", true),
    Redirect("/blog/bicep-part-two", "/blog/bicep/part-two", true),
    Redirect("/blog/" + BitBucket + "-" + BitBucketOne, "/blog/" + BitBucket + "/" + BitBucketOne, true),
    Redirect("/blog/" + BitBucket + "-" + BitBucketTwo, "/blog/" + BitBucket + "/" + BitBucketTwo, true),
    Redirect("/blog/" + BitBucket + "-" + BitBucketThree, "blog/" + BitBucket + "/" + BitBucketThree, true),
    Redirect("/blog/" + XunitOld + "-part-one", "/og/" + XunitNew + "/part-one", true),
    Redirect("/blog/" + XunitOld + "-part-two", "blog/" + XunitNew + "/part-two", true)
  ]

  /** No two entries share a source. */
  predicate SourcesDistinct(t: seq<Redirect>)
  {
    forall i, j :: 0 <= i < j < |t| ==> t[i].source != t[j].source
  }

  /** The first entry of `t` whose source is `path`, if any. */
  function Lookup(t: seq<Redirect>, path: string): (r: Option<Redirect>)
    ensures r.None? <==> forall i :: 0 <= i < |t| ==> t[i].source != path
    ensures r.Some? ==> r.value.source == path
    ensures r.Some? ==> exists i :: 0 <= i < |t| && t[i] == r.value &&
                          forall j :: 0 <= j < i ==> t[j].source != path
  {
    if t == [] then None
    else if t[0].source == path then Some(t[0])
    else
      var r := Lookup(t[1..], path);
      assert r.Some? ==> exists i :: 0 <= i < |t| && t[i] == r.value &&
                          forall j :: 0 <= j < i ==> t[j].source != path by {
        if r.Some? {
          var i :| 0 <= i < |t[1..]| && t[1..][i] == r.value &&
                   forall j :: 0 <= j < i ==> t[1..][j].source != path;
          assert t[i + 1] == r.value;
          forall j | 0 <= j < i + 1 ensures t[j].source != path {
            if j > 0 { assert t[j] == t[1..][j - 1]; }
          }
        }
      }
      r
  }

  /** With distinct sources, looking up an entry's source finds that entry. */
  lemma {:induction false} LookupFindsEntry(t: seq<Redirect>, i: nat)
    requires SourcesDistinct(t) && i < |t|
    ensures Lookup(t, t[i].source) == Some(t[i])
  {
    if i > 0 {
      assert t[0].source != t[i].source;
      assert SourcesDistinct(t[1..]) by {
        forall a, b | 0 <= a < b < |t[1..]| ensures t[1..][a].source != t[1..][b].source {
          assert t[1..][a] == t[a + 1] && t[1..][b] == t[b + 1];
        }
      }
      assert t[1..][i - 1] == t[i];
      LookupFindsEntry(t[1..], i - 1);
    }
  }

  /** Every redirect of the site is permanent. */
  lemma AllPermanent()
    ensures |Table| == 7
    ensures forall i :: 0 <= i < |Table| ==> Table[i].permanent
  {
  }

  /** No two entries of the site's table share a source. */
  lemma TableSourcesDistinct()
    ensures SourcesDistinct(Table)
  {
    SourceLengths();
    assert Table[0].source[17] != Table[1].source[17];
    assert Table[2].source[32] != Table[4].source[32];
    assert Table[5].source[47] != Table[6].source[47];
  }

  /** The lengths of the sources, in table order. */
  lemma SourceLengths()
    ensures |Table| == 7
    ensures |Table[0].source| == 20 && |Table[1].source| == 20 && |Table[2].source| == 68
    ensures |Table[3].source| == 66 && |Table[4].source| == 68
    ensures |Table[5].source| == 50 && |Table[6].source| == 50
  {
  }

  /** No destination of the site's table is itself a source. */
  lemma TableDestinationsAreNotSources()
    ensures NoDestinationIsSource(Table)
  {
    SourceLengths();
    assert |Table[0].destination| == 20 && |Table[1].destination| == 20;
    assert |Table[2].destination| == 68 && |Table[3].destination| == 66;
    assert |Table[4].destination| == 67;
    assert |Table[5].destination| == 31 && |Table[6].destination| == 32;
    // same-length pairs: a destination has '/' where the source has '-'
    assert Table[0].destination[11] != Table[0].source[11] == Table[1].source[11];
    assert Table[1].destination[11] != Table[0].source[11];
    assert Table[2].destination[26] != Table[2].source[26] == Table[4].source[26];
    assert Table[3].destination[26] != Table[3].source[26];
  }

  /** No destination of `t` is a source of `t`. */
  predicate NoDestinationIsSource(t: seq<Redirect>)
  {
    forall i, j :: 0 <= i < |t| && 0 <= j < |t| ==> t[i].destination != t[j].source
  }

  /**
   * In a table whose destinations are not sources, the path a redirect
   * leads to is not redirected again.
   */
  lemma NoSecondRedirect(t: seq<Redirect>, path: string)
    requires NoDestinationIsSource(t)
    ensures Lookup(t, path).Some? ==> Lookup(t, Lookup(t, path).value.destination) == None
  {
    if Lookup(t, path).Some? {
      var i :| 0 <= i < |t| && t[i] == Lookup(t, path).value &&
               forall j :: 0 <= j < i ==> t[j].source != path;
      assert forall j :: 0 <= j < |t| ==> t[j].source != t[i].destination;
    }
  }

  /**
   * Lookup in the site's table is a function of the path: every source is
   * redirected to its own entry, permanently; every other path is not
   * redirected; and a redirected path never leads to a second redirect.
   */
  lemma SiteRedirects(path: string)
    ensures forall i :: 0 <= i < |Table| ==> Lookup(Table, Table[i].source) == Some(Table[i])
    ensures Lookup(Table, path).None? <==> forall i :: 0 <= i < |Table| ==> Table[i].source != path
    ensures Lookup(Table, path).Some? ==>
              && Lookup(Table, path).value.permanent
              && Lookup(Table, Lookup(Table, path).value.destination) == None
  {
    TableSourcesDistinct();
    TableDestinationsAreNotSources();
    AllPermanent();
    forall i | 0 <= i < |Table| ensures Lookup(Table, Table[i].source) == Some(Table[i]) {
      LookupFindsEntry(Table, i);
    }
    NoSecondRedirect(Table, path);
  }

  /**
   * Not every destination is an absolute path under /blog/: two are
   * relative, and one leads under /og/.
   */
  lemma SomeDestinationsAreUnusual()
    ensures !StartsWith(Table[4].destination, "/")
    ensures !StartsWith(Table[6].destination, "/")
    ensures StartsWith(Table[5].destination, "/") && !StartsWith(Table[5].destination, "/blog/")
  {
    var d4, d5, d6 := Table[4].destination, Table[5].destination, Table[6].destination;
    assert d4[0] == 'b' && d6[0] == 'b' && d5[0] == '/';
    StartsWithChar(d4, '/');
    StartsWithChar(d6, '/');
    StartsWithChar(d5, '/');
    assert d5[..6][1] == 'o' != "/blog/"[1];
  }
}

/**
 * Which navigation entry is highlighted for the current path: the admin
 * sidebar (components/admin/Sidebar.tsx) and the category pills of the store
 * (components/store/CategoryPills.tsx).
 */
module Navigation {
  import opened Wrappers
  import opened Text
  import Slug

  // ------------------------------------------------------------ admin sidebar

  const Dashboard := "/admin"
  const CategoriesPage := "/admin/categories"
  const ProductsPage := "/admin/products"
  const OrdersPage := "/admin/orders"

  /** The four menu entries, in order. */
  const MenuHrefs: seq<string> := [Dashboard, CategoriesPage, ProductsPage, OrdersPage]

  /**
   * `isActive`: the path is the entry's href, or, for every entry but the
   * dashboard, merely starts with it (a string prefix, not a path segment).
   */
  function IsActive(path: string, href: string): (b: bool)
    ensures path == href ==> b
    ensures href == Dashboard ==> (b <==> path == Dashboard)
    ensures href != Dashboard ==> (b <==> StartsWith(path, href))
  {
    path == href || (href != Dashboard && StartsWith(path, href))
  }

  /** Two hrefs that differ at an index within both cannot both prefix the path. */
  lemma PrefixesDiffer(path: string, a: string, b: string, k: nat)
    requires k < |a| && k < |b| && a[k] != b[k]
    ensures !(StartsWith(path, a) && StartsWith(path, b))
  {
    if StartsWith(path, a) {
      assert path[k] == a[k];
    }
  }

  /** For any path at most one menu entry is highlighted. */
  lemma AtMostOneActive(path: string)
    ensures forall i, j :: 0 <= i < j < |MenuHrefs| ==>
      !(IsActive(path, MenuHrefs[i]) && IsActive(path, MenuHrefs[j]))
  {
    PrefixesDiffer(path, CategoriesPage, ProductsPage, 7);
    PrefixesDiffer(path, CategoriesPage, OrdersPage, 7);
    PrefixesDiffer(path, ProductsPage, OrdersPage, 7);
  }

  /** A sub-page highlights its section, and so does any path that merely extends the href. */
  lemma SectionPrefix(rest: string)
    ensures IsActive(ProductsPage + rest, ProductsPage)
    ensures IsActive(Dashboard + rest, Dashboard) <==> rest == ""
  {
    assert (ProductsPage + rest)[..|ProductsPage|] == ProductsPage;
    if rest != "" {
      assert |Dashboard + rest| != |Dashboard|;
    }
  }

  // ------------------------------------------------------------ category pills

  const Marker := "/category/"

  /** `/\/category\/([^/]+)/` can match at index `i`: the marker, then at least one non-`/`. */
  predicate MatchAt(path: string, i: nat) {
    OccursAt(path, Marker, i) && i + |Marker| < |path| && path[i + |Marker|] != '/'
  }

  /** The leftmost index at or after `from` where the pattern matches. */
  function FindMatch(path: string, from: nat): (r: Option<nat>)
    requires from <= |path|
    ensures r.Some? ==> from <= r.value && MatchAt(path, r.value)
    ensures r.Some? ==> forall j :: from <= j < r.value ==> !MatchAt(path, j)
    ensures r.None? ==> forall j :: from <= j ==> !MatchAt(path, j)
    decreases |path| - from
  {
    if from == |path| then None
    else if MatchAt(path, from) then Some(from)
    else FindMatch(path, from + 1)
  }

  /**
   * `getActiveSlug`: the text after the leftmost `/category/` that is followed
   * by a character other than `/`, up to the next `/` or the end.
   */
  function ActiveSlug(path: string): (r: Option<string>)
    ensures r.None? <==> forall i: nat :: !MatchAt(path, i)
    ensures r.Some? ==> |r.value| > 0 && '/' !in r.value
  {
    var m := FindMatch(path, 0);
    if m.None? then None
    else
      var start := m.value + |Marker|;
      var end := SkipWhile(path, c => c != '/', start);
      var slug := path[start..end];
      assert forall c :: c in slug ==> c != '/';
      Some(slug)
  }

  /** The slug read off a path is the one written into it, and a following segment does not matter. */
  lemma SlugRoundTrip(prefix: string, slug: string, rest: string)
    requires forall i: nat :: !MatchAt(prefix + Marker + slug + rest, i) || i >= |prefix|
    requires |slug| > 0 && '/' !in slug
    requires rest == "" || rest[0] == '/'
    ensures ActiveSlug(prefix + Marker + slug + rest) == Some(slug)
  {
    var path := prefix + Marker + slug + rest;
    var at := |prefix|;
    assert path[at..at + |Marker|] == Marker;
    assert path[at + |Marker|] == slug[0];
    assert MatchAt(path, at);
    var start := at + |Marker|;
    assert forall j :: start <= j < start + |slug| ==> path[j] == slug[j - start];
    assert forall j :: start <= j < start + |slug| ==> path[j] != '/' by {
      forall j | start <= j < start + |slug|
        ensures path[j] != '/'
      {
        assert path[j] in slug;
      }
    }
    if rest != "" {
      assert path[start + |slug|] == '/';
    }
    var end := SkipWhile(path, c => c != '/', start);
    assert end == start + |slug|;
    assert path[start..end] == slug;
  }

  /** A pill's own link. */
  function PillHref(slug: string): string {
    Marker + slug
  }

  /** A pill is highlighted when its slug is the active one. */
  predicate Highlighted(path: string, slug: string) {
    ActiveSlug(path) == Some(slug)
  }

  /**
   * On a pill's page exactly that pill is highlighted, for any category with
   * a non-empty slug.
   */
  lemma PillPageHighlightsItself(slug: string, other: string)
    requires |slug| > 0 && '/' !in slug
    ensures Highlighted(PillHref(slug), other) <==> other == slug
  {
    SlugRoundTrip("", slug, "");
    assert "" + Marker + slug + "" == PillHref(slug);
  }

  /**
   * A slug made from a category name never holds `/`, so a category whose
   * name has a letter or digit the slug keeps highlights its own pill.
   */
  lemma SlugifiedPillsWork(name: string)
    requires exists i :: 0 <= i < |name| && Slug.IsContent(name[i])
    ensures Highlighted(PillHref(Slug.Slugify(name)), Slug.Slugify(name))
  {
    Slug.SlugEmptyIff(name);
    var s := Slug.Slugify(name);
    assert '/' !in s by {
      assert !Slug.IsSlugChar('/');
    }
    PillPageHighlightsItself(s, s);
  }

  /** The marker alone highlights nothing: the pattern needs at least one character after it. */
  lemma BareMarkerInactive()
    ensures ActiveSlug(Marker).None?
  {
    forall i: nat
      ensures !MatchAt(Marker, i)
    {
    }
  }
}

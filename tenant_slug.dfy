/** Tenant slug handling of the tenant provider
    (frontend/src/contexts/TenantProvider.tsx): the slug validator
    `^[a-z0-9-]+$`, extraction of the slug from the URL path, and the choice
    between an explicit slug and the derived one. */
module TenantSlug {
  import opened Wrappers
  import Text

  predicate IsSlugChar(c: char) {
    ('a' <= c <= 'z') || ('0' <= c <= '9') || c == '-'
  }

  /** `/^[a-z0-9-]+$/.test(s)`. */
  predicate IsValidSlug(s: string) {
    |s| >= 1 && forall i :: 0 <= i < |s| ==> IsSlugChar(s[i])
  }

  /** `pathname.split("/").filter(Boolean)`. */
  function Segments(path: string): (segs: seq<string>)
    ensures forall i :: 0 <= i < |segs| ==> segs[i] != "" && '/' !in segs[i]
  {
    var segs := Text.NonEmpty(Text.Split(path, '/'));
    assert forall i :: 0 <= i < |segs| ==> segs[i] in Text.Split(path, '/');
    segs
  }

  /** `segments.findIndex((s) => s === "tenant")`: the first such index, or -1. */
  function FindTenant(segs: seq<string>): (i: int)
    ensures -1 <= i < |segs|
    ensures i == -1 <==> "tenant" !in segs
    ensures i >= 0 ==> segs[i] == "tenant" && forall j :: 0 <= j < i ==> segs[j] != "tenant"
  {
    if |segs| == 0 then -1
    else if segs[0] == "tenant" then 0
    else
      var k := FindTenant(segs[1..]);
      if k == -1 then -1 else k + 1
  }

  /** `extractSlug`: the segment right after the first "tenant" segment, when
      there is one and it is a valid slug. */
  function ExtractSlug(pathname: Option<string>): (r: Option<string>)
    ensures pathname.None? || pathname.value == "" ==> r.None?
    ensures r.Some? ==> IsValidSlug(r.value)
    ensures r.Some? <==>
              && pathname.Some? && pathname.value != ""
              && 0 <= FindTenant(Segments(pathname.value)) < |Segments(pathname.value)| - 1
              && IsValidSlug(Segments(pathname.value)[FindTenant(Segments(pathname.value)) + 1])
    ensures r.Some? ==> r.value == Segments(pathname.value)[FindTenant(Segments(pathname.value)) + 1]
  {
    if pathname.None? || pathname.value == "" then None
    else
      var segs := Segments(pathname.value);
      var i := FindTenant(segs);
      if i == -1 || i + 1 >= |segs| then None
      else if IsValidSlug(segs[i + 1]) then Some(segs[i + 1])
      else None
  }

  /** Cutting a string at one separator splits its pieces there. */
  lemma SplitAt(a: string, c: string, sep: char)
    requires sep !in a
    ensures Text.Split(a + [sep] + c, sep) == [a] + Text.Split(c, sep)
  {
    Text.SplitPrefix(a, [sep] + c, sep);
    assert a + [sep] + c == a + ([sep] + c);
    assert ([sep] + c)[1..] == c;
    assert Text.Split([sep] + c, sep) == [""] + Text.Split(c, sep);
    assert a + "" == a;
  }

  /** The path `/tenant/<slug>`, optionally followed by `/` and more. */
  function TenantPath(slug: string, rest: Option<string>): string {
    if rest.Some? then "/tenant/" + slug + "/" + rest.value else "/tenant/" + slug
  }

  /** `/tenant/<slug>` followed by anything: the slug is found. */
  lemma ExtractFromTenantPath(slug: string, rest: Option<string>)
    requires IsValidSlug(slug)
    ensures ExtractSlug(Some(TenantPath(slug, rest))) == Some(slug)
  {
    var tail := if rest.Some? then Text.Split(rest.value, '/') else [];
    TenantPathPieces(slug, rest);
    NonEmptyAfterTenant(slug, tail);
    var segs := Segments(TenantPath(slug, rest));
    assert segs == ["tenant", slug] + Text.NonEmpty(tail);
    assert segs[0] == "tenant" && segs[1] == slug;
  }

  lemma TenantPathPieces(slug: string, rest: Option<string>)
    requires IsValidSlug(slug)
    ensures Text.Split(TenantPath(slug, rest), '/')
         == ["", "tenant", slug] + (if rest.Some? then Text.Split(rest.value, '/') else [])
  {
    assert '/' !in slug by {
      assert forall i :: 0 <= i < |slug| ==> slug[i] != '/';
    }
    if rest.Some? {
      PiecesWithRest(slug, rest.value);
    } else {
      PiecesBare(slug);
    }
  }

  /** `/tenant/<slug>/<rest>` splits into the empty piece, "tenant", the slug
      and the pieces of the rest. */
  lemma PiecesWithRest(slug: string, rest: string)
    requires '/' !in slug
    ensures Text.Split("/tenant/" + slug + "/" + rest, '/') == ["", "tenant", slug] + Text.Split(rest, '/')
  {
    var c := slug + ['/'] + rest;
    var b := "tenant" + ['/'] + c;
    assert "/tenant/" + slug + "/" + rest == "" + ['/'] + b;
    SplitAt("", b, '/');
    SplitAt("tenant", c, '/');
    SplitAt(slug, rest, '/');
  }

  /** `/tenant/<slug>` splits into the empty piece, "tenant" and the slug. */
  lemma PiecesBare(slug: string)
    requires '/' !in slug
    ensures Text.Split("/tenant/" + slug, '/') == ["", "tenant", slug]
  {
    var b := "tenant" + ['/'] + slug;
    assert "/tenant/" + slug == "" + ['/'] + b;
    SplitAt("", b, '/');
    SplitAt("tenant", slug, '/');
    Text.SplitPrefix(slug, "", '/');
    assert slug + "" == slug;
  }

  lemma NonEmptyAfterTenant(slug: string, tail: seq<string>)
    requires slug != ""
    ensures Text.NonEmpty(["", "tenant", slug] + tail) == ["tenant", slug] + Text.NonEmpty(tail)
  {
    var parts := ["", "tenant", slug] + tail;
    assert parts[1..] == ["tenant", slug] + tail;
    assert (["tenant", slug] + tail)[1..] == [slug] + tail;
    assert ([slug] + tail)[1..] == tail;
    assert Text.NonEmpty(parts) == Text.NonEmpty(["tenant", slug] + tail);
    assert Text.NonEmpty(["tenant", slug] + tail) == ["tenant"] + Text.NonEmpty([slug] + tail);
    assert Text.NonEmpty([slug] + tail) == [slug] + Text.NonEmpty(tail);
  }

  /** `initialSlug ?? extractSlug(pathname)`: an explicit slug, even an
      invalid one, takes precedence. */
  function SelectSlug(initialSlug: Option<string>, pathname: Option<string>): (s: Option<string>)
    ensures initialSlug.Some? ==> s == initialSlug
    ensures initialSlug.None? ==> s == ExtractSlug(pathname)
  {
    initialSlug.OrElse(ExtractSlug(pathname))
  }

  /** `!tenantSlug || !isValidSlug` fails: a present, non-empty, valid slug. */
  predicate SlugUsable(s: Option<string>) {
    s.Some? && s.value != "" && IsValidSlug(s.value)
  }

  /** A slug taken from the path is always usable; only an explicit slug can
      be rejected by the validator. */
  lemma DerivedSlugUsable(initialSlug: Option<string>, pathname: Option<string>)
    requires initialSlug.None? && SelectSlug(initialSlug, pathname).Some?
    ensures SlugUsable(SelectSlug(initialSlug, pathname))
  {
  }
}

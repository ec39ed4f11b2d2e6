/** Image URL builders of the catalog service: a poster or backdrop path is
    joined to the configured image base URL and a size bucket, and a missing
    path falls back to a local placeholder. The base URL comes from the build
    configuration and is a parameter here. */
module Tmdb {
  import opened Wrappers

  const PosterPlaceholder: string := "/placeholder-poster.jpg"
  const BackdropPlaceholder: string := "/placeholder-backdrop.jpg"

  /** `!path`: null and the empty string are both falsy. */
  predicate MissingPath(path: Option<string>) {
    path.None? || path.value == []
  }

  /** `url` is `base`, a slash, `size` and `path`, in that order. */
  predicate IsSizedUrl(url: string, base: string, size: string, path: string) {
    && |url| == |base| + 1 + |size| + |path|
    && url[..|base|] == base
    && url[|base|] == '/'
    && url[|base| + 1..|base| + 1 + |size|] == size
    && url[|base| + 1 + |size|..] == path
  }

  function GetImageUrl(base: string, path: Option<string>, size: string := "w500"): (url: string)
    ensures MissingPath(path) ==> url == PosterPlaceholder
    ensures !MissingPath(path) ==> IsSizedUrl(url, base, size, path.value)
  {
    if MissingPath(path) then PosterPlaceholder else base + "/" + size + path.value
  }

  function GetBackdropUrl(base: string, path: Option<string>, size: string := "w1280"): (url: string)
    ensures MissingPath(path) ==> url == BackdropPlaceholder
    ensures !MissingPath(path) ==> IsSizedUrl(url, base, size, path.value)
  {
    if MissingPath(path) then BackdropPlaceholder else base + "/" + size + path.value
  }

  /** Without a size, posters are fetched at w500 and backdrops at w1280. */
  lemma DefaultSizes(base: string, path: Option<string>)
    ensures !MissingPath(path) ==> IsSizedUrl(GetImageUrl(base, path), base, "w500", path.value)
    ensures !MissingPath(path) ==> IsSizedUrl(GetBackdropUrl(base, path), base, "w1280", path.value)
  {
  }

  /** For one base and size, different paths give different URLs. */
  lemma ImageUrlInjective(base: string, size: string, p: string, q: string)
    requires p != [] && q != []
    requires GetImageUrl(base, Some(p), size) == GetImageUrl(base, Some(q), size)
    ensures p == q
  {
    var url := GetImageUrl(base, Some(p), size);
    assert url[|base| + 1 + |size|..] == p;
  }

  /** With a base that does not start with a slash (an absolute URL), a real
      image URL is never mistaken for a placeholder. */
  lemma ResolvedUrlIsNotPlaceholder(base: string, path: Option<string>, size: string)
    requires base != [] && base[0] != '/' && !MissingPath(path)
    ensures GetImageUrl(base, path, size) != PosterPlaceholder
    ensures GetBackdropUrl(base, path, size) != BackdropPlaceholder
  {
    assert GetImageUrl(base, path, size)[0] == base[0];
    assert GetBackdropUrl(base, path, size)[0] == base[0];
  }
}

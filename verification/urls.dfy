/** The endpoint paths shared by the request builders, and the API base address. */
module Urls {

  import opened Optional

  const LoginUrl: string := "/auth/login"
  const RegisterUrl: string := "/auth/register"
  const BooksUrl: string := "/books"
  const BookDetailsUrl: string := "/books/{id}"
  const BookGenresUrl: string := "/books/genres"
  const ReviewsUrl: string := "/reviews"
  const BookReviewsUrl: string := "/reviews/book/{bookId}"
  const UserReviewsUrl: string := "/reviews/user/{userId}"
  const FavoritesUrl: string := "/favorites"
  const FavoriteCheckUrl: string := "/favorites/check/{bookId}"
  const FavoriteRemoveUrl: string := "/favorites/{bookId}"
  const UserProfileUrl: string := "/users/profile"
  const RecommendationsUrl: string := "/recommendations"

  const DefaultBase: string := "http://localhost:5001"

  /**
    `getBase()`: the configured API address, or the local default when the
    setting is absent or empty.  Every other module takes the base as a
    parameter.
   */
  function GetBase(configured: Option<string>): (base: string)
    ensures configured.Some? && configured.value != "" ==> base == configured.value
    ensures configured.None? || configured.value == "" ==> base == DefaultBase
    ensures base != ""
  {
    if configured.Some? && configured.value != "" then configured.value else DefaultBase
  }

  /**
    The HTTP client's address join: one or two trailing slashes are dropped
    from the base (the pattern `/\/?\/$/`), every leading slash from the
    relative path, and the two are joined with a single `/`.
   */
  function TrimBaseSlashes(base: string): (r: string)
    ensures |base| - 2 <= |r| <= |base| && r == base[..|r|]
    ensures forall i :: |r| <= i < |base| ==> base[i] == '/'
    // fewer than two slashes go only when no further slash precedes them
    ensures |base| - |r| < 2 ==> r == [] || r[|r| - 1] != '/'
  {
    if |base| >= 2 && base[|base| - 2] == '/' && base[|base| - 1] == '/' then base[..|base| - 2]
    else if |base| >= 1 && base[|base| - 1] == '/' then base[..|base| - 1]
    else base
  }

  function DropLeadingSlashes(s: string): (r: string)
    ensures |r| <= |s| && r == s[|s| - |r|..]
    ensures r == [] || r[0] != '/'
    ensures forall i :: 0 <= i < |s| - |r| ==> s[i] == '/'
  {
    if s != [] && s[0] == '/' then DropLeadingSlashes(s[1..]) else s
  }

  /**
    The address the client requests: the base alone for an empty path,
    else the trimmed base and the path with exactly one slash between them.
   */
  function CombineUrls(base: string, relative: string): (address: string)
    ensures relative == "" ==> address == base
    ensures relative != "" ==>
      var b := TrimBaseSlashes(base);
      |address| > |b| && address[..|b|] == b && address[|b|] == '/'
      && (|address| == |b| + 1 || address[|b| + 1] != '/')
      // what follows the slash is the path without its leading slashes
      && |address| - |b| - 1 <= |relative|
      && address[|b| + 1..] == relative[|relative| - (|address| - |b| - 1)..]
  {
    if relative == "" then base else TrimBaseSlashes(base) + "/" + DropLeadingSlashes(relative)
  }

  /** A path with exactly one leading slash is appended to the trimmed base as it is. */
  lemma CombineRooted(base: string, relative: string)
    requires |relative| >= 2 && relative[0] == '/' && relative[1] != '/'
    ensures CombineUrls(base, relative) == TrimBaseSlashes(base) + relative
  {
    assert DropLeadingSlashes(relative[1..]) == relative[1..];
    assert relative == "/" + relative[1..];
  }
}

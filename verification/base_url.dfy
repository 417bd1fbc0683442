/**
 The two string fixes the runtime applies before resolving a request path
 against a base path: the path loses its leading slashes and the base
 gains a trailing one, so that resolution keeps every segment of the base.
 */
module BaseUrl {

  /** `path.replace(/^\/+/, "")`: drops the whole run of leading `/`. */
  function RemoveLeadingSlash(path: string): (r: string)
    ensures |r| <= |path| && r == path[|path| - |r|..]
    ensures forall i | 0 <= i < |path| - |r| :: path[i] == '/'
    ensures r == [] || r[0] != '/'
    decreases |path|
  {
    if path != [] && path[0] == '/' then RemoveLeadingSlash(path[1..]) else path
  }

  /** `path.endsWith("/") ? path : path + "/"`. */
  function AddTrailingSlash(path: string): (r: string)
    ensures |r| > 0 && r[|r| - 1] == '/'
    ensures r == path || r == path + "/"
    ensures r == path <==> |path| > 0 && path[|path| - 1] == '/'
  {
    if |path| > 0 && path[|path| - 1] == '/' then path else path + "/"
  }

  /** A path that does not start with `/` is left as it is, and so is every result. */
  lemma RemoveLeadingSlashIdempotent(path: string)
    ensures path == [] || path[0] != '/' ==> RemoveLeadingSlash(path) == path
    ensures RemoveLeadingSlash(RemoveLeadingSlash(path)) == RemoveLeadingSlash(path)
  {
  }

  /** However many slashes precede a path, they all go. */
  lemma {:induction false} RemoveLeadingSlashes(n: nat, path: string)
    requires path == [] || path[0] != '/'
    ensures RemoveLeadingSlash(Slashes(n) + path) == path
  {
    if n > 0 {
      assert (Slashes(n) + path)[1..] == Slashes(n - 1) + path;
      RemoveLeadingSlashes(n - 1, path);
    } else {
      assert Slashes(0) + path == path;
    }
  }

  function Slashes(n: nat): (s: string)
    ensures |s| == n && forall i | 0 <= i < n :: s[i] == '/'
  {
    if n == 0 then [] else ['/'] + Slashes(n - 1)
  }

  /** A base that already ends in `/` is left as it is, and so is every result. */
  lemma AddTrailingSlashIdempotent(path: string)
    ensures |path| > 0 && path[|path| - 1] == '/' ==> AddTrailingSlash(path) == path
    ensures AddTrailingSlash(AddTrailingSlash(path)) == AddTrailingSlash(path)
  {
  }

  /** The scheme and authority of an absolute URL, written `scheme://authority`. */
  datatype Origin = Origin(scheme: string, authority: string)

  /** A scheme without `:` or `/`, and a non-empty authority without `/`. */
  predicate ValidOrigin(o: Origin) {
    o.scheme != [] && ':' !in o.scheme && '/' !in o.scheme && o.authority != [] && '/' !in o.authority
  }

  function OriginText(o: Origin): (s: string)
    ensures ValidOrigin(o) ==> s != [] && s[|s| - 1] != '/'
  {
    var s := o.scheme + "://" + o.authority;
    if ValidOrigin(o) then
      assert s[|s| - 1] == o.authority[|o.authority| - 1];
      s
    else s
  }

  /**
   An absolute URL as the host's parser splits it: the origin and the path,
   which is empty or starts with `/`. Queries and fragments play no part
   here.
   */
  datatype Url = Url(origin: Origin, path: string)

  predicate ValidUrl(u: Url) {
    ValidOrigin(u.origin) && (u.path == [] || u.path[0] == '/')
  }

  /** The URL written out again. */
  function Href(u: Url): string {
    OriginText(u.origin) + u.path
  }

  /**
   The directory part of a path (everything up to its last `/`), to which a
   relative reference without a leading `/` is appended.
   */
  function BaseDirectory(path: string): (d: string)
    ensures d <= path
    ensures d == [] || d[|d| - 1] == '/'
    ensures forall i | |d| <= i < |path| :: path[i] != '/'
    decreases |path|
  {
    if path == [] then []
    else if path[|path| - 1] == '/' then path
    else BaseDirectory(path[..|path| - 1])
  }

  /**
   A relative-path reference resolved against an absolute base. An empty
   reference keeps the base path whole (section 5.2.2 of RFC 3986), an
   empty base path being written `/` as the host writes it for http and
   https. A non-empty reference goes through the merge step of section
   5.2.3: a base with an empty path gives `/` and the reference, any other
   base keeps its origin and the directory part of its path. The reference
   is taken as a path: one whose first segment reads as a scheme, or that
   holds `?`, `#` or `\`, is parsed differently by the host. Dot segments
   are not removed.
   */
  function MergeRelative(base: Url, ref: string): (r: Url)
    requires ref == [] || ref[0] != '/'
    ensures r.origin == base.origin
    ensures ValidUrl(base) ==> ValidUrl(r) && r.path != []
    ensures ref == [] && base.path != [] ==> r == base
    ensures ref != [] ==> |ref| <= |r.path| && r.path[|r.path| - |ref|..] == ref
    ensures ref != [] && base.path != [] ==> r.path[..|r.path| - |ref|] <= base.path
  {
    if ref == [] then Url(base.origin, if base.path == [] then "/" else base.path)
    else if base.path == [] then Url(base.origin, "/" + ref)
    else Url(base.origin, BaseDirectory(base.path) + ref)
  }

  /** Adding the trailing slash to a URL's text adds it to the URL's path. */
  lemma TrailingSlashOnPath(u: Url)
    requires ValidUrl(u)
    ensures AddTrailingSlash(Href(u)) == Href(Url(u.origin, AddTrailingSlash(u.path)))
    ensures ValidUrl(Url(u.origin, AddTrailingSlash(u.path)))
  {
    if u.path == [] {
      assert Href(u) == OriginText(u.origin);
    }
  }

  /**
   With both fixes applied, resolving the path against the base gives the
   whole base text, a `/`, and the path: no segment of the base is lost.
   */
  lemma JoinKeepsBase(u: Url, path: string)
    requires ValidUrl(u)
    ensures var b := Url(u.origin, AddTrailingSlash(u.path));
            Href(MergeRelative(b, RemoveLeadingSlash(path))) == AddTrailingSlash(Href(u)) + RemoveLeadingSlash(path)
  {
    TrailingSlashOnPath(u);
    MergeIntoDirectory(u.origin, AddTrailingSlash(u.path), RemoveLeadingSlash(path));
  }

  /** Proof helper: a path ending in `/` is its own directory, so the reference is appended to it. */
  lemma MergeIntoDirectory(origin: Origin, dir: string, ref: string)
    requires dir != [] && dir[|dir| - 1] == '/'
    requires ref == [] || ref[0] != '/'
    ensures Href(MergeRelative(Url(origin, dir), ref)) == OriginText(origin) + dir + ref
  {
    var o := OriginText(origin);
    assert BaseDirectory(dir) == dir;
    assert o + (dir + ref) == o + dir + ref;
  }

  /**
   Without the trailing slash the base's last segment is lost:
   `https://h/dir/api` with `v1` resolves to `https://h/dir/v1`, where the
   slash-terminated base keeps `api`. An empty path keeps the base whole,
   `https://h/dir/api`, which still differs from `https://h/dir/api/`.
   */
  lemma LastSegmentLostWithoutSlash(origin: Origin, dir: string, last: string, ref: string)
    requires ValidUrl(Url(origin, dir))
    requires '/' !in last && (ref == [] || ref[0] != '/')
    ensures var u := Url(origin, dir + "/" + last);
            && (ref != [] ==> MergeRelative(u, ref) == Url(origin, dir + "/" + ref))
            && (ref == [] ==> MergeRelative(u, ref) == u)
            && (last != [] ==> Href(MergeRelative(u, ref)) != Href(MergeRelative(Url(origin, AddTrailingSlash(u.path)), ref)))
  {
    var path := dir + "/" + last;
    DirectoryOfLast(dir, last);
    if last != [] {
      assert path[|path| - 1] == last[|last| - 1];
      var kept := MergeRelative(Url(origin, AddTrailingSlash(path)), ref);
      assert kept.path == path + "/" + ref;
      assert |Href(kept)| == |OriginText(origin)| + |path| + 1 + |ref|;
    }
  }

  /** Proof helper: the directory of `dir/last` is `dir/`. */
  lemma DirectoryOfLast(dir: string, last: string)
    requires '/' !in last
    ensures BaseDirectory(dir + "/" + last) == dir + "/"
  {
    var path := dir + "/" + last;
    var d := BaseDirectory(path);
    assert path[|dir|] == '/';
    assert |d| > |dir|;
    assert d == path[..|dir| + 1] == dir + "/";
  }

  /** A base with only an origin resolves the same with or without the trailing slash: the path starts at `/`. */
  lemma {:induction false} OriginOnlyBase(origin: Origin, ref: string)
    requires ValidOrigin(origin)
    requires ref == [] || ref[0] != '/'
    ensures Href(MergeRelative(Url(origin, []), ref)) == Href(MergeRelative(Url(origin, "/"), ref))
    ensures Href(MergeRelative(Url(origin, []), ref)) == OriginText(origin) + "/" + ref
  {
    assert BaseDirectory("/") == "/";
  }

  /**
   The template `/` leaves an empty path: `https://h/dir/api` then stays
   itself, and the slash-terminated base stays `https://h/dir/api/`.
   */
  lemma EmptyPathExample()
    ensures var o := Origin("https", "h");
            && MergeRelative(Url(o, "/dir/api"), "") == Url(o, "/dir/api")
            && Href(MergeRelative(Url(o, AddTrailingSlash("/dir/api")), RemoveLeadingSlash("/"))) == "https://h/dir/api/"
  {
    assert "/"[1..] == [];
  }

  /** The documented example: a base with a path and an absolute request path. */
  lemma BaseWithPathExample(host: string, api: string, rest: string)
    requires rest == [] || rest[0] != '/'
    requires |api| > 0 && api[|api| - 1] != '/'
    ensures AddTrailingSlash(host + api) + RemoveLeadingSlash("/" + rest) == host + api + "/" + rest
  {
    assert ("/" + rest)[1..] == rest;
  }
}

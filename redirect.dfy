/** The redirect handler of internal/http-server/handlers/redirect/redirect.go.

    Serve is the handler as a function of the request (the alias route
    parameter and the request path), the cache's contents, whether the cache
    server answers, and the reply URLGetter.GetURL gives for the alias if it is
    asked. It returns the outcome, the calls made to the two collaborators in
    order, and the cache afterwards. ServeRedirect is the handler run against a
    Storage and a Cache object, and is proved to do what Serve says. */
module Redirect {
  import opened Errors
  import opened Postgres
  import opened RedisCache

  /** What the client gets: a 302 to the URL, the 404 page of http.NotFound,
      or a JSON body {"status": "Error", "error": msg}. */
  datatype Outcome = Redirect(url: string) | StaticNotFound | JsonError(msg: string)

  /** A call on one of the handler's collaborators. */
  datatype Call = CacheGet(key: string) | GetURL(alias: string) | CacheSet(key: string, value: string, ttl: int)

  /** Whether the cache server answers the Get and the Set of this request. */
  datatype Env = Env(cacheGet: CacheFault, cacheSet: CacheFault)

  datatype Response = Response(outcome: Outcome, calls: seq<Call>, cache: map<string, Entry>)

  predicate EndsWith(s: string, suffix: string)
  {
    |suffix| <= |s| && s[|s| - |suffix|..] == suffix
  }

  /** The static-asset filter: the last four characters of the path compared
      with each extension in turn. */
  predicate IsStaticAssetPath(path: string)
    ensures IsStaticAssetPath(path) ==> |path| > 4 && path[|path| - 4] == '.'
  {
    |path| > 4 &&
    var ext := path[|path| - 4..];
    ext == ".css" || ext == ".js" || ext == ".png" || ext == ".jpg" || ext == ".ico"
  }

  /** The filter removes exactly the paths longer than four characters that
      end in one of the four-character extensions; ".js" plays no part. */
  lemma StaticFilterIff(path: string)
    ensures IsStaticAssetPath(path) <==>
      |path| > 4 &&
      (EndsWith(path, ".css") || EndsWith(path, ".png") || EndsWith(path, ".jpg") || EndsWith(path, ".ico"))
  {
    if |path| > 4 {
      assert |path[|path| - 4..]| == 4;
    }
  }

  /** A four-character suffix never equals the three-character ".js", so a
      path ending in ".js" is never filtered. */
  lemma JsPathsPassFilter(path: string)
    requires EndsWith(path, ".js")
    ensures !IsStaticAssetPath(path)
  {
    if |path| > 4 {
      var ext := path[|path| - 4..];
      assert ext[2] == path[|path| - 2] == ".js"[1] == 'j';
      assert ext[3] == path[|path| - 1] == ".js"[2] == 's';
    }
  }

  function Serve(alias: string, path: string, cache: map<string, Entry>, env: Env, stored: Result<string>): (r: Response)
    ensures r.calls == [] || r.calls[0] == CacheGet(alias)
    ensures r.outcome.Redirect? && |r.calls| > 1 ==> stored == Ok(r.outcome.url)
  {
    if alias == "" then
      Response(JsonError("invalid request"), [], cache)
    else if IsStaticAssetPath(path) then
      Response(StaticNotFound, [], cache)
    else
      match Lookup(cache, alias, env.cacheGet)
      case Hit(url) => Response(Redirect(url), [CacheGet(alias)], cache)
      case _ =>
        // redis.Nil and every other cache error alike fall through to the store
        var asked := [CacheGet(alias), GetURL(alias)];
        match stored
        case Err(e) =>
          if Is(e, ErrURLNotFound) then Response(JsonError("not found"), asked, cache)
          else Response(JsonError("internal error"), asked, cache)
        case Ok(url) =>
          // a failing Set is logged and does not change the outcome
          Response(Redirect(url), asked + [CacheSet(alias, url, CacheTTL)],
                   Stored(cache, alias, url, CacheTTL, env.cacheSet))
  }

  /** The handler returned by New, run against the store and the cache. */
  method ServeRedirect(alias: string, path: string, urlGetter: Storage, urlCache: Cache, env: Env, storeFault: DbFault)
    returns (outcome: Outcome, calls: seq<Call>)
    modifies urlCache
    ensures Response(outcome, calls, urlCache.entries)
         == Serve(alias, path, old(urlCache.entries), env, Select(urlGetter.State(), alias, storeFault))
  {
    if alias == "" {
      return JsonError("invalid request"), [];
    }
    if IsStaticAssetPath(path) {
      return StaticNotFound, [];
    }
    var cached := urlCache.Get(alias, env.cacheGet);
    calls := [CacheGet(alias)];
    if cached.Hit? {
      return Redirect(cached.value), calls;
    }
    var res := urlGetter.GetURL(alias, storeFault);
    calls := calls + [GetURL(alias)];
    if res.Err? && Is(res.error, ErrURLNotFound) {
      return JsonError("not found"), calls;
    }
    if res.Err? {
      return JsonError("internal error"), calls;
    }
    var setErr := urlCache.Set(alias, res.value, CacheTTL, env.cacheSet);
    calls := calls + [CacheSet(alias, res.value, CacheTTL)];
    return Redirect(res.value), calls;
  }

  /** An empty alias is answered "invalid request" and neither collaborator
      is called. */
  lemma EmptyAliasRejected(path: string, cache: map<string, Entry>, env: Env, stored: Result<string>)
    ensures Serve("", path, cache, env, stored) == Response(JsonError("invalid request"), [], cache)
  {
  }

  /** A static-asset path is answered not-found before the cache or the store
      is asked; a path of at most four characters is never filtered. */
  lemma StaticPathNotLookedUp(alias: string, path: string, cache: map<string, Entry>, env: Env, stored: Result<string>)
    requires alias != ""
    ensures var r := Serve(alias, path, cache, env, stored);
      (r.outcome == StaticNotFound <==> IsStaticAssetPath(path)) &&
      (r.calls == [] <==> IsStaticAssetPath(path)) &&
      (IsStaticAssetPath(path) ==> r.cache == cache) &&
      (|path| <= 4 ==> r.calls != [])
  {
  }

  /** "/app.js" is not filtered: the request goes on to the cache. */
  lemma AppJsIsLookedUp(alias: string, cache: map<string, Entry>, env: Env, stored: Result<string>)
    requires alias != ""
    ensures var r := Serve(alias, "/app.js", cache, env, stored);
      r.outcome != StaticNotFound && |r.calls| >= 1 && r.calls[0] == CacheGet(alias)
  {
    JsPathsPassFilter("/app.js");
  }

  /** On a cache hit the handler redirects to the cached value; the store is
      not called and the cache is not written. */
  lemma CacheHitServed(alias: string, path: string, cache: map<string, Entry>, env: Env, stored: Result<string>)
    requires alias != "" && !IsStaticAssetPath(path)
    requires env.cacheGet.Up? && alias in cache
    ensures Serve(alias, path, cache, env, stored)
         == Response(Redirect(cache[alias].value), [CacheGet(alias)], cache)
  {
  }

  /** A cache error that is not a miss is handled exactly as a miss: same
      outcome, same calls. */
  lemma CacheErrorActsAsMiss(alias: string, path: string, cache: map<string, Entry>, msg: string, setFault: CacheFault, stored: Result<string>)
    ensures var failed := Serve(alias, path, cache, Env(Down(msg), setFault), stored);
      var missed := Serve(alias, path, cache - {alias}, Env(Up, setFault), stored);
      failed.outcome == missed.outcome && failed.calls == missed.calls
  {
  }

  /** After a cache miss or error, a store error decides between "not found"
      (an error whose root cause is ErrURLNotFound, however wrapped) and
      "internal error"; the cache is
      left as it was. */
  lemma StoreErrorAnswered(alias: string, path: string, cache: map<string, Entry>, env: Env, e: Error)
    requires alias != "" && !IsStaticAssetPath(path)
    requires !Lookup(cache, alias, env.cacheGet).Hit?
    ensures var r := Serve(alias, path, cache, env, Err(e));
      r.outcome == JsonError(if Root(e) == ErrURLNotFound then "not found" else "internal error") &&
      r.calls == [CacheGet(alias), GetURL(alias)] &&
      r.cache == cache
  {
    IsSentinelIffRoot(e, ErrURLNotFound);
  }

  /** After a cache miss or error, a URL from the store is written back under
      the alias with the fixed five-minute expiry and is the redirect target,
      whether or not the write succeeds. */
  lemma StoreHitWrittenBack(alias: string, path: string, cache: map<string, Entry>, env: Env, url: string)
    requires alias != "" && !IsStaticAssetPath(path)
    requires !Lookup(cache, alias, env.cacheGet).Hit?
    ensures var r := Serve(alias, path, cache, env, Ok(url));
      r.outcome == Redirect(url) &&
      r.calls == [CacheGet(alias), GetURL(alias), CacheSet(alias, url, 5 * Minute)] &&
      (env.cacheSet.Up? ==> r.cache == cache[alias := Entry(url, 5 * Minute)]) &&
      (env.cacheSet.Down? ==> r.cache == cache)
  {
  }
}

/** The two handlers working on one store and one cache.

    The cache is never the source of truth: every entry it holds is the URL
    the table stores for that alias. Saving, redirecting and expiring entries
    all keep this, so a redirect always goes where the table says. */
module Service {
  import opened Postgres
  import opened RedisCache
  import opened Redirect
  import opened Save

  /** Every cached alias is stored, with the same URL. */
  ghost predicate Coherent(cache: map<string, Entry>, t: Table)
  {
    forall k :: k in cache ==> k in t.rows && cache[k].value == t.rows[k].url
  }

  /** A redirect request keeps the cache coherent with the store, and any
      redirect it answers goes to the URL the store holds for the alias. */
  lemma ServeKeepsCoherent(alias: string, path: string, cache: map<string, Entry>, t: Table, env: Env, fault: DbFault)
    requires Coherent(cache, t)
    ensures var r := Serve(alias, path, cache, env, Select(t, alias, fault));
      Coherent(r.cache, t) &&
      (r.outcome.Redirect? ==> alias in t.rows && r.outcome.url == t.rows[alias].url)
  {
  }

  /** A save request keeps the schema and the cache's coherence with the store. */
  lemma SaveKeepsCoherent(req: Request, urlValid: bool, generated: string, t: Table,
                          cache: map<string, Entry>, dbFault: DbFault, setFault: CacheFault)
    requires Schema(t) && Coherent(cache, t)
    ensures var r := HandleSave(req, urlValid, generated, t, cache, dbFault, setFault);
      Schema(r.table) && Coherent(r.cache, r.table)
  {
    var r := HandleSave(req, urlValid, generated, t, cache, dbFault, setFault);
    if req.url != "" && urlValid {
      var alias := ChosenAlias(req, generated);
      InsertKeepsSchema(t, req.url, alias, dbFault);
      if r.outcome.Saved? {
        InsertAddsOneRow(t, req.url, alias);
        forall k | k in r.cache
          ensures k in r.table.rows && r.cache[k].value == r.table.rows[k].url
        {
          if k != alias {
            assert k in cache;
          }
        }
      }
    }
  }

  /** Dropping an entry, by expiry or eviction, keeps the cache coherent. */
  lemma ExpireKeepsCoherent(cache: map<string, Entry>, t: Table, key: string)
    requires Coherent(cache, t)
    ensures Coherent(cache - {key}, t)
  {
  }

  /** Save followed by GET /{alias}: the redirect goes to the saved URL,
      whether it is served from the cache or from the store, unless the path
      "/" + alias itself looks like a static asset. The save handler accepts
      such an alias, but the redirect handler answers it not-found for ever. */
  lemma SaveThenResolve(req: Request, generated: string, t: Table, cache: map<string, Entry>,
                        setFault: CacheFault, env: Env)
    requires Schema(t) && Coherent(cache, t)
    requires req.url != "" && t.nextId <= MaxSerial
    requires ChosenAlias(req, generated) != "" && ChosenAlias(req, generated) !in t.rows
    ensures var alias := ChosenAlias(req, generated);
      var s := HandleSave(req, true, generated, t, cache, NoFault, setFault);
      s.outcome == Saved(alias) &&
      Serve(alias, "/" + alias, s.cache, env, Select(s.table, alias, NoFault)).outcome
        == (if IsStaticAssetPath("/" + alias) then StaticNotFound else Redirect(req.url))
  {
    var alias := ChosenAlias(req, generated);
    ValidRequestOutcomes(req, generated, t, cache, NoFault, setFault);
    SaveKeepsCoherent(req, true, generated, t, cache, NoFault, setFault);
    var s := HandleSave(req, true, generated, t, cache, NoFault, setFault);
    ServeKeepsCoherent(alias, "/" + alias, s.cache, s.table, env, NoFault);
    assert alias in s.table.rows && s.table.rows[alias].url == req.url;
  }

  /** The alias "logo.png" is saved, yet GET /logo.png never reaches the
      lookup: the static-asset filter answers it not-found. */
  lemma StaticAliasSavedButNeverResolved(t: Table, cache: map<string, Entry>, setFault: CacheFault, env: Env)
    requires Schema(t) && Coherent(cache, t)
    requires t.nextId <= MaxSerial && "logo.png" !in t.rows
    ensures var req := Request("https://example.com", "logo.png");
      var s := HandleSave(req, true, "", t, cache, NoFault, setFault);
      s.outcome == Saved("logo.png") &&
      Select(s.table, "logo.png", NoFault).Ok? && Select(s.table, "logo.png", NoFault).value == "https://example.com" &&
      Serve("logo.png", "/logo.png", s.cache, env, Select(s.table, "logo.png", NoFault)).outcome == StaticNotFound
  {
    var req := Request("https://example.com", "logo.png");
    SaveThenResolve(req, "", t, cache, setFault, env);
    assert "/logo.png"[|"/logo.png"| - 4..] == ".png";
  }

  /** Saving a second time under the same alias is refused as a conflict, and
      GET /{alias} still redirects to the first URL (unless "/" + alias looks
      like a static asset, as in SaveThenResolve). */
  lemma SecondSaveConflicts(req: Request, req2: Request, generated: string, generated2: string,
                            t: Table, cache: map<string, Entry>, setFault: CacheFault, setFault2: CacheFault,
                            env: Env)
    requires Schema(t) && Coherent(cache, t)
    requires req.url != "" && req2.url != "" && t.nextId < MaxSerial
    requires ChosenAlias(req, generated) != "" && ChosenAlias(req, generated) !in t.rows
    requires ChosenAlias(req2, generated2) == ChosenAlias(req, generated)
    ensures var alias := ChosenAlias(req, generated);
      var s := HandleSave(req, true, generated, t, cache, NoFault, setFault);
      var s2 := HandleSave(req2, true, generated2, s.table, s.cache, NoFault, setFault2);
      s2.outcome == SaveError("url already exists") &&
      Urls(s2.table) == Urls(s.table) &&
      Serve(alias, "/" + alias, s2.cache, env, Select(s2.table, alias, NoFault)).outcome
        == (if IsStaticAssetPath("/" + alias) then StaticNotFound else Redirect(req.url))
  {
    var alias := ChosenAlias(req, generated);
    ValidRequestOutcomes(req, generated, t, cache, NoFault, setFault);
    SaveKeepsCoherent(req, true, generated, t, cache, NoFault, setFault);
    var s := HandleSave(req, true, generated, t, cache, NoFault, setFault);
    InsertAddsOneRow(t, req.url, alias);
    ValidRequestOutcomes(req2, generated2, s.table, s.cache, NoFault, setFault2);
    SaveKeepsCoherent(req2, true, generated2, s.table, s.cache, NoFault, setFault2);
    var s2 := HandleSave(req2, true, generated2, s.table, s.cache, NoFault, setFault2);
    ServeKeepsCoherent(alias, "/" + alias, s2.cache, s2.table, env, NoFault);
    assert Urls(s2.table) == Urls(s.table);
    assert alias in s2.table.rows && s2.table.rows[alias].url == req.url;
  }

  /** An alias that was never saved is answered "not found" when the store
      answers, whatever the cache does. */
  lemma NeverSavedNotFound(alias: string, path: string, cache: map<string, Entry>, t: Table, env: Env)
    requires Coherent(cache, t)
    requires alias != "" && alias !in t.rows && !IsStaticAssetPath(path)
    ensures Serve(alias, path, cache, env, Select(t, alias, NoFault)).outcome == JsonError("not found")
  {
    assert alias !in cache;
  }

  /** Within the expiry window GET /{alias} for a saved alias is served from
      the cache without asking the store; once its entry has expired the store
      is asked and the entry is written back for another five minutes. An
      alias whose path looks like a static asset never reaches the cache
      (StaticAliasSavedButNeverResolved), so it is excluded here. */
  lemma CacheServesAfterSave(req: Request, generated: string, t: Table, cache: map<string, Entry>)
    requires Schema(t) && req.url != "" && t.nextId <= MaxSerial
    requires ChosenAlias(req, generated) != "" && ChosenAlias(req, generated) !in t.rows
    requires !IsStaticAssetPath("/" + ChosenAlias(req, generated))
    ensures var alias := ChosenAlias(req, generated);
      var s := HandleSave(req, true, generated, t, cache, NoFault, Up);
      var hot := Serve(alias, "/" + alias, s.cache, Env(Up, Up), Select(s.table, alias, NoFault));
      var cold := Serve(alias, "/" + alias, s.cache - {alias}, Env(Up, Up), Select(s.table, alias, NoFault));
      hot.outcome == Redirect(req.url) && hot.calls == [CacheGet(alias)] &&
      cold.outcome == Redirect(req.url) && GetURL(alias) in cold.calls &&
      cold.cache == s.cache
  {
    var alias := ChosenAlias(req, generated);
    ValidRequestOutcomes(req, generated, t, cache, NoFault, Up);
    var s := HandleSave(req, true, generated, t, cache, NoFault, Up);
    InsertAddsOneRow(t, req.url, alias);
    assert s.cache[alias] == Entry(req.url, CacheTTL);
    assert (s.cache - {alias})[alias := Entry(req.url, CacheTTL)] == s.cache;
  }

  /** One request on the shared table and cache, with what its environment
      does: the save handler's validator verdict and generated alias, and
      whether the database and the cache server answer. */
  datatype Op =
    | SaveReq(req: Request, urlValid: bool, generated: string, dbFault: DbFault, setFault: CacheFault)
    | RedirectReq(alias: string, path: string, env: Env, dbFault: DbFault)
    | Expiry(key: string)

  datatype World = World(table: Table, cache: map<string, Entry>)

  function Step(w: World, op: Op): World
  {
    match op
    case SaveReq(req, urlValid, generated, dbFault, setFault) =>
      var r := HandleSave(req, urlValid, generated, w.table, w.cache, dbFault, setFault);
      World(r.table, r.cache)
    case RedirectReq(alias, path, env, dbFault) =>
      World(w.table, Serve(alias, path, w.cache, env, Select(w.table, alias, dbFault)).cache)
    case Expiry(key) =>
      World(w.table, w.cache - {key})
  }

  /** The requests handled one after another. */
  function Run(w: World, ops: seq<Op>): World
    decreases |ops|
  {
    if ops == [] then w else Run(Step(w, ops[0]), ops[1..])
  }

  /** The schema holds and the cache agrees with the table. */
  ghost predicate Consistent(w: World)
  {
    Schema(w.table) && Coherent(w.cache, w.table)
  }

  /** Rows are never updated or deleted: t2 holds every row of t unchanged. */
  ghost predicate Extends(t: Table, t2: Table)
  {
    forall a :: a in t.rows ==> a in t2.rows && t2.rows[a] == t.rows[a]
  }

  lemma StepKeepsConsistent(w: World, op: Op)
    requires Consistent(w)
    ensures Consistent(Step(w, op)) && Extends(w.table, Step(w, op).table)
  {
    match op
    case SaveReq(req, urlValid, generated, dbFault, setFault) =>
      SaveKeepsCoherent(req, urlValid, generated, w.table, w.cache, dbFault, setFault);
    case RedirectReq(alias, path, env, dbFault) =>
      ServeKeepsCoherent(alias, path, w.cache, w.table, env, dbFault);
    case Expiry(key) =>
  }

  /** Any sequence of saves, redirects and expiries keeps the schema and the
      cache's agreement with the table, and never changes a stored row. */
  lemma {:induction false} RunKeepsConsistent(w: World, ops: seq<Op>)
    requires Consistent(w)
    ensures Consistent(Run(w, ops)) && Extends(w.table, Run(w, ops).table)
    decreases |ops|
  {
    if ops != [] {
      var next := Step(w, ops[0]);
      StepKeepsConsistent(w, ops[0]);
      RunKeepsConsistent(next, ops[1..]);
    }
  }

  /** Whatever requests came before, a redirect goes to the URL the table
      holds for the alias, and an alias saved earlier keeps redirecting to the
      URL it was first saved with. */
  lemma RedirectAfterAnyRun(w: World, ops: seq<Op>, alias: string, path: string, env: Env, dbFault: DbFault)
    requires Consistent(w)
    ensures var last := Run(w, ops);
      var r := Serve(alias, path, last.cache, env, Select(last.table, alias, dbFault));
      r.outcome.Redirect? ==>
        alias in last.table.rows && r.outcome.url == last.table.rows[alias].url &&
        (alias in w.table.rows ==> r.outcome.url == w.table.rows[alias].url)
  {
    var last := Run(w, ops);
    RunKeepsConsistent(w, ops);
    ServeKeepsCoherent(alias, path, last.cache, last.table, env, dbFault);
  }
}

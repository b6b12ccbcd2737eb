/** The save handler (POST /url), as far as its tests pin it down.

    Only the handler's observable contract is modelled: the validation
    messages, the mapping of store errors to messages, and the cache write on
    success. The URL validator and the random alias generator are parameters:
    `urlValid` is the validator's verdict on a non-empty URL and `generated`
    is the alias it would draw when the request carries none. */
module Save {
  import opened Errors
  import opened Postgres
  import opened RedisCache

  datatype Request = Request(url: string, alias: string)

  datatype SaveOutcome = Saved(alias: string) | SaveError(msg: string)

  datatype SaveResponse = SaveResponse(outcome: SaveOutcome, table: Table, cache: map<string, Entry>)

  /** The alias the mapping is stored under. */
  function ChosenAlias(req: Request, generated: string): (alias: string)
    ensures req.alias != "" ==> alias == req.alias
    ensures alias == "" <==> req.alias == "" && generated == ""
  {
    if req.alias == "" then generated else req.alias
  }

  function HandleSave(req: Request, urlValid: bool, generated: string, t: Table,
                      cache: map<string, Entry>, dbFault: DbFault, setFault: CacheFault): (r: SaveResponse)
    ensures r.outcome.Saved? ==> r.outcome.alias == ChosenAlias(req, generated)
    ensures r.cache != cache ==> r.outcome.Saved?
  {
    if req.url == "" then
      SaveResponse(SaveError("field URL is a required field"), t, cache)
    else if !urlValid then
      SaveResponse(SaveError("field URL is not a valid URL"), t, cache)
    else
      var alias := ChosenAlias(req, generated);
      var ins := Insert(t, req.url, alias, dbFault);
      match ins.err
      case Some(e) =>
        if Is(e, ErrURLExists) then SaveResponse(SaveError("url already exists"), ins.table, cache)
        else SaveResponse(SaveError("failed to add url"), ins.table, cache)
      case None =>
        // best effort: a failing Set does not change the response
        SaveResponse(Saved(alias), ins.table, Stored(cache, alias, req.url, CacheTTL, setFault))
  }

  /** A missing or invalid URL is refused with the validator's message before
      the store or the cache is touched. */
  lemma InvalidRequestHasNoEffect(req: Request, urlValid: bool, generated: string, t: Table,
                                  cache: map<string, Entry>, dbFault: DbFault, setFault: CacheFault)
    requires req.url == "" || !urlValid
    ensures var r := HandleSave(req, urlValid, generated, t, cache, dbFault, setFault);
      r.table == t && r.cache == cache &&
      r.outcome == SaveError(if req.url == "" then "field URL is a required field" else "field URL is not a valid URL")
  {
  }

  /** A valid request ends in exactly one of: saved (the mapping is added and
      offered to the cache for five minutes), "url already exists" (the alias
      was taken), or "failed to add url" (any other store error); the two
      failures leave the mapping and the cache unchanged. */
  lemma ValidRequestOutcomes(req: Request, generated: string, t: Table,
                             cache: map<string, Entry>, dbFault: DbFault, setFault: CacheFault)
    requires Schema(t) && req.url != ""
    ensures var alias := ChosenAlias(req, generated);
      var r := HandleSave(req, true, generated, t, cache, dbFault, setFault);
      var stores := dbFault.NoFault? && t.nextId <= MaxSerial;
      (r.outcome == Saved(alias) <==> stores && alias !in t.rows) &&
      (r.outcome == SaveError("url already exists") <==> stores && alias in t.rows) &&
      (r.outcome == SaveError("failed to add url") <==> !stores) &&
      (r.outcome.Saved? ==>
         Urls(r.table) == Urls(t)[alias := req.url] &&
         r.cache == Stored(cache, alias, req.url, 5 * Minute, setFault)) &&
      (r.outcome.SaveError? ==> Urls(r.table) == Urls(t) && r.cache == cache)
  {
    var alias := ChosenAlias(req, generated);
    if dbFault.NoFault? && t.nextId <= MaxSerial && alias !in t.rows {
      InsertAddsOneRow(t, req.url, alias);
    }
  }
}

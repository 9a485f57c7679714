/**
 The `DELETE /url/{alias}` handler: reject an empty alias, otherwise ask the
 injected `URLDeleter` to delete the alias, and classify its error as
 "not found", an opaque internal error, or success.

 The handler is a pure function of the alias taken from the path and of the
 deleter, which stays an uninterpreted function: the store behind it is not
 part of this model.
 */
module Remove {
  import opened Wrappers
  import GoErrors

  type Alias = string

  /** The injected `URLDeleter` collaborator: what `DeleteURL(alias)`
      returns, `None` being a nil error. */
  type Deleter = Alias -> Option<GoErrors.Error>

  /** net/http's default status: the handler never writes one of its own.
      `render.JSON` writes a status only when one was stored in the request
      context, and `render.Status` only stores one without writing it, so
      every response the handler produces carries this status. */
  const StatusOK: int := 200

  /** The `error` texts of the JSON bodies the handler renders. */
  const MsgEmptyAlias: string := "empty alias"
  const MsgNotFound: string := "not found"
  const MsgInternal: string := "internal error"

  /** The slog level a record is written at. */
  datatype Level = LevelInfo | LevelError

  /** The one log record a request emits: its level and message, and the
      alias or the deleter's error attached to it. */
  datatype LogEntry = LogEntry(level: Level, msg: string, alias: Option<Alias>, cause: Option<GoErrors.Error>)

  /** What the client receives: the status and, for a refused request, the
      `error` field of the JSON body; `None` is an empty body. */
  datatype Response = Response(status: int, error: Option<string>)

  /** One handled request: the arguments `DeleteURL` was called with, in
      call order, the response, and the log record. */
  datatype Outcome = Outcome(calls: seq<Alias>, response: Response, log: LogEntry)

  /** The four outcomes of a delete request. */
  datatype Branch = EmptyAlias | NotFound | InternalError | Deleted

  /** The outcome a delete request must have: an empty alias is refused
      before the store is touched; a not-found anywhere in the deleter's
      error tree is reported as such; any other error is a server fault;
      a nil error is a successful delete. Stated with the unwrap-tree
      reference rather than with `errors.Is`. */
  ghost function Required(alias: Alias, err: Option<GoErrors.Error>): Branch
  {
    if alias == "" then EmptyAlias
    else match err
      case None => Deleted
      case Some(e) => if GoErrors.InTree(e, GoErrors.ErrURLNotFound) then NotFound else InternalError
  }

  /** The outcome a client reads off a response: an empty body is success,
      otherwise the `error` text names the refusal. */
  function Reported(r: Response): Option<Branch>
  {
    match r.error
    case None => Some(Deleted)
    case Some(m) =>
      if m == MsgEmptyAlias then Some(EmptyAlias)
      else if m == MsgNotFound then Some(NotFound)
      else if m == MsgInternal then Some(InternalError)
      else None
  }

  /** The handler `New` returns, applied to one request. */
  function Handle(alias: Alias, deleter: Deleter): (o: Outcome)
    // an empty alias never reaches the deleter; any other is passed to it exactly once
    ensures alias == "" ==> o.calls == []
    ensures alias != "" ==> o.calls == [alias]
    // no branch sets a status of its own
    ensures o.response.status == StatusOK
    // the client can tell which of the four outcomes happened, and it is the required one
    ensures Reported(o.response) == Some(Required(alias, deleter(alias)))
    // the body only ever carries one of the fixed texts, never the deleter's error
    ensures o.response.error.Some? ==> o.response.error.value in {MsgEmptyAlias, MsgNotFound, MsgInternal}
    // only a server fault is logged as an error, and it is logged with its cause
    ensures o.log.level == LevelError <==> Required(alias, deleter(alias)) == InternalError
    ensures o.log.level == LevelError ==> o.log.cause == deleter(alias)
  {
    if alias == "" then
      Outcome([], Response(StatusOK, Some(MsgEmptyAlias)), LogEntry(LevelInfo, "empty alias", None, None))
    else
      var err := deleter(alias);
      GoErrors.IsIffInTree(err, GoErrors.ErrURLNotFound);
      if GoErrors.Is(err, GoErrors.ErrURLNotFound) then
        Outcome([alias], Response(StatusOK, Some(MsgNotFound)), LogEntry(LevelInfo, "url not found", Some(alias), None))
      else if err.Some? then
        Outcome([alias], Response(StatusOK, Some(MsgInternal)), LogEntry(LevelError, "failed to delete url by alias", None, err))
      else
        Outcome([alias], Response(StatusOK, None), LogEntry(LevelInfo, "url deleted", Some(alias), None))
  }

  /** The response depends on nothing but the outcome: two requests get the
      same response exactly when they have the same outcome. In particular
      an internal error looks the same whatever the deleter's error was. */
  lemma ResponseDeterminedByBranch(a1: Alias, d1: Deleter, a2: Alias, d2: Deleter)
    ensures Handle(a1, d1).response == Handle(a2, d2).response
        <==> Required(a1, d1(a1)) == Required(a2, d2(a2))
  {
    var r1, r2 := Handle(a1, d1).response, Handle(a2, d2).response;
    if Required(a1, d1(a1)) == Required(a2, d2(a2)) {
      assert r1.error == r2.error by {
        assert Reported(r1) == Reported(r2);
      }
    }
  }

  /** An empty alias is answered without consulting the deleter. */
  lemma EmptyAliasIgnoresDeleter(d1: Deleter, d2: Deleter)
    ensures Handle("", d1) == Handle("", d2)
    ensures Handle("", d1).response.error == Some(MsgEmptyAlias)
  {
  }

  /** The store's not-found sentinel is recognised however many layers of
      `fmt.Errorf("%s: %w", ...)` wrap it on its way up. */
  lemma NotFoundSurvivesWrapping(alias: Alias, deleter: Deleter, prefixes: seq<string>)
    requires alias != ""
    requires deleter(alias) == Some(GoErrors.WrapChain(GoErrors.Sentinel(GoErrors.ErrURLNotFound), prefixes))
    ensures Handle(alias, deleter).response.error == Some(MsgNotFound)
    ensures Handle(alias, deleter).log.level == LevelInfo
  {
    var e := GoErrors.WrapChain(GoErrors.Sentinel(GoErrors.ErrURLNotFound), prefixes);
    GoErrors.WrapChainPreservesMatches(GoErrors.Sentinel(GoErrors.ErrURLNotFound), prefixes, GoErrors.ErrURLNotFound);
    GoErrors.IsIffInTree(Some(e), GoErrors.ErrURLNotFound);
  }

  /** The not-found test comes before the generic non-nil test: an error
      that joins a not-found with any other errors is reported as
      "not found", never as an internal error. */
  lemma NotFoundPrecedesInternal(alias: Alias, deleter: Deleter, errs: seq<GoErrors.Error>, i: nat)
    requires alias != ""
    requires i < |errs| && errs[i] == GoErrors.Sentinel(GoErrors.ErrURLNotFound)
    requires deleter(alias) == Some(GoErrors.Joined(errs))
    ensures Handle(alias, deleter).response.error == Some(MsgNotFound)
    ensures Handle(alias, deleter).response.error != Some(MsgInternal)
  {
    assert GoErrors.Follow(GoErrors.Joined(errs), [i]) == Some(errs[i]) by {
      assert [i][1..] == [];
    }
    assert GoErrors.InTree(GoErrors.Joined(errs), GoErrors.ErrURLNotFound);
  }

  /** An error that is not the store's not-found, such as an ad-hoc
      `errors.New` whose text happens to read like it, is a server fault. */
  lemma LookalikeIsInternal(alias: Alias, deleter: Deleter, text: string, prefixes: seq<string>)
    requires alias != ""
    requires deleter(alias) == Some(GoErrors.WrapChain(GoErrors.Plain(text), prefixes))
    ensures Handle(alias, deleter).response.error == Some(MsgInternal)
    ensures Handle(alias, deleter).log == LogEntry(LevelError, "failed to delete url by alias", None, deleter(alias))
  {
    GoErrors.WrapChainPreservesMatches(GoErrors.Plain(text), prefixes, GoErrors.ErrURLNotFound);
    GoErrors.IsIffInTree(deleter(alias), GoErrors.ErrURLNotFound);
  }

  /** The handler's unit-test table, with the mock deleter as a function:
      for "test_alias" the mock expects exactly one call with that alias and
      the status is 200 whether it returns nil or an unexpected error; for
      the empty alias no call is expected. */
  lemma DeleteHandlerTestTable(ok: Deleter, failing: Deleter)
    requires ok("test_alias") == None
    requires failing("test_alias") == Some(GoErrors.Plain("unexpected error"))
    ensures Handle("test_alias", ok).calls == ["test_alias"]
    ensures Handle("test_alias", ok).response == Response(StatusOK, None)
    ensures Handle("test_alias", failing).calls == ["test_alias"]
    ensures Handle("test_alias", failing).response == Response(StatusOK, Some(MsgInternal))
    ensures Handle("", ok).calls == [] && Handle("", failing).calls == []
  {
    GoErrors.IsIffInTree(failing("test_alias"), GoErrors.ErrURLNotFound);
  }
}

# URL shortener: the delete handler

A Dafny model of the `DELETE /url/{alias}` handler of the url-shortener
service (`internal/server/handlers/url/remove/remove.go`). The handler takes
the alias from the request path and an injected `URLDeleter`, and ends in
exactly one of four outcomes:

- an empty alias is refused with the JSON error `"empty alias"`;
- a deleter error that is, or wraps, the store's `ErrURLNotFound` gives `"not found"`;
- any other deleter error gives the opaque `"internal error"`;
- a nil error is a successful delete with an empty body.

Files:

- `wrappers.dfy`: `Option`, where `None` stands for Go's `nil`.
- `errors.dfy` (module `GoErrors`): Go error values as trees. The nodes are
  sentinels, ad-hoc `errors.New` leaves, `fmt.Errorf("%s: %w", ...)` wraps
  and multi-cause joins. It also has `errors.Is` (`Matches`/`Is`) and an
  independent reference for it: the sentinel is reachable along some path
  of the unwrap tree (`Follow`/`InTree`). Both directions of the
  equivalence are proved.
- `remove.dfy` (module `Remove`): the handler as a pure function
  `Handle(alias, deleter)`. The deleter is an uninterpreted function from
  alias to error. The result records the arguments `DeleteURL` was called
  with, the response (status and JSON `error` text) and the log record.
  `Required` states which outcome a request must have, using the unwrap-tree
  reference. `Reported` reads the outcome back off a response.
- `closure.dfy` (module `RemoveClosure`): the closure `New` returns, served
  over a run of requests. It models what the handler does to the logger it
  captures (see Findings).

Every response the handler produces has status 200. The error branches
call `render.JSON`, which writes a status only when one was stored in the
request context. The success branch calls `render.Status(r, 200)`, which
only stores a status and writes nothing. So net/http's implicit 200
applies throughout.

Three things about the handler that are easy to assume otherwise:

- The handler does not consult an authorization service before deleting.
  The only guard is the router's basic-auth middleware
  (`cmd/app/main.go:70-77`), which is not part of this model.
- Not-found and internal errors are not given distinct HTTP statuses. They
  differ only in the `error` text.
- The delete handler's empty-alias text is `"empty alias"`. The unit test's
  table carries `"field ALIAS is a required field"`, but the test never
  reads the body.

## Model

| member | source | states |
|---|---|---|
| GoErrors.Causes | internal/server/handlers/url/remove/remove.go:39 | the direct causes `errors.Is` descends into are strictly smaller errors; leaves have none; a wrap has exactly its one cause |
| GoErrors.Matches | internal/server/handlers/url/remove/remove.go:39 | computes `errors.Is` on a non-nil error: the error itself, then its single `Unwrap`, or each cause of a multi-cause error in order. Its meaning is stated by `GoErrors.MatchesIffInTree` |
| GoErrors.Is | internal/server/handlers/url/remove/remove.go:39 | computes `errors.Is(err, target)`, with a nil `err` never matching. Its meaning is stated by `GoErrors.IsIffInTree` |
| GoErrors.MatchesWitness | internal/server/handlers/url/remove/remove.go:39 | whenever `errors.Is` finds the sentinel, some path through the unwrap tree leads to it |
| GoErrors.FollowFindsMatch | internal/server/handlers/url/remove/remove.go:39 | whenever some path through the unwrap tree leads to the sentinel, `errors.Is` finds it |
| GoErrors.MatchesIffInTree | internal/server/handlers/url/remove/remove.go:39 | `errors.Is` on a non-nil error holds exactly when the sentinel occurs in its unwrap tree |
| GoErrors.IsIffInTree | internal/server/handlers/url/remove/remove.go:39 | `errors.Is(err, ErrURLNotFound)` holds exactly when `err` is non-nil and the sentinel occurs in its unwrap tree; a nil error never matches |
| GoErrors.WrapChainPreservesMatches | internal/clients/auth/grpc/grpc.go:66-68 | any number of `fmt.Errorf("%s: %w", fn, err)` layers neither hide nor invent a sentinel match |
| Remove.Handle | internal/server/handlers/url/remove/remove.go:22-54 | an empty alias never reaches the deleter; any other alias is passed to it exactly once, unchanged. The status is always 200. The response reports the one required outcome (empty alias, not found anywhere in the error tree, internal error, deleted). The body only ever carries one of three fixed texts. Only the internal-error case is logged at error level, together with the deleter's error |
| Remove.ResponseDeterminedByBranch | internal/server/handlers/url/remove/remove.go:31-52 | two requests get the same response exactly when they have the same outcome, so the deleter's error text never reaches the client |
| Remove.EmptyAliasIgnoresDeleter | internal/server/handlers/url/remove/remove.go:31-36 | for an empty alias the whole outcome is independent of the deleter, and the body is `"empty alias"` |
| Remove.NotFoundSurvivesWrapping | internal/server/handlers/url/remove/remove.go:38-43 | a not-found sentinel under any number of wrap layers is answered `"not found"` and logged at info level |
| Remove.NotFoundPrecedesInternal | internal/server/handlers/url/remove/remove.go:39-48 | an error that joins a not-found with arbitrary other errors is answered `"not found"`, never `"internal error"` |
| Remove.LookalikeIsInternal | internal/server/handlers/url/remove/remove.go:44-48 | a wrapped ad-hoc error is an internal error, whatever its text, and is logged at error level with that error attached |
| Remove.DeleteHandlerTestTable | internal/server/handlers/url/remove/remove_test.go:25-70 | the unit test's cases: a nil result or an unexpected error for "test_alias" each give one call with "test_alias" and status 200; the empty alias gives no call |
| RemoveClosure.AccumulatedLength | internal/server/handlers/url/remove/remove.go:26-29 | each request served attaches exactly two logger attributes |
| RemoveClosure.AccumulatedHasEveryId | internal/server/handlers/url/remove/remove.go:26-29 | the attributes a run of requests leaves on the logger name the id of every request in the run |
| RemoveClosure.StepAsWritten | internal/server/handlers/url/remove/remove.go:26-29 | one request in a run as written: it logs through the base attributes plus those of every request up to and including it, the closure keeps that logger, and the response is the handler's |
| RemoveClosure.EarlierIdsPersist | internal/server/handlers/url/remove/remove.go:26-29 | a record written through an accumulated logger names the id of every request served before it |
| RemoveClosure.ServeAsWritten | internal/server/handlers/url/remove/remove.go:26-29 | one request as written: the closure keeps the logger this request logged through, which is two attributes longer than before; the deleter is unchanged |
| RemoveClosure.Serve | internal/server/handlers/url/remove/remove.go:26-29 | one request with a request-local logger, as the corrected closure serves it: its record carries its own request id and, when the captured logger carries none, no other request id. The response and deleter calls are those of the code as written |
| RemoveClosure.ServeAllAsWritten | internal/server/handlers/url/remove/remove.go:26-29 | as written, every request logs through the attributes of all requests served before it plus its own, so each record names every earlier request's id. The captured logger grows by two attributes per request. Each response and its deleter calls are the handler's for that request's alias and the store's answer at that point in the run |
| RemoveClosure.ServeAll | internal/server/handlers/url/remove/remove.go:26-29 | with a request-local logger, every request logs through the captured attributes plus exactly its own two. Each response and its deleter calls are the handler's for that request's alias and the store's answer at that point in the run. When the logger `New` is given has no request id, no record names another request's id |
| RemoveClosure.StaleRequestId | internal/server/handlers/url/remove/remove.go:26-29 | as written, a second request's log record also carries the first request's id |
| RemoveClosure.OwnRequestIdOnly | internal/server/handlers/url/remove/remove.go:26-29 | corrected, for any captured logger without a request id, a request's log record names no request id other than its own |

## Findings

| source | as written | input that shows it | evidently intended | confidence | as-written member | corrected member |
|---|---|---|---|---|---|---|
| internal/server/handlers/url/remove/remove.go:26-29 | `log = log.With(...)` assigns the `log` parameter the closure captured. Each request's `fn` and `request_id` attributes stay on the logger for every later request, so the logger grows without bound. Concurrent requests also race on the variable | two requests, ids `req-1` then `req-2`: the second request's log record carries `request_id=req-1` as well as `request_id=req-2` | a request-local logger (`log := log.With(...)`) | high; not executed | RemoveClosure.StaleRequestId | RemoveClosure.ServeAll |

## Left out

- Path-parameter extraction (`chi.URLParam`) and routing. The alias is an input. In the unit test, the empty-alias request gets a non-200 status because chi does not match `/url/{alias}`. That status comes from the router, not from this handler.
- The storage layer, `DeleteURL`'s effect on stored state, and the `storage` package are not part of this model. The deleter is an opaque function. `ErrURLExists` appears only as a second sentinel distinct from `ErrURLNotFound`.
- RemoveClosure.ServeAll, RemoveClosure.ServeAllAsWritten: a run gives each request its own opaque deleter, so the store may answer a second delete of an alias differently from the first. How one answer follows from the earlier deletes is not modelled, because the store is not part of this model.
- The `resp.Error` envelope: the response package is not part of this model. Only the `error` text is modelled, not the other fields of the JSON body.
- Go error types with their own `Is` method: the model's error values have none, and equality with a sentinel is by identity.
- Where the request id comes from: `middleware.GetReqID` reads it from the request context, and here it is an input field of each request. How log records are formatted and written is also left out. The race between concurrent requests on the captured logger is also left out: requests are served one after another.
- The gRPC authorization client (`internal/clients/auth/grpc/grpc.go`). Its retry policy is configuration handed to a library that is not part of this model. `IsAdmin` only forwards a remote call.
- Configuration loading (`internal/config/config.go`), process startup and server wiring (`cmd/app/main.go`), and the discard logger (`slogdiscard.go`): I/O and plumbing.
- The save and redirect handlers and the end-to-end tests: their sources are not part of this model, or they need a live server.

/**
 The closure `New` returns, served one request after another, and what it
 does to the logger it captures.

 The handler starts with `log = log.With(fn, request_id)`. That assigns
 the `log` parameter that the closure captured, not a request-local
 variable, so every request leaves its two attributes on the logger the
 next request starts from. `ServeAsWritten` models that; `Serve` derives a
 request-local logger instead, which is evidently what was meant.
 Concurrent requests are taken one after another here.
 */
module RemoveClosure {
  import Remove

  /** A structured-logging key/value pair. */
  datatype Attr = Attr(key: string, value: string)

  /** A `*slog.Logger`, reduced to the attributes `With` attached to it. */
  datatype Logger = Logger(attrs: seq<Attr>)

  /** `l.With(extra...)`: a logger that adds `extra` to every record. */
  function With(l: Logger, extra: seq<Attr>): Logger
  {
    Logger(l.attrs + extra)
  }

  const FnName: string := "handlers.url.remove.New"

  /** The two attributes the handler attaches for a request. */
  function RequestAttrs(requestId: string): seq<Attr>
  {
    [Attr("fn", FnName), Attr("request_id", requestId)]
  }

  /** `l` carries no request id of its own, as the logger `New` is given. */
  predicate NoRequestId(l: Logger)
  {
    forall a :: a in l.attrs ==> a.key != "request_id"
  }

  /** The attributes the first `n` requests of a run attach, one pair per
      request, in order. */
  function Accumulated(reqs: seq<Request>, n: nat): seq<Attr>
    requires n <= |reqs|
    decreases n
  {
    if n == 0 then []
    else Accumulated(reqs, n - 1) + RequestAttrs(reqs[n - 1].requestId)
  }

  /** The state the closure captures when a request arrives: its `log`
      variable, and the deleter as the store answers at that moment. */
  datatype Handler = Handler(log: Logger, deleter: Remove.Deleter)

  /** A request: the id the request-id middleware assigned and the alias. */
  datatype Request = Request(requestId: string, alias: Remove.Alias)

  /** One served request: the handler's outcome and the logger its log
      record went through. */
  datatype Served = Served(outcome: Remove.Outcome, logger: Logger)

  /** One request as the source handles it: the request's logger is built
      on the captured one and then stored back into it. */
  function ServeAsWritten(h: Handler, r: Request): (res: (Handler, Served))
    // the closure keeps what this request logged through, two attributes longer
    ensures res.0.log == res.1.logger
    ensures |res.0.log.attrs| == |h.log.attrs| + 2
    ensures res.0.deleter == h.deleter
  {
    var l := With(h.log, RequestAttrs(r.requestId));
    (h.(log := l), Served(Remove.Handle(r.alias, h.deleter), l))
  }

  /** One request with a request-local logger; the captured state is left alone. */
  function Serve(h: Handler, r: Request): (s: Served)
    // the record carries this request's id
    ensures Attr("request_id", r.requestId) in s.logger.attrs
    // and, when the captured logger carries no request id, no other one
    ensures NoRequestId(h.log) ==>
      forall a :: a in s.logger.attrs && a.key == "request_id" ==> a.value == r.requestId
    // same response and deleter calls as the code as written, and the same
    // logger for a request that is served first
    ensures s.outcome == ServeAsWritten(h, r).1.outcome
    ensures s.logger == ServeAsWritten(h, r).1.logger
  {
    Served(Remove.Handle(r.alias, h.deleter), With(h.log, RequestAttrs(r.requestId)))
  }

  /** Each request adds two attributes to the run. */
  lemma {:induction false} AccumulatedLength(reqs: seq<Request>, n: nat)
    requires n <= |reqs|
    ensures |Accumulated(reqs, n)| == 2 * n
    decreases n
  {
    if n != 0 {
      AccumulatedLength(reqs, n - 1);
    }
  }

  /** The attributes of the first `n` requests name the id of each of them. */
  lemma {:induction false} AccumulatedHasEveryId(reqs: seq<Request>, n: nat, j: nat)
    requires j < n <= |reqs|
    ensures Attr("request_id", reqs[j].requestId) in Accumulated(reqs, n)
    decreases n
  {
    if j < n - 1 {
      AccumulatedHasEveryId(reqs, n - 1, j);
    } else {
      var acc := Accumulated(reqs, n);
      assert acc[|acc| - 1] == Attr("request_id", reqs[j].requestId);
    }
  }

  /** Request `i` of a run through the closure as written, `log` being the
      logger `New` was given and `ds[i]` the store's deleter at request `i`:
      its response and deleter calls are the handler's, and its record goes
      through the base attributes plus those of every request up to and
      including it. */
  predicate ServedAsWritten(log: Logger, reqs: seq<Request>, ds: seq<Remove.Deleter>, i: nat, s: Served)
    requires i < |reqs| && i < |ds|
  {
    && s.logger.attrs == log.attrs + Accumulated(reqs, i + 1)
    && s.outcome == Remove.Handle(reqs[i].alias, ds[i])
  }

  /** Records written through the accumulated loggers name every earlier id. */
  lemma EarlierIdsPersist(log: Logger, reqs: seq<Request>, ds: seq<Remove.Deleter>, served: seq<Served>)
    requires |served| == |reqs| == |ds|
    requires forall i :: 0 <= i < |reqs| ==> ServedAsWritten(log, reqs, ds, i, served[i])
    ensures forall i, j :: 0 <= j <= i < |reqs| ==>
      Attr("request_id", reqs[j].requestId) in served[i].logger.attrs
  {
    forall i, j | 0 <= j <= i < |reqs|
      ensures Attr("request_id", reqs[j].requestId) in served[i].logger.attrs
    {
      AccumulatedHasEveryId(reqs, i + 1, j);
    }
  }

  /** One step of a run as written: the request after the first `k` logs
      through the base attributes and those of the first `k + 1` requests,
      and the closure keeps that logger. */
  lemma StepAsWritten(log: Logger, reqs: seq<Request>, ds: seq<Remove.Deleter>, k: nat, captured: Logger)
    requires k < |reqs| == |ds|
    requires captured.attrs == log.attrs + Accumulated(reqs, k)
    ensures var step := ServeAsWritten(Handler(captured, ds[k]), reqs[k]);
      step.0.log == step.1.logger && ServedAsWritten(log, reqs, ds, k, step.1)
  {
  }

  /** Serves `reqs` in order through the closure as written, starting from
      the logger `New` was given; the store answers request `i` through
      `ds[i]`, so it may answer a second delete of an alias differently
      from the first. The logger every request writes through carries the
      attributes of all requests served so far, and the captured logger
      grows by two attributes per request without bound: `captured` is the
      logger the closure holds after the run. The responses and deleter
      calls are not affected. */
  method ServeAllAsWritten(log: Logger, reqs: seq<Request>, ds: seq<Remove.Deleter>)
    returns (captured: Logger, served: seq<Served>)
    requires |ds| == |reqs|
    ensures captured.attrs == log.attrs + Accumulated(reqs, |reqs|)
    ensures |captured.attrs| == |log.attrs| + 2 * |reqs|
    ensures |served| == |reqs|
    ensures forall i :: 0 <= i < |reqs| ==> ServedAsWritten(log, reqs, ds, i, served[i])
    // every record names the id of every request served before it
    ensures forall i, j :: 0 <= j <= i < |reqs| ==>
      Attr("request_id", reqs[j].requestId) in served[i].logger.attrs
  {
    captured := log;
    served := [];
    var k := 0;
    while k < |reqs|
      invariant 0 <= k <= |reqs|
      invariant |served| == k
      invariant captured.attrs == log.attrs + Accumulated(reqs, k)
      invariant forall i :: 0 <= i < k ==> ServedAsWritten(log, reqs, ds, i, served[i])
    {
      var step := ServeAsWritten(Handler(captured, ds[k]), reqs[k]);
      StepAsWritten(log, reqs, ds, k, captured);
      captured := step.0.log;
      served := served + [step.1];
      k := k + 1;
    }
    AccumulatedLength(reqs, |reqs|);
    EarlierIdsPersist(log, reqs, ds, served);
  }

  /** Serves `reqs` in order through the corrected closure, the store
      answering request `i` through `ds[i]`. Every request writes through
      the captured logger plus exactly its own two attributes, and its
      response and deleter calls are those of the handler as written. */
  method ServeAll(log: Logger, reqs: seq<Request>, ds: seq<Remove.Deleter>) returns (served: seq<Served>)
    requires |ds| == |reqs|
    ensures |served| == |reqs|
    ensures forall i :: 0 <= i < |reqs| ==>
      served[i].logger.attrs == log.attrs + RequestAttrs(reqs[i].requestId)
    ensures forall i :: 0 <= i < |reqs| ==>
      served[i].outcome == Remove.Handle(reqs[i].alias, ds[i])
    // no record names the id of another request
    ensures NoRequestId(log) ==> forall i, j ::
      0 <= i < |reqs| && 0 <= j < |reqs| && reqs[j].requestId != reqs[i].requestId ==>
      Attr("request_id", reqs[j].requestId) !in served[i].logger.attrs
  {
    served := [];
    var k := 0;
    while k < |reqs|
      invariant 0 <= k <= |reqs|
      invariant |served| == k
      invariant forall i :: 0 <= i < k ==>
        served[i].logger.attrs == log.attrs + RequestAttrs(reqs[i].requestId)
      invariant forall i :: 0 <= i < k ==>
        served[i].outcome == Remove.Handle(reqs[i].alias, ds[i])
    {
      served := served + [Serve(Handler(log, ds[k]), reqs[k])];
      k := k + 1;
    }
    if NoRequestId(log) {
      forall i, j | 0 <= i < |reqs| && 0 <= j < |reqs| && reqs[j].requestId != reqs[i].requestId
        ensures Attr("request_id", reqs[j].requestId) !in served[i].logger.attrs
      {
        OwnRequestIdOnly(Handler(log, ds[i]), reqs[i], reqs[j].requestId);
      }
    }
  }

  /** Two requests through a fresh handler as written: the second request's
      log record carries the first request's id as well as its own, so the
      record names two request ids. */
  lemma StaleRequestId(d: Remove.Deleter)
    ensures var (h1, _) := ServeAsWritten(Handler(Logger([]), d), Request("req-1", "a"));
            var (_, s2) := ServeAsWritten(h1, Request("req-2", "b"));
            s2.logger.attrs == RequestAttrs("req-1") + RequestAttrs("req-2")
            && Attr("request_id", "req-1") in s2.logger.attrs
  {
  }

  /** Through the corrected handler, for any captured logger without a
      request id, a request's log record names no request id but its own. */
  lemma OwnRequestIdOnly(h: Handler, r: Request, other: string)
    requires NoRequestId(h.log)
    requires other != r.requestId
    ensures Attr("request_id", other) !in Serve(h, r).logger.attrs
  {
  }
}

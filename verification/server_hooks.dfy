/**
 * The server hook that runs before every request: while the module-level
 * `schemasInitialized` flag is false and a database is bound, it tries to create
 * the schemas, and it sets the flag only when that succeeds. Either way the
 * request is then resolved.
 */
module ServerHooks {
  import opened Http

  /** One request as the hook sees it: whether `platform.env.DB` is bound, and the request. */
  datatype Event = Event(hasDb: bool, request: Request)

  /** A request together with what `initAllSchemas` would do for it (resolve or reject). */
  datatype Call = Call(hasDb: bool, initOk: bool)

  /** The flag after one call, and whether that call tried to initialise. */
  datatype After = After(initialized: bool, attempted: bool)

  /**
   * One call of `handle`: an attempt is made exactly when the flag is still false
   * and a database is bound, and the flag is true afterwards exactly when it was
   * already, or the attempt succeeded.
   */
  function Step(initialized: bool, c: Call): (a: After)
    ensures a.attempted <==> !initialized && c.hasDb
    ensures a.initialized <==> initialized || (c.hasDb && c.initOk)
  {
    if initialized then After(true, false)
    else if c.hasDb then After(c.initOk, true)
    else After(false, false)
  }

  /** The flag after a run of calls, from the last call backwards. */
  function Run(initialized: bool, calls: seq<Call>): bool
  {
    if calls == [] then initialized
    else Step(Run(initialized, calls[..|calls| - 1]), calls[|calls| - 1]).initialized
  }

  /** How many times `initAllSchemas` was called in a run. */
  function Attempts(initialized: bool, calls: seq<Call>): nat
  {
    if calls == [] then 0
    else
      var before := Run(initialized, calls[..|calls| - 1]);
      Attempts(initialized, calls[..|calls| - 1]) + (if Step(before, calls[|calls| - 1]).attempted then 1 else 0)
  }

  /** How many calls of a run had a database bound. */
  function WithDb(calls: seq<Call>): (n: nat)
    ensures n <= |calls|
  {
    if calls == [] then 0
    else WithDb(calls[..|calls| - 1]) + (if calls[|calls| - 1].hasDb then 1 else 0)
  }

  /** A call that had a database and whose initialisation succeeded. */
  predicate Succeeds(c: Call)
  {
    c.hasDb && c.initOk
  }

  /** Starting unset, the flag is set after a run exactly when some call of it succeeded. */
  lemma {:induction false} SetIffSomeSuccess(calls: seq<Call>)
    ensures Run(false, calls) <==> exists i :: 0 <= i < |calls| && Succeeds(calls[i])
  {
    if calls != [] {
      var init := calls[..|calls| - 1];
      SetIffSomeSuccess(init);
      if exists i :: 0 <= i < |init| && Succeeds(init[i]) {
        var i :| 0 <= i < |init| && Succeeds(init[i]);
        assert calls[i] == init[i];
      }
      if exists i :: 0 <= i < |calls| && Succeeds(calls[i]) {
        var i :| 0 <= i < |calls| && Succeeds(calls[i]);
        if i < |init| {
          assert init[i] == calls[i];
        }
      }
    }
  }

  /** Once the flag is set it stays set, and no further attempt is ever made. */
  lemma {:induction false} SetIsFinal(calls: seq<Call>)
    ensures Run(true, calls) && Attempts(true, calls) == 0
  {
    if calls != [] {
      SetIsFinal(calls[..|calls| - 1]);
    }
  }

  /**
   * While no attempt succeeds the flag stays unset and every call with a
   * database retries: a failure is never remembered.
   */
  lemma {:induction false} FailuresRetried(calls: seq<Call>)
    requires forall i :: 0 <= i < |calls| ==> !Succeeds(calls[i])
    ensures !Run(false, calls) && Attempts(false, calls) == WithDb(calls)
  {
    if calls != [] {
      var init := calls[..|calls| - 1];
      assert forall i :: 0 <= i < |init| ==> init[i] == calls[i];
      FailuresRetried(init);
    }
  }

  /**
   * Attempts stop at the first success: a run whose first success is call `k`
   * makes exactly one attempt for each call up to `k` that had a database.
   */
  lemma {:induction false} AttemptsStopAtFirstSuccess(calls: seq<Call>, k: nat)
    requires k < |calls| && Succeeds(calls[k])
    requires forall i :: 0 <= i < k ==> !Succeeds(calls[i])
    ensures Attempts(false, calls) == WithDb(calls[..k + 1])
    decreases |calls|
  {
    var init := calls[..|calls| - 1];
    if k == |calls| - 1 {
      assert init == calls[..k];
      assert forall i :: 0 <= i < |init| ==> init[i] == calls[i];
      FailuresRetried(init);
      assert calls[..k + 1] == calls;
    } else {
      assert forall i :: 0 <= i < k ==> init[i] == calls[i];
      AttemptsStopAtFirstSuccess(init, k);
      assert init[..k + 1] == calls[..k + 1];
      assert init[k] == calls[k];
      SetIffSomeSuccess(init);
    }
  }

  /** The module that holds the flag, with ghost counters of the calls it makes. */
  class Hooks {
    var schemasInitialized: bool
    /** Every call handled so far, with the outcome its initialisation had or would have had. */
    ghost var calls: seq<Call>
    ghost var initCalls: nat
    ghost var resolveCalls: nat

    ghost predicate Valid()
      reads this
    {
      && schemasInitialized == Run(false, calls)
      && initCalls == Attempts(false, calls)
      && resolveCalls == |calls|
    }

    /** Module load: the flag starts false. */
    constructor ()
      ensures Valid() && !schemasInitialized && calls == []
    {
      schemasInitialized := false;
      calls := [];
      initCalls := 0;
      resolveCalls := 0;
    }

    /**
     * `handle({event, resolve})`: the flag moves as `Step` says, `initAllSchemas`
     * is called when `Step` attempts, and `resolve` is called once with its
     * response returned as is.
     */
    method Handle(event: Event, initOk: bool, resolve: Event -> Outcome) returns (response: Outcome)
      requires Valid()
      modifies this
      ensures Valid()
      ensures calls == old(calls) + [Call(event.hasDb, initOk)]
      ensures schemasInitialized == Step(old(schemasInitialized), Call(event.hasDb, initOk)).initialized
      ensures initCalls == old(initCalls) + (if Step(old(schemasInitialized), Call(event.hasDb, initOk)).attempted then 1 else 0)
      ensures resolveCalls == old(resolveCalls) + 1
      ensures response == resolve(event)
    {
      if !schemasInitialized {
        if event.hasDb {
          initCalls := initCalls + 1;
          if initOk {
            schemasInitialized := true;
          }
        }
      }
      calls := calls + [Call(event.hasDb, initOk)];
      assert calls[..|calls| - 1] == old(calls);
      resolveCalls := resolveCalls + 1;
      response := resolve(event);
    }
  }
}

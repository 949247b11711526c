/**
 * The counters behind the mock server's teardown check: responses still to
 * give, requests served, and responseCnt. The teardown reports a mismatch
 * when served != responseCnt.
 */
module ResponseCount {

  /** Rsp, or one request handled. */
  datatype Op = AddResponse | ServeRequest

  datatype Counters = Counters(pending: nat, served: nat, responseCnt: int)

  const Start := Counters(0, 0, 0)

  /** The teardown check fails the test. */
  predicate Reports(c: Counters) {
    c.served != c.responseCnt
  }

  /**
   * One step as the server is written: Rsp sets responseCnt to the number of
   * responses pending. A request with nothing pending is fatal and changes
   * no counter.
   */
  function StepAsWritten(c: Counters, op: Op): Counters {
    match op
    case AddResponse => Counters(c.pending + 1, c.served, c.pending + 1)
    case ServeRequest =>
      if c.pending == 0 then c else Counters(c.pending - 1, c.served + 1, c.responseCnt)
  }

  /** One step with responseCnt counting every response ever added. */
  function StepCounted(c: Counters, op: Op): Counters {
    match op
    case AddResponse => Counters(c.pending + 1, c.served, c.responseCnt + 1)
    case ServeRequest =>
      if c.pending == 0 then c else Counters(c.pending - 1, c.served + 1, c.responseCnt)
  }

  function RunAsWritten(ops: seq<Op>): Counters {
    if ops == [] then Start else StepAsWritten(RunAsWritten(ops[..|ops| - 1]), ops[|ops| - 1])
  }

  function RunCounted(ops: seq<Op>): Counters {
    if ops == [] then Start else StepCounted(RunCounted(ops[..|ops| - 1]), ops[|ops| - 1])
  }

  /**
   * As written, a response added after a request was served and never used
   * goes unreported.
   */
  lemma UnusedResponseUnreported()
    ensures var c := RunAsWritten([AddResponse, ServeRequest, AddResponse]);
      c.pending == 1 && !Reports(c)
  {
    var ops := [AddResponse, ServeRequest, AddResponse];
    assert ops[..2] == [AddResponse, ServeRequest];
    assert ops[..2][..1] == [AddResponse];
    assert RunAsWritten([AddResponse]) == Counters(1, 0, 1);
    assert RunAsWritten(ops[..2]) == Counters(0, 1, 1);
    assert RunAsWritten(ops) == Counters(1, 1, 1);
  }

  /**
   * As written, a script fully used up is reported when a response was added
   * after the first request.
   */
  lemma UsedScriptReported()
    ensures var c := RunAsWritten([AddResponse, ServeRequest, AddResponse, ServeRequest]);
      c.pending == 0 && Reports(c)
  {
    var ops := [AddResponse, ServeRequest, AddResponse, ServeRequest];
    assert ops[..3] == [AddResponse, ServeRequest, AddResponse];
    assert ops[..3][..2] == [AddResponse, ServeRequest];
    assert ops[..3][..2][..1] == [AddResponse];
    assert RunAsWritten([AddResponse]) == Counters(1, 0, 1);
    assert RunAsWritten(ops[..3][..2]) == Counters(0, 1, 1);
    assert RunAsWritten(ops[..3]) == Counters(1, 1, 1);
    assert RunAsWritten(ops) == Counters(0, 2, 1);
  }

  /** Counting every added response, responseCnt is what was served plus what is pending. */
  lemma {:induction false} CountedBalance(ops: seq<Op>)
    ensures RunCounted(ops).responseCnt == RunCounted(ops).served + RunCounted(ops).pending
  {
    if ops != [] {
      CountedBalance(ops[..|ops| - 1]);
    }
  }

  /**
   * Counting every added response, the teardown check fails exactly when some
   * scripted response was never used.
   */
  lemma CountedReportsUnused(ops: seq<Op>)
    ensures Reports(RunCounted(ops)) <==> RunCounted(ops).pending > 0
  {
    CountedBalance(ops);
  }

  /**
   * As written, the check is exact when every response is added before the
   * first request (the usual way the server is scripted).
   */
  lemma {:induction false} AsWrittenExactWhenScriptedFirst(adds: nat, serves: nat)
    ensures var c := RunAsWritten(Adds(adds) + Serves(serves));
      c == RunCounted(Adds(adds) + Serves(serves))
  {
    AddsThenServes(adds, serves);
  }

  function Adds(k: nat): seq<Op> {
    if k == 0 then [] else Adds(k - 1) + [AddResponse]
  }

  function Serves(k: nat): seq<Op> {
    if k == 0 then [] else Serves(k - 1) + [ServeRequest]
  }

  lemma {:induction false} AddsThenServes(adds: nat, serves: nat)
    ensures RunAsWritten(Adds(adds) + Serves(serves)) == RunCounted(Adds(adds) + Serves(serves))
    ensures RunCounted(Adds(adds) + Serves(serves)).pending + RunCounted(Adds(adds) + Serves(serves)).served == adds
  {
    if serves == 0 {
      assert Adds(adds) + Serves(0) == Adds(adds);
      AddsOnly(adds);
    } else {
      var ops := Adds(adds) + Serves(serves);
      assert ops[..|ops| - 1] == Adds(adds) + Serves(serves - 1);
      AddsThenServes(adds, serves - 1);
    }
  }

  lemma {:induction false} AddsOnly(adds: nat)
    ensures RunAsWritten(Adds(adds)) == RunCounted(Adds(adds)) == Counters(adds, 0, adds)
  {
    if adds > 0 {
      AddsOnly(adds - 1);
    }
  }
}

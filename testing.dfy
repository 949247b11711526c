/**
 * The test handle every helper receives (the `T` interface of t.go), reduced to
 * what the helpers use: a failure log, FailNow, and a stack of cleanup hooks.
 */
module Testing {
  import opened Wrappers
  import opened Errors

  /** What a helper reports through the test handle. */
  datatype Message =
    | NoMoreResponses                               // "no more responses to give"
    | NoRequestRecorded(index: int)                 // "no request with index %d recorded"
    | RequestCountMismatch(expected: int, got: int) // "expected %d requests got %d"
    | Cause(err: Error)                             // t.Fatal(err)

  /** A registered cleanup function; the only one in this model closes a mock server. */
  datatype Hook = ServerCleanup(server: object)

  class TestLog {
    var failed: bool           // Fail was called (by Error, Errorf, Fatal or Fatalf)
    var stopped: bool          // FailNow was called (by Fatal or Fatalf)
    var messages: seq<Message> // everything logged, in order
    var cleanups: seq<Hook>    // registered cleanups, in registration order

    constructor ()
      ensures !failed && !stopped && messages == [] && cleanups == []
    {
      failed, stopped, messages, cleanups := false, false, [], [];
    }

    /** Cleanup registers a hook to be called when the test completes. */
    method Cleanup(h: Hook)
      modifies this`cleanups
      ensures cleanups == old(cleanups) + [h]
    {
      cleanups := cleanups + [h];
    }

    /** Errorf is Logf followed by Fail: the test goes on. */
    method Errorf(m: Message)
      modifies this`failed, this`messages
      ensures SoftLogged(this, m)
    {
      failed := true;
      messages := messages + [m];
    }

    /** Fatal and Fatalf are Log followed by FailNow: the caller stops. */
    method Fatal(m: Message)
      modifies this`failed, this`stopped, this`messages
      ensures FatalLogged(this, m)
    {
      failed, stopped := true, true;
      messages := messages + [m];
    }

    /**
     * Takes the next cleanup to call when the test completes: the one added
     * last is called first.
     */
    method NextCleanup() returns (h: Option<Hook>)
      modifies this`cleanups
      ensures old(cleanups) == [] ==> h == None && cleanups == []
      ensures old(cleanups) != [] ==> h.Some? && CallOrder(old(cleanups)) == [h.value] + CallOrder(cleanups)
    {
      if cleanups == [] {
        h := None;
      } else {
        h := Some(cleanups[|cleanups| - 1]);
        cleanups := cleanups[..|cleanups| - 1];
      }
    }
  }

  /** The log gained `m` as a soft failure; nothing else changed. */
  twostate predicate SoftLogged(t: TestLog, m: Message)
    reads t
  {
    && t.messages == old(t.messages) + [m]
    && t.failed
    && t.stopped == old(t.stopped)
    && t.cleanups == old(t.cleanups)
  }

  /** The log gained `m` as a fatal failure; nothing else changed. */
  twostate predicate FatalLogged(t: TestLog, m: Message)
    reads t
  {
    && t.messages == old(t.messages) + [m]
    && t.failed
    && t.stopped
    && t.cleanups == old(t.cleanups)
  }

  /** The order in which registered cleanups are called. */
  function CallOrder(hooks: seq<Hook>): seq<Hook>
  {
    if hooks == [] then [] else [hooks[|hooks| - 1]] + CallOrder(hooks[..|hooks| - 1])
  }

  /** Cleanups are called last added, first called. */
  lemma {:induction false} CallOrderIsReversed(hooks: seq<Hook>)
    ensures |CallOrder(hooks)| == |hooks|
    ensures forall i :: 0 <= i < |hooks| ==> CallOrder(hooks)[i] == hooks[|hooks| - 1 - i]
  {
    if hooks != [] {
      var rest := hooks[..|hooks| - 1];
      CallOrderIsReversed(rest);
      forall i | 0 <= i < |hooks|
        ensures CallOrder(hooks)[i] == hooks[|hooks| - 1 - i]
      {
        if i > 0 {
          assert CallOrder(hooks)[i] == CallOrder(rest)[i - 1];
        }
      }
    }
  }
}

/** The HTTP surface of the hashing service: the shutdown gate and method check
    that wrap every endpoint, the three handlers over the job store, and the
    log of GET /hash/{id} latencies that the stats endpoint summarises. */
module Api {

  import opened Wrappers
  import opened Decimal
  import Hasher

  /** An inbound request as the handlers see it: the HTTP method (`verb`), the URL path
      and the `password` form value (`""` when the field is absent). */
  datatype Request = Request(verb: string, path: string, password: string)

  datatype Body = Text(text: string) | Stats(total: int, average: int)

  datatype Response = Response(status: int, body: Body)

  const StatusOK := 200
  const StatusMethodNotAllowed := 405
  const StatusUnprocessableEntity := 422
  const StatusLocked := 423

  const HashPrefix := "/hash/"

  /** `http.Error`: the status code and the message followed by a newline. */
  function Error(message: string, code: int): Response {
    Response(code, Text(message + "\n"))
  }

  function Locked(): Response {
    Error("Not accepting new connections", StatusLocked)
  }

  function MethodNotAllowed(endpointMethod: string): Response {
    Error("This endpoint only supports " + endpointMethod + " requests", StatusMethodNotAllowed)
  }

  /** The check every endpoint runs before its handler: `Some` rejection, or
      `None` to let the handler run. */
  function Admit(gateClosed: bool, verb: string, endpointMethod: string): (d: Option<Response>)
    ensures gateClosed ==> d == Some(Locked())
    ensures !gateClosed && verb != endpointMethod ==> d == Some(MethodNotAllowed(endpointMethod))
    ensures d == None <==> !gateClosed && verb == endpointMethod
  {
    if gateClosed then Some(Locked())
    else if verb != endpointMethod then Some(MethodNotAllowed(endpointMethod))
    else None
  }

  predicate HasHashPrefix(path: string) {
    |path| >= |HashPrefix| && path[..|HashPrefix|] == HashPrefix
  }

  /** The job id text of a GET /hash/{id} path: everything after the prefix. */
  function IdSuffix(path: string): (id: string)
    requires HasHashPrefix(path)
    ensures HashPrefix + id == path
  {
    path[|HashPrefix|..]
  }

  /** The id written in the body of a POST /hash response, put into a
      GET /hash/{id} path, is read back as the same id. */
  lemma PostedIdRoundTrip(jobID: nat)
    requires jobID <= MaxInt64
    ensures HasHashPrefix(HashPrefix + Itoa(jobID))
    ensures Atoi(IdSuffix(HashPrefix + Itoa(jobID))) == Some(jobID)
  {
    var path := HashPrefix + Itoa(jobID);
    assert path[..|HashPrefix|] == HashPrefix;
    assert IdSuffix(path) == Itoa(jobID);
    AtoiItoa(jobID);
  }

  /** Total of a latency log, in nanoseconds: no single latency exceeds it. */
  function Sum(log: seq<nat>): (total: nat)
    ensures forall i :: 0 <= i < |log| ==> log[i] <= total
  {
    if log == [] then 0 else log[0] + Sum(log[1..])
  }

  lemma {:induction false} SumAppend(a: seq<nat>, b: seq<nat>)
    ensures Sum(a + b) == Sum(a) + Sum(b)
  {
    if a != [] {
      assert (a + b)[0] == a[0] && (a + b)[1..] == a[1..] + b;
      SumAppend(a[1..], b);
    } else {
      assert a + b == b;
    }
  }

  /** The reported average: the nanosecond total halved, then in whole
      milliseconds.  The divisor is the constant 2, whatever the log's length. */
  function Average(log: seq<nat>): (ms: nat)
    ensures ms * 2_000_000 <= Sum(log) < (ms + 1) * 2_000_000
  {
    Sum(log) / 2 / 1_000_000
  }

  /** A log of `n` equal latencies of `d` nanoseconds reports `n * d / 2` in
      milliseconds: the figure grows with the number of requests and is their
      mean only when there are exactly two or every latency is 0. */
  lemma {:induction false} AverageOfEqualLatencies(d: nat, n: nat)
    ensures Sum(seq(n, _ => d)) == n * d
    ensures Average(seq(n, _ => d)) == n * d / 2 / 1_000_000
  {
    if n > 0 {
      var log := seq(n, _ => d);
      assert log == [d] + seq(n - 1, _ => d);
      AverageOfEqualLatencies(d, n - 1);
    }
  }

  /** Each further GET /hash/{id} adds its latency to the total, so the
      reported average never goes down. */
  lemma AverageGrows(log: seq<nat>, elapsed: nat)
    ensures Sum(log + [elapsed]) == Sum(log) + elapsed
    ensures Average(log) <= Average(log + [elapsed])
  {
    SumAppend(log, [elapsed]);
  }

  class HasherApi {
    const hasher: Hasher.Hasher
    /** Whether the shutdown signal has closed the request channel. */
    var gateClosed: bool
    /** The latency of each GET /hash/{id} that returned a result, in nanoseconds. */
    var requestTimes: seq<nat>

    ghost predicate Valid()
      reads hasher, hasher.state
    {
      hasher.Valid()
    }

    /** A server accepting requests, over an empty store, with an empty log. */
    constructor (digest: Hasher.DigestFn)
      ensures Valid() && fresh(hasher) && fresh(hasher.state)
      ensures !gateClosed && requestTimes == []
      ensures hasher.digest == digest
      ensures hasher.state.jobCount == 0 && hasher.state.hashedPasswords == map[]
      ensures hasher.pending == map[]
    {
      hasher := new Hasher.Hasher(digest);
      gateClosed := false;
      requestTimes := [];
    }

    /** The shutdown signal closes the request channel; nothing reopens it. */
    method CloseGate()
      modifies this`gateClosed
      ensures gateClosed
    {
      gateClosed := true;
    }

    /** POST /hash: a non-empty password creates exactly one job and the body is its id. */
    method PostHash(req: Request) returns (resp: Response)
      requires Valid()
      modifies hasher, hasher.state
      ensures Valid()
      ensures gateClosed ==> resp == Locked() && unchanged(hasher, hasher.state)
      ensures !gateClosed && req.verb != "POST" ==>
                resp == MethodNotAllowed("POST") && unchanged(hasher, hasher.state)
      ensures !gateClosed && req.verb == "POST" && req.password == "" ==>
                && resp == Error("password is a required field", StatusUnprocessableEntity)
                && unchanged(hasher, hasher.state)
      ensures !gateClosed && req.verb == "POST" && req.password != "" ==>
                && hasher.state.jobCount == old(hasher.state.jobCount) + 1
                && resp == Response(StatusOK, Text(Itoa(hasher.state.jobCount)))
                && hasher.state.hashedPasswords == old(hasher.state.hashedPasswords)[hasher.state.jobCount := ""]
                && hasher.pending == old(hasher.pending)[hasher.state.jobCount := req.password]
                && hasher.submitted == old(hasher.submitted) + [req.password]
    {
      var rejected := Admit(gateClosed, req.verb, "POST");
      if rejected.Some? {
        return rejected.value;
      }
      if req.password == "" {
        return Error("password is a required field", StatusUnprocessableEntity);
      }
      var job := hasher.RunHash(req.password);
      resp := Response(StatusOK, Text(Itoa(job)));
    }

    /** GET /hash/{id}: a known id waits until its result is written, then
        returns it and logs the request's latency; anything else is rejected
        with the log and the store unchanged. */
    method GetHash(req: Request, elapsed: nat) returns (resp: Response)
      requires Valid()
      requires HasHashPrefix(req.path)
      modifies this, hasher, hasher.state
      ensures Valid()
      ensures gateClosed == old(gateClosed)
      ensures old(gateClosed) ==> resp == Locked() && unchanged(this, hasher, hasher.state)
      ensures !old(gateClosed) && req.verb != "GET" ==>
                resp == MethodNotAllowed("GET") && unchanged(this, hasher, hasher.state)
      ensures !old(gateClosed) && req.verb == "GET" && Atoi(IdSuffix(req.path)).None? ==>
                && resp == Error("jobID was an incorrect format", StatusUnprocessableEntity)
                && unchanged(this, hasher, hasher.state)
      ensures !old(gateClosed) && req.verb == "GET" && Atoi(IdSuffix(req.path)).Some? ==>
                var jobID := Atoi(IdSuffix(req.path)).value;
                if jobID < 1 || jobID > old(hasher.state.jobCount) then
                  && resp == Error("JobID is not a valid ID", StatusUnprocessableEntity)
                  && unchanged(this, hasher, hasher.state)
                else
                  && resp == Response(StatusOK, Text(hasher.digest(old(hasher.submitted)[jobID - 1])))
                  && resp.body.text != ""
                  && requestTimes == old(requestTimes) + [elapsed]
                  && jobID !in hasher.pending
                  && hasher.pending.Keys <= old(hasher.pending).Keys
                  && hasher.state.jobCount == old(hasher.state.jobCount)
                  && hasher.submitted == old(hasher.submitted)
    {
      var rejected := Admit(gateClosed, req.verb, "GET");
      if rejected.Some? {
        return rejected.value;
      }
      var id := IdSuffix(req.path);
      var parsed := Atoi(id);
      if parsed.None? {
        return Error("jobID was an incorrect format", StatusUnprocessableEntity);
      }
      resp := Lookup(parsed.value, elapsed);
    }

    /** The rest of GET /hash/{id} once the id has parsed: an id that was never
        allocated is rejected; otherwise wait for its result, answer with it and
        log the request's latency. */
    method Lookup(jobID: int, elapsed: nat) returns (resp: Response)
      requires Valid()
      modifies this, hasher, hasher.state
      ensures Valid()
      ensures gateClosed == old(gateClosed)
      ensures jobID < 1 || jobID > old(hasher.state.jobCount) ==>
                && resp == Error("JobID is not a valid ID", StatusUnprocessableEntity)
                && unchanged(this, hasher, hasher.state)
      ensures 1 <= jobID <= old(hasher.state.jobCount) ==>
                && resp == Response(StatusOK, Text(hasher.digest(old(hasher.submitted)[jobID - 1])))
                && resp.body.text != ""
                && requestTimes == old(requestTimes) + [elapsed]
                && jobID !in hasher.pending
                && hasher.pending.Keys <= old(hasher.pending).Keys
                && hasher.state.jobCount == old(hasher.state.jobCount)
                && hasher.submitted == old(hasher.submitted)
    {
      var r := hasher.GetPassword(jobID);
      if r.Failure? {
        return Error("JobID is not a valid ID", StatusUnprocessableEntity);
      }
      var val := Poll(jobID, r.value);
      resp := Response(StatusOK, Text(val));
      requestTimes := requestTimes + [elapsed];
    }

    /** The wait loop of GET /hash/{id}: while the job's entry is `""`, sleep
        (during which some pending hash goroutine finishes) and read it again.
        It returns the job's finished result. */
    method Poll(jobID: int, first: string) returns (val: string)
      requires Valid()
      requires 1 <= jobID <= hasher.state.jobCount
      requires first == hasher.state.hashedPasswords[jobID]
      modifies hasher, hasher.state
      ensures Valid()
      ensures hasher.state.jobCount == old(hasher.state.jobCount)
      ensures hasher.submitted == old(hasher.submitted)
      ensures hasher.pending.Keys <= old(hasher.pending).Keys
      ensures jobID !in hasher.pending
      ensures val == hasher.digest(old(hasher.submitted)[jobID - 1]) && val != ""
    {
      val := first;
      while val == ""
        invariant Valid()
        invariant 1 <= jobID <= hasher.state.jobCount
        invariant val == hasher.state.hashedPasswords[jobID]
        invariant val == "" <==> jobID in hasher.pending
        invariant hasher.state.jobCount == old(hasher.state.jobCount)
        invariant hasher.submitted == old(hasher.submitted)
        invariant hasher.pending.Keys <= old(hasher.pending).Keys
        decreases hasher.pending.Keys
      {
        // While this handler sleeps, some pending hash goroutine finishes.
        var k :| k in hasher.pending;
        hasher.Complete(k, hasher.pending[k]);
        var r := hasher.GetPassword(jobID);
        if r.Failure? {
          // Entries are never removed, so the store cannot forget the id.
          assert false;
        }
        val := r.value;
      }
    }

    /** GET /stats: the number of jobs created and the average over the log. */
    method GetStats(req: Request) returns (resp: Response)
      requires Valid()
      ensures gateClosed ==> resp == Locked()
      ensures !gateClosed && req.verb != "GET" ==> resp == MethodNotAllowed("GET")
      ensures !gateClosed && req.verb == "GET" ==>
                resp == Response(StatusOK, Stats(hasher.state.jobCount, Average(requestTimes)))
    {
      var rejected := Admit(gateClosed, req.verb, "GET");
      if rejected.Some? {
        return rejected.value;
      }
      var sum := 0;
      for i := 0 to |requestTimes|
        invariant sum == Sum(requestTimes[..i])
      {
        SumAppend(requestTimes[..i], [requestTimes[i]]);
        assert requestTimes[..i + 1] == requestTimes[..i] + [requestTimes[i]];
        sum := sum + requestTimes[i];
      }
      assert requestTimes[..|requestTimes|] == requestTimes;
      var avg := sum / 2;
      var total := hasher.GetJobCount();
      resp := Response(StatusOK, Stats(total, avg / 1_000_000));
    }
  }
}

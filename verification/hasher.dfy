/** The job store of the hashing service: a counter of allocated job ids and a
    map from each id to its result, which is `""` while the job's background
    hash is still running.  Each critical section that the Go code guards with
    the store's mutex is one method here; the goroutine that `RunHash` starts is
    recorded in `pending` and finishes when `Complete` is called for it. */
module Hasher {

  import opened Wrappers

  /** Length of the standard (padded) base64 rendering of a 64-byte SHA-512 digest. */
  const DigestLength := 88

  /** base64 (RFC 4648, section 4) of SHA-512 (FIPS 180-4) of a password.  Both are
      library code outside this model, so the digest is a parameter of the store;
      all that is assumed of it is the length of its result, hence that a finished
      result is never the empty "pending" marker. */
  type DigestFn = f: string -> string | forall p :: |f(p)| == DigestLength
    witness (p: string) => seq(DigestLength, _ => 'A')

  /** The number of elements of a set of ids that is exactly 1..n. */
  lemma {:induction false} RangeSize(ids: set<int>, n: nat)
    requires forall id :: id in ids <==> 1 <= id <= n
    ensures |ids| == n
  {
    if n > 0 {
      RangeSize(ids - {n}, n - 1);
    } else {
      assert forall id :: id !in ids;
      assert ids == {};
    }
  }

  /** The store's invariant `Hasher.Valid` restated on plain values, so that what submitting and finishing a job do to it is
      proved apart from the heap: the ids of `jobs` are `1..|submitted|`; every
      running goroutine belongs to an allocated id and holds that id's
      password; an entry is `""` exactly while its goroutine runs, and the
      digest of its password once that goroutine has finished. */
  ghost predicate Tracks(jobs: map<int, string>, pending: map<int, string>, submitted: seq<string>, digest: string -> string)
  {
    && (forall id :: id in jobs <==> 1 <= id <= |submitted|)
    && (forall id :: id in pending ==> id in jobs && pending[id] == submitted[id - 1])
    && (forall id :: id in jobs ==> jobs[id] == if id in pending then "" else digest(submitted[id - 1]))
  }

  /** Submitting a password allocates the next id, seeded `""`, with a goroutine for it. */
  lemma TracksSubmit(jobs: map<int, string>, pending: map<int, string>, submitted: seq<string>, digest: string -> string, password: string)
    requires Tracks(jobs, pending, submitted, digest)
    ensures |submitted| + 1 !in jobs
    ensures Tracks(jobs[|submitted| + 1 := ""], pending[|submitted| + 1 := password], submitted + [password], digest)
  {
  }

  /** A goroutine that finishes writes the digest of its own password into its own entry. */
  lemma TracksFinish(jobs: map<int, string>, pending: map<int, string>, submitted: seq<string>, digest: string -> string, jobID: int)
    requires Tracks(jobs, pending, submitted, digest)
    requires jobID in pending
    ensures jobs[jobID] == ""
    ensures Tracks(jobs[jobID := digest(pending[jobID])], pending - {jobID}, submitted, digest)
  {
  }

  /** The job counter and the result map, always read and written together. */
  class State {
    var jobCount: int
    var hashedPasswords: map<int, string>

    /** The ids in the map are exactly 1..jobCount. */
    ghost predicate Valid()
      reads this
    {
      && jobCount >= 0
      && forall id :: id in hashedPasswords <==> 1 <= id <= jobCount
    }

    constructor ()
      ensures Valid()
      ensures jobCount == 0 && hashedPasswords == map[]
    {
      jobCount := 0;
      hashedPasswords := map[];
    }

    /** Allocates the next id and seeds it as pending. */
    method Inc() returns (id: int)
      requires Valid()
      modifies this
      ensures Valid()
      ensures id == old(jobCount) + 1 && jobCount == id
      ensures id !in old(hashedPasswords)
      ensures hashedPasswords == old(hashedPasswords)[id := ""]
    {
      jobCount := jobCount + 1;
      hashedPasswords := hashedPasswords[jobCount := ""];
      id := jobCount;
    }
  }

  class Hasher {
    const digest: DigestFn
    const state: State
    /** The `hash` goroutines started by `RunHash` that have not yet written
        their result: job id to the password the goroutine was given. */
    var pending: map<int, string>
    /** Every password submitted so far; job `id` was given `submitted[id - 1]`. */
    ghost var submitted: seq<string>

    /** The store's invariant: one password per allocated id; an entry is `""`
        exactly while its goroutine is pending, and the digest of its password
        once that goroutine has finished. */
    ghost predicate Valid()
      reads this, state
    {
      && state.Valid()
      && |submitted| == state.jobCount
      && (forall id :: id in pending ==> id in state.hashedPasswords && pending[id] == submitted[id - 1])
      && (forall id :: id in state.hashedPasswords ==>
            state.hashedPasswords[id] == if id in pending then "" else digest(submitted[id - 1]))
    }

    /** A fresh store: no jobs, nothing running. */
    constructor (digest: DigestFn)
      ensures Valid() && fresh(state)
      ensures this.digest == digest
      ensures state.jobCount == 0 && state.hashedPasswords == map[]
      ensures pending == map[] && submitted == []
    {
      this.digest := digest;
      state := new State();
      pending := map[];
      submitted := [];
    }

    /** Reads one entry; an id that was never allocated is an error, a pending one is `""`. */
    method GetPassword(jobID: int) returns (r: Result<string, string>)
      requires Valid()
      ensures r.Failure? <==> jobID < 1 || jobID > state.jobCount
      ensures r.Failure? ==> r == Failure("Invalid jobID")
      ensures r.Success? ==> jobID in state.hashedPasswords && r.value == state.hashedPasswords[jobID]
      ensures r.Success? ==> (r.value == "" <==> jobID in pending)
      ensures r.Success? && r.value != "" ==> r.value == digest(submitted[jobID - 1])
    {
      if jobID !in state.hashedPasswords {
        return Failure("Invalid jobID");
      }
      var val := state.hashedPasswords[jobID];
      r := Success(val);
    }

    /** The number of jobs created, which is the number of entries in the store. */
    method GetJobCount() returns (c: int)
      requires Valid()
      ensures c == state.jobCount
      ensures c == |state.hashedPasswords|
    {
      c := state.jobCount;
      RangeSize(state.hashedPasswords.Keys, c);
    }

    /** Allocates the next id, seeds it as pending and starts its hash goroutine. */
    method RunHash(password: string) returns (jobID: int)
      requires Valid()
      modifies this, state
      ensures Valid()
      ensures jobID == old(state.jobCount) + 1 && state.jobCount == jobID
      ensures jobID !in old(state.hashedPasswords)
      ensures state.hashedPasswords == old(state.hashedPasswords)[jobID := ""]
      ensures pending == old(pending)[jobID := password]
      ensures submitted == old(submitted) + [password]
    {
      TracksSubmit(state.hashedPasswords, pending, submitted, digest, password);
      state.jobCount := state.jobCount + 1;
      jobID := state.jobCount;
      state.hashedPasswords := state.hashedPasswords[jobID := ""];
      pending := pending[jobID := password];
      submitted := submitted + [password];
    }

    /** The end of a `hash` goroutine: stores the digest of its password in its
        own entry and in no other. */
    method Complete(jobID: int, password: string)
      requires Valid()
      requires jobID in pending && pending[jobID] == password
      modifies this, state
      ensures Valid()
      ensures state.jobCount == old(state.jobCount)
      ensures state.hashedPasswords == old(state.hashedPasswords)[jobID := digest(password)]
      ensures old(state.hashedPasswords)[jobID] == ""
      ensures pending == old(pending) - {jobID}
      ensures submitted == old(submitted)
    {
      TracksFinish(state.hashedPasswords, pending, submitted, digest, jobID);
      var pw := digest(password);
      state.hashedPasswords := state.hashedPasswords[jobID := pw];
      pending := pending - {jobID};
    }

    /** The hash goroutines of the jobs in `order` that are still running
        finish, in that order; the counter is untouched. */
    method FinishInOrder(order: seq<int>)
      requires Valid()
      modifies this, state
      ensures Valid()
      ensures state.jobCount == old(state.jobCount)
      ensures forall id :: id in order ==> id !in pending
      ensures submitted == old(submitted)
      ensures pending == old(pending) - (set id | id in order)
    {
      for i := 0 to |order|
        invariant Valid()
        invariant state.jobCount == old(state.jobCount)
        invariant submitted == old(submitted)
        invariant pending == old(pending) - (set id | id in order[..i])
      {
        assert order[..i + 1] == order[..i] + [order[i]];
        if order[i] in pending {
          Complete(order[i], pending[order[i]]);
        }
      }
    }
  }

  /** `ids` is 1, 2, 3, ..., |ids|. */
  ghost predicate Successive(ids: seq<int>) {
    forall i :: 0 <= i < |ids| ==> ids[i] == i + 1
  }

  lemma SuccessiveNext(ids: seq<int>)
    requires Successive(ids)
    ensures Successive(ids + [|ids| + 1])
  {
  }

  /** A client that submits `passwords` one after another to a fresh store is
      handed the ids 1, 2, 3, ... with no gap and no repeat, however the
      background hashes interleave: after the `k`-th submission the still
      running jobs listed in `finished[k]` complete. */
  method SuccessiveIds(digest: DigestFn, passwords: seq<string>, finished: seq<seq<int>>) returns (ids: seq<int>)
    ensures |ids| == |passwords|
    ensures forall i :: 0 <= i < |ids| ==> ids[i] == i + 1
  {
    var h := new Hasher(digest);
    ids := [];
    for k := 0 to |passwords|
      invariant h.Valid() && fresh(h.state)
      invariant h.state.jobCount == k
      invariant |ids| == k && Successive(ids)
    {
      var id := h.RunHash(passwords[k]);
      h.FinishInOrder(if k < |finished| then finished[k] else []);
      SuccessiveNext(ids);
      ids := ids + [id];
    }
  }
}

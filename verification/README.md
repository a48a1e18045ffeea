# Hasher service: job store and HTTP handlers

A model of the core of a small password-hashing service written in Go. Clients
POST a password to `/hash` and get back a job id at once; a background goroutine
computes base64 (RFC 4648, section 4) of SHA-512 (FIPS 180-4) of the password
and writes it into the job store; GET `/hash/{id}` polls the store until that
result exists, returns it and logs how long the request took; GET `/stats`
reports the number of jobs and an "average" latency. A shutdown signal closes a
gate after which every endpoint answers 423.

Files:

- `wrappers.dfy`: the `Option` and `Result` values used for failures.
- `hasher.dfy` (module `Hasher`): the job store. `State` is the counter plus
  the id-to-result map. `Hasher` adds two things: the goroutines that `RunHash`
  started and that have not yet written their result (`pending`, id to
  password), and the history of submitted passwords (ghost `submitted`). Each
  mutex-guarded section is one method. The tail of the `hash` goroutine is
  `Complete`. The store's invariant (`Hasher.Valid`, restated on plain values
  as `Hasher.Tracks` for the lemmas about it) says that the map's ids are exactly `1..jobCount`. An entry
  is `""` exactly while its goroutine is pending. Afterwards it is the digest of
  the password that job was given.
- `decimal.dfy` (module `Decimal`): `%d` rendering of ids (`Itoa`) and base-10
  `strconv.Atoi` (`Atoi`, `None` for any error), with their round trip.
- `api.dfy` (module `Api`): requests and responses as datatypes. `Admit` is the
  gate-then-method check every endpoint runs first. `IdSuffix` takes the id text
  from the path. The latency arithmetic is `Sum` and `Average`. `HasherApi`
  holds the store, the gate and the latency log, and has one method per endpoint.

The digest is a parameter of the store (`Hasher.DigestFn`, a function from
string to string). The only thing assumed of it is that every result has 88
characters, the length of padded base64 of a 64-byte digest. That assumption is
what makes a finished result differ from the `""` pending marker, which the poll
loop of GET `/hash/{id}` relies on.

While a GET `/hash/{id}` handler sleeps between polls, some pending `hash`
goroutine finishes. The model picks that goroutine arbitrarily. The loop ends
because each sleep shrinks the set of pending jobs, and the requested job is
pending for as long as its entry is `""`. The loop's own "not a valid ID"
branch (pkg/api/api.go:103-105) is proved unreachable: an id once allocated is
never removed from the map.

The stats endpoint halves the total latency and converts it to milliseconds. It
divides by 2 whatever the number of samples. The model keeps that literal
divisor. `Api.AverageOfEqualLatencies` shows the consequence: `n` requests of
`d` nanoseconds each report `n * d / 2`, which is their mean only when `n == 2` or `d == 0`.

A closed gate answers 423 Locked (pkg/api/api.go:57). Latencies are appended
to the log without any lock (pkg/api/api.go:110); only the sequential effect of
that append is modelled.

## Model

| member | source | states |
|---|---|---|
| `Hasher.State.constructor` | pkg/hasher/hasher.go:37-40 | the store starts with no jobs and an empty map, which satisfies the id-range invariant |
| `Hasher.State.Inc` | pkg/hasher/hasher.go:20-24 | returns the old count plus one, which was not yet an id; the map gains exactly that id as pending; the id-range invariant is kept |
| `Hasher.Hasher.constructor` | pkg/hasher/hasher.go:34-43 | a fresh store has job count 0, an empty map and no running goroutines |
| `Hasher.Hasher.GetPassword` | pkg/hasher/hasher.go:47-57 | fails with "Invalid jobID" exactly when the id is below 1 or above the job count; otherwise returns the stored value, which is `""` exactly while the job is pending and otherwise the digest of the password submitted for that id; the state is unchanged |
| `Hasher.Hasher.GetJobCount` | pkg/hasher/hasher.go:61-67 | returns the job count, which equals the number of entries in the store; the state is unchanged |
| `Hasher.Hasher.RunHash` | pkg/hasher/hasher.go:71-80 | allocates old count plus one, seeds it as `""` and leaves every earlier entry as it was; starts exactly one goroutine, for that id and with that password; keeps the store invariant |
| `Hasher.Hasher.Complete` | pkg/hasher/hasher.go:95-100 | a pending goroutine writes the digest of its own password into its own entry, which was `""`; the job count and every other entry are unchanged; keeps the store invariant |
| `Hasher.TracksSubmit` | pkg/hasher/hasher.go:71-80 | allocating the next id as `""` with a running goroutine for the new password keeps the store invariant, and that id was not yet allocated |
| `Hasher.TracksFinish` | pkg/hasher/hasher.go:95-100 | a running goroutine's entry is `""`, and writing the digest of its own password there as it stops running keeps the store invariant |
| `Hasher.Hasher.FinishInOrder` | pkg/hasher/hasher.go:95-100 | the still-running hash goroutines of the listed jobs finish, in any chosen order: exactly the listed jobs leave the pending set and every other goroutine keeps running; the job count and the submitted passwords are untouched and the store invariant is kept |
| `Hasher.SuccessiveIds` | pkg/hasher/hasher.go:71-79 | a fresh store hands out the ids 1, 2, 3, ... to successive submissions, with no gap and no repeat, whichever background hashes finish in between |
| `Decimal.Itoa` | pkg/api/api.go:81 | the `%d` rendering of a job id is a non-empty string of digits with no leading zero |
| `Decimal.ItoaValue` | pkg/api/api.go:81 | the digits of the rendering of `n` have the value `n` |
| `Decimal.Atoi` | pkg/api/api.go:88-92 | a successful parse means the text was an optional sign followed by at least one digit, and the value lies in the 64-bit range |
| `Decimal.AtoiItoa` | pkg/api/api.go:88 | parsing the rendering of any non-negative 64-bit id gives back that id |
| `Decimal.AtoiNegative` | pkg/api/api.go:88 | a leading minus sign parses to the negated value, down to the smallest 64-bit integer |
| `Decimal.ZerosPrefixValue` | pkg/api/api.go:88 | leading zeros do not change the value of a run of digits |
| `Decimal.AtoiDigits` | pkg/api/api.go:88 | any non-empty run of digits whose value fits in 64 bits parses to that value, with or without a leading plus sign |
| `Decimal.AtoiNonCanonical` | pkg/api/api.go:88 | `/hash/01` and `/hash/+1` name job 1: leading zeros and a plus sign before a rendered id still parse to that id |
| `Decimal.AtoiSigned` | pkg/api/api.go:88-92 | a minus sign before any digit run, leading zeros included, gives its negated value down to the smallest 64-bit int and is an error below it; a digit run above the largest 64-bit int is an error bare or after a plus sign |
| `Decimal.AtoiOutOfRange` | pkg/api/api.go:88-92 | a rendered number above the largest 64-bit int is a parse error, so GET answers "jobID was an incorrect format" |
| `Decimal.AtoiRejectsNonDigit` | pkg/api/api.go:88-92 | any character that is neither a digit nor a leading sign makes the parse fail (a corollary of the syntax `Atoi` accepts) |
| `Api.Admit` | pkg/api/api.go:51-69 | a closed gate gives 423 whatever the method; an open gate with the wrong method gives 405; the handler runs exactly when the gate is open and the method matches |
| `Api.IdSuffix` | pkg/api/api.go:85 | the id text is what follows the 6-character prefix `/hash/`: prefix plus id text is the path |
| `Api.PostedIdRoundTrip` | pkg/api/api.go:80-88 | the id returned in a POST body, put after `/hash/`, is parsed back by the GET handler as the same id |
| `Api.Sum` | pkg/api/api.go:121-127 | the nanosecond total of the log, which is at least every single latency in it |
| `Api.Average` | pkg/api/api.go:129-135 | the total halved, then in whole milliseconds: the result is the largest `ms` with `ms * 2_000_000` at most the total |
| `Api.SumAppend` | pkg/api/api.go:121-127 | the latency total of two logs joined is the sum of their totals |
| `Api.AverageOfEqualLatencies` | pkg/api/api.go:129-136 | with the literal divisor 2, `n` equal latencies `d` report `n * d / 2` nanoseconds in whole milliseconds, not their mean |
| `Api.AverageGrows` | pkg/api/api.go:110-131 | one more logged request adds its latency to the total, and the reported average never decreases |
| `Api.HasherApi.constructor` | pkg/api/api.go:24-32 | a new server has an open gate, an empty latency log and a fresh empty store |
| `Api.HasherApi.CloseGate` | cmd/hashersrv/main.go:23 | the shutdown signal closes the gate; no method opens it again |
| `Api.HasherApi.PostHash` | pkg/api/api.go:71-82 | closed gate: 423 and no job; wrong method: 405 and no job; empty password: 422 and the job count unchanged; otherwise exactly one job, seeded pending with that password, and the body is the decimal rendering of its id |
| `Api.HasherApi.GetHash` | pkg/api/api.go:84-112 | closed gate 423, wrong method 405, non-numeric id 422, unknown id 422, each with the log and the store unchanged; for a known id, returns the digest of the password submitted for it, which is non-empty, once its goroutine has finished, and appends exactly one latency to the log; the job count and the submitted passwords are unchanged |
| `Api.HasherApi.Lookup` | pkg/api/api.go:94-111 | an id outside `1..jobCount` gives 422 "JobID is not a valid ID" with the log and the store unchanged; an allocated id is answered with the non-empty digest of the password submitted for it and logs exactly one latency; the job count and the submitted passwords are unchanged |
| `Api.HasherApi.Poll` | pkg/api/api.go:100-107 | the wait loop ends, and only with the job's finished result: the non-empty digest of the password submitted for that id; the job is no longer pending, no job was added and no new goroutine started |
| `Api.HasherApi.GetStats` | pkg/api/api.go:114-136 | closed gate 423, wrong method 405; otherwise total is the job count and average is `((sum of the log) / 2) / 1_000_000` |

## Left out

- Goroutines, `sync.Mutex` and `time.Sleep`: each locked section is one atomic method, and each poll interval is one finished goroutine.
- Api.HasherApi.GetHash: the handler spans several locked reads (pkg/api/api.go:94, 102), yet it is one method here, and only hash goroutines make progress while it polls. No other request interleaves with it: no POST and no other GET's log append. That is why its contract can say the job count and the submitted passwords are unchanged. `Api.HasherApi.Lookup` and `Api.HasherApi.Poll` are modelled the same way.
- The `WaitGroup` of outstanding jobs and the shutdown's wait on it (pkg/hasher/hasher.go:85, 103; cmd/hashersrv/main.go:25). `Add(1)` runs inside the goroutine, so the drain races with goroutine start-up. A sequential model cannot show that race.
- The data race on the unsynchronised append to the latency log (pkg/api/api.go:110): only its sequential effect is modelled.
- SHA-512 and base64 are library code (pkg/hasher/hasher.go:87-96). The digest is a parameter, assumed only to return 88 characters.
- The fatal exit when writing to the SHA-512 state fails (pkg/hasher/hasher.go:89-93): that write cannot fail.
- The library code of `strconv.Atoi` and `fmt` is not modelled; its base-10 behaviour on 64-bit ints is written out in `Decimal`.
- `fmt.Fprintf` uses the response text as a format string (pkg/api/api.go:81, 109). Job ids and base64 text contain no `%`, so the body is the text itself.
- Routing, `ServeMux`, `ListenAndServe` and response writers (pkg/api/api.go:40-49). Each endpoint is a method of its own. The GET `/hash/{id}` method requires its path to start with `/hash/`, which the router guarantees.
- Form parsing: a request carries the `password` form value directly, `""` when absent.
- Go strings are byte sequences; here passwords and paths are Dafny strings, sequences of Unicode scalar values. A form value that decodes to bytes that are not valid UTF-8 (such as `password=%FF`) has no counterpart in the model, and the digest stands for SHA-512 of the password's UTF-8 encoding. The branches of the core do not depend on the difference: the empty-password check, the ASCII digit test of `Atoi` and the cut after the 6-character ASCII prefix `/hash/` behave the same on bytes and on characters.
- JSON marshalling of the stats and its 500 responses (pkg/api/api.go:138-147): a struct of two integers always marshals, and a failed write is I/O.
- The wall clock: the elapsed time of a GET `/hash/{id}` is a parameter, a non-negative number of nanoseconds.
- Hasher.Hasher.RunHash: does not model the wrap-around of Go's `int` `JobCount` after 2^63-1 jobs, because the counter is an unbounded integer here.
- Hasher.State.Inc: does not model the wrap-around of `JobCount` either, for the same reason.
- Api.Sum: does not model the 64-bit overflow of Go's `time.Duration` sum, because durations are unbounded naturals here.
- Logging, the port, flag parsing and signal handling (cmd/hashersrv/main.go) are left out. `CloseGate` is what the signal does to the server.
- The load-test client (cmd/hashercli/main.go).

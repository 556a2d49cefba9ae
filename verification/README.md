# Vote tally service — Dafny model

A model of the vote-counting HTTP service in `service/pkg.go`. The service keeps one in-memory
tally, a map from candidate ID to number of votes. `POST /vote` records one vote for the
`candidate_id` in its JSON body. `GET /stats` returns the whole tally, or the count of the
candidate named by the `candidate_id` query parameter.

The model is sequential and functional:

- `optional.dfy` (`Optional`): the `Option` type.
- `decimal.dfy` (`Decimal`): `strconv.ParseUint(s, 10, 32)` as the stats handler uses it.
  The input must be non-empty, contain ASCII digits only and fit in 32 bits. Digits are scanned
  left to right with an early exit. The module also holds the canonical decimal spelling of a
  number and the round trip between the two.
- `tally.dfy` (`Tally`): the `Service` tally as an immutable `map<Uint, nat>` (type `TallyMap`), plus
  `NewService`, `AddVote`, `GetStats` and `GetStatsForCandidate`. `Replay` folds a sequence of
  votes into a new service.
- `handlers.dfy` (`Handlers`): `VoteHandler` and `StatsHandler`. Each is a pure function from
  the tally and an abstract request to a status code, a payload and the tally afterwards.
- `session.dfy` (`Session`): a sequence of requests handled in order from a new service.

Candidate IDs are Go `uint` values on a 64-bit platform (`Uint`, at most 2^64-1). Vote counts
are unbounded `nat`s.

Three behaviours of the code worth knowing:

- `GetStats` hands out the live map without taking the lock. It does not return a snapshot.
- The stats handler accepts `candidate_id=0`. It answers 404, because no vote for 0 is ever
  recorded (`StatsForZero`).
- The vote handler accepts any 64-bit ID. The stats handler only parses 32-bit IDs. So a
  candidate above 2^32-1 can receive votes, appears in the full tally, and gets 400 when queried
  by ID (`VotedButNotQueryable`).

## Model

| member | source | states |
|---|---|---|
| Tally.NewService | service/pkg.go:132-136 | a new service has no candidate in its tally, so the tally trivially satisfies the at-least-one-vote invariant |
| Tally.AddVote | service/pkg.go:19-27 | after a vote the candidate is present with its previous count (0 if absent) plus one; the key set only gains the candidate; every other count is unchanged; the invariant "every present candidate has ≥ 1 vote" is preserved |
| Tally.AddVoteCounts | service/pkg.go:19-27 | read with missing keys as zero, a vote adds exactly one to its candidate and nothing to anybody else |
| Tally.GetStatsForCandidate | service/pkg.go:35-43 | no error exactly when the candidate is present; the returned count is the stored count, 0 with a `NoData(id)` error when absent; under the invariant, an error is returned exactly when the count is 0 |
| Tally.ReplayCounts | service/pkg.go:19-27 | after any sequence of votes from a new service, each candidate's count is its number of occurrences in the sequence, the present candidates are exactly those voted for, and the invariant holds |
| Tally.LookupAfterVotes | service/pkg.go:35-43 | after any sequence of votes, `GetStatsForCandidate(id)` returns the number of votes for `id` and errs exactly when that number is 0 |
| Tally.StatsAfterVotes | service/pkg.go:30-32 | after any sequence of votes, `GetStats` has exactly the candidates voted for as keys, each mapped to its number of votes |
| Tally.StatsExample | service/pkg.go:19-32 | votes 1, 1, 2, 3, 3, 3, in any order, leave the tally {1:2, 2:1, 3:3} and nothing else |
| Decimal.ScanFrom | service/pkg.go:96 | the left-to-right digit scan with early exit on a non-digit or on leaving 32 bits succeeds exactly when the whole text is digits with value ≤ 2^32-1, and then yields that value |
| Decimal.ParseUint32 | service/pkg.go:96 | `ParseUint(s, 10, 32)` succeeds exactly for non-empty all-digit text whose value fits in 32 bits, and returns that value |
| Decimal.ParseDecimalString | service/pkg.go:96 | parsing the decimal spelling of `n` gives back `n` when `n` ≤ 2^32-1 and fails otherwise |
| Decimal.LeadingZero | service/pkg.go:96 | a leading zero does not change the parse result ("007" parses as 7, "0x" still fails) |
| Handlers.VoteHandler | service/pkg.go:46-71 | a non-POST gets 405 before the body is looked at; then a failed read gets 500; then a failed decode or a zero ID gets 400; otherwise 200 with no body; 200 happens exactly for accepted votes and records exactly one `AddVote` of the ID; every other answer leaves the tally unchanged |
| Handlers.VoteHandlerCounts | service/pkg.go:63-70 | a vote request adds one to its accepted candidate's count and nothing elsewhere; the tally changes exactly when the answer is 200 |
| Handlers.VoteHandlerReachable | service/pkg.go:63-68 | the vote handler keeps the invariant: every present candidate has a vote and ID 0 is never a key |
| Handlers.StatsHandler | service/pkg.go:74-129 | the tally is never changed; with an empty or absent `candidate_id` the answer is 200 with the whole tally; 400 exactly when the value is non-empty and not a decimal of at most 32 bits; 404 exactly when the parsed ID is absent; a parsed, present ID is answered 200 with that ID and its stored count (whatever its spelling, e.g. "007"); 400 and 404 carry no body; no other status occurs |
| Handlers.StatsForCandidate | service/pkg.go:96-116 | querying the spelling of a 32-bit ID answers 200 with its stored count when present and 404 when absent |
| Handlers.StatsForZero | service/pkg.go:96-107 | on any reachable tally, the query `candidate_id=0` answers 404 |
| Handlers.VotedButNotQueryable | service/pkg.go:52-100 | a vote for an ID above 2^32-1 is recorded with 200, but querying that ID answers 400 |
| Session.RunReplaysAcceptedVotes | service/pkg.go:46-71 | any sequence of vote and stats requests from a new service leaves exactly the tally built by the votes it accepted, and that tally is reachable |
| Session.QueryAfterRun | service/pkg.go:74-116 | after any request sequence, querying a 32-bit ID answers its number of accepted votes, or 404 when there were none |
| Session.ExampleExchange | service/pkg.go:46-116 | a POST with ID 0 gets 400, a GET to the vote handler 405, an undecodable body 400, a POST for 5 gets 200; afterwards `candidate_id=5` answers one vote and `candidate_id=999` answers 404 |

## Left out

- Locking: the `sync.RWMutex` and its lock/unlock calls are not modelled. Every operation is one
  atomic step on an immutable map. Concurrent lost-update freedom is not stated.
- Tally.AddVote: counts are unbounded `nat`s. The 64-bit wrap of `stats[id]++` after 2^64-1
  votes is not modelled. The at-least-one-vote invariant holds only below that bound.
- Tally.GetStats: has no contract of its own. It returns the live map with no copy or snapshot
  semantics. What it returns after a run of votes is stated by `Tally.StatsAfterVotes`.
- HTTP plumbing: `ResponseWriter`, `Request`, headers (`Content-Type`) and `w.Write` are left
  out. A response is a status code plus a payload.
- Query-string handling: `r.URL.Query().Get` is left out (percent-decoding, repeated
  parameters). The stats request carries the already-extracted value, "" when absent or empty.
- JSON: `json.Unmarshal` and the body read are abstract inputs (`BodyRead`, `Decoded`). A missing
  or `null` `candidate_id` is represented as a decode to 0, and an ID outside `uint` as a decode
  failure.
- JSON encoding: `json.Marshal` is left out. Its 500 branches (service/pkg.go:82-85, 119-122)
  cannot be taken for a `map[uint]uint` or a struct of two `uint`s, so the model has no 500 in
  the stats handler. The payloads carry the values the JSON would encode.
- `strconv.ParseUint` is not part of this model as source. Its base-10, bit-size-32 behaviour
  is modelled from its documented contract. Syntax and range errors are not told apart, because
  the handler maps both to 400.
- The `Passport` field is decoded and then ignored. It is carried in `DecodeOk` and has no
  effect.
- The `fmt.Printf` diagnostics on write failure are left out.
- `main.go` is left out: server startup, route registration, `ListenAndServe` and `log.Fatalf`.
  `Session` dispatches on the request kind instead of on the path.

/**
 * The two HTTP handlers of `Service` (service/pkg.go:46-129) as decision tables. A request is
 * reduced to what the handler looks at: the method and the outcomes of reading and decoding the
 * body for the vote handler, the `candidate_id` query value for the stats handler. A response
 * is a status code and a payload; headers and the JSON text are not modelled.
 */
module Handlers {
  import opened Optional
  import opened Decimal
  import opened Tally

  const StatusOK: nat := 200
  const StatusBadRequest: nat := 400
  const StatusNotFound: nat := 404
  const StatusMethodNotAllowed: nat := 405
  const StatusInternalServerError: nat := 500

  /** The method the vote handler accepts (`http.MethodPost`). */
  const MethodPost: string := "POST"

  /** The outcome of decoding the JSON body into `{candidate_id, passport}`. A missing
   *  `candidate_id` field decodes to 0. */
  datatype Decoded = DecodeFailed | DecodeOk(candidateId: Uint, passport: string)

  /** The outcome of reading the whole request body. */
  datatype BodyRead = ReadFailed | ReadOk(decoded: Decoded)

  datatype VoteRequest = VoteRequest(httpMethod: string, body: BodyRead)

  /** A stats request: the value of the `candidate_id` query parameter, "" when it is
   *  absent or empty. */
  datatype StatsRequest = StatsRequest(candidateIdParam: string)

  datatype Payload =
    | NoPayload
    | AllStats(stats: TallyMap)
    | CandidateStats(candidateId: Uint, votes: nat)

  datatype Response = Response(status: nat, payload: Payload)

  /** A handler's response together with the tally after the request. */
  datatype Outcome = Outcome(response: Response, tally: TallyMap)

  /** The candidate a vote request validly names: a POST whose body was read and decoded
   *  with a non-zero `candidate_id`. */
  function AcceptedCandidate(req: VoteRequest): Option<Uint> {
    if req.httpMethod == MethodPost && req.body.ReadOk? && req.body.decoded.DecodeOk?
       && req.body.decoded.candidateId != 0
    then Some(req.body.decoded.candidateId)
    else None
  }

  /** The tallies a running service can hold: every present candidate has a vote and the
   *  reserved ID 0 never appears. */
  ghost predicate Reachable(t: TallyMap) {
    Valid(t) && 0 !in t
  }

  /**
   * `VoteHandler`: the method is checked first (405), then the body read (500), then the
   * decode and the zero ID (400); only a request that passes all three records its vote, once,
   * and gets 200 with no body. Every other request leaves the tally as it was.
   */
  function VoteHandler(t: TallyMap, req: VoteRequest): (o: Outcome)
    ensures req.httpMethod != MethodPost ==> o.response.status == StatusMethodNotAllowed
    ensures req.httpMethod == MethodPost && req.body.ReadFailed? ==>
              o.response.status == StatusInternalServerError
    ensures req.httpMethod == MethodPost && req.body.ReadOk? ==>
              o.response.status == (if AcceptedCandidate(req).Some? then StatusOK else StatusBadRequest)
    ensures o.response.payload == NoPayload
    ensures o.response.status == StatusOK <==> AcceptedCandidate(req).Some?
    ensures o.response.status == StatusOK ==> o.tally == AddVote(t, AcceptedCandidate(req).value)
    ensures o.response.status != StatusOK ==> o.tally == t
  {
    if req.httpMethod != MethodPost then
      Outcome(Response(StatusMethodNotAllowed, NoPayload), t)
    else if req.body.ReadFailed? then
      Outcome(Response(StatusInternalServerError, NoPayload), t)
    else if req.body.decoded.DecodeFailed? || req.body.decoded.candidateId == 0 then
      Outcome(Response(StatusBadRequest, NoPayload), t)
    else
      var id := req.body.decoded.candidateId;
      Outcome(Response(StatusOK, NoPayload), AddVote(t, id))
  }

  /** A vote request changes the count of its accepted candidate by one and of nobody else,
   *  and the tally changes exactly when the answer is 200. */
  lemma VoteHandlerCounts(t: TallyMap, req: VoteRequest, id: Uint)
    ensures var o := VoteHandler(t, req);
            Count(o.tally, id) == Count(t, id) + (if AcceptedCandidate(req) == Some(id) then 1 else 0)
    ensures VoteHandler(t, req).tally != t <==> VoteHandler(t, req).response.status == StatusOK
  {
    var o := VoteHandler(t, req);
    if o.response.status == StatusOK {
      var c := AcceptedCandidate(req).value;
      AddVoteCounts(t, c, id);
      AddVoteCounts(t, c, c);
      assert Count(o.tally, c) != Count(t, c);
    }
  }

  /** The vote handler keeps the tally reachable. */
  lemma VoteHandlerReachable(t: TallyMap, req: VoteRequest)
    requires Reachable(t)
    ensures Reachable(VoteHandler(t, req).tally)
  {
  }

  /**
   * `StatsHandler`: with an empty or absent `candidate_id` it answers 200 with the whole tally;
   * otherwise the value must parse as a 32-bit decimal (400), the candidate must have votes
   * (404), and the answer is the parsed ID with its stored count. The tally is never changed.
   */
  function StatsHandler(t: TallyMap, req: StatsRequest): (o: Outcome)
    ensures o.tally == t
    ensures req.candidateIdParam == "" ==> o.response == Response(StatusOK, AllStats(t))
    ensures o.response.status == StatusBadRequest <==>
              req.candidateIdParam != "" && !(IsDigits(req.candidateIdParam) && Value(req.candidateIdParam) <= MaxUint32)
    ensures o.response.status == StatusNotFound <==>
              ParseUint32(req.candidateIdParam).Some? && ParseUint32(req.candidateIdParam).value !in t
    ensures ParseUint32(req.candidateIdParam).Some? && ParseUint32(req.candidateIdParam).value in t ==>
              var id := ParseUint32(req.candidateIdParam).value;
              o.response == Response(StatusOK, CandidateStats(id, t[id]))
    ensures o.response.status != StatusOK ==> o.response.payload == NoPayload
    ensures o.response.status in {StatusOK, StatusBadRequest, StatusNotFound}
  {
    if req.candidateIdParam == "" then
      Outcome(Response(StatusOK, AllStats(GetStats(t))), t)
    else
      match ParseUint32(req.candidateIdParam)
      case None => Outcome(Response(StatusBadRequest, NoPayload), t)
      case Some(n) =>
        var lookup := GetStatsForCandidate(t, n);
        if lookup.err.Some? then Outcome(Response(StatusNotFound, NoPayload), t)
        else Outcome(Response(StatusOK, CandidateStats(n, lookup.votes)), t)
  }

  /** Querying the spelling of an ID of at most 32 bits answers 404 when it has no votes and
   *  200 with its count otherwise. */
  lemma StatsForCandidate(t: TallyMap, id: Uint)
    requires id <= MaxUint32
    ensures StatsHandler(t, StatsRequest(DecimalString(id))).response ==
              if id in t then Response(StatusOK, CandidateStats(id, t[id]))
              else Response(StatusNotFound, NoPayload)
  {
    ParseDecimalString(id);
  }

  /** On a reachable tally the query `candidate_id=0` is always 404: ID 0 can never be voted for. */
  lemma StatsForZero(t: TallyMap)
    requires Reachable(t)
    ensures StatsHandler(t, StatsRequest("0")).response == Response(StatusNotFound, NoPayload)
  {
    assert ParseUint32("0") == Some(0) by {
      assert Value("0") == Value("0"[..0]) * 10 + DigitValue('0');
    }
  }

  /**
   * An ID above 32 bits is accepted by the vote handler, which decodes into a 64-bit `uint`,
   * but the stats handler refuses its spelling with 400 even though the vote is in the tally.
   */
  lemma VotedButNotQueryable(t: TallyMap, id: Uint, passport: string)
    requires id > MaxUint32
    ensures var o := VoteHandler(t, VoteRequest(MethodPost, ReadOk(DecodeOk(id, passport))));
            o.response.status == StatusOK && id in o.tally
            && StatsHandler(o.tally, StatsRequest(DecimalString(id))).response.status == StatusBadRequest
  {
    ParseDecimalString(id);
  }
}

/**
 * A run of the service: requests handled one after another by the vote and stats handlers,
 * starting from `NewService`. Request routing and concurrency are not modelled; the tally a
 * run ends in is what the same requests leave when handled in this order.
 */
module Session {
  import opened Optional
  import opened Decimal
  import opened Tally
  import opened Handlers

  datatype Request = VoteCall(vote: VoteRequest) | StatsCall(stats: StatsRequest)

  function Handle(t: TallyMap, req: Request): Outcome {
    match req
    case VoteCall(v) => VoteHandler(t, v)
    case StatsCall(s) => StatsHandler(t, s)
  }

  /** The tally after handling `reqs` in order on a new service. */
  function Run(reqs: seq<Request>): TallyMap {
    if |reqs| == 0 then NewService()
    else Handle(Run(reqs[..|reqs| - 1]), reqs[|reqs| - 1]).tally
  }

  /** The candidate IDs whose votes the requests `reqs` record, in order. */
  function AcceptedVotes(reqs: seq<Request>): (votes: seq<Uint>)
    ensures forall id :: id in votes ==> id != 0
  {
    if |reqs| == 0 then []
    else
      var init := AcceptedVotes(reqs[..|reqs| - 1]);
      var last := reqs[|reqs| - 1];
      if last.VoteCall? && AcceptedCandidate(last.vote).Some?
      then init + [AcceptedCandidate(last.vote).value]
      else init
  }

  /** A run leaves exactly the tally its accepted votes would build, and that tally is
   *  reachable. */
  lemma {:induction false} RunReplaysAcceptedVotes(reqs: seq<Request>)
    ensures Run(reqs) == Replay(AcceptedVotes(reqs))
    ensures Reachable(Run(reqs))
  {
    if |reqs| > 0 {
      var init := reqs[..|reqs| - 1];
      RunReplaysAcceptedVotes(init);
      var votes := AcceptedVotes(reqs);
      var last := reqs[|reqs| - 1];
      if last.VoteCall? && AcceptedCandidate(last.vote).Some? {
        assert votes[..|votes| - 1] == AcceptedVotes(init);
      }
      if last.VoteCall? {
        VoteHandlerReachable(Run(init), last.vote);
      }
    }
  }

  /**
   * After any run, the stats query for a 32-bit ID answers with the number of accepted votes
   * for that ID, or 404 when there were none.
   */
  lemma QueryAfterRun(reqs: seq<Request>, id: Uint)
    requires id <= MaxUint32
    ensures var n := multiset(AcceptedVotes(reqs))[id];
            StatsHandler(Run(reqs), StatsRequest(DecimalString(id))).response ==
              if n == 0 then Response(StatusNotFound, NoPayload)
              else Response(StatusOK, CandidateStats(id, n))
  {
    RunReplaysAcceptedVotes(reqs);
    ReplayCounts(AcceptedVotes(reqs));
    StatsForCandidate(Run(reqs), id);
  }

  /**
   * A sample exchange: `POST /vote {"candidate_id": 0}` is refused with 400, `GET /vote`
   * with 405, an undecodable body with 400; after `POST /vote {"candidate_id": 5}` (200) the
   * query `candidate_id=5` answers one vote and `candidate_id=999` answers 404.
   * The requests are a parameter fixed by `requires`: with the literal inside the `ensures`,
   * the verifier unfolds `Run` on it without bound.
   */
  lemma ExampleExchange(reqs: seq<Request>)
    requires reqs == [
      VoteCall(VoteRequest("POST", ReadOk(DecodeOk(0, "p")))),
      VoteCall(VoteRequest("GET", ReadOk(DecodeOk(5, "p")))),
      VoteCall(VoteRequest("POST", ReadOk(DecodeFailed))),
      VoteCall(VoteRequest("POST", ReadOk(DecodeOk(5, "p"))))]
    ensures Handle(Run(reqs[..0]), reqs[0]).response.status == StatusBadRequest
    ensures Handle(Run(reqs[..1]), reqs[1]).response.status == StatusMethodNotAllowed
    ensures Handle(Run(reqs[..2]), reqs[2]).response.status == StatusBadRequest
    ensures Handle(Run(reqs[..3]), reqs[3]).response.status == StatusOK
    ensures StatsHandler(Run(reqs), StatsRequest("5")).response == Response(StatusOK, CandidateStats(5, 1))
    ensures StatsHandler(Run(reqs), StatsRequest("999")).response == Response(StatusNotFound, NoPayload)
  {
    assert AcceptedCandidate(reqs[0].vote) == None;
    assert AcceptedCandidate(reqs[1].vote) == None;
    assert AcceptedCandidate(reqs[2].vote) == None;
    assert AcceptedCandidate(reqs[3].vote) == Some(5);
    assert AcceptedVotes(reqs) == [5] by {
      var r1, r2, r3 := reqs[..1], reqs[..2], reqs[..3];
      assert r1[..0] == [] && r2[..1] == r1 && r3[..2] == r2 && reqs[..3] == r3;
      assert AcceptedVotes(r1) == [];
      assert AcceptedVotes(r2) == [];
      assert AcceptedVotes(r3) == [];
    }
    assert multiset(AcceptedVotes(reqs))[5] == 1 && multiset(AcceptedVotes(reqs))[999] == 0;
    assert DecimalString(5) == "5";
    assert DecimalString(999) == "999" by {
      assert DecimalString(99) == "99";
    }
    QueryAfterRun(reqs, 5);
    QueryAfterRun(reqs, 999);
  }
}

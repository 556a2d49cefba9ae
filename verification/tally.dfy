/**
 * The vote tally held by `Service` (service/pkg.go:13-16): a map from candidate ID to the
 * number of votes received. The readers-writer lock around it is not modelled; every operation
 * is a pure function from the tally before the call to the result and the tally after it.
 */
module Tally {
  import opened Optional

  /** Largest value of Go's `uint` on a 64-bit platform. */
  const MaxUint: nat := 0xFFFF_FFFF_FFFF_FFFF

  /** A candidate ID: a Go `uint`. */
  type Uint = n: nat | n <= MaxUint

  /** Candidate ID to vote count. Counts are unbounded (the 64-bit wrap is not modelled). */
  type TallyMap = map<Uint, nat>

  /** The error `GetStatsForCandidate` returns for a candidate without votes. */
  datatype NoData = NoData(candidateId: Uint)

  /** The `(uint, error)` pair `GetStatsForCandidate` returns. */
  datatype Lookup = Lookup(votes: nat, err: Option<NoData>)

  /** The votes of `id`, reading a missing key as zero. */
  function Count(t: TallyMap, id: Uint): nat {
    if id in t then t[id] else 0
  }

  /** Every candidate present in the tally has at least one vote. */
  ghost predicate Valid(t: TallyMap) {
    forall id :: id in t ==> t[id] >= 1
  }

  /** `NewService`: a service with an empty tally. */
  function NewService(): (t: TallyMap)
    ensures forall id :: id !in t
    ensures Valid(t)
  {
    map[]
  }

  /**
   * `AddVote`: a missing candidate is first inserted at zero, then the candidate's count is
   * incremented.
   */
  function AddVote(t: TallyMap, id: Uint): (t': TallyMap)
    ensures t'.Keys == t.Keys + {id}
    ensures t'[id] == Count(t, id) + 1
    ensures forall other :: other in t && other != id ==> t'[other] == t[other]
    ensures Valid(t) ==> Valid(t')
  {
    var seeded := if id !in t then t[id := 0] else t;
    seeded[id := seeded[id] + 1]
  }

  /** `GetStats`: the tally itself, not a copy taken under the lock. */
  function GetStats(t: TallyMap): TallyMap {
    t
  }

  /**
   * `GetStatsForCandidate`: the stored count and no error for a present candidate, and
   * zero with a `NoData` error for an absent one. It reads the tally and does not change it.
   */
  function GetStatsForCandidate(t: TallyMap, id: Uint): (r: Lookup)
    ensures r.err.None? <==> id in t
    ensures r.votes == Count(t, id)
    ensures r.err.Some? ==> r.err.value == NoData(id)
    ensures Valid(t) ==> (r.err.Some? <==> r.votes == 0)
  {
    if id in t then Lookup(t[id], None) else Lookup(0, Some(NoData(id)))
  }

  /** A vote adds one to its own candidate and zero to every other candidate. */
  lemma AddVoteCounts(t: TallyMap, id: Uint, other: Uint)
    ensures Count(AddVote(t, id), other) == Count(t, other) + (if other == id then 1 else 0)
  {
  }

  /** The tally after the votes `votes`, cast one after another into a new service. */
  function Replay(votes: seq<Uint>): TallyMap {
    if |votes| == 0 then NewService()
    else AddVote(Replay(votes[..|votes| - 1]), votes[|votes| - 1])
  }

  /**
   * After a sequence of votes every candidate's count is the number of times it occurs in
   * the sequence, the candidates present are exactly those voted for, and every present
   * candidate has at least one vote.
   */
  lemma {:induction false} ReplayCounts(votes: seq<Uint>)
    ensures forall id :: Count(Replay(votes), id) == multiset(votes)[id]
    ensures forall id :: id in Replay(votes) <==> id in votes
    ensures Valid(Replay(votes))
  {
    if |votes| > 0 {
      var init, last := votes[..|votes| - 1], votes[|votes| - 1];
      assert votes == init + [last];
      ReplayCounts(init);
      forall id: Uint
        ensures Count(Replay(votes), id) == multiset(votes)[id]
      {
        AddVoteCounts(Replay(init), last, id);
      }
    }
  }

  /**
   * `GetStatsForCandidate` after a sequence of votes reports the number of votes cast for the
   * candidate, and errs exactly when there were none.
   */
  lemma LookupAfterVotes(votes: seq<Uint>, id: Uint)
    ensures GetStatsForCandidate(Replay(votes), id).votes == multiset(votes)[id]
    ensures GetStatsForCandidate(Replay(votes), id).err.Some? <==> multiset(votes)[id] == 0
  {
    ReplayCounts(votes);
  }

  /** `GetStats` after a sequence of votes maps each candidate voted for to its number of votes. */
  lemma StatsAfterVotes(votes: seq<Uint>)
    ensures GetStats(Replay(votes)).Keys == set id | id in votes
    ensures forall id :: id in GetStats(Replay(votes)) ==> GetStats(Replay(votes))[id] == multiset(votes)[id]
  {
    ReplayCounts(votes);
  }

  /** Votes for 1, 1, 2, 3, 3, 3, cast in any order, leave exactly the counts 1:2, 2:1
   *  and 3:3. */
  lemma StatsExample(votes: seq<Uint>)
    requires multiset(votes) == multiset{1, 1, 2, 3, 3, 3}
    ensures GetStats(Replay(votes)) == map[1 := 2, 2 := 1, 3 := 3]
  {
    ReplayCounts(votes);
    var r, expected: TallyMap := Replay(votes), map[1 := 2, 2 := 1, 3 := 3];
    forall id: Uint
      ensures Count(r, id) == Count(expected, id)
    {
      assert Count(r, id) == multiset{1, 1, 2, 3, 3, 3}[id];
    }
    forall id: Uint
      ensures id in r <==> id in expected
    {
      assert Count(r, id) == Count(expected, id);
    }
    assert r.Keys == expected.Keys;
    assert Count(r, 1) == 2 && Count(r, 2) == 1 && Count(r, 3) == 3;
  }
}

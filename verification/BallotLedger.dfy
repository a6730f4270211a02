/** The tally of one proposal and the votes recorded on it
    (`vote` in contracts/RiscVotingProtocolPlugin.sol, from the point where the proof is accepted).

    The contract keeps running totals and one option per voter. A later vote by the
    same voter takes the balance of the NEW journal out of the OLD option's total
    before adding it to the new one. This module replays arbitrary ballot
    sequences and relates the running totals to definitions that never look at them. */
module BallotLedger {
  import opened Primitives
  import opened Sums

  /** `Absent` is the enum's default `None`. */
  datatype VoteOption = Absent | Abstain | Yes | No

  datatype Tally = Tally(abstain: nat, yes: nat, no: nat) {
    function Of(o: VoteOption): nat {
      match o
      case Absent => 0
      case Abstain => abstain
      case Yes => yes
      case No => no
    }

    function With(o: VoteOption, n: nat): Tally {
      match o
      case Absent => this
      case Abstain => this.(abstain := n)
      case Yes => this.(yes := n)
      case No => this.(no := n)
    }

    function Turnout(): nat {
      abstain + yes + no
    }
  }

  datatype Ballot = Ballot(voter: Address, option: VoteOption, power: U256)

  datatype Ledger = Ledger(tally: Tally, voters: map<Address, VoteOption>) {
    /** A mapping read: absent keys hold the enum's default. */
    function OptionOf(v: Address): VoteOption {
      if v in voters then voters[v] else Absent
    }
  }

  const EMPTY_LEDGER := Ledger(Tally(0, 0, 0), map[])

  /** Checked subtraction from one total; an unrecorded voter has nothing to give back. */
  function Debit(t: Tally, o: VoteOption, power: nat): Option<Tally> {
    if o.Absent? then Some(t)
    else if t.Of(o) < power then None
    else Some(t.With(o, t.Of(o) - power))
  }

  /** Checked addition to one total; an absent vote adds nothing. */
  function Credit(t: Tally, o: VoteOption, power: nat): Option<Tally> {
    if o.Absent? then Some(t)
    else if t.Of(o) + power > U256_MAX then None
    else Some(t.With(o, t.Of(o) + power))
  }

  /** One accepted journal; `None` is a revert. */
  function Cast(l: Ledger, b: Ballot): Option<Ledger> {
    var debited :- Debit(l.tally, l.OptionOf(b.voter), b.power);
    var credited :- Credit(debited, b.option, b.power);
    Some(Ledger(credited, l.voters[b.voter := b.option]))
  }

  function Replay(bs: seq<Ballot>): Option<Ledger> {
    if bs == [] then Some(EMPTY_LEDGER) else
      var l :- Replay(bs[..|bs| - 1]);
      Cast(l, bs[|bs| - 1])
  }

  // ---------- What a ballot sequence says, read without any running total ----------

  function Voters(bs: seq<Ballot>): set<Address> {
    set i | 0 <= i < |bs| :: bs[i].voter
  }

  function LastOption(bs: seq<Ballot>, v: Address): VoteOption {
    if bs == [] then Absent
    else if bs[|bs| - 1].voter == v then bs[|bs| - 1].option
    else LastOption(bs[..|bs| - 1], v)
  }

  function LastPower(bs: seq<Ballot>, v: Address): nat {
    if bs == [] then 0
    else if bs[|bs| - 1].voter == v then bs[|bs| - 1].power
    else LastPower(bs[..|bs| - 1], v)
  }

  function FirstPower(bs: seq<Ballot>, v: Address): nat {
    if bs == [] then 0
    else if bs[0].voter == v then bs[0].power
    else FirstPower(bs[1..], v)
  }

  /** The ballots of one voter, in order. */
  function Only(bs: seq<Ballot>, v: Address): seq<Ballot> {
    if bs == [] then []
    else Only(bs[..|bs| - 1], v) + (if bs[|bs| - 1].voter == v then [bs[|bs| - 1]] else [])
  }

  function Indicator(b: bool, n: int): int {
    if b then n else 0
  }

  /** What a voter's ballots do to total `o`, counted with sign. */
  function Net(bs: seq<Ballot>, v: Address, o: VoteOption): int {
    if bs == [] then 0
    else
      var prior, b := bs[..|bs| - 1], bs[|bs| - 1];
      Net(prior, v, o) +
        Indicator(b.voter == v, Indicator(b.option == o, b.power) - Indicator(LastOption(prior, v) == o, b.power))
  }

  ghost function NetOf(bs: seq<Ballot>, o: VoteOption): Address -> int {
    (v: Address) => Net(bs, v, o)
  }

  /** A voter counts with the power of the latest ballot, on its option and nowhere else. */
  ghost function LatestOf(bs: seq<Ballot>, o: VoteOption): Address -> int {
    (v: Address) => Indicator(LastOption(bs, v) == o, LastPower(bs, v))
  }

  ghost function FirstOf(bs: seq<Ballot>): Address -> int {
    (v: Address) => FirstPower(bs, v)
  }

  /** Recount of total `o` that tallies only the latest vote of every voter. */
  ghost function Recount(bs: seq<Ballot>, o: VoteOption): int {
    SumOver(Voters(bs), LatestOf(bs, o))
  }

  /** Every running total equals the recount of latest votes. */
  ghost predicate Faithful(bs: seq<Ballot>) {
    Replay(bs).Some? && forall o | o != Absent :: Replay(bs).value.tally.Of(o) == Recount(bs, o)
  }

  /** The next ballot's power is the one its voter's recorded vote was counted with. */
  predicate Matches(bs: seq<Ballot>, b: Ballot) {
    LastOption(bs, b.voter) == Absent || LastPower(bs, b.voter) == b.power
  }

  ghost predicate Steady(bs: seq<Ballot>) {
    forall i | 0 <= i < |bs| :: Matches(bs[..i], bs[i])
  }

  /** All ballots of one voter carry the same power. */
  ghost predicate ConstantPowers(bs: seq<Ballot>) {
    forall i, j | 0 <= i < j < |bs| && bs[i].voter == bs[j].voter :: bs[i].power == bs[j].power
  }

  // ---------- Small facts about appending one ballot ----------

  lemma AppendedVoters(bs: seq<Ballot>, b: Ballot)
    ensures Voters(bs + [b]) == Voters(bs) + {b.voter}
  {
    var cs := bs + [b];
    assert cs[|bs|] == b;
    forall v | v in Voters(bs) ensures v in Voters(cs) {
      var i :| 0 <= i < |bs| && bs[i].voter == v;
      assert cs[i].voter == v;
    }
  }

  lemma {:induction false} UnseenVoter(bs: seq<Ballot>, v: Address)
    requires v !in Voters(bs)
    ensures LastOption(bs, v) == Absent && LastPower(bs, v) == 0 && FirstPower(bs, v) == 0
    ensures forall o :: Net(bs, v, o) == 0
  {
    if bs != [] {
      var prior, b := bs[..|bs| - 1], bs[|bs| - 1];
      assert bs == prior + [b];
      AppendedVoters(prior, b);
      UnseenVoter(prior, v);
      UnseenFirst(bs, v);
    }
  }

  lemma {:induction false} UnseenFirst(bs: seq<Ballot>, v: Address)
    requires v !in Voters(bs)
    ensures FirstPower(bs, v) == 0
  {
    if bs != [] {
      assert bs[0].voter in Voters(bs);
      forall w | w in Voters(bs[1..]) ensures w in Voters(bs) {
        var i :| 0 <= i < |bs| - 1 && bs[1..][i].voter == w;
        assert bs[i + 1].voter == w;
      }
      UnseenFirst(bs[1..], v);
    }
  }

  lemma {:induction false} AppendedFirst(bs: seq<Ballot>, b: Ballot, v: Address)
    ensures FirstPower(bs + [b], v) ==
            if v in Voters(bs) then FirstPower(bs, v) else Indicator(b.voter == v, b.power)
  {
    if bs != [] {
      assert (bs + [b])[1..] == bs[1..] + [b];
      AppendedFirst(bs[1..], b, v);
      assert [bs[0]] + bs[1..] == bs;
      assert v in Voters(bs) <==> v == bs[0].voter || v in Voters(bs[1..]) by {
        assert bs[0].voter in Voters(bs);
        assert forall i | 0 <= i < |bs| - 1 :: bs[1..][i] == bs[i + 1];
        if v in Voters(bs) && v != bs[0].voter {
          var i :| 0 <= i < |bs| && bs[i].voter == v;
          assert bs[1..][i - 1].voter == v;
        }
      }
    } else {
      assert ([] + [b])[1..] == [];
    }
  }

  /** Reading a sequence that ends in `b`. */
  lemma Appended(bs: seq<Ballot>, b: Ballot, v: Address)
    ensures LastOption(bs + [b], v) == if b.voter == v then b.option else LastOption(bs, v)
    ensures LastPower(bs + [b], v) == if b.voter == v then b.power else LastPower(bs, v)
    ensures Replay(bs + [b]) == if Replay(bs).None? then None else Cast(Replay(bs).value, b)
    ensures forall o :: Net(bs + [b], v, o) ==
              Net(bs, v, o) +
                Indicator(b.voter == v, Indicator(b.option == o, b.power) - Indicator(LastOption(bs, v) == o, b.power))
  {
    assert (bs + [b])[..|bs|] == bs;
  }

  // ---------- The running totals, decomposed by voter ----------

  lemma {:induction false} ReplayRecordsLastOptions(bs: seq<Ballot>)
    requires Replay(bs).Some?
    ensures Replay(bs).value.voters.Keys == Voters(bs)
    ensures forall v :: Replay(bs).value.OptionOf(v) == LastOption(bs, v)
  {
    if bs != [] {
      var prior, b := bs[..|bs| - 1], bs[|bs| - 1];
      assert bs == prior + [b];
      ReplayRecordsLastOptions(prior);
      AppendedVoters(prior, b);
    }
  }

  /** How one accepted ballot moves every total. */
  lemma CastMoves(l: Ledger, b: Ballot, o: VoteOption)
    requires Cast(l, b).Some? && o != Absent
    ensures Cast(l, b).value.tally.Of(o) ==
            l.tally.Of(o) - Indicator(l.OptionOf(b.voter) == o, b.power) + Indicator(b.option == o, b.power)
  {
  }

  lemma NetMoves(bs: seq<Ballot>, b: Ballot, o: VoteOption)
    ensures SumOver(Voters(bs + [b]), NetOf(bs + [b], o)) ==
            SumOver(Voters(bs), NetOf(bs, o)) +
              Indicator(b.option == o, b.power) - Indicator(LastOption(bs, b.voter) == o, b.power)
  {
    var cs := bs + [b];
    AppendedVoters(bs, b);
    forall v | v in Voters(cs) && v != b.voter ensures NetOf(bs, o)(v) == NetOf(cs, o)(v) {
      Appended(bs, b, v);
    }
    Appended(bs, b, b.voter);
    if b.voter !in Voters(bs) { UnseenVoter(bs, b.voter); }
    SumOverPointChange(Voters(bs), NetOf(bs, o), NetOf(cs, o), b.voter);
  }

  /** No assumption on the balances: every running total is the sum over the voters of
      what that voter's own ballots do to it. */
  lemma {:induction false} TotalsDecompose(bs: seq<Ballot>, o: VoteOption)
    requires Replay(bs).Some? && o != Absent
    ensures Replay(bs).value.tally.Of(o) == SumOver(Voters(bs), NetOf(bs, o))
  {
    if bs != [] {
      var prior, b := bs[..|bs| - 1], bs[|bs| - 1];
      assert bs == prior + [b];
      TotalsDecompose(prior, o);
      ReplayRecordsLastOptions(prior);
      CastMoves(Replay(prior).value, b, o);
      NetMoves(prior, b, o);
    }
  }

  lemma {:induction false} OnlyKeepsReadings(bs: seq<Ballot>, v: Address)
    ensures LastOption(Only(bs, v), v) == LastOption(bs, v)
    ensures forall o :: Net(Only(bs, v), v, o) == Net(bs, v, o)
    ensures v in Voters(bs) <==> Only(bs, v) != []
  {
    if bs != [] {
      var prior, b := bs[..|bs| - 1], bs[|bs| - 1];
      assert bs == prior + [b];
      OnlyKeepsReadings(prior, v);
      AppendedVoters(prior, b);
      if b.voter == v {
        Appended(Only(prior, v), b, v);
      } else {
        assert Only(bs, v) == Only(prior, v);
      }
    }
  }

  /** The order in which different voters' ballots arrive never matters: two accepted sequences
      that agree on every voter's own ballots leave the same ledger. */
  lemma InterleavingIrrelevant(bs: seq<Ballot>, cs: seq<Ballot>)
    requires Replay(bs).Some? && Replay(cs).Some?
    requires forall v :: Only(bs, v) == Only(cs, v)
    ensures Replay(bs) == Replay(cs)
  {
    var l, m := Replay(bs).value, Replay(cs).value;
    ReplayRecordsLastOptions(bs);
    ReplayRecordsLastOptions(cs);
    forall v ensures (v in Voters(bs) <==> v in Voters(cs)) && LastOption(bs, v) == LastOption(cs, v) {
      OnlyKeepsReadings(bs, v);
      OnlyKeepsReadings(cs, v);
    }
    assert Voters(bs) == Voters(cs);
    forall v | v in l.voters.Keys ensures l.voters[v] == m.voters[v] {
      assert l.OptionOf(v) == m.OptionOf(v);
    }
    assert l.voters == m.voters;
    forall o | o != Absent ensures l.tally.Of(o) == m.tally.Of(o) {
      TotalsDecompose(bs, o);
      TotalsDecompose(cs, o);
      forall v | v in Voters(bs) ensures NetOf(bs, o)(v) == NetOf(cs, o)(v) {
        OnlyKeepsReadings(bs, v);
        OnlyKeepsReadings(cs, v);
      }
      SumOverCongruent(Voters(bs), NetOf(bs, o), NetOf(cs, o));
    }
    SameTotals(l.tally, m.tally);
  }

  lemma SameTotals(t: Tally, u: Tally)
    requires forall o | o != Absent :: t.Of(o) == u.Of(o)
    ensures t == u
  {
    assert t.Of(Abstain) == u.Of(Abstain) && t.Of(Yes) == u.Of(Yes) && t.Of(No) == u.Of(No);
  }

  // ---------- Only the latest vote is tallied: exactly when ----------

  lemma RecountMoves(bs: seq<Ballot>, b: Ballot, o: VoteOption)
    requires o != Absent
    ensures Recount(bs + [b], o) == Recount(bs, o)
                                    - Indicator(LastOption(bs, b.voter) == o, LastPower(bs, b.voter))
                                    + Indicator(b.option == o, b.power)
  {
    var cs := bs + [b];
    AppendedVoters(bs, b);
    forall v ensures LatestOf(cs, o)(v) == if v == b.voter then Indicator(b.option == o, b.power)
      else LatestOf(bs, o)(v) {
      Appended(bs, b, v);
    }
    if b.voter !in Voters(bs) { UnseenVoter(bs, b.voter); }
    SumOverPointChange(Voters(bs), LatestOf(bs, o), LatestOf(cs, o), b.voter);
  }

  lemma FaithfulStep(bs: seq<Ballot>, b: Ballot)
    requires Faithful(bs) && Replay(bs + [b]).Some?
    ensures Faithful(bs + [b]) <==> Matches(bs, b)
  {
    var cs := bs + [b];
    Appended(bs, b, b.voter);
    ReplayRecordsLastOptions(bs);
    forall o | o != Absent
      ensures Replay(cs).value.tally.Of(o) - Recount(cs, o)
           == Indicator(LastOption(bs, b.voter) == o, LastPower(bs, b.voter) - b.power)
    {
      RecountMoves(bs, b, o);
      CastMoves(Replay(bs).value, b, o);
    }
    var old' := LastOption(bs, b.voter);
    if old' != Absent && Faithful(cs) {
      assert Replay(cs).value.tally.Of(old') == Recount(cs, old');
    }
  }

  ghost predicate FaithfulThroughout(bs: seq<Ballot>) {
    forall k | 0 <= k <= |bs| :: Faithful(bs[..k])
  }

  /** The documentation promises that only the latest vote of every voter is tallied. For an accepted sequence this
      holds at every moment if and only if every replacement carries the power it replaces. */
  lemma {:induction false} LatestVoteTalliedIffSteady(bs: seq<Ballot>)
    requires Replay(bs).Some?
    ensures FaithfulThroughout(bs) <==> Steady(bs)
  {
    if bs == [] {
      EmptyIsFaithful(bs);
    } else {
      var prior, b := bs[..|bs| - 1], bs[|bs| - 1];
      assert bs == prior + [b];
      LatestVoteTalliedIffSteady(prior);
      FaithfulAppend(prior, b);
      SteadyAppend(prior, b);
      if FaithfulThroughout(prior) {
        FaithfulAtEnd(prior);
        FaithfulStep(prior, b);
      }
    }
  }

  lemma FaithfulAtEnd(bs: seq<Ballot>)
    requires FaithfulThroughout(bs)
    ensures Faithful(bs)
  {
    assert bs[..|bs|] == bs;
  }

  lemma FaithfulAppend(bs: seq<Ballot>, b: Ballot)
    ensures FaithfulThroughout(bs + [b]) <==> FaithfulThroughout(bs) && Faithful(bs + [b])
  {
    var cs := bs + [b];
    assert cs[..|cs|] == cs;
    forall k | 0 <= k <= |bs| ensures cs[..k] == bs[..k] {}
    if FaithfulThroughout(cs) {
      forall k | 0 <= k <= |bs| ensures Faithful(bs[..k]) {
        assert Faithful(cs[..k]);
      }
      FaithfulAtEnd(cs);
    }
    if FaithfulThroughout(bs) && Faithful(cs) {
      forall k | 0 <= k <= |cs| ensures Faithful(cs[..k]) {
        if k < |cs| {
          assert Faithful(bs[..k]);
        }
      }
    }
  }

  lemma EmptyIsFaithful(bs: seq<Ballot>)
    requires bs == []
    ensures FaithfulThroughout(bs)
  {
    forall k | 0 <= k <= |bs| ensures Faithful(bs[..k]) {
      assert bs[..k] == [] && Voters(bs[..k]) == {};
    }
  }

  lemma SteadyAppend(bs: seq<Ballot>, b: Ballot)
    ensures Steady(bs + [b]) <==> Steady(bs) && Matches(bs, b)
  {
    var cs := bs + [b];
    assert forall i | 0 <= i <= |bs| :: cs[..i] == bs[..i];
    assert bs[..|bs|] == bs && cs[|bs|] == b;
    if Steady(cs) {
      assert Matches(cs[..|bs|], cs[|bs|]);
      forall i | 0 <= i < |bs| ensures Matches(bs[..i], bs[i]) {
        assert Matches(cs[..i], cs[i]);
      }
    }
    if Steady(bs) && Matches(bs, b) {
      forall i | 0 <= i < |cs| ensures Matches(cs[..i], cs[i]) {
        if i < |bs| { assert Matches(bs[..i], bs[i]); }
      }
    }
  }

  lemma SteadyIsFaithful(bs: seq<Ballot>)
    requires Replay(bs).Some? && Steady(bs)
    ensures Faithful(bs)
  {
    LatestVoteTalliedIffSteady(bs);
    assert bs[..|bs|] == bs;
    assert Faithful(bs[..|bs|]);
  }

  lemma {:induction false} LastPowerIsSomeBallots(bs: seq<Ballot>, v: Address) returns (i: nat)
    requires LastOption(bs, v) != Absent
    ensures i < |bs| && bs[i].voter == v && bs[i].power == LastPower(bs, v)
  {
    if bs[|bs| - 1].voter == v {
      i := |bs| - 1;
    } else {
      i := LastPowerIsSomeBallots(bs[..|bs| - 1], v);
    }
  }

  /** One balance per voter is enough for steadiness. */
  lemma ConstantPowersAreSteady(bs: seq<Ballot>)
    requires ConstantPowers(bs)
    ensures Steady(bs)
  {
    forall i | 0 <= i < |bs| ensures Matches(bs[..i], bs[i]) {
      if LastOption(bs[..i], bs[i].voter) != Absent {
        var k := LastPowerIsSomeBallots(bs[..i], bs[i].voter);
        assert bs[..i][k] == bs[k];
      }
    }
  }

  /** With steady powers the ledger depends on nothing but who voted and what each voter said last. */
  lemma OnlyLastVotesMatter(bs: seq<Ballot>, cs: seq<Ballot>)
    requires Replay(bs).Some? && Replay(cs).Some?
    requires Steady(bs) && Steady(cs)
    requires Voters(bs) == Voters(cs)
    requires forall v | v in Voters(bs) ::
             LastOption(bs, v) == LastOption(cs, v) && LastPower(bs, v) == LastPower(cs, v)
    ensures Replay(bs) == Replay(cs)
  {
    var l, m := Replay(bs).value, Replay(cs).value;
    SteadyIsFaithful(bs);
    SteadyIsFaithful(cs);
    forall o | o != Absent ensures l.tally.Of(o) == m.tally.Of(o) {
      SumOverCongruent(Voters(bs), LatestOf(bs, o), LatestOf(cs, o));
    }
    SameTotals(l.tally, m.tally);
    ReplayRecordsLastOptions(bs);
    ReplayRecordsLastOptions(cs);
    forall v | v in l.voters.Keys ensures l.voters[v] == m.voters[v] {
      assert l.OptionOf(v) == m.OptionOf(v);
    }
    assert l.voters == m.voters;
  }

  /** On a steady ledger a matching ballot never reverts by underflow; it is accepted exactly when
      the recount of the total it is cast for still fits a word. */
  lemma MatchingBallotAcceptance(bs: seq<Ballot>, b: Ballot)
    requires Replay(bs).Some? && Steady(bs) && Matches(bs, b)
    ensures Debit(Replay(bs).value.tally, Replay(bs).value.OptionOf(b.voter), b.power).Some?
    ensures Cast(Replay(bs).value, b).Some? <==> b.option == Absent || Recount(bs + [b], b.option) <= U256_MAX
  {
    var l := Replay(bs).value;
    SteadyIsFaithful(bs);
    ReplayRecordsLastOptions(bs);
    var o := LastOption(bs, b.voter);
    if o != Absent {
      if b.voter !in Voters(bs) { UnseenVoter(bs, b.voter); }
      SumOverMember(Voters(bs), LatestOf(bs, o), b.voter);
      assert l.tally.Of(o) == Recount(bs, o);
    }
    if b.option != Absent {
      RecountMoves(bs, b, b.option);
      assert l.tally.Of(b.option) == Recount(bs, b.option);
    }
  }

  /** A voter whose balance grew from 3 to 8 replaces a Yes by a No: five Yes votes of another voter disappear
      and the latest votes (5 Yes, 8 No) are not what the totals say. */
  lemma GrownBalanceMiscounts(a: Address, c: Address)
    requires a != c
    ensures var bs := [Ballot(a, Yes, 3), Ballot(c, Yes, 5), Ballot(a, No, 8)];
            Replay(bs).Some? && Replay(bs).value.tally == Tally(0, 0, 8) && Recount(bs, Yes) == 5 && !Faithful(bs)
  {
    var b1, b2, b3 := Ballot(a, Yes, 3), Ballot(c, Yes, 5), Ballot(a, No, 8);
    var s2 := [b1, b2];
    assert s2 + [b3] == [b1, b2, b3];
    TwoYesVotes(b1, b2);
    Appended(s2, b3, a);
    RecountMoves(s2, b3, Yes);
    assert Replay(s2 + [b3]).value.tally.Of(Yes) != Recount(s2 + [b3], Yes);
  }

  lemma TwoYesVotes(b1: Ballot, b2: Ballot)
    requires b1.voter != b2.voter && b1.option == b2.option == Yes && b1.power + b2.power <= U256_MAX
    ensures Replay([b1, b2]) == Some(Ledger(Tally(0, b1.power + b2.power, 0), map[b1.voter := Yes, b2.voter := Yes]))
    ensures Recount([b1, b2], Yes) == b1.power + b2.power
    ensures LastOption([b1, b2], b1.voter) == Yes && LastPower([b1, b2], b1.voter) == b1.power
  {
    assert [] + [b1] == [b1] && [b1] + [b2] == [b1, b2];
    Appended([], b1, b1.voter);
    Appended([b1], b2, b1.voter);
    Appended([], b1, b2.voter);
    RecountMoves([], b1, Yes);
    RecountMoves([b1], b2, Yes);
    assert Voters([]) == {};
  }

  // ---------- Turnout is conserved by every replacement ----------

  ghost predicate AllPresent(bs: seq<Ballot>) {
    forall i | 0 <= i < |bs| :: bs[i].option != Absent
  }

  lemma {:induction false} SeenVotersArePresent(bs: seq<Ballot>, v: Address)
    requires AllPresent(bs) && v in Voters(bs)
    ensures LastOption(bs, v) != Absent
  {
    var prior, b := bs[..|bs| - 1], bs[|bs| - 1];
    assert bs == prior + [b];
    AppendedVoters(prior, b);
    if b.voter != v {
      assert forall i | 0 <= i < |prior| :: prior[i] == bs[i];
      SeenVotersArePresent(prior, v);
    }
  }

  lemma FirstMoves(bs: seq<Ballot>, b: Ballot)
    ensures SumOver(Voters(bs + [b]), FirstOf(bs + [b])) ==
            SumOver(Voters(bs), FirstOf(bs)) + Indicator(b.voter !in Voters(bs), b.power)
  {
    var cs := bs + [b];
    AppendedVoters(bs, b);
    forall v | v in Voters(cs) && v != b.voter ensures FirstOf(bs)(v) == FirstOf(cs)(v) {
      AppendedFirst(bs, b, v);
    }
    AppendedFirst(bs, b, b.voter);
    if b.voter !in Voters(bs) { UnseenVoter(bs, b.voter); }
    SumOverPointChange(Voters(bs), FirstOf(bs), FirstOf(cs), b.voter);
  }

  lemma CastTurnout(l: Ledger, b: Ballot)
    requires Cast(l, b).Some?
    ensures Cast(l, b).value.tally.Turnout() ==
            l.tally.Turnout() - Indicator(l.OptionOf(b.voter) != Absent, b.power) +
              Indicator(b.option != Absent, b.power)
  {
    CastMoves(l, b, Abstain);
    CastMoves(l, b, Yes);
    CastMoves(l, b, No);
  }

  /** No assumption on the balances: whatever powers the replacements carry, the turnout is the sum
      over the voters of the power in their first accepted ballot. */
  lemma {:induction false} TurnoutIsFirstPowers(bs: seq<Ballot>)
    requires Replay(bs).Some? && AllPresent(bs)
    ensures Replay(bs).value.tally.Turnout() == SumOver(Voters(bs), FirstOf(bs))
  {
    if bs != [] {
      var prior, b := bs[..|bs| - 1], bs[|bs| - 1];
      assert bs == prior + [b];
      assert forall i | 0 <= i < |prior| :: prior[i] == bs[i];
      TurnoutIsFirstPowers(prior);
      ReplayRecordsLastOptions(prior);
      FirstMoves(prior, b);
      CastTurnout(Replay(prior).value, b);
      if b.voter in Voters(prior) {
        SeenVotersArePresent(prior, b.voter);
      } else {
        UnseenVoter(prior, b.voter);
      }
    }
  }
}

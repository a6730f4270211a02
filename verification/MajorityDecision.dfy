/** The execution guest: the total supply it computes (methods/guest/src/bin/execution_protocol.rs) and the decision it
    proves (strategies/src/execution_strategies/majority_voting.rs), against the early-execution theory documented in
    contracts/MajorityVotingBase.sol. */
module MajorityDecision {
  import opened Primitives
  import opened Sums
  import opened BallotLedger
  import opened ShareArithmetic
  import opened SplitDelegation
  import G = Governance

  // ---------- Total supply ----------

  function SumSupply(w: World, assets: seq<Asset>, acc: nat): Outcome<nat> {
    if assets == [] then Done(acc) else
      var next :- Add256(acc, w.supply(assets[0]));
      SumSupply(w, assets[1..], next)
  }

  function TotalSupply(w: World, assets: seq<Asset>): Outcome<nat> {
    SumSupply(w, assets, 0)
  }

  ghost function SupplyOf(w: World): Asset -> int {
    a => w.supply(a)
  }

  lemma {:induction false} SumSupplyMeaning(w: World, assets: seq<Asset>, acc: nat)
    requires acc <= U256_MAX
    ensures var total := acc + SumSeq(assets, SupplyOf(w));
            SumSupply(w, assets, acc) == (if total <= U256_MAX then Done(total) else Overflowed) && total >= acc
    decreases |assets|
  {
    if assets != [] {
      var next := acc + w.supply(assets[0]);
      SumSupplyMeaning(w, assets[1..], if next <= U256_MAX then next else 0);
    }
  }

  // ---------- The decision ----------

  /** `proof_execution`, with its two floor divisions. */
  function ProofExecution(supply: nat, tally: Tally): Outcome<bool> {
    var nonAbstain :- Add256(tally.yes, tally.no);
    var total :- Add256(nonAbstain, tally.abstain);
    if total <= supply / 2 then Done(false)
    else Done(tally.yes > nonAbstain / 2)
  }

  /** More than half of the supply took part, and more of it said yes than no. */
  predicate Passes(supply: nat, tally: Tally) {
    2 * tally.Turnout() > supply && tally.yes > tally.no
  }

  /** Neither floor division changes the decision. */
  lemma DecisionMeaning(supply: nat, tally: Tally)
    ensures ProofExecution(supply, tally) == if tally.Turnout() <= U256_MAX then Done(Passes(supply, tally))
            else Overflowed
  {
  }

  /** Votes are added and none is taken back. */
  predicate Extends(t: Tally, u: Tally) {
    t.abstain <= u.abstain && t.yes <= u.yes && t.no <= u.no
  }

  /** All power that was not cast is counted against the proposal. */
  function WorstCase(supply: nat, t: Tally): Tally {
    t.(no := if t.Turnout() <= supply then t.no + supply - t.Turnout() else t.no)
  }

  /** Against any cap on the turnout: the outcome cannot change by more votes within the cap if and only if enough took
      part already and yes exceeds what all remaining votes could add up to as no. */
  lemma DecidedWithinCap(supply: nat, cap: nat, t: Tally)
    ensures t.Turnout() <= cap ==>
              ((forall u | Extends(t, u) && u.Turnout() <= cap :: Passes(supply, u)) <==>
                2 * t.Turnout() > supply && t.yes > cap - t.yes - t.abstain)
  {
    if t.Turnout() <= cap {
      assert Extends(t, t) && Extends(t, WorstCase(cap, t)) && WorstCase(cap, t).Turnout() == cap;
    }
  }

  /** The documented criterion. */
  predicate Decided(supply: nat, t: Tally) {
    t.yes > supply - t.yes - t.abstain
  }

  /** Where the cap is the supply: the outcome cannot change by more people voting if and only if the
      proposal passes with all remaining power voting no, which is the documented criterion. */
  lemma EarlyDecision(supply: nat, t: Tally)
    ensures t.Turnout() <= supply ==>
              (Passes(supply, WorstCase(supply, t)) <==>
                forall u | Extends(t, u) && u.Turnout() <= supply :: Passes(supply, u))
    ensures t.Turnout() <= supply ==> (Passes(supply, WorstCase(supply, t)) <==> Decided(supply, t))
  {
    DecidedWithinCap(supply, supply, t);
  }

  lemma DecidedStays(supply: nat, t: Tally, u: Tally)
    requires Decided(supply, t) && Extends(t, u) && u.Turnout() <= supply <= U256_MAX
    ensures ProofExecution(supply, u) == Done(true)
  {
    DecidedWithinCap(supply, supply, t);
    DecisionMeaning(supply, u);
  }

  // ---------- The documented criteria, with their thresholds ----------

  /** (1 - supportThreshold) * yes > supportThreshold * no, with the threshold in parts of RATIO_BASE. */
  predicate Supported(threshold: nat, t: Tally) {
    (G.RATIO_BASE - threshold) * t.yes > threshold * t.no
  }

  /** turnout >= minParticipation * total. */
  predicate Participated(minParticipation: nat, supply: nat, t: Tally) {
    G.RATIO_BASE * t.Turnout() >= minParticipation * supply
  }

  predicate Documented(threshold: nat, minParticipation: nat, supply: nat, t: Tally) {
    Supported(threshold, t) && Participated(minParticipation, supply, t)
  }

  /** (1 - supportThreshold) * yes > supportThreshold * (total - yes - abstain). */
  predicate SupportedEarly(threshold: nat, supply: nat, t: Tally) {
    (G.RATIO_BASE - threshold) * t.yes > threshold * (supply - t.yes - t.abstain)
  }

  lemma MoreSupport(a: nat, b: nat, yes: nat, no: int, more: nat, fewer: int)
    requires yes <= more && fewer <= no && a * yes > b * no
    ensures a * more > b * fewer
  {
    MulAtMost(a, yes, more);
    MulAtMost(b, fewer, no);
  }

  /** For every threshold the documented early criterion is what it claims: the support cannot be lost by more people
      voting, as long as no more than the supply is cast, if and only if it is met with all remaining votes as No. */
  lemma EarlySupportIff(threshold: nat, supply: nat, t: Tally)
    requires threshold <= G.RATIO_BASE && t.Turnout() <= supply
    ensures SupportedEarly(threshold, supply, t) <==>
            forall u | Extends(t, u) && u.Turnout() <= supply :: Supported(threshold, u)
    ensures SupportedEarly(threshold, supply, t) <==> Supported(threshold, WorstCase(supply, t))
  {
    assert Extends(t, WorstCase(supply, t)) && WorstCase(supply, t).no == supply - t.yes - t.abstain;
    if SupportedEarly(threshold, supply, t) {
      forall u | Extends(t, u) && u.Turnout() <= supply ensures Supported(threshold, u) {
        MoreSupport(G.RATIO_BASE - threshold, threshold, t.yes, supply - t.yes - t.abstain, u.yes, u.no);
      }
    }
  }

  /** The coded decision hard-codes one half twice. Against thresholds of one half it differs from the documented one
      exactly on tallies in which exactly half of the supply took part and more said yes than no. */
  lemma DecisionAgreesIff(supply: nat, t: Tally)
    ensures (Passes(supply, t) <==> Documented(G.RATIO_BASE / 2, G.RATIO_BASE / 2, supply, t)) <==>
            !(2 * t.Turnout() == supply && t.yes > t.no)
  {
  }

  /** No setting of the two thresholds makes the coded decision the documented one. */
  lemma NoSettingAgrees(threshold: nat, minParticipation: nat)
    requires threshold < G.RATIO_BASE
    ensures exists supply: nat, t: Tally ::
              t.Turnout() <= supply <= U256_MAX &&
                (Passes(supply, t) <==> !Documented(threshold, minParticipation, supply, t))
  {
    var base := G.RATIO_BASE;
    if 2 * minParticipation <= base {
      var t := Tally(0, 1, 0);
      assert Documented(threshold, minParticipation, 2, t) && !Passes(2, t);
    } else {
      var t := Tally(0, base + 2, 0);
      assert minParticipation * (2 * base + 2) >= (base + 1) * (base + 1) by {
        MoreThanHalf(minParticipation, base);
      }
      assert !Participated(minParticipation, 2 * base + 2, t);
      assert Passes(2 * base + 2, t) && !Documented(threshold, minParticipation, 2 * base + 2, t);
    }
  }

  lemma MoreThanHalf(m: nat, base: nat)
    requires 2 * m >= base + 1
    ensures m * (2 * base + 2) >= (base + 1) * (base + 1)
  {
    assert m * (2 * base + 2) == (2 * m) * (base + 1);
    assert (2 * m) * (base + 1) == (base + 1) * (base + 1) + (2 * m - base - 1) * (base + 1);
  }

  /** Why early execution excludes vote replacement: every decided tally can be undone by its yes voters alone. */
  lemma ReplacementUndoesDecision(supply: nat, t: Tally)
    requires Passes(supply, t)
    ensures var u := t.With(Yes, 0).With(No, t.yes + t.no); u.Turnout() == t.Turnout() && !Passes(supply, u)
  {
  }
}

/** From the gateway's command to the end of its notification: runs of the portfolio service's creates feeding
    runs of the retry protocol. */
module EndToEnd {
  import opened Contracts
  import opened Logs
  import opened RetrySystem
  import opened RetryRuns
  import opened RetryTheorems
  import opened RetryTermination
  import Publisher

  /** The consumer's run consumes the events of the creates' run, and no others. */
  predicate Feeds(creates: seq<Publisher.Step>, ss: seq<Step>)
    requires Publisher.Feasible(creates) && Feasible(ss)
  {
    State(ss).published == Publisher.State(creates).events
  }

  /** Every command came through the gateway. */
  predicate ThroughGateway(creates: seq<Publisher.Step>)
    requires Publisher.Feasible(creates)
  {
    forall c <- Publisher.State(creates).calls :: Publisher.GatewayAccepts(Publisher.State(creates).calls[c].cmd)
  }

  lemma {:induction false} SettledWasPublished(ss: seq<Step>, i: nat)
    requires Feasible(ss) && i < |State(ss).settled|
    ensures Bare(State(ss).settled[i].msg) in State(ss).published
  {
    var w := State(ss);
    BagIn(w.settled, BareOfSettled, BareOfSettled(w.settled[i]));
    ExactlyOnePlace(ss, Bare(w.settled[i].msg));
  }

  /** No event of a command that came through the gateway is ever dropped as invalid: whatever the
      interleaving and the faults on both sides, it is notified, skipped or parked, or not yet settled. */
  lemma {:induction false} NeverDropped(creates: seq<Publisher.Step>, ss: seq<Step>, i: nat)
    requires Publisher.Feasible(creates) && Feasible(ss) && Feeds(creates, ss) && ThroughGateway(creates)
    requires i < |State(ss).settled|
    ensures !State(ss).settled[i].outcome.Invalid?
  {
    Publisher.GatewayEventsAreValid(creates);
    SettledWasPublished(ss, i);
    SettledIsRouted(ss, i);
  }

  lemma {:induction false} SettledIsRouted(ss: seq<Step>, i: nat)
    requires Feasible(ss) && i < |State(ss).settled|
    ensures State(ss).settled[i].outcome.Invalid? <==> !ValidBody(State(ss).settled[i].msg.body)
  {
    SettledLife(ss, i);
  }

  ghost predicate SettledFor(w: World, row: nat)
  {
    exists i :: 0 <= i < |w.settled| && w.settled[i].msg.id == row && !w.settled[i].outcome.Invalid?
  }

  /** Once all creates have returned and the consumer has nothing left to do, the books of the two services
      agree: every row of the transaction table has its event settled, as notified, skipped or parked, and
      there are as many settlements as rows. */
  lemma {:induction false} EveryTransactionIsSettled(creates: seq<Publisher.Step>, ss: seq<Step>)
    requires Publisher.Feasible(creates) && Feasible(ss) && Feeds(creates, ss) && ThroughGateway(creates)
    requires forall c <- Publisher.State(creates).calls :: Publisher.State(creates).calls[c].progress.Returned?
    requires Stuck(State(ss))
    ensures |State(ss).settled| == |Publisher.State(creates).txs|
    ensures forall row: nat :: row < |Publisher.State(creates).txs| ==> SettledFor(State(ss), row)
  {
    var shop, w := Publisher.State(creates), State(ss);
    Publisher.AllReturnedAllPublished(creates);
    StuckMeansSettled(ss);
    forall row: nat | row < |shop.txs| ensures SettledFor(w, row) {
      assert Publisher.HasEvent(shop, row);
      var m :| m in w.published && m.id == row;
      BagIn(w.settled, BareOfSettled, m);
      var i :| 0 <= i < |w.settled| && BareOfSettled(w.settled[i]) == m;
      NeverDropped(creates, ss, i);
    }
  }
}

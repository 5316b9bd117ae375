/** The patient's order screen: the five-step progress timeline projected from the
    current status, and the condition for showing the cancel button. */
module OrderDetail {
  import opened Common
  import opened StatusText
  import ProfessionalOrderDetail

  datatype TimelineStep = TimelineStep(status: string, stepLabel: string, completed: bool)

  /** The timeline array: one step per link of the delivery chain. */
  function Timeline(s: string): (r: seq<TimelineStep>)
    ensures |r| == |Chain|
    ensures forall k :: 0 <= k < |r| ==> r[k].status == Chain[k]
    ensures r[0].completed
    ensures forall j, k :: 0 <= j <= k < |r| && r[k].completed ==> r[j].completed
  {
    [ TimelineStep(Pending, "Commande créée", true),
      TimelineStep(Confirmed, "Confirmée", s != Pending),
      TimelineStep(Processing, "En préparation", s in [Processing, InDelivery, Delivered]),
      TimelineStep(InDelivery, "En livraison", s in [InDelivery, Delivered]),
      TimelineStep(Delivered, "Livrée", s == Delivered) ]
  }

  /** Number of completed steps. */
  function CompletedSteps(s: string): nat
  {
    CountWhere(Timeline(s), (t: TimelineStep) => t.completed)
  }

  /** For the i-th status of the chain, exactly the first i + 1 steps are completed. */
  lemma TimelineOnChain(i: nat)
    requires i < |Chain|
    ensures forall k :: 0 <= k < |Chain| ==> (Timeline(Chain[i])[k].completed <==> k <= i)
  {
    ChainDistinct();
  }

  /** A cancelled order, like any status outside the table, shows pending and
      confirmed as completed and nothing further. */
  lemma TimelineOffChain(s: string)
    requires s !in Chain
    ensures forall k :: 0 <= k < |Chain| ==> (Timeline(s)[k].completed <==> k <= 1)
  {
  }

  /** For the i-th status of the chain, i + 1 steps are completed. */
  lemma CompletedOnChain(i: nat)
    requires i < |Chain|
    ensures CompletedSteps(Chain[i]) == i + 1
  {
    TimelineOnChain(i);
    var tl := Timeline(Chain[i]);
    FilterPrefix(tl, (t: TimelineStep) => t.completed, i + 1);
  }

  /** One press of the professional's advance button completes exactly one more step
      of the patient's timeline. */
  lemma AdvanceCompletesOneStep(s: string, t: string)
    requires ProfessionalOrderDetail.NextStatus(s) == Some(t)
    ensures CompletedSteps(t) == CompletedSteps(s) + 1
  {
    ChainDistinct();
    var i := IndexOf(Chain, s).value;
    assert t == Chain[i + 1];
    CompletedOnChain(i);
    CompletedOnChain(i + 1);
  }

  /** The patient's cancel button is shown unless the order is delivered or cancelled. */
  predicate CancelShown(s: string)
  {
    s != Delivered && s != Cancelled
  }

  /** The patient and the professional are offered cancellation in the same statuses. */
  lemma CancelAgreesWithProfessional(s: string)
    ensures CancelShown(s) <==> ProfessionalOrderDetail.CancelOrder in ProfessionalOrderDetail.OfferedActions(s)
  {
  }
}

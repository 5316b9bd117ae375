/** The mobile order-status vocabulary and its display tables. The professional and
    the patient order screens each define getStatusColor and getStatusLabel, with
    identical contents; they are modelled once here. */
module StatusText {
  import opened Common

  const Pending := "pending"
  const Confirmed := "confirmed"
  const Processing := "processing"
  const InDelivery := "in_delivery"
  const Delivered := "delivered"
  const Cancelled := "cancelled"

  /** The delivery chain, first to last. */
  const Chain: seq<string> := [Pending, Confirmed, Processing, InDelivery, Delivered]

  /** The French label of each known status. */
  const Labels: map<string, string> := map[
    Pending := "En attente",
    Confirmed := "Confirmée",
    Processing := "En préparation",
    InDelivery := "En livraison",
    Delivered := "Livrée",
    Cancelled := "Annulée"
  ]

  const DefaultColor := "bg-gray-100"

  predicate IsKnown(s: string)
  {
    s in Labels
  }

  lemma KnownStatuses(s: string)
    ensures IsKnown(s) <==> s in Chain || s == Cancelled
  {
  }

  /** The chain holds five distinct statuses, so each position names one status. */
  lemma ChainDistinct()
    ensures |Chain| == 5
    ensures forall i, j :: 0 <= i < j < |Chain| ==> Chain[i] != Chain[j]
    ensures Cancelled !in Chain
  {
  }

  /** getStatusLabel: the label of a known status, the raw status otherwise. */
  function StatusLabel(s: string): (r: string)
    ensures IsKnown(s) ==> r == Labels[s]
    ensures r == s <==> !IsKnown(s)
  {
    if s in Labels && Labels[s] != "" then Labels[s] else s
  }

  /** getStatusColor: a total switch with a grey fallback. */
  function StatusColor(s: string): (r: string)
    ensures r == DefaultColor <==> !IsKnown(s)
  {
    if s == Pending then "bg-yellow-100"
    else if s == Confirmed then "bg-blue-100"
    else if s == Processing then "bg-purple-100"
    else if s == InDelivery then "bg-orange-100"
    else if s == Delivered then "bg-green-100"
    else if s == Cancelled then "bg-red-100"
    else DefaultColor
  }

  /** Different known statuses get different colours. */
  lemma ColorsDistinguishKnown(a: string, b: string)
    requires IsKnown(a) && IsKnown(b) && a != b
    ensures StatusColor(a) != StatusColor(b)
  {
  }

  /** Different known statuses get different labels. */
  lemma LabelsDistinguishKnown(a: string, b: string)
    requires IsKnown(a) && IsKnown(b) && a != b
    ensures StatusLabel(a) != StatusLabel(b)
  {
  }
}

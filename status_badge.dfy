/** The travel-status badge of src/components/StatusBadge.tsx, and the badge
    configuration record the other lookup tables share. */
module StatusBadge {
  import opened TravelTypes

  /** The Badge component's visual variants. */
  datatype Variant = Default | Secondary | Destructive | Outline

  /** One entry of a status-to-badge table: its label text and variant. */
  datatype BadgeConfig = BadgeConfig(text: string, variant: Variant)

  /** `statusConfig[status]`: the table has an entry for every status, so the
      lookup is total. Pending and completed share the secondary variant;
      rejected alone is destructive; approved is default, in progress outline. */
  function StatusConfig(status: TravelStatus): (b: BadgeConfig)
    ensures b.variant == Secondary <==> status == Pending || status == Completed
    ensures b.variant == Destructive <==> status == Rejected
    ensures b.variant == Default <==> status == Approved
    ensures b.variant == Outline <==> status == InProgress
  {
    match status
    case Pending => BadgeConfig("En attente", Secondary)
    case Approved => BadgeConfig("Validé", Default)
    case InProgress => BadgeConfig("En cours", Outline)
    case Completed => BadgeConfig("Terminé", Secondary)
    case Rejected => BadgeConfig("Refusé", Destructive)
  }

  /** The five labels are pairwise distinct: a label identifies its status. */
  lemma StatusLabelsDistinct(a: TravelStatus, b: TravelStatus)
    ensures StatusConfig(a).text == StatusConfig(b).text <==> a == b
  {
  }
}

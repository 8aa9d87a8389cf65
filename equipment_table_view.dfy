/** The equipment table of src/components/EquipmentTableView.tsx: a
    case-insensitive search over four fields and the status badge. */
module EquipmentTableView {
  import opened Wrappers
  import opened Seqs
  import opened Strings
  import opened EquipmentTypes
  import opened StatusBadge
  import EquipmentModal

  /** `field?.toLowerCase().includes(term.toLowerCase())` for an optional
      field: an absent field yields `undefined`, which never matches. */
  predicate OptionalIncludes(field: Option<string>, term: string) {
    field.Some? && Includes(Lower(field.value), Lower(term))
  }

  /** The search predicate: the lower-cased term occurs in the lower-cased
      model, serial number, current user or current location. */
  predicate MatchesSearch(e: Equipment, term: string) {
    Includes(Lower(e.model), Lower(term))
    || Includes(Lower(e.serialNumber), Lower(term))
    || OptionalIncludes(e.currentUser, term)
    || OptionalIncludes(e.currentLocation, term)
  }

  /** `filteredEquipments`: the items the search term matches, in list order. */
  function FilteredEquipments(equipments: seq<Equipment>, searchTerm: string): (r: seq<Equipment>)
    ensures forall e :: e in r <==> e in equipments && MatchesSearch(e, searchTerm)
    ensures IsSubseq(r, equipments)
  {
    Filter((e: Equipment) => MatchesSearch(e, searchTerm), equipments)
  }

  /** The empty search term keeps every item. */
  lemma EmptySearchKeepsAll(equipments: seq<Equipment>)
    ensures FilteredEquipments(equipments, "") == equipments
  {
    forall e | e in equipments ensures MatchesSearch(e, "") {
      IncludesEmpty(Lower(e.model));
    }
    FilterKeepsAll((e: Equipment) => MatchesSearch(e, ""), equipments);
  }

  /** An item whose user and location are absent is found through its model
      and serial number only. */
  lemma AbsentFieldsNeverMatch(e: Equipment, term: string)
    requires e.currentUser.None? && e.currentLocation.None?
    ensures MatchesSearch(e, term) <==>
      Includes(Lower(e.model), Lower(term)) || Includes(Lower(e.serialNumber), Lower(term))
  {
  }

  /** Terms that lower-case alike select the same items; in particular the
      upper-cased term selects what the term selects. */
  lemma SearchIgnoresCase(equipments: seq<Equipment>, t1: string, t2: string)
    requires Lower(t1) == Lower(t2)
    ensures FilteredEquipments(equipments, t1) == FilteredEquipments(equipments, t2)
  {
    FilterCongruent((e: Equipment) => MatchesSearch(e, t1), (e: Equipment) => MatchesSearch(e, t2), equipments);
  }

  lemma UpperCaseSearch(equipments: seq<Equipment>, term: string)
    ensures FilteredEquipments(equipments, Upper(term)) == FilteredEquipments(equipments, term)
  {
    LowerOfLower(term);
    SearchIgnoresCase(equipments, Upper(term), term);
  }

  /** Narrowing the term narrows the result: when `term` occurs in `longer`,
      the items `longer` selects are a subsequence of those `term` selects. */
  lemma LongerTermNarrows(equipments: seq<Equipment>, term: string, longer: string)
    requires Includes(longer, term)
    ensures IsSubseq(FilteredEquipments(equipments, longer), FilteredEquipments(equipments, term))
  {
    LowerPreservesIncludes(longer, term);
    forall e | e in equipments && MatchesSearch(e, longer) ensures MatchesSearch(e, term) {
      if Includes(Lower(e.model), Lower(longer)) {
        IncludesTransitive(Lower(term), Lower(longer), Lower(e.model));
      } else if Includes(Lower(e.serialNumber), Lower(longer)) {
        IncludesTransitive(Lower(term), Lower(longer), Lower(e.serialNumber));
      } else if OptionalIncludes(e.currentUser, longer) {
        IncludesTransitive(Lower(term), Lower(longer), Lower(e.currentUser.value));
      } else {
        IncludesTransitive(Lower(term), Lower(longer), Lower(e.currentLocation.value));
      }
    }
    FilterMonotone((e: Equipment) => MatchesSearch(e, longer), (e: Equipment) => MatchesSearch(e, term), equipments);
  }

  /** `getStatusBadge`'s table, a copy of the detail dialog's. */
  function StatusBadgeConfig(s: EquipmentStatus): BadgeConfig {
    match s
    case Available => BadgeConfig("Disponible", Secondary)
    case Assigned => BadgeConfig("Assigné", Default)
    case InTransit => BadgeConfig("En transit", Outline)
    case Maintenance => BadgeConfig("Maintenance", Destructive)
  }

  /** `getStatusBadge(status)`: a known tag's entry, else the `available` one. */
  function StatusBadgeFor(tag: string): (b: BadgeConfig)
    ensures forall s :: EquipmentStatusName(s) == tag ==> b == StatusBadgeConfig(s)
    ensures (forall s :: EquipmentStatusName(s) != tag) ==> b == StatusBadgeConfig(Available)
  {
    match ParseEquipmentStatus(tag)
    case Some(s) => StatusBadgeConfig(s)
    case None => StatusBadgeConfig(Available)
  }

  /** The table and the detail dialog show the same badge for every tag. */
  lemma BadgeMatchesDialog(tag: string)
    ensures StatusBadgeFor(tag) == EquipmentModal.EquipmentStatusBadge(tag)
  {
  }
}

/** The equipment detail dialog of src/components/EquipmentModal.tsx: an
    item's loan history, its current holder, the two status badges and the
    avatar initials. */
module EquipmentModal {
  import opened Wrappers
  import opened Seqs
  import opened Strings
  import opened EquipmentTypes
  import opened StatusBadge

  /** `getStatusBadge`'s table. */
  function EquipmentStatusConfig(s: EquipmentStatus): BadgeConfig {
    match s
    case Available => BadgeConfig("Disponible", Secondary)
    case Assigned => BadgeConfig("Assigné", Default)
    case InTransit => BadgeConfig("En transit", Outline)
    case Maintenance => BadgeConfig("Maintenance", Destructive)
  }

  /** `getStatusBadge(status)`: the entry of a known status tag, the
      `available` entry for any other string. */
  function EquipmentStatusBadge(tag: string): (b: BadgeConfig)
    ensures forall s :: EquipmentStatusName(s) == tag ==> b == EquipmentStatusConfig(s)
    ensures (forall s :: EquipmentStatusName(s) != tag) ==> b == EquipmentStatusConfig(Available)
  {
    match ParseEquipmentStatus(tag)
    case Some(s) => EquipmentStatusConfig(s)
    case None => EquipmentStatusConfig(Available)
  }

  /** The four labels are distinct, so a badge shows "Disponible" exactly
      for `available` and for unknown tags. */
  lemma EquipmentBadgeFallback(tag: string)
    ensures EquipmentStatusBadge(tag).text == "Disponible" <==>
      tag == "available" || ParseEquipmentStatus(tag).None?
  {
  }

  /** `getHistoryStatusBadge`'s table. */
  function HistoryStatusConfig(s: HistoryStatus): BadgeConfig {
    match s
    case HistoryCompleted => BadgeConfig("Terminé", Secondary)
    case HistoryOngoing => BadgeConfig("En cours", Default)
    case HistoryCancelled => BadgeConfig("Annulé", Destructive)
  }

  /** `getHistoryStatusBadge(status)`: the entry of a known history status
      tag, the `completed` entry for any other string. */
  function HistoryStatusBadge(tag: string): (b: BadgeConfig)
    ensures forall s :: HistoryStatusName(s) == tag ==> b == HistoryStatusConfig(s)
    ensures (forall s :: HistoryStatusName(s) != tag) ==> b == HistoryStatusConfig(HistoryCompleted)
  {
    match ParseHistoryStatus(tag)
    case Some(s) => HistoryStatusConfig(s)
    case None => HistoryStatusConfig(HistoryCompleted)
  }

  /** `mockHistory.filter(h => h.equipmentId === equipmentId)`: exactly the
      loans of that item, in list order. */
  function HistoryFor(all: seq<EquipmentHistory>, equipmentId: string): (r: seq<EquipmentHistory>)
    ensures forall h :: h in r <==> h in all && h.equipmentId == equipmentId
    ensures IsSubseq(r, all)
  {
    Filter((h: EquipmentHistory) => h.equipmentId == equipmentId, all)
  }

  /** `h` stands at index `i` and no loan before it is ongoing. */
  predicate IsFirstOngoingAt(history: seq<EquipmentHistory>, h: EquipmentHistory, i: int) {
    0 <= i < |history| && history[i] == h
    && forall j :: 0 <= j < i ==> history[j].status != HistoryOngoing
  }

  /** `history.find(h => h.status === 'ongoing')`: the first ongoing loan in
      list order, if any; later ongoing loans are ignored without error. */
  function CurrentHolder(history: seq<EquipmentHistory>): (r: Option<EquipmentHistory>)
    ensures r.None? <==> forall h :: h in history ==> h.status != HistoryOngoing
    ensures r.Some? ==> r.value.status == HistoryOngoing
    ensures r.Some? ==> exists i :: IsFirstOngoingAt(history, r.value, i)
  {
    if history == [] then None
    else if history[0].status == HistoryOngoing then
      assert IsFirstOngoingAt(history, history[0], 0);
      Some(history[0])
    else
      var r := CurrentHolder(history[1..]);
      assert forall h :: h in history <==> h == history[0] || h in history[1..];
      if r.Some? then
        var i :| IsFirstOngoingAt(history[1..], r.value, i);
        assert IsFirstOngoingAt(history, r.value, i + 1);
        r
      else r
  }

  /** What the dialog shows for the selected item: its history and current
      holder; nothing when no item is selected. */
  datatype Resolution = Resolution(history: seq<EquipmentHistory>, current: Option<EquipmentHistory>)

  /** The dialog's data: no item renders nothing; otherwise the item's
      history, and a current holder that is one of its own loans. */
  function Resolve(all: seq<EquipmentHistory>, equipment: Option<Equipment>): (r: Option<Resolution>)
    ensures r.Some? <==> equipment.Some?
    ensures r.Some? ==> forall h :: h in r.value.history <==> h in all && h.equipmentId == equipment.value.id
    ensures r.Some? && r.value.current.Some? ==>
      var h := r.value.current.value;
      h in all && h.equipmentId == equipment.value.id && h.status == HistoryOngoing
  {
    match equipment
    case None => None
    case Some(item) =>
      var history := HistoryFor(all, item.id);
      var current := CurrentHolder(history);
      assert current.Some? ==> current.value in history;
      Some(Resolution(history, current))
  }

  /** An item with no loans has an empty history and no current holder. */
  lemma UnknownItemHasNoHistory(all: seq<EquipmentHistory>, equipmentId: string)
    requires forall h :: h in all ==> h.equipmentId != equipmentId
    ensures HistoryFor(all, equipmentId) == []
    ensures CurrentHolder(HistoryFor(all, equipmentId)) == None
  {
  }

  /** The first character of each non-empty part; `n[0]` of an empty part is
      `undefined`, which `join('')` prints as nothing. */
  function FirstChars(parts: seq<string>): string {
    if parts == [] then ""
    else (if parts[0] == "" then "" else [parts[0][0]]) + FirstChars(parts[1..])
  }

  /** `name.split(' ').map(n => n[0]).join('')`. */
  function Initials(name: string): string {
    FirstChars(Split(name, ' '))
  }

  /** The characters of `s` that start a word: not a space, and first or
      right after a space. `afterSpace` says whether the character before
      `s` was a space (or `s` starts the name). */
  function WordStarts(s: string, afterSpace: bool): string {
    if s == [] then ""
    else (if afterSpace && s[0] != ' ' then [s[0]] else "") + WordStarts(s[1..], s[0] == ' ')
  }

  lemma {:induction false} FirstCharsOfSplit(s: string)
    ensures FirstChars(Split(s, ' ')) == WordStarts(s, true)
    ensures FirstChars(Split(s, ' ')[1..]) == WordStarts(s, false)
  {
    if s != [] {
      FirstCharsOfSplit(s[1..]);
      var rest := Split(s[1..], ' ');
      if s[0] == ' ' {
        assert Split(s, ' ') == [""] + rest;
        assert ([""] + rest)[1..] == rest;
      } else {
        var parts := [[s[0]] + rest[0]] + rest[1..];
        assert Split(s, ' ') == parts;
        assert parts[1..] == rest[1..];
      }
    }
  }

  /** The initials are the first letters of the words of the name; runs of
      spaces, and leading or trailing spaces, add nothing. */
  lemma InitialsAreWordStarts(name: string)
    ensures Initials(name) == WordStarts(name, true)
  {
    FirstCharsOfSplit(name);
  }
}

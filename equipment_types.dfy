/** The equipment records of src/types/equipment.ts. */
module EquipmentTypes {
  import opened Wrappers

  datatype EquipmentKind = Laptop | SimCard | Tablet | OtherKind

  datatype EquipmentStatus = Available | Assigned | InTransit | Maintenance

  function EquipmentStatusName(s: EquipmentStatus): string {
    match s
    case Available => "available"
    case Assigned => "assigned"
    case InTransit => "in_transit"
    case Maintenance => "maintenance"
  }

  /** The status a tag names, if any: a key lookup in a table keyed by the
      status tags. */
  function ParseEquipmentStatus(tag: string): (r: Option<EquipmentStatus>)
    ensures r.Some? ==> EquipmentStatusName(r.value) == tag
    ensures r.None? ==> forall s :: EquipmentStatusName(s) != tag
  {
    if tag == "available" then Some(Available)
    else if tag == "assigned" then Some(Assigned)
    else if tag == "in_transit" then Some(InTransit)
    else if tag == "maintenance" then Some(Maintenance)
    else None
  }

  /** An equipment item. `currentUser` and `currentLocation` are optional,
      and nothing ties their presence to `status`. */
  datatype Equipment = Equipment(
    id: string,
    kind: EquipmentKind,
    model: string,
    serialNumber: string,
    currentUser: Option<string>,
    currentLocation: Option<string>,
    status: EquipmentStatus)

  datatype HistoryStatus = HistoryCompleted | HistoryOngoing | HistoryCancelled

  function HistoryStatusName(s: HistoryStatus): string {
    match s
    case HistoryCompleted => "completed"
    case HistoryOngoing => "ongoing"
    case HistoryCancelled => "cancelled"
  }

  function ParseHistoryStatus(tag: string): (r: Option<HistoryStatus>)
    ensures r.Some? ==> HistoryStatusName(r.value) == tag
    ensures r.None? ==> forall s :: HistoryStatusName(s) != tag
  {
    if tag == "completed" then Some(HistoryCompleted)
    else if tag == "ongoing" then Some(HistoryOngoing)
    else if tag == "cancelled" then Some(HistoryCancelled)
    else None
  }

  /** One loan of an equipment item; `equipmentId` refers to `Equipment.id`. */
  datatype EquipmentHistory = EquipmentHistory(
    id: string,
    equipmentId: string,
    userId: string,
    userName: string,
    userAvatar: string,
    travelId: string,
    destination: string,
    startDate: string,
    endDate: string,
    status: HistoryStatus,
    purpose: string)

  datatype CurrentTravel = CurrentTravel(destination: string, startDate: string, endDate: string)

  /** A user; `currentTravel` is optional. */
  datatype User = User(
    id: string,
    name: string,
    email: string,
    avatar: string,
    department: string,
    currentTravel: Option<CurrentTravel>)
}

/** The travel-request records of src/types/travel.ts. */
module TravelTypes {
  import opened Wrappers

  /** The five states a travel request can be in. */
  datatype TravelStatus = Pending | Approved | InProgress | Completed | Rejected

  /** The string tag each status carries in the data. */
  function TravelStatusName(s: TravelStatus): string {
    match s
    case Pending => "pending"
    case Approved => "approved"
    case InProgress => "in_progress"
    case Completed => "completed"
    case Rejected => "rejected"
  }

  /** Distinct statuses carry distinct tags, so comparing tags compares
      statuses. */
  lemma TravelStatusNameInjective(a: TravelStatus, b: TravelStatus)
    ensures TravelStatusName(a) == TravelStatusName(b) <==> a == b
  {
  }

  /** Arrival may be wished in the morning, the evening, either, or at a
      specific time. */
  datatype ArrivalPreference = ArriveMorning | ArriveEvening | ArriveBoth | ArriveSpecific

  /** Departure may be wished in the evening, the next day, either, or at a
      specific time; only departure has a next-day option. */
  datatype DeparturePreference = LeaveEvening | LeaveNextDay | LeaveBoth | LeaveSpecific

  function ArrivalPreferenceName(p: ArrivalPreference): string {
    match p
    case ArriveMorning => "morning"
    case ArriveEvening => "evening"
    case ArriveBoth => "both"
    case ArriveSpecific => "specific"
  }

  function DeparturePreferenceName(p: DeparturePreference): string {
    match p
    case LeaveEvening => "evening"
    case LeaveNextDay => "next_day"
    case LeaveBoth => "both"
    case LeaveSpecific => "specific"
  }

  /** Each preference has its own tag; "next_day" is a departure tag and
      never an arrival tag, "morning" the other way round. */
  lemma PreferenceNames(a: ArrivalPreference, b: ArrivalPreference, c: DeparturePreference, d: DeparturePreference)
    ensures ArrivalPreferenceName(a) == ArrivalPreferenceName(b) <==> a == b
    ensures DeparturePreferenceName(c) == DeparturePreferenceName(d) <==> c == d
    ensures ArrivalPreferenceName(a) != "next_day" && DeparturePreferenceName(c) != "morning"
  {
  }

  datatype Destination = Destination(city: string, address: string)

  /** ISO date strings; nothing orders `start` before `end`. */
  datatype TravelDates = TravelDates(start: string, end: string)

  datatype Schedule = Schedule(
    arrivalTime: string,
    arrivalPreference: ArrivalPreference,
    departureTime: string,
    departurePreference: DeparturePreference)

  datatype Accommodation = Accommodation(hotelPreference: string, location: string)

  datatype EquipmentRequest = EquipmentRequest(laptop: bool, simCard: bool, other: string)

  /** A travel request; `validatorNotes` is its only optional field. */
  datatype TravelRequest = TravelRequest(
    id: string,
    requesterName: string,
    requesterEmail: string,
    purpose: string,
    destination: Destination,
    dates: TravelDates,
    schedule: Schedule,
    accommodation: Accommodation,
    equipment: EquipmentRequest,
    status: TravelStatus,
    createdAt: string,
    validatorNotes: Option<string>)

  datatype SenderType = Requester | Validator

  /** One message of the requester/validator conversation about a travel. */
  datatype ChatMessage = ChatMessage(
    id: string,
    travelId: string,
    sender: string,
    senderType: SenderType,
    message: string,
    timestamp: string)
}

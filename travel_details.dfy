/** The travel detail page of src/pages/TravelDetails.tsx: the conversation
    with the requester, the validator's notes and actions, and the schedule
    preference labels. */
module TravelDetailsPage {
  import opened Wrappers
  import opened Strings
  import opened TravelTypes
  import Dashboard

  /** The badge text for an arrival preference tag; any tag other than
      morning, evening or both reads as a precise time. */
  function ArrivalLabel(tag: string): (l: string)
    ensures tag == "morning" ==> l == "Matin"
    ensures tag == "evening" ==> l == "Soir"
    ensures tag == "both" ==> l == "Flexible"
    ensures l == "Heure précise" <==>
      forall p :: p != ArriveSpecific ==> ArrivalPreferenceName(p) != tag
  {
    if tag == "morning" then assert ArrivalPreferenceName(ArriveMorning) == tag; "Matin"
    else if tag == "evening" then assert ArrivalPreferenceName(ArriveEvening) == tag; "Soir"
    else if tag == "both" then assert ArrivalPreferenceName(ArriveBoth) == tag; "Flexible"
    else "Heure précise"
  }

  /** The badge text for a departure preference tag; any tag other than
      evening, next_day or both reads as a precise time. */
  function DepartureLabel(tag: string): (l: string)
    ensures tag == "evening" ==> l == "Soir"
    ensures tag == "next_day" ==> l == "Lendemain"
    ensures tag == "both" ==> l == "Flexible"
    ensures l == "Heure précise" <==>
      forall p :: p != LeaveSpecific ==> DeparturePreferenceName(p) != tag
  {
    if tag == "evening" then assert DeparturePreferenceName(LeaveEvening) == tag; "Soir"
    else if tag == "next_day" then assert DeparturePreferenceName(LeaveNextDay) == tag; "Lendemain"
    else if tag == "both" then assert DeparturePreferenceName(LeaveBoth) == tag; "Flexible"
    else "Heure précise"
  }

  /** Distinct arrival preferences get distinct labels. */
  lemma ArrivalLabelsDistinct(p: ArrivalPreference, q: ArrivalPreference)
    ensures ArrivalLabel(ArrivalPreferenceName(p)) == ArrivalLabel(ArrivalPreferenceName(q)) <==> p == q
  {
    PreferenceNames(p, q, LeaveSpecific, LeaveSpecific);
  }

  /** Distinct departure preferences get distinct labels. */
  lemma DepartureLabelsDistinct(p: DeparturePreference, q: DeparturePreference)
    ensures DepartureLabel(DeparturePreferenceName(p)) == DepartureLabel(DeparturePreferenceName(q)) <==> p == q
  {
    PreferenceNames(ArriveSpecific, ArriveSpecific, p, q);
  }

  /** The options both directions share read alike; "next_day" is only
      understood on departure, and reads as a precise time on arrival. */
  lemma SharedPreferenceLabels()
    ensures ArrivalLabel("evening") == DepartureLabel("evening") == "Soir"
    ensures ArrivalLabel("both") == DepartureLabel("both") == "Flexible"
    ensures ArrivalLabel("specific") == DepartureLabel("specific") == "Heure précise"
    ensures DepartureLabel("next_day") == "Lendemain" && ArrivalLabel("next_day") == "Heure précise"
  {
  }

  /** The validator's panel (notes, approve, reject) is rendered only for a
      travel whose status tag is "pending". */
  predicate ShowsValidatorActions(travel: TravelRequest) {
    TravelStatusName(travel.status) == "pending"
  }

  /** The panel shows exactly for pending travels, which are exactly those the
      dashboard's pending tab lists. */
  lemma ValidatorActionsIffPending(travel: TravelRequest)
    ensures ShowsValidatorActions(travel) <==> travel.status == Pending
    ensures ShowsValidatorActions(travel) <==> Dashboard.SelectTravels([travel], Some("pending"), "") == [travel]
  {
    TravelStatusNameInjective(travel.status, Pending);
  }

  /** The state of the page for one travel: the travel itself, which has no
      setter, the conversation, the message being typed and the validator's
      notes. */
  class TravelDetailsView {
    const travel: TravelRequest
    var messages: seq<ChatMessage>
    var newMessage: string
    var validatorNotes: string

    /** The notes start from the travel's own notes, or empty when it has
        none; the message input starts empty. */
    constructor (travel: TravelRequest, initialMessages: seq<ChatMessage>)
      ensures this.travel == travel && messages == initialMessages && newMessage == ""
      ensures validatorNotes == travel.validatorNotes.GetOr("")
    {
      this.travel := travel;
      messages := initialMessages;
      newMessage := "";
      validatorNotes := travel.validatorNotes.GetOr("");
    }

    /** The message input's change handler. */
    method SetNewMessage(text: string)
      modifies this
      ensures newMessage == text
      ensures messages == old(messages) && validatorNotes == old(validatorNotes)
    {
      newMessage := text;
    }

    /** The notes textarea's change handler. */
    method SetValidatorNotes(text: string)
      modifies this
      ensures validatorNotes == text
      ensures messages == old(messages) && newMessage == old(newMessage)
    {
      validatorNotes := text;
    }

    /** Sending: a blank input changes nothing; otherwise the input, as typed
        and untrimmed, is appended as the validator's message and the input
        is cleared. The id and the timestamp are the clock's readings. */
    method HandleSendMessage(id: string, timestamp: string)
      modifies this
      ensures IsBlank(old(newMessage)) ==> messages == old(messages) && newMessage == old(newMessage)
      ensures !IsBlank(old(newMessage)) ==>
        && messages == old(messages) + [ChatMessage(id, travel.id, "Validateur", Validator, old(newMessage), timestamp)]
        && newMessage == ""
      ensures validatorNotes == old(validatorNotes)
    {
      if Trim(newMessage) == [] {
        return;
      }
      var message := ChatMessage(id, travel.id, "Validateur", Validator, newMessage, timestamp);
      messages := messages + [message];
      newMessage := "";
    }

    /** Approving only notifies: the travel, its status included, stays as
        it was. */
    method HandleApprove()
      ensures unchanged(this)
    {
    }

    /** Rejecting only notifies: the travel, its status included, stays as
        it was. */
    method HandleReject()
      ensures unchanged(this)
    {
    }
  }
}

# Travel and equipment management front end, modelled in Dafny

This project models the logic inside a travel-request and equipment-tracking
web front end. Employees file travel requests. A validator reviews each one
and talks with the requester. The equipment lent for each trip (laptops, SIM
cards, tablets) is listed in a table, a detail dialog and a calendar.

The modelled parts are:

- **Records** (`travel_types.dfy`, `equipment_types.dfy`): travel requests,
  chat messages, equipment items, history entries and users, with each string
  enumeration as a datatype. Each status and preference enumeration has a tag
  function. The equipment and history statuses, which reach the badge
  lookups as free strings, also have a partial parser.
- **Travel status badge** (`status_badge.dfy`): the total table from travel
  status to label and badge variant.
- **Calendar view** (`equipment_calendar_view.dfy`): the events covering a
  date, and the imperative loop that lists every day of every event.
- **Equipment dialog** (`equipment_modal.dfy`):
  - the history of one item;
  - its current holder, taken as the first ongoing entry;
  - the status badges, with their fall-backs;
  - the holder's initials.
- **Equipment table** (`equipment_table_view.dfy`): the case-insensitive
  substring search over four fields, and the status badge.
- **Dashboard** (`dashboard.dfy`): the status tabs combined with the text
  search, as a method making two successive filter passes, and the counters.
- **Request form** (`travel_request.dfy`):
  - the dynamic form object, with the dotted-path update handler as a class
    over that state;
  - submission validation, based on JavaScript truthiness.
- **Detail page** (`travel_details.dfy`):
  - the conversation state as a class, with the guarded send handler;
  - the validator panel guard;
  - the two schedule-preference label mappings.

Shared helpers:

- `seqs.dfy` holds `Array.prototype.filter` and the order-preserving
  subsequence relation.
- `strings.dfy` holds the string operations the source relies on:
  - `toLowerCase` on ASCII and Latin-1, and an upper-casing `Upper` that
    inverts it on those letters;
  - `includes`;
  - `split` on one separator, and `join` only as its inverse in the
    round-trip lemmas (the initials' `join('')` is `FirstChars`);
  - `trim`, with the ECMAScript white-space set.

Modelling choices:

- Dates are integer day numbers. An instant is a day plus the milliseconds
  into it, so a calendar date and a parsed ISO date compare as in the
  source.
- Clock readings (message ids and timestamps) are parameters.
- The form state of the request page has no fixed shape in the source: it is
  updated through string paths. So it is modelled as a map from property
  names to JavaScript values, and object spread is map union.

Two behaviours of the code are kept as they are:

- the calendar's list of days keeps duplicates;
- several ongoing history entries may exist, and the first one is the
  holder.

## Model

| member | source | states |
|---|---|---|
| TravelTypes.TravelStatusNameInjective | src/types/travel.ts:1 | the five status tags are distinct, so comparing tags compares statuses |
| TravelTypes.PreferenceNames | src/types/travel.ts:18-20 | arrival and departure preference tags are each distinct; "next_day" is never an arrival tag and "morning" never a departure tag |
| EquipmentTypes.ParseEquipmentStatus | src/types/equipment.ts:8 | a free-string status parses to the status carrying that tag, and fails exactly when no status carries it |
| EquipmentTypes.ParseHistoryStatus | src/types/equipment.ts:21 | the same for history entry statuses (completed, ongoing, cancelled) |
| StatusBadge.StatusConfig | src/components/StatusBadge.tsx:8-32 | the lookup is total; secondary holds exactly for pending and completed, destructive exactly for rejected, default exactly for approved, outline exactly for in progress |
| StatusBadge.StatusLabelsDistinct | src/components/StatusBadge.tsx:10-26 | two statuses have the same label only if they are the same status |
| EquipmentCalendarView.CoversByDay | src/components/EquipmentCalendarView.tsx:119-123 | an instant is inside an event iff its day lies in the event's inclusive range, where on the end day only its midnight counts |
| EquipmentCalendarView.OutsideRangeNotCovered | src/components/EquipmentCalendarView.tsx:122 | no instant of the day before the start or the day after the end is matched, and an event ending before it starts matches nothing |
| EquipmentCalendarView.EventsForDate | src/components/EquipmentCalendarView.tsx:118-124 | an event is listed iff it covers the date, and the result is an order-preserving subsequence of the events |
| EquipmentCalendarView.DayRange | src/components/EquipmentCalendarView.tsx:131-133 | the days from lo to hi inclusive, ascending, empty when hi < lo |
| EquipmentCalendarView.GetAllEventDates | src/components/EquipmentCalendarView.tsx:126-136 | the nested loops emit, event by event in input order, every day of its range ascending (`EventDays`) |
| EquipmentCalendarView.EventDaysLength | src/components/EquipmentCalendarView.tsx:127-135 | the number of days emitted is the sum over events of max(0, end - start + 1) |
| EquipmentCalendarView.EventDaysMembership | src/components/EquipmentCalendarView.tsx:128-134 | a day is emitted iff it lies in the range of some event |
| EquipmentCalendarView.MarkedIffHasEvents | src/components/EquipmentCalendarView.tsx:118-139 | a day is marked on the calendar iff the events listed for its midnight are non-empty |
| EquipmentCalendarView.EventDaysConcat | src/components/EquipmentCalendarView.tsx:128-134 | the days of two lists of events in a row are the days of the first followed by those of the second |
| EquipmentCalendarView.BackwardTripAddsNothing | src/components/EquipmentCalendarView.tsx:131 | an event whose end precedes its start contributes no day, at any position in the list |
| EquipmentCalendarView.OverlapKeepsDuplicates | src/components/EquipmentCalendarView.tsx:127-135 | overlapping events give repeated days: 15-17 and 16-16 give 15, 16, 17, 16 |
| EquipmentModal.EquipmentStatusBadge | src/components/EquipmentModal.tsx:92-107 | a known status tag gets its own entry, and any other tag gets the available entry |
| EquipmentModal.EquipmentBadgeFallback | src/components/EquipmentModal.tsx:100 | the badge reads "Disponible" iff the tag is "available" or no status carries the tag |
| EquipmentModal.HistoryStatusBadge | src/components/EquipmentModal.tsx:109-123 | a known history tag gets its own entry, and any other tag gets the completed entry |
| EquipmentModal.HistoryFor | src/components/EquipmentModal.tsx:136 | exactly the entries with the item's id, as an order-preserving subsequence |
| EquipmentModal.CurrentHolder | src/components/EquipmentModal.tsx:137 | absent iff no entry is ongoing; otherwise an ongoing entry with no ongoing entry before it |
| EquipmentModal.Resolve | src/components/EquipmentModal.tsx:133-137 | no item gives no dialog; otherwise the history holds exactly the entries with the item's id, and the holder is one of them and is ongoing |
| EquipmentModal.UnknownItemHasNoHistory | src/components/EquipmentModal.tsx:136-137 | an id that no entry refers to gives an empty history and no holder |
| EquipmentModal.FirstCharsOfSplit | src/components/EquipmentModal.tsx:169 | the first characters of the space-separated parts are the characters that start a word |
| EquipmentModal.InitialsAreWordStarts | src/components/EquipmentModal.tsx:169 | the initials are the first letters of the words; empty parts from repeated, leading or trailing spaces add nothing |
| EquipmentTableView.FilteredEquipments | src/components/EquipmentTableView.tsx:120-125 | an item is kept iff the lower-cased term occurs in its lower-cased model, serial number, or present user or location; order is preserved |
| EquipmentTableView.EmptySearchKeepsAll | src/components/EquipmentTableView.tsx:121 | the empty term keeps every item, in order |
| EquipmentTableView.AbsentFieldsNeverMatch | src/components/EquipmentTableView.tsx:123-124 | with no user and no location, only the model and serial number are searched |
| EquipmentTableView.SearchIgnoresCase | src/components/EquipmentTableView.tsx:121-124 | two terms with the same lower case give the same result |
| EquipmentTableView.UpperCaseSearch | src/components/EquipmentTableView.tsx:121-124 | upper-casing the term does not change the result |
| EquipmentTableView.LongerTermNarrows | src/components/EquipmentTableView.tsx:120-125 | if the term occurs in a longer term, the longer term's result is a subsequence of the term's result |
| EquipmentTableView.StatusBadgeFor | src/components/EquipmentTableView.tsx:98-113 | a known status tag gets its own entry, and any other tag gets the available entry |
| EquipmentTableView.BadgeMatchesDialog | src/components/EquipmentTableView.tsx:98-113 | the table's badge equals the dialog's badge for every tag |
| Dashboard.SelectTravels | src/pages/Dashboard.tsx:83-99 | a travel is listed iff it has the tab's status (when a status filter applies) and matches the term (when the term is non-empty); order is preserved |
| Dashboard.TwoStepsSelect | src/pages/Dashboard.tsx:86-96 | the status pass followed by the search pass selects the same travels as the combined condition |
| Dashboard.FilterTravels | src/pages/Dashboard.tsx:83-99 | the two successive reassignments of `filtered` yield the selection of `SelectTravels` |
| Dashboard.AllTabIsUnfiltered | src/pages/Dashboard.tsx:86 | the "all" tab lists the same travels as no status argument |
| Dashboard.NoFilterListsAll | src/pages/Dashboard.tsx:84-90 | no status and an empty term list every travel, in order |
| Dashboard.SearchIgnoresCase | src/pages/Dashboard.tsx:91-95 | two terms with the same lower case select the same travels |
| Dashboard.SearchIgnoresEmailAndAddress | src/pages/Dashboard.tsx:91-95 | changing the e-mail or the address never changes whether a travel matches |
| Dashboard.StatusCountsPartition | src/pages/Dashboard.tsx:101-108 | the five per-status counts add up to the number of travels |
| Dashboard.GetStats | src/pages/Dashboard.tsx:101-108 | the total is the list length; each counter is the length of its tab's list; the three counters add up to at most the total, with equality iff no travel is completed or rejected |
| Dashboard.TabMatchesBucket | src/pages/Dashboard.tsx:87 | a status tab lists exactly the travels with that status |
| Dashboard.UncountedBuckets | src/pages/Dashboard.tsx:103-106 | the completed and rejected buckets are empty iff no travel is completed or rejected |
| TravelRequestPage.InitialFormShape | src/pages/TravelRequest.tsx:32-59 | the initial form has all ten text fields empty, undefined dates, laptop and SIM card false, arrival "morning" and departure "evening" |
| TravelRequestPage.NextFormData | src/pages/TravelRequest.tsx:84-101 | a one-key path replaces that property and nothing else; a two-key path rewrites one entry of a copy of the section and nothing else; a longer path changes nothing |
| TravelRequestPage.UpdateTopLevel | src/pages/TravelRequest.tsx:87-88 | after a one-key write the property reads back as written, and every other property reads as before |
| TravelRequestPage.UpdateNested | src/pages/TravelRequest.tsx:89-97 | after a two-key write the nested property reads back as written, its siblings read as before, and so do all other sections |
| TravelRequestPage.DeepPathIgnored | src/pages/TravelRequest.tsx:99 | a path of three or more keys leaves the state as it was |
| TravelRequestPage.HandleSubmit | src/pages/TravelRequest.tsx:61-82 | submission succeeds iff each of the six required fields is truthy |
| TravelRequestPage.SubmitIffRequiredFilled | src/pages/TravelRequest.tsx:65-66 | the six required fields by name: name, e-mail, purpose, city, start date, end date |
| TravelRequestPage.InitialFormRejected | src/pages/TravelRequest.tsx:32-73 | the untouched form is refused |
| TravelRequestPage.OnlyRequiredFieldsMatter | src/pages/TravelRequest.tsx:65-66 | two forms that agree on the six required fields get the same outcome, whatever their address, schedule, accommodation or equipment |
| TravelRequestPage.LaxValidation | src/pages/TravelRequest.tsx:65-66 | blank texts, a malformed e-mail and an end date before the start date are all accepted |
| TravelRequestPage.FillTopLevel | src/pages/TravelRequest.tsx:87-88 | three successive writes to distinct top-level properties all read back as written |
| TravelRequestPage.FillSections | src/pages/TravelRequest.tsx:89-97 | writing the city and both dates leaves them as written and every property outside those two sections as before |
| TravelRequestPage.FillingRequiredSubmits | src/pages/TravelRequest.tsx:61-101 | writing a non-empty name, e-mail, purpose and city and both dates, from any state, makes the six required fields truthy |
| TravelRequestPage.FillRequiredAndSubmit | src/pages/TravelRequest.tsx:61-101 | filling the required fields through the form's handler, from the initial state, makes submission succeed |
| TravelRequestPage.TravelRequestForm.constructor | src/pages/TravelRequest.tsx:32-59 | the form state starts as the initial form |
| TravelRequestPage.TravelRequestForm.UpdateFormData | src/pages/TravelRequest.tsx:84-101 | the state becomes `NextFormData` of the old state, the path and the value |
| TravelDetailsPage.ArrivalLabel | src/pages/TravelDetails.tsx:212-214 | morning reads "Matin", evening "Soir", both "Flexible"; the label is "Heure précise" exactly when the tag is none of morning, evening and both |
| TravelDetailsPage.DepartureLabel | src/pages/TravelDetails.tsx:221-223 | evening reads "Soir", next_day "Lendemain", both "Flexible"; the label is "Heure précise" exactly when the tag is none of evening, next_day and both |
| TravelDetailsPage.ArrivalLabelsDistinct | src/pages/TravelDetails.tsx:212-214 | distinct arrival preferences get distinct labels |
| TravelDetailsPage.DepartureLabelsDistinct | src/pages/TravelDetails.tsx:221-223 | distinct departure preferences get distinct labels |
| TravelDetailsPage.SharedPreferenceLabels | src/pages/TravelDetails.tsx:212-223 | evening, both and specific read alike in both directions; "next_day" is "Lendemain" on departure and a precise time on arrival |
| TravelDetailsPage.ValidatorActionsIffPending | src/pages/TravelDetails.tsx:278 | the validator panel shows iff the travel is pending, which is iff the dashboard's pending tab lists it |
| TravelDetailsPage.TravelDetailsView.constructor | src/pages/TravelDetails.tsx:84-87 | the notes start as the travel's notes, or empty when it has none; the input starts empty |
| TravelDetailsPage.TravelDetailsView.SetNewMessage | src/pages/TravelDetails.tsx:344 | the input becomes the text typed; the conversation and notes are untouched |
| TravelDetailsPage.TravelDetailsView.SetValidatorNotes | src/pages/TravelDetails.tsx:289 | the notes become the text typed; the conversation and input are untouched |
| TravelDetailsPage.TravelDetailsView.HandleSendMessage | src/pages/TravelDetails.tsx:105-124 | a blank input changes nothing; otherwise exactly one message is appended, from "Validateur" as validator for this travel with the untrimmed text, after the unchanged earlier ones, and the input is cleared |
| TravelDetailsPage.TravelDetailsView.HandleApprove | src/pages/TravelDetails.tsx:126-131 | nothing in the page state changes, the travel's status included |
| TravelDetailsPage.TravelDetailsView.HandleReject | src/pages/TravelDetails.tsx:133-139 | nothing in the page state changes, the travel's status included |
| Seqs.Filter | src/pages/Dashboard.tsx:87 | `filter` keeps exactly the elements satisfying the predicate, with their multiplicities, in order |
| Seqs.FilterFilter | src/pages/Dashboard.tsx:87-95 | filtering twice equals filtering once by the conjunction |
| Strings.IncludesIffOccurs | src/components/EquipmentTableView.tsx:121 | `includes` holds iff the needle occurs at some index of the haystack |
| Strings.LowerOfLower | src/components/EquipmentTableView.tsx:121 | lower-casing is idempotent, and lower-casing an upper-cased string equals lower-casing the original |
| Strings.JoinSplit | src/pages/TravelRequest.tsx:86 | joining the parts of a split on '.' gives the path back |
| Strings.SplitJoin | src/pages/TravelRequest.tsx:86-90 | splitting the join of separator-free keys gives the keys back |
| Strings.Trim | src/pages/TravelDetails.tsx:106 | the trimmed text is empty iff the input is all ECMAScript white space, and otherwise starts and ends with a non-space |

## Left out

- Rendering, styling, icons, dialogs, tabs, routing (`navigate`), toasts and
  modal open/close toggles. These are presentation and side effects, not logic.
- `TravelCard` only formats a travel for display.
- `parseISO`, time zones and daylight-saving steps through `setDate`. Events
  carry day numbers, and a day is always 86 400 000 ms.
- The French locale formatting of dates and times.
- `Date.now()` and `new Date()`. The message id and timestamp are parameters
  of `HandleSendMessage`.
- Strings.Lower: `toLowerCase` is modelled on ASCII and Latin-1 only. Other
  scripts are left unchanged, and strings are sequences of characters rather
  than UTF-16 code units.
- Strings.Upper: it differs from `toUpperCase`, which the code never calls,
  on ß (to "SS" in JavaScript), µ (to U+039C) and ÿ (to U+0178), and outside
  Latin-1. So Strings.LowerOfLower and EquipmentTableView.UpperCaseSearch
  hold for `Upper`, but not for JavaScript's `toUpperCase` on those
  characters.
- TravelRequestPage.NextFormData: a two-key path whose first key names a
  string property spreads that string into an object of indexed characters
  in JavaScript. The model spreads it as an empty object. The paths the form
  uses never do this.
- TravelRequestPage.HandleSubmit: when a form section such as `destination`
  or `dates` has been overwritten with `undefined`, reading `city` or
  `start` from it throws a TypeError in JavaScript. The model reads
  `undefined` and returns `MissingFields`. Either way the page does not
  navigate; only the error toast differs.
- EquipmentModal.EquipmentStatusBadge: a status tag naming a property
  inherited from `Object.prototype` (such as "toString") would select that
  property in JavaScript. The model treats it as unknown and falls back.
  The same holds for EquipmentModal.HistoryStatusBadge and
  EquipmentTableView.StatusBadgeFor.
- The mock data arrays stand behind every list here. The model takes the
  lists as parameters.
- The type does not tie the presence of an item's current user or location
  to its status, and neither does the model.
- No check for double-booked equipment and no de-duplication of calendar
  days. The source has neither.
- The order of `start` and `end` in a travel's dates is not checked. The
  source does not check it either.

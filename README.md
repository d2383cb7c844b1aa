# EventHub in Dafny

EventHub is a React front end over a hosted database. Visitors browse a catalogue of events, open an event and register for it. Administrators create, edit and delete events, look through and delete registrations, export them to a spreadsheet and adjust some dashboard settings. This project models the deterministic rules inside those pages and dialogs and proves what they promise:

- the mapping of a stored `events` row to the application's `Event`, and the lookups over the built-in event list (`EventData`);
- the catalogue's search and category filter, its pages of twelve, and the page state that the search box, the category buttons and the pager change (`Catalog`);
- an event card's availability classification, badge, register button, price label and type colour (`EventCard`);
- the registration page: loading the event, the form, the submission guard and its insert record, and the `isSubmitting` flag (`Registration`);
- the event form shared by the create and edit dialogs, including the comma-separated features codec (`EventForm`), and the two dialogs themselves (`CreateEvent`, `EditEvent`);
- the admin dashboard: the search filters, the statistics, the confirmation-gated deletes with their error branches, the per-row fallback of the delete-all, the export rows and file name, and the badge colours (`Admin`);
- the settings dialog's nested record update and save (`Settings`).

The supporting modules model the JavaScript primitives the code relies on (`Strings`: `trim`, ASCII `toLowerCase`, `includes`, `split`, `join`, `Number` on decimal text, `toString` of a natural number; `Lists`: `filter`, `map`, `slice`), `Option`/`Result` (`Wrappers`), and the answers of the hosted store (`Remote`).

Every request to the store is an input: the model receives the answer (`Remote.Outcome` for an insert, update or delete; `Remote.Fetch` for a select). A handler reports which requests it issued, and what it would navigate to or fetch again. Window confirmations are boolean inputs. The locale date formatter is a function parameter. Component state that the source updates through setters becomes a class: `Catalog.EventsPage`, `Registration.RegistrationPage`, `CreateEvent.CreateEventDialog`, `EditEvent.EditEventDialog`, `Admin.Dashboard` and `Settings.SettingsDialog`. Their fields are the React state variables, and their methods are the handlers.

Two details of the code are easy to miss. In `mapSupabaseEventToEvent`, `Number("")` is 0, so an empty price text becomes the amount 0, not `'Free'` (`EventData.ParsePrice`, through `Strings.ToNumber`). On the registration page the initial ticket type is "paid" for every event; `Registration.RegistrationPage` follows the code here, and "## Findings" records the consequence and the corrected rule.

## Model

| member | source | states |
|---|---|---|
| EventData.PriceText | src/components/EditEventDialog.tsx:73 | "Free" for a free event; for an amount, its decimal digits, which read back as the same number |
| EventData.ParsePrice | src/data/events.ts:54-56 | "free" in any letter case is free; text that is not a number is free; any other text is exactly the amount `Number` gives for it |
| EventData.ParsePriceText | src/data/events.ts:54-56 | reading back the text of any price gives that price |
| EventData.ParsePriceFreeSpellings | src/data/events.ts:54-55 | "free" and "FREE" are both free |
| EventData.ParsePriceNotANumber | src/data/events.ts:56 | a non-numeric text is free |
| EventData.ParsePriceDigits | src/data/events.ts:56 | "250" is the amount 250 |
| EventData.MapRow | src/data/events.ts:40-72 | id, title, date, time and location are copied; the price is normalised; a null or empty description becomes "", an empty type "Event", a null or empty image the placeholder; a missing capacity becomes 100 and a missing count 0; features pass through; there is no failure path |
| EventData.MapRowDefaults | src/data/events.ts:65-70 | every mapped event has a type and an image; a stored capacity or count of 0 is kept; an empty feature list is kept |
| EventData.MapStoredRow | src/data/events.ts:40-72 | mapping inverts storing: an event in normal form read back from its own row is the same event |
| EventData.IndexOfId | src/data/events.ts:27-29 | the position of the first event with the id, or none when no event has it |
| EventData.FindById | src/data/events.ts:27-29 | `find` gives the first event with the id, and none exactly when no event has it |
| EventData.GetEventById | src/data/events.ts:23-29 | over the empty built-in list the lookup always finds nothing |
| EventData.EventsOfType | src/data/events.ts:31-33 | exactly the events of the type, each as often as in the list, as an order-preserving subsequence |
| EventData.GetEventsByType | src/data/events.ts:23-33 | over the built-in list the result is empty |
| EventData.FirstThree | src/data/events.ts:35-37 | a prefix of length min(3, n) |
| EventData.GetFeaturedEvents | src/data/events.ts:23-37 | over the built-in list the result is empty |
| Catalog.FilterEvents | src/pages/Events.tsx:22-27 | an event is kept iff it passes both the search and the category test, each kept event as often as in the list, and the result is an order-preserving subsequence |
| Catalog.EmptySearchMatchesAll | src/pages/Events.tsx:23-24 | the empty search term matches every event |
| Catalog.SearchIgnoresCase | src/pages/Events.tsx:23-24 | terms that are equal after lower-casing match the same events |
| Catalog.SearchIgnoresType | src/pages/Events.tsx:23-24 | the search never depends on the event's type |
| Catalog.ClearedFiltersKeepAll | src/pages/Events.tsx:194-197 | with search "" and category "All" the filter is the identity |
| Catalog.AllTypesIsNoTypeFilter | src/pages/Events.tsx:25 | the category "All" lets every event through |
| Catalog.FilterEventsIdempotent | src/pages/Events.tsx:22-27 | filtering twice is filtering once |
| Catalog.TotalPages | src/pages/Events.tsx:16-30 | the least number of pages of 12 that holds n events |
| Catalog.Page | src/pages/Events.tsx:31-33 | at most 12 items; page p in 1..totalPages is the non-empty run [(p-1)*12, min(p*12, n)) |
| Catalog.PagesUpToIsPrefix | src/pages/Events.tsx:30-33 | pages 1..k together are the first min(12k, n) items |
| Catalog.PagesReassemble | src/pages/Events.tsx:30-33 | concatenating pages 1..totalPages gives back the filtered list exactly |
| Catalog.PagePastEndIsEmpty | src/pages/Events.tsx:31-33 | a page after the last one is empty |
| Catalog.EventsPage.CurrentEvents | src/pages/Events.tsx:31-33 | the current page holds at most 12 events, and holds some whenever an event matches |
| Catalog.EventsPage.PagerShown | src/pages/Events.tsx:148-180 | on a valid page the pager is shown exactly when nothing is loading and the filtered events fill more than one page |
| Catalog.EventsPage.PreviousDisabled | src/pages/Events.tsx:153-154 | on a valid page Previous is disabled exactly when there is no page before the current one |
| Catalog.EventsPage.NextDisabled | src/pages/Events.tsx:174-175 | on a valid page of a non-empty list Next is disabled exactly when there is no page after the current one |
| Catalog.EventsPage.ClearFiltersShown | src/pages/Events.tsx:182-197 | on a valid page the "No events found" panel with its button is shown exactly when nothing is loading and no event matches |
| Catalog.EventsPage.constructor | src/pages/Events.tsx:11-53 | after the mount fetch: empty search, "All", page 1; an error or an empty answer leaves no loaded events; a thrown fetch leaves the spinner on |
| Catalog.EventsPage.SetSearchTerm | src/pages/Events.tsx:55-58 | a changed search term resets the page to 1; the same term changes nothing |
| Catalog.EventsPage.SelectType | src/pages/Events.tsx:55-58 | a changed category resets the page to 1; the same category changes nothing |
| Catalog.EventsPage.ClearFilters | src/pages/Events.tsx:182-200 | from the "No events found" panel: search "" and category "All", after which the list is every loaded event |
| Catalog.EventsPage.ClickPrevious | src/pages/Events.tsx:148-157 | one page back unless there is no pager or the page is 1; the page stays valid |
| Catalog.EventsPage.ClickNext | src/pages/Events.tsx:171-178 | one page on unless there is no pager or the page is the last; the page stays valid |
| Catalog.EventsPage.ClickPage | src/pages/Events.tsx:159-169 | a numbered button moves to that page; the page stays valid |
| EventCard.AvailableSpots | src/components/EventCard.tsx:33 | negative exactly when registrations exceed capacity, and zero exactly when they are equal |
| EventCard.FullIsAlmostFull | src/components/EventCard.tsx:34-35 | a full event is almost full |
| EventCard.Classify | src/components/EventCard.tsx:33-35 | sold out iff spots <= 0, almost full iff 0 < spots <= 10, open iff spots > 10 |
| EventCard.ClassifyMonotone | src/components/EventCard.tsx:33-35 | one more registration never makes an event less full |
| EventCard.StatusBadge | src/components/EventCard.tsx:78-90 | "Sold Out" iff full, "Almost Full" iff almost full and not full, no badge otherwise |
| EventCard.RegisterButton | src/components/EventCard.tsx:128-133 | disabled and labelled "Event Full" exactly when full, "Register Now" otherwise |
| EventCard.PriceLabel | src/components/EventCard.tsx:73 | "Free" for a free event, otherwise "₹" followed by digits that read back as the amount |
| EventCard.PriceLabelInjective | src/components/EventCard.tsx:73 | different prices get different labels |
| EventCard.TypeColor | src/components/EventCard.tsx:37-50 | the default class exactly for a type other than the four categories |
| EventCard.TypeColorsDistinct | src/components/EventCard.tsx:37-50 | the four categories get four different classes |
| Registration.LoadScreen | src/pages/EventRegistration.tsx:30-73 | no id: the spinner stays; an error or no row: redirect home; a row: the form for the mapped event |
| Registration.InitialForm | src/pages/EventRegistration.tsx:51-59 | empty texts, unchecked boxes and the given ticket type |
| Registration.InitialTicketTypeAsWritten | src/pages/EventRegistration.tsx:30-55 | the ticket type computed at first render is always "paid" |
| Registration.InitialTicketType | src/pages/EventRegistration.tsx:55 | "free" exactly for a free event and "paid" otherwise |
| Registration.Apply | src/pages/EventRegistration.tsx:154-159 | the named field takes the value and every other field is unchanged |
| Registration.ChangesCommute | src/pages/EventRegistration.tsx:154-159 | changes of different fields commute |
| Registration.LastChangeWins | src/pages/EventRegistration.tsx:154-159 | of two changes of one field the later wins |
| Registration.OfferedChangeKeepsTicket | src/pages/EventRegistration.tsx:323-340 | the controls on the page, where the ticket radio is only shown for a priced event and only offers "paid", keep the intended ticket type |
| Registration.Submission | src/pages/EventRegistration.tsx:78-110 | unchecked terms are refused before any field check; a missing name, email or phone is refused; an accepted insert is confirmed, has the event type or "Unknown", and is "paid" exactly when the form says "paid" |
| Registration.SubmissionIgnoresExtras | src/pages/EventRegistration.tsx:101-110 | special requests and the newsletter box are never sent |
| Registration.FreeEventRegisteredAsPaid | src/pages/EventRegistration.tsx:30-55 | as written, a completed registration for a free event is inserted with a "paid" ticket |
| Registration.RegisteredTicketFollowsPrice | src/pages/EventRegistration.tsx:55-107 | with the intended initial ticket type the inserted ticket follows the event's price |
| Registration.AvailabilityBadge | src/pages/EventRegistration.tsx:234-246 | "Event Full - Registration Closed" iff full, "Almost Full - Register Soon!" iff almost full and not full, "Registration Open" iff not almost full |
| Registration.RegistrationPage.constructor | src/pages/EventRegistration.tsx:30-61 | as written: the form starts empty with the ticket type of the built-in lookup, which is "paid" for every event; not submitting |
| Registration.RegistrationPage.FormShown | src/pages/EventRegistration.tsx:254 | the form is rendered exactly when the badge does not say that registration is closed |
| Registration.RegistrationPage.SubmitDisabled | src/pages/EventRegistration.tsx:398-402 | disabled while submitting and whenever the terms are unchecked, the case the submission refuses first; enabled whenever idle with the terms checked; enabled on a filled form only when the submission is accepted |
| Registration.RegistrationPage.HandleChange | src/pages/EventRegistration.tsx:154-159 | the form becomes the form with that one field changed |
| Registration.RegistrationPage.HandleSubmit | src/pages/EventRegistration.tsx:75-152 | a refused form issues nothing and leaves `isSubmitting` alone; once the insert is issued `isSubmitting` ends false; only a clean answer navigates, with the event's fields and the form's name, email and ticket type |
| EventForm.UpdateField | src/components/CreateEventDialog.tsx:61-63 | the named field takes the value and every other field is unchanged |
| EventForm.UpdatesCommute | src/components/CreateEventDialog.tsx:61-63 | updates of different fields commute |
| EventForm.LastUpdateWins | src/components/CreateEventDialog.tsx:61-63 | of two updates of one field the later wins |
| EventForm.StoredCapacity | src/components/CreateEventDialog.tsx:83 | never 0: a zero capacity is stored as 100 and any other is kept |
| EventForm.NullIfEmpty | src/components/CreateEventDialog.tsx:77-84 | null exactly for the empty text, the text otherwise |
| EventForm.ParseFeatures | src/components/CreateEventDialog.tsx:85-90 | no list exactly for an empty text; every parsed feature is non-empty, comma-free and trimmed |
| EventForm.ParseSingleFeature | src/components/CreateEventDialog.tsx:85-90 | a non-empty text without a comma is the one feature it holds once trimmed, or none when it is blank |
| EventForm.ParseFeaturesAtComma | src/components/CreateEventDialog.tsx:85-90 | the features of two texts joined by a comma are the features of the first followed by those of the second |
| EventForm.BuildPayload | src/components/CreateEventDialog.tsx:74-91 | texts as typed; empty description and image as null; the price text raw; the stored capacity; the parsed features |
| EventForm.TrimPaddedPieces | src/components/EditEventDialog.tsx:76-112 | trimming the pieces of joined features gives back the features |
| EventForm.SplitJoinedFeatures | src/components/EditEventDialog.tsx:76-109 | splitting the ", "-joined text at commas gives the features, each after the first led by a space |
| EventForm.FeaturesRoundTrip | src/components/EditEventDialog.tsx:76-112 | parsing the joined text of well-formed features gives the features back; an empty list comes back as null |
| CreateEvent.CreateEventDialog.constructor | src/components/CreateEventDialog.tsx:43-59 | closed, idle, holding the default form |
| CreateEvent.CreateEventDialog.SetOpen | src/components/CreateEventDialog.tsx:111 | the dialog opens or closes |
| CreateEvent.CreateEventDialog.ChangeField | src/components/CreateEventDialog.tsx:61-63 | the form becomes the form with that one field updated |
| CreateEvent.CreateEventDialog.HandleSubmit | src/components/CreateEventDialog.tsx:65-108 | a missing required field issues nothing and changes nothing; else the built record is inserted and `isSubmitting` ends false; success closes and resets to the default form, failure leaves dialog and form as they were |
| EditEvent.Prefill | src/components/EditEventDialog.tsx:64-77 | fields copied; empty type as "College Fest"; the price text; capacity 0 as 100; features joined with ", " or "" |
| EditEvent.PrefillFeaturesRoundTrip | src/components/EditEventDialog.tsx:76-112 | saving the prefilled form sends back the event's own features, and an empty list as null |
| EditEvent.ApplyPayload | src/components/EditEventDialog.tsx:97-113 | title, description, type, date, time, location, price, image and features replace their columns, the capacity is set; the id and the registered count stay |
| EditEvent.StoreUpdate | src/components/EditEventDialog.tsx:95-114 | exactly the rows with the event's id are rewritten; the others are unchanged and none is added or removed |
| EditEvent.EditRoundTrip | src/components/EditEventDialog.tsx:64-114 | opening a stored event in the editor and saving it unchanged reads back as the same event, except that capacity 0 becomes 100 and an empty feature list null |
| EditEvent.EditEventDialog.constructor | src/components/EditEventDialog.tsx:64-80 | mounted with an event: the form is its prefill and the dialog is open |
| EditEvent.EditEventDialog.ChangeEvent | src/components/EditEventDialog.tsx:64-80 | a new event refills the form and opens the dialog |
| EditEvent.EditEventDialog.SetOpen | src/components/EditEventDialog.tsx:132-137 | opens or closes; closing reports `onClose` |
| EditEvent.EditEventDialog.ChangeField | src/components/EditEventDialog.tsx:82-84 | the form becomes the form with that one field updated |
| EditEvent.EditEventDialog.HandleSubmit | src/components/EditEventDialog.tsx:86-129 | a missing required field issues nothing; else the update is keyed by the event's id and carries the built record; `isSubmitting` ends false; only a clean answer closes the dialog |
| Admin.FilterRegistrations | src/pages/AdminDashboard.tsx:393-397 | a registration is kept iff the lower-cased term occurs in its lower-cased name, email or event type, as often as in the list; order is preserved |
| Admin.EmptyTermKeepsRegistrations | src/pages/AdminDashboard.tsx:393-397 | the empty term keeps every registration |
| Admin.FilterEvents | src/pages/AdminDashboard.tsx:399-403 | an event is kept iff the term matches its title, description or type case-insensitively, as often as in the list; order is preserved |
| Admin.DashboardSearchWidensCatalogSearch | src/pages/AdminDashboard.tsx:399-403 | whatever the catalogue search finds the dashboard finds, and a match on the type alone is found too |
| Admin.PaidRegistrations | src/pages/AdminDashboard.tsx:107 | exactly the registrations with a "paid" ticket, each as often as in the list, in order |
| Admin.Revenue | src/pages/AdminDashboard.tsx:107-113 | a multiple of 50, at most 50 per registration |
| Admin.RevenueAppend | src/pages/AdminDashboard.tsx:107-113 | revenue adds up over concatenated lists |
| Admin.RevenueBounds | src/pages/AdminDashboard.tsx:107-113 | all-free lists bring nothing; all-paid lists bring 50 each |
| Admin.StatsFor | src/pages/AdminDashboard.tsx:106-145 | total registrations is the fetched count and revenue 50 per paid one; total and active events are both the fetched count |
| Admin.Dashboard.constructor | src/pages/AdminDashboard.tsx:46-59 | empty lists, zero statistics, both loading |
| Admin.Dashboard.SetSearchTerm | src/pages/AdminDashboard.tsx:46 | the registration search term is set |
| Admin.Dashboard.SetEventSearchTerm | src/pages/AdminDashboard.tsx:47 | the event search term is set |
| Admin.Dashboard.FetchRegistrations | src/pages/AdminDashboard.tsx:86-121 | fetched rows replace the list and the statistics follow; an error keeps both; loading ends; the statistics keep describing the lists |
| Admin.Dashboard.FetchEvents | src/pages/AdminDashboard.tsx:123-152 | mapped rows replace the list and the event statistics follow; an error keeps both; loading ends |
| Admin.DeleteEvent | src/pages/AdminDashboard.tsx:154-186 | nothing is sent unless confirmed; a clean answer reports done and both lists are fetched again, and only then; a refusal reports its message, an exception an unexpected error |
| Admin.DeleteHint | src/pages/AdminDashboard.tsx:215-219 | the permission hint for 42501, the reference hint for 23503, none otherwise |
| Admin.DeleteRegistration | src/pages/AdminDashboard.tsx:188-231 | nothing is sent unless confirmed; a clean answer reports done and the registrations are fetched again, and only then; a refusal reports its message and hint |
| Admin.Failures | src/pages/AdminDashboard.tsx:290-295 | at most one refusal per row |
| Admin.FallbackCleanIffAllOk | src/pages/AdminDashboard.tsx:294-305 | the fallback sees no refusal and no exception iff every per-row delete is answered cleanly |
| Admin.DeleteAllRegistrations | src/pages/AdminDashboard.tsx:254-320 | nothing is sent unless confirmed; the fallback runs only on 42501 and sends one delete per loaded registration; it succeeds and refetches iff none fails, and reports the first failure otherwise |
| Admin.Cells | src/pages/AdminDashboard.tsx:412-422 | one cell per heading, each under its own heading: id, name, email, phone, event type, ticket type, status, registration date, last update |
| Admin.ExportRowOf | src/pages/AdminDashboard.tsx:412-422 | the registration's fields; a missing or empty phone as "N/A"; both timestamps formatted |
| Admin.ExportRows | src/pages/AdminDashboard.tsx:405-422 | refused exactly for an empty list; otherwise one row per registration, in order |
| Admin.ExportFileName | src/pages/AdminDashboard.tsx:446-447 | the name is EventHub_Registrations_, then a part of the timestamp before any "T", then .xlsx |
| Admin.ExportFileNameOfTimestamp | src/pages/AdminDashboard.tsx:446-447 | for a timestamp date + "T" + time the file name is EventHub_Registrations_ + date + .xlsx |
| Admin.StatusColor | src/pages/AdminDashboard.tsx:455-466 | the muted class exactly for a status other than confirmed, pending or cancelled |
| Admin.StatusColorsDistinct | src/pages/AdminDashboard.tsx:455-466 | the three statuses get three different classes |
| Admin.TicketTypeColor | src/pages/AdminDashboard.tsx:468-470 | the primary class exactly for "paid", the secondary class otherwise |
| Settings.UpdateSetting | src/components/SettingsDialog.tsx:75-83 | the key of the section holds the value; every other key of that section and every other section is unchanged |
| Settings.GetAfterUpdate | src/components/SettingsDialog.tsx:76-82 | the updated section is the old one with the key set |
| Settings.LastUpdateWins | src/components/SettingsDialog.tsx:75-83 | of two updates of one key the later wins |
| Settings.UpdatesCommute | src/components/SettingsDialog.tsx:75-83 | updates of different keys commute |
| Settings.UpdateWithSameValue | src/components/SettingsDialog.tsx:75-83 | writing back a key's own value changes nothing |
| Settings.DefaultConforms | src/components/SettingsDialog.tsx:30-68 | the default record has exactly the declared keys, each with a value of its declared kind |
| Settings.SetKeepsSectionConformance | src/components/SettingsDialog.tsx:78-81 | setting a declared key to a value of its kind keeps a section to its declared shape |
| Settings.UpdateKeepsConformance | src/components/SettingsDialog.tsx:75-83 | updates of declared keys with values of their kinds keep the record to its declared shape |
| Settings.SessionTimeoutNotClamped | src/components/SettingsDialog.tsx:161-167 | any session timeout is stored as given; the 5..120 range is not enforced |
| Settings.SettingsDialog.constructor | src/components/SettingsDialog.tsx:71-73 | closed, not saving, holding the default settings |
| Settings.SettingsDialog.SetOpen | src/components/SettingsDialog.tsx:94 | the dialog opens or closes |
| Settings.SettingsDialog.Update | src/components/SettingsDialog.tsx:75-83 | the settings become the updated record |
| Settings.SettingsDialog.HandleSave | src/components/SettingsDialog.tsx:85-91 | the settings are untouched, saving ends and the dialog closes |
| Strings.Trim | src/components/CreateEventDialog.tsx:88 | `trim` leaves no white space at either end and never lengthens the text |
| Strings.TrimIsInfix | src/components/CreateEventDialog.tsx:88 | the trimmed text sits inside the text with only white space before and after it |
| Strings.TrimKeepsCharacters | src/components/CreateEventDialog.tsx:88 | `trim` adds no character |
| Strings.ToLower | src/pages/Events.tsx:23-24 | `toLowerCase` keeps the length and lower-cases each letter |
| Strings.IncludesAt | src/pages/Events.tsx:23-24 | `includes` holds iff the needle occurs at some position |
| Strings.Includes | src/pages/Events.tsx:23-24 | a prefix of the text is included, and nothing longer than the text is |
| Strings.Split | src/components/CreateEventDialog.tsx:87 | `split` gives at least one piece, no piece holds the separator, and the first piece is the text up to the first separator |
| Strings.Join | src/components/EditEventDialog.tsx:76 | `join` starts with the first part |
| Strings.SplitAtSeparator | src/components/CreateEventDialog.tsx:87 | splitting two texts joined by the separator gives the pieces of the first followed by those of the second |
| Strings.JoinSplit | src/components/CreateEventDialog.tsx:87 | joining the pieces with the separator gives the text back |
| Strings.SplitJoinPadded | src/components/EditEventDialog.tsx:76-109 | splitting a joined text recovers the joined parts, padded |
| Strings.ToNumber | src/data/events.ts:56 | `Number` of decimal text (blank included) is its value after trimming, and NaN for anything else |
| Strings.ToNumberOfNatToString | src/data/events.ts:56 | `Number` of the text of a natural is that natural |
| Strings.NatToString | src/components/EditEventDialog.tsx:73 | `toString` of a natural is a non-empty run of digits whose value is the natural |
| Lists.Filter | src/pages/Events.tsx:22 | `filter` keeps exactly the accepted elements, each as often as it occurs, in order |
| Lists.Map | src/components/CreateEventDialog.tsx:88 | `map` gives one result per element, the function of that element, in order |
| Lists.Slice | src/pages/Events.tsx:33 | `slice` with non-negative bounds is the part between them, clamped to the list |

## Left out

- Store requests, authentication, the login redirect and logout. Each request's answer is an input to the model. The model does not include the tables' own state, except the row rewrite that an event update performs.
- `window.confirm`, toasts, `navigate`, `window.scrollTo`, sharing and the clipboard. A confirmation is a boolean input. A navigation is a returned value. Toasts are represented only by the messages a delete handler reports.
- The concurrency of `Promise.all` in the delete-all fallback. The per-row answers are inputs, and the outcome depends only on them.
- Writing the spreadsheet file, the column widths and the sheet name, because these are I/O and presentation. The current time's ISO text and the locale date formatter are parameters.
- `testDatabasePermissions` and `debugDatabase`, because they are diagnostic I/O. Note that the former actually deletes the first loaded registration.
- The dashboard's `handleRegistrationAction` and the registration actions dialog, because they only show toasts and never change a status. The unused distinct-event-type count in `fetchRegistrations` is left out for the same reason.
- The selected event and registration of the dashboard, because they only open dialogs.
- Strings.ToNumber: does not model signs, fractions, exponents, hexadecimal or "Infinity"; all of these count as NaN. A stored price therefore maps to an amount only for decimal digits, because amounts are natural numbers here. EventData.ParsePrice inherits this.
- Strings.ToLower: lower-cases ASCII letters only, not the Unicode mapping.
- EventForm.StoredCapacity: the capacity input is taken to hold an integer. Fractional input and `NaN` are not modelled.
- Registration.LoadScreen: the lookup answer is one optional row. A thrown fetch, which leaves the spinner on, is not distinguished from an empty answer.
- Catalog.EventsPage.constructor: the page is modelled from the moment its single mount fetch has answered. The loading phase before the answer is not modelled.
- Settings.SessionTimeoutNotClamped: a number setting holds an integer; what `Number(e.target.value)` gives for fractional or non-numeric input of the session timeout (1.5, NaN) is not modelled.
- Settings.SettingsDialog.HandleSave: the one-second wait between the two flag changes is not modelled. The intermediate "Saving..." state is therefore not observable.
- JSX layout, icons, styling apart from the colour classes, and the pages outside the core (home, about, contact, login, navigation bar, hero section, success page, back button).

## Findings

| source | as written | input that shows it | evidently intended | confidence | as-written member | corrected member |
|---|---|---|---|---|---|---|
| src/pages/EventRegistration.tsx:30-55 | the initial ticket type comes from the event known at first render. That event is looked up only in the built-in list, which is empty, so the ticket type is always "paid". A free event hides the ticket radio, so the user cannot change it | any free event loaded from the database, registered with name, email and phone filled in and the terms accepted: the insert has ticket type "paid", and the registration counts 50 towards revenue | the ticket type is "free" for a free event and "paid" for a priced one | not executed | Registration.FreeEventRegisteredAsPaid | Registration.RegisteredTicketFollowsPrice |

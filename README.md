# Vehicle service centre: the business rules of the REST handlers

This project models the request handlers of a vehicle service centre backend
(Express over MongoDB) as Dafny functions and one store class, and proves the
rules those handlers keep. The handlers cover customers booking and
cancelling service appointments for their own vehicles, managers assigning
mechanics and keeping the parts inventory, customers rating finished jobs and
filing complaints, and the managers' reports.

The shape of the model:

- Each controller is a module of **decision functions**: `Appointments`,
  `Manager`, `Inventory`, `Vehicles`, `Feedbacks`, `Complaints` and `Reports`.
  A decision function receives the documents the handler reads and answers
  `Result<doc>`, either the document to store or return, or the HTTP error:
  400 `BadRequest`, 403 `Forbidden`, 404 `NotFound`, 409 `Conflict` or 500
  `ServerError`. A 500 is a failure Mongoose raises on save (a schema
  validator or a unique index), a failed e-mail or SMS delivery, or the
  `toISOString` error the daily revenue report raises for a completed
  appointment without `finishedAt`.
- The schemas are datatypes with validity predicates and constructors that
  fill in the defaults: `AppointmentModel`, `ComplaintModel` and
  `VehicleModel`. `Records` holds the user, inventory and feedback documents,
  whose schemas are not part of this model.
- `ServiceStore.Store` is the database: a class holding one sequence per
  collection and the next fresh identity.
  - Each mutating handler is a method that asks its decision function and
    applies the answer.
  - Each method's contract gives the new value of every field.
  - Each method keeps `Valid()`, which holds unique identities, no
    double-booked slot, unique registration numbers, item names and e-mail
    addresses, and one feedback per appointment. That feedback must match the
    appointment's `feedbackSubmitted` flag. `Valid()` also requires
    schema-valid documents.
- The loops that fill report dictionaries become methods with loop
  invariants, proved against `Tallies.TallyOf`. These are the `serviceTypes`,
  `mechanicStats` and `dailyRevenue` loops.
- Support modules:
  - `Text`: JavaScript `trim`, `toUpperCase` on ASCII letters, and the
    code-point string order used by `.sort`.
  - `Calendar`: the Gregorian weekday of an ISO date.
  - `Seqs`: lookup by identity, filter, sums, stable insertion order and
    sorting.

Conventions:

- Request bodies are records of `Option`s. JavaScript truthiness is
  `Given`/`GivenNumber`, so `""` and `0` count as missing, and `a || b` is
  `OrElse`.
- Money is integer cents.
- The order of a sequence is insertion order. "Newest first" (`createdAt: -1`)
  is `Reverse`.
- Outside effects are parameters:
  - what the settings read produced (`SettingsLookup`);
  - whether the e-mail or SMS transport delivered (`emailSent`, `smsSent`);
  - the clock reading (`now`).

## Model

| member | source | states |
|---|---|---|
| AppointmentModel.ParseStatus | models/Appointment.js:58-63 | a stored status string is accepted only if it names one of the four statuses |
| AppointmentModel.StatusRoundTrip | models/Appointment.js:58-63 | every status reads back as itself; exactly the four names are accepted |
| AppointmentModel.NewAppointment | models/Appointment.js:36-101 | a new appointment starts Scheduled with no mechanic, an empty job card, subtotal and finalCost 0 and feedbackSubmitted false; it is schema-valid iff serviceType, date and time are non-empty |
| Appointments.Book | controllers/appointmentController.js:12-63 | 400 iff vehicleId, serviceType, date or time is missing; then 404 iff the caller does not own the vehicle; then 409 iff a non-cancelled appointment holds the slot; otherwise a Scheduled appointment of the caller whose discountEligible is the off-peak test of its date |
| Appointments.NoDoubleBooking | controllers/appointmentController.js:37-47 | once a slot is booked, any later complete booking of that slot by anyone owning their vehicle answers 409 |
| Appointments.Cancel | controllers/appointmentController.js:218-251 | 404 for no appointment, 403 for someone else's, 400 unless Scheduled; on success only the status changes, to Cancelled |
| Appointments.CancelFreesSlot | controllers/appointmentController.js:37-47 | cancelling keeps the no-double-booking invariant; afterwards no appointment holds the freed slot |
| Appointments.GetAppointment | controllers/appointmentController.js:149-168 | 404 iff no appointment has the id; a returned appointment is the caller's, is assigned to the caller, or the caller is a manager; otherwise 403 |
| Appointments.GetAppointmentIffMayView | controllers/appointmentController.js:159-168 | with distinct ids, viewing succeeds exactly when the caller is the customer, the assigned mechanic or a manager, and then returns that appointment |
| Appointments.SlotOrdersTotal | controllers/appointmentController.js:126-129 | the (date, time) order used by the listings is a total preorder in both directions |
| Appointments.MyAppointments | controllers/appointmentController.js:126-129 | exactly the caller's appointments, each as often as it is stored, sorted latest slot first |
| Appointments.AllAppointments | controllers/appointmentController.js:187-198 | a mechanic sees exactly the appointments assigned to them and any other role sees all of them, each as often as it is stored; latest slot first |
| OffPeak.OffPeakDays | utils/checkOffPeak.js:5-6 | with no settings record the list is Monday and Tuesday; otherwise it is the record's list |
| OffPeak.DayName | utils/checkOffPeak.js:8-10 | the weekday name of a parsable date, and "Invalid Date" exactly when the string does not parse |
| OffPeak.CheckOffPeakDay | utils/checkOffPeak.js:3-17 | false when the settings read fails; otherwise true iff the day name is in the off-peak list; the settings are only read |
| OffPeak.DefaultIsMondayTuesday | utils/checkOffPeak.js:5-12 | with no settings record, a date is off-peak iff it parses and falls on a Monday or a Tuesday |
| OffPeak.InvalidDateNeverOffPeak | utils/checkOffPeak.js:8-16 | an unparsable date is never off-peak, unless the configured list itself names "Invalid Date" |
| OffPeak.DefaultAcrossDays | utils/checkOffPeak.js:5-12 | under the default list the day after a Monday is off-peak and the day after a Tuesday is not |
| OffPeak.MondayExample | utils/checkOffPeak.js:6-12 | 2024-06-03, a Monday, is off-peak under the default list |
| OffPeak.WednesdayExample | utils/checkOffPeak.js:6-12 | 2024-06-05, a Wednesday, is not off-peak under the default list but is under the list ["Wednesday"] |
| OffPeak.June3IsMonday | utils/checkOffPeak.js:8-10 | the calendar puts 3 June 2024 on a Monday |
| OffPeak.June5IsWednesday | utils/checkOffPeak.js:8-10 | the calendar puts 5 June 2024 on a Wednesday |
| Calendar.ParseIsoDate | utils/checkOffPeak.js:8 | a date-only ISO string parses iff it is four digits, hyphen, a month 01-12, hyphen, a day 01-31 |
| Calendar.ParseFormatted | utils/checkOffPeak.js:8 | a formatted date parses back to itself |
| Calendar.NextDayIsOneLater | utils/checkOffPeak.js:8-10 | the day count of the next calendar day is one more |
| Calendar.WeekdaysCycle | utils/checkOffPeak.js:8-10 | the weekday of the next calendar day is the next weekday |
| Manager.CreateMechanic | controllers/managerController.js:12-36 | 400 iff name, email or password is missing or the email is in use; otherwise a Mechanic account with that name and email |
| Manager.CreateMechanicKeepsEmailsUnique | controllers/managerController.js:20-24 | a created account keeps every e-mail address unique |
| Manager.Mechanics | controllers/managerController.js:114-117 | exactly the users whose role is Mechanic, each as often as it is stored |
| Manager.DeleteMechanic | controllers/managerController.js:129-138 | succeeds iff the user exists with role Mechanic, else 404 |
| Manager.UnassignedJobs | controllers/managerController.js:56-67 | exactly the Scheduled appointments without a mechanic, each as often as it is stored, sorted by ascending (date, time) |
| Manager.Assign | controllers/managerController.js:81-100 | 404 for an unknown appointment; 400 if it already has a mechanic; 404 unless the target is a Mechanic account; status is not consulted; on success only assignedMechanic changes |
| Manager.AssignIsSetOnce | controllers/managerController.js:90-92 | an assigned job cannot be assigned again and leaves the unassigned queue |
| Manager.AssignKeepsSlotsExclusive | controllers/managerController.js:99 | assignment keeps the no-double-booking invariant |
| Manager.ReceiveStock | controllers/managerController.js:150-165 | 400 for a missing, zero or negative quantity, before the lookup; then 404 for an unknown item; a positive quantity for an existing item always succeeds, with the item's quantity increased by exactly the amount received and nothing else changed |
| Manager.ReceiptsAdd | controllers/managerController.js:164 | receiving p and then q is receiving p + q |
| Manager.OrderInventoryItem | controllers/managerController.js:179-217 | 404 for an unknown item, then 400 without a supplier e-mail or a quantity, 500 if the mail fails, and success exactly when none of these apply; the success answer is the item unchanged |
| Inventory.CreateItem | controllers/inventoryController.js:64-86 | 400 iff the name or a price is falsy or the name is taken; otherwise the item has the given fields and the defaults quantity 0, unit "units" and threshold 5 (also for a threshold of 0) |
| Inventory.CreateKeepsNamesUnique | controllers/inventoryController.js:70-75 | a created item keeps item names unique |
| Inventory.MergeItem | controllers/inventoryController.js:130-140 | name and unit are replaced only when truthy; the other fields are replaced whenever supplied; the identity is kept |
| Inventory.MergeEmptyIsIdentity | controllers/inventoryController.js:130-140 | an empty request changes nothing |
| Inventory.UpdateItem | controllers/inventoryController.js:104-142 | 404 iff the id is unknown; 400 iff a new truthy name differs from the current one and another item has it; the update succeeds exactly when neither applies, and answers the merge |
| Inventory.UpdateKeepsNamesUnique | controllers/inventoryController.js:121-128 | an update keeps item names unique |
| Inventory.DeleteItem | controllers/inventoryController.js:160-166 | 404 iff no item has the id, else that item |
| Inventory.ItemOrdersTotal | controllers/inventoryController.js:14 | the quantity order and the name order are total preorders |
| Inventory.LowStock | controllers/inventoryController.js:183-185 | exactly the items with quantity at most their threshold, sorted by ascending quantity |
| Inventory.AllItems | controllers/inventoryController.js:14 | every item, sorted by name |
| Inventory.SendOrder | controllers/inventoryController.js:204-253 | 404 for an unknown item, then 400 without a truthy quantity or phone number, 500 if the SMS fails, and success exactly when none of these apply; the success answer is the item unchanged |
| VehicleModel.NormaliseNo | models/Vehicle.js:24-30 | the stored registration number is trimmed and has no lower-case letter |
| VehicleModel.NormalisedIsFixedPoint | models/Vehicle.js:24-30 | the normalised numbers are exactly those the setters leave unchanged |
| VehicleModel.NormaliseIdempotent | models/Vehicle.js:24-30 | normalising twice is normalising once |
| VehicleModel.UpperThenNormalise | controllers/vehicleController.js:20-31 | the controller's upper-casing before the setters adds nothing; a number without surrounding blanks is stored exactly upper-cased |
| VehicleModel.ValidVehicleIsFixedPoint | models/Vehicle.js:5-30 | a schema-valid vehicle is one whose make, model and number the setters leave unchanged and which are non-empty |
| Vehicles.SaveVehicle | models/Vehicle.js:24-38 | a save succeeds iff the document is schema-valid and no other vehicle holds its number; else 500 |
| Vehicles.Document | models/Vehicle.js:10-30 | the document after the setters: make and model trimmed, number normalised; valid iff none is blank |
| Vehicles.AddVehicle | controllers/vehicleController.js:13-34 | 400 iff a field is missing or the upper-cased number is taken; otherwise the caller's vehicle with trimmed make and model and the normalised number |
| Vehicles.AddKeepsNumbersUnique | controllers/vehicleController.js:20-25 | a registered vehicle keeps registration numbers unique |
| Vehicles.FindOwned | controllers/vehicleController.js:77-88 | 404 iff no vehicle has the id; a returned vehicle is the caller's; otherwise 403 |
| Vehicles.FindOwnedIffOwner | controllers/vehicleController.js:77-88 | with distinct ids, the lookup returns the vehicle exactly for its owner and 403 for anyone else |
| Vehicles.MergeVehicle | controllers/vehicleController.js:133-138 | each field is replaced only by a truthy value, through the setters; identity and owner are kept |
| Vehicles.MergeEmptyKeepsVehicle | controllers/vehicleController.js:133-138 | a valid vehicle merged with an empty request is itself |
| Vehicles.UpdateVehicleWith | controllers/vehicleController.js:107-140 | 404, then 403 for someone else's vehicle, then 400 iff the duplicate test fires and the number is taken; past these guards it succeeds exactly when the save of the merge passes the validators and the unique index, answering the merge, and 500 otherwise; no other error |
| Vehicles.UpdateVehicleAsWritten | controllers/vehicleController.js:107-140 | the handler exactly as written; a success is a valid vehicle of the caller |
| Vehicles.UpdateVehicle | controllers/vehicleController.js:107-140 | the handler with the duplicate test on the normalised number; a success is a valid vehicle of the caller |
| Vehicles.UpdateKeepsNumbersUnique | controllers/vehicleController.js:121-130 | either version of the update keeps registration numbers unique |
| Vehicles.ResubmittedNumberAccepted | controllers/vehicleController.js:121-130 | corrected: resubmitting one's own number in any spelling that normalises to it never answers 400 |
| Vehicles.AsWrittenRejectsOwnNumber | controllers/vehicleController.js:121 | as written: resubmitting one's own number in another spelling answers 400 |
| Vehicles.CorrectedKeepsOwnNumber | controllers/vehicleController.js:121-138 | corrected: resubmitting one's own number in another spelling leaves the vehicle exactly as it was |
| Vehicles.ExampleAsWritten | controllers/vehicleController.js:121 | stored "ABC1", submitted "abc1": the handler as written answers 400 |
| Vehicles.ExampleCorrected | controllers/vehicleController.js:121-138 | stored "ABC1", submitted "abc1": the corrected handler saves the vehicle unchanged |
| Vehicles.MyVehicles | controllers/vehicleController.js:56-57 | exactly the caller's vehicles, each once, newest first (the reverse of insertion order) |
| Vehicles.NewVehicleListedFirst | controllers/vehicleController.js:56-57 | a vehicle added last heads its owner's listing ahead of the earlier ones; other owners' listings are unchanged |
| Feedbacks.SubmitFeedback | controllers/feedbackController.js:11-54 | 400 for a missing field or a rating outside 1..5, before any lookup; then 404 for an unknown appointment, 403 for someone else's, 400 unless Completed, 400 if it already has feedback; otherwise the caller's feedback with comment defaulting to "" |
| Feedbacks.MarkFeedbackSubmitted | controllers/feedbackController.js:56 | the flag becomes true and nothing else of the appointment changes |
| Feedbacks.SubmitKeepsFeedbackRules | controllers/feedbackController.js:40-54 | accepted feedback keeps one feedback per appointment and every rating in 1..5 |
| Feedbacks.SecondSubmissionRejected | controllers/feedbackController.js:40-47 | after feedback is accepted, every later submission for that appointment fails |
| Feedbacks.MyFeedback | controllers/feedbackController.js:106-108 | exactly the caller's feedback, each once, newest first |
| ComplaintModel.ParseComplaintStatus | models/Complaint.js:23-27 | a status string is accepted only if it names one of the four statuses |
| ComplaintModel.ParsePriority | models/Complaint.js:28-32 | a priority string is accepted only if it names one of the four priorities |
| ComplaintModel.ComplaintEnumsRoundTrip | models/Complaint.js:23-32 | both enums read back as themselves and accept exactly their four names |
| ComplaintModel.NewComplaint | models/Complaint.js:5-42 | a new ticket has the trimmed subject, status Open and no response or resolver; it is valid iff the trimmed subject and the description are non-empty |
| Complaints.SubmitComplaint | controllers/complaintController.js:11-24 | 400 iff subject or description is missing; success iff the priority (default Medium) is in the enum and the trimmed subject is non-empty, else 500; the ticket is Open, the caller's, with the appointment given or none |
| Complaints.DefaultPriorityIsMedium | controllers/complaintController.js:22 | without a priority the ticket is Medium |
| Complaints.GetComplaint | controllers/complaintController.js:118-137 | 404 iff no ticket has the id; a returned ticket is the caller's or the caller is a manager; otherwise 403 |
| Complaints.GetComplaintIffMayView | controllers/complaintController.js:130-137 | with distinct ids, reading succeeds exactly for the owner and managers |
| Complaints.MyComplaints | controllers/complaintController.js:99-102 | exactly the caller's tickets, each once, newest first |
| Complaints.AllComplaints | controllers/complaintController.js:70-81 | with a truthy status query exactly the tickets of that status, otherwise all of them; each once, newest first |
| Complaints.MergeComplaint | controllers/complaintController.js:163-170 | status, response and priority are overwritten only when truthy; a Resolved or Closed status stamps the acting manager and the time, any other leaves the stamp; nothing else changes |
| Complaints.UpdateComplaint | controllers/complaintController.js:156-172 | 404 iff the ticket is unknown; 500 iff the save fails validation; success exactly for a found, valid ticket with both names in their enums, answering the merge |
| Complaints.AnyStatusReachable | controllers/complaintController.js:163 | no transition order: a valid ticket can move to any status |
| Complaints.ReopenKeepsResolver | controllers/complaintController.js:167-170 | reopening a resolved ticket keeps its resolver stamp |
| Complaints.UpdateIdempotent | controllers/complaintController.js:163-170 | the same update twice at the same instant is the update once |
| Complaints.DeleteComplaint | controllers/complaintController.js:218-224 | 404 iff the ticket is unknown, else that ticket |
| Complaints.StatusesPartition | models/Complaint.js:23-27 | the four status counts add up to the number of tickets |
| Complaints.Stats | controllers/complaintController.js:241-245 | total is the number of tickets and equals open + inReview + resolved + closed |
| Reports.StatusesPartition | models/Appointment.js:58-63 | the four status counts add up to the number of appointments |
| Reports.Revenue | controllers/reportController.js:33-35 | finalCost summed over the completed appointments only |
| Reports.RevenueAppend | controllers/reportController.js:217-219 | one more appointment adds its finalCost if it is Completed and nothing otherwise |
| Reports.GetBookingStats | controllers/reportController.js:211-220 | total = completed + cancelled + inProgress + scheduled, each the matching status count; revenue over completed appointments only |
| Reports.PartsRevenue | controllers/reportController.js:37-42 | quantity times sale price over the parts of completed appointments |
| Reports.LaborRevenue | controllers/reportController.js:44-49 | labour cost over the completed appointments |
| Reports.JobCardRevenueAppend | controllers/reportController.js:37-49 | parts and labour revenue ignore appointments that are not completed |
| Reports.PartsTotalNonNegative | models/Appointment.js:14-32 | parts with at least one unit and a non-negative price never give a negative amount |
| Reports.ServiceTypeCounts | controllers/reportController.js:58-61 | one count per service type with distinct keys, exactly the booked types; the counts add up to the number of appointments |
| Reports.ServiceTypeCountIsOccurrences | controllers/reportController.js:58-61 | the count of a service type is its number of bookings |
| Reports.CreditedJobs | controllers/reportController.js:154-155 | exactly the completed appointments that have a mechanic |
| Reports.MechanicStats | controllers/reportController.js:153-167 | per mechanic, the job count and the revenue; the job counts add up to the completed appointments with a mechanic, the revenues to their finalCost |
| Reports.DailyRevenue | controllers/reportController.js:250-258 | 500 iff a completed appointment has no finishedAt; otherwise finalCost per UTC day, distinct days, adding up to the finalCost of all of them |
| Reports.GetRevenueReport | controllers/reportController.js:240-267 | the total is the completed appointments' revenue, the buckets are the daily tally, the count is the number of completed appointments; 500 as above |
| Reports.MarginIsDifference | controllers/reportController.js:281-295 | sale value minus cost value is the per-item margin summed |
| Reports.GetInventoryReport | controllers/reportController.js:277-302 | totalCostValue is Σ quantity × costPrice and totalSaleValue is Σ quantity × salePrice over all items; potentialProfit is their difference and equals Σ quantity × margin; the low-stock lines are the items at or below threshold, one line each, in stored order |
| Reports.LowStockLines | controllers/reportController.js:289-301 | one line per low-stock item, as many as the inventory low-stock query returns |
| Reports.BusinessReport | controllers/reportController.js:30-78 | the figures of the business report: revenues over completed appointments, status counts, service-type tally, inventory value and low stock, rating sum, complaint counts, per-mechanic tallies; credited plus uncredited revenue is the total |
| Reports.CompletedCount | controllers/reportController.js:30-53 | the completed filter has as many appointments as the completed count |
| Reports.CreditSplit | controllers/reportController.js:153-166 | revenue credited to mechanics plus revenue of jobs without one is the total |
| Text.Trim | models/Complaint.js:14-18 | the result has no white space at either end and is a slice of the input with only white space cut off |
| Text.TrimIdempotent | models/Vehicle.js:10-19 | trimming twice is trimming once |
| Text.Upper | models/Vehicle.js:29 | the result has no lower-case ASCII letter |
| Text.UpperCommutesWithTrim | models/Vehicle.js:28-29 | upper-casing and trimming commute |
| Text.StrLeTotal | controllers/appointmentController.js:126-129 | any two strings compare in the code-point order |
| Text.StrLeTransitive | controllers/appointmentController.js:126-129 | the string order chains |
| Tallies.TallyTotal | controllers/reportController.js:59-61 | the entries of a tally add up to the summed values |
| Tallies.TallyKeys | controllers/reportController.js:59-61 | a tally's keys are distinct and are exactly the keys that occur |
| Tallies.TallyValue | controllers/reportController.js:59-61 | a key's entry is the sum of the values of its elements |
| ServiceStore.BookingKeepsAppointments | controllers/appointmentController.js:37-63 | a booking keeps the appointment invariants: fresh id, no double-booked slot, valid documents, feedback links |
| ServiceStore.FeedbackKeepsLinks | controllers/feedbackController.js:40-56 | accepting feedback and setting the flag keeps one feedback per appointment, ratings in range and flag-feedback agreement |
| ServiceStore.UpdateKeepsVehicles | controllers/vehicleController.js:121-138 | the corrected update keeps vehicle ids, unique numbers and valid documents |
| ServiceStore.AddVehicleTo | controllers/vehicleController.js:13-34 | the collection after addVehicle keeps the store invariants; the vehicle is appended under the fresh id or nothing changes |
| ServiceStore.UpdateVehicleIn | controllers/vehicleController.js:107-140 | the collection after updateVehicle keeps the store invariants; the vehicle is replaced in place or nothing changes |
| ServiceStore.SubmitComplaintTo | controllers/complaintController.js:11-24 | the collection after submitComplaint keeps the store invariants; the ticket is appended or nothing changes |
| ServiceStore.Store.CreateAppointment | controllers/appointmentController.js:12-63 | the answer is Appointments.Book's; on success exactly one appointment is appended under a fresh id, otherwise nothing changes; the invariants hold |
| ServiceStore.Store.CancelAppointment | controllers/appointmentController.js:218-251 | the answer is Appointments.Cancel's; on success only that appointment is replaced, by its cancelled self, and its slot is free; the invariants hold |
| ServiceStore.Store.AssignJobToMechanic | controllers/managerController.js:81-100 | the answer is Manager.Assign's; on success only that appointment is replaced; the invariants hold |
| ServiceStore.Store.CreateMechanic | controllers/managerController.js:12-36 | on success exactly one Mechanic account is appended; otherwise nothing changes |
| ServiceStore.Store.DeleteMechanic | controllers/managerController.js:129-138 | on success exactly that account is removed; otherwise nothing changes |
| ServiceStore.Store.ReceiveInventoryStock | controllers/managerController.js:150-165 | on success that item's quantity grows by exactly the amount received; otherwise nothing changes |
| ServiceStore.Store.OrderInventoryItem | controllers/managerController.js:179-217 | modifies nothing; a success returns the stored item |
| ServiceStore.Store.CreateInventoryItem | controllers/inventoryController.js:64-86 | on success exactly one item is appended; otherwise nothing changes; names stay unique |
| ServiceStore.Store.UpdateInventoryItem | controllers/inventoryController.js:104-142 | on success the item is replaced in place by its merge; names stay unique |
| ServiceStore.Store.DeleteInventoryItem | controllers/inventoryController.js:160-166 | on success exactly that item is removed |
| ServiceStore.Store.SendOrder | controllers/inventoryController.js:204-253 | modifies nothing; a success returns the stored item |
| ServiceStore.Store.AddVehicle | controllers/vehicleController.js:13-36 | on success exactly one vehicle is appended; otherwise nothing changes; numbers stay unique |
| ServiceStore.Store.UpdateVehicle | controllers/vehicleController.js:107-140 | the corrected update; on success the vehicle is replaced in place; numbers stay unique |
| ServiceStore.Store.DeleteVehicle | controllers/vehicleController.js:160-173 | 404/403 change nothing; on success exactly the owner's vehicle is removed |
| ServiceStore.Store.SubmitFeedback | controllers/feedbackController.js:11-57 | on success exactly one feedback is appended and only the appointment's flag is set; otherwise nothing changes |
| ServiceStore.Store.SubmitComplaint | controllers/complaintController.js:11-24 | on success exactly one ticket is appended; otherwise nothing changes |
| ServiceStore.Store.UpdateComplaint | controllers/complaintController.js:156-172 | on success the ticket is replaced in place by its merge |
| ServiceStore.Store.DeleteComplaint | controllers/complaintController.js:218-224 | on success exactly that ticket is removed |

## Left out

- Persistence, HTTP, `populate` and response shapes. A handler is a function of the documents it reads, and the store applies its answer atomically. `generateBusinessReport` credits a job to a mechanic only when `populate('assignedMechanic')` finds the account, so after `deleteMechanic` (which leaves assignments in place) the source drops that mechanic's jobs from `mechanicStats`; `Reports.MechanicStats` still credits them to the deleted id. The check-then-insert races on slots, names, emails and numbers are not modelled.
- Route role gates (`authorize(...)` in routes/) are not modelled. A method takes the caller's identity and role and applies only the checks the controller itself makes.
- Ordering by `createdAt` is insertion order ("newest first" is the reverse). Sorting on string keys uses code-point order.
- Report date windows (`startDate`/`endDate`, the `period` of `getBookingStats`) are left out, because they depend on the clock. A report takes the documents already selected. Daily revenue is keyed by UTC day number (`finishedAt` / 86400000) rather than by the ISO date string; the two correspond one to one.
- `checkOffPeakDay` uses `toLocaleString`, which works in the server's local time zone. The model computes the weekday in UTC, and only for date-only ISO strings (`YYYY-MM-DD`, day 01-31 as `new Date` accepts and rolls over). Any other string is "Invalid Date".
- Floating point is left out: the average rating, the completion rate, `toFixed` and JavaScript number rounding. Money is integer cents, and ratings are integers. The business report carries the rating sum and count instead of the average.
- The PDF rendering of `generateBusinessReport` is left out, including the "Popular Services" and "Top Performing Mechanics" top-5 sorts and slices. The report's figures are modelled; their presentation is not.
- E-mail and SMS transport is left out. Each send is the boolean outcome `emailSent` or `smsSent`. The `ORD-` order id is clock-derived and not modelled, and the complaint-update e-mail, which is best-effort, is left out.
- Aggregation pipelines are left out: `byPriority` in `getComplaintStats`, and `getMechanicRatings`.
- `getAllFeedback` and `getInventoryItem` are plain database reads with `populate`. They are not modelled.
- The password hash (bcrypt) in `createMechanic` is opaque; the password is only checked for presence.
- Mongoose casting is not modelled: an ill-formed ObjectId (which answers 500), a string where a number is expected, and JSON `null` as distinct from an absent field. Absent and null are both `None`.
- Only ASCII letters are upper-cased; the model has no Unicode case mapping.
- Job-card billing (`subtotal`, `finalCost`), job start and finish, and the mechanic and settings routes are not part of this model. Their controllers are not among the files modelled, so those fields are stored values, read only by the reports.
- The Settings document is the parameter `SettingsLookup`: no record, a record with its list, or a failed read.
- ServiceStore.Store.UpdateVehicle: the store applies the corrected duplicate test, `Vehicles.UpdateVehicle`. The handler as written is `Vehicles.UpdateVehicleAsWritten`; see Findings.
- Reports.ServiceTypeCounts: the tally is modelled as an ordinary map in first-booking order, and this also holds for `Reports.BusinessReport`'s `serviceTypes`. The source keys a plain `{}` by the free-text `serviceType`, so three kinds of key behave otherwise in JavaScript. Integer-like names ("10", "2") are listed first, in ascending numeric order. Names of inherited members ("constructor", "toString") start from the inherited function and so produce a string instead of a count. "__proto__" never becomes an entry.

## Findings

| source | as written | input that shows it | evidently intended | confidence | as-written member | corrected member |
|---|---|---|---|---|---|---|
| controllers/vehicleController.js:121 | The duplicate-number test runs when the submitted `vehicleNo` differs from the stored one as raw text. The stored number is upper-cased, so a customer resubmitting their own number in lower case finds their own vehicle as the duplicate. | A vehicle stored as "ABC1". Its owner sends `{ vehicleNo: "abc1" }`. The answer is 400 "already registered". | Run the duplicate test only when the normalised number differs from the stored one, so resubmitting one's own number saves the vehicle unchanged | not executed | Vehicles.AsWrittenRejectsOwnNumber, Vehicles.ExampleAsWritten | Vehicles.CorrectedKeepsOwnNumber, Vehicles.ExampleCorrected |

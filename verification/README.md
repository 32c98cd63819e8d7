# ResaPrint: a verified model

A hotel's back office in five parts, each modelled in Dafny and proved correct for every input or every run.

- **Room allocation** (`Hotel`, `Matching`, `Bookings`, `Partition`, `RoomPlan`, `FrontDesk`). Reservations ask for rooms by category,
  through their own room type or through room lines. The allocator gives each open slot the first free active room in room-number
  order. `Bookings` is the state machine of the actions that change reservations and rooms; `FrontDesk.Desk` is the class whose
  methods carry them out in place, each proved to be one step of it. `RoomPlan` is the occupancy grid and the per-day query.
- **Printing** (`PrintQueue`, `PrintDelivery`, `AgentProgram`). The server's job table, any number of Windows agents, and a network that
  loses poll replies, loses or delays acknowledgements, and lets an exception abandon a batch halfway.
- **Receipts** (`Escpos`, `Printer`, `Receipt`, `Lines`). The byte builder, a tokenizer that reads its output back, a printer that executes
  the tokens, the receipt that is written as text and as bytes side by side, and the agent's second rendering of the text.
- **E-mail** (`Mailroom`, `MailRuns`). From a fetched e-mail to committed rows, cancellation notices, failures at any database call, reparse.
- **Two small stateful pieces** (`Walkin`, `Lockout`). Weekly walk-in references on a real calendar, and the PIN lockout.

`Wrappers` and `Collections` hold option and result types and facts about finite sets.

## Results that are not what one might expect

- The overlap query that decides whether a room is free also counts stays without a night; `RoomPlan.OverlapAndAnswers` gives the exact difference from the per-day dictionaries, `RoomPlan.NightlessStayIsCounted` an input.
- Demand within capacity is also necessary: in runs without override every slot is always served if and only if demand is always within capacity, and the first night of each arrival decides (`Partition.ServedExactly`).
- Double bookings happen (`Bookings.DoubleBookingIsReachable`). Manual assignment, walk-ins, un-cancelling and date edits do not check availability; each of them double books exactly when the room is contested, a condition on the tables before the step. A ghost set holds the reservations such steps left in a double booking: every double booking involves a member, every member is in one, and the set is empty exactly when nothing is double booked.
- Delivery is at most once per request, not eventual. A job that left the queue can still become `printed` without a retry exactly when an agent holds it or a report of its success is under way (`PrintDelivery.PrintableExactly`), and a job out of reach is reached by losing one poll reply (`PrintDelivery.StrandingIsReachable`).
- `attempts` counts acknowledgements and LAN dispatches, not prints: a print whose acknowledgement is lost is not in it. A LAN send reported as failed may have put paper out.
- Bytes can be read back, and print what was meant, exactly when no text byte is ESC, GS or LF: `Escpos.DecodesExactlyWhenClean`, `Printer.PaperOfBytes`, `Receipt.ReceiptPrints`. With line feeds in the text the printer is still left reset and the paper cut.
- The agent's line rendering and the server's differ on form feeds, lone carriage returns and Unicode separators; `Lines.AgreeExactly` says on exactly which texts they agree.
- The two outputs of a receipt differ by the stamp, three blank lines and two dividers, and by blanks after a label that bring its line to the paper's width in characters.
- That width is right in normal size only. The code counts characters and prints them two or three columns wide in size large or xlarge, so a label line that fits spans two or three times the paper (`Receipt.LargeLabelLineOverruns`); the cancellation banner always takes 54 columns, more than the 42 of the default paper. `Receipt.ReceiptFitsExactly` says exactly when no line of a receipt runs over.
- Walk-in references repeat. Right after a walk-in an action brings its reference back exactly when it deletes a walk-in of that week or moves its check-in out of the week (`Walkin.RepeatsExactly`). They also repeat exactly a hundred years later (`Walkin.HundredYearsRepeatReference`).
- Reparse does not look at an entry's status, so reparsing twice is harmless exactly when the e-mail is not a booking: `MailRuns.SecondReparseHarmlessExactly`.
- A parser that throws while it is asked whether it accepts an e-mail leaves no trace of the e-mail in live ingestion (the search for a
  parser is outside the handler), while reparse records the exception: `MailRuns.LiveFailure`, `MailRuns.ReparseAgreesWithLive`.
- `docs/BACKEND.md` says a cancellation notice is never auto-printed; the code auto-prints it like a booking. The model stops before auto-print.

## Model

| member | source | states |
|---|---|---|
| Hotel.FreeRoomsExactly | backend/app/services/room_assignment.py:61-71 | a room is offered if and only if it is active, of the category and not held by an overlapping stay or already used |
| Hotel.FindsFirst | backend/app/services/room_assignment.py:52-71 | the room found is the first such room by room number, and none is found only if there is none |
| Hotel.OccupiedIgnoresSelf | backend/app/services/room_assignment.py:24-49 | what a reservation sees as occupied does not depend on its own row |
| Hotel.AssignLinesKeeps | backend/app/services/room_assignment.py:86-102 | assignment changes nothing but open `assigned_room_id` fields and keeps rooms already given |
| Hotel.ReassignIsLocal | backend/app/services/room_assignment.py:189-196 | reassigning is idempotent, independent of earlier assignments, and touches no other reservation |
| Hotel.PlacedIsServed | backend/app/services/room_assignment.py:52-112 | a row assigned from scratch has in every slot the first active room of the category in room-number order that no overlapping live row and no earlier line holds, and no room exactly when there is none; dates, guest and all else stay |
| Matching.GreedyRank | backend/app/services/room_assignment.py:86-102 | with all lines open, the i-th line of a category gets the i-th free room of that category |
| Matching.GreedyIsMatching | backend/app/services/room_assignment.py:86-102 | every line gets a free room of its own category and no two lines share one |
| Matching.GreedyServesMin | backend/app/services/room_assignment.py:86-102 | of each category exactly the minimum of lines and free rooms is served |
| Matching.GreedyIsMaximum | backend/app/services/room_assignment.py:74-112 | no injective assignment of free rooms to lines that respects categories serves more lines |
| Bookings.PlaceIsSafe | backend/app/services/room_assignment.py:74-112 | a reservation assigned from scratch shares no room with any overlapping live stay, nor with itself |
| Bookings.CreateServesInOrder | backend/app/routers/reservations.py:75-92 | on the tables before and after: a create adds exactly one row, the draft, served as above if assignment is enabled and without rooms if not |
| Bookings.ReassignServesInOrder | backend/app/routers/reservations.py:187-209 | a reassign changes exactly one row, in its rooms only, and serves it as above whatever it held before |
| Bookings.ManualAssignSetsOneSlot | backend/app/routers/reservations.py:212-255 | exactly the named slot gets the room, or is emptied; every other slot, field and row stays |
| Bookings.DeleteRoomEmptiesSlots | backend/app/routers/rooms.py:61-79 | the list loses exactly that room and keeps its order; exactly the slots that held it are empty, all else stays |
| Bookings.EditReplacesOneRoom | backend/app/routers/rooms.py:37-58 | one room is replaced by its edited form, the other rooms keep their order, no reservation changes |
| Bookings.CarefulAddsNoClash | backend/app/routers/reservations.py:75-92 | create, reassign, cancel, delete, un-assign and room changes never add a double booking |
| Bookings.ReassignRemovesClashes | backend/app/routers/reservations.py:187-209 | after a reassign no double booking involves the reservation, and it is no longer to blame |
| Bookings.StepIsSafe | backend/app/routers/reservations.py:95-138 | every step keeps: each double booking involves a member of the ghost set, and each member is in a double booking |
| Bookings.RunIsSafe | backend/app/routers/reservations.py:75-255 | the same in every state any run reaches |
| Bookings.EmptyExactlyWithoutClash | backend/app/routers/reservations.py:75-255 | the ghost set is empty if and only if nothing is double booked |
| Bookings.SlotClashesExactly | backend/app/services/room_assignment.py:24-49 | storing any row double books a slot if and only if the row is live and the slot's room is occupied for the stay or held by another of its slots |
| Bookings.ManualAssignClashesExactly | backend/app/routers/reservations.py:212-255 | a manual assignment, to the reservation or to a line, double books if and only if the room is occupied or another slot holds it |
| Bookings.WalkinClashesExactly | backend/app/routers/admin_ui.py:325-370 | a walk-in double books if and only if the chosen room is occupied |
| Bookings.UncancelClashesExactly | backend/app/routers/admin_ui.py:454-474 | bringing a cancelled reservation back double books if and only if a room it still holds is contested |
| Bookings.DateEditClashesExactly | backend/app/routers/reservations.py:95-119 | an edit double books if and only if a held room is contested on the dates the row then has |
| Bookings.DoubleBookingIsReachable | backend/app/routers/admin_ui.py:325-370 | two walk-ins in one room, from an empty house |
| Bookings.CarefulRunHasNoClash | backend/app/services/room_assignment.py:74-112 | a run without overrides never double books |
| Partition.RoomForAll | backend/app/services/room_assignment.py:52-71 | in arrival order, when the booking's first night is within capacity, there are enough free rooms for all its slots |
| Partition.RoomForAllAgain | backend/app/services/room_assignment.py:189-196 | whoever arrived since, there are enough free rooms to serve a stored reservation again once it is cleared |
| Partition.BookingIsPlaced | backend/app/services/room_assignment.py:74-112 | an arrival that fits gets a room for every slot that asks for one |
| Partition.ArrivalServedExactly | backend/app/services/room_assignment.py:74-112 | an arrival is served in every slot if and only if its first night is then within capacity for each category it wants, and if and only if every night is |
| Partition.PackedIsWithinCapacity | backend/app/services/room_assignment.py:24-49 | with every slot served and nothing double booked, no night asks for more rooms of a category than there are |
| Partition.ReassignKeepsPlaced | backend/app/services/room_assignment.py:189-196 | so does a reassigned reservation, and no other loses its room |
| Partition.GentleKeepsPlaced | backend/app/routers/reservations.py:75-255 | every step without override keeps all slots served: edits that leave stay and wishes, status changes, reassigns, room changes that take no held room away |
| Partition.ServedExactly | backend/app/services/room_assignment.py:24-112 | over any run in arrival order without overrides: no slot is ever left unassigned if and only if demand is always within capacity, if and only if every arrival fits on its first night |
| Partition.EverySlotIsServed | backend/app/services/room_assignment.py:24-112 | interval partitioning: within capacity such a run ends with every slot served and nothing double booked |
| Partition.CategoryEditLeavesArrivalOut | backend/app/routers/reservations.py:95-119 | why edits of the category asked for are excluded: one keeps all slots served and every night within capacity, and the next arrival still gets no room |
| RoomPlan.RoomsOccupiedOnDate | backend/app/services/room_assignment.py:115-140 | maps exactly the rooms of the rows, each to the guest of its last row |
| RoomPlan.RoomPlanGrid | backend/app/services/room_assignment.py:143-186 | has a cell exactly for the days of the range a row covers, with the last row's guest; the day loop ends |
| RoomPlan.CellsAreStays | backend/app/services/room_assignment.py:143-186 | a cell names a live reservation that holds the room in some slot and covers the day, with that reservation's guest; every such stay in the range has a cell |
| RoomPlan.NamesAreGuests | backend/app/services/room_assignment.py:115-140 | a room is in the per-day answer if and only if a live reservation holds it that day, and its name is the guest of one of these |
| RoomPlan.GridRefinesDays | backend/app/services/room_assignment.py:115-186 | on every day of the range the grid equals the per-day answer, and it has no cell outside the range |
| RoomPlan.OrderDoesNotMatter | backend/app/services/room_assignment.py:178-186 | without double bookings the grid is the same for every order of the rows |
| RoomPlan.AnyOrderExactly | backend/app/services/room_assignment.py:178-186 | it is the same for every order of all rows if and only if no cell has rows of two reservations |
| RoomPlan.PlanOrderExactly | backend/app/services/room_assignment.py:177-186 | with reservation rows listed before line rows, the plan is the same for every order within each query if and only if the rows that decide a cell all belong to one reservation |
| RoomPlan.RangeContainsDays | backend/app/services/room_assignment.py:24-49 | for any stays, even inverted ones, the overlap query misses no room occupied on a day of the range |
| RoomPlan.RangeIsUnionOfDays | backend/app/services/room_assignment.py:24-49 | a room is occupied for a range if and only if it is on some day or a stay without a night holds it |
| RoomPlan.NightlessStayIsCounted | backend/app/services/room_assignment.py:24-49 | a stay from 5 to 5 is counted for [4, 6) and is on no day |
| RoomPlan.OverlapAndAnswers | backend/app/services/room_assignment.py:24-49 | the overlap query is the union of the keys of the per-day dictionaries and the rooms held by stays without a night, exactly |
| RoomPlan.NonEmptyStaysAgree | backend/app/services/room_assignment.py:115-140 | with non-empty stays the overlap query equals the union of the per-day dictionaries' keys |
| RoomPlan.FreeRoomHasNoCell | backend/app/services/room_assignment.py:52-71 | a room found free has no grid cell in the stay except the excluded reservation's own |
| FrontDesk.Desk.AssignLinesFor | backend/app/services/room_assignment.py:86-102 | the in-place loop over the lines leaves what the assignment function says |
| FrontDesk.Desk.AssignRoomsFor | backend/app/services/room_assignment.py:74-112 | both paths, with and without lines, leave what the assignment function says; Hotel.PlacedIsServed says that this is the first free room, slot by slot |
| FrontDesk.Desk.ReassignRoomsFor | backend/app/services/room_assignment.py:189-196 | clearing and assigning in place is the reassign of the whole row |
| FrontDesk.Desk.CreateReservation | backend/app/routers/reservations.py:75-92 | is one safe step: one new row with the draft's fields, in every slot the first room free for the stay if assignment is enabled, no room otherwise; all other rows as before |
| FrontDesk.Desk.CreateWalkin | backend/app/routers/admin_ui.py:325-370 | is one blamed step: one new row in the chosen room, taken unchecked; all other rows as before |
| FrontDesk.Desk.UpdateReservation | backend/app/routers/reservations.py:95-119 | is one step: all given fields of that one row or none |
| FrontDesk.Desk.ChangeStatus | backend/app/routers/admin_ui.py:454-474 | is one step: that row has the status asked for and nothing else changes; it reports a change exactly when the status differs |
| FrontDesk.Desk.CancelReservation | backend/app/routers/reservations.py:122-138 | is one step: that row is cancelled and nothing else changes, or the row is missing |
| FrontDesk.Desk.DeleteReservation | backend/app/routers/admin_ui.py:477-499 | deletes exactly when the row is cancelled |
| FrontDesk.Desk.ReassignRoom | backend/app/routers/reservations.py:187-209 | is one step, after which the reservation has in every slot the first room free for it, is in no double booking, and all other rows are as before |
| FrontDesk.Desk.AssignRoomManually | backend/app/routers/reservations.py:212-255 | is one blamed step that sets or empties exactly the slot named, and distinguishes missing reservation, room and line |
| FrontDesk.Desk.DeleteRoom | backend/app/routers/rooms.py:61-79 | removes exactly that room, empties exactly the slots that held it, and reports a missing room |
| FrontDesk.Desk.AddRoom | backend/app/routers/rooms.py:23-34 | adds exactly one room under a new id, if and only if its number is free |
| FrontDesk.Desk.EditRoom | backend/app/routers/rooms.py:37-58 | a partial update as a whole, refused for a missing room, a null or a number in use |
| FrontDesk.Desk.ShowRoomPlan | backend/app/services/room_assignment.py:143-186 | shows the last row of each cell, the reservations' rows listed before those of their lines; each cell is a live stay in that room on that day with its guest, and each such stay has a cell |
| FrontDesk.Desk.ShowOccupied | backend/app/services/room_assignment.py:115-140 | the same for one day, read from the stored tables: rooms held by a live stay, each with the guest of one |
| PrintQueue.JobTable.DispatchLanJob | backend/app/services/printing.py:197-208 | one more attempt; which fields a sent, refused or throwing connection sets and which stay; no other job is touched |
| PrintQueue.JobTable.EnqueuePrintJob | backend/app/routers/print_jobs.py:64-97 | stores one new job with the given payload for an active station: queued with no attempt for an agent, with the outcome of its dispatch for a LAN printer, and not at all after another exception; other jobs stay; LAN jobs are never queued or sent |
| PrintQueue.JobTable.PollPrintJobs | backend/app/routers/print_jobs.py:34-49 | hands out exactly the station's queued jobs, once each, sets exactly their status to sent and their time of sending, and refuses a station without an accepted key |
| PrintQueue.JobTable.RetryPrintJob | backend/app/routers/print_jobs.py:100-122 | from any status an agent job is queued with no error, all its other fields kept; a LAN job has the fields its dispatch leaves; no other job is touched; a missing job is reported |
| PrintQueue.JobTable.CancelPrintJob | backend/app/routers/print_jobs.py:125-139 | from any status only the status changes, attempts and times stay, no other job is touched, the table stays sound |
| PrintQueue.JobTable.AckPrintJob | backend/app/routers/print_jobs.py:142-170 | only the job's own accepted station is heard; attempts, printed_at and last_error follow the report, all else and all other jobs stay, the table stays sound |
| PrintDelivery.StepKeeps | backend/app/routers/print_jobs.py:34-170 | every step of server, agents and network keeps the conservation laws of every job |
| PrintDelivery.AtMostOncePerRequest | backend/app/routers/print_jobs.py:34-49 | in every reachable state copies <= prints <= hand-outs <= 1 + retries; LAN copies <= dispatches including rolled-back ones, and a LAN job is never handed out |
| PrintDelivery.PrintedIsTruthful | backend/app/routers/print_jobs.py:153-158 | a printed job has printed_at and a copy on paper; attempts equals acknowledgements plus dispatches; LAN jobs are never queued or sent |
| PrintDelivery.OnlyARetryRequeues | backend/app/routers/print_jobs.py:100-139 | a job sent, done or cancelled is not handed out again unless retried |
| PrintDelivery.RetryIsHandedOut | backend/app/routers/print_jobs.py:100-122 | in any state that keeps the laws, the next poll of an idle agent of an accepted station after a job's retry hands that job out once more |
| PrintDelivery.RetryCanBePrinted | backend/app/routers/print_jobs.py:100-122 | and some run from there, without a further retry, ends with the job printed |
| PrintDelivery.StrandedUntilRetried | client/ResaPrint.Agent/Worker.cs:41-92 | once nobody holds a job and no report of its success is under way, nothing but a retry gets it printed or marked printed |
| PrintDelivery.PrintableExactly | client/ResaPrint.Agent/Worker.cs:41-92 | without a retry a job that left the queue can still become printed if and only if an agent holds it or its success is being reported |
| PrintDelivery.StrandingIsReachable | backend/app/routers/print_jobs.py:34-49 | queued, handed out, reply lost: the job is sent and can no longer become printed without a retry |
| Escpos.SizeRoundTrip | backend/app/services/escpos_builder.py:47-49 | the size byte always decodes, to the sizes modulo 8, and gives back width and height if and only if both are in 1..8 |
| Escpos.ReadCall | backend/app/services/escpos_builder.py:31-61 | a call's bytes, followed by anything, are read back as that call's commands and text, line feeds in the text as line ends |
| Escpos.DecodesExactlyWhenClean | backend/app/services/escpos_builder.py:64-124 | tokenizing what the builder built gives back exactly the calls, if and only if text has no ESC, GS or LF byte and sizes are in range |
| Escpos.ReceiptBuilder.AddKvLine | backend/app/services/escpos_builder.py:100-109 | appends one label line, bold or not, to the buffer |
| Escpos.ReceiptBuilder.AddBoldLine | backend/app/services/escpos_builder.py:90-94 | appends one bold line and switches bold off again |
| Printer.RunCall | backend/app/services/escpos_builder.py:70-121 | executed at the start of a line with bold off, every call prints its lines and ends there again |
| Printer.PaperOfBytes | backend/app/services/escpos_builder.py:64-124 | with sizes in range, the bytes print what the calls mean if and only if no text holds an ESC, GS or LF byte |
| Printer.FinalState | backend/app/services/escpos_builder.py:64-124 | line feeds in the text add lines but leave the printer with the settings and cuts the calls give it |
| Printer.KvLineWidth | backend/app/services/escpos_builder.py:100-109 | in columns: a label line spans exactly the paper if and only if characters are single width and label, value and blank fit; its exact width otherwise |
| Receipt.BuildReservationReceipt | backend/app/services/printing.py:27-155 | the text is the lines of Receipt.TextSays, the paper of the bytes shows them if no text holds an ESC, GS or LF byte and the printer ends as the settings choose; the exception exactly for an unknown font or an impossible wrap width |
| Receipt.TextSays | backend/app/services/printing.py:57-155 | the lines of the text in order, written out: title, guest, each room's wrapped label with its nights, price and total, From check-in, To check-out, guests and nights as the settings show them, SKUPAJ and the average exactly when there is a total and a night, reservation number |
| Receipt.ReceiptIsRight | backend/app/services/printing.py:57-155 | these lines are the text and the lines of the paper, save the dividers, stamp and blanks |
| Receipt.WriteRoom | backend/app/services/printing.py:86-102 | one room line's label, nights and prices go to both outputs alike |
| Receipt.WriteTotal | backend/app/services/printing.py:133-141 | total, average per night and divider go to both outputs alike |
| Receipt.ReceiptPrints | backend/app/services/printing.py:53-155 | the bytes print exactly these lines and leave bold off, base size, left alignment, one partial cut last, if and only if no text holds an ESC, GS or LF byte |
| Receipt.ReceiptLeavesPrinterReset | backend/app/services/printing.py:145-155 | also with line feeds in the text: bold off, base size, left alignment, one partial cut last |
| Receipt.OutputsAgree | backend/app/services/printing.py:72-155 | the paper is the text summary line for line, plus two dividers, the stamp and three blanks; the blank after a label is widened to bring the line to the paper's width in characters |
| Receipt.ReceiptShowsItsText | backend/app/services/printing.py:53-155 | from the two results alone: the text is the joined lines, and the paper of the bytes shows them |
| Receipt.BannerExactlyWhenCancelled | backend/app/services/printing.py:62-75 | the bold 3x3 banner is the second line and the fifth from the end if the reservation is cancelled, and nowhere otherwise |
| Receipt.LabelLineSpansPaper | backend/app/services/printing.py:51-55 | a receipt's label line spans exactly the paper if and only if it fits and the receipt is in normal size |
| Receipt.LargeLabelLineOverruns | backend/app/services/printing.py:51-55 | in size large or xlarge a label line that fits spans two or three times the paper |
| Receipt.DividerAndBannerColumns | backend/app/services/printing.py:62-75 | a divider fits the paper if and only if the size is normal; the banner takes 54 columns |
| Receipt.ReceiptFitsExactly | backend/app/services/printing.py:27-155 | no line runs over the paper if and only if the size is normal, every text line and the stamp fit, and a cancelled receipt has 54 columns |
| Lines.AgreeExactly | client/ResaPrint.Agent/Worker.cs:94-103 | the agent prints the server's lines, plus one blank after a final line feed, if and only if the text is broken by LF or CRLF |
| Lines.RoundTrip | client/ResaPrint.Agent/Worker.cs:97-100 | joined receipt lines come back unchanged and in order, plus one blank, if and only if none holds a line feed or ends with a carriage return |
| AgentProgram.Concat | client/ResaPrint.Shared/Escpos/EscposBuilder.cs:51-63 | the block copies produce the concatenation of the parts |
| AgentProgram.LineCommand | client/ResaPrint.Shared/Escpos/EscposBuilder.cs:45-49 | byte parity with the server's line |
| AgentProgram.AgentBuilder.FeedLines | client/ResaPrint.Shared/Escpos/EscposBuilder.cs:114-114 | parity with the server, except that a negative count throws |
| AgentProgram.AgentBuilder.AddKvLine | client/ResaPrint.Shared/Escpos/EscposBuilder.cs:101-106 | parity with the server's label line without bold labels |
| AgentProgram.RenderJob | client/ResaPrint.Agent/Worker.cs:94-103 | the agent's bytes are the rendering of the agent's lines |
| AgentProgram.RenderManual | backend/app/routers/print_jobs.py:74-77 | the server's bytes are the rendering of the server's lines |
| AgentProgram.SameRendering | client/ResaPrint.Agent/Worker.cs:94-103 | for text broken by LF or CRLF both renderings are the same bytes, save one line feed after a final line break |
| AgentProgram.RenderedPrints | client/ResaPrint.Agent/Worker.cs:94-103 | a rendered job prints its lines, three blanks, one cut, if and only if no line holds an ESC, GS or LF byte |
| AgentProgram.SummaryReachesPaper | backend/app/services/printing.py:154-154 | the lines of a text summary reach the agent's paper unchanged and in order, with four blanks and the cut, if and only if none holds a line feed, ends with a carriage return or holds an ESC, GS or LF byte |
| AgentProgram.Worker.ProcessJob | client/ResaPrint.Agent/Worker.cs:81-92 | print, then status, then acknowledgement; nothing is acknowledged after a throw |
| AgentProgram.RequestsSayOutcomes | client/ResaPrint.Agent/Worker.cs:81-92 | the i-th acknowledgement names the i-th job, with the success and the error its print reported |
| AgentProgram.Worker.PollOnce | client/ResaPrint.Agent/Worker.cs:68-79 | prints and acknowledges in order up to the first exception; the status reports the last acknowledgement |
| AgentProgram.Worker.Turn | client/ResaPrint.Agent/Worker.cs:45-55 | the backend counts as reachable exactly when nothing threw |
| AgentProgram.LoopIsARun | client/ResaPrint.Agent/Worker.cs:68-92 | the polling loop is a run of the protocol: jobs reached are printed, the rest dropped, answered acknowledgements processed in order |
| Mailroom.FindsFirst | backend/app/services/parser_registry.py:195-199 | the first parser that accepts, after all before it declined |
| Mailroom.Session.CreateReservationFromParsed | backend/app/services/email_ingest.py:188-224 | one new row with each parsed field under its own name, one line for each parsed room type and, if enabled, the assignment the office's create makes; or the database exception |
| Mailroom.Session.ApplyCancellationEmail | backend/app/services/email_ingest.py:227-268 | cancels the newest row with the reference, or creates a cancelled one |
| Mailroom.Session.ProcessEmail | backend/app/services/email_ingest.py:298-345 | commits the whole effect of the e-mail or, after a failure at any database call, only the stored e-mail; without a failure the office is as Mailroom.LiveIsCarriedOut says |
| Mailroom.Session.ReparseUnparsedEmail | backend/app/routers/admin_ui.py:924-1001 | commits the whole effect and resolves the entry or, after any failure, loading the parsers included, only the entry's reason and slug; without a failure the office is as Mailroom.ReparseIsCarriedOut says |
| Mailroom.LiveIsCarriedOut | backend/app/services/email_ingest.py:188-345 | when the first accepting parser makes a booking, there is one new confirmed row with the parsed reference, channel, guest, dates, room type and line types, and every old row is as before; when it is a notice, only the newest row with its reference is cancelled, or one new cancelled row holds the parsed fields |
| Mailroom.ReparseIsCarriedOut | backend/app/routers/admin_ui.py:924-1001 | the same for reparse |
| Mailroom.FailureIsRecorded | backend/app/services/email_ingest.py:271-333 | which reason and slug a kept e-mail has: no matching parser, the parser's message, an unexpected error, or a notice without a reference |
| Mailroom.ReparseIsRecorded | backend/app/routers/admin_ui.py:924-1001 | the same for the entry reparsed; on success it is resolved to the new reservation, or to the newest the notice cancelled |
| MailRuns.ReparseAgreesWithLive | backend/app/routers/admin_ui.py:948-1001 | reparse changes reservations, lines and rooms exactly as live ingestion of that e-mail; the entry is resolved exactly on success |
| MailRuns.LiveFailure | backend/app/services/email_ingest.py:301-336 | a failing e-mail changes no reservation and is kept, unless the parsers could not be loaded or one threw while being asked |
| MailRuns.MailKeepsRoomsSafe | backend/app/services/email_ingest.py:188-268 | runs with e-mail are as safe against double booking as runs of the office |
| MailRuns.ReferencesAreConserved | backend/app/services/email_ingest.py:251-268 | without deletions a reference has the reservations booked for it plus at most one made by a notice |
| MailRuns.NoticeCancelsNewest | backend/app/services/email_ingest.py:254-268 | the newest reservation is cancelled and all others are unchanged; with none, one cancelled row appears |
| MailRuns.NoticeIsIdleExactly | backend/app/services/email_ingest.py:235-244 | a notice changes nothing if and only if the newest reservation is already cancelled |
| MailRuns.NoticeTwice | backend/app/services/email_ingest.py:235-244 | repeating a notice changes no reservation |
| MailRuns.SecondReparseHarmlessExactly | backend/app/routers/admin_ui.py:948-1001 | a second reparse changes no reservation if and only if the first accepting parser does not make a booking of the e-mail |
| MailRuns.ReparsedTwiceIsBookedTwice | backend/app/routers/admin_ui.py:1004-1014 | a booking reparsed twice is booked twice |
| Walkin.OrdinalIsChronological | backend/app/routers/admin_ui.py:297-298 | day numbers follow the Gregorian calendar, so weeks are weeks |
| Walkin.KnownWeek | backend/app/routers/admin_ui.py:297-298 | 2026-07-20 to 2026-07-26 are weekdays 0 to 6 of the week of Monday 2026-07-20 |
| Walkin.KnownReference | backend/app/routers/admin_ui.py:290-308 | the third walk-in of 2026-07-21 is 21072603 |
| Walkin.NumberIsOneMore | backend/app/routers/admin_ui.py:289-308 | the number is one more than the channel "01" rows with a check-in in today's week |
| Walkin.ReferenceReadsBack | backend/app/routers/admin_ui.py:308-308 | day, month, year and number can be read back from a reference, also past 99 |
| Walkin.SameReferenceExactly | backend/app/routers/admin_ui.py:308-308 | two references are equal if and only if day, month, year modulo 100 and number are |
| Walkin.NumbersIncrease | backend/app/routers/admin_ui.py:289-308 | within a Monday-Sunday week the numbers strictly increase in order of issue |
| Walkin.WeekShrinksExactly | backend/app/routers/admin_ui.py:299-307 | an action takes a row out of a week's count if and only if it deletes a cancelled channel "01" row of the week or moves its check-in out; then one row |
| Walkin.ReferencesAreDistinct | backend/app/routers/admin_ui.py:345-360 | walk-ins less than a hundred years apart have different references, in runs in which no step takes a channel "01" row out of its week |
| Walkin.RepeatsExactly | backend/app/routers/admin_ui.py:289-308 | right after a walk-in, an action makes its reference come up again on that day if and only if it takes a row out of the week |
| Walkin.DeletionRepeatsReference | backend/app/routers/admin_ui.py:477-499 | after cancelling and deleting the last walk-in, the next one of the day gets its reference |
| Walkin.MovedCheckinRepeatsReference | backend/app/routers/reservations.py:95-119 | so it does after the last walk-in's check-in is moved to another week |
| Walkin.HundredYearsRepeatReference | backend/app/routers/admin_ui.py:308-308 | a hundred years after the first walk-in the second one gets its reference |
| Walkin.CreateWalkinAction | backend/app/routers/admin_ui.py:325-370 | the number is one more than the week's channel "01" rows, and the row is stored under it |
| Lockout.PinTable.AttemptLogin | backend/app/services/auth_service.py:52-86 | the first active unlocked matching PIN logs in and has its counter and lock cleared; only if there is none, every active unlocked PIN counts one failure more, or is locked with its counter cleared at the threshold; no other PIN changes |
| Lockout.AttemptKeepsBounds | backend/app/services/auth_service.py:46-86 | the counter stays below the threshold, and a locked PIN neither logs in nor changes |
| Lockout.CountersStayBelow | backend/app/services/auth_service.py:73-81 | the counter is below the threshold in every state of every run |
| Lockout.FailureRateIsBounded | backend/app/services/auth_service.py:70-86 | by elapsed time T at most threshold * (floor(T / lockout) + 1) failures count against a PIN |

## Left out

- Bookings.RunIsSafe: one action per request and one after the other; races between two requests on the same rows are not modelled.
- Partition.EverySlotIsServed: excludes the overrides, and edits that take a room, a wish or a stay away from a live slot that has them (un-assigning, changing the category asked for, deleting or retiring a held room).
- Receipt.OutputsAgree: speaks of the paper lines; Receipt.ReceiptPrints says exactly when the bytes print them.
- Receipt.BannerExactlyWhenCancelled: assumes a code page that keeps printable ASCII, as cp437 does.
- PrintDelivery.PrintedIsTruthful: that a copy is on paper rests on the printer: an agent's printer that reports success has printed, and a LAN connection that took all bytes has.
- Printer.PaperOfBytes: the paper has no edge; a real printer may wrap or cut a line wider than the paper where the model has one long line. A column is one single-width character of the selected font.
- MailRuns.NoticeCancelsNewest: rows created at the same instant rank by id; the database leaves their order open.
- Mailroom.Session.ProcessEmail: an exception in the final audit entry or commit, which the source does not catch either, is not modelled.
- Lockout.FailureRateIsBounded: PINs that are edited, reset or deactivated during the run are not modelled, nor are two attempts at once.
- AgentProgram.Worker.Turn: one turn of the endless loop; the delay and the shutdown token are not modelled.
- PrintDelivery.AtMostOncePerRequest: agents report only `printed` or `failed`, as the agent program does; PrintQueue.JobTable.AckPrintJob accepts any status. Stations are constant: one that is switched off or changed while its agent holds a batch is not modelled.
- Assign-and-print from the arrivals sheet: a manual assignment followed by a receipt and an enqueue in one transaction.
- Auto-print after ingestion: a receipt and an enqueue whose exceptions are swallowed.
- Regular expressions, XPath, date parsing and decimals: a parser is a function from an e-mail to fields or an exception.
- Text wrapping, number and date formatting, upper-casing and code pages: functions given to the model; wrapping never yields no line.
- .NET and Python replacement of characters outside the code page differ; parity is stated for one code page function.
- The bit mask of `text_size` is written as a remainder modulo 8, the nibbles as multiplication and addition.
- Tables are maps from id to row and the room table is a sequence in room-number order; identity maps, lazy loading and flush order of the ORM are not modelled.
- Line and price columns that no modelled operation reads (e-mail, phone, extra fields, raw text).
- IMAP: message sequence numbers shift after an expunge (sections 2.3.1.2 and 7.4.1 of RFC 3501), so nothing is claimed about a mailbox.
- bcrypt, session cookies, API keys, roles, encryption of stored passwords: library calls.
- GDI and spooler printing, installer, tray and status endpoint: foreign calls and user interface; `gdi_text` mode hands the printer the payload's UTF-8.
- CSV and ZIP export, templates, migrations, settings forms, audit listing: plumbing.

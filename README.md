# Barbershop booking app: a Dafny model

This project models the booking core of a small client-side barbershop app.
Customers pick a service from a fixed catalogue, fill in a four-field form
and submit a pending booking. The owner sees today's counters and income,
the booking list newest first, and buttons that complete or cancel a
pending booking. An AI style studio asks an outside service for advice and
reads suggested styles out of a `[TAGS: ...]` block in the reply.

Modules, one per source file:

- `Types` (`types.dfy`): the `Service` and `Booking` records, the three statuses, and an `Option`.
- `JsText` (`js_text.dfy`): the JavaScript string behaviour the app relies on. It covers the `\s` and line-terminator classes, `trim`, `split`/`join` on one character, and the `<` order on strings.
- `Constants` (`constants.dfy`): the four-service catalogue and the twelve time slots as literal data, the lookup by id, and facts about prices and slot order.
- `App` (`app.dfy`): the shared booking list as a class `BookingStore`. `AddBooking` and `UpdateBookingStatus` are specified by the pure list operations `Append` and `WithStatus`. The save effect is modelled as a `storage` field that always equals the list.
- `OwnerPortal` (`owner_portal.dfy`): the `stats` memo, proved against counting and summing reference definitions. Also the `sortedBookings` memo as a stable insertion sort on a fresh array, the "new" highlight and the status buttons.
- `BookingForm` (`booking_form.dfy`): the form state as a class with one change handler per field, and the submit guard.
- `CustomerPortal` (`customer_portal.dfy`): the select / cancel / submit / timeout state machine as a class `Portal`, wired to a `BookingStore`. The portal owns the booking form while it is on screen: the form is mounted with empty fields each time it appears and unmounted when it hides, and submit and cancel exist only while it is shown.
- `TagExtraction` (`tag_extraction.dfy`): the two regular expressions of the advice tab, written as scans. They are proved equal to a declarative description of a match: the leftmost start, greedy `\s*`, and lazy `.*?` that never crosses a line terminator.
- `StyleConsultant` (`style_consultant.dfy`): the studio's state as a class `Consultant`. A request is split into its synchronous part (guard and resets) and the reply handler that runs when the service answers.

Inputs the source reads from the environment are parameters instead:
today's date, the current time, the generated booking id, the firing of the
confirmation timer, the parsed stored list, the file reader's data URL and
the service's replies.

## Model

| member | source | states |
|---|---|---|
| App.Append | App.tsx:30 | The new booking goes last, the length grows by one, and every earlier booking keeps its index. |
| App.WithStatus | App.tsx:34 | Length and order are kept. Every booking with the id, duplicates included, gets the new status and keeps all other fields. Bookings with other ids are untouched. |
| App.WithStatusAbsentId | App.tsx:34 | An id that no booking carries leaves the list unchanged. |
| App.WithStatusIdempotent | App.tsx:34 | Applying the same id and status twice equals applying it once. |
| App.BookingStore.Mount | App.tsx:13-21 | An absent or unparsable stored value leaves the list empty; otherwise the list is the parsed value. |
| App.BookingStore.AddBooking | App.tsx:29-31 | The list becomes `Append(old list, b)` and storage mirrors it. |
| App.BookingStore.UpdateBookingStatus | App.tsx:33-35 | The list becomes `WithStatus(old list, id, status)` and storage mirrors it. |
| Constants.FindIn | components/OwnerPortal.tsx:19 | `SERVICES.find` by id (here and for each row at line 95) returns an entry with that id, the earliest such one, and none exactly when no entry has the id. |
| Constants.FindService | components/OwnerPortal.tsx:19 | A catalogue lookup finds a catalogue entry with the id, or none exactly when no entry has it. |
| Constants.PriceOf | components/OwnerPortal.tsx:19-20 | The price is at most 350000, and it is positive exactly when the id belongs to a catalogue service; an unknown id gives 0. |
| Constants.ServiceIdsDistinct | constants.ts:4-33 | The ids `s1`..`s4` are pairwise distinct. |
| Constants.PricesInRange | constants.ts:4-33 | Every price is positive and at most 350000, and some service costs exactly 350000. |
| Constants.FindServiceOfEntry | constants.ts:4-33 | Looking up a catalogue entry's id returns that entry. |
| Constants.PriceOfHaircut | constants.ts:6-8 | `s1` costs 100000. |
| Constants.ClockOrder | constants.ts:35-37 | For `HH:MM` strings, string order is the order of the clock times they name. |
| Constants.SlotTime | constants.ts:35-37 | Slot i is an `HH:MM` string naming (8 + i):00, with 12:00 skipped. |
| Constants.TimeSlotsOrdered | constants.ts:35-37 | There are 12 slots, all `HH:MM`, strictly increasing as strings and pairwise distinct. |
| JsText.Trim | components/StyleConsultant.tsx:77 | `trim` yields a string no longer than its input that neither starts nor ends with `\s`. |
| JsText.TrimEmptyIffBlank | components/StyleConsultant.tsx:77 | `!s.trim()` holds exactly when every character of `s` is `\s`. |
| JsText.TrimIsSlice | components/StyleConsultant.tsx:138 | `trim` removes only `\s` characters, and only from the two ends. |
| JsText.TrimIdempotent | components/StyleConsultant.tsx:138 | Trimming twice is trimming once. |
| JsText.Split | components/StyleConsultant.tsx:138 | `split` on one character yields one piece more than there are separators, and no piece holds the separator. |
| JsText.JoinSplit | components/StyleConsultant.tsx:138 | Joining the pieces with the separator gives back the string. |
| JsText.SplitJoin | components/StyleConsultant.tsx:138 | Splitting a join of separator-free pieces gives back the pieces. |
| JsText.StrLessTrichotomy | constants.ts:35-37 | Two strings of equal length are equal or one is below the other. |
| JsText.DigitStringOrder | constants.ts:35-37 | For digit strings of equal length, string order is numeric order. |
| OwnerPortal.DatedOn | components/OwnerPortal.tsx:15 | The date filter keeps exactly the bookings with that date. |
| OwnerPortal.HavingStatus | components/OwnerPortal.tsx:17-26 | The status filter keeps exactly the bookings with that status. |
| OwnerPortal.ComputeStats | components/OwnerPortal.tsx:14-29 | Each counter equals the number of list positions dated today, overall and per status. The income is the sum over all bookings of the catalogue price of those completed today. `pending + completed <= today`. Income is at most 350000 per completed booking, 0 when none is completed, and all four values are 0 for an empty list. |
| OwnerPortal.CountPositions | components/OwnerPortal.tsx:24-26 | The length of each filtered list equals the number of qualifying positions. |
| OwnerPortal.StatusPartition | components/OwnerPortal.tsx:24-26 | Every booking is pending, completed or cancelled: the three status filters' lengths add up to the list's length. |
| OwnerPortal.Income | components/OwnerPortal.tsx:16-21 | The `reduce` over prices, left to right; `IncomeIsEarned` and `IncomeBound` state what it adds up to and its bound. |
| OwnerPortal.IncomeIsEarned | components/OwnerPortal.tsx:16-21 | Filtering then reducing equals summing each booking's contribution over the unfiltered list. |
| OwnerPortal.IncomeBound | components/OwnerPortal.tsx:16-21 | The price sum of a list is at most 350000 per booking. |
| OwnerPortal.OneHaircutDay | constants.ts:6-8 | A list holding only a completed `s1` booking dated today gives one booking today, none pending, one completed and income 100000. |
| OwnerPortal.SortedBookings | components/OwnerPortal.tsx:31-36 | The sorted copy is newest first and a permutation of the input. Bookings with equal `createdAt` keep their input order. |
| OwnerPortal.SortNewestFirst | components/OwnerPortal.tsx:32-35 | Sorting the array in place leaves it newest first, a permutation of its old contents, and stable. |
| OwnerPortal.InsertNewest | components/OwnerPortal.tsx:32-35 | One insertion step extends the ordered prefix by one and keeps the contents and the position map. |
| OwnerPortal.IsNew | components/OwnerPortal.tsx:97 | The highlight test `now - createdAt < 60000`; its properties are stated by `NewForOneMinute`. |
| OwnerPortal.NewForOneMinute | components/OwnerPortal.tsx:97 | For every `now`, a booking is new exactly while `now < createdAt + 60000`, and once it stops being new it never becomes new again. |
| OwnerPortal.ActionsFor | components/OwnerPortal.tsx:123-144 | A pending booking gets the complete and the cancel button, in that order. Buttons are offered exactly for pending bookings, and none of them sets pending. |
| OwnerPortal.OwnerActionOneWay | components/OwnerPortal.tsx:126-132 | With unique ids, a button changes only its own booking, and only from pending to the button's status. |
| BookingForm.CanSubmit | components/BookingForm.tsx:20 | The submit guard: name and phone both non-empty; `WhitespaceIsNotBlocked` states what it lets through. |
| BookingForm.WhitespaceIsNotBlocked | components/BookingForm.tsx:20 | For every name and phone made only of `\s` characters, the guard passes exactly when neither is empty, although both trim to the empty string. |
| BookingForm.Form.constructor | components/BookingForm.tsx:11-16 | Name and phone start empty, the date is today and the time is the first slot. |
| BookingForm.Form.ChangeName | components/BookingForm.tsx:35 | Replaces the name and leaves the other three fields unchanged. |
| BookingForm.Form.ChangePhone | components/BookingForm.tsx:46 | Replaces the phone and leaves the other three fields unchanged. |
| BookingForm.Form.ChangeDate | components/BookingForm.tsx:60 | Replaces the date and leaves the other three fields unchanged. |
| BookingForm.Form.ChangeTime | components/BookingForm.tsx:65-72 | Replaces the time with one of the offered slots and leaves the other fields unchanged; the time stays a slot. |
| BookingForm.Form.HandleSubmit | components/BookingForm.tsx:18-22 | The record is handed on exactly when name and phone are both non-empty, and then unchanged. |
| CustomerPortal.NewBooking | components/CustomerPortal.tsx:20-29 | The booking record built on submission; `HandleBooking` states its fields. |
| CustomerPortal.Portal.FormVisible | components/CustomerPortal.tsx:57 | The form is on screen while a service is selected and no confirmation shows; `Valid` ties the mounted form to it. |
| CustomerPortal.Portal.constructor | components/CustomerPortal.tsx:14-15 | No service is selected, no confirmation shows, no timer is pending and no form is mounted. |
| CustomerPortal.Portal.Select | components/CustomerPortal.tsx:50 | The chosen catalogue service becomes the selection. A form already on screen keeps its fields; a form that appears is mounted fresh with empty name and phone, today's date and the first slot. |
| CustomerPortal.Portal.Cancel | components/CustomerPortal.tsx:64 | Only while the form is on screen: the selection is cleared and the form is unmounted. |
| CustomerPortal.Portal.HandleBooking | components/CustomerPortal.tsx:17-37 | With nothing selected, nothing changes and nothing is emitted. Otherwise exactly one booking is appended to the store. It is pending, names the selected service, is stamped with the submission time and copies the form fields verbatim. It can run only while no confirmation shows. The confirmation then shows, the form is unmounted and exactly one timer is pending. |
| CustomerPortal.Portal.Submit | components/CustomerPortal.tsx:62-63 | Only while the form is on screen: a booking built from the mounted form's fields is emitted exactly when the form's guard passes; otherwise neither the store nor the portal changes. |
| CustomerPortal.Portal.Timeout | components/CustomerPortal.tsx:33-36 | The one pending timer fires: the confirmation closes, the selection is cleared and no form is mounted. |
| CustomerPortal.CustomerBookingEarns | components/CustomerPortal.tsx:24 | A customer's booking names a catalogue service, so its price is that service's positive price. |
| TagExtraction.SpaceRunEnd | components/StyleConsultant.tsx:136 | Greedy `\s*` stops at the end of the whitespace run. |
| TagExtraction.CloseOnLine | components/StyleConsultant.tsx:136-141 | Lazy `.*?\]` closes at the first `]` when no line terminator comes before it. When it fails, every later `]` has a line terminator before it. |
| TagExtraction.FirstTagMatch | components/StyleConsultant.tsx:136-141 | The scan returns the first position where a match attempt succeeds; all earlier attempts fail. |
| TagExtraction.TagMatchAtIsRegexMatch | components/StyleConsultant.tsx:136 | An attempt succeeds exactly when the expression can match there. It returns the engine's preferred match: the longest whitespace run and then the nearest `]`. |
| TagExtraction.FirstTagMatchIsLeftmost | components/StyleConsultant.tsx:136-141 | The first match is the leftmost possible one, and there is none exactly when the expression matches nowhere. |
| TagExtraction.PlainMatchImpliesSpaced | components/StyleConsultant.tsx:136-141 | Wherever the removal expression matches, the tag expression matches too, with the same `]`. |
| TagExtraction.TagsOf | components/StyleConsultant.tsx:138 | There is one tag more than there are commas in the capture. |
| TagExtraction.TagsAreTrimmedPieces | components/StyleConsultant.tsx:138 | Each tag is comma-free and neither starts nor ends with `\s`. The tags are the trimmed pieces of a comma-free split whose pieces join back to the capture. |
| TagExtraction.ExtractAdvice | components/StyleConsultant.tsx:136-144 | With no tags, the reply is shown unchanged. |
| TagExtraction.AdviceFromMatch | components/StyleConsultant.tsx:136-144 | Tags come from a match with a non-empty capture, and the text shown is the reply without exactly that block, trimmed. |
| TagExtraction.AdviceAsWritten | components/StyleConsultant.tsx:136-144 | As written, the tags agree with the corrected reading, and a reply without tags is shown unchanged. |
| TagExtraction.AdviceOfLeftmostBlock | components/StyleConsultant.tsx:136-144 | For the leftmost match in its preferred form, the advice is that capture's tags and the reply without the block. With an empty capture, it is the reply as it is. |
| TagExtraction.AdviceWithoutBlock | components/StyleConsultant.tsx:142-143 | A reply in which the expression matches nowhere is shown unchanged and suggests nothing. |
| TagExtraction.AsWrittenAgreesOnOneLine | components/StyleConsultant.tsx:136-141 | When the whitespace after `[TAGS:` holds no line terminator, the source's advice equals the corrected advice. |
| TagExtraction.NewlineReplySpacedMatch | components/StyleConsultant.tsx:136 | In `[TAGS:` + newline + `Buzz Cut]`, `\s*` crosses the newline and the capture is `Buzz Cut`. |
| TagExtraction.NewlineReplyPlainNone | components/StyleConsultant.tsx:141 | The removal expression matches nowhere in that reply. |
| TagExtraction.AsWrittenKeepsBlock | components/StyleConsultant.tsx:136-141 | As written, that reply yields the tag and yet shows the whole reply. Corrected, it shows the empty string. |
| TagExtraction.ExtractedBlockIsGone | components/StyleConsultant.tsx:136-141 | Corrected: when tags are suggested, they come from the leftmost block the tag expression matches, and the text shown is the reply with exactly that block cut out, trimmed. |
| StyleConsultant.EffectivePrompt | components/StyleConsultant.tsx:76 | `customPrompt || prompt`: the custom prompt when it is a non-empty string, else the typed one; empty exactly when both are. |
| StyleConsultant.TextOfAppend | components/StyleConsultant.tsx:105-110 | The text of a reply is the text of its first parts followed by the text of the rest, in reply order. |
| StyleConsultant.PrefixStep | components/StyleConsultant.tsx:105-110 | Reading one more part appends its text, and shows its image when it has image data; otherwise the image shown stays. |
| StyleConsultant.LastImage | components/StyleConsultant.tsx:105-107 | Picks the image data of the last part that has any, and is none exactly when no part has any. |
| StyleConsultant.Consultant.constructor | components/StyleConsultant.tsx:20-26 | The studio opens on the simulation tab with everything empty and not loading. |
| StyleConsultant.Consultant.LoadImage | components/StyleConsultant.tsx:33-38 | The data URL becomes the photo and every result is cleared. |
| StyleConsultant.Consultant.TypePrompt | components/StyleConsultant.tsx:264 | The typed text becomes the prompt; nothing else changes. |
| StyleConsultant.Consultant.ClearImage | components/StyleConsultant.tsx:154-158 | Photo, generated image, recommendation and suggestions are cleared; nothing else changes. |
| StyleConsultant.Consultant.SelectTab | components/StyleConsultant.tsx:171-177 | The tab switches and the results are cleared; photo and prompt stay. |
| StyleConsultant.Consultant.ProcessAI | components/StyleConsultant.tsx:75-123 | Nothing changes exactly when there is no photo and the effective prompt trims to the empty string (by `TrimEmptyIffBlank`, when it is all `\s`); an empty custom prompt falls back to the typed one. Otherwise the results are reset. On the simulation tab without a photo, the upload message shows and loading ends. Otherwise loading starts and the request carries the photo and the effective prompt. |
| StyleConsultant.Consultant.ReceiveSimulationReply | components/StyleConsultant.tsx:105-150 | The recommendation gains the reply's text parts in order. The last image part, if any, becomes the generated image. Loading ends. |
| StyleConsultant.Consultant.ReceiveAdviceReply | components/StyleConsultant.tsx:133-150 | The recommendation and suggestions are those of `ExtractAdvice` on the reply; the suggestions are untouched when no tags are found. Loading ends. |
| StyleConsultant.Consultant.ReceiveFailure | components/StyleConsultant.tsx:146-151 | The error message shows and loading ends. |
| StyleConsultant.Consultant.RunSimulation | components/StyleConsultant.tsx:43-47 | Nothing happens without a photo. Otherwise loading starts, the generated image is cleared, the simulation tab shows and the style name is sent. |
| StyleConsultant.Consultant.ReceiveStyleImage | components/StyleConsultant.tsx:63-71 | Only image parts are read, and the last one becomes the generated image. Loading ends. |

## Left out

- Local storage and JSON: the stored list is an `Option<seq<Booking>>` input to `Mount`. An empty stored string counts as absent, as does a value the parser rejects. Parsed values that are not booking lists are not modelled.
- Clocks: `today` and `now` are parameters. The UTC-versus-local date of `toISOString` is not modelled.
- The random booking id is a parameter. Ids are not checked for uniqueness, and neither does the app check them.
- `setTimeout`: its firing is the explicit `Timeout` event, and its 3000 ms delay is not modelled.
- The outside AI service, the construction of its requests and the shape of its replies are not modelled. A request is returned as a `Request` value, and a reply is a parameter: a sequence of parts, or a text where an absent text counts as empty. The fixed instruction texts and the model names are left out.
- The file reader and the file input's reset, browser I/O: the loaded data URL is a parameter of `LoadImage`.
- Browser constraint validation (`required`, `min` on the date input) is not part of the submit handler and is not modelled. Only the handler's own guard is.
- Rendering, the header's view switch, the service cards and the `toLocaleString` price format.
- The grey highlight for today's pending bookings and the status badge labels, which are presentation only.
- Strings are sequences of Unicode characters. JavaScript compares UTF-16 code units; the two orders agree on the ASCII time slots the model compares.
- Numbers: prices and `createdAt` are unbounded integers. The source's floating-point numbers are exact at these magnitudes.
- StyleConsultant.Consultant.ReceiveAdviceReply: uses the corrected removal. The source's own removal is `TagExtraction.AdviceAsWritten`, which differs from it only when the whitespace after `[TAGS:` contains a line break (see Findings).
- StyleConsultant.Consultant.ReceiveSimulationReply: a text part is appended when it is present, even if empty. The source skips an empty text, and appending it changes nothing.
- OwnerPortal.SortedBookings: takes the list as an immutable value, so "the input is not modified" holds by construction and is not stated.

## Findings

| source | as written | input that shows it | evidently intended | confidence | as-written member | corrected member |
|---|---|---|---|---|---|---|
| components/StyleConsultant.tsx:136-141 | Tags are read with `/\[TAGS:\s*(.*?)\]/`, where `\s*` may cross a line break. The block is removed with `/\[TAGS:.*?\]/`, where `.` may not, so the block that supplied the tags can stay on screen. | `"[TAGS:\nBuzz Cut]"` gives the tag `Buzz Cut`, yet the whole reply is shown. | Remove the block the tags were read from. | high, not executed | TagExtraction.AsWrittenKeepsBlock | TagExtraction.ExtractedBlockIsGone |

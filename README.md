# Ticketing platform core, modelled in Dafny

This project models the core of an event-ticketing web application. The model has two parts.

**The ticket store behind the HTTP API** (`backend/src/index.ts`). The store's state is a set of tables:

- events, each with an owner;
- ticket types, each with an event, a price and a stock;
- clients;
- tickets, each with a client, a type, a QR code, a payment label and a `usado` (used) flag.

Module `Backend` states every handler as a function from the tables before to the reply and the tables after:

- purchase;
- QR redemption;
- event create, edit and delete, with the owner-or-admin rule;
- "my events";
- the ticket list of an event;
- the dashboard statistics.

The lemmas in `Backend` state what these handlers promise: error paths leave the tables alone, stock is never oversold, redemption is one-way, organisers are confined to their own events, and the statistics are scoped correctly. Class `Store.TicketStore` holds the same tables as fields. Its methods run the state-changing handlers step by step, with a loop wherever the server loops. Each method is proved to produce exactly the reply and the tables of the matching `Backend` function, and to keep the store's invariant.

**The front-end helpers that carry logic:**

- the Cloudinary URL rewriting (`OptimizedImage`);
- the home carousel: search filter, fallback slides, circular navigation, card placement, description truncation and result-count text (`EventCarousel`);
- the ticket table's filter and counters (`EventTickets`);
- the ticket-type list editors of the create and edit forms (`TypeEntries`, `CreateEvent`, `EditEvent`);
- the purchase form's validation and type lookup (`EventoDetalle`).

Each React component's state becomes a class. Its handlers become methods, proved against pure functions that the lemmas talk about.

Helper modules model the JavaScript built-ins these files rely on:

- `JsText`: `includes`, `split`, `join`, ASCII `toLowerCase`, `trim` and decimal `toString`;
- `JsNumber`: `parseInt` and `parseFloat`, with NaN as `None`;
- `Seqs`: `filter`, `map` and counting;
- `Common`: `Option`, `Result` and number truthiness.

Conventions:

- Clients and tickets are sequences; a row's serial id is its position plus one.
- Events and types are maps with a next-serial counter.
- The codes `uuidv4()` would produce are a parameter, required to be distinct and unused.
- The authenticated principal is an `(id, rol)` pair.

## Model

| member | source | states |
|---|---|---|
| Backend.Purchase | backend/src/index.ts:375-431 | Missing data, unknown type and insufficient stock are each answered exactly when their condition holds, in that order, and leave every table unchanged. Success inserts one client and the tickets, decrements that type's stock and returns the codes in order; `PurchaseEffect` says nothing else changes. |
| Backend.IssueTickets | backend/src/index.ts:403-412 | The loop inserts one ticket per code, in order. Each ticket has that client, that type, that code, the payment label and `usado = false`. |
| Backend.PurchaseKeepsStock | backend/src/index.ts:392-414 | For `cantidad >= 1`, a successful purchase lowers the type's stock by exactly `cantidad` and leaves it non-negative. |
| Backend.PurchasePreservesValid | backend/src/index.ts:397-414 | With fresh codes, a purchase keeps the invariant: serial counters stay ahead of ids in use and ticket codes stay unique. |
| Backend.CodesForFresh | backend/src/index.ts:404-405 | The codes a purchase takes from fresh generated codes are pairwise distinct and unused. |
| Backend.Checkout | backend/src/index.ts:397-414 | The purchase transaction: a client row, one unused ticket per code, and the type's stock lowered by `cantidad`. Its effects are stated by `Backend.Purchase` (`PurchaseEffect`), `CheckoutPreservesValid` and `CheckoutAddsToStats`. |
| Backend.CheckoutPreservesValid | backend/src/index.ts:397-414 | Committing the purchase transaction with distinct, unused codes keeps the invariant. |
| Backend.CountOfIssued | backend/src/index.ts:405-412 | A purchase adds exactly `cantidad` tickets of its type and none of any other type. |
| Backend.NoOversell | backend/src/index.ts:388-414 | Over any sequence of purchases with positive quantities, stock stays non-negative. The tickets sold of a type equal the stock it lost. |
| Backend.NegativeQuantityRestocks | backend/src/index.ts:378-414 | A negative `cantidad` passes the guard: it creates a client, issues no ticket and raises the stock. |
| Backend.FindRowFrom | backend/src/index.ts:437-453 | The validation query's row for a code is the first ticket with that code whose type, event and client all join. None means no ticket joins. |
| Backend.Details | backend/src/index.ts:438-444 | The payload row is the ticket with its id and the event id its joins give. |
| Backend.Redeem | backend/src/index.ts:434-478 | Role denied iff the role is not staff; not found iff no row joins. For the found ticket: Forbidden iff the caller is neither an admin nor the owner of its event; "already used", carrying its joined row, iff the caller may validate it and it is used; success iff the caller may validate it and it is unused. Every error leaves the tables unchanged. Success flips `usado` of exactly that ticket and returns its row as it was before the update. |
| Backend.RedeemMonotone | backend/src/index.ts:465-471 | A redemption changes only `usado` flags, never turns a used ticket back, and touches no other table. |
| Backend.FindRowIgnoresUsado | backend/src/index.ts:437-446 | Setting a ticket's `usado` does not change which row the validation query finds. |
| Backend.RedeemTwice | backend/src/index.ts:465-472 | Redeeming the same code again right after a success answers "already used" with a used ticket and changes nothing. |
| Backend.RedeemPreservesValid | backend/src/index.ts:471 | A redemption keeps the store's invariant. |
| Backend.RedeemOwnership | backend/src/index.ts:456-463 | An organiser redeeming a ticket of an event they do not own gets Forbidden and the tables stay as they were. An admin redeeming the same code succeeds or gets "already used". |
| Backend.LastTicketScenario | backend/src/index.ts:375-478 | Scenario: the last ticket of a type is bought; a second buyer is refused for stock with nothing changed; the owner redeems the first code once; a second redemption is refused as used. |
| Backend.InsertTypes | backend/src/index.ts:202-208 | Creating an event inserts each given type under the next serial ids, in order. Stored types and the other tables are untouched. |
| Backend.CreateEvent | backend/src/index.ts:186-220 | Fails, changing nothing, iff the role is not staff. Otherwise it stores the event under the next id, owned by the caller, and inserts its types. |
| Backend.UpsertTypes | backend/src/index.ts:292-307 | Only the types and the type counter change. The counter advances by the number of inputs without a truthy id. No stored type disappears, and every new type belongs to the edited event under an id between the old and the new counter; `UpsertInsertsNew` states what each new type holds. |
| Backend.UpsertInsertsNew | backend/src/index.ts:300-305 | The `k`-th input without an id is inserted: type `nextTypeId + k` exists afterwards with the edited event and that input's name, price and stock, unless some input names that new id. |
| Backend.UpsertKeepsOthers | backend/src/index.ts:292-307 | A stored type keeps its event. A type of another event is never modified. A stored type that no input names keeps its values. |
| Backend.UpsertLastWins | backend/src/index.ts:293-299 | A stored type of the edited event ends up with the values of the last input that names it. |
| Backend.EditEvent | backend/src/index.ts:266-319 | Role denied iff not staff; Forbidden iff a non-admin does not own the event; success iff the caller is staff and an admin or the owner. Errors change nothing. Success overwrites only that event's fields, keeps its owner, and then applies the type upsert. |
| Backend.DeleteEvent | backend/src/index.ts:223-242 | Role denied iff not staff; Forbidden iff a non-admin does not own the event (a missing event included); success iff the caller is staff and an admin or the owner. Success removes exactly that event row. |
| Backend.CreatePreservesValid | backend/src/index.ts:186-220 | Creating an event keeps the store's invariant. |
| Backend.EditPreservesValid | backend/src/index.ts:266-319 | Editing an event keeps the store's invariant. |
| Backend.DeletePreservesValid | backend/src/index.ts:223-242 | Deleting an event keeps the store's invariant. |
| Backend.OrganiserScope | backend/src/index.ts:223-283 | A non-admin can edit or delete only an event whose owner is their own id. |
| Backend.MyEvents | backend/src/index.ts:245-263 | Denied iff not staff. An admin gets every event; an organiser gets exactly the events they own. |
| Backend.RowsUpTo | backend/src/index.ts:336-348 | Every listed row is a ticket of the event, with its type, price and client, and rows come in ascending ticket id. |
| Backend.RowsComplete | backend/src/index.ts:336-348 | Every ticket of the event whose joins hold is listed. |
| Backend.TicketsOfEvent | backend/src/index.ts:322-353 | Role denied and Forbidden exactly as for editing, success iff the caller is an admin or the owner. The list is then the event's rows, `RowsUpTo` over all tickets: only tickets of the event, and with `RowsComplete` every one of them. |
| Backend.Scoped | backend/src/index.ts:488-507 | The statistics count only tickets of a stored type, and for an organiser only those of events they own. |
| Backend.ScopedComplete | backend/src/index.ts:488-507 | No counted ticket is missed: each occurs among the counted tickets as often as among all tickets, and an uncounted one not at all. |
| Backend.GetStats | backend/src/index.ts:481-526 | Denied iff not staff. The total is the number of counted tickets, the revenue the sum of their types' prices, the used count the number of used ones (null exactly when none is counted), and the event count the number of the caller's events. |
| Backend.StatsEventsAreMyEvents | backend/src/index.ts:488-513 | The dashboard's event count is the number of events "my events" lists for the same caller. |
| Backend.RevenueNonNegative | backend/src/index.ts:494 | With non-negative prices, revenue is non-negative. |
| Backend.ScopedWithinAdmin | backend/src/index.ts:488-513 | An organiser's total, used count and revenue never exceed the admin's. |
| Backend.CheckoutAddsToStats | backend/src/index.ts:488-513 | After the purchase transaction the admin sees the earlier tickets plus the issued ones: used count unchanged, revenue up by the type's price per code. |
| Backend.PurchaseAddsToStats | backend/src/index.ts:481-526 | After a purchase, the admin totals grow by `cantidad` tickets and `cantidad` times the price, with no used ticket and no event added. |
| Store.TicketStore.Purchase | backend/src/index.ts:375-431 | The in-place purchase answers and leaves the tables exactly as `Backend.Purchase`, and keeps the invariant when the codes are fresh. |
| Store.TicketStore.IssueAll | backend/src/index.ts:403-412 | The insert loop appends the tickets `IssueTickets` describes and returns the codes in order. |
| Store.TicketStore.FindRow | backend/src/index.ts:437-453 | The search loop finds the same row as `Backend.FindRow`: the first joining ticket with the code, or none. |
| Store.TicketStore.Redeem | backend/src/index.ts:434-478 | Answers and leaves the tables exactly as `Backend.Redeem`, so it succeeds exactly for a staff caller who may validate a found, unused ticket, and keeps the invariant. |
| Store.TicketStore.CreateEvent | backend/src/index.ts:186-220 | Answers and leaves the tables exactly as `Backend.CreateEvent`, and keeps the invariant. |
| Store.TicketStore.InsertAll | backend/src/index.ts:202-209 | The insert loop leaves the tables as `Backend.InsertTypes` says: one new type per input, in order, under consecutive ids. |
| Store.TicketStore.EditEvent | backend/src/index.ts:266-319 | Answers and leaves the tables exactly as `Backend.EditEvent`, so it succeeds exactly for an admin or the owner and inserts the new types as `UpsertInsertsNew` states, and keeps the invariant. |
| Store.TicketStore.UpsertAll | backend/src/index.ts:292-307 | The update-or-insert loop leaves the tables as `Backend.UpsertTypes` says, new types under the next serial ids. |
| Store.TicketStore.DeleteEvent | backend/src/index.ts:223-242 | Answers and leaves the tables exactly as `Backend.DeleteEvent`, so it succeeds exactly for an admin or the owner, and keeps the invariant. |
| OptimizedImage.Crop | src/components/OptimizedImage.tsx:51-57 | Both dimensions truthy gives `c_fill,g_auto`; exactly one gives `c_scale`; neither gives nothing. |
| OptimizedImage.Transformations | src/components/OptimizedImage.tsx:39-57 | The transformation list: `f_auto`, `q_<quality>`, the width and height tokens when truthy, then the crop tokens. Its shape is stated by `TransformationsShape`. |
| OptimizedImage.BuildTransformations | src/components/OptimizedImage.tsx:38-57 | The push sequence builds exactly the transformation list `Transformations` describes. |
| OptimizedImage.TransformationsShape | src/components/OptimizedImage.tsx:39-57 | The list starts with `f_auto`, `q_<quality>`. A `w_` token is present iff the width is truthy, and an `h_` token iff the height is; the width comes first. The crop tokens close the list. |
| OptimizedImage.GetOptimizedUrl | src/components/OptimizedImage.tsx:23-60 | A URL not mentioning `cloudinary.com` is returned unchanged. So is one that does not split into exactly two parts around `/upload/`. |
| OptimizedImage.SecondHostTestRedundant | src/components/OptimizedImage.tsx:30 | A URL containing `res.cloudinary.com` contains `cloudinary.com`, so the guard's second test never decides. |
| OptimizedImage.OptimizedShape | src/components/OptimizedImage.tsx:34-59 | A rewritten URL is the original prefix, `/upload/`, the comma-joined transformations, `/` and the original suffix. Neither part contains `/upload/`. |
| OptimizedImage.SrcSetEntries | src/components/OptimizedImage.tsx:68-70 | One entry per width, in the order of the width list: the URL at that width, then ` <w>w`. |
| OptimizedImage.GetSrcSet | src/components/OptimizedImage.tsx:65-72 | The result is empty iff the URL does not mention `cloudinary.com`. |
| OptimizedImage.SrcSetShape | src/components/OptimizedImage.tsx:65-71 | For a Cloudinary URL the `srcset` joins five entries with `, `. The URL of each entry carries format, quality, its width and `c_scale`, in that order. |
| OptimizedImage.WidthOnly | src/components/OptimizedImage.tsx:38-57 | A width without a height gives format, quality, the width and `c_scale`, and nothing else. |
| EventCarousel.FilterKeepsMatches | src/components/EventCarousel.tsx:64-68 | An event is kept iff its lowercased title, venue or description contains the lowercased term, and kept events stay in their original order. |
| EventCarousel.EmptyTermKeepsAll | src/components/EventCarousel.tsx:64-68 | The empty term keeps every event. |
| EventCarousel.Matches | src/components/EventCarousel.tsx:64-68 | An event matches when its lowercased title, venue or description contains the lowercased term; `FilterKeepsMatches` states the filter in these terms. |
| EventCarousel.Filter | src/components/EventCarousel.tsx:64-68 | The events that match, in their order; `FilterKeepsMatches` and `EmptyTermKeepsAll` state it. |
| EventCarousel.Slides | src/components/EventCarousel.tsx:71 | The slides are the filtered events when there are any, and otherwise the three default slides, so there is always a slide. |
| EventCarousel.Next | src/components/EventCarousel.tsx:78-80 | The next index is in range. |
| EventCarousel.Prev | src/components/EventCarousel.tsx:82-84 | The previous index is in range. |
| EventCarousel.NextPrevInverse | src/components/EventCarousel.tsx:78-84 | Next and previous undo each other on every index in range. |
| EventCarousel.NormalizedDiff | src/components/EventCarousel.tsx:107-114 | The card's offset from the active index, folded into the shorter way round; `NormalizedDiffRange` bounds it. |
| EventCarousel.CardStyle | src/components/EventCarousel.tsx:107-174 | The z-index, opacity and full-screen flag of a card from its folded offset; `OnlyActiveIsFront`, `PreviousIsBackground`, `NextHeadsStack` and `StackedCards` state them. |
| EventCarousel.NormalizedDiffRange | src/components/EventCarousel.tsx:107-114 | The folded offset differs from the raw one by 0 or ±n, lies in [-n/2, n/2], and is 0 iff the card is the active one. |
| EventCarousel.OnlyActiveIsFront | src/components/EventCarousel.tsx:117-139 | A card is fullscreen at full opacity iff it is the active card, which gets z-index 2. |
| EventCarousel.PreviousIsBackground | src/components/EventCarousel.tsx:129-139 | With two or more slides, the previous card is the half-transparent fullscreen background at z-index 1. |
| EventCarousel.NextHeadsStack | src/components/EventCarousel.tsx:150-161 | With three or more slides, the next card heads the stack at z-index 4, opaque. |
| EventCarousel.StackedCards | src/components/EventCarousel.tsx:150-173 | A card 1 to 4 steps ahead gets z-index 5 minus the offset and is transparent only at 4. Any other non-active card is hidden at z-index 0. |
| EventCarousel.Truncate | src/components/EventCarousel.tsx:282-284 | A description longer than 150 characters shows its first 150 characters followed by `...`; a shorter one is shown unchanged. |
| EventCarousel.CountText | src/components/EventCarousel.tsx:407-409 | The result line: the count with plural suffixes, or 'No se encontraron eventos'; `CountTextStatesCount` and `CountTextPlural` state it. |
| EventCarousel.CountTextStatesCount | src/components/EventCarousel.tsx:407-409 | The result line opens with the count it reports, which `parseInt` reads back. Zero gives the no-results text, which holds no number. |
| EventCarousel.CountTextPlural | src/components/EventCarousel.tsx:407-409 | The line is pluralised iff the count is not 1. |
| EventCarousel.ShownSlide | src/components/EventCarousel.tsx:176 | The slide the overlay shows is always one of the slides: the indexed one while the index is in range, otherwise the first. |
| EventCarousel.SlideAt | src/components/EventCarousel.tsx:176 | `slides[activeIndex]` as written: a slide while the index is in range, undefined otherwise; `StaleIndexAfterSearch` shows it undefined after a narrowing search. |
| EventCarousel.StaleIndexAfterSearch | src/components/EventCarousel.tsx:71-76 | Example: index 1 is valid before a search, but after a search leaving one slide, `slides[1]` is undefined. |
| EventCarousel.Carousel.CurrentSlides | src/components/EventCarousel.tsx:71 | The component's slides are never empty. |
| EventCarousel.Carousel.constructor | src/components/EventCarousel.tsx:60-61 | The carousel starts on index 0. |
| EventCarousel.Carousel.GoToNext | src/components/EventCarousel.tsx:78-80 | The index moves to `Next`, and the index stays in range. |
| EventCarousel.Carousel.GoToPrev | src/components/EventCarousel.tsx:82-84 | The index moves to `Prev`, and the index stays in range. |
| EventCarousel.Carousel.Select | src/components/EventCarousel.tsx:385 | Clicking a dot makes that slide active. |
| EventCarousel.Carousel.Search | src/components/EventCarousel.tsx:73-76 | A new term resets the index to 0. The slide shown is the corrected `ShownSlide` of the new slides at the old index. |
| EventTickets.TicketStats | src/pages/admin/EventTickets.tsx:58-61 | The total is the number of rows. |
| EventTickets.MatchesSearch | src/pages/admin/EventTickets.tsx:49-51 | Name and email match the search without regard to case, the code with it. |
| EventTickets.Keep | src/pages/admin/EventTickets.tsx:53-55 | The search, and the used or pending status when that filter is chosen. |
| EventTickets.FilteredTickets | src/pages/admin/EventTickets.tsx:48-56 | The rows `Keep` accepts, in order; `FilterMeaning` and `FilterComplete` state both directions. |
| EventTickets.FilterMeaning | src/pages/admin/EventTickets.tsx:48-55 | Every shown row is a row of the table that matches the search and, under 'used' or 'pending', has that status. |
| EventTickets.FilterComplete | src/pages/admin/EventTickets.tsx:48-55 | Every such row is shown. |
| EventTickets.MatchesEmptySearch | src/pages/admin/EventTickets.tsx:49-51 | The empty search matches every row. |
| EventTickets.EmptySearchShowsAll | src/pages/admin/EventTickets.tsx:48-55 | With an empty search and any filter other than 'used' and 'pending', the table is shown whole. |
| EventTickets.CountersBound | src/pages/admin/EventTickets.tsx:58-61 | Used plus pending is at most the total, with equality iff every row reads as used or pending. |
| EventTickets.TruthyCountersAddUp | src/pages/admin/EventTickets.tsx:139-140 | Read by truthiness, as the badge reads it, used plus pending is always the total. |
| EventTickets.StrictReadingMissesStoreRows | src/pages/admin/EventTickets.tsx:53-61 | On the store's rows, whose flag is a boolean, the strict comparison with 1 or 0 counts zero used and zero pending, and the 'used' and 'pending' filters show nothing. |
| EventTickets.OneRedeemedTicketShowsZero | src/pages/admin/EventTickets.tsx:60 | Example: one redeemed ticket, which the store counts as used, is shown as zero used. |
| EventTickets.TruthyReadingMatchesStore | src/pages/admin/EventTickets.tsx:58-61 | Read by truthiness, the used counter is the number of redeemed tickets in the store's rows and the pending counter the rest. |
| TypeEntries.WithField | src/pages/admin/CreateEvent.tsx:46 | Writing one field of a row changes that field only; the id and the other fields stay. |
| TypeEntries.SetField | src/pages/admin/CreateEvent.tsx:44-48 | The change handler rewrites row `index` only; every other row stays. |
| TypeEntries.RemoveAt | src/pages/admin/CreateEvent.tsx:39 | Filtering out index `i` drops exactly that row, keeping the others in order. An index out of range drops nothing. |
| TypeEntries.ToPayload | src/pages/admin/CreateEvent.tsx:54-58 | A request row keeps the id and name, with the `parseFloat` of the price and the `parseInt` of the stock. |
| TypeEntries.Validate | src/pages/admin/CreateEvent.tsx:54-69 | A request is produced iff no row has an empty name, a NaN price or a NaN stock. It keeps the rows' number, order and ids. |
| TypeEntries.BlankRejected | src/pages/admin/CreateEvent.tsx:60 | A list holding a blank row is never sent. |
| TypeEntries.EmptyNumberRejected | src/pages/admin/CreateEvent.tsx:56-60 | A row whose price is empty or all white space is flagged. |
| CreateEvent.RemoveTicketType | src/pages/admin/CreateEvent.tsx:37-42 | Removing drops exactly the given row while more than one row is left, and otherwise does nothing, so the list never empties. |
| CreateEvent.InitialRejected | src/pages/admin/CreateEvent.tsx:25-27 | The list the form opens with is refused until its price is filled in. |
| CreateEvent.CreateForm.constructor | src/pages/admin/CreateEvent.tsx:25-27 | The list starts as one 'General' row with an empty price and stock. |
| CreateEvent.CreateForm.AddTicketType | src/pages/admin/CreateEvent.tsx:33-35 | Adding appends one blank row and keeps the earlier rows. |
| CreateEvent.CreateForm.RemoveTicketTypeAt | src/pages/admin/CreateEvent.tsx:37-42 | The list becomes `RemoveTicketType` of the old list, and stays non-empty and id-free. |
| CreateEvent.CreateForm.TicketTypeChange | src/pages/admin/CreateEvent.tsx:44-48 | The list becomes `SetField` of the old list. |
| EditEvent.Load | src/pages/admin/EditEvent.tsx:50-57 | With `tipos_entrada`, the list becomes one row per stored type, in order. Without it, the list stays as it was. |
| EditEvent.LoadEntryParsesBack | src/pages/admin/EditEvent.tsx:51-56 | A loaded row keeps the id and name. Its price and stock text parse back to the stored numbers. |
| EditEvent.LoadSubmitRoundTrip | src/pages/admin/EditEvent.tsx:51-111 | Loading and submitting unedited sends every stored type back as it was, in order, when all names are non-empty. |
| EditEvent.EmptyNameBlocksSubmit | src/pages/admin/EditEvent.tsx:51-111 | A stored type with an empty name blocks the submission of the unedited form. |
| EditEvent.LoadedRowSubmits | src/pages/admin/EditEvent.tsx:51-111 | The row of a stored type with a name passes the check and submits that type unchanged. |
| EditEvent.RemoveTicketType | src/pages/admin/EditEvent.tsx:77-92 | A row with a truthy id stays (with a warning). Any other row is dropped exactly. |
| EditEvent.RemoveKeepsPersisted | src/pages/admin/EditEvent.tsx:77-92 | Removing never loses the id of a stored type. |
| EditEvent.AddKeepsPersisted | src/pages/admin/EditEvent.tsx:71-73 | Adding a blank row leaves the stored ids as they were. |
| EditEvent.ChangeKeepsPersisted | src/pages/admin/EditEvent.tsx:94-99 | Changing a field leaves the stored ids as they were. |
| EditEvent.EditForm.constructor | src/pages/admin/EditEvent.tsx:27 | The list starts empty. |
| EditEvent.EditForm.Loaded | src/pages/admin/EditEvent.tsx:50-57 | The list becomes `Load` of the event's types. |
| EditEvent.EditForm.AddTicketType | src/pages/admin/EditEvent.tsx:71-73 | One blank row, without an id, is appended; the stored ids are kept. |
| EditEvent.EditForm.RemoveTicketTypeAt | src/pages/admin/EditEvent.tsx:77-92 | Warns exactly for a row with a truthy id, and the list becomes `RemoveTicketType` of the old one, keeping the stored ids. |
| EditEvent.EditForm.TicketTypeChange | src/pages/admin/EditEvent.tsx:94-99 | The list becomes `SetField` of the old one, keeping the stored ids. |
| EventoDetalle.NewErrors | src/pages/EventoDetalle.tsx:56-61 | The name flag is raised iff the name is all white space; the email flag iff the email has no `@`; the selection flag iff nothing is selected; the payment flag iff the box is unticked. |
| EventoDetalle.AtSignNotBlank | src/pages/EventoDetalle.tsx:58 | An email containing `@` never trims to empty, so the blank test adds nothing. |
| EventoDetalle.Compra | src/pages/EventoDetalle.tsx:55-84 | A request goes out iff no flag is raised. It carries the name, email and quantity as entered, `parseInt` of the selection, and `tarjeta_simulada`. |
| EventoDetalle.FirstWithId | src/pages/EventoDetalle.tsx:105 | `find` returns the first type with the id, or none when no type has it. |
| EventoDetalle.TipoActual | src/pages/EventoDetalle.tsx:105 | The current type is a type whose id equals the parsed selection. There is none iff the selection does not parse or no type has that id. |
| EventoDetalle.SelectOption | src/pages/EventoDetalle.tsx:159-160 | Choosing a type's option selects that type, when no earlier type shares its id. |
| EventoDetalle.OptionValue | src/pages/EventoDetalle.tsx:160 | An option's value is its type's id as text; `SelectOption` reads it back to that type. |
| EventoDetalle.Disabled | src/pages/EventoDetalle.tsx:160 | An option is disabled when its type's stock is zero or less; `SoldOutMarked` and `DisabledMatchesServer` state what that means. |
| EventoDetalle.OptionLabel | src/pages/EventoDetalle.tsx:161 | The option text: name, price, and `(Agotado)` when the stock is zero or less. |
| EventoDetalle.SoldOutMarked | src/pages/EventoDetalle.tsx:160-161 | An option's text ends with `(Agotado)` exactly when the option is disabled. |
| EventoDetalle.DisabledMatchesServer | src/pages/EventoDetalle.tsx:160 | For a type showing the server's stock, the server refuses any purchase of a disabled option for lack of stock, and sells one ticket exactly when the option is enabled (`backend/src/index.ts:388-393`). |
| EventoDetalle.FirstWithIdFinds | src/pages/EventoDetalle.tsx:105 | The search for an id stops at the first type that has it. |
| EventoDetalle.ConfirmNeedsSelection | src/pages/EventoDetalle.tsx:245-250 | The placeholder leaves no current type, so confirming is disabled. While confirming is enabled, the selection flag cannot fire. |
| EventoDetalle.PurchaseForm.constructor | src/pages/EventoDetalle.tsx:34-47 | The form starts empty with quantity 1, payment unticked, not loading and no flags. |
| EventoDetalle.PurchaseForm.SetNombre | src/pages/EventoDetalle.tsx:208-211 | Typing a name clears only the name flag. |
| EventoDetalle.PurchaseForm.SetEmail | src/pages/EventoDetalle.tsx:225-228 | Typing an email clears only the email flag. |
| EventoDetalle.PurchaseForm.SelectTipo | src/pages/EventoDetalle.tsx:154-157 | Choosing an option clears only the selection flag. |
| EventoDetalle.PurchaseForm.SetMetodoPago | src/pages/EventoDetalle.tsx:235-238 | Ticking the box clears only the payment flag. |
| EventoDetalle.PurchaseForm.HandleCompra | src/pages/EventoDetalle.tsx:55-97 | The flags become `NewErrors` of the inputs. The request is `Compra` and is sent iff no flag is raised. Loading is off again once it settles, and the inputs are kept. |
| JsText.SplitTwo | src/components/OptimizedImage.tsx:35-36 | A URL that splits into two parts around `/upload/` is part 0, `/upload/`, part 1, and neither part contains `/upload/`. |
| JsText.JoinSplit | src/components/OptimizedImage.tsx:35 | Joining the split parts with the separator gives the text back. |
| JsText.TrimEmptyIff | src/pages/EventoDetalle.tsx:57 | Text trims to empty iff every character is white space. |
| JsNumber.ParseIntOfIntString | src/pages/admin/EditEvent.tsx:55 | `parseInt` of an integer's decimal text is that integer. |
| JsNumber.ParseFloatOfIntString | src/pages/admin/EditEvent.tsx:54 | `parseFloat` of an integer's decimal text is that integer. |
| JsNumber.BlankIsNaN | src/pages/admin/CreateEvent.tsx:56-57 | Empty or all-white-space text is NaN to both parsers. |
| Seqs.FilterIff | src/pages/admin/EventTickets.tsx:48 | `filter` keeps only elements that pass, and every element that passes. |
| Seqs.CountDisjoint | src/pages/admin/EventTickets.tsx:60-61 | Two exclusive tests count at most the list together, and exactly the list iff every element passes one. |
| Seqs.MapIfAll | src/pages/admin/CreateEvent.tsx:54-60 | Mapping is produced iff every element passes the test, and then keeps the length with each element mapped. |

## Left out

- I/O and plumbing are not modelled: HTTP routing, CORS, the database pool, JWT signing and verification, bcrypt login and registration (`backend/src/index.ts:1-93`, `110-172`). The principal is given as an `(id, rol)` pair; a request without a user is not modelled.
- The handler answers are modelled as results. The HTTP status codes (`Backend.StatusCode`) and messages are not carried into the front-end models.
- Concurrency is not modelled. The row lock (`FOR UPDATE`) and interleaved requests are out; each handler runs as one atomic step. The redeem handler's separate SELECT and UPDATE (`backend/src/index.ts:446`, `471`) run outside a transaction, so two concurrent redemptions of one code could both succeed; the sequential model cannot show this.
- UUID v4 generation is replaced by a parameter of codes, required to be distinct and unused.
- Database failures are not modelled: driver errors, the `500` catch branches and foreign-key violations. Examples are editing a missing event with new types as an admin, or deleting an event that still has types.
- `ON DELETE` behaviour is not modelled; the schema is not part of the sources. The model removes only the event row, and listings simply stop joining its tickets.
- The order of `ORDER BY fecha` in "my events" is not modelled; the result is a map.
- `Backend.UpsertInsertsNew`: an input whose id names a type the same edit has just inserted updates that new row, as the source's UPDATE would; the lemma states the inserted values only when no input names the new id, and `Backend.UpsertTypes` covers the other case.
- Row order in the ticket list is not modelled. The model lists rows in ticket-id order, whereas the query has no `ORDER BY`.
- Prices are whole numbers of currency units; fractional `numeric` prices are not modelled. The float sums are left out: revenue in the ticket table (`EventTickets.tsx:62`) and the purchase total (`EventoDetalle.tsx:190`).
- `EditEvent.LoadEntry`: a stored price arrives from the database as decimal text such as `25.00`, which `toString()` keeps. The model stores the price as an integer and renders it as that integer's decimal text (`25`), so the row's text differs from the source's, while its `parseFloat` value is the same number. The float sums are left out: revenue in the ticket table (`EventTickets.tsx:62`) and the purchase total (`EventoDetalle.tsx:190`).
- `parseFloat` is exact: mantissa and power of ten, with no rounding to a double. A JSON `Infinity` becoming `null` is not modelled.
- `toLowerCase` is ASCII only. UTF-16 code units and `substring` on surrogate pairs are not modelled; strings are sequences of characters.
- `OptimizedImage.GetOptimizedUrl`: the width and height props are whole numbers; fractional and NaN widths are not modelled.
- `OptimizedImage.GetOptimizedUrl` and `OptimizedImage.GetSrcSet` take the quality as a required argument. The default `'auto:good'` that the source applies to an omitted quality (`src/components/OptimizedImage.tsx:27`, `65`, `79`) is the constant `OptimizedImage.DefaultQuality`, which a caller passes explicitly; omitted arguments are not modelled.
- `EventCarousel.CardStyle`: card positions, sizes and window-width breakpoints are left out. The model keeps z-index, opacity and whether the card fills the screen. z-index 2 is not unique to the active card: with six or more slides the card three steps ahead also gets 2, so "only the active card is in front" is stated through full-screen and full opacity.
- Date formatting and timezone shifts are not modelled (`EventCarousel.tsx:49-58`, `EditEvent.tsx:41-43`).
- The GET `/api/eventos/:id` handler that feeds the edit and purchase pages is not part of this model. Its types arrive as parameters.
- The edit and create change handlers write `newTypes[index][field]` into an object the old list shares. Since the old list is discarded, the model writes a copy; the aliasing itself is not modelled.
- `EventoDetalle.PurchaseForm.HandleCompra`: the server's answer, the navigation and the toasts are left out. Loading is true only while the request is pending, which the sequential model does not expose.
- `EventoDetalle.PurchaseForm`: the quantity input (`valueAsNumber`, which can be NaN) is an integer field with no setter.
- Rendering, animation, drag and keyboard wiring are not modelled.
- Other components are not modelled: the upload widget, auth context, login, dashboard glue, hero carousel and layout. The migration scripts `migrate_users.ts`, `migrate_events_user.ts` and `create_admin.ts` are not modelled either.

## Findings

| source | as written | input that shows it | evidently intended | confidence | as-written member | corrected member |
|---|---|---|---|---|---|---|
| src/components/EventCarousel.tsx:71-76 | The index is reset to 0 in an effect, after the render that already reads `slides[activeIndex]` (line 176) with the old index. That render then reads `activeSlide.titulo` (line 258) of `undefined`. | Events titled "x" and "y", carousel on index 1, search "x": one slide is left and `slides[1]` is undefined. | The shown slide is always one of the slides: the indexed one in range, otherwise the first, where the reset takes the index anyway. | not executed | EventCarousel.StaleIndexAfterSearch | EventCarousel.ShownSlide |
| src/pages/admin/EventTickets.tsx:53-61 | The used and pending filters and counters compare `usado === 1` and `=== 0`. The store's column is boolean (`backend/src/index.ts:471`), so rows carry `true`/`false`. | One ticket redeemed: the store counts it used, but the page shows used 0, pending 0, and both filters are empty. | Read the flag by truthiness, as the row badge does at lines 139-140: used counts redeemed tickets, and used plus pending is the total. | not executed | EventTickets.StrictReadingMissesStoreRows | EventTickets.TruthyReadingMatchesStore |

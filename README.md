# Seat-reservation front end: sign-up validation, seat chart, event creation

This project models the self-contained logic of a browser front end for event
ticketing. Everything else in that front end is user interface, plus calls to
a hosted back end. The model has three parts:

- **Sign-up** (`signup.dfy`, module `SignUp`). This covers the form record and
  its change handler, and the e-mail and password checks as character
  predicates. It also covers the submit handler's ordered guards: required
  fields, e-mail format, a minimum of 6 characters, then password strength. The
  first guard that fails decides the one alert, and the sign-up call happens
  only when all four pass. The e-mail check is proved equal to the pattern
  `^[^\s@]+@[^\s@]+\.[^\s@]+$`, read as three runs joined by "@" and ".".
- **Seat chart** (`seats_layout.dfy`, module `SeatsLayout`). A flat seat array
  is cut into 16 rows using the fixed row-length table. Row `k` is the slice
  from the sum of the first `k` lengths to the sum of the first `k + 1`. The
  rows are drawn as an upper block of 11 and a lower block of 5. Each seat gets
  its class by a fixed priority: selected (mine or another user's), then
  reserved, then available or unavailable. The main theorem, `RowsPartitionSeats`,
  says the 16 rows draw the first 389 seats once each and in order, with nothing
  else drawn. It also covers a shorter array, whose rows are cut short or left
  empty.
- **Event creation** (`create_event.dfy`, module `CreateEvent`). The event
  insert, the seat fetch and the ticket insert run in that order. Each step can
  throw into the one error alert. One fresh ticket is built per fetched seat.
- `js.dfy` (module `Js`) gives the JavaScript built-ins these rely on:
  - `null` as `Option`;
  - `slice`, which clamps its bounds;
  - `charAt`;
  - `String.prototype.length`, which counts UTF-16 code units.

Back-end calls are not modelled as code. Each call's reply is a parameter of
the handler that awaits it:
- a `Resolved` reply carrying `{ data, error }`;
- or `Threw`, for a call that throws.

The handler's result records the calls it made, the one alert it shows and
where it navigates, if anywhere. The sign-up handler never reads the `error`
field of a resolved `auth.signUp` reply. So in the model, as in the code, a
resolved reply always leads to the success alert and to navigation to `/`.

## Model

| member | source | states |
|---|---|---|
| SignUp.WithField | src/pages/SignUp.jsx:16-21 | the updated record has the new value in the named field, and every other field is unchanged |
| SignUp.SignUpPage.constructor | src/pages/SignUp.jsx:10-14 | the form starts with all three fields empty |
| SignUp.SignUpPage.HandleChange | src/pages/SignUp.jsx:16-21 | the named field of `formData` now holds the event's value; the other two fields keep their old values |
| SignUp.ValidEmailIsPattern | src/pages/SignUp.jsx:84-88 | the character-level e-mail check accepts exactly the strings of the form a "@" b "." c, where a, b and c are non-empty and contain neither whitespace nor "@" |
| SignUp.PatternImpliesValidEmail | src/pages/SignUp.jsx:86 | any string built as run "@" run "." run passes the e-mail check |
| SignUp.ValidEmailImpliesPattern | src/pages/SignUp.jsx:86 | any string that passes the e-mail check splits into three such runs |
| SignUp.TwoAtSignsRejected | src/pages/SignUp.jsx:86 | a string with two "@" characters is never a valid e-mail |
| SignUp.SpecialCharsAreAsciiPunctuation | src/pages/SignUp.jsx:72 | every special character is ASCII punctuation other than "~", backtick and space, and is not a letter or digit |
| SignUp.StrongPasswordHasFourChars | src/pages/SignUp.jsx:67-80 | a strong password needs one character from each of four disjoint classes, so it has at least 4 characters |
| SignUp.ExcludedPunctuationIsNotSpecial | src/pages/SignUp.jsx:72-79 | a password made only of letters, digits, "~", backtick and space is never strong |
| SignUp.HandleSubmit | src/pages/SignUp.jsx:23-64 | an empty field gives "All fields are required." before anything else; then a bad e-mail gives its alert; then fewer than 6 UTF-16 units gives the length alert; then a weak password gives the strength alert; sign-up is called, with the form's values and age 27, if and only if every check passes; after that call, a resolved reply shows the success alert and navigates to "/", and a thrown error shows its message and stays on the page |
| SignUp.ShortStrongPasswordIsStillRejected | src/pages/SignUp.jsx:37-45 | the length guard is not redundant: "Ab1!x" is strong but shorter than 6 |
| Js.Utf16Length | src/pages/SignUp.jsx:37 | a string's `length` is at least its number of characters and at most twice that, and it equals that number when every character is in the Basic Multilingual Plane |
| Js.Slice | src/pages/SeatsLayout.jsx:27-33 | the result of `slice` has the clamped length, and its element `k` is element `start + k` of the input |
| SeatsLayout.RowBoundStep | src/pages/SeatsLayout.jsx:28-32 | the end bound of row `k` is its start bound plus the length of row `k` in the table |
| SeatsLayout.RowBoundTable | src/pages/SeatsLayout.jsx:7-9 | the 17 row bounds run 0, 24, 52, … 373, and the last is 389 |
| SeatsLayout.RowBoundMonotone | src/pages/SeatsLayout.jsx:28-32 | row bounds never decrease |
| SeatsLayout.RowSeatsAre | src/pages/SeatsLayout.jsx:27-33 | row `k` holds seat `RowBound(k) + j` at position `j`; it is full when the array reaches the row's end bound, and empty when the array ends before the row's start bound |
| SeatsLayout.RowOf | src/pages/SeatsLayout.jsx:27-33 | every seat index below 389 has a row whose bounds contain it |
| SeatsLayout.RowsAreDisjoint | src/pages/SeatsLayout.jsx:27-33 | no seat index lies in two rows |
| SeatsLayout.ShownSeatHasRow | src/pages/SeatsLayout.jsx:27-33 | every seat index below 389 lies in some row |
| SeatsLayout.HiddenSeatHasNoRow | src/pages/SeatsLayout.jsx:64-71 | no seat index of 389 or more lies in any row |
| SeatsLayout.ClassPriority | src/pages/SeatsLayout.jsx:37-47 | each of the five display classes holds exactly when its condition in the priority order holds |
| SeatsLayout.LowerFlagsIgnored | src/pages/SeatsLayout.jsx:76-86 | once a higher-priority flag decides the class, changing a lower-priority flag does not change it |
| SeatsLayout.ClassNamesDistinct | src/pages/SeatsLayout.jsx:37-47 | the five class names are distinct |
| SeatsLayout.RenderRows | src/pages/SeatsLayout.jsx:57-71 | the upper block has 11 rows keyed 0-10 and the lower block 5 rows keyed 11-15; the row at global position `k` draws exactly the seats of row `k`, and lower row `i` uses the bounds of row `i + 11` |
| SeatsLayout.RowLabels | src/pages/SeatsLayout.jsx:59-61 | rows 0-6 are labelled "A" to "G"; every later row, including the whole lower block, gets the empty label |
| SeatsLayout.OnlyRowFiveHasGap | src/pages/SeatsLayout.jsx:21 | only upper row 5 has the "horizontal-gap" class |
| SeatsLayout.CellsMatchSeats | src/pages/SeatsLayout.jsx:34-48 | cell `j` of row `k` draws seat `RowBound(k) + j`: that seat's class, and a click that dispatches that seat's own `seat_id` |
| SeatsLayout.FirstRowsArePrefix | src/pages/SeatsLayout.jsx:19-33 | the first `k` rows, concatenated, draw the seats before `RowBound(k)` in array order |
| SeatsLayout.RowsPartitionSeats | src/pages/SeatsLayout.jsx:19-71 | the 16 rows, upper block then lower, draw exactly the first min(length, 389) seats, each once, in array order |
| CreateEvent.TicketInserts | src/pages/CreateEvent.jsx:81-92 | one ticket per seat, in the same order; each has its seat's `seat_id`, the chosen hall and the new event; each starts available, unselected and unreserved, at price 10, with `bought_at`, `reserved_at` and `interaction_made_by_user` all null |
| CreateEvent.TicketsCoverSeats | src/pages/CreateEvent.jsx:81-82 | the tickets' seat ids are the fetched seats' ids in order, so distinct seats give distinct tickets |
| CreateEvent.HandleSubmit | src/pages/CreateEvent.jsx:36-109 | the event insert is always the first call; if it throws, returns an error, or returns null or empty data, nothing else is called; otherwise the hall's seats are fetched; if that throws, returns an error, or returns null or empty data, no tickets are inserted (an empty list gives "No seats found for the selected hall"); otherwise the tickets built for the first inserted event's id are inserted; the success alert and navigation to "/homepage" happen if and only if all three steps succeed; every failure shows the "Error creating event or tickets: " alert with the error's message |

## Left out

- All back-end calls (`auth.signUp`, the `event` and `tickets` inserts, the `seats` query) are foreign code. Their replies are handler parameters. The hall list fetch on page load is left out as well.
- React state storage, effects, JSX markup, CSS, `console` logging and route guards are left out. Alerts and navigation targets are kept as values in each handler's result.
- The create-event page's three controlled inputs are left out: each `onChange` stores its value in its own variable. `HandleSubmit` takes their current values as parameters. `Number(...)` is applied to a select option rendered from a hall's numeric id, so the hall is modelled as an `int`. The browser's `required` attribute stops a submit with no hall chosen.
- SignUp.HandleChange: the model's field name is one of the page's three input names. The source would also add a new key for any other name, but no other input exists.
- SignUp.IsValidEmail: the model does not run a regular-expression engine. `\s` is the fixed set of ECMAScript whitespace and line-terminator code points, and the pattern is stated directly on characters.
- SeatsLayout: both blocks share one seat-cell definition. In the source the two blocks hold identical copies of the nested conditional.
- The seat hold, reserve, expiry and purchase lifecycle is not modelled. The reservation handler of `src/pages/ReserveSeatsPage.jsx` is an empty function, and `src/pages/ReservationTimer.jsx` only displays a number.
- `src/pages/OrderDetails.jsx` is not part of this model: it is three fetches and a one-line price sum. `src/pages/Login.jsx`, `src/pages/Homepage.jsx`, `src/pages/Navbar.jsx` and `src/App.jsx` are token and navigation plumbing.

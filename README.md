# Admin dashboard page script: verified model of its logic

The repository's page script (`src/main/resources/static/app.js`) wires an
admin dashboard in the browser. Most of it is network and DOM plumbing. This
project models the parts of it that compute something, in four modules:

- `HtmlEscape` (`escape.dfy`): `escapeHtml`. A falsy guard, then five global
  single-character replacements, applied in order: `&`, `<`, `>`, `"`, `'`.
  The chain of passes is proved equal to escaping each character on its own
  (`EscapeEach`). This holds because `&` is replaced first, so the ampersands
  that later passes introduce are never escaped again. From that equality
  follow three results. The output has no raw `<`, `>`, `"` or `'`. Every
  `&` in it opens one of the five entities. Decoding the five entities
  (`Decode`) gives the input back.
- `Navigation` (`navigation.dfy`): the Home and Status buttons and the
  dashboard and status sections. Each element has one flag: `active` on the
  buttons, `active-section` on the sections. Every `add`, `remove` and
  `contains` names its class, and only the element's own class moves or reads
  its flag. The class `NavBar` holds the four flags. Its click handlers `ClickHome` and
  `ClickStatus` test the guard and then issue the four `add`/`remove` calls in
  the source's order. Each handler is proved against a pure function on the
  `Flags` value. `SwitchSection` is the page's unused helper.
- `UserList` (`user_list.dfy`): `renderUsers`. The class `UserListBody` holds
  the table body as a sequence of abstract rows. `RenderUsers` clears it. An
  empty list then gets one placeholder row. Otherwise a loop appends one row
  per user, in order. The id cell is `-` when the id is falsy. Name and email
  go through `escapeHtml`.
- `OrderItem` (`order_item.dfy`): the order-check item,
  `itemInput.value.trim() || 'something'`. JavaScript's `trim` is modelled on
  the ECMAScript white-space and line-terminator code points.

`Wrappers` (`wrappers.dfy`) holds `Option`. `None` stands for a JavaScript
`null` or `undefined`.

## Model

| member | source | states |
|---|---|---|
| `HtmlEscape.Replace` | src/main/resources/static/app.js:192 | a global single-character replace: if `rep` lacks `c`, the result has no `c`; every result character comes from the input (other than `c`) or from `rep`; every input character other than `c` survives |
| `HtmlEscape.EscapeHtml` | src/main/resources/static/app.js:189-190 | a missing (`null`/`undefined`) or empty input gives the empty string |
| `HtmlEscape.EscapePasses` | src/main/resources/static/app.js:191-196 | the five-pass chain leaves no raw `<`, `>`, `"` or `'`: each pass removes its character and no later replacement reintroduces it |
| `HtmlEscape.PassesAreEscapeEach` | src/main/resources/static/app.js:191-196 | the five passes in source order equal escaping each character on its own: each special character becomes its entity, every other character is copied, and order is kept |
| `HtmlEscape.EscapeHtmlIsPerCharacter` | src/main/resources/static/app.js:189-196 | for every string input, `escapeHtml` is the per-character escaping |
| `HtmlEscape.EscapeHtmlSafe` | src/main/resources/static/app.js:189-196 | for every input, the output has no raw `<`, `>`, `"` or `'`, and every `&` in it starts `&amp;`, `&lt;`, `&gt;`, `&quot;` or `&#039;` |
| `HtmlEscape.EscapeHtmlRoundTrip` | src/main/resources/static/app.js:191-196 | decoding the five entities in the output gives the input string back exactly |
| `HtmlEscape.EscapeHtmlInjective` | src/main/resources/static/app.js:191-196 | two strings with the same escaped form are equal |
| `HtmlEscape.EscapeHtmlPlainText` | src/main/resources/static/app.js:191-196 | a string with none of the five special characters is returned unchanged |
| `HtmlEscape.AmpersandPassLastWouldReescape` | src/main/resources/static/app.js:192-193 | the order of the passes matters: running the `&` pass after the `<` pass turns `<` into `&amp;lt;`, while `escapeHtml` gives `&lt;` |
| `Navigation.Put` | src/main/resources/static/app.js:9-12 | `classList.add`/`remove` with the element's own class name (`active` on a button, `active-section` on a section) sets or clears its flag; the other class name leaves all flags alone; the other three elements are never touched |
| `Navigation.HomeClick` | src/main/resources/static/app.js:15-22 | a Home click leaves an already-active Home button's state unchanged; otherwise it ends with Home active, Status inactive, the dashboard shown and the status section hidden, whatever the start state |
| `Navigation.StatusClick` | src/main/resources/static/app.js:24-31 | the same for the Status button, with the status section shown and the dashboard hidden |
| `Navigation.Switch` | src/main/resources/static/app.js:8-13 | `switchSection` moves `active` off the first and onto the second argument and `active-section` off the fourth and onto the third: a button passed as end button ends active, a button passed as start button ends inactive unless it is also the end button, a section passed as shown section ends shown, a section passed as hidden section ends hidden unless it is also the shown one, and any element not passed in a role of its own kind keeps its flag |
| `Navigation.SwitchKeepsClassesApart` | src/main/resources/static/app.js:8-13 | two calls that pass elements in roles of the other kind: removing `active-section` from the Home button leaves the `active` just added to it, and a section passed as the start button stays shown |
| `Navigation.ActiveButtonClickIsNoOp` | src/main/resources/static/app.js:15-31 | clicking the button that is already active changes none of the four flags |
| `Navigation.ClicksKeepOneActive` | src/main/resources/static/app.js:15-31 | from a state with exactly one button active and only its section shown, Home leads to the Home view and Status to the Status view, so both clicks keep that invariant |
| `Navigation.ClicksIdempotent` | src/main/resources/static/app.js:15-31 | a second click on the same button changes nothing |
| `Navigation.SwitchMatchesHandlers` | src/main/resources/static/app.js:8-31 | `switchSection(btnStatus, btnHome, dashboard, status)` does what the Home handler does when Home is inactive, and symmetrically for Status |
| `Navigation.NavBar.constructor` | src/main/resources/static/app.js:3-6 | the four flags start as the page markup sets them |
| `Navigation.NavBar.Set` | src/main/resources/static/app.js:16-20 | one `classList.add`/`remove` updates the four fields as `Put` does, and afterwards `classList.contains` (`Has`) with the element's own class name reports what that call set |
| `Navigation.NavBar.ClickHome` | src/main/resources/static/app.js:15-22 | the handler's `contains('active')` guard (`Has`) and four flag updates leave the fields equal to `HomeClick` of the old fields; from a valid state it ends in the Home view |
| `Navigation.NavBar.ClickStatus` | src/main/resources/static/app.js:24-31 | the handler's `contains('active')` guard (`Has`) and four flag updates leave the fields equal to `StatusClick` of the old fields; from a valid state it ends in the Status view |
| `Navigation.NavBar.SwitchSection` | src/main/resources/static/app.js:8-13 | the four calls leave the fields equal to `Switch` of the old fields |
| `UserList.IdCellFor` | src/main/resources/static/app.js:75 | the id cell is `-` exactly when the id is missing or 0, and otherwise shows the id |
| `UserList.RowFor` | src/main/resources/static/app.js:73-81 | a user's row has an id cell that is `-` exactly when the id is missing or 0 and otherwise shows the user's own id, and name and email cells free of raw markup characters, with only entity-leading ampersands, that decode back to the user's name and email |
| `UserList.CellRoundTrip` | src/main/resources/static/app.js:77-79 | an escaped cell decodes back to its field, or to the empty string when the field is missing |
| `UserList.Rendered` | src/main/resources/static/app.js:65-84 | an empty list renders as exactly one placeholder row; otherwise there is one row per user, in input order, and no placeholder |
| `UserList.RenderedCellsSafe` | src/main/resources/static/app.js:75-79 | every rendered user row has name and email cells with no raw markup characters and only entity-leading ampersands, and they decode back to the user's name and email (empty when missing) |
| `UserList.UserListBody.RenderUsers` | src/main/resources/static/app.js:65-84 | after the call the table body is exactly `Rendered(users)`, so nothing from a previous render remains |
| `OrderItem.LeadingCount` | src/main/resources/static/app.js:175 | the number of leading white-space characters: all of them are white space, and the next character is not |
| `OrderItem.TrailingCount` | src/main/resources/static/app.js:175 | the number of trailing white-space characters: all of them are white space, and the character before them is not |
| `OrderItem.Trim` | src/main/resources/static/app.js:175 | the trimmed string is no longer than the input and does not start or end with white space |
| `OrderItem.TrimIsSlice` | src/main/resources/static/app.js:175 | the trimmed string is a contiguous slice of the input, with only white space cut off on either side |
| `OrderItem.TrimEmptyIff` | src/main/resources/static/app.js:175 | the input trims to the empty string exactly when it is all white space |
| `OrderItem.TrimIdempotent` | src/main/resources/static/app.js:175 | trimming twice is the same as trimming once |
| `OrderItem.OrderItemFor` | src/main/resources/static/app.js:175 | the order item is never empty |
| `OrderItem.OrderItemDefault` | src/main/resources/static/app.js:175 | the item is `something` when the input is all white space, and the non-empty trimmed input otherwise |

## Left out

- Every `fetch` call, the `response.ok` checks and the `json()`/`text()` handling. This covers the async load, submit, refresh, health-check and order-check flows (app.js:44-63, 87-133, 142-186). These are network I/O against endpoints outside the repository.
- `showToast` and its timer and transition-end removal (app.js:199-220). These are timers and CSS animation.
- Markup strings, inline styles, element lookups and `console.error`. Rows and flags are modelled abstractly, as cells and booleans, not as HTML text.
- `encodeURIComponent` and `JSON.stringify` (app.js:180, 110). These are platform library calls.
- `escapeHtml` on truthy non-string inputs such as numbers. There `.replace` throws. The model takes a string or a missing value only.
- `escapeHtml` on falsy non-strings (`0`, `false`, `NaN`), which return `''` in the source. They are outside the model's input type, as above.
- JavaScript strings are sequences of UTF-16 code units; the model's strings are sequences of Unicode scalar values, so lone surrogates cannot be represented. Escaping and trimming treat the characters they look at the same way in both.
- Navigation.Switch: class names an element's flag does not record (`active` added to a section, `active-section` added to a button) are not kept, so `NavBar.Has` reads them as absent. Only cross-role calls of the never-called `switchSection` could add them, and the page never reads them.
- UserList.IdCellFor: ids are modelled as integers, so the other falsy numbers, `NaN` and `-0`, are not represented.
- Navigation.NavBar.constructor: the page markup that sets the initial flags is not part of this model, so the constructor takes them as a parameter.
- The escaped cells are decoded by `HtmlEscape.Decode`, which reads the five entities back. It stands in for the browser's entity decoding, which is not part of this model.

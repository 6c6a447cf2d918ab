# DorkGen — a Dafny model of the dork builder, its store and its client

DorkGen builds Google "dork" queries for a domain. The model covers three parts of it.

- **Go backend.** `buildDorkQuery` starts from `site:<domain>`. It adds the keywords, then one fixed fragment of search operators per recognised token, category by category. The search URL is built from the query without encoding. `getCategories` serves the token catalogue. An in-memory store keeps the saved dorks under an increasing ID counter.
- **React client state.** This is the form (`handleInputChange`, `handleArrayChange`, the comma-separated keyword field) and the handlers `generateDork`, `saveDork`, `deleteDork`, `loadDork` and `toggleDarkMode`. It also covers the mount effect.
- **JavaScript string built-ins.** `join`, `split` and `trim`, which the keyword field relies on.

Modules:

- `Text` (`text.dfy`): `Join`, `Split` on a one-character separator, and `Trim`, each with its laws.
- `DorkQuery` (`dork_query.dfy`):
  - The request record and the catalogue.
  - The five `switch` statements, as label/fragment tables.
  - The specification function `Query` and the imperative `BuildDorkQuery`, proved equal to it.
  - Properties of the query.
- `DorkStore` (`dork_store.dfy`):
  - The `Store` class, with `dorks`, `nextID` and the methods that update them.
  - The status codes of the save and delete handlers.
- `Form` (`form.dfy`): the `formData` record and its pure updaters. Also the keyword field's show/parse pair.
- `Session` (`session.dfy`): the component's state hooks as a `Client` class whose methods are the handlers. A request that reaches the server runs against a `DorkStore.Store`.

Two facts about the code that the model keeps:

- The backend does not reject an empty query or name. `saveDork` answers 201 for every body that binds (backend/main.go:235-243). Only the client refuses an empty query or an empty or cancelled name (frontend/src/App.js:100-106).
- The backend's search URL is the prefix followed by the raw query, with no percent-encoding (backend/main.go:119). Only the client's `loadDork` encodes the query (frontend/src/App.js:135). See `DorkQuery.UrlIsUnencoded` and `Session.LoadedUrlMatchesBackend`.

## Model

| member | source | states |
|---|---|---|
| DorkQuery.Lookup | backend/main.go:141-158 | A `switch` without `default` appends either nothing or text that begins with one space. |
| DorkQuery.AppendKeywords | backend/main.go:133-137 | The keyword loop appends " " + keyword for each keyword, in order (`Spaced`). |
| DorkQuery.AppendCategory | backend/main.go:140-159 | One category loop appends, for each token in order, the text of the first matching `case`, or nothing. |
| DorkQuery.BuildDorkQuery | backend/main.go:129-228 | The query is "site:" + domain, then the keyword section, then the fragments of fileTypes, vulnerability, cms, auth and errors, in that order (`Query`). |
| DorkQuery.QueryStartsWithSite | backend/main.go:129-137 | `site:<domain>` and the keyword section are prefixes of the query. With every list empty the query is exactly `site:<domain>`. |
| DorkQuery.SpacedIsSpaceJoin | backend/main.go:133-137 | The keyword section is empty, or one space followed by the keywords joined by single spaces. |
| DorkQuery.FragmentsConcat | backend/main.go:140-159 | A category's text for two token lists end to end is the two texts in order. |
| DorkQuery.Labels | backend/main.go:141-158 | The list of `case` labels, one per table row, in order. |
| DorkQuery.LookupFindsLabels | backend/main.go:141-158 | A token gets text if and only if it is one of the switch's `case` labels. |
| DorkQuery.CatalogueIsSwitchLabels | backend/main.go:264-274 | Each category list served by `getCategories` is exactly the `case` labels of the builder's switch for it, in the same order. |
| DorkQuery.FileTypeLabels | backend/main.go:266 | The file-type list equals the labels of the file-type switch. |
| DorkQuery.VulnerabilityLabels | backend/main.go:267 | The vulnerability list equals the labels of the vulnerability switch. |
| DorkQuery.CmsLabels | backend/main.go:268 | The CMS list equals the labels of the CMS switch. |
| DorkQuery.AuthLabels | backend/main.go:269 | The auth list equals the labels of the auth switch. |
| DorkQuery.ErrorLabels | backend/main.go:270 | The error list equals the labels of the error switch. |
| DorkQuery.CatalogueCoverage | backend/main.go:264-274 | A token has a non-empty fragment if and only if the catalogue lists it. Every fragment starts with a space. |
| DorkQuery.UnmatchedTokenIgnored | backend/main.go:140-159 | A token no label matches can be removed from anywhere in the list without changing the category's text. |
| DorkQuery.UnknownTokenIgnored | backend/main.go:140-225 | A token outside the catalogue contributes nothing to its category, wherever it stands. |
| DorkQuery.RepeatedToken | backend/main.go:140-159 | A token repeated n times contributes exactly n copies of its fragment, one after another (duplicates are not removed). |
| DorkQuery.WithToken | backend/main.go:140-225 | Adding a token to one category's list leaves the domain, keywords and other categories unchanged. |
| DorkQuery.CatalogueTokenLengthensQuery | backend/main.go:264-274 | Selecting one more catalogue token lengthens the query by exactly that token's non-empty fragment. |
| DorkQuery.UrlIsUnencoded | backend/main.go:118-119 | The URL is the search prefix followed by the query character for character, so a space in the query stays a space. |
| DorkStore.IndexOf | backend/main.go:101-106 | The range loop stops at the first record with the ID. It finds none if and only if no record carries the ID. |
| DorkStore.WithoutId | backend/main.go:97-108 | Reference filter: what remains holds no record with the ID and only records of the input. |
| DorkStore.WithoutAbsentId | backend/main.go:97-108 | Filtering out an ID no record carries changes nothing. |
| DorkStore.RemoveIsFilter | backend/main.go:97-108 | With IDs increasing, cutting out the first match is the same as filtering out every record with that ID, others kept in order. |
| DorkStore.CutKeepsInvariant | backend/main.go:103 | Cutting one record out keeps IDs strictly increasing and below the counter. |
| DorkStore.RemoveKeepsInvariant | backend/main.go:97-108 | Deleting keeps the store invariant: IDs strictly increasing, each in 1 .. nextID-1. |
| DorkStore.RemovedIdIsGone | backend/main.go:97-108 | After a delete the ID is absent, so a second delete reports not found. The length drops by one exactly when the ID was present. |
| DorkStore.Store.constructor | backend/main.go:35-39 | The store starts with no dorks and `nextID` = 1. |
| DorkStore.Store.AddDork | backend/main.go:78-86 | The record gets the counter's value as its ID, whatever ID it came with. The ID is fresh, the counter goes up by one, the record is appended at the end, and the invariant holds. |
| DorkStore.Store.GetAllDorks | backend/main.go:88-95 | Returns the stored records, in order with increasing IDs. Nothing changes. |
| DorkStore.Store.DeleteDorkByID | backend/main.go:97-108 | Reports true if and only if the ID was stored. It removes the first matching record (`Remove`) and leaves the ID absent and the counter untouched. |
| DorkStore.SaveHandler | backend/main.go:235-244 | A bound body is stored through `addDork`, and the answer is 201 with the stored record. |
| DorkStore.DeleteHandler | backend/main.go:246-262 | A parsed ID answers 200 when it was stored and 404 otherwise. The store afterwards is `Remove` of the old one. |
| Form.HandleInputChange | frontend/src/App.js:55-60 | The named field holds the new value, and every other field is unchanged. |
| Form.WithoutRemovesAll | frontend/src/App.js:67 | The filter removes every occurrence of the value and keeps every other item with its multiplicity. |
| Form.WithoutConcat | frontend/src/App.js:67 | The filter works on each part of a list separately, so the remaining items keep their order. |
| Form.WithoutAbsent | frontend/src/App.js:67 | A list without the value passes the filter unchanged. |
| Form.HandleArrayChange | frontend/src/App.js:62-69 | Ticking appends the value, even a duplicate. Unticking leaves the list filtered by `item !== value` (`Without`), so every occurrence goes, the rest keep their multiplicity and order. Other fields are unchanged. |
| Form.CheckThenUncheck | frontend/src/App.js:62-69 | Ticking and then unticking a clear box restores the form exactly. |
| Form.CleanedPiecesAreGood | frontend/src/App.js:237 | Trimming comma-free pieces and dropping the empty ones leaves only non-empty, trimmed, comma-free keywords. |
| Form.ParsedKeywordsAreGood | frontend/src/App.js:237 | Every keyword parsed from the field is non-empty, trimmed and comma-free. |
| Form.TrimAllConcat | frontend/src/App.js:237 | `map(trim)` works item by item over concatenation. |
| Form.DropEmptyConcat | frontend/src/App.js:237 | `filter(k => k)` keeps the order of what remains, over concatenation. |
| Form.ParseConcat | frontend/src/App.js:237 | Parsing `a,b` gives the keywords of `a` followed by those of `b`. |
| Form.ParseLeadingSpace | frontend/src/App.js:237 | A leading space does not change the parsed keywords. |
| Form.ParseEmpty | frontend/src/App.js:237 | An empty field stores no keywords. |
| Form.ParseSingle | frontend/src/App.js:237 | A single good keyword parses to itself. |
| Form.ShowParseRoundTrip | frontend/src/App.js:236-237 | Parsing what the field shows (`join(', ')`) gives the keywords back if and only if every keyword is non-empty, trimmed and comma-free. |
| Form.ShowThenParse | frontend/src/App.js:236-237 | Good keywords survive being shown and parsed back. |
| Text.TrimStartCutsSpace | frontend/src/App.js:237 | The leading-whitespace cut removes a whitespace prefix and stops at a non-space or at the end. |
| Text.TrimEndCutsSpace | frontend/src/App.js:237 | The trailing-whitespace cut removes a whitespace suffix and stops at a non-space or at the start. |
| Text.TrimSpec | frontend/src/App.js:237 | `trim()` returns a slice of its input with no whitespace at either end and only whitespace cut around it. |
| Text.TrimSubset | frontend/src/App.js:237 | Every character of a trimmed string is in the input. |
| Text.TrimTrimmed | frontend/src/App.js:237 | A string with no whitespace at either end is its own trim. |
| Text.TrimLeadingSpace | frontend/src/App.js:237 | Leading whitespace never changes the trim. |
| Text.Find | frontend/src/App.js:237 | Returns the position of the first separator, or the length of the string when there is none. |
| Text.Split | frontend/src/App.js:237 | `split` always returns at least one piece. |
| Text.SplitPiecesLackSeparator | frontend/src/App.js:237 | No piece returned by `split` contains the separator. |
| Text.SplitNoSeparator | frontend/src/App.js:237 | A string without the separator splits into itself alone. |
| Text.SplitAt | frontend/src/App.js:237 | Splitting at the first separator gives the piece before it, then the split of the rest. |
| Text.SplitFirst | frontend/src/App.js:237 | With a separator-free front, the front is the first piece. |
| Text.SplitConcat | frontend/src/App.js:237 | Splitting `a + sep + b` gives the pieces of `a` followed by the pieces of `b`. |
| Text.SplitPrepend | frontend/src/App.js:237 | A non-separator in front joins the first piece. |
| Text.JoinSplit | frontend/src/App.js:236-237 | Joining the pieces of a split with the separator gives the original string back. |
| Text.SplitJoin | frontend/src/App.js:236-237 | Splitting a join of one or more separator-free items gives the items back. |
| Text.JoinSnoc | frontend/src/App.js:236 | Joining one more item appends the separator and that item. |
| Session.ToRequest | frontend/src/App.js:79 | The posted body carries the form field for field: domain, keywords and each category list. |
| Session.FieldOf | frontend/src/App.js:246-250 | Each category's checkboxes write a list field, never the domain or keywords. |
| Session.TickedBoxReachesRequest | frontend/src/App.js:62-69 | Ticking a box adds that token to the posted request in its category and nowhere else. |
| Session.TickedCatalogueBoxLengthensQuery | frontend/src/App.js:62-69 | Ticking any offered box makes the next generated query strictly longer. |
| Session.LoadedUrlMatchesBackend | frontend/src/App.js:133-137 | A loaded dork's URL matches the backend's URL for the same query if and only if encoding leaves the query unchanged. |
| Session.Client.constructor | frontend/src/App.js:9-26 | Initial state: empty form, no query, URL, dorks or message, not loading, light mode. |
| Session.Client.Mount | frontend/src/App.js:28-35 | On mount the saved dorks are loaded, and dark mode is on if and only if the stored text is "true". |
| Session.Client.InputChange | frontend/src/App.js:55-60 | The form becomes `HandleInputChange` of the old form. Nothing else changes. |
| Session.Client.ArrayChange | frontend/src/App.js:62-69 | The form becomes `HandleArrayChange` of the old form. Nothing else changes. |
| Session.Client.KeywordInput | frontend/src/App.js:237 | Typing sets only the keywords, to the parsed input. Every stored keyword is non-empty, trimmed and comma-free. |
| Session.Client.GenerateDork | frontend/src/App.js:71-88 | A domain that trims to nothing only sets the "no domain" message. Otherwise the request is made. On success the query is the backend's `Query` of the form, the URL is its unencoded search URL, and the success message is set. On failure the message is the prefix plus the error, and the old query and URL stay. `loading` is false afterwards. |
| Session.Client.SaveDork | frontend/src/App.js:99-119 | An empty trimmed query only sets its message. A cancelled or empty name stops silently. Otherwise on success the store gains the record with the next ID, "Domain: " + domain as description, the list refreshed and the success message set. On failure the store and list are unchanged and the error message is set. |
| Session.Client.DeleteDork | frontend/src/App.js:121-131 | Nothing happens without confirmation. A stored ID is removed, the list refreshed and the success message set. A missing ID gives a 404, so the failure message carries axios's status text. A network failure changes nothing but the message. |
| Session.Client.LoadDork | frontend/src/App.js:133-137 | The saved query becomes the generated query, the URL is the prefix plus the encoded query, and the "loaded" message is set. |
| Session.Client.ToggleDarkMode | frontend/src/App.js:139-143 | The flag flips and the stored text is "true" or "false" for its new value. |

## Left out

- The read-write mutex around the store is not modelled. Each store operation runs alone, one after another.
- Gin routing, CORS, the port and the JSON binding are not modelled. A body or ID that fails to bind gets a 400, which the handlers' models do not cover: they start once binding has succeeded. `fmt.Sscanf` is not modelled either.
- `DorkStore.Store.AddDork`: `nextID` is an unbounded integer here. Go's `int` wrap-around after 2^63-1 saves is not modelled.
- `getSavedDorks` and `getAllDorks` are modelled as returning `dorks` directly. The copy into a new slice has no observable effect in a value model.
- The network (axios) is an input: each request reaches the modelled backend or fails with a reason. Responses are not delayed or reordered.
- `Session.Client.SaveDork` and `Session.Client.DeleteDork` refresh the list synchronously. `fetchSavedDorks` is not awaited in the source, so its result can arrive after the message is set.
- `fetchSavedDorks` and `fetchCategories` failures are not modelled. `Session.Client.Mount` assumes the fetch succeeds.
- The `categories` state and the checkbox rendering are not modelled; the offered tokens are the backend catalogue. `showAdvanced` and the rest of the rendering are not modelled either.
- `copyToClipboard` and `openInGoogle` (clipboard and `window.open`) are not modelled.
- `localStorage` is an input and an output. `prompt` and `confirm` answers are inputs.
- `encodeURIComponent` is a function parameter of `LoadDork`, so no property of percent-encoding is used.
- The `loading` flag's effect of disabling the generate button is not modelled. Only its value before and after a call is.
- `Text.Trim` strips only the ASCII space, tab, line feed, carriage return, vertical tab and form feed. JavaScript's `trim` also strips the other Unicode space and line-terminator code points.

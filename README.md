# Random user profile showcase: the profile pipeline in Dafny

This project models the client-side pipeline of a browser demo that shows
24 randomly generated user profiles as cards. A visitor can filter the cards
by gender, age range and country, open a profile in a dialog and download
it as a JSON file. The model covers these parts:

- **Profile generation** (`FakeUsers`). A profile is assembled from the
  values the fake-data library hands out. Those values are an abstract
  `FakerDraw`, and a batch is 24 calls fed from a stream of draws.
  Every generated profile has `fullName == firstName + " " + lastName`,
  a capitalised gender that lower-cases to `male` or `female`, and an age in
  18..80.
- **Filter engine** (`UserFilter`). This is `filteredUsers`: the callback with
  its three early rejections, and the order-preserving `filter` over the
  batch.
- **Country vocabulary** (`CountryList`, using `JsArrays`). The sentinel
  `"any"` comes first. After it come the batch's countries, deduplicated as
  by a `Set` and sorted as by the default `sort()`.
- **Filter state** (`FakeUsers.MergeFilters`). This is the shallow record
  spread used by `updateFilters`, plus the defaults that the initial state
  and the reset button use.
- **Hook state** (`UseFakeUsers.UserStore`). This class holds `allUsers` and
  `filters`, changed by `generateNewUsers` and `updateFilters`.
- **Page controller** (`IndexPage.Page`). This class holds the modal fields
  `selectedUser` and `isModalOpen` together with the open, close and reset
  handlers, the regenerate button, the dialog's `onOpenChange` rule, and
  the card grid with its "no profiles match" branch.
- **Download file name** (`ProfileModal`). This is
  `fullName.replace(/\s+/g, "_") + "_profile.json"`, compared against a
  position-by-position reference reading.

JavaScript built-ins that the code relies on are written out in `JsStrings`
and `JsArrays`: ASCII case mapping, the `\s` character class, `Set`
deduplication and the default string sort.

Three details of the code are easy to misread:

- The sentinel is not deduplicated against the tail, so a country literally
  named "any" appears twice (`CountryList.SentinelNotDeduplicated`).
- The gender check lower-cases the profile's gender before comparing
  (`UserFilter.KeepUser`).
- Regeneration has no error path: `generateNewUsers` always replaces the
  batch (`UseFakeUsers.UserStore.GenerateNewUsers`).

## Model

| member | source | states |
|---|---|---|
| FakeUsers.GenerateFakeUser | src/hooks/useFakeUsers.ts:33-58 | The profile built from one draw is well-formed: the full name is first + " " + last, the gender lower-cases to the drawn sex, the age lies in 18..80. Id, country and age are the drawn ones, and the password has 12 characters. |
| FakeUsers.GeneratedMeasuresReadBack | src/hooks/useFakeUsers.ts:50-51 | The height reads back as the drawn centimetres before " cm", and the weight as the drawn kilograms before " kg". |
| FakeUsers.GenerateBatch | src/hooks/useFakeUsers.ts:61-62 | A batch has exactly 24 profiles, all well-formed, and the i-th is built from the i-th draw. |
| FakeUsers.MergeFilters | src/hooks/useFakeUsers.ts:95-97 | Each field present in the partial record replaces the old one; each absent field keeps its old value. |
| FakeUsers.MergeNothingKeeps | src/hooks/useFakeUsers.ts:95-97 | Merging an empty partial record changes nothing. |
| FakeUsers.MergeWholeReplaces | src/pages/Index.tsx:23-29 | Merging a complete record gives exactly that record, whatever the previous filters were. |
| FakeUsers.MergeIsIdempotent | src/hooks/useFakeUsers.ts:95-97 | Applying the same partial update twice equals applying it once. |
| FakeUsers.MergeComposes | src/hooks/useFakeUsers.ts:95-97 | Two updates in a row equal one update with their fields combined, where the later update wins. |
| UserFilter.KeepUser | src/hooks/useFakeUsers.ts:77-88 | The callback keeps a profile iff all three checks pass. Gender: "any", or the lower-cased gender equals the choice. Age: inside the inclusive range. Country: "any", or exactly equal. |
| UserFilter.FilterUsers | src/hooks/useFakeUsers.ts:76-89 | The result is no longer than the batch, and every kept profile passes the callback. |
| UserFilter.FilterIsSubsequence | src/hooks/useFakeUsers.ts:76-77 | The filtered list is an order-preserving subsequence of the batch. |
| UserFilter.FilterMembership | src/hooks/useFakeUsers.ts:77-88 | Soundness and completeness: a profile is in the result iff it is in the batch and passes all three checks. |
| UserFilter.FilterMultiplicity | src/hooks/useFakeUsers.ts:77-88 | Every copy of a passing profile is kept and every copy of a failing profile is dropped. |
| UserFilter.FilterIsIdempotent | src/hooks/useFakeUsers.ts:76-89 | Filtering the filtered list again with the same filters returns it unchanged. |
| UserFilter.FilterKeepsAllWhenAllPass | src/hooks/useFakeUsers.ts:76-89 | If every profile passes, the result is the whole batch in its order. |
| UserFilter.FilterDropsAllWhenNonePass | src/hooks/useFakeUsers.ts:76-89 | If no profile passes, the result is empty. |
| UserFilter.DefaultFiltersKeepEveryProfile | src/hooks/useFakeUsers.ts:65-69 | With the default filters {any, [18,80], any}, a list of well-formed profiles is returned unchanged. |
| UserFilter.InvertedAgeRangeKeepsNobody | src/hooks/useFakeUsers.ts:81 | An age range whose low end exceeds its high end yields the empty list. |
| UserFilter.GenderCheckSelectsDrawnSex | src/hooks/useFakeUsers.ts:78 | On a generated profile, the gender check passes iff the choice is "any" or the drawn sex. |
| JsArrays.Distinct | src/hooks/useFakeUsers.ts:72 | Set deduplication yields a duplicate-free list with exactly the input's elements, and it is never longer than the input. |
| JsArrays.Sort | src/hooks/useFakeUsers.ts:73 | The sort yields a permutation of its input. |
| JsArrays.SortIsStrictlyIncreasing | src/hooks/useFakeUsers.ts:73 | Sorting a duplicate-free list yields a strictly increasing list in lexicographic order. |
| JsArrays.StrictEnumerationIsUnique | src/hooks/useFakeUsers.ts:73 | Two strictly increasing lists with the same elements are equal, so the sorted list is determined by its set. |
| CountryList.Countries | src/hooks/useFakeUsers.ts:71-74 | The country list starts with the sentinel "any". |
| CountryList.CountriesAfterSentinel | src/hooks/useFakeUsers.ts:71-74 | After the sentinel, the list is strictly increasing and has no duplicates. As a set it equals the batch's countries, and it has at most one entry per profile. |
| CountryList.CountriesAreTheSortedCountrySet | src/hooks/useFakeUsers.ts:71-74 | The country list is "any" followed by the one strictly increasing enumeration of the batch's countries. |
| CountryList.SentinelNotDeduplicated | src/hooks/useFakeUsers.ts:73 | If some profile's country is literally "any", the list holds "any" twice. |
| CountryList.UnlistedCountryMatchesNobody | src/hooks/useFakeUsers.ts:84 | A chosen country that is not "any" and not in the list matches no profile. |
| CountryList.KeptCountriesAreListed | src/hooks/useFakeUsers.ts:71-89 | Every profile the filter keeps has a country offered by the list. |
| JsStrings.DecimalRoundTrip | src/hooks/useFakeUsers.ts:50-51 | The decimal digits that `${n}` renders read back as n. |
| JsStrings.LowerOfCapitalized | src/hooks/useFakeUsers.ts:48 | Lower-casing the capitalised sex gives the sex back, so the gender check can compare with "male" or "female". |
| UseFakeUsers.UserStore.constructor | src/hooks/useFakeUsers.ts:61-69 | The initial state is a fresh 24-profile batch with the default filters. |
| UseFakeUsers.UserStore.Users | src/hooks/useFakeUsers.ts:76-89 | The derived list holds exactly the batch's profiles that pass the current filters. Under the default filters it is the whole batch. |
| UseFakeUsers.UserStore.CountryOptions | src/hooks/useFakeUsers.ts:71-74 | The derived country list is "any" followed by a strictly increasing list of exactly the batch's countries. |
| UseFakeUsers.UserStore.GenerateNewUsers | src/hooks/useFakeUsers.ts:91-93 | The batch is replaced by a new 24-profile batch, and the filters are unchanged. |
| UseFakeUsers.UserStore.UpdateFilters | src/hooks/useFakeUsers.ts:95-97 | Exactly the fields present in the update are replaced, the others are kept, and the batch is unchanged. |
| ProfileModal.ReplaceWhitespaceRuns | src/components/ProfileModal.tsx:40 | The replaced name contains no whitespace and is no longer than the input. |
| ProfileModal.DownloadFileName | src/components/ProfileModal.tsx:40 | The file name ends with "_profile.json", and the part before it contains no whitespace. |
| ProfileModal.ReplaceMatchesPieces | src/components/ProfileModal.tsx:40 | The scanner equals the position-by-position reading on every string. A non-whitespace character is kept, the first character of each whitespace run becomes "_", and the rest of the run is dropped. |
| ProfileModal.ReplaceKeepsWhitespaceFree | src/components/ProfileModal.tsx:40 | A name without whitespace is left unchanged. |
| ProfileModal.ReplaceIsIdempotent | src/components/ProfileModal.tsx:40 | Applying the replacement to its own output changes nothing. |
| ProfileModal.WordRunRest | src/components/ProfileModal.tsx:40 | In a word, then a whitespace run, then the rest, the word is kept and the whole run becomes one "_". |
| ProfileModal.FileNameOfTwoWordName | src/components/ProfileModal.tsx:40 | For whitespace-free first and last names, the file name of "first last" is first_last_profile.json, so "Ana Lima" gives Ana_Lima_profile.json. |
| IndexPage.RenderGrid | src/pages/Index.tsx:59-73 | The "no profiles match" message is shown iff the filtered list is empty. Otherwise there is one card per profile, in order, keyed by its id. |
| IndexPage.Page.constructor | src/pages/Index.tsx:9-11 | The page starts with a fresh batch, the default filters, no selected profile and the modal closed. |
| IndexPage.Page.Grid | src/pages/Index.tsx:59-73 | The page shows the no-match message iff the filtered list is empty. Under the default filters it shows all 24 cards. |
| IndexPage.Page.HandleOpenModal | src/pages/Index.tsx:13-16 | The clicked profile becomes the selected one and the modal opens. The batch and the filters are untouched. |
| IndexPage.Page.HandleCloseModal | src/pages/Index.tsx:18-21 | The modal closes and the selection is cleared. The batch and the filters are untouched. |
| IndexPage.Page.HandleDialogOpenChange | src/components/ProfileModal.tsx:47 | The dialog's open-change calls onClose, closing the modal, only when it reports closed. On open nothing changes. |
| IndexPage.Page.HandleResetFilters | src/pages/Index.tsx:23-29 | The filters become exactly {any, [18,80], any} whatever they were, so every profile of the batch is shown. The batch and the modal are unchanged. |
| IndexPage.Page.HandleGenerateNewUsers | src/pages/Index.tsx:42-48 | The button replaces the batch and changes neither the filters nor the modal state. |
| IndexPage.Page.HandleFiltersChange | src/pages/Index.tsx:51-56 | A filter change merges into the filters and leaves the batch and the modal untouched. |
| IndexPage.OpenThenClose | src/pages/Index.tsx:13-21 | Opening a card and then closing the dialog leaves the modal closed, with the batch and the filters as they were. |

`Page.Valid()` is the controller's invariant, `isModalOpen <==> selectedUser != null`. The constructor establishes it, and every handler keeps it.

## Left out

- The fake-data library (src/hooks/useFakeUsers.ts:33-57). Its answers are the abstract `FakerDraw`. Only the ranges and lengths the code requests of it are assumed: age 18..80, height 150..200, weight 45..120, a 12-character password. Uniqueness of the uuids is the library's promise and is not modelled.
- `JSON.stringify`, `Blob`, `URL.createObjectURL`, the anchor click and `revokeObjectURL` in `handleDownloadJson` are browser I/O. Only the file name is modelled.
- ProfileModal's `if (!user) return null`, the dialog layout, the profile fields and the copy buttons are rendering and are not modelled.
- src/components/BackgroundWords.tsx is a canvas animation driven by `requestAnimationFrame` and `Math.random`. It shares no state with the pipeline.
- src/components/CopyButton.tsx is the asynchronous clipboard API with timers and toasts.
- src/components/ProfileCard.tsx only forwards a click with its profile. `HandleOpenModal` takes that profile as its argument.
- src/components/Filters.tsx is widget wiring. Its slider bounds 18..80 only constrain input, so the model accepts any age range and proves what an inverted range does.
- React scheduling, memoisation and batching of `setState` are not modelled. A handler's two state updates are applied in sequence, which gives the same final state.
- JsStrings.ToLower: `toLowerCase` and `toUpperCase` are modelled for ASCII letters only. The source applies them only to "male" and "female".
- JsStrings.IsJsWhitespace: this stands in for `\s`. It lists the ECMAScript WhiteSpace and LineTerminator code points for the Unicode space separators of current Unicode versions. An engine with other Unicode data could differ.
- JsArrays.Below: the default `sort()` compares UTF-16 code units, and the model compares characters (code points). The two orders differ only for characters outside the Basic Multilingual Plane.
- FakeUsers.MergeFilters: a partial record is modelled with each field present or absent. A field explicitly set to `undefined` would overwrite the old value in JavaScript, but no caller passes one.

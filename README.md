# Careers submission and admin review, modelled in Dafny

The site has two pages with real logic in them.

- The careers page (`src/pages/Careers.jsx`) holds an application form. On submit it checks the phone number against `^\+?[\d\s-]{10,15}$`, then checks that a file was chosen. It then derives a storage key `timestamp_cleanedName.ext`, uploads the résumé to the `resumes` bucket, resolves the public URL of that key and inserts one row into the `applicants` table. On success it clears the form. Upload and insert failures are shown with the prefixes `Upload Error: ` and `Database Error: `, and the busy flag is cleared on every path past validation.
- The admin dashboard (`src/pages/AdminPanel.jsx`) keeps the selected tab (`applicants` or `contacts`), the fetched rows and a loading flag. It fetches the selected table (all columns, newest first) on mount and whenever the tab changes. It shows a spinner, a "No Records Found" placeholder, or one table row and one card per record, with columns that depend on the tab.

The hosted database and storage client is not modelled as behaviour. Each call's reply is a parameter of type `Common.Reply` (`Ok(value)` or `Err(message)`). The storage service's public-URL mapping is a function parameter, and the clock reading is a `nat` parameter. Each operation returns its externally visible effects as a trace of steps, in order: busy-flag changes, backend calls, alerts and logged errors.

Files:
- `common.dfy`: `Option` and `Reply`.
- `phone.dfy`: the regular expression as a matcher, and its characterisation.
- `storage_key.dfy`: `split('.').pop()`, `replace(/\s+/g, '_')`, the decimal timestamp and the key.
- `careers.dfy`: the form state as a class, with its handlers.
- `admin_view.dfy`: the pure choice of what the dashboard shows.
- `admin_panel.dfy`: the dashboard state as a class, with the fetch and the tab buttons.

Observations from the model:
- The alert shown for a rejected phone asks for "at least 10 digits", and the comment beside the pattern speaks of digits. The pattern itself counts characters of the class digit/whitespace/hyphen. So ten hyphens are accepted (`Phone.HyphensOnlyAccepted`). The model follows the pattern.
- The table and the cards test the tab differently. The table tests `activeTab === 'applicants'`, while the card's last element tests `activeTab === 'contacts'`. They agree only because the tab is always one of the two values (`Admin.AdminPanel.Valid`, `AdminView.Card`). For any other value they would disagree (`AdminView.OtherTabDisagrees`).
- After an upload or database error the code keeps the chosen file as well as the typed fields, so the file need not be reselected. It applies every fetch reply without checking whether the tab has changed since.

## Model

| member | source | states |
|---|---|---|
| Phone.MatchRepeat | src/pages/Careers.jsx:38 | `[\d\s-]{lo,hi}$` matches a string exactly when its length is between the bounds and every character is a digit, whitespace or hyphen |
| Phone.PhoneRegexTest | src/pages/Careers.jsx:38-40 | the phone test accepts exactly an optional leading `+` followed by 10 to 15 digit/whitespace/hyphen characters |
| Phone.HyphensOnlyAccepted | src/pages/Careers.jsx:37-43 | ten to fifteen hyphens pass the check although the alert asks for ten digits |
| Phone.DoublePlusRejected | src/pages/Careers.jsx:38 | a string starting with two `+` is refused |
| Phone.OutsideClassRejected | src/pages/Careers.jsx:38 | any character outside the class after the first position makes the phone invalid |
| Phone.LengthOutOfRangeRejected | src/pages/Careers.jsx:38 | fewer than 10 or more than 16 characters never pass |
| Phone.FormattedNumberAccepted | src/pages/Careers.jsx:38 | `+1 555-123-4567` passes |
| StorageKey.Split | src/pages/Careers.jsx:56 | `split` yields one more piece than separators, pieces without the separator, which join back to the input |
| StorageKey.Extension | src/pages/Careers.jsx:56 | the extension contains no dot; it is the text after the last dot, or the whole file name when there is no dot |
| StorageKey.ExtensionOfSuffix | src/pages/Careers.jsx:56 | for any prefix, the extension of `prefix.ext` with a dot-free `ext` is `ext` |
| StorageKey.SkipWhitespace | src/pages/Careers.jsx:57 | drops exactly the maximal leading whitespace run: everything dropped is whitespace and what remains does not start with whitespace |
| StorageKey.Clean | src/pages/Careers.jsx:57 | the cleaned name contains no whitespace |
| StorageKey.CleanRun | src/pages/Careers.jsx:57 | a whole run of whitespace, followed by text that does not start with whitespace, becomes a single `_` |
| StorageKey.CleanKeepsWhitespaceFree | src/pages/Careers.jsx:57 | a name without whitespace is unchanged by cleaning |
| StorageKey.CleanIdempotent | src/pages/Careers.jsx:57 | cleaning twice is cleaning once |
| StorageKey.CleanKeepsText | src/pages/Careers.jsx:57 | apart from whitespace and underscores, the cleaned name has the same characters in the same order |
| StorageKey.CleanConcat | src/pages/Careers.jsx:57 | cleaning distributes over concatenation wherever the cut does not split a whitespace run; with `CleanRun` and `CleanKeepsWhitespaceFree` this makes every maximal run one `_`, however many gaps the name has |
| StorageKey.CleanThreeWords | src/pages/Careers.jsx:55-57 | a three-word name such as "Mary Ann Smith", with any whitespace runs between the words, becomes the words joined by one `_` per gap |
| StorageKey.CleanJoinsWords | src/pages/Careers.jsx:55-57 | two whitespace-free words separated by any nonempty whitespace gap become the words joined by a single `_` |
| StorageKey.Decimal | src/pages/Careers.jsx:57 | the timestamp's text is a non-empty string of decimal digits with no leading zero (it starts with `0` only for the number zero, and is then `"0"`) |
| StorageKey.ParseDecimalOfDecimal | src/pages/Careers.jsx:57 | reading the timestamp's decimal text back gives the timestamp |
| StorageKey.KeyKeepsExtension | src/pages/Careers.jsx:56-57 | the storage key has the same extension as the uploaded file |
| StorageKey.Key | src/pages/Careers.jsx:57 | the key's leading digits are the submission time |
| StorageKey.KeysDifferInTime | src/pages/Careers.jsx:57 | submissions at different times get different keys, whatever the names and files |
| StorageKey.JaneDoeKey | src/pages/Careers.jsx:55-57 | "Jane Doe" with "resume.pdf" gives `<timestamp>_Jane_Doe.pdf` |
| Careers.FormData.With | src/pages/Careers.jsx:24 | writing one field changes that field only |
| Careers.CareersForm.constructor | src/pages/Careers.jsx:11-20 | the form starts with five empty fields, no file, not loading, not succeeded |
| Careers.CareersForm.HandleChange | src/pages/Careers.jsx:23-25 | the named field takes the value; the other fields, the file and both flags are unchanged |
| Careers.CareersForm.HandleFileChange | src/pages/Careers.jsx:27-31 | the first selected file replaces the current one; an empty selection keeps the previous file |
| Careers.CareersForm.DismissSuccess | src/pages/Careers.jsx:123 | "Submit another application" clears the success flag only |
| Careers.CareersForm.HandleSubmit | src/pages/Careers.jsx:33-100 | an invalid phone, checked first, or a missing file only alerts and changes nothing. Otherwise the steps are busy, upload under the derived key, then either an `Upload Error: ` alert or public URL and insert of a row copying the five fields with `cv_url` the URL of the uploaded key. An insert failure gives a `Database Error: ` alert and keeps the form, with no clean-up call. Success sets the flag and clears fields and file. Loading ends false past validation |
| Careers.BackendCallsFilter | src/pages/Careers.jsx:59-85 | the backend calls of a trace are exactly its upload, public-URL and insert steps |
| Careers.CallsOfSubmission | src/pages/Careers.jsx:51-98 | a submission trace that holds three calls between setting and clearing the busy flag yields exactly those calls, in order |
| Careers.ApplyOnce | src/pages/Careers.jsx:33-92 | filling the form, choosing a file and submitting with both calls succeeding issues exactly upload, public URL and insert, in that order, and leaves a cleared form in the success state |
| AdminView.MapSeq | src/pages/AdminPanel.jsx:85 | mapping over the records gives one output per record, in order |
| AdminView.Render | src/pages/AdminPanel.jsx:55-157 | spinner exactly when loading; "No Records Found" exactly when not loading and no rows; otherwise the tab's header and one table row and one card per record, in fetched order |
| AdminView.Header | src/pages/AdminPanel.jsx:69-82 | the header has one heading per table cell, for every record |
| AdminView.TableRow | src/pages/AdminPanel.jsx:84-104 | a table row shows date, name, email and phone, plus position and CV link for applicants or the message otherwise, each value taken from the record |
| AdminView.Card | src/pages/AdminPanel.jsx:113-152 | every value a card shows is taken from the record, and on either tab a card shows the same record columns as a table row, with values from the record |
| AdminView.ApplicantRowLinksToCv | src/pages/AdminPanel.jsx:93-104 | an applicant's table row has a "View CV" link to the record's `cv_url` |
| AdminView.ApplicantCardLinksToCv | src/pages/AdminPanel.jsx:143-151 | an applicant's card has a "Download Resume" link to the record's `cv_url` |
| AdminView.OtherTabDisagrees | src/pages/AdminPanel.jsx:138-152 | for a tab value other than the two, table and cards would show different columns |
| Admin.FetchSteps | src/pages/AdminPanel.jsx:9-22 | a fetch issues exactly one query (all columns, `created_at` descending, the named table), set busy first and cleared last |
| Admin.SelectsFilter | src/pages/AdminPanel.jsx:11-14 | the queries of a trace are exactly those of its select steps |
| Admin.AdminPanel.constructor | src/pages/AdminPanel.jsx:5-7 | the dashboard starts on `applicants` with no rows and loading |
| Admin.AdminPanel.FetchData | src/pages/AdminPanel.jsx:9-22 | a successful reply replaces the rows wholesale, an error is only logged and keeps them; loading ends false; the tab is untouched |
| Admin.AdminPanel.Mount | src/pages/AdminPanel.jsx:24-26 | on mount one fetch runs for the current tab, which stays one of the two |
| Admin.AdminPanel.ClickTab | src/pages/AdminPanel.jsx:37-52 | a button sets the tab to `applicants` or `contacts`; a change runs exactly one fetch of the new tab's table, and a click on the current tab runs none |
| Admin.AdminPanel.View | src/pages/AdminPanel.jsx:55-157 | the spinner exactly while loading, the placeholder exactly when loaded with no rows, otherwise one row and one card per fetched record |
| Admin.SelectsOfThree | src/pages/AdminPanel.jsx:24-26 | three fetches in a row issue their three queries in order |
| Admin.ReviewSession | src/pages/AdminPanel.jsx:24-46 | opening the dashboard, switching to inquiries and back issues three queries, for applicants, contacts and applicants, and then lists the last reply's rows in order |

## Left out

- The hosted client's behaviour: `storage.upload`, `getPublicUrl`, `insert` and `select().order()` are replies passed in, and the public URL is an arbitrary function of the key. The server-side ordering by `created_at` is only requested; the client never sorts and the model keeps the returned order.
- A client call that throws instead of returning an error object. On the careers page the `catch` would then alert the raw message without a prefix. On the dashboard `fetchData` (AdminPanel.jsx:9-22) has no `try`/`finally`, so a rejected select would leave `loading` true for good. The model covers only error objects.
- `Date.now()` (a `nat` parameter) and `toLocaleDateString()`. The date is shown as the raw `created_at` value marked as a date.
- `alert` and `console.error` appear in the traces as steps with their messages. The `console.error` of a failed submission is not recorded.
- Markup, styling, `PageLayout`, the hero content, and the choice between the confirmation panel and the form (Careers.jsx:119-178).
- Browser-enforced input attributes (`required`, `type="email"`, `type="url"`, `accept`). The submit button's `disabled={loading}` is also left out, so a second submission while one is in flight is not modelled.
- Asynchrony: fetches and submissions run to completion one at a time. A stale fetch that completes after a newer tab's fetch is not modelled.
- `handleChange` with an input name other than the five form fields. Only those five inputs use the handler.
- Number-to-string conversion of timestamps of 10^21 ms or more, which JavaScript prints in exponent form. `Date.now()` never reaches it.

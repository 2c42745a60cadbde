# Link-in-bio page: a verified model

This project models, in Dafny, the logic behind a small link-in-bio site: a
single page with a logo, a greeting, a video background and a column of
action buttons, plus an admin panel that edits that content, uploads media,
and shows click analytics. The page content lives in a React context that
keeps it in memory, mirrors it to the browser's `localStorage` and saves it
to one remote `store_settings` row. Visits and button clicks are appended to
an `analytics` table, which the admin panel tallies.

One Dafny module per source file:

| module | file | models |
|---|---|---|
| `StoreContext` | store.dfy | the default content, the shallow merge, the field/column mappings, and a `Store` class whose `Load`, `UpdateData` and `ResetData` change the in-memory data, the cache and the remote table |
| `AdminPanel` | admin.dfy | the one-field edit, the indexed edit of a main action, and file upload or removal with its bucket, folder, extension and path |
| `Analytics` | analytics.dfy | the click tally loop, the sort into descending order, the totals, the ten most recent events, and an `AnalyticsPanel` class |
| `ActionButtons` | buttons.dfy | the icon fallback and the effects of a click, including the WhatsApp deep link |
| `VideoBackground` | video.dfy | the choice of video URL, MIME type and poster, and a `VideoElement` class driven by the `ended` handler and `forcePlay` |
| `AuthContext` | auth.dfy | an `AuthProvider` class with restore, login and logout mirrored in two storage keys |
| `LoginPage` | login.dfy | the login decision and a `LoginForm` class whose `HandleLogin` runs it |
| `UseAnalytics` | tracking.dfy | the append-only `analytics` table and the tracking calls |

Helper modules: `Wrappers` (an `Option` type), `JsString` (the JavaScript
string built-ins the code uses: `toLowerCase`, `indexOf`, `includes`,
`replace` with a string pattern, `split(sep).pop()`, `trim`), `Uri`
(`encodeURIComponent` as section 19.2.6 of ECMA-262 defines it, over UTF-8,
with a decoder proving it loses nothing), `Json` (a stand-in for
`JSON.stringify`/`JSON.parse`: injective, with a partial parse) and
`BrowserStorage` (a `LocalStorage` class over a map of strings).

Backend calls are parameters: how each database call ends is an `Outcome`
(`Succeeds`, `ReturnsError` for an error object, `Throws` for an
exception), an upload's success and public URL are given, a tracked insert
is `accepted` or not, and the analytics queries read one snapshot of the
table. `Date.now()`, `Math.random()`, the browser's user agent, the
database's `created_at` time and the URL of the bundled video asset are
parameters too. Backend requests and cache writes are recorded, in order, in
the `effects` log of the `Store`, and the calls on the video element in its
`ops` log.

The default texts of `defaultData` are modelled exactly as the source file
spells them: its accented characters and the logo emoji are UTF-8 text that
was decoded a second time as Mac Roman (`Ol√°` where `Olá` is meant).

## Model

| member | source | states |
|---|---|---|
| StoreContext.DefaultData | src/contexts/StoreContext.tsx:33-87 | the defaults hold exactly three main and three secondary actions, name the bundled video path and have no background image |
| StoreContext.Merge | src/contexts/StoreContext.tsx:150-152 | every field present in the partial object takes its value, every other field keeps the old one; social links and action lists are replaced whole |
| StoreContext.MergeNothing | src/contexts/StoreContext.tsx:151 | merging an empty object changes nothing |
| StoreContext.MergeIdempotent | src/contexts/StoreContext.tsx:151 | applying the same update twice is applying it once |
| StoreContext.MergeSequential | src/contexts/StoreContext.tsx:151 | two updates in a row equal one update with the later fields winning |
| StoreContext.MergeWhole | src/contexts/StoreContext.tsx:151 | a complete object replaces the data outright |
| StoreContext.ParseSerialize | src/contexts/StoreContext.tsx:141-143 | the cached copy parses back to exactly the data that was cached |
| StoreContext.Serialize | src/contexts/StoreContext.tsx:155 | the cached text is never empty, so the fallback read does not skip it |
| StoreContext.Parse | src/contexts/StoreContext.tsx:143 | content is read only from text that parses to a record of the thirteen stored fields |
| StoreContext.CachedOr | src/contexts/StoreContext.tsx:141-144 | the fallback is the current data or the content the cached text parses to |
| StoreContext.CacheReadsLastWrite | src/contexts/StoreContext.tsx:141-155 | after the cache is written, the fallback reads exactly the content written |
| StoreContext.ToColumns | src/contexts/StoreContext.tsx:170-181 | the saved `background_video` column is the data's video path |
| StoreContext.FromColumns | src/contexts/StoreContext.tsx:122-133 | a loaded video path is never empty, an empty column loads as the bundled video path, and otherwise the load mapping is the exact inverse of the save mapping |
| StoreContext.LoadAfterWrite | src/contexts/StoreContext.tsx:122-133 | saving then loading reproduces the data whenever its video path is non-empty |
| StoreContext.UpdateWhere | src/contexts/StoreContext.tsx:168-182 | the update by id keeps the table's length and ids and replaces the columns of exactly the rows with that id |
| StoreContext.KeepWithId | src/contexts/StoreContext.tsx:219-222 | the delete leaves exactly the rows whose id is the nil id, each as often as the table holds it, and no other row |
| StoreContext.SaveRequests | src/contexts/StoreContext.tsx:160-202 | a save issues the lookup first, then exactly one more request unless the lookup threw |
| StoreContext.RowsAfterSave | src/contexts/StoreContext.tsx:160-207 | a thrown lookup or a failed write leaves the table as it was; the table grows by exactly one row when a successful write follows a lookup that found no row or answered with an error; the ids of existing rows are kept |
| StoreContext.SaveWritesOnce | src/contexts/StoreContext.tsx:160-207 | a save selects first and then either updates the existing row (exactly when the lookup found one) or inserts, never both, and a thrown lookup writes nothing |
| StoreContext.SaveThenLoad | src/contexts/StoreContext.tsx:160-207 | after a successful write that followed a successful lookup, or one into an empty table, the row the next load reads holds the saved data |
| StoreContext.StaleRowAfterErroredLookup | src/contexts/StoreContext.tsx:107-202 | a lookup that answers with an error while a row exists leads to a second row, and the next load reads the first, old row back instead of the saved data |
| StoreContext.CacheWrittenFirst | src/contexts/StoreContext.tsx:151-160 | the cache write comes before every backend request and holds exactly the new data |
| StoreContext.Store.constructor | src/contexts/StoreContext.tsx:98-100 | the provider starts from the defaults, loading |
| StoreContext.Store.Load | src/contexts/StoreContext.tsx:107-148 | an error object leaves data and cache untouched; no row leaves them untouched; a row is loaded through the column mapping and cached; an exception falls back to a cached copy that parses; `loading` ends false; the table is not changed |
| StoreContext.Store.UpdateData | src/contexts/StoreContext.tsx:150-211 | the data becomes the merge, the cache holds exactly the new data, the table is updated or appended to as the lookup and write outcomes say, remote failures leave data and cache merged, and the effects are the cache write then the save's requests |
| StoreContext.Store.ResetData | src/contexts/StoreContext.tsx:213-244 | data and cache become the defaults; the delete keeps only nil-id rows when it succeeds; the defaults are inserted even when the delete returned an error, and not when it threw |
| Json.ParseStringify | src/contexts/AuthContext.tsx:36 | parsing a serialised field list gives the list back |
| Json.StringifyInjective | src/contexts/StoreContext.tsx:155 | different values never serialise to the same text |
| AdminPanel.FieldPatchChangesOnlyField | src/pages/AdminPanel.tsx:33-35 | a one-field edit sets that field and leaves every other field, the links and both action lists unchanged |
| AdminPanel.HandleInputChange | src/pages/AdminPanel.tsx:33-35 | the edit is the store update of that one field |
| AdminPanel.WithActionField | src/pages/AdminPanel.tsx:39 | the copied action has the field set and its other fields unchanged |
| AdminPanel.SetActionField | src/pages/AdminPanel.tsx:38-39 | same length, entry `i` has the field set and its other fields unchanged, every other entry unchanged |
| AdminPanel.SetActionFieldUndo | src/pages/AdminPanel.tsx:38-39 | writing back the old value of the field restores the array |
| AdminPanel.HandleMainActionChange | src/pages/AdminPanel.tsx:37-41 | the store update replaces the main actions with the edited copy |
| AdminPanel.TargetField | src/pages/AdminPanel.tsx:45-50 | both logo types write `logoImage`, never `logo`; each other type writes the field of its name |
| AdminPanel.Bucket | src/pages/AdminPanel.tsx:56-57 | `videos` exactly for a background video, `profiles` otherwise |
| AdminPanel.Folder | src/pages/AdminPanel.tsx:56-59 | `backgrounds` exactly for a background video, `uploads` otherwise |
| AdminPanel.UploadKeepsLogoText | src/pages/AdminPanel.tsx:75-79 | no upload or removal changes the `logo` text |
| AdminPanel.Extension | src/pages/AdminPanel.tsx:58 | the extension is the lower-cased text after the last dot, the whole lower-cased name when there is no dot, and `mp4`/`png` only when that text is empty; it is never empty and has no dot |
| AdminPanel.UploadPath | src/pages/AdminPanel.tsx:60 | the path starts with the folder and a slash and ends with a dot and the extension, which is its last dot-separated segment |
| AdminPanel.UploadPathExtension | src/pages/AdminPanel.tsx:58-60 | the extension read back from a generated path is the one chosen for the file |
| AdminPanel.HandleFileUpload | src/pages/AdminPanel.tsx:43-86 | no file clears the target field; a file is sent to `videos`/`backgrounds` for a video and `profiles`/`uploads` otherwise; a failed upload changes nothing in the store; a successful one sets the target field to the public URL |
| JsString.ToLowerCase | src/pages/AdminPanel.tsx:58 | same length, ASCII capitals lowered, every other character kept |
| JsString.LowerCaseIdempotent | src/components/VideoBackground.tsx:24 | lower-casing twice is lower-casing once |
| JsString.LastSegment | src/pages/AdminPanel.tsx:58 | the last piece of `split(sep)` holds no separator, ends the string, is the whole string when there is no separator and otherwise follows the last one |
| JsString.LastSegmentAfterSeparator | src/pages/AdminPanel.tsx:60 | after a final separator, the last piece is the separator-free tail |
| JsString.IndexOf | src/components/ActionButtons.tsx:36 | the result is the least index where the pattern occurs, or none when it never occurs |
| JsString.ReplaceFirst | src/components/ActionButtons.tsx:37 | only the first occurrence is replaced; a string without the pattern is returned whole |
| JsString.ReplaceLeadingOccurrence | src/components/ActionButtons.tsx:37 | removing a leading pattern leaves exactly the rest, whatever the rest holds |
| JsString.Trim | src/pages/Login.tsx:34-35 | the result is the slice of the input between a white-space prefix and a white-space suffix, and neither starts nor ends with white space |
| JsString.TrimIgnoresPadding | src/pages/Login.tsx:34-35 | white space around a string does not change its trimmed value |
| JsString.TrimIdempotent | src/pages/Login.tsx:34-35 | trimming twice is trimming once |
| Uri.EncodeUriComponent | src/components/ActionButtons.tsx:38 | the encoding is at least as long as the input and holds only unreserved characters and `%` |
| Uri.DecodeEncode | src/components/ActionButtons.tsx:38 | percent-decoding the encoding gives the UTF-8 octets of the input |
| Uri.EncodeUnreserved | src/components/ActionButtons.tsx:38 | a string of unreserved characters encodes to itself |
| Uri.EncodeAppend | src/components/ActionButtons.tsx:38 | the encoding of a concatenation is the concatenation of the encodings |
| UseAnalytics.PagePathOrRoot | src/hooks/useAnalytics.ts:27 | a page view without a path records `/` |
| UseAnalytics.NewRow | src/hooks/useAnalytics.ts:16-21 | the inserted row has the given type, data and user agent, a null IP address and the insert time |
| UseAnalytics.TrackEvent | src/hooks/useAnalytics.ts:14-25 | an accepted insert appends exactly one row; a rejected one appends nothing and does not fail |
| UseAnalytics.TrackPageView | src/hooks/useAnalytics.ts:27-32 | records a `page_view` with the page path, `/` by default |
| UseAnalytics.TrackButtonClick | src/hooks/useAnalytics.ts:34-39 | records a `button_click` with the title and href |
| UseAnalytics.UsePageView | src/hooks/useAnalytics.ts:44-50 | mounting records one `page_view` for the path |
| Analytics.CountedTitle | src/components/Analytics.tsx:58-59 | a title counts exactly when present and non-empty |
| Analytics.UntitledNotCounted | src/components/Analytics.tsx:58-60 | removing a payload without a title from anywhere among the clicks changes no title's count and not the number of titled payloads |
| Analytics.UnseenTitleNotCounted | src/components/Analytics.tsx:58-61 | the empty title, and a title no payload carries, have count 0 |
| Analytics.TitledCountBound | src/components/Analytics.tsx:56-63 | at most every payload is counted, and all are exactly when every payload carries a title |
| Analytics.TallyClicks | src/components/Analytics.tsx:56-63 | the result is the tally of the payloads (`TallyOf`): the dictionary's keys are exactly the titles that occur, each with its number of occurrences, listed once each, and the counts add up to the number of titled payloads |
| Analytics.InsertDesc | src/components/Analytics.tsx:65-68 | inserting into a sorted list keeps it sorted and adds exactly the one element |
| Analytics.SortDesc | src/components/Analytics.tsx:65-68 | the result is in non-increasing order of the key and a permutation of the input |
| Analytics.Entries | src/components/Analytics.tsx:65-67 | one entry per key, in key order, with that key's count |
| Analytics.StatSumPermutation | src/components/Analytics.tsx:65-68 | sorting does not change the total of the counts |
| Analytics.DistinctPermutation | src/components/Analytics.tsx:65-68 | sorting does not introduce repeated titles |
| Analytics.ComputeButtonStats | src/components/Analytics.tsx:56-68 | the statistics are sorted by count, hold each occurring title once with its number of occurrences, and add up to the number of titled payloads |
| Analytics.StatCountIsOccurrences | src/components/Analytics.tsx:56-68 | any statistics that meet that promise show each title's number of occurrences, and 0 for titles that never occur |
| Analytics.Filter | src/components/Analytics.tsx:38-47 | the `eq('event_type', …)` selection holds every row of that type, as often as the table holds it, and no other row |
| Analytics.ClickPayloads | src/components/Analytics.tsx:50-59 | one payload per `button_click` row, in the order of that selection |
| Analytics.ClickPayloadsAppend | src/components/Analytics.tsx:50-59 | a click row added to the table adds its payload at the end of the payloads |
| Analytics.Recent | src/components/Analytics.tsx:71-75 | exactly ten rows of the table (no row more often than the table holds it), or all of them when there are fewer, newest first, and no row left out is newer than one kept |
| Analytics.SelectColumns | src/components/Analytics.tsx:73 | each recent row keeps exactly its type, payload and creation time, in the same order |
| Analytics.StatsAgainstTotal | src/components/Analytics.tsx:44-63 | over one snapshot the button counts add up to at most the click total, and to exactly it when every click carries a title |
| Analytics.AnalyticsPanel.constructor | src/components/Analytics.tsx:21-27 | the panel starts with zero totals, no statistics, loading |
| Analytics.AnalyticsPanel.LoadAnalytics | src/components/Analytics.tsx:33-88 | the totals count the page-view and click rows (0 when a query yields nothing), the statistics meet the tally promise and add up to the number of titled click payloads, the recent rows are the selected columns of the ten newest, an exception keeps the previous state, and `loading` ends false |
| Analytics.TrackedClickCounted | src/hooks/useAnalytics.ts:34-39 | a tracked click with a non-empty title raises that title's count by exactly one and leaves every other title's count unchanged |
| ActionButtons.IconFor | src/components/ActionButtons.tsx:25 | a registered icon name gives its icon, any other name gives `Grid3X3` |
| ActionButtons.IconForName | src/components/ActionButtons.tsx:7-14 | every icon is found again under its own name |
| ActionButtons.IsWhatsApp | src/components/ActionButtons.tsx:36 | every chat-icon action whose link starts with `https://wa.me/` takes the WhatsApp branch |
| ActionButtons.PhoneNumber | src/components/ActionButtons.tsx:37 | a leading `https://wa.me/` is removed and the rest kept whole; an href without that text is the phone as it is |
| ActionButtons.WhatsAppUrl | src/components/ActionButtons.tsx:37-39 | the link starts with `https://wa.me/` and ends with `?text=` and the encoded greeting |
| ActionButtons.OpenedUrl | src/components/ActionButtons.tsx:36-42 | the WhatsApp branch opens a `https://wa.me/` link, the other branch the href unchanged |
| ActionButtons.OnClick | src/components/ActionButtons.tsx:32-44 | a click first records the title and raw href, once, then opens the WhatsApp link in that branch and the href unchanged otherwise |
| ActionButtons.WhatsAppBranchGuard | src/components/ActionButtons.tsx:36 | the WhatsApp link is opened for the chat icon with a `wa.me` href, and the href itself whenever the icon differs or `wa.me` is absent |
| ActionButtons.PrefixedLinkOpensChat | src/components/ActionButtons.tsx:37-40 | for an href `https://wa.me/` + p the opened URL is `https://wa.me/` + p + `?text=` + the encoded greeting |
| ActionButtons.EncodedMessageIsSafe | src/components/ActionButtons.tsx:38 | no raw `&`, `#`, `=`, `?` or space appears in the encoded greeting |
| ActionButtons.ChatTextDecodes | src/components/ActionButtons.tsx:38-39 | the `text` parameter decodes back to the UTF-8 octets of the greeting |
| VideoBackground.VideoUrl | src/components/VideoBackground.tsx:15-21 | the bundled asset when the stored path is empty or names the bundled video, otherwise the stored path |
| VideoBackground.VideoType | src/components/VideoBackground.tsx:24 | WebM exactly when the lower-cased URL ends in `.webm`, MP4 otherwise |
| VideoBackground.HasVideo | src/components/VideoBackground.tsx:23 | a URL is a video exactly when it is non-empty, the truthiness of a string |
| VideoBackground.VideoTypeIgnoresCase | src/components/VideoBackground.tsx:24 | the MIME type does not depend on the URL's case |
| VideoBackground.WebmSuffix | src/components/VideoBackground.tsx:24 | any URL ending in `.webm` in any case is WebM |
| VideoBackground.Poster | src/components/VideoBackground.tsx:82 | the poster is the background image when it is non-empty, absent otherwise |
| VideoBackground.ShowBackgroundImage | src/components/VideoBackground.tsx:27 | the image is shown exactly when there is no video and the same image is the poster |
| VideoBackground.BundledVideoHidesImage | src/components/VideoBackground.tsx:23-27 | with a non-empty bundled asset there is always a video and the background image is never shown |
| VideoBackground.EmptyStoredVideoPlaysBundled | src/components/VideoBackground.tsx:15-21 | a row with an empty video column, and the defaults, play the bundled video |
| VideoBackground.VideoElement.Play | src/components/VideoBackground.tsx:53 | a play request plays when allowed; a refusal changes nothing else |
| VideoBackground.VideoElement.HandleVideoEnd | src/components/VideoBackground.tsx:40-44 | the time goes back to 0, then play is requested; a refused play is only logged |
| VideoBackground.VideoElement.ForcePlay | src/components/VideoBackground.tsx:50-58 | the element is muted before play is requested |
| VideoBackground.VideoElement.Setup | src/components/VideoBackground.tsx:47-61 | the effect registers the `ended` handler, then forces play |
| VideoBackground.VideoElement.Cleanup | src/components/VideoBackground.tsx:64-66 | the cleanup unregisters the handler and nothing else |
| VideoBackground.EffectRun | src/components/VideoBackground.tsx:36-67 | a run and its cleanup leave the listeners as they were and the element muted; nothing happens without an element |
| AuthContext.Saved | src/contexts/AuthContext.tsx:31-38 | a session is restored exactly when the flag is `'true'`, the saved user is non-empty and parses; one that does not parse is corrupt |
| AuthContext.AfterLogin | src/contexts/AuthContext.tsx:51-52 | the flag reads `true`, the user key holds the serialised user, and every other key is kept with its value |
| AuthContext.AfterLogout | src/contexts/AuthContext.tsx:58-59 | both keys are removed and every other key is kept |
| AuthContext.LoginThenRestore | src/contexts/AuthContext.tsx:48-53 | a reload after a login restores the same user |
| AuthContext.LogoutThenRestore | src/contexts/AuthContext.tsx:55-60 | a reload after a logout finds no session, and logging out twice is logging out once |
| AuthContext.AuthProvider.constructor | src/contexts/AuthContext.tsx:25-27 | not authenticated, no user, loading |
| AuthContext.AuthProvider.Restore | src/contexts/AuthContext.tsx:29-46 | a valid session signs its user in; a corrupt one removes both keys and keeps the state; loading ends, so children render |
| AuthContext.AuthProvider.Login | src/contexts/AuthContext.tsx:48-53 | authenticated with the user, both keys written, flag mirrored |
| AuthContext.AuthProvider.Logout | src/contexts/AuthContext.tsx:55-60 | signed out, no user, both keys removed, flag mirrored |
| AuthContext.Mount | src/contexts/AuthContext.tsx:24-46 | on a fresh provider a corrupt session leaves the visitor signed out with both keys removed, a valid one signs in, and children render |
| LoginPage.Matching | src/pages/Login.tsx:41 | exactly the rows with that user name, each as often as the table holds it, and no other row |
| LoginPage.Single | src/pages/Login.tsx:38-42 | a row exactly when one row matches |
| LoginPage.Lookup | src/pages/Login.tsx:38-44 | a row exactly when the query succeeds with a single matching row; an error object yields none |
| LoginPage.Message | src/pages/Login.tsx:44-66 | an error message is shown exactly when the attempt did not sign in |
| LoginPage.Decide | src/pages/Login.tsx:28-69 | signed in exactly when the query succeeds, one row has the trimmed name, and its password equals the trimmed password; a thrown query fails; an error or no single row is an unknown user |
| LoginPage.PaddingIgnored | src/pages/Login.tsx:34-35 | white space around either input does not change the outcome |
| LoginPage.DuplicateNameNotFound | src/pages/Login.tsx:38-47 | two rows with the same name make every attempt for it an unknown user |
| LoginPage.LoginForm.constructor | src/pages/Login.tsx:15-16 | not loading, no error |
| LoginPage.LoginForm.RedirectIfAuthenticated | src/pages/Login.tsx:22-26 | an authenticated visitor is sent to `/admin`, others are not |
| LoginPage.LoginForm.HandleLogin | src/pages/Login.tsx:28-70 | the outcome is the decision; the session is opened and `/admin` shown only on a matching password; every other outcome leaves the session as it was and shows its message; `loading` ends false |
| LoginPage.SignedInSurvivesReload | src/pages/Login.tsx:56 | a sign-in survives a reload with the same user |

## Left out

- Rendering: JSX, styles, toasts, console logging, routing beyond the recorded navigation, and date formatting are not modelled. Logo.tsx, Preview.tsx, SocialLinks.tsx and FileUpload.tsx only render and are not part of this model.
- React scheduling: state updates apply at once and in order; batching, the stale `data` closure of `updateData` and concurrent admin sessions are not modelled.
- Json: `JSON.stringify`/`JSON.parse` are a stand-in serialiser (escaped, terminated fields) that is injective with a partial parse; the JSON text itself is not modelled.
- StoreContext.Store.Load: a cached copy that fails to parse makes `JSON.parse` throw out of the catch block; the model keeps the data unchanged there instead of modelling the escaping exception.
- StoreContext.FromColumns: database `null` in columns other than `background_video` is not modelled; every column is a string or a value of the field's type.
- StoreContext.Store.Load: the first row of the table stands for the row `.limit(1)` returns, whose order the database does not fix.
- StoreContext.Store.UpdateData: an exception thrown by the update or insert itself is modelled like a returned error (the table is unchanged and nothing else happens).
- AdminPanel.HandleInputChange: the source accepts any string key; the model limits it to the seven string fields of the data, of which the panel itself passes only `whatsappMessage`.
- AdminPanel.HandleFileUpload: the storage bucket's contents, `getPublicUrl` and the cache-control options are not modelled; the time and random text are given as already rendered strings.
- JsString.ToLowerCase: lower-cases ASCII letters only; full Unicode case mapping is not modelled.
- JsString: strings are sequences of Unicode scalar values, not UTF-16 code units; lone surrogates, for which `encodeURIComponent` throws, cannot occur.
- Analytics.TallyClicks: a `button_title` that is not a string, and titles such as `__proto__` that collide with `Object.prototype`, are not modelled.
- Analytics.AnalyticsPanel.LoadAnalytics: the backend's default cap on the number of rows a select returns is not modelled; the four queries read one snapshot of the table.
- Analytics.SortDesc: the order of entries with equal counts is not stated.
- Analytics.TallyClicks: the order in which `Object.entries` lists the keys is not stated (insertion order, except that integer-like titles such as `2` or `10` come first in ascending numeric order); it only decides the order of titles with equal counts, which `SortDesc` leaves unstated too.
- StoreContext.SaveThenLoad: a lookup that answers with an error while a row exists is excluded; there the source inserts a second row and the next load reads the old one, as `StaleRowAfterErroredLookup` states.
- ActionButtons.IconFor: names such as `toString` that resolve through `Object.prototype` are not modelled.
- ActionButtons.OnClick: `window.open` and the tracking insert are recorded as outputs, not performed.
- VideoBackground.VideoElement: playback, autoplay policy and the `loop` attribute (under which `ended` does not fire) are not modelled; `currentTime` is a real number.
- AuthContext.AuthProvider.Restore: the saved user is whatever parses; whether it has the shape of an admin row is not checked, as in the source.
- LoginPage.LoginForm.HandleLogin: the intermediate `loading = true` and cleared error are set first but only the final state is stated; an exception raised by `login` itself is not modelled.
- Password security: the plaintext comparison is modelled as the equality check it is; no security property is claimed.

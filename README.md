# FarmAssist core rules in Dafny

FarmAssist is a farming-assistant web application: a Flask server (`app.py`) with
OTP login, an upload route for crop photos, a keyword-driven "ask the AI" route and
two append-only registries (farmer posts and organic products), and a browser script
(`script.js`) that switches the page language, drives a speech-recognition toggle,
shows single-slot toast notifications and shrinks images before upload.

This project models the small deterministic rules inside that glue and proves what
they promise:

- `text.dfy` (module `Text`): an `Option` type and ASCII lower-casing, digit tests
  and substring search.
- `uploads.dfy` (module `Uploads`): `allowed_file` (split at the last dot, compare the
  lower-cased extension with the configured set) and the three checks the
  crop-problem route makes before saving an image.
- `assistant.dfy` (module `Assistant`): the `/ask-ai` answer, a loop over the
  keywords in table order with an early return.
- `backend.dfy` (module `Backend`): class `App` holding `otp_store`, `users_db`,
  `farmer_posts`, `products_list` and the client's session dictionary, with the
  routes `login`, `verify_otp`, `submit_post`, `list_product` and `change_language` as
  methods. `App.Valid()` is the invariant they all keep. It says that only
  well-formed mobiles are stored and that each user record is filed under its own
  mobile. It also says that a logged-in session names an existing user and carries
  that user's language. Finally, record `k` of each registry has id `k + 1`. A few client methods
  run the routes in sequence (OTP single use, a returning user).
- `resize.dfy` (module `Resize`): the target-size rule of `compressImage`, over exact
  reals.
- `page.dfy` (module `ClientPage`): class `Page` holding the tagged elements, the toast
  nodes, and the recognition flags. It models `updateContentForLanguage`, the
  continuation of `changeLanguage`, `showToast`, `startVoice` and the `onstart`,
  `onend` and `onerror` handlers. `Page.Valid()` says that at most one toast exists.
  It also says that only an existing recognition object can be listening and that
  the mic button is highlighted exactly while it listens.

Inputs that come from outside are parameters. These are the random OTP, the
`datetime.now()` timestamps, the request fields (`None` when absent), whether the
browser supports speech recognition, and the outcome of a `fetch`. Speech-engine
events are method calls.

Where the code behaves differently from what its names or messages suggest, the model
follows the code:
- A square image is bounded by its height (the code tests `width > height`), not by
  its width.
- A translation key missing from a known language's table leaves the element's text
  as it is; there is no per-key fallback to English (`ClientPage.NoPerKeyFallback`).
- A `/change-language` reply with `success` false shows no toast and changes nothing;
  only a failed request shows the error toast.
- When the browser has no speech recognition, `startVoice` shows the warning and then
  calls `start()` on a null object, which throws; the model returns
  `NullRecognition` for that call (`ClientPage.UnsupportedTapFails`).
- A tap before the engine has fired `onstart` issues a second `start()`, because the
  flag changes only on the engine's event (`ClientPage.TapBeforeOnStartStartsAgain`).
- `onerror` does not reset the status line, so an error not followed by `onend`
  leaves "Listening..." shown while the flag is false (`ClientPage.ErrorLeavesStatusText`).

## Model

| member | source | states |
|---|---|---|
| `Uploads.LastDot` | app.py:316-317 | none exactly when the name has no '.'; otherwise the position of a '.' with no '.' after it (the split point of `rsplit('.', 1)`) |
| `Uploads.AllowedFile` | app.py:315-317 | true iff some position is the last '.' and the lower-cased text after it is one of png/jpg/jpeg/mp4/mov; true implies the name contains '.' |
| `Uploads.AcceptsUpperCaseLastExtension` | app.py:315-317 | "a.tar.PNG" is accepted: only the last extension counts, case-insensitively |
| `Uploads.RejectsNoDotAndEmptyExtension` | app.py:315-317 | "png" (no dot) and "file." (empty extension) are rejected |
| `Uploads.CropUploadDecision` | app.py:136-143 | missing field gives 'No image uploaded'; empty name gives 'No selected file'; the file is analysed iff its name passes `allowed_file`; otherwise the form is shown; the four outcomes partition the inputs |
| `Uploads.SavedFilesHaveAllowedExtension` | app.py:143-146 | a file reaches the save only if its name has a '.' and the text after the last '.' is an allowed extension |
| `Assistant.QueryText` | app.py:179-180 | a missing query reads as the empty text; a present one is lower-cased |
| `Assistant.AskAi` | app.py:180-205 | the answer is that of the first keyword, in the order fertilizer, pest, water, soil, weather, scheme, market, occurring in the lower-cased query; with none, or with no query, the default answer; always `voice == response` and source 'FarmAssist AI' |
| `Assistant.FirstHitUnique` | app.py:193-194 | at most one keyword is the first match, so the answer is determined |
| `Assistant.HitOrNoHit` | app.py:193-201 | every query has a first matching keyword or none at all, so the two answer cases cover all queries |
| `Backend.App.constructor` | app.py:28-32 | the server starts with empty OTP store, user table, registries and session, and the invariant holds |
| `Backend.App.Login` | app.py:52-61 | accepted iff the mobile is present, 10 characters and all digits; then the OTP is stored under it and `pending_mobile` set; otherwise nothing changes; users and registries never change |
| `Backend.App.VerifyOtp` | app.py:67-86 | succeeds iff `pending_mobile` is a key of the OTP store whose OTP equals the entered one; on success the OTP is deleted, a user record with language 'hindi' is created only for a new mobile, `user_id` is the mobile, the session language is the record's and `pending_mobile` is gone; on failure OTPs, users and session are unchanged |
| `Backend.App.SubmitPost` | app.py:217-229 | without a logged-in user nothing changes (login redirect); otherwise exactly one post with id = previous length + 1 and the session's user is appended, earlier posts unchanged; ids stay 1..n |
| `Backend.App.ListProduct` | app.py:263-275 | the same append-only discipline for products: one record with id = previous length + 1, earlier records unchanged |
| `Backend.App.ChangeLanguage` | app.py:301-306 | the language defaults to 'hindi'; the session language becomes it, and the logged-in user's record takes it while every other field and user is unchanged |
| `Backend.OtpIsSingleUse` | app.py:69-84 | after a successful verification the same OTP cannot verify again |
| `Backend.ReturningUserKeepsRecord` | app.py:73-81 | a second login keeps the record of the first (join time, chosen language) and the session takes the record's language |
| `Backend.WrongOtpKeepsPendingLogin` | app.py:71-86 | a wrong or missing OTP fails and changes nothing, so the right OTP still succeeds afterwards |
| `Resize.ResizeDims` | script.js:313-326 | landscape wider than the bound: width becomes the bound and height is scaled by bound/width; otherwise height above its bound: height becomes the bound and width is scaled by bound/height; otherwise the size is unchanged |
| `Resize.AspectRatioPreserved` | script.js:316-325 | the result has the input's proportions (`w' * h == h' * w`) |
| `Resize.NeverUpscales` | script.js:313-326 | neither dimension grows and neither becomes negative |
| `Resize.FitsSquareBound` | script.js:302-326 | with equal bounds, as by default, the result fits within the bound in both dimensions |
| `Resize.LandscapeExample` | script.js:316-320 | 1600 x 1200 with the default 800 x 800 bounds becomes 800 x 600 |
| `Resize.SmallImageExample` | script.js:313-326 | 400 x 300 with the default bounds is unchanged |
| `Resize.UnequalBoundsMayOverflow` | script.js:316-320 | with bounds 800 x 500 a 1000 x 900 image becomes 800 x 720, above the height bound |
| `ClientPage.ChosenTable` | script.js:28-41 | a known language code selects its own table; any other code selects the English table |
| `ClientPage.Localize` | script.js:44-49 | an element keeps its key; a tagged element with a non-empty entry takes that entry; every other element (untagged, key absent, or empty entry) is unchanged |
| `ClientPage.LocalizeAll` | script.js:44-49 | the substitution keeps the number and order of elements and rewrites each one as `Localize` says |
| `ClientPage.LocalizeAllIdempotent` | script.js:44-49 | applying the substitution twice with the same table gives the same page as applying it once |
| `ClientPage.NoPerKeyFallback` | script.js:41-48 | for a known language, a key missing from its table leaves the element as it is, even when English has the key |
| `ClientPage.UnknownLanguageShowsEnglish` | script.js:28-47 | for an unknown language code a 'welcome' element reads 'Welcome Farmer!' |
| `ClientPage.Page.constructor` | script.js:53-54 | the page starts with no toast, no recognition object and the flag false |
| `ClientPage.Page.ShowToast` | script.js:152-184 | the existing toast, if any, is removed before the new one is appended; afterwards exactly one toast exists and it is the new one; nothing else changes |
| `ClientPage.Page.UpdateContentForLanguage` | script.js:26-50 | the elements become the substitution of the previous elements with the table chosen for the language; toasts and voice state unchanged |
| `ClientPage.Page.ChangeLanguage` | script.js:11-23 | the text changes only on a reply with `success` true, which also shows a success toast; a failed request shows the error toast and keeps the text; `success` false changes nothing |
| `ClientPage.Page.StartVoice` | script.js:93-103 | the recognition object is created on first use when supported (else a warning toast); exactly one command is issued: stop iff listening, start iff not listening and a recognition object exists; the flag itself is unchanged |
| `ClientPage.Page.OnStart` | script.js:64-68 | listening becomes true, the mic is highlighted and the status reads 'Listening...' |
| `ClientPage.Page.OnEnd` | script.js:76-80 | listening becomes false, the highlight is removed and the status reads 'Tap mic to speak' |
| `ClientPage.Page.OnError` | script.js:82-87 | listening becomes false and the highlight is removed, the error toast is the only toast, and the status line is left as it was |
| `ClientPage.SecondTapStops` | script.js:64-103 | after one tap and the engine's `onstart`, the next tap stops the session instead of starting another |
| `ClientPage.TapBeforeOnStartStartsAgain` | script.js:93-103 | two taps without an `onstart` between them both issue start |
| `ClientPage.ErrorLeavesStatusText` | script.js:64-87 | an error without a following `onend` leaves the flag false while the status still reads 'Listening...' |
| `ClientPage.UnsupportedTapFails` | script.js:56-103 | without browser support a tap shows only the 'not supported' warning and then calls into the null recognition object |
| `ClientPage.TranslateTwice` | script.js:44-49 | two updates with the same language leave the page as one does, and untagged elements are untouched |

## Left out

- Flask routing, templates, redirects and the `login_required` redirect itself: its decision (no `user_id` in the session means nothing happens) is modelled for `submit_post` and `list_product` only; `Assistant.AskAi` and `Uploads.CropUploadDecision` model the route bodies as reached by a logged-in user. CORS, `secure_filename` and the save of the uploaded file are also left out.
- `os.makedirs`, the mock crop, scheme and weather data, the mock analysis returned for an upload, `/logout`, `fetchWeather`. These are constants or I/O.
- Random OTP generation: the OTP is a parameter, required to be six digits as the generator produces. `datetime.now()` timestamps are parameters.
- Concurrent clients: one session dictionary is modelled. `App.Valid()`'s clause tying the session language to the user's record holds only with one session per user: a `change_language` in one session of a user rewrites the record while another session of the same user keeps its old language.
- A request without a JSON body, which makes `data.get` fail with a server error.
- `Assistant.AskAi`: a JSON body whose `query` is `null` or not a string makes `.lower()` raise and the route fail with a server error; the query is modelled as an absent or present string only.
- Unicode: Python's `isdigit()`/`lower()` accept and fold non-ASCII characters; the model uses ASCII digits and ASCII lower-casing only.
- `Backend.App.ChangeLanguage`: a JSON `null` language is stored as `None` by the server; the model treats a present language as a string.
- JavaScript property lookup through the object prototype. A language code or content key such as `constructor` finds an inherited property instead of being missing. The tables are modelled as plain maps.
- All `fetch` calls, promise chaining and console logging; only the settled reply of `/change-language` is modelled. `processVoiceQuery`, `displayResponse` and speech synthesis are left out.
- The speech engines themselves (only the flag logic is kept); `recognition.lang` and the other settings of the recognition object.
- Toast styling (icon and colour by kind) and the timers that animate and remove a toast after three seconds.
- `FileReader`, `Image`, the canvas, `toBlob`, JPEG quality and the resolved `File`: only the size rule is modelled. Doubles are exact reals; the truncation when the canvas size is assigned is not modelled.
- Tooltips, click ripples, the style injection and the connectivity listeners: DOM, timing and pixel geometry.

# VACA conversational advisory session — a Dafny model

VACA is a single-page crop-advisory app. This project models the app's conversational core, all of it in `src/App.jsx`:

- **Crop-colour validator** (`validateCropImage`). It scans every pixel once and counts two things:
  - "green-like" pixels;
  - "yellow-like" pixels. The two sets are not exclusive, so one pixel can be counted in both.

  A photo is crop-like when the two percentages together exceed five.
- **Weather lookup** (`fetchWeatherData`).
  - Geocode the named city, or fall back to the Subang Jaya default.
  - Read the current conditions.
  - Map the weather code to a condition and a rain outlook.
  - A city the geocoder does not know gets an error record. A failed forecast request gets a hard-coded snapshot.
- **Local answer generator** (`generateLocalResponse`). It is an ordered, first-match-wins dispatch:
  1. an image request;
  2. the static crop dictionary `CROP_DB`;
  3. weather keywords, with the city taken from five regular expressions;
  4. a greeting;
  5. a fallback.
- **Session.** The voice screen (`VoiceAdvisory`) and the state it shares with the app:
  - the transcript;
  - the captured-photo hand-off;
  - the follow-up question from the diagnosis screen;
  - where the camera was opened from.

  The session also covers the camera screen's `handleUsePhoto`. Every event handler is one atomic method of `Session.AdvisorySession`.

Files:

- `Wrappers.dfy`: the `Option` type.
- `Text.dfy`: the ECMAScript string built-ins the code relies on:
  - `toLowerCase`;
  - `includes`;
  - `trim` and the `\s` whitespace class;
  - the decimal rendering of an integer in a template literal.
- `CropValidator.dfy`: the pixel loop, as a method proved against counting functions.
- `Weather.dfy`: the weather-code table and `fetchWeatherData`. The geocoding and forecast requests are oracle functions.
- `IntentResolver.dfy`:
  - `CROP_DB`;
  - the city regular expressions, modelled as in JavaScript: the prefix alternatives are tried in order at each start index, then the lazy group `[a-z\s]+?` must reach a `?` or the end of the string, and the leftmost start wins;
  - `generateLocalResponse`.
- `Session.dfy`:
  - the playback toggle as the pure function `Speak`;
  - the speech error handler, as written and corrected, and the play button through it;
  - the image gate;
  - the transcript functions;
  - the `AdvisorySession` class;
  - two client methods that run the photo and follow-up hand-offs across screens.

Points where the code behaves otherwise than its user-facing messages and comments suggest; the model follows the code:

- **City case.** The "could not find" message names the city as matched in the lower-cased query: "weather in Ipoh" gives `"ipoh"`.
- **Geocoding errors.** `getCoordinates` catches its own errors. A failed geocoding request therefore reads as an unknown city, not as a network failure.
- **Failed forecast.** A failed forecast request yields the Subang Jaya snapshot, even when a different city was found.
- **Second pattern.** The second city pattern (`how's the weather in ...`) is written but can never decide the city. Wherever it matches, the first pattern (`weather in ...`) matches too, and it is tried first.
- **Substring matching.** Keywords are plain substrings:
  - "hi" makes "Is this right?" a greeting;
  - "rain" matches "train".
- **Price property.** The price answer is the one for the *first* dictionary crop the query names, not any crop it names.
- **Microphone without speech synthesis.** `toggleListening` reads `window.speechSynthesis.speaking` unguarded. In a browser without speech synthesis the microphone button therefore changes nothing. `Session.AdvisorySession.ToggleListening` models this as written.

## Model

| member | source | states |
|---|---|---|
| `Text.ToLower` | src/App.jsx:180 | the lower-cased query: same length, each letter mapped by `LowerChar`, which is `toLowerCase` on ASCII |
| `Text.LowerChar` | src/App.jsx:180 | upper-case ASCII letters move 32 code points up, to their lower-case letters; every other character is kept; no upper-case letter comes out |
| `Text.ToLowerIdempotent` | src/App.jsx:180 | after lower-casing no upper-case letter is left, so the lower-cased query is its own lower-cased form |
| `Text.UpperChar` | src/App.jsx:190 | `toUpperCase` of a lower-case ASCII letter is the upper-case letter that lower-cases back to it; other characters are kept |
| `Text.Contains` | src/App.jsx:183 | `includes`: every string includes the empty string and itself, and no string includes a longer one |
| `Text.MissingCharNotContained` | src/App.jsx:182-183 | `includes` fails when the query lacks one of the keyword's characters |
| `Text.ContainsPiece` | src/App.jsx:222 | whatever contains a string contains each piece of it |
| `Text.OccursAtSuffix` | src/App.jsx:198 | where a longer prefix occurs, each of its suffixes occurs further along, at the shifted index |
| `Text.LeadingSpaces` | src/App.jsx:208 | the count of leading whitespace characters: all of them are `\s` and the next one is not |
| `Text.TrailingSpaces` | src/App.jsx:208 | the count of trailing whitespace characters: all of them are `\s` and the one before them is not |
| `Text.Trim` | src/App.jsx:208 | `trim()`: empty exactly when the text is all whitespace; otherwise starts and ends with non-whitespace, is the slice after the leading whitespace, and only whitespace follows it |
| `Text.DigitChar` | src/App.jsx:219 | a digit below ten is rendered as the digit character of that value |
| `Text.NatToString` | src/App.jsx:219 | a number renders as a non-empty string of digits without a leading zero |
| `Text.IntToString` | src/App.jsx:219 | an integer renders as a non-empty string that starts with '-' exactly when it is negative |
| `Text.NatToStringRoundTrip` | src/App.jsx:219 | reading the rendered digits back gives the number |
| `CropValidator.CountWhere` | src/App.jsx:44-56 | a count of matching pixels never exceeds the number of pixels |
| `CropValidator.IsGreenLike` | src/App.jsx:49 | a green-like pixel has green above 80, more than 20 above red and above blue; no pixel whose red equals its green is green-like |
| `CropValidator.IsYellowLike` | src/App.jsx:53 | a yellow-like pixel has red and green above 100 and within 50 of each other, and blue below 150; every light grey (equal channels from 101 to 149) is yellow-like |
| `CropValidator.ValidateCropImage` | src/App.jsx:40-63 | the one-pass loop yields the green and yellow counts of the whole image, each at most the pixel count, the pixel count, and the verdict `100*(green+yellow) > 5*total` |
| `CropValidator.CountIsCardinality` | src/App.jsx:44-56 | each count is the number of distinct pixel positions satisfying its predicate |
| `CropValidator.BothColoursPixel` | src/App.jsx:49-55 | one pixel (120,150,0) is both green-like and yellow-like |
| `CropValidator.DoubleCountedImage` | src/App.jsx:49-55 | an image made only of that pixel has green count = yellow count = pixel count, so their sum is twice the pixel count |
| `CropValidator.CombinedShareCanExceedAll` | src/App.jsx:58-60 | the combined green and yellow share can exceed one hundred percent |
| `CropValidator.PercentageThreshold` | src/App.jsx:58-63 | for a non-empty image the real-valued `green% + yellow% > 5` holds exactly when `100*(green+yellow) > 5*total` |
| `CropValidator.ExactlyFivePercentIsNotCropLike` | src/App.jsx:58-63 | an image whose real-valued green and yellow percentages add up to exactly five is not crop-like |
| `CropValidator.EmptyImageIsNotCropLike` | src/App.jsx:58-63 | an image without pixels has zero counts and is not crop-like, as `NaN > 5` is false |
| `CropValidator.OneGreenPixelIn` | src/App.jsx:58-63 | a single green-only pixel makes an image crop-like exactly when it has fewer than twenty pixels |
| `Weather.CodeConditions` | src/App.jsx:133-145 | "Rainy" exactly for codes 61–77 and 80–99; "Rain expected today" exactly for 80–99; "Light rain possible" exactly for 61–77; "Partly cloudy" exactly for 2–3; "Foggy" exactly for 45–48; "Clear" exactly for all other codes; "No rain expected today" exactly when not rainy |
| `Weather.LocationName` | src/App.jsx:109 | the label starts with the place name; it is the name alone exactly when the region is empty; a non-empty region follows the name and a two-character separator and ends the label |
| `Weather.Observe` | src/App.jsx:123-165 | a record without the error flag: the snapshot when the request fails; for a reading its temperature, humidity and wind speed, the table's condition and outlook for its code, and the given location; the outlook is the snapshot's exactly when the request failed |
| `Weather.FetchWeatherData` | src/App.jsx:98-166 | the error record exactly when a non-empty city is named and the geocoder does not know it, with the verbatim message and location "Unknown"; without a city, the forecast at the default coordinates reported for Subang Jaya; a known city read at its own coordinates and reported under its name; a failed forecast gives the snapshot whatever the city; a reading copies temperature, humidity and wind speed and maps its code by the table |
| `IntentResolver.FindCrop` | src/App.jsx:182-183 | the first dictionary entry, in declaration order, whose name the query contains; no earlier entry's name is contained |
| `IntentResolver.CropAnswer` | src/App.jsx:184-190 | price words: the answer quotes the crop, its price and its trend; pest words without price words: the crop and its pest, closing with the advice; neither: opens with the capitalised name, quotes the price and closes with the advice |
| `IntentResolver.Capitalize` | src/App.jsx:190 | same length, first letter upper-cased, the rest kept |
| `IntentResolver.RunEnd` | src/App.jsx:197-203 | the end of the run of `[a-z\s]` characters (either case) from an index: every character before it is in the class, the one at it is not |
| `IntentResolver.CaptureIsShortestGroup` | src/App.jsx:197-203 | the capture succeeds exactly when the lazy group can stop before a `?` or the end, and it is the shortest such stop |
| `IntentResolver.FirstAlternative` | src/App.jsx:197-203 | the first prefix alternative, in the order the regex tries them, that is found at an index and followed by a capture; no earlier alternative is |
| `IntentResolver.LeftmostStart` | src/App.jsx:206 | the leftmost start index at which the pattern matches (one past the end when none does); no earlier start matches |
| `IntentResolver.Search` | src/App.jsx:206 | `q.match(pattern)` fails exactly when the pattern matches at no start index |
| `IntentResolver.SearchIsLeftmostMatch` | src/App.jsx:206 | when the pattern matches, the capture is the one at the leftmost start index where it matches |
| `IntentResolver.SearchWitness` | src/App.jsx:206 | a successful match has a start index and a prefix alternative standing there, followed by a capture |
| `IntentResolver.SearchFindsMatch` | src/App.jsx:206 | a match at any start index makes `q.match` succeed |
| `IntentResolver.FirstMatching` | src/App.jsx:205-211 | the index of the first pattern that matches; no earlier pattern matches |
| `IntentResolver.ExtractCity` | src/App.jsx:196-211 | a city exactly when some pattern matches, and then the trimmed capture of the first pattern that matches |
| `IntentResolver.GenerateLocalResponse` | src/App.jsx:170-227 | never empty; for an image request the answer is the no-crop warning exactly when a validation is present and failed, and the Early Blight diagnosis exactly otherwise |
| `IntentResolver.SecondPatternEndsInFirst` | src/App.jsx:197-199 | every prefix alternative of the second pattern ends with the first pattern's "weather in " |
| `IntentResolver.SuffixPatternImplies` | src/App.jsx:197-199 | a pattern each of whose alternatives ends with another pattern's first alternative matches only where that other pattern matches too |
| `IntentResolver.SuffixAlternativeMatches` | src/App.jsx:197-199 | where an alternative ending with "weather in " is followed by a capture, the first pattern matches at its tail |
| `IntentResolver.SecondPatternNeverWins` | src/App.jsx:197-211 | whenever the second pattern matches the first matches too, so the second is never the first to match |
| `IntentResolver.SkipShadowedPattern` | src/App.jsx:205-211 | a pattern that can match only where the pattern before it matches can be dropped from the loop without changing the extracted city |
| `IntentResolver.CityWithoutSecondPattern` | src/App.jsx:197-211 | the extracted city is the same with the second pattern left out |
| `IntentResolver.FirstNamedCropDecides` | src/App.jsx:180-192 | the first dictionary name the lower-cased query contains decides the answer: the price sentence if price words appear, else the pest sentence if pest words appear, else the trading sentence |
| `IntentResolver.PriceSentenceQuotes` | src/App.jsx:185 | the price sentence quotes the entry's name, price and trend |
| `IntentResolver.PestSentenceQuotes` | src/App.jsx:188 | the pest sentence quotes the entry's name and pest and ends with its advice |
| `IntentResolver.TradingSentenceQuotes` | src/App.jsx:190 | the generic sentence opens with the capitalised name, quotes the price and ends with the advice |
| `IntentResolver.NoCropDispatch` | src/App.jsx:194-226 | with no crop named: weather words give the weather answer for the extracted city; otherwise "hello"/"hi" gives the greeting; otherwise the fallback |
| `IntentResolver.UnknownCityAnswer` | src/App.jsx:104-119 | a weather query whose extracted city the geocoder does not know gets the verbatim "Could not find weather data for …" message naming that city |
| `IntentResolver.DefaultLocationAnswer` | src/App.jsx:100-104 | a weather query without a non-empty city is answered "The forecast for Subang Jaya is …" |
| `IntentResolver.WeatherAnswer` | src/App.jsx:215-219 | the error record is answered with its message; any other report is read out as "The forecast for <location> is ", then its lower-cased condition, then after " with a temperature of " its temperature followed by "°C", then after ". Humidity is " its humidity followed by "%", and it closes with its outlook and a full stop |
| `IntentResolver.ChiliPriceAnswer` | src/App.jsx:180-185 | any query that lower-cases to "what is the price of chili?" gets "Current market price for chili is RM 12.50/kg. The trend is increasing." |
| `IntentResolver.ChiliPriceScenario` | src/App.jsx:18-24 | "What is the price of Chili?" gets chili's price and increasing trend |
| `IntentResolver.IpohQueryIsWeather` | src/App.jsx:182-194 | "weather in ipoh" names no crop and contains the weather word |
| `IntentResolver.IpohQueryCity` | src/App.jsx:196-209 | the city extracted from "weather in ipoh" is "ipoh" |
| `IntentResolver.FirstPatternDecides` | src/App.jsx:205-209 | when the first pattern matches, its trimmed capture is the city |
| `IntentResolver.UnknownIpohAnswer` | src/App.jsx:104-119 | a query lower-casing to "weather in ipoh" with an unknown city gets the message naming "ipoh" |
| `IntentResolver.UnknownIpohScenario` | src/App.jsx:206-208 | "weather in Ipoh" is reported as not found under the lower-cased name "ipoh" |
| `IntentResolver.GreetingInsideWordAnswer` | src/App.jsx:222-224 | a query lower-casing to "is this right?" gets the greeting, through the "hi" inside "this" |
| `IntentResolver.WordWithHiGreets` | src/App.jsx:222 | a query containing a word that contains "hi" ("this", "which", "think") passes the greeting test |
| `IntentResolver.IsThisRightGreets` | src/App.jsx:222 | "is this right?" passes the greeting test through its word "this" |
| `IntentResolver.GreetingInsideWordScenario` | src/App.jsx:222 | "Is this right?" gets the greeting |
| `Session.Speak` | src/App.jsx:689-706 | the result of pressing play always shows a message as playing exactly while the engine speaks |
| `Session.SpeakToggles` | src/App.jsx:689-706 | from a consistent state, pressing play on a message makes it play exactly when it was not playing; otherwise everything is silent; pressing it again silences it |
| `Session.StaleHighlightRestarts` | src/App.jsx:689 | the stop branch requires the engine to be speaking: a highlight without speech restarts the message instead |
| `Session.SpeechErrorAsWritten` | src/App.jsx:773-783 | the error handler as written, with its retry and `onstart` run: the utterance plays and is highlighted again exactly when the error was 'interrupted'; highlight and engine agree |
| `Session.PressAsWritten` | src/App.jsx:689-706 | as written, a press always leaves message `id` playing: the stop is undone by the retry of the utterance it cancelled |
| `Session.StopNeverSticks` | src/App.jsx:689-693 | as written, any number of presses on the playing message leave it playing |
| `Session.SpeechError` | src/App.jsx:773-783 | the corrected handler: the utterance plays again exactly when the interruption was not caused by the app and was not retried before |
| `Session.Press` | src/App.jsx:689-706 | with the corrected handler a press is exactly `Speak`, so a stop stays a stop |
| `Session.PressesAlternate` | src/App.jsx:689-706 | with the corrected handler, presses on the playing message alternate between silence and playing it |
| `Session.ImageGateAsWritten` | src/App.jsx:816-822 | waiting for the photo hangs exactly when an image request's photo never loads; otherwise it resumes with the validation of the corrected gate |
| `Session.ImageGate` | src/App.jsx:816-822 | a validation exactly when an image request's photo loads, and then it is the validation of its pixels |
| `Session.UnloadablePhoto` | src/App.jsx:818-821 | a photo that never loads hangs the request as written, and with the corrected gate is answered with the diagnosis (fail-open) |
| `Session.RejectedPhoto` | src/App.jsx:173-178 | a photo that loads and fails the colour check gets the no-crop warning whatever the text |
| `Session.ImageCount` | src/App.jsx:656 | the number of messages carrying an image is at most the transcript's length |
| `Session.ImageCountAppend` | src/App.jsx:660-665 | appending a message adds one to an image's count exactly when the message carries it |
| `Session.ImageCountShows` | src/App.jsx:656 | an image is counted at least once exactly when some message carries it |
| `Session.Turn` | src/App.jsx:887-891 | a turn is a user message followed by an answer without an image |
| `Session.PhotoPrompt` | src/App.jsx:656-666 | the prompt is empty exactly when some message already carries the photo; otherwise it is a single user message "Analyze this image" carrying the photo |
| `Session.AdvisorySession.constructor` | src/App.jsx:269-273 | the transcript starts empty, no hand-off is pending and the camera belongs to the diagnosis screen; the voice screen, with its defaults from src/App.jsx:610-613, is idle, in voice mode, with empty input and nothing playing |
| `Session.AdvisorySession.SpeakText` | src/App.jsx:680-706 | the new playback is `Speak` of the old one (unchanged without a synthesis engine); nothing else changes; the highlight/engine agreement is kept |
| `Session.AdvisorySession.OnUtteranceDone` | src/App.jsx:768-775 | the end or error of an utterance leaves nothing playing |
| `Session.AdvisorySession.InChat` | src/App.jsx:656 | the scan finds the photo exactly when some message of the transcript carries it |
| `Session.AdvisorySession.ProcessQuery` | src/App.jsx:813-834 | exactly one answer is appended, as resolved from the text and the corrected image gate; status returns to idle; the answer's id is played; nothing else changes |
| `Session.AdvisorySession.PostAndAnswer` | src/App.jsx:874-875 | the pair repeated at 889-890, 898-899, 906-907 and 915-916: the text is posted as the user's message and answered with `Reply`; status returns to idle; the answer's id is played; nothing else changes |
| `Session.AdvisorySession.ToggleListening` | src/App.jsx:858-910 | playback is cancelled first; listening stops back to idle; offline appends and answers the chili question; with recognition the screen listens; without it appends and answers the rice question |
| `Session.AdvisorySession.OnRecognitionResult` | src/App.jsx:887-891 | the transcript is appended as the user's message and answered, and status is idle |
| `Session.AdvisorySession.OnRecognitionError` | src/App.jsx:892-900 | the root-rot question stands in for the transcript: appended and answered, and status is idle |
| `Session.AdvisorySession.SetInputMode` | src/App.jsx:995 | only the input mode changes |
| `Session.AdvisorySession.TypeKey` | src/App.jsx:1036 | the key's text is appended to the input and nothing else changes |
| `Session.AdvisorySession.DeleteKey` | src/App.jsx:1036 | the input loses its last character, an empty input stays empty, and nothing else changes |
| `Session.AdvisorySession.HandleGo` | src/App.jsx:912-919 | blank input (after trimming) changes nothing; otherwise the untrimmed text is appended and answered, and the input is cleared and back in voice mode |
| `Session.AdvisorySession.HandleGalleryUpload` | src/App.jsx:836-850 | no file changes nothing; a file is posted with its image and answered as an image request |
| `Session.AdvisorySession.HandleCameraAction` | src/App.jsx:852-856 | the camera is marked as opened from the chat and nothing else changes |
| `Session.AdvisorySession.HandleUsePhoto` | src/App.jsx:1107-1129 | opened from the chat: the photo is posted and left as the captured photo; opened for a diagnosis: none of this state changes |
| `Session.AdvisorySession.HandleAskAI` | src/App.jsx:1139-1145 | the follow-up question is left for the voice screen and nothing else changes |
| `Session.AdvisorySession.Init` | src/App.jsx:644-673 | a pending follow-up question is posted, answered and consumed; otherwise a captured photo not yet processed is recorded, posted only if not already shown, answered as an image request and consumed; otherwise nothing is taken over |
| `Session.AdvisorySession.TakeOverPhoto` | src/App.jsx:651-671 | the captured photo is recorded as processed, posted only if no message carries it, answered as an image request and cleared; status returns to idle and the answer plays |
| `Session.AdvisorySession.Mount` | src/App.jsx:609-674 | the screen's own state starts afresh, so a pending captured photo is always taken over; a follow-up question or a photo is answered as in `Init`, status is idle and the answer is playing; with neither the screen is idle and silent |
| `Session.VoicePhotoHandOff` | src/App.jsx:1107-1119 | a photo taken from the chat ends up in the transcript exactly once, followed by its answer, even when the start-up effect runs again or the screen is opened again |
| `Session.FollowUpHandOff` | src/App.jsx:645-650 | the diagnosis follow-up is asked and answered once, however often the voice screen opens |

## Left out

- `toLowerCase` and `toUpperCase` are modelled on ASCII letters only. JavaScript also maps non-ASCII letters.
- Canvas decoding is not modelled: `drawImage`, `getImageData` and the canvas size taken from the image. The validator takes the pixel sequence directly, and the image loader is an oracle. A zero-size canvas makes `getImageData` throw. That rejects the validation, and `processQuery` stops without an answer. This path is not modelled: the loader hands over only non-empty pixel sequences (`Session.Pixels`).
- `CropValidator.ValidateCropImage`: returns the counts and the verdict. The source resolves with the percentages instead, and `CropValidator.Percentage` relates the two. The percentage threshold is stated on integers; `CropValidator.PercentageThreshold` proves it equals the real-valued test. Floating-point rounding is not modelled.
- The geocoding and forecast HTTP requests (`getCoordinates`, `fetch`) are oracle functions. Three things follow:
  - A failed geocoding request and an empty result are both "not found".
  - Any failure of the forecast request or of its response reaches the `catch`.
  - `Math.round` of the temperature is assumed applied by the oracle, which hands over an integer. The wind speed is a real number.
- Timers (`setTimeout`) are not modelled. Each handler and the work it schedules happen in one atomic method: the 800 ms delay at the start of `generateLocalResponse`, the 1 s canned-query delays, the 150 ms and 200 ms playback delays, the 200 ms speech retry and the 100 ms voice retry.
- Interleaving of recognition and synthesis callbacks with other events is not modelled.
- The recognition `onend` handler is not modelled. It tests a `status` captured when listening started, which is never "listening", so it never changes anything.
- The recognition `start()` failure path is not modelled either: the source swallows it and stays listening.
- Voice selection by name and the `onvoiceschanged` retry are left out.
- `Session.AdvisorySession.SpeakText`, `Session.AdvisorySession.ToggleListening`, `Session.AdvisorySession.Init` and `Session.SpeakToggles` treat a cancel as final. In the program, a cancel of the utterance being spoken ends it with the error 'interrupted'. The error handler (src/App.jsx:773-783) then speaks it again 200 ms later with no retry count, and its `onstart` (src/App.jsx:763-766) highlights it again. So none of these cancels lasts: not the stop press (689-693), not the cancel before another message (697-700, where the old utterance is queued after the new one), not the microphone's (860-863) and not the mount's (624). The model uses the corrected handler (`Session.SpeechError`); the press as written is `Session.PressAsWritten` (see Findings). The re-queued utterance after a switch to another message is not modelled.
- `speak()` throwing is not modelled.
- Message ids come from `Date.now()`. They are parameters here, and nothing claims they are unique.
- The voice screen is declared inside the application component, so React gives it a new identity on every application render and remounts it when shared state changes. The model keeps one screen instance between explicit `Mount` calls.
- `Session.AdvisorySession.ProcessQuery`: its playback clause holds for one screen instance only. In the program the transcript update of a turn remounts the voice screen, so the answer's autoplay (src/App.jsx:831-833) sets its highlight on the screen that is no longer shown. The engine speaks the answer while the current screen shows nothing playing. `Consistent` then fails and `Session.SpeakToggles` does not apply: the first tap on that answer restarts it instead of stopping it (`Session.StaleHighlightRestarts`). Its answer clause uses the corrected image gate: a photo that fails to load is answered with the diagnosis through `Session.ImageGate`, while the program as written never answers (`Session.ImageGateAsWritten`).
- The stale closures that remounting and timers create are not modelled. In particular, the autoplay runs `speakText` with the playing id of an older render.
- React's development double run of effects is not modelled. `Init` may be called twice to stand for it, but with current rather than stale values.
- The diagnosis flow of `handleUsePhoto` (the scan animation and result phase) is left out. So is the camera itself (`getUserMedia`, `takePhoto`, `stopCamera`) and screen navigation (`setCurrentView`), as are rendering, the upload dialog's visibility, scrolling and logging.
- The diagnosis screen's buttons that set the camera origin back to "diagnosis" (src/App.jsx:480-490) belong to the advisory home screen. They are not part of this model.

## Findings

| source | as written | input that shows it | evidently intended | confidence | as-written member | corrected member |
|---|---|---|---|---|---|---|
| src/App.jsx:773-783 | The speech error handler speaks the utterance again after every 'interrupted' error, with no retry count (its comment says "once"). A cancel of the utterance being spoken raises exactly that error, so the stop press at 689-693 is undone 200 ms later and the message plays again, highlighted. | pressing the play button of the message being spoken, any number of times: `Session.StopNeverSticks` | an utterance the app cancels itself stays cancelled, and another interruption is retried at most once | not executed | `Session.PressAsWritten` | `Session.Press` |
| src/App.jsx:818-821 | `processQuery` awaits a promise that only `img.onload` resolves and registers no `onerror`. A photo that fails to load leaves the request waiting for ever: no answer is ever appended. (The render that posted the user message has already remounted the voice screen, so the screen shown is idle; the instance that waits keeps status "processing".) | an image request whose photo URL does not decode (e.g. a revoked object URL): `Session.UnloadablePhoto` | fail-open: an image that cannot be decoded is answered as an unvalidated image request (the diagnosis) | not executed | `Session.ImageGateAsWritten` | `Session.ImageGate` |

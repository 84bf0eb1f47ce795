/**
 * The advisory session: the voice screen (`VoiceAdvisory`) with the state it
 * shares with the application (the transcript, the captured-photo hand-off,
 * the follow-up question and the camera's origin) and the camera screen's
 * "use photo" hand-off. Every event handler is one atomic method; the
 * timers between a handler and the work it schedules are not modelled, so
 * the scheduled work happens inside the same method.
 */
module Session {
  import opened Wrappers
  import opened Text
  import CropValidator
  import Weather
  import IntentResolver

  /** A message id (`Date.now()` in the source). Ids are given by the caller and need not be unique. */
  type Id = int

  /** The object URL or data URL of a photo; never empty, so always truthy. */
  type ImageRef = s: string | s != [] witness "blob:"

  datatype Author = User | Ai

  /** A transcript entry; only user messages carry an image. */
  datatype Message = Message(author: Author, text: string, image: Option<ImageRef>, id: Id)

  datatype Status = Idle | Listening | Processing

  datatype InputMode = VoiceInput | TextInput

  /** Which screen opened the camera: the diagnosis screen or the voice chat. */
  datatype CameraOrigin = FromDiagnosis | FromVoice

  /** The pixels of a decoded photo; a loaded image always has some (`getImageData` throws on a zero-size canvas). */
  type Pixels = ps: seq<CropValidator.Pixel> | |ps| > 0 witness [CropValidator.Pixel(0, 0, 0)]

  /** Decoding a photo into its pixels; `None` when the image fails to load. */
  type ImageLoader = ImageRef -> Option<Pixels>

  /** The browser services a turn depends on, as oracles. */
  datatype Services = Services(loadImage: ImageLoader, geocode: Weather.Geocoder, forecast: Weather.ForecastService)

  const AnalyzeImage: string := "Analyze this image"
  const OfflineQuery: string := "What is the price of Chili?"
  const NoRecognitionQuery: string := "Is it a good time to plant Rice?"
  const RecognitionErrorQuery: string := "How do I prevent root rot?"
  const FollowUpQuery: string :=
    "I found a problem with my tomato plant. It has Early Blight. What are the organic treatments?"

  // ----- Playback -----

  /** Which message the screen shows as playing, and whether the speech engine is speaking. */
  datatype Playback = Playback(playing: Option<Id>, speaking: bool)

  const Silent: Playback := Playback(None, false)

  /** A message is shown as playing exactly while the engine speaks. */
  predicate Consistent(pb: Playback)
  {
    pb.playing.Some? <==> pb.speaking
  }

  /**
   * The play button of message `id` (`speakText`): on the message that is
   * playing, while the engine speaks, it cancels and stops; on any other
   * message it cancels what is speaking and starts `id`.
   */
  function Speak(pb: Playback, id: Id): (r: Playback)
    ensures Consistent(r)
  {
    if pb.playing == Some(id) && pb.speaking then Silent else Playback(Some(id), true)
  }

  /** On a consistent state the button toggles: `id` plays afterwards exactly when it did not before. */
  lemma SpeakToggles(pb: Playback, id: Id)
    requires Consistent(pb)
    ensures Speak(pb, id).playing == Some(id) <==> pb.playing != Some(id)
    ensures Speak(pb, id).playing != Some(id) ==> Speak(pb, id) == Silent
    ensures Speak(pb, id).playing == Some(id) ==> Speak(Speak(pb, id), id) == Silent
  {
  }

  /** Without the engine check the toggle would fail: a stale highlight restarts instead of stopping. */
  lemma StaleHighlightRestarts(id: Id)
    ensures !Consistent(Playback(Some(id), false))
    ensures Speak(Playback(Some(id), false), id) == Playback(Some(id), true)
  {
  }

  // ----- The speech error handler -----

  /**
   * The utterance's error handler as written, once its 200 ms retry and the
   * start handler have run: it clears the highlight and, on 'interrupted',
   * speaks the same utterance `id` again, whose start highlights it again.
   * It counts no retries, and a cancel of the utterance being spoken always
   * ends it with 'interrupted'.
   */
  function SpeechErrorAsWritten(id: Id, interrupted: bool): (r: Playback)
    ensures Consistent(r)
    ensures r.playing == Some(id) <==> interrupted
  {
    if interrupted then Playback(Some(id), true) else Silent
  }

  /** A play-button press as written, through the handlers of the utterance a stop cancels. */
  function PressAsWritten(pb: Playback, id: Id): (r: Playback)
    ensures Consistent(r)
    // No press ever silences: a stop is undone by the retry.
    ensures r.playing == Some(id)
  {
    var next := Speak(pb, id);
    if next == Silent then SpeechErrorAsWritten(id, true) else next
  }

  /**
   * The error handler with the retry kept for interruptions the app did not
   * cause, and at most once: an utterance the app cancels stays cancelled.
   */
  function SpeechError(id: Id, interrupted: bool, cancelledByApp: bool, retried: bool): (r: Playback)
    ensures Consistent(r)
    ensures r.playing == Some(id) <==> interrupted && !cancelledByApp && !retried
  {
    if interrupted && !cancelledByApp && !retried then Playback(Some(id), true) else Silent
  }

  /** A play-button press with the corrected handler. */
  function Press(pb: Playback, id: Id): (r: Playback)
    ensures Consistent(r)
    ensures r == Speak(pb, id)
  {
    var next := Speak(pb, id);
    if next == Silent then SpeechError(id, true, true, false) else next
  }

  /** `n` presses in a row on the button of message `id`. */
  function PressesAsWritten(pb: Playback, id: Id, n: nat): Playback
  {
    if n == 0 then pb else PressAsWritten(PressesAsWritten(pb, id, n - 1), id)
  }

  function Presses(pb: Playback, id: Id, n: nat): Playback
  {
    if n == 0 then pb else Press(Presses(pb, id, n - 1), id)
  }

  /** As written, however often the button of the playing message is pressed, it keeps playing. */
  lemma {:induction false} StopNeverSticks(pb: Playback, id: Id, n: nat)
    requires pb.playing == Some(id) && pb.speaking
    ensures PressesAsWritten(pb, id, n) == pb
  {
    if n > 0 {
      StopNeverSticks(pb, id, n - 1);
    }
  }

  /** With the corrected handler, presses on the playing message alternate between silence and playing it. */
  lemma {:induction false} PressesAlternate(pb: Playback, id: Id, n: nat)
    requires pb.playing == Some(id) && pb.speaking
    ensures Presses(pb, id, n) == if n % 2 == 0 then pb else Silent
  {
    if n > 0 {
      PressesAlternate(pb, id, n - 1);
    }
  }

  // ----- The image gate -----

  /** The outcome of waiting for a photo to load before validating it. */
  datatype GateOutcome = Resumes(validation: Option<CropValidator.Validation>) | Hangs

  /**
   * The image step of `processQuery` as written: it waits for `onload` and
   * registers no error handler, so a photo that fails to load is waited on
   * for ever.
   */
  function ImageGateAsWritten(hasImage: bool, imageSrc: Option<ImageRef>, load: ImageLoader): (g: GateOutcome)
    ensures g.Hangs? <==> hasImage && imageSrc.Some? && load(imageSrc.value).None?
    ensures g.Resumes? ==> g.validation == ImageGate(hasImage, imageSrc, load)
  {
    if hasImage && imageSrc.Some? then
      match load(imageSrc.value)
      case None => Hangs
      case Some(pixels) => Resumes(Some(CropValidator.ValidationOf(pixels)))
    else Resumes(None)
  }

  /**
   * The image step with a failure branch (fail-open): a photo that cannot be
   * decoded is answered without a validation, like an unvalidated image request.
   */
  function ImageGate(hasImage: bool, imageSrc: Option<ImageRef>, load: ImageLoader): (v: Option<CropValidator.Validation>)
    ensures v.Some? <==> hasImage && imageSrc.Some? && load(imageSrc.value).Some?
    ensures v.Some? ==> v.value == CropValidator.ValidationOf(load(imageSrc.value).value)
  {
    if hasImage && imageSrc.Some? && load(imageSrc.value).Some? then
      Some(CropValidator.ValidationOf(load(imageSrc.value).value))
    else None
  }

  /** The answer `processQuery` appends for a request. */
  function Reply(text: string, hasImage: bool, imageSrc: Option<ImageRef>, svc: Services): string
  {
    IntentResolver.GenerateLocalResponse(text, hasImage, ImageGate(hasImage, imageSrc, svc.loadImage),
                                         svc.geocode, svc.forecast)
  }

  /**
   * A photo that never loads: as written the request never gets past the
   * image step (no answer; the waiting screen instance keeps `processing`,
   * while the remounted screen shown is idle); with the gate failing open
   * it is answered with the diagnosis.
   */
  lemma UnloadablePhoto(img: ImageRef, svc: Services)
    requires svc.loadImage(img).None?
    ensures ImageGateAsWritten(true, Some(img), svc.loadImage) == Hangs
    ensures Reply(AnalyzeImage, true, Some(img), svc) == IntentResolver.Diagnosis
  {
  }

  /** A photo that loads and fails the colour check gets the warning, whatever the query text. */
  lemma RejectedPhoto(text: string, img: ImageRef, svc: Services)
    requires svc.loadImage(img).Some?
    requires !CropValidator.ValidationOf(svc.loadImage(img).value).hasCropColors
    ensures Reply(text, true, Some(img), svc) == IntentResolver.NoCropWarning
  {
  }

  // ----- The transcript -----

  /** Some message of `h` carries image `img` (`chatHistory.some(msg => msg.image === img)`). */
  predicate ShowsImage(h: seq<Message>, img: ImageRef)
  {
    exists i :: 0 <= i < |h| && h[i].image == Some(img)
  }

  /** How many messages of `h` carry image `img`. */
  function ImageCount(h: seq<Message>, img: ImageRef): (n: nat)
    ensures n <= |h|
  {
    if h == [] then 0
    else ImageCount(h[..|h| - 1], img) + (if h[|h| - 1].image == Some(img) then 1 else 0)
  }

  lemma ImageCountAppend(h: seq<Message>, m: Message, img: ImageRef)
    ensures ImageCount(h + [m], img) == ImageCount(h, img) + (if m.image == Some(img) then 1 else 0)
  {
    assert (h + [m])[..|h|] == h;
  }

  /** The image is shown somewhere exactly when it is counted at least once. */
  lemma {:induction false} ImageCountShows(h: seq<Message>, img: ImageRef)
    ensures ImageCount(h, img) > 0 <==> ShowsImage(h, img)
  {
    if h != [] {
      var init := h[..|h| - 1];
      ImageCountShows(init, img);
      if ShowsImage(init, img) {
        var i :| 0 <= i < |init| && init[i].image == Some(img);
        assert h[i] == init[i];
      }
      if ShowsImage(h, img) && h[|h| - 1].image != Some(img) {
        var i :| 0 <= i < |h| && h[i].image == Some(img);
        assert init[i] == h[i];
      }
    }
  }

  /** A user message and the answer to it. */
  function Turn(text: string, image: Option<ImageRef>, userId: Id, answer: string, aiId: Id): (t: seq<Message>)
    ensures |t| == 2 && t[0].author == User && t[1].author == Ai && t[1].image.None?
  {
    [Message(User, text, image, userId), Message(Ai, answer, None, aiId)]
  }

  /** The prompt `init` adds for a captured photo: none when the photo is already in the transcript. */
  function PhotoPrompt(h: seq<Message>, img: ImageRef, userId: Id): (p: seq<Message>)
    ensures p == [] <==> ShowsImage(h, img)
    ensures p != [] ==> |p| == 1 && p[0].author == User && p[0].image == Some(img) && p[0].id == userId
    ensures p != [] ==> p[0].text == AnalyzeImage
  {
    if ShowsImage(h, img) then [] else [Message(User, AnalyzeImage, Some(img), userId)]
  }

  // ----- The session -----

  /** The parts of the state that belong to the application and survive the voice screen. */
  datatype Shared = Shared(chatHistory: seq<Message>, capturedPhoto: Option<ImageRef>,
                           voiceContext: Option<string>, cameraOrigin: CameraOrigin)

  /** The voice screen's own state, reset whenever the screen mounts. */
  datatype Screen = Screen(status: Status, inputMode: InputMode, textInput: string,
                           processedPhotoRef: Option<ImageRef>)

  class AdvisorySession {
    var chatHistory: seq<Message>
    var capturedPhoto: Option<ImageRef>
    var voiceContext: Option<string>
    var cameraOrigin: CameraOrigin

    var status: Status
    var inputMode: InputMode
    var textInput: string
    var playingMessageId: Option<Id>
    var processedPhotoRef: Option<ImageRef>

    /** Whether the browser has a speech-synthesis engine, and whether it is speaking. */
    const synthesisAvailable: bool
    var speaking: bool

    function SharedState(): Shared
      reads this
    {
      Shared(chatHistory, capturedPhoto, voiceContext, cameraOrigin)
    }

    function ScreenState(): Screen
      reads this
    {
      Screen(status, inputMode, textInput, processedPhotoRef)
    }

    function CurrentPlayback(): Playback
      reads this
    {
      Playback(playingMessageId, speaking)
    }

    /** The playback after `speakText(id)`: a browser without the engine ignores the call. */
    function Spoken(pb: Playback, id: Id): Playback
    {
      if synthesisAvailable then Speak(pb, id) else pb
    }

    /** The highlight agrees with the engine, and there is no engine to speak without synthesis. */
    predicate SpeechValid()
      reads this
    {
      Consistent(CurrentPlayback()) && (!synthesisAvailable ==> !speaking)
    }

    /** Between events the session is never half-way through a request. */
    predicate Valid()
      reads this
    {
      SpeechValid() && status != Processing
    }

    /** The application starts with an empty transcript; the voice screen with idle, silent defaults. */
    constructor(synthesisAvailable: bool)
      ensures Valid()
      ensures this.synthesisAvailable == synthesisAvailable
      ensures SharedState() == Shared([], None, None, FromDiagnosis)
      ensures ScreenState() == Screen(Idle, VoiceInput, "", None)
      ensures CurrentPlayback() == Silent
    {
      this.synthesisAvailable := synthesisAvailable;
      chatHistory := [];
      capturedPhoto := None;
      voiceContext := None;
      cameraOrigin := FromDiagnosis;
      status := Idle;
      inputMode := VoiceInput;
      textInput := "";
      playingMessageId := None;
      processedPhotoRef := None;
      speaking := false;
    }

    /** `speakText(text, voice, msgId)`: toggle the playback of message `msgId`. */
    method SpeakText(msgId: Id)
      requires SpeechValid()
      modifies this
      ensures SpeechValid()
      ensures CurrentPlayback() == Spoken(old(CurrentPlayback()), msgId)
      ensures SharedState() == old(SharedState()) && ScreenState() == old(ScreenState())
    {
      if !synthesisAvailable {
        return;
      }
      if playingMessageId == Some(msgId) && speaking {
        speaking := false;
        playingMessageId := None;
        return;
      }
      if speaking {
        speaking := false;
      }
      playingMessageId := Some(msgId);
      speaking := true;
    }

    /** The utterance's `onend` or `onerror`: nothing is playing any more. */
    method OnUtteranceDone()
      requires SpeechValid()
      modifies this
      ensures SpeechValid()
      ensures CurrentPlayback() == Silent
      ensures SharedState() == old(SharedState()) && ScreenState() == old(ScreenState())
    {
      playingMessageId := None;
      speaking := false;
    }

    /** Whether some message of the transcript carries `img` (the `some` scan in `init`). */
    method InChat(img: ImageRef) returns (found: bool)
      ensures found <==> ShowsImage(chatHistory, img)
    {
      var i := 0;
      while i < |chatHistory|
        invariant 0 <= i <= |chatHistory|
        invariant forall j :: 0 <= j < i ==> chatHistory[j].image != Some(img)
      {
        if chatHistory[i].image == Some(img) {
          return true;
        }
        i := i + 1;
      }
      return false;
    }

    /**
     * `processQuery(userText, hasImage, imageSrc)`: validate the photo if there
     * is one, append exactly one answer, return to idle and read the answer aloud.
     */
    method ProcessQuery(userText: string, hasImage: bool, imageSrc: Option<ImageRef>, aiId: Id, svc: Services)
      requires SpeechValid()
      modifies this
      ensures Valid()
      ensures SharedState() == old(SharedState()).(chatHistory :=
                old(chatHistory) + [Message(Ai, Reply(userText, hasImage, imageSrc, svc), None, aiId)])
      ensures ScreenState() == old(ScreenState()).(status := Idle)
      ensures CurrentPlayback() == Spoken(old(CurrentPlayback()), aiId)
    {
      status := Processing;
      var imageValidation: Option<CropValidator.Validation> := None;
      if hasImage && imageSrc.Some? {
        var loaded := svc.loadImage(imageSrc.value);
        if loaded.Some? {
          var v := CropValidator.ValidateCropImage(loaded.value);
          imageValidation := Some(v);
        }
      }
      var aiText := IntentResolver.GenerateLocalResponse(userText, hasImage, imageValidation, svc.geocode, svc.forecast);
      chatHistory := chatHistory + [Message(Ai, aiText, None, aiId)];
      status := Idle;
      SpeakText(aiId);
    }

    /** A text turn: post `text` as the user's message, then answer it. */
    method PostAndAnswer(text: string, userId: Id, aiId: Id, svc: Services)
      requires SpeechValid()
      modifies this
      ensures Valid()
      ensures SharedState() == old(SharedState()).(chatHistory :=
                old(chatHistory) + Turn(text, None, userId, Reply(text, false, None, svc), aiId))
      ensures ScreenState() == old(ScreenState()).(status := Idle)
      ensures CurrentPlayback() == Spoken(old(CurrentPlayback()), aiId)
    {
      chatHistory := chatHistory + [Message(User, text, None, userId)];
      ProcessQuery(text, false, None, aiId, svc);
    }

    /**
     * The microphone button (`toggleListening`). Without a synthesis engine
     * the handler fails on its first line and changes nothing.
     */
    method ToggleListening(online: bool, recognitionAvailable: bool, userId: Id, aiId: Id, svc: Services)
      requires Valid()
      modifies this
      ensures Valid()
      ensures SharedState().capturedPhoto == old(capturedPhoto) && SharedState().voiceContext == old(voiceContext)
      ensures cameraOrigin == old(cameraOrigin) && inputMode == old(inputMode)
      ensures textInput == old(textInput) && processedPhotoRef == old(processedPhotoRef)
      ensures !synthesisAvailable ==> SharedState() == old(SharedState()) && ScreenState() == old(ScreenState()) &&
                                      CurrentPlayback() == old(CurrentPlayback())
      // Listening: stop, back to idle.
      ensures synthesisAvailable && old(status) == Listening ==>
                status == Idle && chatHistory == old(chatHistory) && CurrentPlayback() == Silent
      // Offline: the canned chili question, answered straight away.
      ensures synthesisAvailable && old(status) != Listening && !online ==>
                status == Idle && CurrentPlayback() == Speak(Silent, aiId) &&
                chatHistory == old(chatHistory) + Turn(OfflineQuery, None, userId, Reply(OfflineQuery, false, None, svc), aiId)
      // Online with speech recognition: listen.
      ensures synthesisAvailable && old(status) != Listening && online && recognitionAvailable ==>
                status == Listening && chatHistory == old(chatHistory) && CurrentPlayback() == Silent
      // Online without it: the canned rice question.
      ensures synthesisAvailable && old(status) != Listening && online && !recognitionAvailable ==>
                status == Idle && CurrentPlayback() == Speak(Silent, aiId) &&
                chatHistory == old(chatHistory) +
                               Turn(NoRecognitionQuery, None, userId, Reply(NoRecognitionQuery, false, None, svc), aiId)
    {
      if !synthesisAvailable {
        return;
      }
      if speaking {
        speaking := false;
        playingMessageId := None;
      }
      if status == Listening {
        status := Idle;
        return;
      }
      if !online {
        status := Processing;
        PostAndAnswer(OfflineQuery, userId, aiId, svc);
        return;
      }
      if recognitionAvailable {
        status := Listening;
        return;
      }
      PostAndAnswer(NoRecognitionQuery, userId, aiId, svc);
    }

    /** Recognition's `onresult`: the transcript becomes the user's message and is answered. */
    method OnRecognitionResult(transcript: string, userId: Id, aiId: Id, svc: Services)
      requires Valid()
      modifies this
      ensures Valid()
      ensures SharedState() == old(SharedState()).(chatHistory :=
                old(chatHistory) + Turn(transcript, None, userId, Reply(transcript, false, None, svc), aiId))
      ensures ScreenState() == old(ScreenState()).(status := Idle)
      ensures CurrentPlayback() == Spoken(old(CurrentPlayback()), aiId)
    {
      PostAndAnswer(transcript, userId, aiId, svc);
    }

    /** Recognition's `onerror`: the canned root-rot question stands in for the lost transcript. */
    method OnRecognitionError(userId: Id, aiId: Id, svc: Services)
      requires Valid()
      modifies this
      ensures Valid()
      ensures SharedState() == old(SharedState()).(chatHistory :=
                old(chatHistory) +
                Turn(RecognitionErrorQuery, None, userId, Reply(RecognitionErrorQuery, false, None, svc), aiId))
      ensures ScreenState() == old(ScreenState()).(status := Idle)
      ensures CurrentPlayback() == Spoken(old(CurrentPlayback()), aiId)
    {
      status := Processing;
      PostAndAnswer(RecognitionErrorQuery, userId, aiId, svc);
    }

    /** The keyboard and close buttons switch between voice and text input. */
    method SetInputMode(mode: InputMode)
      requires Valid()
      modifies this
      ensures Valid()
      ensures SharedState() == old(SharedState()) && ScreenState() == old(ScreenState()).(inputMode := mode)
      ensures CurrentPlayback() == old(CurrentPlayback())
    {
      inputMode := mode;
    }

    /** The on-screen keyboard's key: append the key's text to the input. */
    method TypeKey(key: string)
      requires Valid()
      modifies this
      ensures Valid()
      ensures SharedState() == old(SharedState()) && ScreenState() == old(ScreenState()).(textInput := old(textInput) + key)
      ensures CurrentPlayback() == old(CurrentPlayback())
    {
      textInput := textInput + key;
    }

    /** The on-screen keyboard's delete: drop the last character (`slice(0, -1)`, a no-op on ""). */
    method DeleteKey()
      requires Valid()
      modifies this
      ensures Valid()
      ensures old(textInput) == [] ==> textInput == []
      ensures old(textInput) != [] ==> textInput + [old(textInput)[|old(textInput)| - 1]] == old(textInput)
      ensures SharedState() == old(SharedState()) && ScreenState() == old(ScreenState()).(textInput := textInput)
      ensures CurrentPlayback() == old(CurrentPlayback())
    {
      if textInput != [] {
        textInput := textInput[..|textInput| - 1];
      }
    }

    /** The send button (`handleGo`): typed text that is not blank is sent as it was typed. */
    method HandleGo(userId: Id, aiId: Id, svc: Services)
      requires Valid()
      modifies this
      ensures Valid()
      ensures Trim(old(textInput)) == [] ==>
                SharedState() == old(SharedState()) && ScreenState() == old(ScreenState()) &&
                CurrentPlayback() == old(CurrentPlayback())
      ensures Trim(old(textInput)) != [] ==>
                SharedState() == old(SharedState()).(chatHistory :=
                  old(chatHistory) + Turn(old(textInput), None, userId, Reply(old(textInput), false, None, svc), aiId)) &&
                ScreenState() == old(ScreenState()).(status := Idle, inputMode := VoiceInput, textInput := "") &&
                CurrentPlayback() == Spoken(old(CurrentPlayback()), aiId)
    {
      if Trim(textInput) != [] {
        inputMode := VoiceInput;
        PostAndAnswer(textInput, userId, aiId, svc);
        textInput := "";
      }
    }

    /** The gallery picker (`handleGalleryUpload`): the chosen photo is posted and analysed. */
    method HandleGalleryUpload(file: Option<ImageRef>, userId: Id, aiId: Id, svc: Services)
      requires Valid()
      modifies this
      ensures Valid()
      ensures file.None? ==>
                SharedState() == old(SharedState()) && ScreenState() == old(ScreenState()) &&
                CurrentPlayback() == old(CurrentPlayback())
      ensures file.Some? ==>
                SharedState() == old(SharedState()).(chatHistory :=
                  old(chatHistory) + Turn(AnalyzeImage, file, userId, Reply(AnalyzeImage, true, file, svc), aiId)) &&
                ScreenState() == old(ScreenState()).(status := Idle) &&
                CurrentPlayback() == Spoken(old(CurrentPlayback()), aiId)
    {
      if file.Some? {
        chatHistory := chatHistory + [Message(User, AnalyzeImage, file, userId)];
        ProcessQuery(AnalyzeImage, true, file, aiId, svc);
      }
    }

    /** The camera button of the upload dialog (`handleCameraAction`): the camera is opened for the chat. */
    method HandleCameraAction()
      requires Valid()
      modifies this
      ensures Valid()
      ensures SharedState() == old(SharedState()).(cameraOrigin := FromVoice)
      ensures ScreenState() == old(ScreenState()) && CurrentPlayback() == old(CurrentPlayback())
    {
      cameraOrigin := FromVoice;
    }

    /**
     * The camera screen's "use photo" (`handleUsePhoto`). Opened from the chat,
     * it posts the photo and leaves it for the voice screen to answer; opened
     * for a diagnosis, it starts the scan, which changes none of this state.
     */
    method HandleUsePhoto(imgSrc: Option<ImageRef>, userId: Id)
      requires Valid()
      modifies this
      ensures Valid()
      ensures old(cameraOrigin) == FromVoice ==>
                SharedState() == old(SharedState()).(chatHistory :=
                  old(chatHistory) + [Message(User, AnalyzeImage, imgSrc, userId)], capturedPhoto := imgSrc)
      ensures old(cameraOrigin) == FromDiagnosis ==> SharedState() == old(SharedState())
      ensures ScreenState() == old(ScreenState()) && CurrentPlayback() == old(CurrentPlayback())
    {
      if cameraOrigin == FromVoice {
        chatHistory := chatHistory + [Message(User, AnalyzeImage, imgSrc, userId)];
        capturedPhoto := imgSrc;
      }
    }

    /** The diagnosis result's "ask AI" (`handleAskAI`): leave the follow-up question for the voice screen. */
    method HandleAskAI()
      requires Valid()
      modifies this
      ensures Valid()
      ensures SharedState() == old(SharedState()).(voiceContext := Some(FollowUpQuery))
      ensures ScreenState() == old(ScreenState()) && CurrentPlayback() == old(CurrentPlayback())
    {
      voiceContext := Some(FollowUpQuery);
    }

    /**
     * The voice screen's start-up effect: silence the engine, then take over
     * a pending follow-up question or, failing that, a captured photo not yet
     * processed on this screen.
     */
    method Init(userId: Id, aiId: Id, svc: Services)
      requires Valid()
      modifies this
      ensures Valid()
      ensures cameraOrigin == old(cameraOrigin) && inputMode == old(inputMode) && textInput == old(textInput)
      // A pending follow-up question is posted and answered, and consumed.
      ensures old(voiceContext).Some? ==>
                var q := old(voiceContext).value;
                chatHistory == old(chatHistory) + Turn(q, None, userId, Reply(q, false, None, svc), aiId) &&
                voiceContext.None? && capturedPhoto == old(capturedPhoto) &&
                processedPhotoRef == old(processedPhotoRef) && status == Idle &&
                CurrentPlayback() == Spoken(Silent, aiId)
      // A new captured photo is recorded first, posted unless already shown, answered, and consumed.
      ensures old(voiceContext).None? && old(capturedPhoto).Some? && old(processedPhotoRef) != old(capturedPhoto) ==>
                var img := old(capturedPhoto).value;
                processedPhotoRef == Some(img) && capturedPhoto.None? && voiceContext.None? &&
                chatHistory == old(chatHistory) + PhotoPrompt(old(chatHistory), img, userId) +
                               [Message(Ai, Reply(AnalyzeImage, true, Some(img), svc), None, aiId)] &&
                status == Idle && CurrentPlayback() == Spoken(Silent, aiId)
      // Otherwise nothing is taken over.
      ensures old(voiceContext).None? && (old(capturedPhoto).None? || old(processedPhotoRef) == old(capturedPhoto)) ==>
                SharedState() == old(SharedState()) && ScreenState() == old(ScreenState()) &&
                CurrentPlayback() == Silent
    {
      // `speechSynthesis.cancel()`; the cancelled utterance's error handler clears the highlight.
      speaking := false;
      playingMessageId := None;
      if voiceContext.Some? {
        var q := voiceContext.value;
        voiceContext := None;
        PostAndAnswer(q, userId, aiId, svc);
      } else if capturedPhoto.Some? && processedPhotoRef != capturedPhoto {
        TakeOverPhoto(userId, aiId, svc);
      }
    }

    /** The photo branch of the start-up effect: record the photo, post it unless shown, answer and consume it. */
    method TakeOverPhoto(userId: Id, aiId: Id, svc: Services)
      requires SpeechValid() && status != Processing && voiceContext.None? && capturedPhoto.Some?
      modifies this
      ensures Valid()
      ensures var img := old(capturedPhoto).value;
              SharedState() == old(SharedState()).(capturedPhoto := None, chatHistory :=
                old(chatHistory) + PhotoPrompt(old(chatHistory), img, userId) +
                [Message(Ai, Reply(AnalyzeImage, true, Some(img), svc), None, aiId)]) &&
              ScreenState() == old(ScreenState()).(status := Idle, processedPhotoRef := Some(img))
      ensures CurrentPlayback() == Spoken(old(CurrentPlayback()), aiId)
    {
      var img := capturedPhoto.value;
      processedPhotoRef := capturedPhoto;
      var alreadyInChat := InChat(img);
      if !alreadyInChat {
        chatHistory := chatHistory + [Message(User, AnalyzeImage, Some(img), userId)];
      }
      capturedPhoto := None;
      ProcessQuery(AnalyzeImage, true, Some(img), aiId, svc);
    }

    /** Opening the voice screen: its own state starts afresh, then its start-up effect runs. */
    method Mount(userId: Id, aiId: Id, svc: Services)
      requires SpeechValid()
      modifies this
      ensures Valid()
      ensures cameraOrigin == old(cameraOrigin) && inputMode == VoiceInput && textInput == ""
      ensures old(voiceContext).Some? ==>
                var q := old(voiceContext).value;
                chatHistory == old(chatHistory) + Turn(q, None, userId, Reply(q, false, None, svc), aiId) &&
                voiceContext.None? && capturedPhoto == old(capturedPhoto) && processedPhotoRef.None? &&
                status == Idle && CurrentPlayback() == Spoken(Silent, aiId)
      ensures old(voiceContext).None? && old(capturedPhoto).Some? ==>
                var img := old(capturedPhoto).value;
                processedPhotoRef == Some(img) && capturedPhoto.None? && voiceContext.None? &&
                chatHistory == old(chatHistory) + PhotoPrompt(old(chatHistory), img, userId) +
                               [Message(Ai, Reply(AnalyzeImage, true, Some(img), svc), None, aiId)] &&
                status == Idle && CurrentPlayback() == Spoken(Silent, aiId)
      ensures old(voiceContext).None? && old(capturedPhoto).None? ==>
                SharedState() == old(SharedState()) && ScreenState() == Screen(Idle, VoiceInput, "", None) &&
                CurrentPlayback() == Silent
    {
      status := Idle;
      inputMode := VoiceInput;
      textInput := "";
      playingMessageId := None;
      processedPhotoRef := None;
      speaking := false;
      Init(userId, aiId, svc);
    }
  }

  // ----- The photo hand-off -----

  /**
   * A photo taken from the chat ends up in the transcript exactly once: the
   * camera screen posts it, the voice screen answers it without posting it
   * again, and neither a second run of the start-up effect nor a later visit
   * to the voice screen posts or answers it again.
   */
  method VoicePhotoHandOff(s: AdvisorySession, img: ImageRef, ids: seq<Id>, svc: Services)
    requires s.Valid() && |ids| == 7
    requires s.cameraOrigin == FromVoice && s.voiceContext.None?
    requires ImageCount(s.chatHistory, img) == 0
    modifies s
    ensures ImageCount(s.chatHistory, img) == 1
    ensures s.capturedPhoto.None?
    ensures |s.chatHistory| == |old(s.chatHistory)| + 2
    ensures s.chatHistory[|s.chatHistory| - 1] == Message(Ai, Reply(AnalyzeImage, true, Some(img), svc), None, ids[2])
  {
    var h0 := s.chatHistory;
    s.HandleUsePhoto(Some(img), ids[0]);
    ImageCountAppend(h0, Message(User, AnalyzeImage, Some(img), ids[0]), img);
    ImageCountShows(s.chatHistory, img);
    var h1 := s.chatHistory;
    s.Mount(ids[1], ids[2], svc);
    assert PhotoPrompt(h1, img, ids[1]) == [];
    assert h1 + [] == h1;
    ImageCountAppend(h1, Message(Ai, Reply(AnalyzeImage, true, Some(img), svc), None, ids[2]), img);
    var h2 := s.chatHistory;
    s.Init(ids[3], ids[4], svc);
    assert s.chatHistory == h2;
    s.Mount(ids[5], ids[6], svc);
    assert s.chatHistory == h2;
  }

  /** A follow-up question from the diagnosis screen is asked once, however often the voice screen opens. */
  method FollowUpHandOff(s: AdvisorySession, ids: seq<Id>, svc: Services)
    requires s.Valid() && |ids| == 4
    requires s.capturedPhoto.None?
    modifies s
    ensures s.voiceContext.None?
    ensures s.chatHistory == old(s.chatHistory) +
              Turn(FollowUpQuery, None, ids[0], Reply(FollowUpQuery, false, None, svc), ids[1])
  {
    s.HandleAskAI();
    s.Mount(ids[0], ids[1], svc);
    s.Mount(ids[2], ids[3], svc);
  }
}

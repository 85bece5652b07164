/** The browser page driven by the client script: the elements tagged for
    translation, the single toast slot, and the speech-recognition flags. The
    network, the speech engines and the DOM itself are outside the model: replies
    and engine events arrive as method calls. */
module ClientPage {
  import opened Text

  /** The built-in translation table: language code to content-key to text. */
  const Translations: map<string, map<string, string>> := map[
    "hindi" := map[
      "welcome" := "स्वागत है किसान!",
      "scanCrop" := "फसल स्कैन करें",
      "askAI" := "एआई से पूछें"],
    "english" := map[
      "welcome" := "Welcome Farmer!",
      "scanCrop" := "Scan Crop",
      "askAI" := "Ask AI"]
  ]

  const FallbackLanguage: string := "english"

  /** The table used for `lang`: its own when the code is known, English otherwise. */
  function ChosenTable(lang: string): (t: map<string, string>)
    ensures lang in Translations ==> t == Translations[lang]
    ensures lang !in Translations ==> t == Translations[FallbackLanguage]
  {
    if lang in Translations then Translations[lang] else Translations[FallbackLanguage]
  }

  /** A page element; `key` is its `data-translate` attribute, `None` when untagged. */
  datatype Element = Element(key: Option<string>, text: string)

  /** One element after the substitution: a tagged element whose key has a
      non-empty entry takes that entry; every other element keeps its text. */
  function Localize(e: Element, table: map<string, string>): (r: Element)
    ensures r.key == e.key
    ensures !(e.key.Some? && e.key.value in table && table[e.key.value] != "") ==> r == e
    ensures e.key.Some? && e.key.value in table && table[e.key.value] != "" ==>
              r.text == table[e.key.value]
  {
    if e.key.Some? && e.key.value in table && table[e.key.value] != "" then
      e.(text := table[e.key.value])
    else
      e
  }

  /** Every element after the substitution, in document order. */
  function LocalizeAll(es: seq<Element>, table: map<string, string>): (rs: seq<Element>)
    ensures |rs| == |es|
    ensures forall i :: 0 <= i < |es| ==> rs[i] == Localize(es[i], table)
  {
    seq(|es|, i requires 0 <= i < |es| => Localize(es[i], table))
  }

  /** Substituting twice with the same table is substituting once. */
  lemma LocalizeAllIdempotent(es: seq<Element>, table: map<string, string>)
    ensures LocalizeAll(LocalizeAll(es, table), table) == LocalizeAll(es, table)
  {
  }

  /** No per-key fallback: a tagged element whose key is missing from a known
      language's table keeps its text even when English has the key. */
  lemma NoPerKeyFallback(e: Element, lang: string)
    requires lang in Translations && e.key.Some? && e.key.value !in Translations[lang]
    ensures Localize(e, ChosenTable(lang)) == e
  {
  }

  /** An unknown code shows English: a tagged 'welcome' element reads 'Welcome Farmer!'. */
  lemma UnknownLanguageShowsEnglish(lang: string, oldText: string)
    requires lang !in Translations
    ensures Localize(Element(Some("welcome"), oldText), ChosenTable(lang)).text == "Welcome Farmer!"
  {
  }

  /** A toast node: its message and its kind ('success', 'error', 'warning'). */
  datatype Toast = Toast(message: string, kind: string)

  /** The call a tap on the microphone makes on the recognition object. */
  datatype Command =
    | StartRecognition
    | StopRecognition
    | NullRecognition   // `recognition` is still null: the call throws a TypeError

  /** The outcome of the `/change-language` request: a transport or JSON failure,
      or the reply's `success` field. */
  datatype LanguageReply = Failed | Answered(success: bool)

  const ListeningStatus: string := "Listening..."
  const IdleStatus: string := "Tap mic to speak"

  class Page {
    var elements: seq<Element>
    var toasts: seq<Toast>
    /** `recognition` is non-null. */
    var hasRecognition: bool
    var isListening: bool
    /** The mic button carries the 'listening' class. */
    var micHighlighted: bool
    var statusText: string

    /** At most one toast is shown; only an existing recognition can be listening,
        and the mic button is highlighted exactly while it listens. */
    ghost predicate Valid()
      reads this
    {
      |toasts| <= 1 && (isListening ==> hasRecognition) && micHighlighted == isListening
    }

    /** The page as loaded: no toast, no recognition yet. */
    constructor (elements: seq<Element>, statusText: string)
      ensures Valid()
      ensures this.elements == elements && this.statusText == statusText
      ensures toasts == [] && !hasRecognition && !isListening && !micHighlighted
    {
      this.elements := elements;
      this.statusText := statusText;
      toasts := [];
      hasRecognition := false;
      isListening := false;
      micHighlighted := false;
    }

    /** `showToast(message, kind)`: the first toast in the document, if any, is
        removed and the new one appended. */
    method ShowToast(message: string, kind: string)
      requires Valid()
      modifies this
      ensures Valid()
      ensures toasts == (if old(toasts) == [] then [] else old(toasts)[1..]) + [Toast(message, kind)]
      ensures toasts == [Toast(message, kind)]
      ensures elements == old(elements) && statusText == old(statusText)
      ensures hasRecognition == old(hasRecognition) && isListening == old(isListening)
      ensures micHighlighted == old(micHighlighted)
    {
      if toasts != [] {
        toasts := toasts[1..];
      }
      toasts := toasts + [Toast(message, kind)];
    }

    /** `updateContentForLanguage(lang)`: every tagged element is rewritten from the
        chosen table, one element at a time in document order. */
    method UpdateContentForLanguage(lang: string)
      requires Valid()
      modifies this
      ensures Valid()
      ensures elements == LocalizeAll(old(elements), ChosenTable(lang))
      ensures toasts == old(toasts) && statusText == old(statusText)
      ensures hasRecognition == old(hasRecognition) && isListening == old(isListening)
      ensures micHighlighted == old(micHighlighted)
    {
      var table := ChosenTable(lang);
      var es := elements;
      var i := 0;
      while i < |es|
        invariant 0 <= i <= |es| && |es| == |elements|
        invariant forall j :: 0 <= j < i ==> es[j] == Localize(elements[j], table)
        invariant forall j :: i <= j < |es| ==> es[j] == elements[j]
      {
        var e := es[i];
        if e.key.Some? && e.key.value in table && table[e.key.value] != "" {
          es := es[i := e.(text := table[e.key.value])];
        }
        i := i + 1;
      }
      elements := es;
    }

    /** The continuation of `changeLanguage(lang)` once the request settles: the
        text changes only on a reply with `success` true; a failed request shows an
        error toast; a reply with `success` false does nothing. */
    method ChangeLanguage(lang: string, reply: LanguageReply)
      requires Valid()
      modifies this
      ensures Valid()
      ensures reply == Answered(true) ==>
                elements == LocalizeAll(old(elements), ChosenTable(lang)) &&
                toasts == [Toast("Language changed to " + lang, "success")]
      ensures reply == Failed ==>
                elements == old(elements) && toasts == [Toast("Error changing language", "error")]
      ensures reply == Answered(false) ==> elements == old(elements) && toasts == old(toasts)
      ensures statusText == old(statusText)
      ensures hasRecognition == old(hasRecognition) && isListening == old(isListening)
      ensures micHighlighted == old(micHighlighted)
    {
      match reply
      case Answered(success) =>
        if success {
          ShowToast("Language changed to " + lang, "success");
          UpdateContentForLanguage(lang);
        }
      case Failed =>
        ShowToast("Error changing language", "error");
    }

    /** `startVoice()`: create the recognition object on first use (`supported` says
        whether the browser offers one; if not, a warning toast), then stop a
        listening session or start a new one. The flag itself is left to the
        engine's events. */
    method StartVoice(supported: bool) returns (cmd: Command)
      requires Valid()
      modifies this
      ensures Valid()
      ensures hasRecognition == (old(hasRecognition) || supported)
      ensures cmd == StopRecognition <==> old(isListening)
      ensures cmd == StartRecognition <==> !old(isListening) && hasRecognition
      ensures cmd == NullRecognition <==> !hasRecognition
      ensures isListening == old(isListening) && micHighlighted == old(micHighlighted)
      ensures !old(hasRecognition) && !supported ==>
                toasts == [Toast("Voice recognition not supported in this browser", "warning")]
      ensures old(hasRecognition) || supported ==> toasts == old(toasts)
      ensures elements == old(elements) && statusText == old(statusText)
    {
      if !hasRecognition {
        if supported {
          hasRecognition := true;
        } else {
          ShowToast("Voice recognition not supported in this browser", "warning");
        }
      }
      if isListening {
        cmd := StopRecognition;
      } else if hasRecognition {
        cmd := StartRecognition;
      } else {
        cmd := NullRecognition;
      }
    }

    /** The engine's `onstart` event. */
    method OnStart()
      requires Valid() && hasRecognition
      modifies this
      ensures Valid()
      ensures isListening && micHighlighted && statusText == ListeningStatus
      ensures elements == old(elements) && toasts == old(toasts) && hasRecognition
    {
      isListening := true;
      micHighlighted := true;
      statusText := ListeningStatus;
    }

    /** The engine's `onend` event. */
    method OnEnd()
      requires Valid() && hasRecognition
      modifies this
      ensures Valid()
      ensures !isListening && !micHighlighted && statusText == IdleStatus
      ensures elements == old(elements) && toasts == old(toasts) && hasRecognition
    {
      isListening := false;
      micHighlighted := false;
      statusText := IdleStatus;
    }

    /** The engine's `onerror` event: an error toast, and the flag cleared; the
        status line is not reset here. */
    method OnError()
      requires Valid() && hasRecognition
      modifies this
      ensures Valid()
      ensures !isListening && !micHighlighted && statusText == old(statusText)
      ensures toasts == [Toast("Voice recognition error. Please try again.", "error")]
      ensures elements == old(elements) && hasRecognition
    {
      ShowToast("Voice recognition error. Please try again.", "error");
      isListening := false;
      micHighlighted := false;
    }
  }

  /** Toggle semantics: once the engine reports that it listens, the next tap stops
      the session instead of starting a second one. */
  method SecondTapStops(elements: seq<Element>) returns (first: Command, second: Command)
    ensures first == StartRecognition && second == StopRecognition
  {
    var page := new Page(elements, IdleStatus);
    first := page.StartVoice(true);
    page.OnStart();
    second := page.StartVoice(true);
  }

  /** A tap before the engine has reported `onstart` issues a second start, since
      the flag only changes on the engine's event. */
  method TapBeforeOnStartStartsAgain(elements: seq<Element>) returns (first: Command, second: Command)
    ensures first == StartRecognition && second == StartRecognition
  {
    var page := new Page(elements, IdleStatus);
    first := page.StartVoice(true);
    second := page.StartVoice(true);
  }

  /** An error without a following `onend` leaves the flag cleared but the status
      line still reading 'Listening...'. */
  method ErrorLeavesStatusText(elements: seq<Element>) returns (listening: bool, status: string)
    ensures !listening && status == ListeningStatus
  {
    var page := new Page(elements, IdleStatus);
    var cmd := page.StartVoice(true);
    page.OnStart();
    page.OnError();
    listening, status := page.isListening, page.statusText;
  }

  /** Without browser support every tap shows the warning and then fails on the
      null recognition object. */
  method UnsupportedTapFails(elements: seq<Element>) returns (cmd: Command, shown: seq<Toast>)
    ensures cmd == NullRecognition
    ensures shown == [Toast("Voice recognition not supported in this browser", "warning")]
  {
    var page := new Page(elements, IdleStatus);
    cmd := page.StartVoice(false);
    shown := page.toasts;
  }

  /** Applying the same language twice leaves the page as applying it once. */
  method TranslateTwice(elements: seq<Element>, lang: string) returns (once: seq<Element>, twice: seq<Element>)
    ensures once == twice && |once| == |elements|
    ensures forall i :: 0 <= i < |elements| && elements[i].key.None? ==> once[i] == elements[i]
  {
    var page := new Page(elements, IdleStatus);
    page.UpdateContentForLanguage(lang);
    once := page.elements;
    page.UpdateContentForLanguage(lang);
    twice := page.elements;
    LocalizeAllIdempotent(elements, ChosenTable(lang));
  }
}

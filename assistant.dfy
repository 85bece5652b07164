/** The keyword-driven answer of the `/ask-ai` route. */
module Assistant {
  import opened Text

  const Source: string := "FarmAssist AI"

  /** The keywords, in the iteration order of the route's answer table. */
  const Keywords: seq<string> := ["fertilizer", "pest", "water", "soil", "weather", "scheme", "market"]

  /** `Answers[i]` is the canned answer for `Keywords[i]`. */
  const Answers: seq<string> := [
    "Use well-decomposed compost or vermicompost. Jeevamrut can be applied weekly.",
    "For organic pest control, use neem oil spray. Mix 5ml neem oil with 1 liter water.",
    "Water needs vary by crop. Most vegetables need watering every 2-3 days in summer.",
    "Test soil pH. Most crops prefer 6.0-7.0 pH. Add organic matter to improve soil.",
    "Check weather section for detailed forecast and alerts.",
    "Government schemes are listed in Schemes section with eligibility details.",
    "Check organic products section for local inputs."
  ]

  const DefaultAnswer: string :=
    "I can help with farming questions about crops, pests, weather, or government schemes."

  /** The JSON body returned by the route. */
  datatype Reply = Reply(response: string, voice: string, source: string)

  /** `data.get('query', '').lower()`: a missing query reads as the empty text. */
  function QueryText(query: Option<string>): (q: string)
    ensures query.None? ==> q == []
    ensures query.Some? ==> q == Lower(query.value)
  {
    match query
    case None => []
    case Some(s) => Lower(s)
  }

  /** `Keywords[i]` is the first keyword, in table order, that occurs in `q`. */
  ghost predicate FirstHit(q: string, i: int) {
    0 <= i < |Keywords| && Contains(q, Keywords[i]) &&
    forall j :: 0 <= j < i ==> !Contains(q, Keywords[j])
  }

  /** No keyword occurs in `q`. */
  ghost predicate NoHit(q: string) {
    forall i :: 0 <= i < |Keywords| ==> !Contains(q, Keywords[i])
  }

  /** The route body: scan the keywords in order and answer for the first that occurs
      in the lower-cased query; otherwise give the default answer. */
  method AskAi(query: Option<string>) returns (reply: Reply)
    ensures reply.voice == reply.response && reply.source == Source
    ensures forall i :: FirstHit(QueryText(query), i) ==> reply.response == Answers[i]
    ensures NoHit(QueryText(query)) ==> reply.response == DefaultAnswer
    ensures query.None? ==> reply.response == DefaultAnswer
  {
    var q := QueryText(query);
    var i := 0;
    while i < |Keywords|
      invariant 0 <= i <= |Keywords|
      invariant forall j :: 0 <= j < i ==> !Contains(q, Keywords[j])
    {
      if Contains(q, Keywords[i]) {
        reply := Reply(Answers[i], Answers[i], Source);
        assert FirstHit(q, i);
        assert NoHit(q) ==> false;
        forall k | FirstHit(q, k) ensures reply.response == Answers[k] {
          FirstHitUnique(q, i, k);
        }
        return;
      }
      i := i + 1;
    }
    reply := Reply(DefaultAnswer, DefaultAnswer, Source);
    assert NoHit(q);
  }

  /** At most one keyword is the first hit. */
  lemma FirstHitUnique(q: string, i: int, k: int)
    requires FirstHit(q, i) && FirstHit(q, k)
    ensures i == k
  {
  }

  /** Every query has a first hit or no hit at all, so the two cases of `AskAi`
      cover every query. */
  lemma {:induction false} HitOrNoHit(q: string)
    ensures NoHit(q) || exists i :: FirstHit(q, i)
  {
    var i := 0;
    while i < |Keywords|
      invariant 0 <= i <= |Keywords|
      invariant forall j :: 0 <= j < i ==> !Contains(q, Keywords[j])
    {
      if Contains(q, Keywords[i]) {
        assert FirstHit(q, i);
        return;
      }
      i := i + 1;
    }
  }
}

/** The extraction adapter `analyze_ticket_with_claude`: choice of request mode,
    classification of the service's answer, and removal of Markdown code fences
    before the answer is parsed. The text extractor (PyMuPDF), the HTTP call to
    the messages endpoint and `json.loads` are oracles supplied by the caller. */
module Extraction {
  import opened Common
  import opened Strings
  import opened Segmenter

  /** One ledger line as the service proposes it. Amounts are in cents; `None`
      stands for a missing, null or zero value (`e.get('debit', 0) or 0`). */
  datatype Candidate = Candidate(
    date: Option<string>,
    reference: Option<string>,
    journal: Option<string>,
    account: string,
    description: Option<string>,
    debit: Option<int>,
    credit: Option<int>)

  /** The parsed answer: `exploitable` (its truth value),
      `raison_non_exploitable` when present, and `ecritures` (empty when absent). */
  datatype Proposal = Proposal(exploitable: bool, reason: Option<string>, entries: seq<Candidate>)

  /** What is sent to the service: the extracted text, or the PDF itself. */
  datatype Request = TextRequest(text: string) | DocumentRequest(pages: seq<Page>)

  /** The service's answer: HTTP status and the text of its first content block. */
  datatype Response = Response(status: int, text: string)

  /** The collaborators the adapter calls: text extraction (`extract_text_from_pdf`,
      which yields "" when extraction fails), the HTTP call, and the JSON parser
      (`None` when `json.loads` raises). */
  datatype Services = Services(
    extractText: seq<Page> -> string,
    call: Request -> Response,
    parse: string -> Option<Proposal>)

  /** Minimum length of extracted text for a text request. */
  const TextThreshold: nat := 50

  const JsonFence: string := "```json"
  const Fence: string := "```"
  const InvalidResponse: string := "R\U{e9}ponse IA invalide"

  /** Reason given when the service answers with a non-200 status. */
  function ApiError(status: int): string
  {
    "Erreur API (" + IntToString(status) + ")"
  }

  /** The reason of an API error identifies the status. */
  lemma ApiErrorInjective(s1: int, s2: int)
    requires ApiError(s1) == ApiError(s2)
    ensures s1 == s2
  {
    var t1, t2 := IntToString(s1), IntToString(s2);
    assert |t1| == |t2|;
    assert t1 == ApiError(s1)[12..12 + |t1|];
    assert t2 == ApiError(s2)[12..12 + |t2|];
    IntToStringInjective(s1, s2);
  }

  /** A negative classification carrying a reason and no entries. */
  function Unusable(reason: string): (p: Proposal)
    ensures !p.exploitable && p.reason == Some(reason) && p.entries == []
  {
    Proposal(false, Some(reason), [])
  }

  /** Request mode: text when the stripped extracted text is longer than the
      threshold, the document otherwise. */
  function ChooseRequest(text: string, pages: seq<Page>): (req: Request)
    ensures req.TextRequest? <==> |Trim(text)| > TextThreshold
    ensures req.TextRequest? ==> req.text == text
    ensures req.DocumentRequest? ==> req.pages == pages
  {
    if |Trim(text)| > TextThreshold then TextRequest(text) else DocumentRequest(pages)
  }

  /** `re.sub(fence + r'\s*', '', s)`: every occurrence of `fence`, scanning left
      to right, is removed together with the whitespace that follows it. */
  function RemoveFences(s: string, fence: string): (r: string)
    requires |fence| > 0
    ensures |r| <= |s|
    decreases |s|
  {
    if |s| == 0 then ""
    else if fence <= s then RemoveFences(TrimStart(s[|fence|..]), fence)
    else [s[0]] + RemoveFences(s[1..], fence)
  }

  /** Lines 178-179: the ```` ```json ```` fences, then the bare ```` ``` ````
      fences, then surrounding whitespace. */
  function StripFences(s: string): (r: string)
    ensures |r| <= |s|
  {
    Trim(RemoveFences(RemoveFences(s, JsonFence), Fence))
  }

  predicate NoBacktick(s: string) {
    forall i :: 0 <= i < |s| ==> s[i] != '`'
  }

  /** Text without a backtick is left alone by fence removal. */
  lemma {:induction false} RemoveFencesPrefix(a: string, b: string, fence: string)
    requires |fence| > 0 && fence[0] == '`'
    requires NoBacktick(a)
    ensures RemoveFences(a + b, fence) == a + RemoveFences(b, fence)
  {
    if a == [] {
      assert a + b == b;
    } else {
      var tail := a[1..];
      assert NoBacktick(tail) by {
        forall i | 0 <= i < |tail|
          ensures tail[i] != '`'
        {
          assert tail[i] == a[i + 1];
        }
      }
      RemoveFencesPrefix(tail, b, fence);
      var rest := RemoveFences(b, fence);
      assert (a + b)[0] == a[0] && (a + b)[1..] == tail + b;
      NotAFence(a + b, fence);
      assert RemoveFences(a + b, fence) == [a[0]] + (tail + rest);
      assert [a[0]] + (tail + rest) == a + rest by {
        assert a == [a[0]] + tail;
      }
    }
  }

  /** Text that does not start with a backtick is copied one character at a time. */
  lemma NotAFence(s: string, fence: string)
    requires |fence| > 0 && fence[0] == '`'
    requires |s| > 0 && s[0] != '`'
    ensures RemoveFences(s, fence) == [s[0]] + RemoveFences(s[1..], fence)
  {
    assert !(fence <= s) by { assert s[0] != fence[0]; }
  }

  /** A payload with no backtick at all is only stripped of surrounding whitespace. */
  lemma UnfencedPayload(s: string)
    requires NoBacktick(s)
    ensures StripFences(s) == Trim(s)
  {
    RemoveFencesPrefix(s, "", JsonFence);
    RemoveFencesPrefix(s, "", Fence);
    assert s + "" == s;
  }

  /** A payload wrapped in a ```` ```json ```` ... ```` ``` ```` fence is recovered
      as the stripped body. */
  lemma FencedPayload(body: string)
    requires NoBacktick(body)
    ensures StripFences(JsonFence + body + Fence) == Trim(body)
  {
    var t := TrimStart(body);
    BareFenceKept();
    OpeningFenceRemoved(JsonFence, Fence, body);
    ClosingFenceRemoved(t);
    TrimOfTrimStart(body);
  }

  /** First pass: the opening fence and the whitespace after it go; a closing
      fence that the first pass keeps on its own is kept after the body too. */
  lemma OpeningFenceRemoved(opening: string, closing: string, body: string)
    requires |opening| > 0 && opening[0] == '`'
    requires |closing| > 0 && closing[0] == '`'
    requires RemoveFences(closing, opening) == closing
    requires NoBacktick(body)
    ensures RemoveFences(opening + body + closing, opening) == TrimStart(body) + closing
  {
    FenceThenRest(opening, body, closing);
    TrimStartAppend(body, closing);
    TrimStartNoBacktick(body);
    RemoveFencesPrefix(TrimStart(body), closing, opening);
  }

  lemma TrimStartNoBacktick(s: string)
    requires NoBacktick(s)
    ensures NoBacktick(TrimStart(s))
  {
    var t := TrimStart(s);
    forall i | 0 <= i < |t|
      ensures t[i] != '`'
    {
      assert t[i] == s[|s| - |t| + i];
    }
  }

  /** A fence at the start goes, together with the whitespace after it. */
  lemma FenceThenRest(fence: string, body: string, closing: string)
    requires |fence| > 0
    ensures RemoveFences(fence + body + closing, fence) == RemoveFences(TrimStart(body + closing), fence)
  {
    assert (fence + body + closing)[|fence|..] == body + closing;
  }

  /** A bare fence is not a ```` ```json ```` fence. */
  lemma BareFenceKept()
    ensures RemoveFences(Fence, JsonFence) == Fence
  {
    var f1, f2 := Fence[1..], Fence[2..];
    assert !(JsonFence <= f2) && f2[1..] == "";
    assert RemoveFences(f2, JsonFence) == f2;
    assert !(JsonFence <= f1) && f1[1..] == f2;
    assert RemoveFences(f1, JsonFence) == f1;
    assert !(JsonFence <= Fence) && Fence[1..] == f1;
  }

  /** Second pass: a closing fence after backtick-free text goes. */
  lemma ClosingFenceRemoved(t: string)
    requires NoBacktick(t)
    ensures RemoveFences(t + Fence, Fence) == t
  {
    RemoveFencesPrefix(t, Fence, Fence);
    assert Fence <= Fence && Fence[|Fence|..] == "";
    assert t + "" == t;
  }

  lemma {:induction false} TrimStartAppend(a: string, b: string)
    requires b != [] && !IsSpace(b[0])
    ensures TrimStart(a + b) == TrimStart(a) + b
  {
    if a != [] {
      assert (a + b)[1..] == a[1..] + b;
      TrimStartAppend(a[1..], b);
    } else {
      assert a + b == b;
    }
  }

  /** Lines 174-184: classifies the service's answer. A non-200 status and an
      unparseable payload become negative classifications with a fixed reason
      and no entries; otherwise the parsed payload is returned as is, so the
      adapter never invents entries. */
  function Classify(response: Response, parse: string -> Option<Proposal>): (p: Proposal)
    ensures response.status != 200 ==> p == Unusable(ApiError(response.status))
    ensures response.status == 200 && parse(StripFences(response.text)).None? ==> p == Unusable(InvalidResponse)
    ensures response.status == 200 && parse(StripFences(response.text)).Some? ==>
              p == parse(StripFences(response.text)).value
    ensures p.exploitable || p.entries != [] ==>
              response.status == 200 && parse(StripFences(response.text)) == Some(p)
  {
    if response.status != 200 then Unusable(ApiError(response.status))
    else
      match parse(StripFences(response.text))
      case None => Unusable(InvalidResponse)
      case Some(proposal) => proposal
  }

  /** `analyze_ticket_with_claude`: one call to the service per unit, with the
      request chosen by mode. A non-200 answer is rejected as `Erreur API
      (<status>)`, an unparseable one as `Réponse IA invalide`, and a parsed
      answer is the proposal, whatever it says. */
  function Analyze(services: Services, unit: Unit): (p: Proposal)
    ensures var response := services.call(ChooseRequest(services.extractText(unit.pages), unit.pages));
            var parsed := services.parse(StripFences(response.text));
            && (response.status != 200 ==> p == Unusable(ApiError(response.status)))
            && (response.status == 200 && parsed.None? ==> p == Unusable(InvalidResponse))
            && (response.status == 200 && parsed.Some? ==> p == parsed.value)
  {
    var text := services.extractText(unit.pages);
    Classify(services.call(ChooseRequest(text, unit.pages)), services.parse)
  }
}

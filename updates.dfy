/** The update transactor: the mandatory-field gate, the update request, and the mapping of the
    remote answer to an outcome. */
module Updates {
  import opened Wrappers
  import opened Text
  import opened Creatives
  import opened Outcomes
  import opened Headlines

  /** What the update request's answer says about the first creative. `EmptyResults` is an answer
      whose "creatives" list is empty; an answer without the list reads as `FirstResult(None)`. */
  datatype CreativeResults = EmptyResults | FirstResult(subRequestErrorReason: Option<string>)

  /** The answer to the update request: a transport failure (with the response text, when there was a
      response), or a decoded body, with `json` its serialisation. */
  datatype PutResponse =
    | TransportError(message: string, responseText: Option<string>)
    | Answered(requestStatus: Option<string>, results: CreativeResults, json: string)

  /** The body of the update request: the whole creative with the new headline. */
  datatype Payload = Payload(
    adAccountId: string,
    creativeId: string,
    headline: string,
    webViewUrl: string,
    blockPreload: bool,
    kind: string,
    adProduct: string,
    topSnapMediaId: string,
    cropPosition: string,
    name: string,
    callToAction: string,
    shareable: bool,
    profileId: string)

  function BuildPayload(c: Creative, adAccountId: string, headline: string): Payload {
    Payload(adAccountId, c.id, headline, c.webViewUrl, c.blockPreload, c.kind, c.adProduct,
            c.topSnapMediaId, c.cropPosition, c.name, c.callToAction, c.shareable, c.profileId)
  }

  /** What `update_creative_headline` returns: status, new headline, error message. */
  datatype Outcome = Outcome(status: Status, newHeadline: string, error: Option<string>)

  /** An outcome together with the update request that was sent, if one was. */
  datatype Exchange = Exchange(outcome: Outcome, request: Option<Payload>)

  /** The names of the given fields. */
  function Names(fields: seq<Field>): (r: seq<string>)
    ensures |r| == |fields|
    ensures forall i :: 0 <= i < |fields| ==> r[i] == fields[i].Name()
  {
    if fields == [] then [] else [fields[0].Name()] + Names(fields[1..])
  }

  function MissingMessage(missing: seq<Field>): string {
    "Missing required fields: " + Join(Names(missing), ", ")
  }

  /** The message for missing fields names every one of them. */
  lemma MissingMessageNamesEach(missing: seq<Field>, f: Field)
    requires f in missing
    ensures Occurs(f.Name(), MissingMessage(missing))
  {
    var names := Names(missing);
    var i :| 0 <= i < |missing| && missing[i] == f;
    JoinContainsEach(names, ", ", i);
    var joined := Join(names, ", ");
    var prefix := "Missing required fields: ";
    var k :| OccursAt(f.Name(), joined, k);
    assert (prefix + joined)[|prefix| + k..|prefix| + k + |f.Name()|] == joined[k..k + |f.Name()|];
    assert OccursAt(f.Name(), MissingMessage(missing), |prefix| + k);
  }

  /** Reading the answer raises: a failed answer with an empty "creatives" list. */
  predicate Raises(response: PutResponse) {
    response.Answered? && response.requestStatus != Some("SUCCESS") && response.results.EmptyResults?
  }

  /** The answer to a sent request, as an outcome; `None` when reading the answer raises (a failed
      answer with an empty "creatives" list). */
  function Verdict(response: PutResponse, headline: string): (r: Option<Outcome>)
    ensures r.Some? ==> r.value.newHeadline == headline
    ensures r.Some? ==> (r.value.status == Success <==> r.value.error.None?)
    ensures r.Some? && r.value.status == Success <==> response.Answered? && response.requestStatus == Some("SUCCESS")
    ensures r.None? <==> Raises(response)
    // a rejected answer reports the reason given for the creative, or else the whole answer
    ensures response.Answered? && response.requestStatus != Some("SUCCESS") && response.results.FirstResult?
            && response.results.subRequestErrorReason.Some? ==>
              r == Some(Outcome(Failed, headline, Some(response.results.subRequestErrorReason.value)))
    ensures response.Answered? && response.requestStatus != Some("SUCCESS") && response.results == FirstResult(None) ==>
              r == Some(Outcome(Failed, headline, Some("Unexpected response: " + response.json)))
    // a transport failure reports the error, followed by the response text when there is one
    ensures response.TransportError? && response.responseText.None? ==>
              r == Some(Outcome(Failed, headline, Some(response.message)))
    ensures response.TransportError? && response.responseText.Some? ==>
              r == Some(Outcome(Failed, headline, Some(response.message + " | Response: " + response.responseText.value)))
  {
    match response
    case TransportError(message, text) =>
      Some(Outcome(Failed, headline, Some(if text.Some? then message + " | Response: " + text.value else message)))
    case Answered(status, results, json) =>
      if status.GetOr("UNKNOWN") == "SUCCESS" then Some(Outcome(Success, headline, None))
      else
        match results
        case EmptyResults => None
        case FirstResult(reason) => Some(Outcome(Failed, headline, Some(reason.GetOr("Unexpected response: " + json))))
  }

  /** `update_creative_headline` after the headline is chosen: the gate on mandatory fields, then the
      request and its verdict. `None` when the attempt raises. */
  function Transact(c: Creative, adAccountId: string, headline: string, response: PutResponse): (r: Option<Exchange>)
    ensures r.Some? ==> r.value.outcome.newHeadline == headline
    // no request is sent exactly when a mandatory field is empty, and then the attempt fails
    ensures (r.Some? && r.value.request.None?) <==> !Complete(c)
    ensures !Complete(c) ==> r.Some? && r.value.outcome.status == Failed
    ensures !Complete(c) ==> r.value.outcome.error == Some(MissingMessage(Missing(c, UpdateOrder)))
    // a request carries the creative's own fields, complete, with the new headline
    ensures r.Some? && r.value.request.Some? ==>
              var p := r.value.request.value;
              && p == BuildPayload(c, adAccountId, headline)
              && p.topSnapMediaId != "" && p.webViewUrl != "" && p.profileId != ""
    // success exactly when the request was sent and answered "SUCCESS"
    ensures (r.Some? && r.value.outcome.status == Success) <==>
              Complete(c) && response.Answered? && response.requestStatus == Some("SUCCESS")
    ensures r.None? <==> Complete(c) && Raises(response)
    // once the request is sent, the outcome is the verdict on its answer
    ensures Complete(c) ==> (r.None? <==> Verdict(response, headline).None?)
    ensures Complete(c) && r.Some? ==> Some(r.value.outcome) == Verdict(response, headline)
  {
    var missing := Missing(c, UpdateOrder);
    MissingNothingIffComplete(c);
    if missing != [] then
      Some(Exchange(Outcome(Failed, headline, Some(MissingMessage(missing))), None))
    else
      match Verdict(response, headline)
      case None => None
      case Some(outcome) => Some(Exchange(outcome, Some(BuildPayload(c, adAccountId, headline))))
  }

  /** `update_creative_headline`: the headline is chosen (and the pool consumed) before the mandatory
      fields are checked; the ledger is only read. `None` when the attempt raises. */
  method UpdateCreativeHeadline(selector: Selector, ledger: Ledger, adAccountId: string, c: Creative,
                                current: string, roll: nat, response: PutResponse)
    returns (r: Option<Exchange>)
    requires selector.Valid()
    modifies selector
    ensures selector.Valid()
    ensures var s := Select(old(selector.pool), selector.corpus, ledger.Used(c.id), current, roll);
            if s.Picked? then selector.pool == s.pool && r == Transact(c, adAccountId, s.headline, response)
            else selector.pool == [] && r == None
  {
    var headline := selector.Generate(ledger.Used(c.id), current, roll);
    if headline.None? {
      return None;
    }
    r := Transact(c, adAccountId, headline.value, response);
  }
}

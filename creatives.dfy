/** Creative preparation: fetched creatives get their optional fields defaulted, their mandatory
    fields filled from configuration, and are dropped when a mandatory field is still empty. */
module Creatives {
  import opened Wrappers
  import opened Sequences
  import opened Text
  import opened Ads

  /** A creative as fetched. A string field read with `value or default` is "" when the key is
      absent or its value is empty (both are falsy); the two flags read with `get(key, True)` are
      `None` when absent. */
  datatype RawCreative = RawCreative(
    id: string,
    headline: Option<string>,
    name: string,
    topSnapMediaId: string,
    webViewUrl: string,
    blockPreload: Option<bool>,
    callToAction: string,
    cropPosition: string,
    shareable: Option<bool>,
    kind: string,
    adProduct: string,
    profileId: string)

  /** A creative after defaulting: every field the update request carries has a value. */
  datatype Creative = Creative(
    id: string,
    headline: Option<string>,
    name: string,
    topSnapMediaId: string,
    webViewUrl: string,
    blockPreload: bool,
    callToAction: string,
    cropPosition: string,
    shareable: bool,
    kind: string,
    adProduct: string,
    profileId: string)

  /** Configuration values: fallbacks for the three mandatory fields and the ad account. */
  datatype Env = Env(topSnapMediaId: string, webViewUrl: string, profileId: string, adAccountId: string)

  /** The answer to one creative request. `EmptyCreativeList` is a body whose "creatives" list is
      empty; `Fetched(None)` a body without a first creative object. */
  datatype CreativeFetch = FetchFailed | EmptyCreativeList | Fetched(creative: Option<RawCreative>)

  /** Python's `value or default` on strings. */
  function Or(value: string, default: string): string {
    if value != "" then value else default
  }

  /** The defaulting pass over a fetched creative. */
  function Defaulted(raw: RawCreative, env: Env): (c: Creative)
    ensures c.id == raw.id && c.headline == raw.headline
    // the optional presentation fields always end up non-empty ...
    ensures c.name != "" && c.callToAction != "" && c.cropPosition != "" && c.kind != "" && c.adProduct != ""
    // ... keeping a value that was there and otherwise taking the fixed default
    ensures c.name == if raw.name != "" then raw.name else "Creative_" + Prefix(raw.id, 8)
    ensures c.callToAction == if raw.callToAction != "" then raw.callToAction else "LEARN_MORE"
    ensures c.cropPosition == if raw.cropPosition != "" then raw.cropPosition else "MIDDLE"
    ensures c.kind == if raw.kind != "" then raw.kind else "WEB_VIEW"
    ensures c.adProduct == if raw.adProduct != "" then raw.adProduct else "SNAP_AD"
    ensures c.shareable == (raw.shareable != Some(false)) && c.blockPreload == (raw.blockPreload != Some(false))
    // a mandatory field stays empty only when both the creative and the configuration lack it
    ensures raw.topSnapMediaId != "" ==> c.topSnapMediaId == raw.topSnapMediaId
    ensures raw.webViewUrl != "" ==> c.webViewUrl == raw.webViewUrl
    ensures raw.profileId != "" ==> c.profileId == raw.profileId
    ensures raw.topSnapMediaId == "" ==> c.topSnapMediaId == env.topSnapMediaId
    ensures raw.webViewUrl == "" ==> c.webViewUrl == env.webViewUrl
    ensures raw.profileId == "" ==> c.profileId == env.profileId
    ensures c.topSnapMediaId == "" <==> raw.topSnapMediaId == "" && env.topSnapMediaId == ""
    ensures c.webViewUrl == "" <==> raw.webViewUrl == "" && env.webViewUrl == ""
    ensures c.profileId == "" <==> raw.profileId == "" && env.profileId == ""
  {
    Creative(
      id := raw.id,
      headline := raw.headline,
      name := Or(raw.name, "Creative_" + Prefix(raw.id, 8)),
      topSnapMediaId := Or(raw.topSnapMediaId, env.topSnapMediaId),
      webViewUrl := Or(raw.webViewUrl, env.webViewUrl),
      blockPreload := raw.blockPreload.GetOr(true),
      callToAction := Or(raw.callToAction, "LEARN_MORE"),
      cropPosition := Or(raw.cropPosition, "MIDDLE"),
      shareable := raw.shareable.GetOr(true),
      kind := Or(raw.kind, "WEB_VIEW"),
      adProduct := Or(raw.adProduct, "SNAP_AD"),
      profileId := Or(raw.profileId, env.profileId))
  }

  /** The three fields without which no update may be submitted. */
  datatype Field = TopSnapMediaId | WebViewUrl | ProfileId {
    /** The key under which the field is stored and reported. */
    function Name(): string {
      match this
      case TopSnapMediaId => "top_snap_media_id"
      case WebViewUrl => "web_view_url"
      case ProfileId => "profile_id"
    }
  }

  function Value(c: Creative, f: Field): string {
    match f
    case TopSnapMediaId => c.topSnapMediaId
    case WebViewUrl => c.webViewUrl
    case ProfileId => c.profileId
  }

  /** All mandatory fields are non-empty. */
  predicate Complete(c: Creative) {
    c.topSnapMediaId != "" && c.webViewUrl != "" && c.profileId != ""
  }

  /** The order in which preparation checks the mandatory fields. */
  const PrepareOrder: seq<Field> := [TopSnapMediaId, WebViewUrl, ProfileId]

  /** The order in which the update step checks (and reports) the mandatory fields. */
  const UpdateOrder: seq<Field> := [WebViewUrl, TopSnapMediaId, ProfileId]

  /** The test of the missing-field comprehension: the field has an empty value in `c`. */
  function IsEmptyIn(c: Creative): Field -> bool {
    f => Value(c, f) == ""
  }

  /** `[field for field in order if not creative.get(field)]`. */
  function Missing(c: Creative, order: seq<Field>): (r: seq<Field>)
    ensures forall f :: f in r <==> f in order && Value(c, f) == ""
  {
    Filter(order, IsEmptyIn(c))
  }

  /** The update step reports the missing fields in its own order: web_view_url, top_snap_media_id,
      profile_id, each at most once. */
  lemma MissingInUpdateOrder(c: Creative)
    ensures Missing(c, UpdateOrder)
            == (if c.webViewUrl == "" then [WebViewUrl] else [])
               + (if c.topSnapMediaId == "" then [TopSnapMediaId] else [])
               + (if c.profileId == "" then [ProfileId] else [])
  {
    var p := IsEmptyIn(c);
    var w, t, q := [WebViewUrl], [TopSnapMediaId], [ProfileId];
    assert UpdateOrder == (w + t) + q;
    FilterConcat(w + t, q, p);
    FilterConcat(w, t, p);
    FilterSingle(WebViewUrl, p);
    FilterSingle(TopSnapMediaId, p);
    FilterSingle(ProfileId, p);
  }

  /** Both checks agree: nothing is missing, in either order, exactly when the creative is complete. */
  lemma MissingNothingIffComplete(c: Creative)
    ensures Missing(c, PrepareOrder) == [] <==> Complete(c)
    ensures Missing(c, UpdateOrder) == [] <==> Complete(c)
  {
    if !Complete(c) {
      var f := if c.topSnapMediaId == "" then TopSnapMediaId else if c.webViewUrl == "" then WebViewUrl else ProfileId;
      assert f in Missing(c, PrepareOrder) && f in Missing(c, UpdateOrder);
    } else {
      FilterNone(PrepareOrder, IsEmptyIn(c));
      FilterNone(UpdateOrder, IsEmptyIn(c));
    }
  }

  /** The handling of one creative answer: `Some` when the creative is prepared for update. */
  function PrepareOne(fetched: CreativeFetch, env: Env): (r: Option<Creative>)
    ensures r.Some? <==>
              && fetched.Fetched? && fetched.creative.Some?
              && fetched.creative.value.id != ""
              && Complete(Defaulted(fetched.creative.value, env))
    ensures r.Some? ==> r.value == Defaulted(fetched.creative.value, env)
  {
    match fetched
    case Fetched(Some(raw)) =>
      if raw.id == "" then None
      else
        var c := Defaulted(raw, env);
        MissingNothingIffComplete(c);
        if Missing(c, PrepareOrder) != [] then None else Some(c)
    case _ => None
  }

  /** The creatives prepared from the answers to the requests for `keys`, in order. */
  function Kept(keys: seq<string>, fetch: string -> CreativeFetch, env: Env): (r: seq<Creative>)
    ensures |r| <= |keys|
    ensures forall i :: 0 <= i < |r| ==> Complete(r[i]) && r[i].id != ""
    decreases |keys|
  {
    if keys == [] then []
    else
      var init := keys[..|keys| - 1];
      match PrepareOne(fetch(keys[|keys| - 1]), env)
      case Some(c) => Kept(init, fetch, env) + [c]
      case None => Kept(init, fetch, env)
  }

  /** Preparing one more key of a list only adds what that key's answer yields, and aborts
      exactly when that answer does. */
  lemma PrepareStep(keys: seq<string>, i: nat, fetch: string -> CreativeFetch, env: Env)
    requires i < |keys|
    ensures Kept(keys[..i + 1], fetch, env)
            == Kept(keys[..i], fetch, env)
               + (var p := PrepareOne(fetch(keys[i]), env); if p.Some? then [p.value] else [])
    ensures Aborts(keys[..i + 1], fetch) <==> Aborts(keys[..i], fetch) || fetch(keys[i]).EmptyCreativeList?
  {
    assert keys[..i + 1][..i] == keys[..i];
  }

  /** Some answer has an empty "creatives" list; indexing it raises, and the whole preparation
      returns no creatives. */
  predicate Aborts(keys: seq<string>, fetch: string -> CreativeFetch)
    decreases |keys|
  {
    keys != [] && (Aborts(keys[..|keys| - 1], fetch) || fetch(keys[|keys| - 1]).EmptyCreativeList?)
  }

  /** The preparation aborts exactly when the answer for one of the keys has an empty list. */
  lemma {:induction false} AbortsIffSomeEmpty(keys: seq<string>, fetch: string -> CreativeFetch)
    ensures Aborts(keys, fetch) <==> exists k :: k in keys && fetch(k).EmptyCreativeList?
    decreases |keys|
  {
    if keys != [] {
      var init := keys[..|keys| - 1];
      assert keys == init + [keys[|keys| - 1]];
      AbortsIffSomeEmpty(init, fetch);
      if exists k :: k in keys && fetch(k).EmptyCreativeList? {
        var k :| k in keys && fetch(k).EmptyCreativeList?;
        if k != keys[|keys| - 1] {
          assert k in init;
        }
      }
    }
  }

  /** What `get_rejected_creatives` returns for the keys of the filtered dict. */
  function Prepared(keys: seq<string>, fetch: string -> CreativeFetch, env: Env): seq<Creative> {
    if Aborts(keys, fetch) then [] else Kept(keys, fetch, env)
  }

  /** The preparation loop of `get_rejected_creatives` over the creative ids of the eligible ads,
      in dict order; `fetch` stands for the creative request. */
  method PrepareCreatives(active: AdsByCreative, fetch: string -> CreativeFetch, env: Env)
    returns (creatives: seq<Creative>)
    ensures creatives == Prepared(active.order, fetch, env)
    ensures forall i :: 0 <= i < |creatives| ==> Complete(creatives[i]) && creatives[i].id != ""
  {
    var keys := active.order;
    creatives := [];
    if keys == [] {
      return;
    }
    var i := 0;
    while i < |keys|
      invariant 0 <= i <= |keys|
      invariant !Aborts(keys[..i], fetch)
      invariant creatives == Kept(keys[..i], fetch, env)
    {
      PrepareStep(keys, i, fetch, env);
      var fetched := fetch(keys[i]);
      if fetched.EmptyCreativeList? {
        AbortsIffSomeEmpty(keys, fetch);
        creatives := [];
        return;
      }
      var prepared := PrepareOne(fetched, env);
      if prepared.Some? {
        creatives := creatives + [prepared.value];
      }
      assert creatives == Kept(keys[..i + 1], fetch, env);
      i := i + 1;
    }
    assert keys[..i] == keys;
  }
}

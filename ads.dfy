/** The eligibility filter: which listed ads take part in headline rotation, keyed by creative. */
module Ads {
  import opened Wrappers
  import opened Sequences

  /** One ad of the listing, reduced to the keys the filter reads; an absent key is `None`. */
  datatype Ad = Ad(id: Option<string>, creativeId: Option<string>, status: Option<string>, reviewStatus: Option<string>)

  /** The answer to the listing request; a transport failure yields no ads at all. */
  datatype Listing = ListingFailed | Listing(ads: seq<Ad>)

  /** The creative reference is truthy: present and not the empty string. */
  predicate HasCreative(ad: Ad) {
    ad.creativeId.Some? && ad.creativeId.value != ""
  }

  /** An ad is rotated when it references a creative, is ACTIVE, and was REJECTED in review
      (an ad without a review status counts as "N/A"). */
  predicate IsEligible(ad: Ad) {
    HasCreative(ad) && ad.status == Some("ACTIVE") && ad.reviewStatus.GetOr("N/A") == "REJECTED"
  }

  /** A Python dict from creative id to ad: its keys in insertion (iteration) order, and its entries. */
  datatype AdsByCreative = AdsByCreative(order: seq<string>, entries: map<string, Ad>)

  /** Every key is listed exactly once in the iteration order. */
  ghost predicate WellFormed(d: AdsByCreative) {
    && (forall i, j :: 0 <= i < j < |d.order| ==> d.order[i] != d.order[j])
    && (forall k :: k in d.entries <==> k in d.order)
  }

  /** `d[k] = v`: an existing key keeps its place and takes the new value, a new key goes last. */
  function Put(d: AdsByCreative, k: string, v: Ad): (r: AdsByCreative)
    requires WellFormed(d)
    ensures WellFormed(r)
    ensures r.order == if k in d.entries then d.order else d.order + [k]
    ensures r.entries == d.entries[k := v]
  {
    if k in d.entries then AdsByCreative(d.order, d.entries[k := v])
    else AdsByCreative(d.order + [k], d.entries[k := v])
  }

  /** The last ad of `ads` whose creative id is `k`. */
  function LastWith(ads: seq<Ad>, k: string): Option<Ad> {
    if ads == [] then None
    else if ads[|ads| - 1].creativeId == Some(k) then Some(ads[|ads| - 1])
    else LastWith(ads[..|ads| - 1], k)
  }

  /** `{ad["creative_id"]: ad for ad in valid}`: one item per creative id, holding the last ad
      that referenced it. */
  function ByCreative(valid: seq<Ad>): (r: AdsByCreative)
    requires forall i :: 0 <= i < |valid| ==> HasCreative(valid[i])
    ensures WellFormed(r)
    ensures forall k :: k in r.entries <==> exists a :: a in valid && a.creativeId == Some(k)
    ensures forall k :: k in r.entries ==> Some(r.entries[k]) == LastWith(valid, k)
    decreases |valid|
  {
    if valid == [] then AdsByCreative([], map[])
    else
      var init, last := valid[..|valid| - 1], valid[|valid| - 1];
      assert valid == init + [last];
      assert HasCreative(last);
      Put(ByCreative(init), last.creativeId.value, last)
  }

  /** Keys keep their first-insertion order: the dict built from a list is an extension of the dict
      built from any prefix of it, so each key sits where its first ad put it. */
  lemma {:induction false} ByCreativeExtends(a: seq<Ad>, b: seq<Ad>)
    requires forall i :: 0 <= i < |a| ==> HasCreative(a[i])
    requires forall i :: 0 <= i < |b| ==> HasCreative(b[i])
    ensures forall i :: 0 <= i < |a + b| ==> HasCreative((a + b)[i])
    ensures var short, long := ByCreative(a).order, ByCreative(a + b).order;
            |short| <= |long| && long[..|short|] == short
    decreases |b|
  {
    if b != [] {
      var init, last := b[..|b| - 1], b[|b| - 1];
      assert b == init + [last];
      ByCreativeExtends(a, init);
      assert (a + b)[..|a + b| - 1] == a + init;
      assert (a + b)[|a + b| - 1] == last;
      var mid := ByCreative(a + init).order;
      var long := ByCreative(a + b).order;
      assert long == mid || long == mid + [last.creativeId.value];
      PrefixOfPrefix(long, |ByCreative(a).order|, |mid|);
    } else {
      assert a + b == a;
    }
  }

  /** A creative id is a key of the filtered dict exactly when some eligible ad references it. */
  lemma EligibleKeys(ads: seq<Ad>, k: string)
    ensures k in ByCreative(Filter(ads, IsEligible)).entries <==>
              exists a :: a in ads && IsEligible(a) && a.creativeId == Some(k)
  {
  }

  /** `get_active_ads`: keep the eligible ads in listing order, then key them by creative id. */
  method ActiveAds(ads: seq<Ad>) returns (byCreative: AdsByCreative)
    ensures byCreative == ByCreative(Filter(ads, IsEligible))
    ensures WellFormed(byCreative)
    ensures forall k :: k in byCreative.entries <==>
              exists a :: a in ads && IsEligible(a) && a.creativeId == Some(k)
  {
    var valid: seq<Ad> := [];
    for i := 0 to |ads|
      invariant valid == Filter(ads[..i], IsEligible)
    {
      FilterSnoc(ads[..i], ads[i], IsEligible);
      assert ads[..i + 1] == ads[..i] + [ads[i]];
      if IsEligible(ads[i]) {
        valid := valid + [ads[i]];
      }
    }
    assert ads[..|ads|] == ads;
    byCreative := ByCreative(valid);
    forall k {
      EligibleKeys(ads, k);
    }
  }
}

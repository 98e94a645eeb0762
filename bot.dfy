/** One pass of `run_bot`: filter the listing, prepare the creatives, then for each creative in turn
    choose a headline, attempt the update and log the outcome. */
module Bot {
  import opened Wrappers
  import opened Sequences
  import opened Ads
  import opened Creatives
  import opened Outcomes
  import opened Headlines
  import opened Updates

  /** The state a pass changes: the selector's pool and the ledger's rows. */
  datatype State = State(pool: seq<string>, log: seq<Record>)

  /** `creative.get("headline", creative.get("name", "Unknown"))`. A prepared creative always has a
      name, so the "Unknown" fallback is never reached. */
  function OldHeadline(c: Creative): string {
    c.headline.GetOr(c.name)
  }

  /** The row `log_update` writes for an outcome. */
  function RecordOf(creativeId: string, oldHeadline: string, o: Outcome): Record {
    Record(creativeId, oldHeadline, o.newHeadline, o.status, o.error)
  }

  /** The creatives a pass works on: the prepared creatives of the eligible ads. */
  function Candidates(listing: Listing, fetch: string -> CreativeFetch, env: Env): seq<Creative> {
    match listing
    case ListingFailed => []
    case Listing(ads) => Prepared(ByCreative(Filter(ads, IsEligible)).order, fetch, env)
  }

  /** How one iteration of the update loop ends: the pass goes on, or stops because the attempt raised. */
  datatype Step = Stop(state: State) | Continue(state: State)

  /** One iteration of the update loop for creative `c`: choose a headline, attempt the update, and
      log the outcome, unless the selection or the attempt raises. */
  function Attempt(corpus: seq<string>, adAccountId: string, st: State, c: Creative,
                   response: PutResponse, roll: nat): (r: Step)
    requires PoolFromCorpus(st.pool, corpus)
    // a stopped iteration writes nothing; one that goes on writes exactly one row, at the end,
    // naming the creative and the headline it replaced, with a headline that fits the limit
    ensures r.Stop? ==> r.state.log == st.log
    ensures r.Continue? ==>
              && |r.state.log| == |st.log| + 1
              && r.state.log[..|st.log|] == st.log
              && r.state.log[|st.log|].creativeId == c.id
              && r.state.log[|st.log|].oldHeadline == OldHeadline(c)
              && |r.state.log[|st.log|].newHeadline| <= MaxLength
    // the pool stays drawn from the corpus, and the iteration stops exactly when the corpus is
    // blank or the update answer raises after a request was sent
    ensures PoolFromCorpus(r.state.pool, corpus)
    ensures r.Stop? <==> Loaded(corpus) == [] || (Complete(c) && Raises(response))
  {
    var current := OldHeadline(c);
    var used := UsedHeadlines(st.log, c.id);
    var s := Select(st.pool, corpus, used, current, roll);
    ExhaustedIffBlankCorpus(st.pool, corpus, used, current, roll);
    PoolLosesThePick(st.pool, corpus, used, current, roll);
    if s.Exhausted? then Stop(State([], st.log))
    else
      HeadlineFits(st.pool, corpus, used, current, roll);
      var t := Transact(c, adAccountId, s.headline, response);
      if t.None? then Stop(State(s.pool, st.log))
      else
        var row := RecordOf(c.id, current, t.value.outcome);
        PrefixOfSnoc(st.log, row);
        Continue(State(s.pool, st.log + [row]))
  }

  /** An iteration as the update step reports it: the selection's pool, and either no result (the
      iteration stops) or the exchange whose outcome is logged. */
  lemma AttemptIsUpdate(corpus: seq<string>, adAccountId: string, st: State, c: Creative,
                        response: PutResponse, roll: nat, r: Option<Exchange>, pool: seq<string>)
    requires PoolFromCorpus(st.pool, corpus)
    requires var s := Select(st.pool, corpus, UsedHeadlines(st.log, c.id), OldHeadline(c), roll);
             if s.Picked? then pool == s.pool && r == Transact(c, adAccountId, s.headline, response)
             else pool == [] && r == None
    ensures var step := Attempt(corpus, adAccountId, st, c, response, roll);
            && (r.None? ==> step == Stop(State(pool, st.log)))
            && (r.Some? ==> step == Continue(State(pool, st.log + [RecordOf(c.id, OldHeadline(c), r.value.outcome)])))
  {
  }

  /** The effect of the update loop on the state, from the `k`-th creative on. */
  function Sweep(corpus: seq<string>, adAccountId: string, st: State, cs: seq<Creative>,
                 respond: nat -> PutResponse, draw: nat -> nat, k: nat): State
    requires PoolFromCorpus(st.pool, corpus)
    decreases |cs|
  {
    if cs == [] then st
    else
      match Attempt(corpus, adAccountId, st, cs[0], respond(k), draw(k))
      case Stop(next) => next
      case Continue(next) => Sweep(corpus, adAccountId, next, cs[1..], respond, draw, k + 1)
  }

  /** The first iteration of a pass, and the rest of the pass after it. */
  lemma SweepStep(corpus: seq<string>, adAccountId: string, st: State, cs: seq<Creative>,
                  respond: nat -> PutResponse, draw: nat -> nat, k: nat)
    requires PoolFromCorpus(st.pool, corpus) && cs != []
    ensures var step := Attempt(corpus, adAccountId, st, cs[0], respond(k), draw(k));
            Sweep(corpus, adAccountId, st, cs, respond, draw, k)
            == if step.Stop? then step.state
               else Sweep(corpus, adAccountId, step.state, cs[1..], respond, draw, k + 1)
  {
  }

  /** When the first iteration goes on, the pass is that iteration's row followed by the rest of
      the pass. */
  lemma SweepContinues(corpus: seq<string>, adAccountId: string, st: State, cs: seq<Creative>,
                       respond: nat -> PutResponse, draw: nat -> nat, k: nat)
    requires PoolFromCorpus(st.pool, corpus) && cs != [] && Loaded(corpus) != []
    requires !Raises(respond(k))
    ensures var step := Attempt(corpus, adAccountId, st, cs[0], respond(k), draw(k));
            && step.Continue?
            && |step.state.log| == |st.log| + 1
            && Sweep(corpus, adAccountId, st, cs, respond, draw, k)
               == Sweep(corpus, adAccountId, step.state, cs[1..], respond, draw, k + 1)
  {
    SweepStep(corpus, adAccountId, st, cs, respond, draw, k);
  }

  /** A pass only appends, and at most one row per creative. */
  lemma {:induction false} SweepOnlyAppends(corpus: seq<string>, adAccountId: string, st: State,
                                            cs: seq<Creative>, respond: nat -> PutResponse,
                                            draw: nat -> nat, k: nat)
    requires PoolFromCorpus(st.pool, corpus)
    ensures var log := Sweep(corpus, adAccountId, st, cs, respond, draw, k).log;
            |st.log| <= |log| <= |st.log| + |cs| && log[..|st.log|] == st.log
    decreases |cs|
  {
    if cs != [] {
      var step := Attempt(corpus, adAccountId, st, cs[0], respond(k), draw(k));
      SweepStep(corpus, adAccountId, st, cs, respond, draw, k);
      if step.Continue? {
        var next := step.state;
        SweepOnlyAppends(corpus, adAccountId, next, cs[1..], respond, draw, k + 1);
        var log := Sweep(corpus, adAccountId, next, cs[1..], respond, draw, k + 1).log;
        PrefixOfPrefix(log, |st.log|, |next.log|);
      }
    }
  }

  /** The row written for creative `c`: it names the creative and the headline it replaced, and its
      new headline fits the display limit. */
  predicate RowFor(row: Record, c: Creative) {
    row.creativeId == c.id && row.oldHeadline == OldHeadline(c) && |row.newHeadline| <= MaxLength
  }

  /** `rows` are rows for a prefix of `cs`, in order. */
  predicate RowsFor(rows: seq<Record>, cs: seq<Creative>)
    decreases |rows|
  {
    rows == [] || (cs != [] && RowFor(rows[0], cs[0]) && RowsFor(rows[1..], cs[1..]))
  }

  /** The `i`-th of such rows is the row for the `i`-th creative. */
  lemma {:induction false} RowsForAt(rows: seq<Record>, cs: seq<Creative>, i: nat)
    requires RowsFor(rows, cs) && i < |rows|
    ensures i < |cs| && RowFor(rows[i], cs[i])
    decreases i
  {
    if i > 0 {
      RowsForAt(rows[1..], cs[1..], i - 1);
    }
  }

  /** The rows a pass appends follow the creatives in order, one row per creative attempted. */
  lemma {:induction false} SweepRowsInOrder(corpus: seq<string>, adAccountId: string, st: State,
                                            cs: seq<Creative>, respond: nat -> PutResponse,
                                            draw: nat -> nat, k: nat)
    requires PoolFromCorpus(st.pool, corpus)
    ensures var log := Sweep(corpus, adAccountId, st, cs, respond, draw, k).log;
            |st.log| <= |log| && RowsFor(log[|st.log|..], cs)
    decreases |cs|
  {
    SweepOnlyAppends(corpus, adAccountId, st, cs, respond, draw, k);
    if cs != [] {
      var step := Attempt(corpus, adAccountId, st, cs[0], respond(k), draw(k));
      SweepStep(corpus, adAccountId, st, cs, respond, draw, k);
      var log := Sweep(corpus, adAccountId, st, cs, respond, draw, k).log;
      if step.Continue? {
        var next := step.state;
        SweepOnlyAppends(corpus, adAccountId, next, cs[1..], respond, draw, k + 1);
        SweepRowsInOrder(corpus, adAccountId, next, cs[1..], respond, draw, k + 1);
        PrefixAt(log, next.log, |st.log|);
        SuffixStep(log, |st.log|);
      } else {
        assert log[|st.log|..] == [];
      }
    } else {
      assert Sweep(corpus, adAccountId, st, cs, respond, draw, k).log[|st.log|..] == [];
    }
  }

  /** A pass keeps the pool drawn from the corpus. */
  lemma {:induction false} SweepKeepsPool(corpus: seq<string>, adAccountId: string, st: State,
                                          cs: seq<Creative>, respond: nat -> PutResponse,
                                          draw: nat -> nat, k: nat)
    requires PoolFromCorpus(st.pool, corpus)
    ensures PoolFromCorpus(Sweep(corpus, adAccountId, st, cs, respond, draw, k).pool, corpus)
    decreases |cs|
  {
    if cs != [] {
      var step := Attempt(corpus, adAccountId, st, cs[0], respond(k), draw(k));
      if step.Continue? {
        SweepKeepsPool(corpus, adAccountId, step.state, cs[1..], respond, draw, k + 1);
      }
    }
  }

  /** With a blank corpus the first selection raises, so a pass writes no row. */
  lemma SweepBlankCorpus(corpus: seq<string>, adAccountId: string, st: State, cs: seq<Creative>,
                         respond: nat -> PutResponse, draw: nat -> nat, k: nat)
    requires PoolFromCorpus(st.pool, corpus) && Loaded(corpus) == []
    ensures Sweep(corpus, adAccountId, st, cs, respond, draw, k).log == st.log
  {
    if cs != [] {
      SweepStep(corpus, adAccountId, st, cs, respond, draw, k);
      assert Attempt(corpus, adAccountId, st, cs[0], respond(k), draw(k)).Stop?;
    }
  }

  /** With a non-blank corpus and no answer that raises, every creative gets exactly one row. */
  lemma {:induction false} SweepRowPerCreative(corpus: seq<string>, adAccountId: string, st: State,
                                               cs: seq<Creative>, respond: nat -> PutResponse,
                                               draw: nat -> nat, k: nat)
    requires PoolFromCorpus(st.pool, corpus) && Loaded(corpus) != []
    requires forall n {:trigger Raises(respond(n))} :: !Raises(respond(n))
    ensures |Sweep(corpus, adAccountId, st, cs, respond, draw, k).log| == |st.log| + |cs|
    decreases |cs|
  {
    if cs != [] {
      var step := Attempt(corpus, adAccountId, st, cs[0], respond(k), draw(k));
      assert !Raises(respond(k));
      SweepContinues(corpus, adAccountId, st, cs, respond, draw, k);
      SweepRowPerCreative(corpus, adAccountId, step.state, cs[1..], respond, draw, k + 1);
    }
  }

  /** Every creative a pass works on passes the mandatory-field gate, so each of its attempts either
      sends the update request or raises: none fails for missing fields. */
  lemma CandidatesPassGate(listing: Listing, fetch: string -> CreativeFetch, env: Env,
                           c: Creative, headline: string, response: PutResponse)
    requires c in Candidates(listing, fetch, env)
    ensures Complete(c)
    ensures var t := Transact(c, env.adAccountId, headline, response);
            t.None? || t.value.request.Some?
  {
    if listing.Listing? {
      var keys := ByCreative(Filter(listing.ads, IsEligible)).order;
      if !Aborts(keys, fetch) {
        var kept := Kept(keys, fetch, env);
        var i :| 0 <= i < |kept| && kept[i] == c;
      }
    }
  }

  /** The update loop of `run_bot`: `respond(i)` is the answer to the `i`-th update request and
      `draw(i)` the random draw of the `i`-th selection. Returns the number of attempts logged. */
  method RunCycle(selector: Selector, ledger: Ledger, adAccountId: string, creatives: seq<Creative>,
                  respond: nat -> PutResponse, draw: nat -> nat)
    returns (count: nat)
    requires selector.Valid()
    modifies selector, ledger
    ensures selector.Valid()
    ensures State(selector.pool, ledger.records)
            == Sweep(selector.corpus, adAccountId, State(old(selector.pool), old(ledger.records)),
                     creatives, respond, draw, 0)
    ensures |ledger.records| == |old(ledger.records)| + count
  {
    count := 0;
    var i := 0;
    while i < |creatives|
      invariant 0 <= i <= |creatives|
      invariant selector.Valid()
      invariant Sweep(selector.corpus, adAccountId, State(old(selector.pool), old(ledger.records)),
                      creatives, respond, draw, 0)
                == Sweep(selector.corpus, adAccountId, State(selector.pool, ledger.records),
                         creatives[i..], respond, draw, i)
      invariant |ledger.records| == |old(ledger.records)| + count
    {
      var c := creatives[i];
      var current := OldHeadline(c);
      ghost var st := State(selector.pool, ledger.records);
      ghost var step := Attempt(selector.corpus, adAccountId, st, c, respond(i), draw(i));
      SuffixStep(creatives, i);
      SweepStep(selector.corpus, adAccountId, st, creatives[i..], respond, draw, i);
      var r := UpdateCreativeHeadline(selector, ledger, adAccountId, c, current, draw(i), respond(i));
      AttemptIsUpdate(selector.corpus, adAccountId, st, c, respond(i), draw(i), r, selector.pool);
      if r.None? {
        return;
      }
      ledger.Append(RecordOf(c.id, current, r.value.outcome));
      count := count + 1;
      i := i + 1;
    }
  }

  /** One pass of `run_bot` after the credential step: filter the listing, prepare the creatives,
      and run the update loop over them. */
  method RunBot(selector: Selector, ledger: Ledger, env: Env, listing: Listing,
                fetch: string -> CreativeFetch, respond: nat -> PutResponse, draw: nat -> nat)
    returns (count: nat)
    requires selector.Valid()
    modifies selector, ledger
    ensures selector.Valid()
    ensures State(selector.pool, ledger.records)
            == Sweep(selector.corpus, env.adAccountId, State(old(selector.pool), old(ledger.records)),
                     Candidates(listing, fetch, env), respond, draw, 0)
    ensures |ledger.records| == |old(ledger.records)| + count
  {
    var active := AdsByCreative([], map[]);
    if listing.Listing? {
      active := ActiveAds(listing.ads);
    }
    var creatives := PrepareCreatives(active, fetch, env);
    if creatives == [] {
      return 0;
    }
    count := RunCycle(selector, ledger, env.adAccountId, creatives, respond, draw);
  }
}

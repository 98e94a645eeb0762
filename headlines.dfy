/** The headline selector: a pool of candidate headlines loaded from the corpus, depleted one pick
    at a time, and the rule for choosing a headline for a creative. */
module Headlines {
  import opened Wrappers
  import opened Sequences
  import opened Text

  /** The longest headline the selector hands out. */
  const MaxLength := 40

  /** A pick longer than the limit keeps its first 37 characters and gets "..." appended. */
  function Truncate(h: string): (r: string)
    ensures |r| <= MaxLength
    ensures |h| <= MaxLength ==> r == h
    ensures |h| > MaxLength ==> |r| == MaxLength && r == h[..37] + "..."
  {
    if |h| > MaxLength then h[..37] + "..." else h
  }

  /** `[line.strip() for line in file if line.strip()]`: the corpus lines, stripped, without the
      blank ones, in file order. */
  function Loaded(lines: seq<string>): (r: seq<string>)
    ensures |r| <= |lines|
    ensures forall i :: 0 <= i < |r| ==> r[i] != ""
    decreases |lines|
  {
    if lines == [] then []
    else
      var stripped := Strip(lines[|lines| - 1]);
      Loaded(lines[..|lines| - 1]) + (if stripped != "" then [stripped] else [])
  }

  /** A headline is loaded exactly when some corpus line strips to it and is not blank. */
  lemma {:induction false} LoadedMembership(lines: seq<string>, h: string)
    ensures h in Loaded(lines) <==> h != "" && exists l :: l in lines && Strip(l) == h
    decreases |lines|
  {
    if lines != [] {
      var init := lines[..|lines| - 1];
      LoadedMembership(init, h);
      assert lines == init + [lines[|lines| - 1]];
      if h in Loaded(lines) && h != Strip(lines[|lines| - 1]) {
        var l :| l in init && Strip(l) == h;
        assert l in lines;
      }
    }
  }

  /** Loading keeps the file order: the lines of two files load as the two loads one after the other. */
  lemma {:induction false} LoadedConcat(a: seq<string>, b: seq<string>)
    ensures Loaded(a + b) == Loaded(a) + Loaded(b)
    decreases |b|
  {
    if b == [] {
      assert a + b == a;
    } else {
      var init := b[..|b| - 1];
      LoadedConcat(a, init);
      var last := b[|b| - 1];
      assert (a + b)[..|a + b| - 1] == a + init;
      assert (a + b)[|a + b| - 1] == last;
      var tail := if Strip(last) != "" then [Strip(last)] else [];
      assert Loaded(a + b) == Loaded(a + init) + tail;
      assert Loaded(b) == Loaded(init) + tail;
    }
  }

  /** Every loaded headline is already stripped. */
  lemma {:induction false} LoadedIsStripped(lines: seq<string>)
    ensures forall i :: 0 <= i < |Loaded(lines)| ==> Strip(Loaded(lines)[i]) == Loaded(lines)[i]
    decreases |lines|
  {
    if lines != [] {
      var init := lines[..|lines| - 1];
      LoadedIsStripped(init);
      StripIdempotent(lines[|lines| - 1]);
    }
  }

  /** `[h for h in pool if h not in used and h != current]`. */
  function Available(pool: seq<string>, used: seq<string>, current: string): (r: seq<string>)
    ensures forall h :: h in r <==> h in pool && h !in used && h != current
  {
    Filter(pool, h => h !in used && h != current)
  }

  /** `[h for h in pool if h != current]`. */
  function Without(pool: seq<string>, current: string): (r: seq<string>)
    ensures forall h :: h in r <==> h in pool && h != current
  {
    Filter(pool, h => h != current)
  }

  /** The result of one selection: the pick before and after truncation and the pool left behind,
      or `Exhausted` when nothing could be picked (the source raises). */
  datatype Selection = Exhausted | Picked(raw: string, headline: string, pool: seq<string>)

  /** `random.choice(xs)` for a random draw `roll`. */
  function Choice(xs: seq<string>, roll: nat): (h: string)
    requires xs != []
    ensures h in xs
  {
    xs[roll % |xs|]
  }

  /** `generate_new_headline`, as a function of the pool before the call, the corpus, the headlines
      already used for the creative, its current headline and the random draw. */
  function Select(pool: seq<string>, corpus: seq<string>, used: seq<string>, current: string, roll: nat): Selection {
    var start := if pool == [] then Loaded(corpus) else pool;
    var available := Available(start, used, current);
    if available != [] then
      var raw := Choice(available, roll);
      Picked(raw, Truncate(raw), RemoveFirst(start, raw))
    else
      var reloaded := Loaded(corpus);
      var fallback := if Without(reloaded, current) != [] then Without(reloaded, current) else reloaded;
      if fallback == [] then Exhausted
      else
        var raw := Choice(fallback, roll);
        Picked(raw, Truncate(raw), RemoveFirst(reloaded, raw))
  }

  /** The pool never holds anything (or more copies of anything) the corpus does not. */
  ghost predicate PoolFromCorpus(pool: seq<string>, corpus: seq<string>) {
    multiset(pool) <= multiset(Loaded(corpus))
  }

  /** Taking one copy of a headline out of a pool drawn from the corpus leaves a pool drawn from it. */
  lemma RemovalKeepsPool(pool: seq<string>, h: string, corpus: seq<string>)
    requires h in pool && PoolFromCorpus(pool, corpus)
    ensures multiset(RemoveFirst(pool, h)) == multiset(pool) - multiset{h}
    ensures PoolFromCorpus(RemoveFirst(pool, h), corpus)
  {
    RemoveFirstMultiset(pool, h);
  }

  /** With a pool drawn from the corpus, selection fails exactly when the corpus has no non-blank line. */
  lemma ExhaustedIffBlankCorpus(pool: seq<string>, corpus: seq<string>, used: seq<string>, current: string, roll: nat)
    requires PoolFromCorpus(pool, corpus)
    ensures Select(pool, corpus, used, current, roll).Exhausted? <==> Loaded(corpus) == []
  {
    if Loaded(corpus) == [] {
      assert multiset(pool) == multiset{};
      assert |pool| == |multiset(pool)|;
    }
    if Loaded(corpus) != [] {
      var reloaded := Loaded(corpus);
      if Without(reloaded, current) == [] {
        assert reloaded != [];
      }
    }
  }

  /** Where the pick comes from. When the (lazily loaded) pool has a headline that is neither used for
      the creative nor its current headline, the pick is such a headline; otherwise the pick comes from
      the reloaded corpus, and equals the current headline only if every corpus headline does. */
  lemma PickIsAvailable(pool: seq<string>, corpus: seq<string>, used: seq<string>, current: string, roll: nat)
    requires Select(pool, corpus, used, current, roll).Picked?
    ensures var start := if pool == [] then Loaded(corpus) else pool;
            var raw := Select(pool, corpus, used, current, roll).raw;
            && (Available(start, used, current) != [] ==> raw in start && raw !in used && raw != current)
            && (Available(start, used, current) == [] ==>
                  raw in Loaded(corpus) && (raw == current ==> forall h :: h in Loaded(corpus) ==> h == current))
  {
    var start := if pool == [] then Loaded(corpus) else pool;
    var reloaded := Loaded(corpus);
    if Available(start, used, current) == [] && Without(reloaded, current) != [] {
      var raw := Select(pool, corpus, used, current, roll).raw;
      assert raw in Without(reloaded, current);
    }
  }

  /** The pool after a pick is the pool it was drawn from (the lazily loaded pool, or the reloaded
      corpus) with exactly the first copy of the pick removed; it is one shorter and still drawn
      from the corpus. */
  lemma PoolLosesThePick(pool: seq<string>, corpus: seq<string>, used: seq<string>, current: string, roll: nat)
    requires PoolFromCorpus(pool, corpus)
    ensures var s := Select(pool, corpus, used, current, roll);
            var start := if pool == [] then Loaded(corpus) else pool;
            var from := if Available(start, used, current) != [] then start else Loaded(corpus);
            s.Picked? ==>
              && s.raw in from
              && s.pool == RemoveFirst(from, s.raw)
              && |s.pool| == |from| - 1
              && multiset(s.pool) == multiset(from) - multiset{s.raw}
              && PoolFromCorpus(s.pool, corpus)
  {
    var s := Select(pool, corpus, used, current, roll);
    if s.Picked? {
      var start := if pool == [] then Loaded(corpus) else pool;
      var from := if Available(start, used, current) != [] then start else Loaded(corpus);
      PickIsAvailable(pool, corpus, used, current, roll);
      assert s.raw in from && s.pool == RemoveFirst(from, s.raw);
      assert PoolFromCorpus(from, corpus);
      RemovalKeepsPool(from, s.raw, corpus);
    }
  }

  /** The headline handed out fits the display limit, and is the pick itself when the pick fits. */
  lemma HeadlineFits(pool: seq<string>, corpus: seq<string>, used: seq<string>, current: string, roll: nat)
    requires Select(pool, corpus, used, current, roll).Picked?
    ensures var s := Select(pool, corpus, used, current, roll);
            |s.headline| <= MaxLength && (|s.raw| <= MaxLength ==> s.headline == s.raw)
  {
  }

  /** No repeat: when an unused headline is available and it fits the limit, the headline handed out
      is neither one already used for the creative nor its current headline. */
  lemma NoRepeatWhenAvailable(pool: seq<string>, corpus: seq<string>, used: seq<string>, current: string, roll: nat)
    requires Available(if pool == [] then Loaded(corpus) else pool, used, current) != []
    requires |Select(pool, corpus, used, current, roll).raw| <= MaxLength
    ensures Select(pool, corpus, used, current, roll).Picked?
    ensures Select(pool, corpus, used, current, roll).headline !in used
    ensures Select(pool, corpus, used, current, roll).headline != current
  {
    PickIsAvailable(pool, corpus, used, current, roll);
  }

  /** The ledger stores the truncated headline, so a pick longer than the limit is never recognised as
      used: with the truncated form already used for the creative, the same headline is handed out again. */
  lemma LongPickRepeats(long: string, corpus: seq<string>, current: string, roll: nat)
    requires |long| > MaxLength && long != current
    ensures Select([long], corpus, [Truncate(long)], current, roll) == Picked(long, Truncate(long), [])
    ensures long !in [Truncate(long)]
  {
    assert Truncate(long) != long;
    assert Available([long], [Truncate(long)], current) == [long] by {
      assert [long][..0] == [];
    }
  }

  /** The process-wide pool of `generate_new_headline`. The corpus file is read on every (re)load;
      its contents are taken to be fixed while the process runs. */
  class Selector {
    const corpus: seq<string>
    var pool: seq<string>

    ghost predicate Valid()
      reads this
    {
      PoolFromCorpus(pool, corpus)
    }

    /** The pool starts empty and is loaded on first use. */
    constructor (corpus: seq<string>)
      ensures this.corpus == corpus && pool == [] && Valid()
    {
      this.corpus := corpus;
      pool := [];
    }

    /** `generate_new_headline`: `used` is the ledger's answer for the creative, `current` its
        headline, `roll` the random draw. `None` when the corpus has nothing to offer (the source
        raises). */
    method Generate(used: seq<string>, current: string, roll: nat) returns (headline: Option<string>)
      requires Valid()
      modifies this
      ensures Valid()
      ensures headline.None? <==> Loaded(corpus) == []
      ensures var s := Select(old(pool), corpus, used, current, roll);
              if s.Picked? then headline == Some(s.headline) && pool == s.pool
              else headline == None && pool == []
    {
      ghost var before := pool;
      ExhaustedIffBlankCorpus(before, corpus, used, current, roll);
      PoolLosesThePick(before, corpus, used, current, roll);
      if pool == [] {
        pool := Loaded(corpus);
      }
      var available := Available(pool, used, current);
      if available == [] {
        pool := Loaded(corpus);
        available := Without(pool, current);
        if available == [] {
          available := pool;
        }
      }
      if available == [] {
        headline := None;
        return;
      }
      var raw := available[roll % |available|];
      pool := RemoveFirst(pool, raw);
      headline := Some(Truncate(raw));
    }
  }
}

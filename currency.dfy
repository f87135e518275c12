/** The currency records the selectors offer and the two filter strategies
    the application plugs into them. */
module Currency {
  import opened JsStrings
  import opened Sequences

  /** A rate stands for the decimal string its number prints as. */
  type RateStr = string

  datatype Candidate = Candidate(name: string, rate: RateStr)

  /** No two candidates share a name. */
  ghost predicate UniqueNames(cs: seq<Candidate>) {
    forall i, j :: 0 <= i < j < |cs| ==> cs[i].name != cs[j].name
  }

  /** The lower-cased name contains the lower-cased query. */
  function NameMatches(query: string, c: Candidate): (r: bool)
    ensures r ==> |query| <= |c.name|
    ensures query == "" ==> r
    ensures ToLower(query) <= ToLower(c.name) ==> r
  {
    Includes(ToLower(c.name), ToLower(query))
  }

  /** Filter by name, partially and case-insensitively. */
  function CaseInsensitivePartialFilter(options: seq<Candidate>, query: string): (r: seq<Candidate>)
    ensures forall c :: c in r <==> c in options && NameMatches(query, c)
    ensures forall c :: multiset(r)[c] == if NameMatches(query, c) then multiset(options)[c] else 0
    ensures IsSubsequence(r, options)
  {
    var keep := c => NameMatches(query, c);
    FilterIsSubsequence(options, keep);
    forall c ensures multiset(Filter(options, keep))[c] == if keep(c) then multiset(options)[c] else 0 {
      FilterCount(options, keep, c);
    }
    Filter(options, keep)
  }

  /** The empty query matches every option, so nothing is filtered out. */
  lemma PartialFilterEmptyQuery(options: seq<Candidate>)
    ensures CaseInsensitivePartialFilter(options, "") == options
  {
    forall c | c in options ensures NameMatches("", c) {
      IncludesEmpty(ToLower(c.name));
    }
    FilterKeepsAll(options, c => NameMatches("", c));
  }

  /** The filter cannot tell a query from its lower-cased form. */
  lemma PartialFilterCaseBlind(options: seq<Candidate>, query: string)
    ensures CaseInsensitivePartialFilter(options, ToLower(query))
         == CaseInsensitivePartialFilter(options, query)
  {
    ToLowerIdempotent(query);
    FilterCongruent(options, c => NameMatches(ToLower(query), c), c => NameMatches(query, c));
  }

  /** The rate's string, cut to the query's length, contains the query. */
  function RateMatches(query: string, c: Candidate): (r: bool)
    ensures r ==> |query| <= |c.rate|
    ensures query <= c.rate ==> r
  {
    SubstringWhole(query);
    Includes(Substring(c.rate, 0, |query|), Substring(query, 0, |query|))
  }

  /** The rate test is a prefix test in disguise. */
  lemma RateMatchesIsPrefix(query: string)
    ensures forall c :: RateMatches(query, c) <==> query <= c.rate
  {
    SubstringWhole(query);
    forall c ensures RateMatches(query, c) <==> query <= c.rate {
      IncludesInHeadIsPrefix(c.rate, query);
    }
  }

  /** Filter by exchange rate: keep the options whose rate starts with the
      query. */
  function RateFilter(options: seq<Candidate>, query: string): (r: seq<Candidate>)
    ensures forall c :: c in r <==> c in options && query <= c.rate
    ensures forall c :: multiset(r)[c] == if query <= c.rate then multiset(options)[c] else 0
    ensures IsSubsequence(r, options)
  {
    var keep := c => RateMatches(query, c);
    RateMatchesIsPrefix(query);
    FilterIsSubsequence(options, keep);
    forall c ensures multiset(Filter(options, keep))[c] == if keep(c) then multiset(options)[c] else 0 {
      FilterCount(options, keep, c);
    }
    Filter(options, keep)
  }

  /** The rate filter is literally the prefix filter. */
  lemma RateFilterIsPrefixFilter(options: seq<Candidate>, query: string)
    ensures RateFilter(options, query) == Filter(options, (c: Candidate) => query <= c.rate)
  {
    RateMatchesIsPrefix(query);
    FilterCongruent(options, c => RateMatches(query, c), (c: Candidate) => query <= c.rate);
  }

  /** `keys` lists every key of `rates` once, as `Object.keys` does. */
  ghost predicate EnumeratesKeys(keys: seq<string>, rates: map<string, RateStr>) {
    && (forall i, j :: 0 <= i < j < |keys| ==> keys[i] != keys[j])
    && (forall k :: k in keys <==> k in rates)
  }

  /** The rates object of the exchange-rate response turned into candidates:
      one per key, in key order, named by the key and carrying its rate. */
  function CurrenciesFromRates(keys: seq<string>, rates: map<string, RateStr>): (r: seq<Candidate>)
    requires forall k :: k in keys ==> k in rates
    ensures |r| == |keys|
    ensures forall i :: 0 <= i < |keys| ==> r[i] == Candidate(keys[i], rates[keys[i]])
    ensures forall c :: c in r ==> c.name in rates && c.rate == rates[c.name]
    ensures forall k :: k in keys ==> Candidate(k, rates[k]) in r
  {
    var r := seq(|keys|, i requires 0 <= i < |keys| => Candidate(keys[i], rates[keys[i]]));
    assert forall k :: k in keys ==> Candidate(k, rates[k]) in r by {
      forall k | k in keys ensures Candidate(k, rates[k]) in r {
        var i :| 0 <= i < |keys| && keys[i] == k;
        assert r[i] == Candidate(k, rates[k]);
      }
    }
    r
  }

  lemma {:induction false} DistinctKeysCount(keys: seq<string>)
    requires forall i, j :: 0 <= i < j < |keys| ==> keys[i] != keys[j]
    ensures |set k | k in keys| == |keys|
  {
    if keys != [] {
      DistinctKeysCount(keys[1..]);
      assert (set k | k in keys) == {keys[0]} + (set k | k in keys[1..]);
      assert keys[0] !in (set k | k in keys[1..]);
    }
  }

  /** The conversion yields one candidate per key of the rates object, and
      no two of them share a name. */
  lemma CurrenciesOnePerKey(keys: seq<string>, rates: map<string, RateStr>)
    requires EnumeratesKeys(keys, rates)
    ensures |CurrenciesFromRates(keys, rates)| == |rates|
    ensures UniqueNames(CurrenciesFromRates(keys, rates))
  {
    DistinctKeysCount(keys);
    assert (set k | k in keys) == rates.Keys;
    var r := CurrenciesFromRates(keys, rates);
    assert forall i :: 0 <= i < |r| ==> r[i].name == keys[i];
  }

  /** The three currencies of the worked examples below. */
  function SampleCurrencies(): seq<Candidate> {
    [Candidate("SGD", "1"), Candidate("USD", "0.73"), Candidate("EUR", "0.68")]
  }

  /** Typing "u" keeps USD and also EUR, whose name contains a "u". */
  lemma PartialFilterExample()
    ensures CaseInsensitivePartialFilter(SampleCurrencies(), "u")
         == [Candidate("USD", "0.73"), Candidate("EUR", "0.68")]
  {
    var sgd, usd, eur := Candidate("SGD", "1"), Candidate("USD", "0.73"), Candidate("EUR", "0.68");
    assert ToLower("u") == "u" && ToLower("SGD") == "sgd";
    assert ToLower("USD") == "usd" && ToLower("EUR") == "eur";
    NotIncludedWhenCharMissing("sgd", "u", 0);
    assert MatchesAt("usd", "u", 0) && MatchesAt("eur", "u", 1);
    var keep := (c: Candidate) => NameMatches("u", c);
    assert [sgd, usd, eur][1..] == [usd, eur] && [usd, eur][1..] == [eur] && [eur][1..] == [];
    assert Filter([eur], keep) == [eur];
    assert Filter([usd, eur], keep) == [usd, eur];
  }

  /** A query no name contains leaves nothing. */
  lemma PartialFilterNoMatch()
    ensures CaseInsensitivePartialFilter(SampleCurrencies(), "zz") == []
  {
    var sgd, usd, eur := Candidate("SGD", "1"), Candidate("USD", "0.73"), Candidate("EUR", "0.68");
    assert ToLower("zz") == "zz" && ToLower("SGD") == "sgd";
    assert ToLower("USD") == "usd" && ToLower("EUR") == "eur";
    NotIncludedWhenCharMissing("sgd", "zz", 0);
    NotIncludedWhenCharMissing("usd", "zz", 0);
    NotIncludedWhenCharMissing("eur", "zz", 0);
    var keep := (c: Candidate) => NameMatches("zz", c);
    assert [sgd, usd, eur][1..] == [usd, eur] && [usd, eur][1..] == [eur] && [eur][1..] == [];
    assert Filter([eur], keep) == [];
    assert Filter([usd, eur], keep) == [];
  }
}

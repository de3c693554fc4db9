/** Which provider and model can convert which modality into which. */
module Capabilities {
  datatype Modality = TEXT | IMAGE | AUDIO | VIDEO | VECTOR

  datatype Pair = Pair(input: Modality, output: Modality)

  /** Registered adapters are named. */
  type ProviderName = s: string | s != "" witness "openai"

  datatype Candidate = Candidate(provider: ProviderName, model: string)

  /** The items of an adapter's capability table, in order. */
  datatype Capability = Capability(pair: Pair, models: seq<string>)

  /** A registered adapter under its name, in registration order. */
  datatype Provider = Provider(name: ProviderName, capabilities: seq<Capability>)

  function Named(name: ProviderName, models: seq<string>): (candidates: seq<Candidate>)
    ensures |candidates| == |models|
  {
    seq(|models|, k requires 0 <= k < |models| => Candidate(name, models[k]))
  }

  function Offered(name: ProviderName, capabilities: seq<Capability>, pair: Pair): seq<Candidate> {
    if capabilities == [] then []
    else
      var last := capabilities[|capabilities| - 1];
      Offered(name, capabilities[..|capabilities| - 1], pair) + if last.pair == pair then Named(name, last.models) else []
  }

  /** All candidates for a pair: providers in registration order, models as advertised. */
  function Advertised(providers: seq<Provider>, pair: Pair): seq<Candidate> {
    if providers == [] then []
    else
      var last := providers[|providers| - 1];
      Advertised(providers[..|providers| - 1], pair) + Offered(last.name, last.capabilities, pair)
  }

  predicate Mentions(capabilities: seq<Capability>, pair: Pair) {
    exists k :: 0 <= k < |capabilities| && capabilities[k].pair == pair
  }

  predicate Mentioned(providers: seq<Provider>, pair: Pair) {
    exists k :: 0 <= k < |providers| && Mentions(providers[k].capabilities, pair)
  }

  /** `capability_map.get(pair, [])`. */
  function Listed(capMap: map<Pair, seq<Candidate>>, pair: Pair): seq<Candidate> {
    if pair in capMap then capMap[pair] else []
  }

  /** The index has a pair that some adapter mentions, with all its candidates. */
  ghost predicate Indexed(providers: seq<Provider>, capMap: map<Pair, seq<Candidate>>, pair: Pair) {
    && (pair in capMap <==> Mentioned(providers, pair))
    && Listed(capMap, pair) == Advertised(providers, pair)
  }

  method BuildCapabilityMap(providers: seq<Provider>) returns (capMap: map<Pair, seq<Candidate>>)
    ensures forall pair: Pair :: Indexed(providers, capMap, pair)
  {
    capMap := map[];
    for i := 0 to |providers|
      invariant forall pair: Pair :: Indexed(providers[..i], capMap, pair)
    {
      ghost var before := capMap;
      capMap := AddProvider(capMap, providers[i]);
      forall pair: Pair ensures Indexed(providers[..i] + [providers[i]], capMap, pair) {
        assert Indexed(providers[..i], before, pair);
        assert AddedFor(before, providers[i].name, providers[i].capabilities, capMap, pair);
        MentionedSnoc(providers[..i], providers[i], pair);
        assert (providers[..i] + [providers[i]])[..i] == providers[..i];
      }
      assert providers[..i + 1] == providers[..i] + [providers[i]];
    }
    assert providers[..|providers|] == providers;
  }

  /** The loop over one adapter's capabilities. */
  method AddProvider(capMap: map<Pair, seq<Candidate>>, p: Provider) returns (r: map<Pair, seq<Candidate>>)
    ensures forall pair: Pair :: AddedFor(capMap, p.name, p.capabilities, r, pair)
  {
    r := capMap;
    for j := 0 to |p.capabilities|
      invariant forall pair: Pair :: AddedFor(capMap, p.name, p.capabilities[..j], r, pair)
    {
      var c := p.capabilities[j];
      ghost var before := r;
      r := AddModels(r, p.name, c);
      forall pair: Pair ensures AddedFor(capMap, p.name, p.capabilities[..j] + [c], r, pair) {
        AddedNext(capMap, p.name, p.capabilities[..j], c, before, r, pair);
      }
      assert p.capabilities[..j + 1] == p.capabilities[..j] + [c];
    }
    assert p.capabilities[..|p.capabilities|] == p.capabilities;
  }

  /** What adding an adapter's capabilities does for one pair. */
  ghost predicate AddedFor(capMap: map<Pair, seq<Candidate>>, name: ProviderName, capabilities: seq<Capability>,
                           r: map<Pair, seq<Candidate>>, pair: Pair) {
    && (pair in r <==> pair in capMap || Mentions(capabilities, pair))
    && Listed(r, pair) == Listed(capMap, pair) + Offered(name, capabilities, pair)
  }

  lemma OfferedSnoc(name: ProviderName, capabilities: seq<Capability>, c: Capability, pair: Pair)
    ensures Offered(name, capabilities + [c], pair) ==
            Offered(name, capabilities, pair) + if c.pair == pair then Named(name, c.models) else []
  {
    assert (capabilities + [c])[..|capabilities|] == capabilities;
  }

  lemma AddedNext(capMap: map<Pair, seq<Candidate>>, name: ProviderName, capabilities: seq<Capability>, c: Capability,
                  before: map<Pair, seq<Candidate>>, r: map<Pair, seq<Candidate>>, pair: Pair)
    requires AddedFor(capMap, name, capabilities, before, pair)
    requires r == before[c.pair := Listed(before, c.pair) + Named(name, c.models)]
    ensures AddedFor(capMap, name, capabilities + [c], r, pair)
  {
    MentionsSnoc(capabilities, c, pair);
    OfferedSnoc(name, capabilities, c, pair);
    var added := if c.pair == pair then Named(name, c.models) else [];
    assert Listed(r, pair) == Listed(before, pair) + added;
    assert Listed(capMap, pair) + Offered(name, capabilities, pair) + added
        == Listed(capMap, pair) + (Offered(name, capabilities, pair) + added);
  }

  /** The loop over the models of one capability. */
  method AddModels(capMap: map<Pair, seq<Candidate>>, name: ProviderName, c: Capability) returns (r: map<Pair, seq<Candidate>>)
    ensures r == capMap[c.pair := Listed(capMap, c.pair) + Named(name, c.models)]
  {
    r := capMap;
    if c.pair !in r {
      r := r[c.pair := []];
    }
    for k := 0 to |c.models|
      invariant r.Keys == capMap.Keys + {c.pair}
      invariant r[c.pair] == Listed(capMap, c.pair) + Named(name, c.models[..k])
      invariant forall pair | pair in capMap && pair != c.pair :: r[pair] == capMap[pair]
    {
      r := r[c.pair := r[c.pair] + [Candidate(name, c.models[k])]];
      assert Named(name, c.models[..k + 1]) == Named(name, c.models[..k]) + [Candidate(name, c.models[k])];
    }
    assert c.models[..|c.models|] == c.models;
  }

  lemma MentionsSnoc(capabilities: seq<Capability>, c: Capability, pair: Pair)
    ensures Mentions(capabilities + [c], pair) <==> Mentions(capabilities, pair) || c.pair == pair
  {
    assert (capabilities + [c])[|capabilities|] == c;
    if Mentions(capabilities, pair) {
      var k :| 0 <= k < |capabilities| && capabilities[k].pair == pair;
      assert (capabilities + [c])[k].pair == pair;
    }
  }

  lemma MentionedSnoc(providers: seq<Provider>, p: Provider, pair: Pair)
    ensures Mentioned(providers + [p], pair) <==> Mentioned(providers, pair) || Mentions(p.capabilities, pair)
  {
    assert (providers + [p])[|providers|] == p;
    if Mentioned(providers, pair) {
      var k :| 0 <= k < |providers| && Mentions(providers[k].capabilities, pair);
      assert Mentions((providers + [p])[k].capabilities, pair);
    }
  }

  lemma {:induction false} OfferedIff(name: ProviderName, capabilities: seq<Capability>, pair: Pair, c: Candidate)
    ensures c in Offered(name, capabilities, pair) <==>
      c.provider == name && exists k :: 0 <= k < |capabilities| && capabilities[k].pair == pair && c.model in capabilities[k].models
    decreases capabilities
  {
    if capabilities != [] {
      var n := |capabilities| - 1;
      var last := capabilities[n];
      OfferedIff(name, capabilities[..n], pair, c);
      NamedIff(name, last.models, c);
      if c.provider == name && exists k :: 0 <= k < |capabilities| && capabilities[k].pair == pair && c.model in capabilities[k].models {
        var k :| 0 <= k < |capabilities| && capabilities[k].pair == pair && c.model in capabilities[k].models;
        assert k < n ==> capabilities[..n][k] == capabilities[k];
      }
    }
  }

  lemma NamedIff(name: ProviderName, models: seq<string>, c: Candidate)
    ensures c in Named(name, models) <==> c.provider == name && c.model in models
  {
    if c.provider == name && c.model in models {
      var k :| 0 <= k < |models| && models[k] == c.model;
      assert Named(name, models)[k] == c;
    }
  }

  predicate Advertises(p: Provider, pair: Pair, model: string) {
    exists k :: 0 <= k < |p.capabilities| && p.capabilities[k].pair == pair && model in p.capabilities[k].models
  }

  /** The index lists a candidate exactly when a provider of that name advertises the model for the pair. */
  lemma {:induction false} AdvertisedIff(providers: seq<Provider>, pair: Pair, c: Candidate)
    ensures c in Advertised(providers, pair) <==>
      exists k :: 0 <= k < |providers| && providers[k].name == c.provider && Advertises(providers[k], pair, c.model)
    decreases providers
  {
    if providers != [] {
      var n := |providers| - 1;
      AdvertisedIff(providers[..n], pair, c);
      OfferedIff(providers[n].name, providers[n].capabilities, pair, c);
      if exists k :: 0 <= k < |providers| && providers[k].name == c.provider && Advertises(providers[k], pair, c.model) {
        var k :| 0 <= k < |providers| && providers[k].name == c.provider && Advertises(providers[k], pair, c.model);
        assert k < n ==> providers[..n][k] == providers[k];
      }
    }
  }

  lemma CandidatesJoin(a: seq<Candidate>, b: seq<Candidate>, c: seq<Candidate>)
    ensures (a + b) + c == a + (b + c) && a + [] == a
  {
  }

  /** Earlier providers' candidates come first. */
  lemma {:induction false} AdvertisedJoins(a: seq<Provider>, b: seq<Provider>, pair: Pair)
    ensures Advertised(a + b, pair) == Advertised(a, pair) + Advertised(b, pair)
    decreases |b|
  {
    if |b| == 0 {
      assert a + b == a;
      CandidatesJoin(Advertised(a, pair), [], []);
    } else {
      var front, last := b[..|b| - 1], b[|b| - 1];
      AdvertisedJoins(a, front, pair);
      assert (a + b)[..|a + b| - 1] == a + front;
      CandidatesJoin(Advertised(a, pair), Advertised(front, pair), Offered(last.name, last.capabilities, pair));
    }
  }

  /** Of one provider, those of earlier capabilities. */
  lemma {:induction false} OfferedJoins(name: ProviderName, a: seq<Capability>, b: seq<Capability>, pair: Pair)
    ensures Offered(name, a + b, pair) == Offered(name, a, pair) + Offered(name, b, pair)
    decreases |b|
  {
    if |b| == 0 {
      assert a + b == a;
      CandidatesJoin(Offered(name, a, pair), [], []);
    } else {
      var front, last := b[..|b| - 1], b[|b| - 1];
      OfferedJoins(name, a, front, pair);
      assert (a + b)[..|a + b| - 1] == a + front;
      CandidatesJoin(Offered(name, a, pair), Offered(name, front, pair), if last.pair == pair then Named(name, last.models) else []);
    }
  }

  /** And of one capability, its models in order. */
  lemma OneCapability(name: ProviderName, c: Capability, k: nat)
    requires k < |c.models|
    ensures
      var listed := Advertised([Provider(name, [c])], c.pair);
      |listed| == |c.models| && listed[k] == Candidate(name, c.models[k])
  {
    var p := Provider(name, [c]);
    assert [p][..0] == [] && [c][..0] == [];
    assert Offered(name, [c], c.pair) == [] + Named(name, c.models) == Named(name, c.models);
    assert Advertised([p], c.pair) == [] + Offered(name, [c], c.pair) == Offered(name, [c], c.pair);
  }
}

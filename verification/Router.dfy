/** Routing one request: candidates, keys, preferences, ranking, and failover. */
module Router {
  import opened Wrappers
  import opened Redis
  import opened Capabilities
  import opened Ranking
  import opened Ranker

  datatype KeyLookup = KeyFound(key: string) | KeyLookupFailed

  /** A tool call, and whether it has what the response schema asks of one. */
  datatype ToolCall = ToolCall(text: string, wellFormed: bool)

  /** What an adapter returns; the router puts the provider's name on it. */
  datatype UnifiedResponse = UnifiedResponse(
    content: Option<string>, model: Option<string>, inputTokens: Option<nat>, outputTokens: Option<nat>,
    toolCalls: Option<seq<ToolCall>>)

  /** What dispatching to an adapter comes to. */
  datatype Outcome = Answered(response: UnifiedResponse, elapsedMs: nat) | Raised(message: string)

  datatype RouteError =
    | CapabilityNotSupported
    | ProviderKeyMissing
    | KeyUnavailable(provider: string)
    | AllProvidersFailed(last: string)

  datatype Answer = Answer(candidate: Candidate, response: UnifiedResponse, elapsedMs: nat)

  /** A dispatch: the candidate chosen and the model the request then carries. */
  datatype Dispatch = Dispatch(candidate: Candidate, model: string)

  /**
   What the world answers: the registered names, the interfaces their adapters implement
   and the time of ranking; and, for the candidate at position `k`, the key lookup, the
   outcome of calling its adapter, and the time it is recorded.
   */
  datatype World = World(
    registered: set<string>, interfaces: string -> set<Interface>, now: real,
    keys: nat -> KeyLookup, outcome: (nat, Candidate) -> Outcome, at: nat -> real)

  datatype Interface =
    | ChatCapable | ImageGenCapable | VisionCapable | TtsCapable | SttCapable | EmbedCapable | VideoGenCapable

  /** The interface that a conversion calls, if it is one of the eight that are dispatched. */
  function Needed(pair: Pair): Option<Interface> {
    match pair
    case Pair(TEXT, TEXT) => Some(ChatCapable)
    case Pair(TEXT, IMAGE) => Some(ImageGenCapable)
    case Pair(IMAGE, TEXT) => Some(VisionCapable)
    case Pair(TEXT, AUDIO) => Some(TtsCapable)
    case Pair(AUDIO, TEXT) => Some(SttCapable)
    case Pair(TEXT, VECTOR) => Some(EmbedCapable)
    case Pair(TEXT, VIDEO) => Some(VideoGenCapable)
    case Pair(IMAGE, VIDEO) => Some(VideoGenCapable)
    case _ => None
  }

  function ModalityText(m: Modality): string {
    match m
    case TEXT => "text"
    case IMAGE => "image"
    case AUDIO => "audio"
    case VIDEO => "video"
    case VECTOR => "vector"
  }

  function NotSupported(pair: Pair): string {
    "No provider supports conversion: " + ModalityText(pair.input) + " " + [8594 as char] + " " + ModalityText(pair.output)
  }

  /** The case split on modalities: without the interface it raises, and the adapter is not called. */
  function DispatchTo(w: World, pair: Pair, k: nat, c: Candidate): Outcome {
    var needed := Needed(pair);
    if needed.None? || needed.value !in w.interfaces(c.provider) then Raised(NotSupported(pair)) else w.outcome(k, c)
  }

  /** The world as the failover loop for one conversion meets it. */
  function Serving(w: World, pair: Pair): World {
    w.(outcome := (k: nat, c: Candidate) => DispatchTo(w, pair, k, c))
  }

  datatype Failover = Failover(result: Result<Answer, RouteError>, dispatched: seq<Dispatch>, records: seq<Record>)

  /** A preference that is absent or empty is no preference. */
  function Wanted(preference: Option<string>): Option<string> {
    if preference == Some("") then None else preference
  }

  function Filter(candidates: seq<Candidate>, keep: Candidate -> bool): seq<Candidate> {
    if candidates == [] then []
    else (if keep(candidates[0]) then [candidates[0]] else []) + Filter(candidates[1..], keep)
  }

  function WithKeys(candidates: seq<Candidate>, users: set<string>): seq<Candidate> {
    Filter(candidates, (c: Candidate) => c.provider in users)
  }

  function OfProvider(candidates: seq<Candidate>, provider: string): seq<Candidate> {
    Filter(candidates, (c: Candidate) => c.provider == provider)
  }

  function OfModel(candidates: seq<Candidate>, model: string): seq<Candidate> {
    Filter(candidates, (c: Candidate) => c.model == model)
  }

  /** A preference narrows the list unless nothing matches it. */
  function Preferred(available: seq<Candidate>, provider: Option<string>, model: Option<string>): seq<Candidate> {
    var p := Wanted(provider);
    var byProvider := if p.Some? && OfProvider(available, p.value) != [] then OfProvider(available, p.value) else available;
    var m := Wanted(model);
    if m.Some? && OfModel(byProvider, m.value) != [] then OfModel(byProvider, m.value) else byProvider
  }

  function Order(stats: Option<Stats>, available: seq<Candidate>, now: real): seq<Candidate> {
    if stats.Some? && |available| > 1 then Ranked(stats.value, available, now) else available
  }

  /** `req.model or model_id`. */
  function ModelFor(requested: Option<string>, c: Candidate): string {
    var m := Wanted(requested);
    if m.Some? then m.value else c.model
  }

  /** The failover loop from candidate `k` on, with the model the request carries by then. */
  function FailoverFrom(w: World, order: seq<Candidate>, k: nat, requested: Option<string>, last: Option<string>): Failover
    requires k <= |order|
    decreases |order| - k
  {
    if k == |order| then
      Failover(Failure(if last.Some? then AllProvidersFailed(last.value) else CapabilityNotSupported), [], [])
    else
      var c := order[k];
      if c.provider !in w.registered then FailoverFrom(w, order, k + 1, requested, last)
      else if w.keys(k).KeyLookupFailed? then
        Failover(Failure(KeyUnavailable(c.provider)), [], [])
      else
        var dispatch := Dispatch(c, ModelFor(requested, c));
        match w.outcome(k, c)
        case Answered(response, elapsedMs) =>
          Failover(Success(Answer(c, response, elapsedMs)), [dispatch], [Succeeded(c, elapsedMs, w.at(k))])
        case Raised(message) =>
          var rest := FailoverFrom(w, order, k + 1, Some(dispatch.model), Some(message));
          Failover(rest.result, [dispatch] + rest.dispatched, [Failed(c, w.at(k))] + rest.records)
  }

  datatype RouteRequest = RouteRequest(
    pair: Pair, userProviders: set<string>, preferredProvider: Option<string>, preferredModel: Option<string>, model: Option<string>)

  function Route(capable: seq<Candidate>, stats: Option<Stats>, w: World, req: RouteRequest): Failover {
    var available := WithKeys(capable, req.userProviders);
    if capable == [] then Failover(Failure(CapabilityNotSupported), [], [])
    else if available == [] then Failover(Failure(ProviderKeyMissing), [], [])
    else
      var order := Order(stats, Preferred(available, req.preferredProvider, req.preferredModel), w.now);
      FailoverFrom(Serving(w, req.pair), order, 0, req.model, None)
  }

  /** A loop before candidate `k` has collected the part of the result before it. */
  ghost predicate Continues(w: World, order: seq<Candidate>, requested: Option<string>, k: nat, model: Option<string>,
                            last: Option<string>, dispatched: seq<Dispatch>, records: seq<Record>)
    requires k <= |order|
  {
    var rest := FailoverFrom(w, order, k, model, last);
    FailoverFrom(w, order, 0, requested, None) == Failover(rest.result, dispatched + rest.dispatched, records + rest.records)
  }

  lemma ContinuesNext(w: World, order: seq<Candidate>, requested: Option<string>, k: nat, model: Option<string>,
                      last: Option<string>, dispatched: seq<Dispatch>, records: seq<Record>)
    requires k < |order| && Continues(w, order, requested, k, model, last, dispatched, records)
    ensures
      var c := order[k];
      var whole := FailoverFrom(w, order, 0, requested, None);
      if c.provider !in w.registered then Continues(w, order, requested, k + 1, model, last, dispatched, records)
      else if w.keys(k).KeyLookupFailed? then whole == Failover(Failure(KeyUnavailable(c.provider)), dispatched, records)
      else
        var sent := Dispatch(c, ModelFor(model, c));
        match w.outcome(k, c)
        case Answered(response, elapsedMs) =>
          whole == Failover(Success(Answer(c, response, elapsedMs)), dispatched + [sent], records + [Succeeded(c, elapsedMs, w.at(k))])
        case Raised(message) =>
          Continues(w, order, requested, k + 1, Some(sent.model), Some(message), dispatched + [sent], records + [Failed(c, w.at(k))])
  {
    var c := order[k];
    if c.provider in w.registered && w.keys(k).KeyFound? && w.outcome(k, c).Raised? {
      var sent := Dispatch(c, ModelFor(model, c));
      var rest := FailoverFrom(w, order, k + 1, Some(sent.model), Some(w.outcome(k, c).message));
      assert dispatched + ([sent] + rest.dispatched) == dispatched + [sent] + rest.dispatched;
      assert records + ([Failed(c, w.at(k))] + rest.records) == records + [Failed(c, w.at(k))] + rest.records;
    }
  }

  class ModalityRouter {
    const capabilityMap: map<Pair, seq<Candidate>>
    const ranker: ProviderRanker?

    constructor (capabilityMap: map<Pair, seq<Candidate>>, ranker: ProviderRanker?)
      ensures this.capabilityMap == capabilityMap && this.ranker == ranker
    {
      this.capabilityMap := capabilityMap;
      this.ranker := ranker;
    }

    ghost function StatsView(): Option<Stats>
      reads if ranker == null then {} else {ranker.redis}
    {
      if ranker == null then None else Some(ranker.View())
    }

    method RouteRequest(w: World, req: RouteRequest) returns (f: Failover)
      modifies if ranker == null then {} else {ranker.redis}
      ensures f == Route(Listed(capabilityMap, req.pair), old(StatsView()), w, req)
      ensures ranker != null ==> ranker.View() == ApplyAll(old(ranker.View()), f.records)
    {
      var capable := Listed(capabilityMap, req.pair);
      if capable == [] {
        return Failover(Failure(CapabilityNotSupported), [], []);
      }
      var available := WithKeys(capable, req.userProviders);
      if available == [] {
        return Failover(Failure(ProviderKeyMissing), [], []);
      }
      available := Preferred(available, req.preferredProvider, req.preferredModel);
      if ranker != null && |available| > 1 {
        available := ranker.Rank(available, w.now);
      }
      ghost var preferred := Preferred(WithKeys(capable, req.userProviders), req.preferredProvider, req.preferredModel);
      assert available == Order(old(StatsView()), preferred, w.now);
      f := TryEach(Serving(w, req.pair), available, req.model);
    }

    method TryEach(w: World, order: seq<Candidate>, requested: Option<string>) returns (f: Failover)
      modifies if ranker == null then {} else {ranker.redis}
      ensures f == FailoverFrom(w, order, 0, requested, None)
      ensures ranker != null ==> ranker.View() == ApplyAll(old(ranker.View()), f.records)
    {
      var model, lastError: Option<string> := requested, None;
      var dispatched, records: seq<Record> := [], [];
      for k := 0 to |order|
        invariant ranker != null ==> ranker.View() == ApplyAll(old(ranker.View()), records)
        invariant Continues(w, order, requested, k, model, lastError, dispatched, records)
      {
        var c := order[k];
        ContinuesNext(w, order, requested, k, model, lastError, dispatched, records);
        if c.provider !in w.registered {
          continue;
        }
        if w.keys(k).KeyLookupFailed? {
          return Failover(Failure(KeyUnavailable(c.provider)), dispatched, records);
        }
        model := Some(ModelFor(model, c));
        dispatched := dispatched + [Dispatch(c, model.value)];
        match w.outcome(k, c) {
          case Answered(response, elapsedMs) =>
            if ranker != null {
              ranker.RecordSuccess(c, elapsedMs, w.at(k));
              ApplySnoc(old(ranker.View()), records, Succeeded(c, elapsedMs, w.at(k)));
            }
            return Failover(Success(Answer(c, response, elapsedMs)), dispatched, records + [Succeeded(c, elapsedMs, w.at(k))]);
          case Raised(message) =>
            if ranker != null {
              ranker.RecordFailure(c, w.at(k));
              ApplySnoc(old(ranker.View()), records, Failed(c, w.at(k)));
            }
            records := records + [Failed(c, w.at(k))];
            lastError := Some(message);
        }
      }
      var error := if lastError.Some? then AllProvidersFailed(lastError.value) else CapabilityNotSupported;
      return Failover(Failure(error), dispatched, records);
    }
  }

  lemma {:induction false} ApplySnoc(s: Stats, records: seq<Record>, r: Record)
    ensures ApplyAll(s, records + [r]) == Apply(ApplyAll(s, records), r)
    decreases records
  {
    if records == [] {
      assert [r][1..] == [];
    } else {
      assert (records + [r])[1..] == records[1..] + [r];
      ApplySnoc(Apply(s, records[0]), records[1..], r);
    }
  }
}

/** Who is tried, in which order, with which model, and what is recorded. */
module RouterLaw {
  import opened Wrappers
  import opened Capabilities
  import opened Ranking
  import opened Ranker
  import opened Router

  // ---- The failover loop ----

  /** The first candidate from `k` on that ends the loop: its key is unavailable, or it answers. */
  function StopAt(w: World, order: seq<Candidate>, k: nat): (n: nat)
    requires k <= |order|
    ensures k <= n <= |order|
    decreases |order| - k
  {
    if k == |order| then k
    else
      var c := order[k];
      if c.provider in w.registered && (w.keys(k).KeyLookupFailed? || w.outcome(k, c).Answered?) then k
      else StopAt(w, order, k + 1)
  }

  /** The registered candidates at positions `k` to `n - 1`. */
  function Attempted(w: World, order: seq<Candidate>, k: nat, n: nat): seq<Candidate>
    requires k <= n <= |order|
    decreases n - k
  {
    if k == n then []
    else (if order[k].provider in w.registered then [order[k]] else []) + Attempted(w, order, k + 1, n)
  }

  function Chosen(dispatched: seq<Dispatch>): seq<Candidate> {
    if dispatched == [] then [] else [dispatched[0].candidate] + Chosen(dispatched[1..])
  }

  /** A failure for each of them. */
  function FailuresOf(w: World, order: seq<Candidate>, k: nat, n: nat): seq<Record>
    requires k <= n <= |order|
    decreases n - k
  {
    if k == n then []
    else (if order[k].provider in w.registered then [Failed(order[k], w.at(k))] else []) + FailuresOf(w, order, k + 1, n)
  }

  /** The error of the last attempt among positions `k` to `n - 1`. */
  function LastError(w: World, order: seq<Candidate>, k: nat, n: nat, last: Option<string>): Option<string>
    requires k <= n <= |order|
    decreases n - k
  {
    if k == n then last
    else if order[k].provider in w.registered && w.outcome(k, order[k]).Raised? then
      LastError(w, order, k + 1, n, Some(w.outcome(k, order[k]).message))
    else LastError(w, order, k + 1, n, last)
  }

  /** Every registered candidate before the stop had a key and raised. */
  lemma {:induction false} BeforeStop(w: World, order: seq<Candidate>, k: nat, j: nat)
    requires k <= |order| && k <= j < StopAt(w, order, k)
    ensures order[j].provider in w.registered ==> w.keys(j).KeyFound? && w.outcome(j, order[j]).Raised?
    decreases |order| - k
  {
    if k < j {
      BeforeStop(w, order, k + 1, j);
    }
  }

  /** The loop from `k` on, as far as `n`: what it tried, recorded and returned. */
  ghost predicate Shape(w: World, order: seq<Candidate>, k: nat, n: nat, last: Option<string>, f: Failover)
    requires k <= n <= |order|
  {
    var failed, failures := Attempted(w, order, k, n), FailuresOf(w, order, k, n);
    if n == |order| then
      && Chosen(f.dispatched) == failed && f.records == failures
      && var error := LastError(w, order, k, n, last);
         f.result == Failure(if error.Some? then AllProvidersFailed(error.value) else CapabilityNotSupported)
    else if w.keys(n).KeyLookupFailed? then
      && Chosen(f.dispatched) == failed && f.records == failures
      && f.result == Failure(KeyUnavailable(order[n].provider))
    else
      && w.outcome(n, order[n]).Answered?
      && var answer := w.outcome(n, order[n]);
         && Chosen(f.dispatched) == failed + [order[n]]
         && f.records == failures + [Succeeded(order[n], answer.elapsedMs, w.at(n))]
         && f.result == Success(Answer(order[n], answer.response, answer.elapsedMs))
  }

  lemma ShapeSkips(w: World, order: seq<Candidate>, k: nat, n: nat, last: Option<string>, f: Failover)
    requires k < n <= |order| && order[k].provider !in w.registered && Shape(w, order, k + 1, n, last, f)
    ensures Shape(w, order, k, n, last, f)
  {
    assert Attempted(w, order, k, n) == Attempted(w, order, k + 1, n);
    assert FailuresOf(w, order, k, n) == FailuresOf(w, order, k + 1, n);
  }

  lemma ShapeFails(w: World, order: seq<Candidate>, k: nat, n: nat, last: Option<string>, sent: Dispatch, rest: Failover)
    requires k < n <= |order| && order[k].provider in w.registered && w.outcome(k, order[k]).Raised?
    requires sent.candidate == order[k] && Shape(w, order, k + 1, n, Some(w.outcome(k, order[k]).message), rest)
    ensures Shape(w, order, k, n, last, Failover(rest.result, [sent] + rest.dispatched, [Failed(order[k], w.at(k))] + rest.records))
  {
    assert ([sent] + rest.dispatched)[1..] == rest.dispatched;
    assert Attempted(w, order, k, n) == [order[k]] + Attempted(w, order, k + 1, n);
    assert FailuresOf(w, order, k, n) == [Failed(order[k], w.at(k))] + FailuresOf(w, order, k + 1, n);
  }

  lemma ShapeEnds(w: World, order: seq<Candidate>, k: nat, requested: Option<string>, last: Option<string>)
    requires k <= |order| && StopAt(w, order, k) == k
    ensures Shape(w, order, k, k, last, FailoverFrom(w, order, k, requested, last))
  {
    if k < |order| {
      var sent := Dispatch(order[k], ModelFor(requested, order[k]));
      assert Chosen([sent]) == [order[k]];
    }
  }

  /**
   The loop tries the registered candidates in order up to the first that answers, gives
   each earlier one exactly one recorded failure and the answering one a success, leaves
   later ones untouched, and ends early without a record when a key is unavailable.
   */
  lemma {:induction false} FailoverShape(w: World, order: seq<Candidate>, k: nat, requested: Option<string>, last: Option<string>)
    requires k <= |order|
    ensures Shape(w, order, k, StopAt(w, order, k), last, FailoverFrom(w, order, k, requested, last))
    decreases |order| - k
  {
    var n := StopAt(w, order, k);
    if n == k {
      ShapeEnds(w, order, k, requested, last);
    } else {
      var c := order[k];
      if c.provider !in w.registered {
        FailoverShape(w, order, k + 1, requested, last);
        ShapeSkips(w, order, k, n, last, FailoverFrom(w, order, k + 1, requested, last));
      } else {
        var sent, error := Dispatch(c, ModelFor(requested, c)), Some(w.outcome(k, c).message);
        FailoverShape(w, order, k + 1, Some(sent.model), error);
        ShapeFails(w, order, k, n, last, sent, FailoverFrom(w, order, k + 1, Some(sent.model), error));
      }
    }
  }

  lemma {:induction false} AttemptedAll(w: World, order: seq<Candidate>, k: nat, n: nat)
    requires k <= n <= |order| && forall c | c in order :: c.provider in w.registered
    ensures Attempted(w, order, k, n) == order[k..n]
    decreases n - k
  {
    if k < n {
      AttemptedAll(w, order, k + 1, n);
      assert order[k..n] == [order[k]] + order[k + 1..n];
    }
  }

  /** With every candidate registered, those tried are a prefix of the ordered list. */
  lemma TriedIsPrefix(w: World, order: seq<Candidate>, requested: Option<string>)
    requires forall c | c in order :: c.provider in w.registered
    ensures Chosen(FailoverFrom(w, order, 0, requested, None).dispatched) <= order
  {
    var n := StopAt(w, order, 0);
    FailoverShape(w, order, 0, requested, None);
    AttemptedAll(w, order, 0, n);
    if n < |order| {
      assert order[0..n] + [order[n]] == order[..n + 1];
    }
  }

  // ---- The model that is sent ----

  predicate AllSend(sent: seq<Dispatch>, model: string) {
    forall i | 0 <= i < |sent| :: sent[i].model == model
  }

  lemma AllSendCons(d: Dispatch, rest: seq<Dispatch>, model: string)
    requires d.model == model && AllSend(rest, model)
    ensures AllSend([d] + rest, model)
  {
  }

  /**
   A request that names a model sends it to every candidate.  One that names none sends
   the first attempted candidate's model to all later ones, whatever they advertise.
   */
  lemma {:induction false} OneModelForAll(w: World, order: seq<Candidate>, k: nat, requested: Option<string>, last: Option<string>)
    requires k <= |order| && forall c | c in order :: c.model != ""
    ensures
      var sent := FailoverFrom(w, order, k, requested, last).dispatched;
      sent != [] ==> AllSend(sent, ModelFor(requested, sent[0].candidate))
    decreases |order| - k
  {
    if k < |order| {
      var c := order[k];
      assert c in order && c.model != "";
      if c.provider !in w.registered {
        OneModelForAll(w, order, k + 1, requested, last);
      } else if w.keys(k).KeyFound? && w.outcome(k, c).Raised? {
        var model := ModelFor(requested, c);
        var message := Some(w.outcome(k, c).message);
        OneModelForAll(w, order, k + 1, Some(model), message);
        AllSendCons(Dispatch(c, model), FailoverFrom(w, order, k + 1, Some(model), message).dispatched, model);
      }
    }
  }

  /** The model every dispatch will carry: the one requested, or that of the first registered candidate. */
  function ModelSent(registered: set<string>, order: seq<Candidate>, requested: Option<string>): Option<string>
    decreases order
  {
    if Wanted(requested).Some? then Wanted(requested)
    else if order == [] then None
    else if order[0].provider in registered then Some(order[0].model)
    else ModelSent(registered, order[1..], requested)
  }

  predicate OwnModels(sent: seq<Dispatch>) {
    forall i | 0 <= i < |sent| :: sent[i].model == sent[i].candidate.model
  }

  predicate AllOffer(registered: set<string>, order: seq<Candidate>, model: Option<string>) {
    forall c | c in order && c.provider in registered :: model == Some(c.model)
  }

  lemma {:induction false} SentModel(w: World, order: seq<Candidate>, k: nat, requested: Option<string>, last: Option<string>)
    requires k <= |order| && forall c | c in order :: c.model != ""
    ensures
      var sent := FailoverFrom(w, order, k, requested, last).dispatched;
      && (forall i | 0 <= i < |sent| ::
            sent[i].candidate in order[k..] && sent[i].candidate.provider in w.registered)
      && (sent != [] ==> Some(ModelFor(requested, sent[0].candidate)) == ModelSent(w.registered, order[k..], requested))
    decreases |order| - k
  {
    if k < |order| {
      var c := order[k];
      var rest := order[k + 1..];
      assert order[k..] == [c] + rest && order[k..][1..] == rest;
      if c.provider !in w.registered {
        SentModel(w, order, k + 1, requested, last);
      } else if w.keys(k).KeyFound? && w.outcome(k, c).Raised? {
        SentModel(w, order, k + 1, Some(ModelFor(requested, c)), Some(w.outcome(k, c).message));
      }
    }
  }

  /** A world in which every call fails, so that every registered candidate is tried. */
  function AllFail(registered: set<string>): World {
    World(registered, _ => {}, 0.0, _ => KeyFound(""), (_, _) => Raised(""), _ => 0.0)
  }

  lemma {:induction false} AllAreTried(registered: set<string>, order: seq<Candidate>, k: nat,
                                         requested: Option<string>, last: Option<string>, c: Candidate)
    requires k <= |order| && c in order[k..] && c.provider in registered
    ensures
      var sent := FailoverFrom(AllFail(registered), order, k, requested, last).dispatched;
      exists i :: 0 <= i < |sent| && sent[i].candidate == c
    decreases |order| - k
  {
    var w := AllFail(registered);
    assert order[k..] == [order[k]] + order[k + 1..];
    if order[k].provider !in registered {
      AllAreTried(registered, order, k + 1, requested, last, c);
      assert FailoverFrom(w, order, k, requested, last) == FailoverFrom(w, order, k + 1, requested, last);
    } else {
      var sent := Dispatch(order[k], ModelFor(requested, order[k]));
      var rest := FailoverFrom(w, order, k + 1, Some(sent.model), Some("")).dispatched;
      assert FailoverFrom(w, order, k, requested, last).dispatched == [sent] + rest;
      if order[k] == c {
        assert ([sent] + rest)[0].candidate == c;
      } else {
        AllAreTried(registered, order, k + 1, Some(sent.model), Some(""), c);
        var i :| 0 <= i < |rest| && rest[i].candidate == c;
        assert ([sent] + rest)[i + 1].candidate == c;
      }
    }
  }

  /** However the calls turn out, no provider is sent another's model. */
  ghost predicate AlwaysOwnModels(registered: set<string>, order: seq<Candidate>, requested: Option<string>) {
    forall w: World | w.registered == registered :: OwnModels(FailoverFrom(w, order, 0, requested, None).dispatched)
  }

  /**
   Failover sends every provider its own candidate's model, however the calls turn out, if
   and only if every registered candidate in the list has the requested model, or else
   that of the first registered one.
   */
  lemma FallbackModelMatchesIff(registered: set<string>, order: seq<Candidate>, requested: Option<string>)
    requires forall c | c in order :: c.model != ""
    ensures AlwaysOwnModels(registered, order, requested)
       <==> AllOffer(registered, order, ModelSent(registered, order, requested))
  {
    var model := ModelSent(registered, order, requested);
    assert order[0..] == order;
    if AllOffer(registered, order, model) {
      forall w: World | w.registered == registered
        ensures OwnModels(FailoverFrom(w, order, 0, requested, None).dispatched)
      {
        SentModel(w, order, 0, requested, None);
        OneModelForAll(w, order, 0, requested, None);
      }
    }
    if AlwaysOwnModels(registered, order, requested) {
      var w := AllFail(registered);
      var sent := FailoverFrom(w, order, 0, requested, None).dispatched;
      assert OwnModels(sent);
      SentModel(w, order, 0, requested, None);
      OneModelForAll(w, order, 0, requested, None);
      forall c | c in order && c.provider in registered ensures model == Some(c.model) {
        AllAreTried(registered, order, 0, requested, None, c);
        var i :| 0 <= i < |sent| && sent[i].candidate == c;
      }
    }
  }

  // ---- Who may be tried ----

  lemma {:induction false} FilterIff(candidates: seq<Candidate>, keep: Candidate -> bool, c: Candidate)
    ensures c in Filter(candidates, keep) <==> c in candidates && keep(c)
    decreases candidates
  {
    if candidates != [] {
      FilterIff(candidates[1..], keep, c);
      assert candidates == [candidates[0]] + candidates[1..];
    }
  }

  lemma WithKeysIff(candidates: seq<Candidate>, users: set<string>, c: Candidate)
    ensures c in WithKeys(candidates, users) <==> c in candidates && c.provider in users
  {
    FilterIff(candidates, (d: Candidate) => d.provider in users, c);
  }

  lemma OfProviderIff(candidates: seq<Candidate>, provider: string, c: Candidate)
    ensures c in OfProvider(candidates, provider) <==> c in candidates && c.provider == provider
  {
    FilterIff(candidates, (d: Candidate) => d.provider == provider, c);
  }

  lemma OfModelIff(candidates: seq<Candidate>, model: string, c: Candidate)
    ensures c in OfModel(candidates, model) <==> c in candidates && c.model == model
  {
    FilterIff(candidates, (d: Candidate) => d.model == model, c);
  }

  /** Advertised for the pair by some provider, for which the user has a key. */
  ghost predicate Eligible(providers: seq<Provider>, req: RouteRequest, c: Candidate) {
    && (exists k :: 0 <= k < |providers| && providers[k].name == c.provider && Advertises(providers[k], req.pair, c.model))
    && c.provider in req.userProviders
  }

  /** Of the wanted provider, unless no eligible candidate is. */
  ghost predicate ProviderMatches(providers: seq<Provider>, req: RouteRequest, c: Candidate) {
    var wanted := Wanted(req.preferredProvider);
    wanted.Some? && (exists d :: Eligible(providers, req, d) && d.provider == wanted.value) ==> c.provider == wanted.value
  }

  /** Of the wanted model, unless no eligible candidate that matches the provider is. */
  ghost predicate ModelMatches(providers: seq<Provider>, req: RouteRequest, c: Candidate) {
    var wanted := Wanted(req.preferredModel);
    wanted.Some? && (exists d :: Eligible(providers, req, d) && ProviderMatches(providers, req, d) && d.model == wanted.value) ==>
      c.model == wanted.value
  }

  lemma AvailableIff(providers: seq<Provider>, req: RouteRequest, c: Candidate)
    ensures c in WithKeys(Advertised(providers, req.pair), req.userProviders) <==> Eligible(providers, req, c)
  {
    WithKeysIff(Advertised(providers, req.pair), req.userProviders, c);
    AdvertisedIff(providers, req.pair, c);
  }

  function ByProvider(available: seq<Candidate>, req: RouteRequest): seq<Candidate> {
    var p := Wanted(req.preferredProvider);
    if p.Some? && OfProvider(available, p.value) != [] then OfProvider(available, p.value) else available
  }

  lemma ByProviderIff(providers: seq<Provider>, req: RouteRequest, c: Candidate)
    ensures
      c in ByProvider(WithKeys(Advertised(providers, req.pair), req.userProviders), req)
      <==> Eligible(providers, req, c) && ProviderMatches(providers, req, c)
  {
    var available := WithKeys(Advertised(providers, req.pair), req.userProviders);
    var wanted := Wanted(req.preferredProvider);
    AvailableIff(providers, req, c);
    if wanted.Some? {
      OfProviderIff(available, wanted.value, c);
      if OfProvider(available, wanted.value) != [] {
        var d := OfProvider(available, wanted.value)[0];
        OfProviderIff(available, wanted.value, d);
        AvailableIff(providers, req, d);
        assert Eligible(providers, req, d) && d.provider == wanted.value;
      } else if exists d :: Eligible(providers, req, d) && d.provider == wanted.value {
        var d :| Eligible(providers, req, d) && d.provider == wanted.value;
        AvailableIff(providers, req, d);
        OfProviderIff(available, wanted.value, d);
        assert false;
      }
    }
  }

  lemma PreferredIff(providers: seq<Provider>, req: RouteRequest, c: Candidate)
    ensures
      var available := WithKeys(Advertised(providers, req.pair), req.userProviders);
      c in Preferred(available, req.preferredProvider, req.preferredModel)
      <==> Eligible(providers, req, c) && ProviderMatches(providers, req, c) && ModelMatches(providers, req, c)
  {
    var narrowed := ByProvider(WithKeys(Advertised(providers, req.pair), req.userProviders), req);
    var wanted := Wanted(req.preferredModel);
    ByProviderIff(providers, req, c);
    if wanted.Some? {
      OfModelIff(narrowed, wanted.value, c);
      if OfModel(narrowed, wanted.value) != [] {
        var d := OfModel(narrowed, wanted.value)[0];
        OfModelIff(narrowed, wanted.value, d);
        ByProviderIff(providers, req, d);
        assert Eligible(providers, req, d) && ProviderMatches(providers, req, d) && d.model == wanted.value;
      } else if exists d :: Eligible(providers, req, d) && ProviderMatches(providers, req, d) && d.model == wanted.value {
        var d :| Eligible(providers, req, d) && ProviderMatches(providers, req, d) && d.model == wanted.value;
        ByProviderIff(providers, req, d);
        OfModelIff(narrowed, wanted.value, d);
        assert false;
      }
    }
  }

  function OrderOf(providers: seq<Provider>, stats: Option<Stats>, w: World, req: RouteRequest): seq<Candidate> {
    Order(stats, Preferred(WithKeys(Advertised(providers, req.pair), req.userProviders), req.preferredProvider, req.preferredModel), w.now)
  }

  /**
   The failover list holds exactly the candidates that are advertised for the pair, have
   a key, and match each preference that some such candidate can meet.
   */
  lemma OrderHoldsExactly(providers: seq<Provider>, stats: Option<Stats>, w: World, req: RouteRequest, c: Candidate)
    ensures c in OrderOf(providers, stats, w, req)
      <==> Eligible(providers, req, c) && ProviderMatches(providers, req, c) && ModelMatches(providers, req, c)
  {
    PreferredIff(providers, req, c);
    if stats.Some? {
      var available := Preferred(WithKeys(Advertised(providers, req.pair), req.userProviders), req.preferredProvider, req.preferredModel);
      RankedMembers(stats.value, available, w.now, c);
    }
  }

  // ---- Order ----

  lemma Associates(x: seq<Candidate>, y: seq<Candidate>, z: seq<Candidate>)
    ensures (x + y) + z == x + (y + z)
  {
  }

  lemma NothingJoins(x: seq<Candidate>, y: seq<Candidate>)
    requires |x| == 0
    ensures x + y == y
  {
  }

  /** Filtering takes out candidates and keeps the order of the rest. */
  lemma {:induction false} FilterJoins(a: seq<Candidate>, b: seq<Candidate>, keep: Candidate -> bool)
    ensures Filter(a + b, keep) == Filter(a, keep) + Filter(b, keep)
    decreases |a|
  {
    if |a| == 0 {
      assert a + b == b;
      NothingJoins(Filter(a, keep), Filter(b, keep));
    } else {
      var head, rest := Filter([a[0]], keep), a[1..];
      FilterJoins(rest, b, keep);
      assert (a + b)[0] == a[0] && (a + b)[1..] == rest + b;
      Associates(head, Filter(rest, keep), Filter(b, keep));
      assert [a[0]][1..] == [];
    }
  }

  /** The candidates that are left to rank: advertised, keyed, preferred. */
  function Shortlist(providers: seq<Provider>, req: RouteRequest): seq<Candidate> {
    Preferred(WithKeys(Advertised(providers, req.pair), req.userProviders), req.preferredProvider, req.preferredModel)
  }

  /** Those with one score. */
  function ScoringAt(candidates: seq<Candidate>, s: Stats, now: real, score: real): seq<Candidate> {
    Filter(candidates, (c: Candidate) => Score(s, c, now) == score)
  }

  predicate Faithful(scored: seq<Scored>, s: Stats, now: real) {
    forall k | 0 <= k < |scored| :: scored[k].score == Score(s, scored[k].candidate, now)
  }

  lemma {:induction false} ScoringJoins(scored: seq<Scored>, s: Stats, now: real, score: real)
    requires Faithful(scored, s, now)
    ensures CandidatesOf(WithScore(scored, score)) == ScoringAt(CandidatesOf(scored), s, now, score)
    decreases |scored|
  {
    if |scored| > 0 {
      var x, rest := scored[0], scored[1..];
      assert forall k | 0 <= k < |rest| :: rest[k] == scored[k + 1];
      ScoringJoins(rest, s, now, score);
      CandidatesCons(x, rest);
      CandidatesCons(x, WithScore(rest, score));
      assert scored == [x] + rest;
      WithScoreCons(x, rest, score);
      assert [] + WithScore(rest, score) == WithScore(rest, score);
      FilterCons(x.candidate, CandidatesOf(rest), (c: Candidate) => Score(s, c, now) == score);
    }
  }

  lemma CandidatesCons(x: Scored, rest: seq<Scored>)
    ensures CandidatesOf([x] + rest) == [x.candidate] + CandidatesOf(rest)
  {
    assert ([x] + rest)[1..] == rest;
  }

  lemma FilterCons(c: Candidate, rest: seq<Candidate>, keep: Candidate -> bool)
    ensures Filter([c] + rest, keep) == if keep(c) then [c] + Filter(rest, keep) else Filter(rest, keep)
  {
    assert ([c] + rest)[1..] == rest && [] + Filter(rest, keep) == Filter(rest, keep);
  }

  lemma {:induction false} CandidateAt(scored: seq<Scored>, k: nat)
    requires k < |scored|
    ensures CandidatesOf(scored)[k] == scored[k].candidate
    decreases k
  {
    assert scored == [scored[0]] + scored[1..];
    CandidatesCons(scored[0], scored[1..]);
    if k > 0 {
      CandidateAt(scored[1..], k - 1);
    }
  }

  lemma {:induction false} ScoredCandidates(s: Stats, candidates: seq<Candidate>, now: real)
    ensures CandidatesOf(ScoreAll(s, candidates, now)) == candidates && Faithful(ScoreAll(s, candidates, now), s, now)
    decreases |candidates|
  {
    if |candidates| > 0 {
      ScoredCandidates(s, candidates[1..], now);
      var scored := ScoreAll(s, candidates, now);
      assert scored[1..] == ScoreAll(s, candidates[1..], now);
      assert scored == [scored[0]] + scored[1..];
      CandidatesCons(scored[0], scored[1..]);
      assert forall k | 0 < k < |scored| :: scored[k] == scored[1..][k - 1];
    }
  }

  /** The scores do not fall along the list. */
  predicate Rising(order: seq<Candidate>, s: Stats, now: real) {
    forall i, j | 0 <= i < j < |order| :: Score(s, order[i], now) <= Score(s, order[j], now)
  }

  lemma RankedRises(s: Stats, candidates: seq<Candidate>, now: real)
    ensures Rising(Ranked(s, candidates, now), s, now)
    ensures forall score :: ScoringAt(Ranked(s, candidates, now), s, now, score) == ScoringAt(candidates, s, now, score)
  {
    var sorted := RankedIsStable(s, candidates, now);
    var scored := ScoreAll(s, candidates, now);
    ScoredCandidates(s, candidates, now);
    forall i | 0 <= i < |sorted| ensures CandidatesOf(sorted)[i] == sorted[i].candidate {
      CandidateAt(sorted, i);
    }
    forall score ensures ScoringAt(Ranked(s, candidates, now), s, now, score) == ScoringAt(candidates, s, now, score) {
      assert WithScore(sorted, score) == WithScore(scored, score);
      ScoringJoins(sorted, s, now, score);
      ScoringJoins(scored, s, now, score);
    }
  }

  /**
   With a ranker the failover list is the shortlist in order of score, best first, and those
   of equal score in their advertised order; without one it is the shortlist as it is.
   */
  lemma OrderIsByScore(providers: seq<Provider>, stats: Option<Stats>, w: World, req: RouteRequest)
    ensures
      var order, shortlist := OrderOf(providers, stats, w, req), Shortlist(providers, req);
      match stats
      case None => order == shortlist
      case Some(s) =>
        && Rising(order, s, w.now)
        && (forall score :: ScoringAt(order, s, w.now, score) == ScoringAt(shortlist, s, w.now, score))
        && multiset(order) == multiset(shortlist)
  {
    var order, shortlist := OrderOf(providers, stats, w, req), Shortlist(providers, req);
    if stats.Some? {
      if |shortlist| > 1 {
        RankedRises(stats.value, shortlist, w.now);
      }
      forall c: Candidate ensures multiset(order)[c] == multiset(shortlist)[c] {
        var score := Score(stats.value, c, w.now);
        CountScoring(order, stats.value, w.now, c);
        CountScoring(shortlist, stats.value, w.now, c);
        assert ScoringAt(order, stats.value, w.now, score) == ScoringAt(shortlist, stats.value, w.now, score);
      }
    }
  }

  /** A candidate is as often among those with its score as in the whole list. */
  lemma {:induction false} CountScoring(candidates: seq<Candidate>, s: Stats, now: real, c: Candidate)
    ensures multiset(ScoringAt(candidates, s, now, Score(s, c, now)))[c] == multiset(candidates)[c]
    decreases |candidates|
  {
    if |candidates| > 0 {
      var first, rest := candidates[0], candidates[1..];
      CountScoring(rest, s, now, c);
      assert candidates == [first] + rest;
      FilterCons(first, rest, (d: Candidate) => Score(s, d, now) == Score(s, c, now));
    }
  }

  // ---- Refusals ----

  lemma {:induction false} NoErrorIff(w: World, order: seq<Candidate>, k: nat, last: Option<string>)
    requires k <= |order| && StopAt(w, order, k) == |order|
    ensures LastError(w, order, k, |order|, last).None? <==>
              last.None? && forall j | k <= j < |order| :: order[j].provider !in w.registered
    decreases |order| - k
  {
    if k < |order| {
      var raised := order[k].provider in w.registered;
      NoErrorIff(w, order, k + 1, if raised then Some(w.outcome(k, order[k]).message) else last);
    }
  }

  /**
   A request is refused for want of a key exactly when something is advertised and nothing
   of it keyed, and for want of capability exactly when nothing is advertised, or none of
   the providers in a list that is not empty is registered.
   */
  lemma RouteRefusesIff(providers: seq<Provider>, stats: Option<Stats>, w: World, req: RouteRequest)
    ensures
      var capable := Advertised(providers, req.pair);
      var result := Route(capable, stats, w, req).result;
      && (result == Failure(ProviderKeyMissing) <==> capable != [] && forall c :: !Eligible(providers, req, c))
      && (result == Failure(CapabilityNotSupported) <==>
            || capable == []
            || ((exists c :: Eligible(providers, req, c))
                && forall c <- OrderOf(providers, stats, w, req) :: c.provider !in w.registered))
  {
    var capable := Advertised(providers, req.pair);
    var available := WithKeys(capable, req.userProviders);
    if available != [] {
      AvailableIff(providers, req, available[0]);
      var order, sw := OrderOf(providers, stats, w, req), Serving(w, req.pair);
      FailoverShape(sw, order, 0, req.model, None);
      if StopAt(sw, order, 0) == |order| {
        NoErrorIff(sw, order, 0, None);
      } else {
        assert order[StopAt(sw, order, 0)].provider in w.registered by {
          StopRegistered(sw, order, 0);
        }
      }
    } else {
      forall c ensures !Eligible(providers, req, c) {
        AvailableIff(providers, req, c);
      }
    }
  }

  lemma {:induction false} StopRegistered(w: World, order: seq<Candidate>, k: nat)
    requires k <= |order| && StopAt(w, order, k) < |order|
    ensures order[StopAt(w, order, k)].provider in w.registered
    decreases |order| - k
  {
    var c := order[k];
    if !(c.provider in w.registered && (w.keys(k).KeyLookupFailed? || w.outcome(k, c).Answered?)) {
      StopRegistered(w, order, k + 1);
    }
  }

  // ---- Answers ----

  /** The candidate at `n` is asked and answers, its provider implementing what the conversion needs. */
  predicate AnswersAt(w: World, pair: Pair, order: seq<Candidate>, n: nat)
    requires n < |order|
  {
    && order[n].provider in w.registered && w.keys(n).KeyFound?
    && Needed(pair).Some? && Needed(pair).value in w.interfaces(order[n].provider) && w.outcome(n, order[n]).Answered?
  }

  /** It is passed over, or asked and raises. */
  predicate PassedAt(w: World, pair: Pair, order: seq<Candidate>, n: nat)
    requires n < |order|
  {
    order[n].provider in w.registered ==> w.keys(n).KeyFound? && DispatchTo(w, pair, n, order[n]).Raised?
  }

  lemma {:induction false} StopsAtFirst(w: World, pair: Pair, order: seq<Candidate>, k: nat, n: nat)
    requires k <= n < |order| && AnswersAt(w, pair, order, n) && forall j | k <= j < n :: PassedAt(w, pair, order, j)
    ensures StopAt(Serving(w, pair), order, k) == n
    decreases n - k
  {
    if k < n {
      assert PassedAt(w, pair, order, k);
      StopsAtFirst(w, pair, order, k + 1, n);
    }
  }

  lemma PassedBeforeStop(w: World, pair: Pair, order: seq<Candidate>, j: nat)
    requires j < StopAt(Serving(w, pair), order, 0)
    ensures PassedAt(w, pair, order, j)
  {
    BeforeStop(Serving(w, pair), order, 0, j);
  }

  /** Candidate `n` is the first that is not passed over, and answers so. */
  ghost predicate FirstToAnswer(w: World, pair: Pair, order: seq<Candidate>, n: int, answer: Answer) {
    && 0 <= n < |order| && AnswersAt(w, pair, order, n) && (forall j | 0 <= j < n :: PassedAt(w, pair, order, j))
    && answer == Answer(order[n], w.outcome(n, order[n]).response, w.outcome(n, order[n]).elapsedMs)
  }

  lemma LoopAnswersIff(w: World, pair: Pair, order: seq<Candidate>, requested: Option<string>, answer: Answer)
    ensures FailoverFrom(Serving(w, pair), order, 0, requested, None).result == Success(answer)
       <==> exists n :: FirstToAnswer(w, pair, order, n, answer)
  {
    var sw := Serving(w, pair);
    var n := StopAt(sw, order, 0);
    FailoverShape(sw, order, 0, requested, None);
    if FailoverFrom(sw, order, 0, requested, None).result == Success(answer) {
      StopRegistered(sw, order, 0);
      forall j | 0 <= j < n ensures PassedAt(w, pair, order, j) {
        PassedBeforeStop(w, pair, order, j);
      }
      assert FirstToAnswer(w, pair, order, n, answer);
    }
    forall m | FirstToAnswer(w, pair, order, m, answer) ensures m == n {
      StopsAtFirst(w, pair, order, 0, m);
    }
  }

  /**
   A request is answered by candidate `n` of the failover list if and only if it can serve
   the conversion and answers, and every registered one before it had a key and raised.
   A conversion that is none of the eight is never answered.
   */
  lemma RouteAnswersIff(providers: seq<Provider>, stats: Option<Stats>, w: World, req: RouteRequest, answer: Answer)
    ensures Route(Advertised(providers, req.pair), stats, w, req).result == Success(answer)
       <==> exists n :: FirstToAnswer(w, req.pair, OrderOf(providers, stats, w, req), n, answer)
  {
    OrderEmptyIff(providers, stats, w, req);
    LoopAnswersIff(w, req.pair, OrderOf(providers, stats, w, req), req.model, answer);
  }

  /** With a ranker, the candidate that answers scores no worse than any other that was not passed over before it. */
  lemma AnswererScoresBest(providers: seq<Provider>, s: Stats, w: World, req: RouteRequest, answer: Answer) returns (n: nat)
    requires Route(Advertised(providers, req.pair), Some(s), w, req).result == Success(answer)
    ensures
      var order := OrderOf(providers, Some(s), w, req);
      && FirstToAnswer(w, req.pair, order, n, answer)
      && forall m | n <= m < |order| :: Score(s, answer.candidate, w.now) <= Score(s, order[m], w.now)
  {
    var order := OrderOf(providers, Some(s), w, req);
    RouteAnswersIff(providers, Some(s), w, req, answer);
    OrderIsByScore(providers, Some(s), w, req);
    n :| FirstToAnswer(w, req.pair, order, n, answer);
  }

  lemma OrderEmptyIff(providers: seq<Provider>, stats: Option<Stats>, w: World, req: RouteRequest)
    ensures OrderOf(providers, stats, w, req) == [] <==> WithKeys(Advertised(providers, req.pair), req.userProviders) == []
    ensures OrderOf(providers, stats, w, req) == [] ==> Route(Advertised(providers, req.pair), stats, w, req).result.Failure?
  {
    var order := OrderOf(providers, stats, w, req);
    var available := WithKeys(Advertised(providers, req.pair), req.userProviders);
    var preferred := Preferred(available, req.preferredProvider, req.preferredModel);
    if available == [] {
      if order != [] {
        OrderHoldsExactly(providers, stats, w, req, order[0]);
        AvailableIff(providers, req, order[0]);
      }
    } else {
      assert preferred != [];
      if stats.Some? && |preferred| > 1 {
        RankedMembers(stats.value, preferred, w.now, preferred[0]);
      }
    }
  }

  /** The conversions that each interface serves, eight in all. */
  function Conversions(i: Interface): set<Pair> {
    match i
    case ChatCapable => {Pair(TEXT, TEXT)}
    case EmbedCapable => {Pair(TEXT, VECTOR)}
    case ImageGenCapable => {Pair(TEXT, IMAGE)}
    case SttCapable => {Pair(AUDIO, TEXT)}
    case TtsCapable => {Pair(TEXT, AUDIO)}
    case VideoGenCapable => {Pair(TEXT, VIDEO), Pair(IMAGE, VIDEO)}
    case VisionCapable => {Pair(IMAGE, TEXT)}
  }

  lemma NeededIff(pair: Pair, i: Interface)
    ensures Needed(pair) == Some(i) <==> pair in Conversions(i)
  {
  }

  /** Whoever answers implements the interface that serves the conversion, so one that none serves is never answered. */
  lemma AnswererImplements(providers: seq<Provider>, stats: Option<Stats>, w: World, req: RouteRequest, answer: Answer)
      returns (i: Interface)
    requires Route(Advertised(providers, req.pair), stats, w, req).result == Success(answer)
    ensures req.pair in Conversions(i) && i in w.interfaces(answer.candidate.provider)
  {
    RouteAnswersIff(providers, stats, w, req, answer);
    var n :| FirstToAnswer(w, req.pair, OrderOf(providers, stats, w, req), n, answer);
    i := Needed(req.pair).value;
    NeededIff(req.pair, i);
  }

  /** An adapter that does not implement what the conversion needs counts as one that raised, without being called. */
  lemma DispatchedIff(w: World, pair: Pair, k: nat, c: Candidate)
    ensures
      DispatchTo(w, pair, k, c) ==
        if exists i :: pair in Conversions(i) && i in w.interfaces(c.provider) then w.outcome(k, c)
        else Raised(NotSupported(pair))
  {
    forall i ensures Needed(pair) == Some(i) <==> pair in Conversions(i) {
      NeededIff(pair, i);
    }
  }

  // ---- What the request names ----

  /** A model the request names is sent with every dispatch. */
  lemma {:induction false} NamedModelIsSent(w: World, order: seq<Candidate>, k: nat, model: string, last: Option<string>)
    requires k <= |order| && model != ""
    ensures AllSend(FailoverFrom(w, order, k, Some(model), last).dispatched, model)
    decreases |order| - k
  {
    if k < |order| {
      var c := order[k];
      if c.provider !in w.registered {
        NamedModelIsSent(w, order, k + 1, model, last);
      } else if w.keys(k).KeyFound? && w.outcome(k, c).Raised? {
        var message := Some(w.outcome(k, c).message);
        NamedModelIsSent(w, order, k + 1, model, message);
        AllSendCons(Dispatch(c, model), FailoverFrom(w, order, k + 1, Some(model), message).dispatched, model);
      }
    }
  }

  lemma {:induction false} NoModelNamed(w: World, order: seq<Candidate>, k: nat, last: Option<string>)
    requires k <= |order|
    ensures FailoverFrom(w, order, k, Some(""), last) == FailoverFrom(w, order, k, None, last)
    decreases |order| - k
  {
    if k < |order| && order[k].provider !in w.registered {
      NoModelNamed(w, order, k + 1, last);
    }
  }

  /** An empty name, of a preferred provider or model or of the model to send, is as good as none. */
  lemma EmptyNamesNone(capable: seq<Candidate>, stats: Option<Stats>, w: World, req: RouteRequest)
    ensures Route(capable, stats, w, req.(preferredProvider := Some(""))) == Route(capable, stats, w, req.(preferredProvider := None))
    ensures Route(capable, stats, w, req.(preferredModel := Some(""))) == Route(capable, stats, w, req.(preferredModel := None))
    ensures Route(capable, stats, w, req.(model := Some(""))) == Route(capable, stats, w, req.(model := None))
  {
    var order := Order(stats, Preferred(WithKeys(capable, req.userProviders), req.preferredProvider, req.preferredModel), w.now);
    NoModelNamed(Serving(w, req.pair), order, 0, None);
  }
}

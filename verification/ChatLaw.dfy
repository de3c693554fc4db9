/** What holds in every state that interleaved chat requests reach. */
module ChatLaw {
  import opened Wrappers
  import opened Redis
  import opened Usage
  import opened Capabilities
  import opened Ranker
  import opened RouterLaw
  import Router
  import opened Chat

  // ---- Reading the notes back ----

  function Count(notes: seq<Note>): nat {
    if notes == [] then 0
    else Count(notes[..|notes| - 1]) + if notes[|notes| - 1].Committed? then 1 else 0
  }

  /** The rows of the committed chats, in the order of their commits. */
  function CommittedRows(notes: seq<Note>): Tables {
    if notes == [] then NO_ROWS
    else
      var before, last := CommittedRows(notes[..|notes| - 1]), notes[|notes| - 1];
      if last.Committed? then before.Plus(RowsOf(last.req, last.answer)) else before
  }

  predicate KeptUnder(n: Note, key: CacheKey) {
    n.Kept? && AnsweredKey(n.req, n.answer.reply) == key
  }

  /** The cell that the last answer kept under a key left there. */
  function LastKept(notes: seq<Note>, key: CacheKey): Cell<Cached> {
    if notes == [] then Gone
    else
      var last := notes[|notes| - 1];
      if KeptUnder(last, key) then Held(CachedOf(last.req, last.answer), At(last.at + CACHE_TTL))
      else LastKept(notes[..|notes| - 1], key)
  }

  // ---- The invariant ----

  ghost predicate CacheIsLast(cache: Cache, notes: seq<Note>) {
    forall key :: CacheCell(cache, key) == LastKept(notes, key)
  }

  /** A hit serves what was last kept under its key, while that is live. */
  predicate ServedLast(notes: seq<Note>, i: nat)
    requires i < |notes|
  {
    notes[i].Served? ==>
      && IsCacheable(notes[i].req)
      && LastKept(notes[..i], AskedKey(notes[i].req)).Get(notes[i].at) == Some(notes[i].cached)
  }

  predicate KeptMay(n: Note) {
    n.Kept? ==> Keeps(n.req, n.answer.reply) && Presentable(n.answer.reply)
  }

  /** The rows a chat's transaction holds after each of its steps. */
  function RowsSoFar(f: Flight): Tables {
    match f.stage
    case Missed => NO_ROWS
    case Begun(n) => ConversationRows(f.req, n)
    case Opened(n) => ConversationRows(f.req, n).Plus(ClientRows(f.req, n))
    case Replied(a) => ConversationRows(f.req, a.newConversation).Plus(ClientRows(f.req, a.newConversation))
    case UsageStored(a) =>
      ConversationRows(f.req, a.newConversation).Plus(ClientRows(f.req, a.newConversation)).Plus(UsageRows(f.req, a))
    case ReplyStored(a) => RowsOf(f.req, a)
    case AnswerKept(a) => RowsOf(f.req, a)
  }

  /** Its rows are those of its steps, and its answer is kept only if it may be. */
  predicate InStep(f: Flight) {
    f.pending == RowsSoFar(f)
  }

  ghost predicate Inv(s: State) {
    && s.tables == CommittedRows(s.notes)
    && (forall id | id in s.flights :: InStep(s.flights[id]))
    && CacheIsLast(s.cache, s.notes)
    && (forall i | 0 <= i < |s.notes| :: ServedLast(s.notes, i))
    && (forall i | 0 <= i < |s.notes| :: KeptMay(s.notes[i]))
  }

  /** The notes grow by one that fits, and the tables and the cache follow. */
  lemma NoteKeeps(s: State, n: Note, t: State)
    requires Inv(s) && t.notes == s.notes + [n]
    requires t.tables == if n.Committed? then s.tables.Plus(RowsOf(n.req, n.answer)) else s.tables
    requires t.cache == if n.Kept? then Stored(s.cache, n.req, n.answer, n.at) else s.cache
    requires KeptMay(n) && (n.Served? ==> Hit(s.cache, n.req, n.at) == Some(n.cached))
    requires forall id | id in t.flights :: InStep(t.flights[id])
    ensures Inv(t)
  {
    assert t.notes[..|s.notes|] == s.notes;
    forall key ensures CacheCell(t.cache, key) == LastKept(t.notes, key) {
      assert CacheCell(s.cache, key) == LastKept(s.notes, key);
    }
    forall i | 0 <= i < |t.notes| ensures ServedLast(t.notes, i) {
      if i < |s.notes| {
        assert ServedLast(s.notes, i);
        assert t.notes[..i] == s.notes[..i];
      } else if n.Served? {
        assert CacheCell(s.cache, AskedKey(n.req)) == LastKept(s.notes, AskedKey(n.req));
      }
    }
  }

  /** The last two writes complete the rows of the chat. */
  lemma LastRows(f: Flight)
    requires InStep(f) && f.stage.UsageStored?
    ensures InStep(Advance(f, StoreReply(0)))
  {
    var a := f.stage.answer;
    var before := ConversationRows(f.req, a.newConversation).Plus(ClientRows(f.req, a.newConversation));
    OpeningParts(f.req, a.newConversation);
    RowsComplete(before, f.req, a);
  }

  lemma FirstRows(f: Flight, newConversation: string)
    requires InStep(f) && f.stage.Missed?
    ensures InStep(Advance(f, Begin(0, newConversation)))
  {
    PlusNothing(ConversationRows(f.req, newConversation));
  }

  lemma AdvanceInStep(f: Flight, a: Action)
    requires InStep(f)
    ensures InStep(Advance(f, a))
  {
    if f.stage.Missed? && a.Begin? {
      FirstRows(f, a.newConversation);
    } else if f.stage.UsageStored? && a.StoreReply? {
      LastRows(f);
    }
  }

  lemma FlightsInStep(s: State, a: Action)
    requires Inv(s)
    ensures forall id | id in Step(s, a).flights :: InStep(Step(s, a).flights[id])
  {
    if !a.Ask? && a.id in s.flights {
      AdvanceInStep(s.flights[a.id], a);
    }
  }

  /** What a step notes, and what it does to the tables and the cache. */
  lemma StepNotes(s: State, a: Action)
    ensures
      var t := Step(s, a);
      if t.notes == s.notes then t.tables == s.tables && t.cache == s.cache
      else
        && |t.notes| == |s.notes| + 1 && t.notes == s.notes + [t.notes[|s.notes|]]
        && var n := t.notes[|s.notes|];
           && KeptMay(n) && (n.Served? ==> Hit(s.cache, n.req, n.at) == Some(n.cached))
           && t.cache == (if n.Kept? then Stored(s.cache, n.req, n.answer, n.at) else s.cache)
           && (if n.Committed? then
                 a.id in s.flights && CanCommit(s.flights[a.id])
                 && s.flights[a.id].req == n.req && s.flights[a.id].stage.answer == n.answer
                 && t.tables == s.tables.Plus(s.flights[a.id].pending)
               else t.tables == s.tables)
  {
  }

  lemma StepKeeps(s: State, a: Action)
    requires Inv(s)
    ensures Inv(Step(s, a))
  {
    var t := Step(s, a);
    FlightsInStep(s, a);
    StepNotes(s, a);
    if t.notes != s.notes {
      var n := t.notes[|s.notes|];
      if n.Committed? {
        assert InStep(s.flights[a.id]);
      }
      NoteKeeps(s, n, t);
    }
  }

  lemma {:induction false} RunKeeps(s: State, actions: seq<Action>)
    requires Inv(s)
    ensures Inv(Run(s, actions))
    decreases actions
  {
    if actions != [] {
      StepKeeps(s, actions[0]);
      RunKeeps(Step(s, actions[0]), actions[1..]);
    }
  }

  lemma Reachable(actions: seq<Action>)
    ensures Inv(Run(START, actions))
  {
    RunKeeps(START, actions);
  }

  // ---- The cache ----

  /** Note `j` is the last one that kept an answer under `key`. */
  ghost predicate IsLastKept(notes: seq<Note>, j: int, key: CacheKey) {
    && 0 <= j < |notes| && KeptUnder(notes[j], key)
    && forall k | j < k < |notes| :: !KeptUnder(notes[k], key)
  }

  lemma {:induction false} LastKeptCell(notes: seq<Note>, j: int, key: CacheKey)
    requires IsLastKept(notes, j, key)
    ensures LastKept(notes, key) == Held(CachedOf(notes[j].req, notes[j].answer), At(notes[j].at + CACHE_TTL))
    decreases |notes|
  {
    if j < |notes| - 1 {
      LastKeptCell(notes[..|notes| - 1], j, key);
    }
  }

  lemma {:induction false} FindLastKept(notes: seq<Note>, key: CacheKey) returns (j: nat)
    requires LastKept(notes, key).Held?
    ensures IsLastKept(notes, j, key)
    decreases |notes|
  {
    var front := notes[..|notes| - 1];
    if KeptUnder(notes[|notes| - 1], key) {
      j := |notes| - 1;
    } else {
      j := FindLastKept(front, key);
      assert forall k | j < k < |front| :: !KeptUnder(front[k], key) && front[k] == notes[k];
    }
  }

  /** Not streamed, at temperature zero, and not asked to leave the cache alone. */
  predicate MayUseCache(req: Request) {
    req.stream == false && req.bypassCache == false && req.temperature == 0.0
  }

  /** It has text, and every tool call in it has the form that the response schema asks for. */
  predicate Servable(reply: Reply) {
    && reply.content.Some? && reply.content.value != ""
    && (reply.toolCalls.Some? ==> forall k | 0 <= k < |reply.toolCalls.value| :: reply.toolCalls.value[k].wellFormed)
  }

  /**
   In every reachable state a request is served from the cache if and only if it may be,
   and the last answer kept under its own user, provider, model, messages and temperature
   was kept less than an hour ago.
   */
  lemma HitIff(actions: seq<Action>, req: Request, now: real)
    ensures
      var s := Run(START, actions);
      Hit(s.cache, req, now).Some? <==>
        MayUseCache(req) && exists j :: IsLastKept(s.notes, j, AskedKey(req)) && now < s.notes[j].at + 3600.0
  {
    var s, key := Run(START, actions), AskedKey(req);
    Reachable(actions);
    assert CacheCell(s.cache, key) == LastKept(s.notes, key);
    if LastKept(s.notes, key).Held? {
      var j := FindLastKept(s.notes, key);
      LastKeptCell(s.notes, j, key);
      assert forall k :: IsLastKept(s.notes, k, key) ==> k == j;
    } else {
      forall k ensures !IsLastKept(s.notes, k, key) {
        if IsLastKept(s.notes, k, key) {
          LastKeptCell(s.notes, k, key);
        }
      }
    }
  }

  /** A request that names no provider is never served from the cache. */
  lemma NoProviderNoHit(actions: seq<Action>, req: Request, now: real)
    requires req.provider.GetOr("") == ""
    ensures Hit(Run(START, actions).cache, req, now).None?
  {
    HitIff(actions, req, now);
    var s, key := Run(START, actions), AskedKey(req);
    forall j ensures !IsLastKept(s.notes, j, key) {
      assert 0 <= j < |s.notes| && s.notes[j].Kept? ==> s.notes[j].answer.reply.provider != key.provider;
    }
  }

  /** The two requests agree in what the cache looks at: user, messages and temperature. */
  predicate SameLookup(a: Request, b: Request) {
    && IsCacheable(a) && IsCacheable(b)
    && a.user == b.user && a.messages == b.messages && a.temperature == b.temperature == 0.0
  }

  /** Note `j` is the answer that note `i` serves again. */
  ghost predicate Source(notes: seq<Note>, j: nat, i: nat)
    requires j < |notes| && i < |notes| && notes[j].Kept? && notes[i].Served?
  {
    var asked, kept, reply := notes[i].req, notes[j].req, notes[j].answer.reply;
    && SameLookup(asked, kept)
    && notes[i].at < notes[j].at + CACHE_TTL
    && asked.provider == Some(reply.provider) && asked.model.GetOr("") == reply.model.GetOr("")
    && notes[i].cached == CachedOf(kept, notes[j].answer)
    && Some(notes[i].cached.content) == reply.content
  }

  /**
   Everything the cache serves is the text an earlier provider reply gave the same user
   for the same messages less than an hour before, by the very provider and model that
   the served request names.
   */
  lemma Provenance(actions: seq<Action>, i: nat) returns (j: nat)
    requires i < |Run(START, actions).notes| && Run(START, actions).notes[i].Served?
    ensures j < i && Run(START, actions).notes[j].Kept? && Source(Run(START, actions).notes, j, i)
  {
    var notes := Run(START, actions).notes;
    Reachable(actions);
    assert ServedLast(notes, i);
    var key := AskedKey(notes[i].req);
    j := FindLastKept(notes[..i], key);
    LastKeptCell(notes[..i], j, key);
    assert notes[..i][j] == notes[j] && KeptMay(notes[j]);
  }

  /**
   A hit repeats the response of the chat that obtained it if and only if the reply named
   its model and carried no tool calls: those are not kept.
   */
  lemma HitRepeatsIff(actions: seq<Action>, i: nat) returns (j: nat)
    requires i < |Run(START, actions).notes| && Run(START, actions).notes[i].Served?
    ensures j < i && Run(START, actions).notes[j].Kept? && Source(Run(START, actions).notes, j, i)
    ensures
      var notes := Run(START, actions).notes;
      var reply := notes[j].answer.reply;
      CachedResponse(notes[i].cached) == Success(FreshResponse(notes[j].req, notes[j].answer).(cached := true))
      <==> reply.model.Some? && reply.toolCalls.None?
  {
    j := Provenance(actions, i);
  }

  /** All that a request says about the answer it wants, apart from who is to give it. */
  datatype Question = Question(user: string, messages: seq<Message>, temperature: real, options: Options)

  function QuestionOf(req: Request): Question {
    Question(req.user, req.messages, req.temperature, req.options)
  }

  /** The cache does not look at the tools, the tool choice or the token limit. */
  lemma HitIgnoresOptions(cache: Cache, req: Request, options: Options, now: real)
    ensures Hit(cache, req.(options := options), now) == Hit(cache, req, now)
  {
  }

  /** So a hit answers the question that was put to the provider if and only if the two requests' options are equal. */
  lemma HitAnswersIff(actions: seq<Action>, i: nat) returns (j: nat)
    requires i < |Run(START, actions).notes| && Run(START, actions).notes[i].Served?
    ensures j < i && Run(START, actions).notes[j].Kept? && Source(Run(START, actions).notes, j, i)
    ensures
      var notes := Run(START, actions).notes;
      QuestionOf(notes[i].req) == QuestionOf(notes[j].req) <==> notes[i].req.options == notes[j].req.options
  {
    j := Provenance(actions, i);
  }

  /** A served answer reaches the client unless the reply it came from named no model; its label is what was asked for. */
  lemma ServedLabel(actions: seq<Action>, i: nat)
    requires i < |Run(START, actions).notes| && Run(START, actions).notes[i].Served?
    ensures
      var n := Run(START, actions).notes[i];
      var r := CachedResponse(n.cached);
      && (r.Failure? <==> n.cached.model.None?)
      && (n.cached.model.None? ==> n.req.model.GetOr("") == "")
      && (r.Success? ==>
            Some(r.value.provider) == n.req.provider && r.value.model == n.req.model.GetOr("") && r.value.content != "")
  {
    var j := Provenance(actions, i);
    var notes := Run(START, actions).notes;
    Reachable(actions);
    assert KeptMay(notes[j]);
  }

  /** A request that is served what `req` obtained: it names the provider and model that replied. */
  function Repeat(req: Request, reply: Reply, options: Options): Request {
    req.(provider := Some(reply.provider), model := reply.model, options := options)
  }

  lemma RepeatHits(req: Request, a: Answer, options: Options, cache: Cache, at: real, now: real)
    requires Keeps(req, a.reply) && now < at + CACHE_TTL
    ensures Hit(Stored(cache, req, a, at), Repeat(req, a.reply, options), now) == Some(CachedOf(req, a))
  {
  }

  /**
   Whatever may be kept can be served again, with any options: a chat is answered, kept and
   committed, then a second request is served its answer.
   */
  lemma ServedAgain(req: Request, a: Answer, options: Options) returns (actions: seq<Action>)
    requires Keeps(req, a.reply) && Presentable(a.reply)
    ensures
      Run(START, actions).notes ==
        [Kept(req, a, 1.0), Committed(req, a), Served(Repeat(req, a.reply, options), CachedOf(req, a), 2.0)]
  {
    var f := StoredAlone(req, a);
    var q := Repeat(req, a.reply, options);
    var rest := [Commit(0)] + [Ask(1, q, 2.0)];
    actions := UntilStored(req, a) + ([Keep(0, 1.0)] + rest);
    RunJoins(START, UntilStored(req, a), [Keep(0, 1.0)] + rest);
    RunCons(Alone(START, f), Keep(0, 1.0), rest);
    KeepsAlone(START, f, 1.0);
    CommittedThenAsked(f, a, q);
  }

  lemma CommittedThenAsked(f: Flight, a: Answer, q: Request)
    requires CanKeep(f) && f.stage == ReplyStored(a) && q == Repeat(f.req, a.reply, q.options)
    ensures
      var s := AfterKeep(START, f, 1.0);
      Run(Alone(s, f.(stage := AnswerKept(a))), [Commit(0)] + [Ask(1, q, 2.0)]).notes ==
        [Kept(f.req, a, 1.0), Committed(f.req, a), Served(q, CachedOf(f.req, a), 2.0)]
  {
    var s, f' := AfterKeep(START, f, 1.0), f.(stage := AnswerKept(a));
    var t := Step(Alone(s, f'), Commit(0));
    RunCons(Alone(s, f'), Commit(0), [Ask(1, q, 2.0)]);
    RunOne(t, Ask(1, q, 2.0));
    RepeatHits(f.req, a, q.options, START.cache, 1.0, 2.0);
    assert t.notes == [Kept(f.req, a, 1.0), Committed(f.req, a)];
  }

  /** Any request with other tools, another tool choice or another token limit can be served the old answer. */
  lemma OtherOptionsAreServed(req: Request, a: Answer, options: Options) returns (actions: seq<Action>)
    requires Keeps(req, a.reply) && Presentable(a.reply) && options != req.options
    ensures
      var notes := Run(START, actions).notes;
      && |notes| == 3 && notes[0].Kept? && notes[2].Served? && Source(notes, 0, 2)
      && QuestionOf(notes[2].req) != QuestionOf(notes[0].req)
  {
    actions := ServedAgain(req, a, options);
  }

  /** Any tool calls of a reply with text are missing when it is served again. */
  lemma ToolCallsAreLost(req: Request, a: Answer) returns (actions: seq<Action>)
    requires Keeps(req, a.reply) && Presentable(a.reply) && a.reply.model.Some? && a.reply.toolCalls.Some?
    ensures
      var notes := Run(START, actions).notes;
      && |notes| == 3 && notes[0] == Kept(req, a, 1.0) && notes[2].Served? && Source(notes, 0, 2)
      && CachedResponse(notes[2].cached).Success? && CachedResponse(notes[2].cached).value.toolCalls == None
      && FreshResponse(req, a).toolCalls == a.reply.toolCalls
  {
    actions := ServedAgain(req, a, req.options);
  }

  /** An answer whose reply named no model is served to the next such request, and fails validation. */
  lemma UnlabelledHitFails(req: Request, a: Answer) returns (actions: seq<Action>)
    requires Keeps(req, a.reply) && Presentable(a.reply) && a.reply.model.None?
    ensures
      var notes := Run(START, actions).notes;
      && |notes| == 3 && notes[2].Served? && notes[2].req.model == None
      && CachedResponse(notes[2].cached) == Failure(InvalidResponse)
  {
    actions := ServedAgain(req, a, req.options);
  }

  /** In the end nothing is committed or open, yet the answer was kept and `q` would be served it. */
  ghost predicate RolledBackServes(actions: seq<Action>, req: Request, a: Answer, q: Request, now: real) {
    var s := Run(START, actions);
    && s.flights == map[] && s.tables == NO_ROWS && (forall n <- s.notes :: !n.Committed?)
    && (exists n <- s.notes :: n.Kept? && n.req == req && n.answer == a)
    && Hit(s.cache, q, now) == Some(CachedOf(req, a))
  }

  lemma KeptThenAborted(f: Flight)
    requires CanKeep(f)
    ensures Run(Alone(START, f), [Keep(0, 1.0)] + [Abort(0)]) == AfterKeep(START, f, 1.0).(flights := map[])
  {
    var f' := f.(stage := AnswerKept(f.stage.answer));
    RunCons(Alone(START, f), Keep(0, 1.0), [Abort(0)]);
    KeepsAlone(START, f, 1.0);
    AbortAlone(AfterKeep(START, f, 1.0), f');
  }

  lemma RolledBackAnswerIsServed(req: Request, a: Answer) returns (actions: seq<Action>)
    requires Keeps(req, a.reply) && Presentable(a.reply)
    ensures RolledBackServes(actions, req, a, Repeat(req, a.reply, req.options), 2.0)
  {
    var f := StoredAlone(req, a);
    actions := UntilStored(req, a) + ([Keep(0, 1.0)] + [Abort(0)]);
    RunJoins(START, UntilStored(req, a), [Keep(0, 1.0)] + [Abort(0)]);
    KeptThenAborted(f);
    RepeatHits(req, a, req.options, START.cache, 1.0, 2.0);
    var n := Kept(req, a, 1.0);
    assert Run(START, actions).notes == [n];
    assert n in [n];
  }

  lemma MayBeKeptIff(req: Request, reply: Reply)
    ensures Keeps(req, reply) && Presentable(reply) <==> MayUseCache(req) && Servable(reply)
  {
  }

  /**
   A chat's answer can be served although the chat was rolled back and left no row, if and
   only if the chat may use the cache and its reply has text and fits the response schema.
   */
  lemma RolledBackServedIff(req: Request, a: Answer)
    ensures (exists actions, q, now :: RolledBackServes(actions, req, a, q, now)) <==> MayUseCache(req) && Servable(a.reply)
  {
    MayBeKeptIff(req, a.reply);
    if Keeps(req, a.reply) && Presentable(a.reply) {
      var actions := RolledBackAnswerIsServed(req, a);
    }
    if exists actions, q, now :: RolledBackServes(actions, req, a, q, now) {
      var actions, q, now :| RolledBackServes(actions, req, a, q, now);
      Reachable(actions);
      var notes := Run(START, actions).notes;
      var n :| n in notes && n.Kept? && n.req == req && n.answer == a;
      var i :| 0 <= i < |notes| && notes[i] == n;
      assert KeptMay(notes[i]);
    }
  }

  /** One chat up to its last write. */
  function UntilStored(req: Request, a: Answer): seq<Action> {
    [Ask(0, req, 0.0)] + ([Begin(0, a.newConversation)] + ([StoreClient(0)] + (
      [Reach(0, a.reply, a.latencyMs, a.createdAt)] + ([StoreUsage(0)] + [StoreReply(0)]))))
  }

  lemma {:induction false} RunJoins(s: State, xs: seq<Action>, ys: seq<Action>)
    ensures Run(s, xs + ys) == Run(Run(s, xs), ys)
    decreases |xs|
  {
    if |xs| == 0 {
      assert xs + ys == ys;
    } else {
      assert xs + ys == [xs[0]] + (xs[1..] + ys);
      RunCons(s, xs[0], xs[1..] + ys);
      RunJoins(Step(s, xs[0]), xs[1..], ys);
    }
  }

  lemma OpenedAlone(req: Request, n: string, rest: seq<Action>) returns (f: Flight)
    ensures Run(START, [Ask(0, req, 0.0)] + ([Begin(0, n)] + ([StoreClient(0)] + rest))) == Run(Alone(START, f), rest)
    ensures f.req == req && f.stage == Opened(n)
  {
    var f0 := Flight(req, Missed, NO_ROWS);
    var f1 := Advance(f0, Begin(0, n));
    f := Advance(f1, StoreClient(0));
    RunCons(START, Ask(0, req, 0.0), [Begin(0, n)] + ([StoreClient(0)] + rest));
    assert map[][0 := f0] == map[0 := f0];
    assert Step(START, Ask(0, req, 0.0)) == Alone(START, f0);
    RunCons(Alone(START, f0), Begin(0, n), [StoreClient(0)] + rest);
    StepAlone(START, f0, Begin(0, n));
    RunCons(Alone(START, f1), StoreClient(0), rest);
    StepAlone(START, f1, StoreClient(0));
  }

  lemma ReplyStoredAlone(f: Flight, a: Answer) returns (f': Flight)
    requires f.stage == Opened(a.newConversation)
    ensures
      Run(Alone(START, f), [Reach(0, a.reply, a.latencyMs, a.createdAt)] + ([StoreUsage(0)] + [StoreReply(0)])) == Alone(START, f')
    ensures f'.req == f.req && f'.stage == ReplyStored(a)
  {
    var reach := Reach(0, a.reply, a.latencyMs, a.createdAt);
    var f1 := Advance(f, reach);
    var f2 := Advance(f1, StoreUsage(0));
    f' := Advance(f2, StoreReply(0));
    RunCons(Alone(START, f), reach, [StoreUsage(0)] + [StoreReply(0)]);
    StepAlone(START, f, reach);
    RunCons(Alone(START, f1), StoreUsage(0), [StoreReply(0)]);
    StepAlone(START, f1, StoreUsage(0));
    RunOne(Alone(START, f2), StoreReply(0));
    StepAlone(START, f2, StoreReply(0));
  }

  lemma StoredAlone(req: Request, a: Answer) returns (f: Flight)
    ensures Run(START, UntilStored(req, a)) == Alone(START, f) && f.req == req && f.stage == ReplyStored(a)
  {
    var rest := [Reach(0, a.reply, a.latencyMs, a.createdAt)] + ([StoreUsage(0)] + [StoreReply(0)]);
    var begun := OpenedAlone(req, a.newConversation, rest);
    f := ReplyStoredAlone(begun, a);
  }

  // ---- Accounting ----

  /** The messages a provider wrote. */
  function Generated(messages: seq<MessageRow>): seq<MessageRow> {
    if messages == [] then []
    else Generated(messages[..|messages| - 1])
         + if messages[|messages| - 1].providerUsed.Some? then [messages[|messages| - 1]] else []
  }

  function Assistants(messages: seq<MessageRow>): nat {
    if messages == [] then 0
    else Assistants(messages[..|messages| - 1]) + if messages[|messages| - 1].role == "assistant" then 1 else 0
  }

  /** A message and a usage row speak of the same reply. */
  predicate Matches(m: MessageRow, u: UsageRow) {
    && m.providerUsed == Some(u.provider) && m.modelUsed.GetOr("") == u.model
    && m.inputTokens.GetOr(0) == u.inputTokens && m.outputTokens.GetOr(0) == u.outputTokens
  }

  predicate OneForOne(messages: seq<MessageRow>, usage: seq<UsageRow>) {
    |messages| == |usage| && forall k | 0 <= k < |messages| :: Matches(messages[k], usage[k])
  }

  function InputTokens(messages: seq<MessageRow>): nat {
    if messages == [] then 0 else messages[0].inputTokens.GetOr(0) + InputTokens(messages[1..])
  }

  function OutputTokens(messages: seq<MessageRow>): nat {
    if messages == [] then 0 else messages[0].outputTokens.GetOr(0) + OutputTokens(messages[1..])
  }

  lemma {:induction false} SameTokens(messages: seq<MessageRow>, usage: seq<UsageRow>)
    requires OneForOne(messages, usage)
    ensures InputTokens(messages) == TotalsOf(usage).inputTokens && OutputTokens(messages) == TotalsOf(usage).outputTokens
    decreases |messages|
  {
    if messages != [] {
      assert Matches(messages[0], usage[0]);
      assert forall k | 0 <= k < |messages| - 1 :: messages[1..][k] == messages[k + 1] && usage[1..][k] == usage[k + 1];
      SameTokens(messages[1..], usage[1..]);
    }
  }

  /** The chats whose client's last message had the assistant's role. */
  function AssistantClients(notes: seq<Note>): nat {
    if notes == [] then 0
    else AssistantClients(notes[..|notes| - 1]) + if EndsAsAssistant(notes[|notes| - 1]) then 1 else 0
  }

  predicate EndsAsAssistant(n: Note) {
    n.Committed? && n.req.messages != [] && n.req.messages[|n.req.messages| - 1].role == "assistant"
  }

  ghost predicate Balanced(t: Tables, notes: seq<Note>) {
    && OneForOne(Generated(t.messages), t.usage)
    && CostsRecorded(t.usage)
    && |t.usage| == Count(notes)
    && Assistants(t.messages) == |t.usage| + AssistantClients(notes)
  }

  lemma MessagesSnoc(messages: seq<MessageRow>, m: MessageRow)
    ensures Generated(messages + [m]) == Generated(messages) + if m.providerUsed.Some? then [m] else []
    ensures Assistants(messages + [m]) == Assistants(messages) + if m.role == "assistant" then 1 else 0
  {
    assert (messages + [m])[..|messages|] == messages;
  }

  lemma RowsAdded(messages: seq<MessageRow>, req: Request, a: Answer)
    ensures
      var rows := RowsOf(req, a);
      && Generated(messages + rows.messages) == Generated(messages) + [ReplyRow(ConversationOf(req, a), a.reply)]
      && Assistants(messages + rows.messages) == Assistants(messages) + 1 + (if EndsAsAssistant(Committed(req, a)) then 1 else 0)
      && rows.usage == [UsageOf(req, a)]
  {
    var rows := RowsOf(req, a);
    var reply := ReplyRow(ConversationOf(req, a), a.reply);
    assert rows.usage == [UsageOf(req, a)];
    if req.messages == [] {
      assert rows.messages == [reply];
      MessagesSnoc(messages, reply);
    } else {
      var client := ClientRow(ConversationOf(req, a), req.messages[|req.messages| - 1]);
      assert messages + rows.messages == messages + [client] + [reply];
      MessagesSnoc(messages, client);
      MessagesSnoc(messages + [client], reply);
    }
  }

  lemma CommitBalances(t: Tables, notes: seq<Note>, req: Request, a: Answer)
    requires Balanced(t, notes)
    ensures Balanced(t.Plus(RowsOf(req, a)), notes + [Committed(req, a)])
  {
    var n := Committed(req, a);
    assert (notes + [n])[..|notes|] == notes;
    RowsAdded(t.messages, req, a);
    assert Matches(ReplyRow(ConversationOf(req, a), a.reply), UsageOf(req, a));
  }

  lemma {:induction false} CommittedRowsBalance(notes: seq<Note>)
    ensures Balanced(CommittedRows(notes), notes)
    decreases |notes|
  {
    if |notes| > 0 {
      var front, n := notes[..|notes| - 1], notes[|notes| - 1];
      CommittedRowsBalance(front);
      if n.Committed? {
        CommitBalances(CommittedRows(front), front, n.req, n.answer);
        assert front + [n] == notes;
      }
    }
  }

  /**
   However requests interleave, fail and roll back: the tables hold the rows of exactly
   the committed chats, the messages providers wrote and the usage rows match one for
   one, and their token totals are equal. A hit adds to neither.
   */
  lemma AccountsBalance(actions: seq<Action>)
    ensures
      var s := Run(START, actions);
      var generated := Generated(s.tables.messages);
      && s.tables == CommittedRows(s.notes)
      && OneForOne(generated, s.tables.usage)
      && |s.tables.usage| == Count(s.notes)
      && InputTokens(generated) == TotalsOf(s.tables.usage).inputTokens
      && OutputTokens(generated) == TotalsOf(s.tables.usage).outputTokens
  {
    var s := Run(START, actions);
    Reachable(actions);
    CommittedRowsBalance(s.notes);
    SameTokens(Generated(s.tables.messages), s.tables.usage);
  }

  /**
   Rows with the assistant's role are as many as usage rows if and only if no committed
   chat ended in a client message of that role, which a client may send.
   */
  lemma AssistantRowsIff(actions: seq<Action>)
    ensures
      var s := Run(START, actions);
      Assistants(s.tables.messages) == |s.tables.usage| <==> forall n <- s.notes :: !EndsAsAssistant(n)
  {
    var s := Run(START, actions);
    Reachable(actions);
    CommittedRowsBalance(s.notes);
    AssistantClientsZero(s.notes);
  }

  lemma {:induction false} AssistantClientsZero(notes: seq<Note>)
    ensures AssistantClients(notes) == 0 <==> forall n <- notes :: !EndsAsAssistant(n)
    decreases |notes|
  {
    if |notes| > 0 {
      var front, n := notes[..|notes| - 1], notes[|notes| - 1];
      AssistantClientsZero(front);
      assert notes == front + [n];
    }
  }

  function Asks(actions: seq<Action>): nat {
    if actions == [] then 0 else (if actions[0].Ask? then 1 else 0) + Asks(actions[1..])
  }

  lemma NotesCount(s: State, a: Action)
    ensures Step(s, a).notes == s.notes || |Step(s, a).notes| == |s.notes| + 1
    ensures Count(Step(s, a).notes) ==
            Count(s.notes) + if Step(s, a).notes != s.notes && Step(s, a).notes[|s.notes|].Committed? then 1 else 0
  {
    var t := Step(s, a);
    StepNotes(s, a);
    if t.notes != s.notes {
      assert t.notes[..|s.notes|] == s.notes;
    }
  }

  /** The chats in flight: a request adds one at most, and a commit takes its own away. */
  lemma FlightsCount(s: State, a: Action)
    ensures
      var t := Step(s, a);
      var committed := t.notes != s.notes && |t.notes| > |s.notes| && t.notes[|s.notes|].Committed?;
      |t.flights| + (if committed then 1 else 0) <= |s.flights| + if a.Ask? then 1 else 0
  {
    var t := Step(s, a);
    if a.Ask? {
      SubsetSize(t.flights.Keys, s.flights.Keys + {a.id});
      assert a.id !in s.flights ==> |s.flights.Keys + {a.id}| == |s.flights.Keys| + 1;
    } else if a.id in s.flights {
      assert t.flights.Keys == s.flights.Keys || t.flights.Keys == s.flights.Keys - {a.id};
      assert |s.flights.Keys - {a.id}| == |s.flights.Keys| - 1;
    }
  }

  lemma StepCounts(s: State, a: Action)
    ensures
      var t := Step(s, a);
      Count(t.notes) + |t.flights| <= Count(s.notes) + |s.flights| + if a.Ask? then 1 else 0
  {
    NotesCount(s, a);
    FlightsCount(s, a);
  }

  lemma {:induction false} RunCounts(s: State, actions: seq<Action>)
    ensures
      var t := Run(s, actions);
      Count(t.notes) + |t.flights| <= Count(s.notes) + |s.flights| + Asks(actions)
    decreases |actions|
  {
    if |actions| > 0 {
      StepCounts(s, actions[0]);
      RunCounts(Step(s, actions[0]), actions[1..]);
    }
  }

  /** No request is charged twice: there are at most as many usage rows, and chats still open, as requests. */
  lemma ChargedOnce(actions: seq<Action>)
    ensures |Run(START, actions).tables.usage| + |Run(START, actions).flights| <= Asks(actions)
  {
    RunCounts(START, actions);
    AccountsBalance(actions);
  }

  // ---- Whose rows they are ----

  function Those(notes: seq<Note>, p: Note -> bool): seq<Note> {
    if notes == [] then []
    else Those(notes[..|notes| - 1], p) + if p(notes[|notes| - 1]) then [notes[|notes| - 1]] else []
  }

  function Commits(notes: seq<Note>): seq<Note> {
    Those(notes, (n: Note) => n.Committed?)
  }

  /** The committed chats that had a message, and those that named no conversation. */
  function Askers(notes: seq<Note>): seq<Note> {
    Those(notes, (n: Note) => n.Committed? && |n.req.messages| > 0)
  }

  function Starters(notes: seq<Note>): seq<Note> {
    Those(notes, (n: Note) => n.Committed? && (n.req.conversation == None || n.req.conversation == Some("")))
  }

  /** The messages that no provider wrote. */
  function Asked(messages: seq<MessageRow>): seq<MessageRow> {
    if messages == [] then []
    else Asked(messages[..|messages| - 1])
         + if messages[|messages| - 1].providerUsed.None? then [messages[|messages| - 1]] else []
  }

  /** The conversation a committed chat goes on with, or else starts. */
  predicate InConversation(id: string, n: Note)
    requires n.Committed?
  {
    id == match n.req.conversation
          case Some(given) => if given == "" then n.answer.newConversation else given
          case None => n.answer.newConversation
  }

  predicate OwnUsage(u: UsageRow, n: Note) {
    && n.Committed? && u.user == n.req.user && u.provider == n.answer.reply.provider
    && u.model == n.answer.reply.model.GetOr("")
    && u.inputTokens == n.answer.reply.inputTokens.GetOr(0) && u.outputTokens == n.answer.reply.outputTokens.GetOr(0)
    && u.latencyMs == n.answer.latencyMs && u.createdAt == n.answer.createdAt
  }

  predicate OwnReply(m: MessageRow, n: Note) {
    && n.Committed? && InConversation(m.conversation, n) && m.role == "assistant"
    && m.content == n.answer.reply.content.GetOr("") && m.providerUsed == Some(n.answer.reply.provider)
    && m.modelUsed == n.answer.reply.model
    && m.inputTokens == n.answer.reply.inputTokens && m.outputTokens == n.answer.reply.outputTokens
  }

  predicate OwnQuestion(m: MessageRow, n: Note) {
    && n.Committed? && InConversation(m.conversation, n) && |n.req.messages| > 0
    && m.role == n.req.messages[|n.req.messages| - 1].role && m.content == n.req.messages[|n.req.messages| - 1].content
  }

  predicate OwnConversation(c: (string, string), n: Note) {
    n.Committed? && c == (n.answer.newConversation, n.req.user)
  }

  /** Rows and chats, each row its chat's own. */
  ghost predicate Pairwise<T(!new)>(rows: seq<T>, notes: seq<Note>, own: (T, Note) -> bool) {
    |rows| == |notes| && forall k | 0 <= k < |rows| :: own(rows[k], notes[k])
  }

  lemma PairwiseSnoc<T(!new)>(rows: seq<T>, notes: seq<Note>, own: (T, Note) -> bool, row: T, n: Note)
    requires Pairwise(rows, notes, own) && own(row, n)
    ensures Pairwise(rows + [row], notes + [n], own)
  {
  }

  lemma ThoseSnoc(notes: seq<Note>, n: Note, p: Note -> bool)
    ensures Those(notes + [n], p) == if p(n) then Those(notes, p) + [n] else Those(notes, p)
  {
    assert (notes + [n])[..|notes|] == notes;
  }

  lemma AskedSnoc(messages: seq<MessageRow>, m: MessageRow)
    ensures Asked(messages + [m]) == if m.providerUsed.None? then Asked(messages) + [m] else Asked(messages)
  {
    assert (messages + [m])[..|messages|] == messages;
  }

  /** Each committed chat's usage row, reply, question and new conversation, in the order of the commits. */
  ghost predicate InBooks(t: Tables, notes: seq<Note>) {
    && Pairwise(t.usage, Commits(notes), OwnUsage)
    && Pairwise(Generated(t.messages), Commits(notes), OwnReply)
    && Pairwise(Asked(t.messages), Askers(notes), OwnQuestion)
    && Pairwise(t.conversations, Starters(notes), OwnConversation)
  }

  lemma OwnRows(req: Request, a: Answer)
    ensures OwnUsage(UsageOf(req, a), Committed(req, a))
    ensures OwnReply(ReplyRow(ConversationOf(req, a), a.reply), Committed(req, a))
  {
  }

  lemma CommitAdds(t: Tables, notes: seq<Note>, n: Note)
    requires n.Committed?
    requires Pairwise(t.usage, Commits(notes), OwnUsage) && Pairwise(Generated(t.messages), Commits(notes), OwnReply)
    ensures
      var t' := t.Plus(RowsOf(n.req, n.answer));
      && Pairwise(t'.usage, Commits(notes + [n]), OwnUsage)
      && Pairwise(Generated(t'.messages), Commits(notes + [n]), OwnReply)
  {
    var usage, reply := UsageOf(n.req, n.answer), ReplyRow(ConversationOf(n.req, n.answer), n.answer.reply);
    RowsAdded(t.messages, n.req, n.answer);
    OwnRows(n.req, n.answer);
    ThoseSnoc(notes, n, (n: Note) => n.Committed?);
    PairwiseSnoc(t.usage, Commits(notes), OwnUsage, usage, n);
    PairwiseSnoc(Generated(t.messages), Commits(notes), OwnReply, reply, n);
  }

  lemma AskedRows(messages: seq<MessageRow>, req: Request, a: Answer)
    ensures Asked(messages + RowsOf(req, a).messages) == Asked(messages) +
            if |req.messages| == 0 then [] else [ClientRow(ConversationOf(req, a), req.messages[|req.messages| - 1])]
  {
    var rows := RowsOf(req, a).messages;
    var reply := ReplyRow(ConversationOf(req, a), a.reply);
    if |req.messages| == 0 {
      assert rows == [reply];
      AskedSnoc(messages, reply);
    } else {
      var client := ClientRow(ConversationOf(req, a), req.messages[|req.messages| - 1]);
      assert messages + rows == messages + [client] + [reply];
      AskedSnoc(messages, client);
      AskedSnoc(messages + [client], reply);
    }
  }

  lemma QuestionAdds(t: Tables, notes: seq<Note>, n: Note)
    requires n.Committed? && InBooks(t, notes)
    ensures Pairwise(Asked(t.Plus(RowsOf(n.req, n.answer)).messages), Askers(notes + [n]), OwnQuestion)
  {
    ThoseSnoc(notes, n, (n: Note) => n.Committed? && |n.req.messages| > 0);
    AskedRows(t.messages, n.req, n.answer);
    if |n.req.messages| > 0 {
      var client := ClientRow(ConversationOf(n.req, n.answer), n.req.messages[|n.req.messages| - 1]);
      PairwiseSnoc(Asked(t.messages), Askers(notes), OwnQuestion, client, n);
    }
  }

  lemma ConversationAdds(t: Tables, notes: seq<Note>, n: Note)
    requires n.Committed? && InBooks(t, notes)
    ensures Pairwise(t.Plus(RowsOf(n.req, n.answer)).conversations, Starters(notes + [n]), OwnConversation)
  {
    var rows := RowsOf(n.req, n.answer).conversations;
    var c := (n.answer.newConversation, n.req.user);
    ThoseSnoc(notes, n, (n: Note) => n.Committed? && (n.req.conversation == None || n.req.conversation == Some("")));
    if n.req.conversation == None || n.req.conversation == Some("") {
      assert rows == [c];
      PairwiseSnoc(t.conversations, Starters(notes), OwnConversation, c, n);
    } else {
      assert |rows| == 0 && t.conversations + rows == t.conversations;
    }
  }

  lemma NotInBooks(notes: seq<Note>, n: Note)
    requires !n.Committed?
    ensures Commits(notes + [n]) == Commits(notes) && Askers(notes + [n]) == Askers(notes)
    ensures Starters(notes + [n]) == Starters(notes)
  {
    ThoseSnoc(notes, n, (n: Note) => n.Committed?);
    ThoseSnoc(notes, n, (n: Note) => n.Committed? && |n.req.messages| > 0);
    ThoseSnoc(notes, n, (n: Note) => n.Committed? && (n.req.conversation == None || n.req.conversation == Some("")));
  }

  lemma {:induction false} CommittedRowsInBooks(notes: seq<Note>)
    ensures InBooks(CommittedRows(notes), notes)
    decreases |notes|
  {
    if |notes| > 0 {
      var front, n := notes[..|notes| - 1], notes[|notes| - 1];
      CommittedRowsInBooks(front);
      assert front + [n] == notes;
      if n.Committed? {
        CommitAdds(CommittedRows(front), front, n);
        QuestionAdds(CommittedRows(front), front, n);
        ConversationAdds(CommittedRows(front), front, n);
      } else {
        NotInBooks(front, n);
      }
    }
  }

  /**
   In every reachable state the tables are the books of the committed chats, in order: the
   usage row of each is its own user's and speaks of its own reply, and its question and
   its reply are in the conversation it named or started.
   */
  lemma RowsAreOfChats(actions: seq<Action>)
    ensures InBooks(Run(START, actions).tables, Run(START, actions).notes)
  {
    Reachable(actions);
    CommittedRowsInBooks(Run(START, actions).notes);
  }

  /** Every line of any user's summary costs what its summed tokens cost, in every reachable state. */
  lemma SummariesAreExact(actions: seq<Action>, user: string, since: real)
    ensures forall line <- Summary(Run(START, actions).tables.usage, user, since) :: ExactLine(line)
  {
    Reachable(actions);
    CommittedRowsBalance(Run(START, actions).notes);
    SummaryIsExact(Run(START, actions).tables.usage, user, since);
  }

  // ---- Who answers a chat ----

  /** The reply is what the adapter asked at position `n` of the failover list answered, under its provider's name. */
  predicate IsAnswerOf(reply: Reply, w: Router.World, n: nat, c: Candidate) {
    w.outcome(n, c).Answered? &&
    var r := w.outcome(n, c).response;
    && reply.provider == c.provider && reply.content == r.content && reply.model == r.model
    && reply.inputTokens == r.inputTokens && reply.outputTokens == r.outputTokens && reply.toolCalls == r.toolCalls
  }

  /**
   A chat's reply, and so its usage row and its label, comes from a registered provider
   that advertises the model for chat and implements it, for which the user has a key,
   and which is of the provider the request names, and of its model, if any such is.
   */
  lemma RepliesComeFromEligible(providers: seq<Provider>, stats: Option<Stats>, req: Request, g: Setting)
      returns (c: Candidate, n: nat)
    requires ReplyOf(Routed(Advertised(providers, CHAT), stats, req, g)).Success?
    ensures IsAnswerOf(ReplyOf(Routed(Advertised(providers, CHAT), stats, req, g)).value, g.routing, n, c)
    ensures
      var route := Router.RouteRequest(Pair(TEXT, TEXT), g.userProviders, req.provider, req.model, req.model);
      Eligible(providers, route, c) && ProviderMatches(providers, route, c) && ModelMatches(providers, route, c)
    ensures c.provider in g.routing.registered && Router.ChatCapable in g.routing.interfaces(c.provider)
  {
    var route := RoutedAs(req, g);
    var answer := Routed(Advertised(providers, CHAT), stats, req, g).result.value;
    RouteAnswersIff(providers, stats, g.routing, route, answer);
    var order := OrderOf(providers, stats, g.routing, route);
    n :| FirstToAnswer(g.routing, CHAT, order, n, answer);
    c := order[n];
    OrderHoldsExactly(providers, stats, g.routing, route, c);
  }

  /** A provider replies if and only if some candidate for this user's chat, provider and model is the first not passed over. */
  lemma RepliedIff(providers: seq<Provider>, stats: Option<Stats>, req: Request, g: Setting)
    ensures
      var route := Router.RouteRequest(Pair(TEXT, TEXT), g.userProviders, req.provider, req.model, req.model);
      ReplyOf(Routed(Advertised(providers, CHAT), stats, req, g)).Success?
      <==> exists n, answer :: FirstToAnswer(g.routing, Pair(TEXT, TEXT), OrderOf(providers, stats, g.routing, route), n, answer)
  {
    var route := RoutedAs(req, g);
    var f := Routed(Advertised(providers, CHAT), stats, req, g);
    var order := OrderOf(providers, stats, g.routing, route);
    if f.result.Success? {
      RouteAnswersIff(providers, stats, g.routing, route, f.result.value);
    }
    forall n, answer | FirstToAnswer(g.routing, CHAT, order, n, answer) ensures f.result == Success(answer) {
      RouteAnswersIff(providers, stats, g.routing, route, answer);
    }
  }

  /** Every provider asked on the way is asked for the model that the request names. */
  lemma ChatSendsModel(capable: seq<Candidate>, stats: Option<Stats>, req: Request, g: Setting)
    requires req.model.Some? && req.model.value != ""
    ensures AllSend(Routed(capable, stats, req, g).dispatched, req.model.value)
  {
    var route := RoutedAs(req, g);
    var preferred := Router.Preferred(Router.WithKeys(capable, route.userProviders), route.preferredProvider, route.preferredModel);
    NamedModelIsSent(Router.Serving(g.routing, CHAT), Router.Order(stats, preferred, g.routing.now), 0, req.model.value, None);
  }

  // ---- What the client is told ----

  predicate HasBlockedText(req: Request, g: Setting) {
    |req.messages| > 0 && |req.messages[|req.messages| - 1].content| > 0 && g.blocked
  }

  /** Nothing that is on the way of this request to a stored reply fails. */
  predicate NothingFails(req: Request, reply: Reply, g: Setting) {
    && (MayUseCache(req) ==> CacheGet !in g.fails) && ConversationRow !in g.fails
    && (|req.messages| > 0 ==> ClientMessage !in g.fails)
    && UsageRecord !in g.fails && ReplyMessage !in g.fails
    && (MayUseCache(req) && Servable(reply) ==> CacheSet !in g.fails)
  }

  /** The response of a chat that asked a provider tells what the provider replied, and costs what its usage row does. */
  predicate Tells(r: Response, req: Request, a: Answer) {
    var reply := a.reply;
    && InConversation(r.conversation, Committed(req, a)) && !r.cached
    && r.content == reply.content.GetOr("") && r.model == reply.model.GetOr("") && r.provider == reply.provider
    && r.inputTokens == reply.inputTokens && r.outputTokens == reply.outputTokens && r.toolCalls == reply.toolCalls
    && r.cost == (if UsageOf(req, a).inputTokens == 0 || UsageOf(req, a).outputTokens == 0 then None
                  else Some(UsageOf(req, a).estimatedCost))
  }

  lemma FreshTells(req: Request, a: Answer)
    ensures Tells(FreshResponse(req, a), req, a)
  {
  }

  /**
   A chat is blocked exactly for its last message's text, and answered anew exactly if that
   is not blocked, the cache has nothing for it, a provider replies, nothing on the way
   fails and the reply's tool calls have the form that is asked for.
   */
  lemma AnsweredAnewIff(cache: Cache, req: Request, w: Chat.World)
    ensures
      var r := Outcome(cache, req, w);
      && (r == Failure(Blocked) <==> HasBlockedText(req, w.setting))
      && (r.Success? && !r.value.cached <==>
            && !HasBlockedText(req, w.setting) && Hit(cache, req, w.setting.asked).None?
            && w.reply.Success? && NothingFails(req, w.reply.value, w.setting)
            && forall call <- w.reply.value.toolCalls.GetOr([]) :: call.wellFormed)
      && (r.Success? && !r.value.cached ==> Tells(r.value, req, w.Answered()))
  {
    if w.reply.Success? {
      MayBeKeptIff(req, w.reply.value);
      FreshTells(req, w.Answered());
    }
  }
}

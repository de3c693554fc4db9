/** The chat request: response cache, messages, usage and the transaction around them. */
module Chat {
  import opened Wrappers
  import opened Redis
  import opened Pricing
  import opened Usage
  import opened Capabilities
  import Ranker
  import Router

  const CACHE_TTL := 3600.0

  datatype Message = Message(role: string, content: string)

  /** What else a request tells the provider. */
  datatype Options = Options(tools: seq<string>, toolChoice: Option<string>, maxTokens: Option<nat>)

  datatype Request = Request(
    user: string, messages: seq<Message>, provider: Option<string>, model: Option<string>,
    temperature: real, options: Options, stream: bool, bypassCache: bool, conversation: Option<string>)

  /** What the router's answer comes to for a chat: the response under its provider's name. */
  datatype Reply = Reply(
    content: Option<string>, provider: ProviderName, model: Option<string>,
    inputTokens: Option<nat>, outputTokens: Option<nat>, toolCalls: Option<seq<Router.ToolCall>>)

  /** A reply, with the id a new conversation would get and the clocks read on the way. */
  datatype Answer = Answer(reply: Reply, newConversation: string, latencyMs: int, createdAt: real)

  datatype MessageRow = MessageRow(
    conversation: string, role: string, content: string, modelUsed: Option<string>, providerUsed: Option<string>,
    inputTokens: Option<nat>, outputTokens: Option<nat>)

  datatype Tables = Tables(conversations: seq<(string, string)>, messages: seq<MessageRow>, usage: seq<UsageRow>) {
    function Plus(t: Tables): Tables {
      Tables(conversations + t.conversations, messages + t.messages, usage + t.usage)
    }
  }

  const NO_ROWS := Tables([], [], [])

  /** The request as the cache key's digest sees it; digests are taken not to collide. */
  datatype CacheKey = CacheKey(user: string, provider: string, model: string, messages: seq<Message>, temperature: real)

  datatype Cached = Cached(
    conversation: string, content: string, model: Option<string>, provider: string,
    inputTokens: Option<nat>, outputTokens: Option<nat>, cost: Option<real>)

  type Cache = map<CacheKey, Cell<Cached>>

  datatype Response = Response(
    conversation: string, content: string, model: string, provider: string,
    inputTokens: Option<nat>, outputTokens: Option<nat>, cost: Option<real>,
    toolCalls: Option<seq<Router.ToolCall>>, cached: bool)

  predicate IsCacheable(req: Request) {
    !req.stream && req.temperature == 0.0 && !req.bypassCache
  }

  function AskedKey(req: Request): CacheKey {
    CacheKey(req.user, req.provider.GetOr(""), req.model.GetOr(""), req.messages, req.temperature)
  }

  function AnsweredKey(req: Request, reply: Reply): CacheKey {
    CacheKey(req.user, reply.provider, reply.model.GetOr(""), req.messages, req.temperature)
  }

  function CacheCell(cache: Cache, key: CacheKey): Cell<Cached> {
    if key in cache then cache[key] else Gone
  }

  /** The cached answer to a request, if it may use the cache. */
  function Hit(cache: Cache, req: Request, now: real): Option<Cached> {
    if IsCacheable(req) then CacheCell(cache, AskedKey(req)).Get(now) else None
  }

  /** The answer is kept when the request is cacheable and the reply has text. */
  predicate Keeps(req: Request, reply: Reply) {
    IsCacheable(req) && reply.content.GetOr("") != ""
  }

  /** The reply fits the response schema, which has a form for tool calls. */
  predicate Presentable(reply: Reply) {
    reply.toolCalls.Some? ==> forall call <- reply.toolCalls.value :: call.wellFormed
  }

  /** The conversation the request names, or the new one. */
  function ConversationFor(req: Request, newConversation: string): string {
    if req.conversation.GetOr("") != "" then req.conversation.value else newConversation
  }

  function ConversationOf(req: Request, a: Answer): string {
    ConversationFor(req, a.newConversation)
  }

  /** Missing or zero token counts leave the cost out. */
  function CostOf(reply: Reply): Option<real> {
    if reply.inputTokens.GetOr(0) != 0 && reply.outputTokens.GetOr(0) != 0 then
      Some(Estimate(reply.provider, reply.model.GetOr(""), reply.inputTokens.value, reply.outputTokens.value))
    else None
  }

  function CachedOf(req: Request, a: Answer): Cached {
    var r := a.reply;
    Cached(ConversationOf(req, a), r.content.GetOr(""), r.model, r.provider, r.inputTokens, r.outputTokens, CostOf(r))
  }

  function Stored(cache: Cache, req: Request, a: Answer, now: real): Cache {
    cache[AnsweredKey(req, a.reply) := Held(CachedOf(req, a), At(now + CACHE_TTL))]
  }

  function ClientRow(conversation: string, m: Message): MessageRow {
    MessageRow(conversation, m.role, m.content, None, None, None, None)
  }

  function ReplyRow(conversation: string, r: Reply): MessageRow {
    MessageRow(conversation, "assistant", r.content.GetOr(""), r.model, Some(r.provider), r.inputTokens, r.outputTokens)
  }

  function UsageOf(req: Request, a: Answer): UsageRow {
    var r := a.reply;
    Recorded(req.user, r.provider, r.model.GetOr(""), r.inputTokens.GetOr(0), r.outputTokens.GetOr(0), a.latencyMs, a.createdAt)
  }

  /** What is written before the provider is asked: perhaps a conversation, and the client's last message. */
  function OpeningRows(req: Request, conversation: string): Tables {
    Tables(
      if req.conversation.GetOr("") != "" then [] else [(conversation, req.user)],
      if req.messages == [] then [] else [ClientRow(conversation, req.messages[|req.messages| - 1])],
      [])
  }

  /** What is written once it has replied: the reply and its usage. */
  function ReplyRows(req: Request, a: Answer): Tables {
    Tables([], [ReplyRow(ConversationOf(req, a), a.reply)], [UsageOf(req, a)])
  }

  function RowsOf(req: Request, a: Answer): Tables {
    OpeningRows(req, ConversationOf(req, a)).Plus(ReplyRows(req, a))
  }

  // ---- Asking the router ----

  const CHAT := Pair(TEXT, TEXT)

  /** What the world answers to one request, apart from the reply. */
  datatype Setting = Setting(
    asked: real, blocked: bool, fails: set<Place>, newConversation: string,
    userProviders: set<string>, routing: Router.World, latencyMs: int, createdAt: real, stored: real)

  function RoutedAs(req: Request, g: Setting): Router.RouteRequest {
    Router.RouteRequest(CHAT, g.userProviders, req.provider, req.model, req.model)
  }

  function Routed(capable: seq<Candidate>, stats: Option<Ranker.Stats>, req: Request, g: Setting): Router.Failover {
    Router.Route(capable, stats, g.routing, RoutedAs(req, g))
  }

  /** The statistics after a request has been routed, or when it has not come so far. */
  function Rated(capable: seq<Candidate>, stats: Option<Ranker.Stats>, req: Request, g: Setting, routed: bool): Option<Ranker.Stats> {
    if routed && stats.Some? then Some(Ranker.ApplyAll(stats.value, Routed(capable, stats, req, g).records)) else stats
  }

  /** The answer's response, with the provider's name the router puts on it. */
  function ReplyOf(f: Router.Failover): Result<Reply, Router.RouteError> {
    match f.result
    case Success(a) =>
      Success(Reply(a.response.content, a.candidate.provider, a.response.model, a.response.inputTokens,
                    a.response.outputTokens, a.response.toolCalls))
    case Failure(e) => Failure(e)
  }

  // ---- Chats in flight ----

  /** How far a chat has come; each step but `Replied` and `Kept` has written a row, or had none to write. */
  datatype Stage =
    | Missed
    | Begun(conversation: string)
    | Opened(conversation: string)
    | Replied(answer: Answer)
    | UsageStored(answer: Answer)
    | ReplyStored(answer: Answer)
    | AnswerKept(answer: Answer)

  /** A chat and the rows its transaction holds, which nobody else sees. */
  datatype Flight = Flight(req: Request, stage: Stage, pending: Tables)

  /** What happened, in order: hits served, answers put in the cache, transactions committed. */
  datatype Note =
    | Served(req: Request, cached: Cached, at: real)
    | Kept(req: Request, answer: Answer, at: real)
    | Committed(req: Request, answer: Answer)

  datatype State = State(tables: Tables, cache: Cache, flights: map<nat, Flight>, notes: seq<Note>)

  const START := State(NO_ROWS, map[], map[], [])

  /** A request's steps, between any two of which others may come, and which any failure may end. */
  datatype Action =
    | Ask(id: nat, req: Request, at: real)
    | Begin(id: nat, newConversation: string)
    | StoreClient(id: nat)
    | Reach(id: nat, reply: Reply, latencyMs: int, createdAt: real)
    | StoreUsage(id: nat)
    | StoreReply(id: nat)
    | Keep(id: nat, at: real)
    | Commit(id: nat)
    | Abort(id: nat)

  /** The conversation's row, if the request names none. */
  function ConversationRows(req: Request, newConversation: string): Tables {
    Tables(if req.conversation.GetOr("") != "" then [] else [(newConversation, req.user)], [], [])
  }

  function ClientRows(req: Request, newConversation: string): Tables {
    var id := ConversationFor(req, newConversation);
    Tables([], if req.messages == [] then [] else [ClientRow(id, req.messages[|req.messages| - 1])], [])
  }

  function UsageRows(req: Request, a: Answer): Tables {
    Tables([], [], [UsageOf(req, a)])
  }

  function MessageRows(req: Request, a: Answer): Tables {
    Tables([], [ReplyRow(ConversationOf(req, a), a.reply)], [])
  }

  /** One step of a chat in flight; a step out of turn leaves it as it is. */
  function Advance(f: Flight, a: Action): Flight {
    match (f.stage, a)
    case (Missed, Begin(_, n)) => f.(stage := Begun(n), pending := f.pending.Plus(ConversationRows(f.req, n)))
    case (Begun(n), StoreClient(_)) => f.(stage := Opened(n), pending := f.pending.Plus(ClientRows(f.req, n)))
    case (Opened(n), Reach(_, reply, latencyMs, createdAt)) => f.(stage := Replied(Answer(reply, n, latencyMs, createdAt)))
    case (Replied(answer), StoreUsage(_)) =>
      f.(stage := UsageStored(answer), pending := f.pending.Plus(UsageRows(f.req, answer)))
    case (UsageStored(answer), StoreReply(_)) =>
      f.(stage := ReplyStored(answer), pending := f.pending.Plus(MessageRows(f.req, answer)))
    case _ => f
  }

  predicate CanKeep(f: Flight) {
    f.stage.ReplyStored? && Presentable(f.stage.answer.reply) && Keeps(f.req, f.stage.answer.reply)
  }

  /** The handler has returned: every step is done. */
  predicate CanCommit(f: Flight) {
    || f.stage.AnswerKept?
    || (f.stage.ReplyStored? && Presentable(f.stage.answer.reply) && !Keeps(f.req, f.stage.answer.reply))
  }

  /** An action out of turn changes nothing. */
  function Step(s: State, a: Action): State {
    if a.Ask? then
      if a.id in s.flights then s
      else
        var hit := Hit(s.cache, a.req, a.at);
        if hit.Some? then s.(notes := s.notes + [Served(a.req, hit.value, a.at)])
        else s.(flights := s.flights[a.id := Flight(a.req, Missed, NO_ROWS)])
    else if a.id !in s.flights then s
    else
      var f := s.flights[a.id];
      match a
      case Keep(id, at) =>
        if CanKeep(f) then
          s.(cache := Stored(s.cache, f.req, f.stage.answer, at),
             flights := s.flights[id := f.(stage := AnswerKept(f.stage.answer))],
             notes := s.notes + [Kept(f.req, f.stage.answer, at)])
        else s
      case Commit(id) =>
        if CanCommit(f) then
          State(s.tables.Plus(f.pending), s.cache, s.flights - {id}, s.notes + [Committed(f.req, f.stage.answer)])
        else s
      case Abort(id) => s.(flights := s.flights - {id})
      case _ => s.(flights := s.flights[a.id := Advance(f, a)])
  }

  function Run(s: State, actions: seq<Action>): State
    decreases actions
  {
    if actions == [] then s else Run(Step(s, actions[0]), actions[1..])
  }

  // ---- One request from start to end ----

  datatype ChatError = Blocked | RouteFailed(error: Router.RouteError) | StoreFailed | InvalidResponse

  /** Where a database or cache command may fail. */
  datatype Place = CacheGet | ConversationRow | ClientMessage | UsageRecord | ReplyMessage | CacheSet | AtCommit

  /** What the world answers to one request, the reply included. */
  datatype World = World(setting: Setting, reply: Result<Reply, Router.RouteError>) {
    function Answered(): Answer
      requires reply.Success?
    {
      Answer(reply.value, setting.newConversation, setting.latencyMs, setting.createdAt)
    }

    predicate Fails(p: Place) { p in setting.fails }
  }

  /** The guard looks at the last message, if it has any text. */
  predicate IsBlocked(req: Request, g: Setting) {
    req.messages != [] && req.messages[|req.messages| - 1].content != "" && g.blocked
  }

  /** The request stops before it has looked for a cached answer. */
  predicate StopsAtDoor(req: Request, g: Setting) {
    IsBlocked(req, g) || (IsCacheable(req) && CacheGet in g.fails)
  }

  /** It stops before it has asked the router. */
  predicate StopsOpening(req: Request, g: Setting) {
    ConversationRow in g.fails || (req.messages != [] && ClientMessage in g.fails)
  }

  /** It gets as far as the router. */
  predicate AsksRouter(cache: Cache, req: Request, g: Setting) {
    !StopsAtDoor(req, g) && Hit(cache, req, g.asked).None? && !StopsOpening(req, g)
  }

  /** What goes wrong once the provider has replied: a write, the response itself, or the cache. */
  function StoringError(req: Request, reply: Reply, g: Setting): Option<ChatError> {
    if UsageRecord in g.fails || ReplyMessage in g.fails then Some(StoreFailed)
    else if !Presentable(reply) then Some(InvalidResponse)
    else if Keeps(req, reply) && CacheSet in g.fails then Some(StoreFailed)
    else None
  }

  function EndScript(w: World): seq<Action> {
    [if w.Fails(AtCommit) then Abort(0) else Commit(0)]
  }

  function KeepScript(req: Request, w: World): seq<Action>
    requires w.reply.Success?
  {
    if !Presentable(w.reply.value) then [Abort(0)]
    else if !Keeps(req, w.reply.value) then EndScript(w)
    else if w.Fails(CacheSet) then [Abort(0)]
    else [Keep(0, w.setting.stored)] + EndScript(w)
  }

  function ReplyScript(req: Request, w: World): seq<Action> {
    if w.reply.Failure? then [Abort(0)]
    else
      [Reach(0, w.reply.value, w.setting.latencyMs, w.setting.createdAt)] +
      if w.Fails(UsageRecord) then [Abort(0)]
      else [StoreUsage(0)] + if w.Fails(ReplyMessage) then [Abort(0)] else [StoreReply(0)] + KeepScript(req, w)
  }

  function OpenScript(req: Request, w: World): seq<Action> {
    if w.Fails(ConversationRow) then [Abort(0)]
    else
      [Begin(0, w.setting.newConversation)] +
      if req.messages != [] && w.Fails(ClientMessage) then [Abort(0)] else [StoreClient(0)] + ReplyScript(req, w)
  }

  /** The actions of a request handled by itself; after a hit those that follow `Ask` are out of turn. */
  function Script(req: Request, w: World): seq<Action> {
    if StopsAtDoor(req, w.setting) then [] else [Ask(0, req, w.setting.asked)] + OpenScript(req, w)
  }

  function FreshResponse(req: Request, a: Answer): Response {
    var r := a.reply;
    Response(ConversationOf(req, a), r.content.GetOr(""), r.model.GetOr(""), r.provider,
             r.inputTokens, r.outputTokens, CostOf(r), r.toolCalls, false)
  }

  /** A cached answer without a model cannot be put in a response, which needs one; tool calls are not cached. */
  function CachedResponse(c: Cached): Result<Response, ChatError> {
    if c.model.None? then Failure(InvalidResponse)
    else Success(Response(c.conversation, c.content, c.model.value, c.provider,
                          c.inputTokens, c.outputTokens, c.cost, None, true))
  }

  /** The service's result for one request, by the cache it finds. */
  function Outcome(cache: Cache, req: Request, w: World): Result<Response, ChatError> {
    if IsBlocked(req, w.setting) then Failure(Blocked)
    else if StopsAtDoor(req, w.setting) then Failure(StoreFailed)
    else if Hit(cache, req, w.setting.asked).Some? then CachedResponse(Hit(cache, req, w.setting.asked).value)
    else Fresh(req, w)
  }

  /** The result of a request that is not served from the cache. */
  function Fresh(req: Request, w: World): Result<Response, ChatError> {
    if StopsOpening(req, w.setting) then Failure(StoreFailed)
    else if w.reply.Failure? then Failure(RouteFailed(w.reply.error))
    else
      var error := StoringError(req, w.reply.value, w.setting);
      if error.Some? then Failure(error.value) else Success(FreshResponse(req, w.Answered()))
  }

  lemma PlusNothing(t: Tables)
    ensures t.Plus(NO_ROWS) == t && NO_ROWS.Plus(t) == t
  {
    assert t.conversations + [] == t.conversations && t.messages + [] == t.messages && t.usage + [] == t.usage;
    assert [] + t.conversations == t.conversations && [] + t.messages == t.messages && [] + t.usage == t.usage;
  }

  lemma PlusJoins(a: Tables, b: Tables, c: Tables)
    ensures a.Plus(b).Plus(c) == a.Plus(b.Plus(c))
  {
    assert (a.conversations + b.conversations) + c.conversations == a.conversations + (b.conversations + c.conversations);
    assert (a.messages + b.messages) + c.messages == a.messages + (b.messages + c.messages);
    assert (a.usage + b.usage) + c.usage == a.usage + (b.usage + c.usage);
  }

  lemma OpeningParts(req: Request, n: string)
    ensures ConversationRows(req, n).Plus(ClientRows(req, n)) ==
            OpeningRows(req, ConversationFor(req, n))
  {
  }

  lemma ReplyParts(req: Request, a: Answer)
    ensures UsageRows(req, a).Plus(MessageRows(req, a)) == ReplyRows(req, a)
  {
  }

  // ---- A request handled by itself ----

  lemma RunCons(s: State, a: Action, rest: seq<Action>)
    ensures Run(s, [a] + rest) == Run(Step(s, a), rest)
  {
    assert ([a] + rest)[1..] == rest;
  }

  lemma RunOne(s: State, a: Action)
    ensures Run(s, [a]) == Step(s, a)
  {
    assert [a][1..] == [];
    assert Run(Step(s, a), []) == Step(s, a);
  }

  predicate NoneAsks(actions: seq<Action>) {
    forall a <- actions :: !a.Ask?
  }

  /** With no flight open nothing but a new request does anything. */
  lemma {:induction false} NothingOpen(s: State, actions: seq<Action>)
    requires s.flights == map[] && NoneAsks(actions)
    ensures Run(s, actions) == s
    decreases actions
  {
    if actions != [] {
      assert !actions[0].Ask?;
      NothingOpen(s, actions[1..]);
    }
  }

  /** The state in which one chat is in flight. */
  function Alone(s: State, f: Flight): State {
    s.(flights := map[0 := f])
  }

  predicate Advances(a: Action) {
    a.id == 0 && (a.Begin? || a.StoreClient? || a.Reach? || a.StoreUsage? || a.StoreReply?)
  }

  lemma StepAlone(s: State, f: Flight, a: Action)
    requires Advances(a)
    ensures Step(Alone(s, f), a) == Alone(s, Advance(f, a))
  {
    assert map[0 := f][0 := Advance(f, a)] == map[0 := Advance(f, a)];
  }

  lemma AbortAlone(s: State, f: Flight)
    ensures Run(Alone(s, f), [Abort(0)]) == s.(flights := map[])
  {
    RunOne(Alone(s, f), Abort(0));
    assert map[0 := f] - {0} == map[];
  }

  lemma EndAlone(s: State, f: Flight, w: World)
    requires CanCommit(f)
    ensures
      var t := Run(Alone(s, f), EndScript(w));
      && t.cache == s.cache
      && t.tables == if w.Fails(AtCommit) then s.tables else s.tables.Plus(f.pending)
  {
    RunOne(Alone(s, f), EndScript(w)[0]);
  }

  lemma KeepAlone(s: State, f: Flight, w: World)
    requires w.reply.Success? && f.stage == ReplyStored(w.Answered())
    ensures
      var t := Run(Alone(s, f), KeepScript(f.req, w));
      var keeps, fit := Keeps(f.req, w.reply.value), Presentable(w.reply.value);
      && t.cache == (if fit && keeps && !w.Fails(CacheSet) then Stored(s.cache, f.req, w.Answered(), w.setting.stored) else s.cache)
      && t.tables == (if !fit || w.Fails(AtCommit) || (keeps && w.Fails(CacheSet)) then s.tables else s.tables.Plus(f.pending))
  {
    if !Presentable(w.reply.value) {
      AbortAlone(s, f);
    } else if !Keeps(f.req, w.reply.value) {
      EndAlone(s, f, w);
    } else if w.Fails(CacheSet) {
      AbortAlone(s, f);
    } else {
      RunCons(Alone(s, f), Keep(0, w.setting.stored), EndScript(w));
      KeepsAlone(s, f, w.setting.stored);
      EndAlone(AfterKeep(s, f, w.setting.stored), f.(stage := AnswerKept(w.Answered())), w);
    }
  }

  function AfterKeep(s: State, f: Flight, at: real): State
    requires f.stage.ReplyStored?
  {
    s.(cache := Stored(s.cache, f.req, f.stage.answer, at), notes := s.notes + [Kept(f.req, f.stage.answer, at)])
  }

  lemma KeepsAlone(s: State, f: Flight, at: real)
    requires CanKeep(f)
    ensures Step(Alone(s, f), Keep(0, at)) == Alone(AfterKeep(s, f, at), f.(stage := AnswerKept(f.stage.answer)))
  {
    var f' := f.(stage := AnswerKept(f.stage.answer));
    assert map[0 := f][0 := f'] == map[0 := f'];
  }

  /** What a request that has opened its conversation leaves, with the rows `before` pending. */
  ghost predicate Leaves(t: State, s: State, req: Request, w: World, before: Tables) {
    var ok := Fresh(req, w).Success?;
    && t.cache == (if ok && Keeps(req, w.reply.value) then Stored(s.cache, req, w.Answered(), w.setting.stored) else s.cache)
    && t.tables == (if ok && !w.Fails(AtCommit) then s.tables.Plus(before.Plus(ReplyRows(req, w.Answered()))) else s.tables)
  }

  lemma ReplyAlone(s: State, f: Flight, w: World)
    requires f.stage == Opened(w.setting.newConversation) && !StopsOpening(f.req, w.setting)
    ensures Leaves(Run(Alone(s, f), ReplyScript(f.req, w)), s, f.req, w, f.pending)
  {
    if w.reply.Failure? {
      AbortAlone(s, f);
      return;
    }
    var a := w.Answered();
    var reach := Reach(0, w.reply.value, w.setting.latencyMs, w.setting.createdAt);
    var f1 := Advance(f, reach);
    StepAlone(s, f, reach);
    RunCons(Alone(s, f), reach, ReplyScript(f.req, w)[1..]);
    assert ReplyScript(f.req, w) == [reach] + ReplyScript(f.req, w)[1..];
    if w.Fails(UsageRecord) {
      assert ReplyScript(f.req, w)[1..] == [Abort(0)];
      AbortAlone(s, f1);
      return;
    }
    StoresReply(s, f1, w);
  }

  /** The rows before, the usage and the reply. */
  lemma RowsComplete(before: Tables, req: Request, a: Answer)
    ensures before.Plus(UsageRows(req, a)).Plus(MessageRows(req, a)) == before.Plus(ReplyRows(req, a))
  {
    PlusJoins(before, UsageRows(req, a), MessageRows(req, a));
    ReplyParts(req, a);
  }

  lemma StoresReply(s: State, f: Flight, w: World)
    requires w.reply.Success? && f.stage == Replied(w.Answered()) && !StopsOpening(f.req, w.setting) && !w.Fails(UsageRecord)
    ensures ReplyScript(f.req, w) != [] && Leaves(Run(Alone(s, f), ReplyScript(f.req, w)[1..]), s, f.req, w, f.pending)
  {
    var rest := if w.Fails(ReplyMessage) then [Abort(0)] else [StoreReply(0)] + KeepScript(f.req, w);
    var f1 := Advance(f, StoreUsage(0));
    assert ReplyScript(f.req, w)[1..] == [StoreUsage(0)] + rest;
    StepAlone(s, f, StoreUsage(0));
    RunCons(Alone(s, f), StoreUsage(0), rest);
    if w.Fails(ReplyMessage) {
      AbortAlone(s, f1);
    } else {
      StoresMessage(s, f1, w, f.pending);
    }
  }

  lemma StoresMessage(s: State, f: Flight, w: World, before: Tables)
    requires w.reply.Success? && f.stage == UsageStored(w.Answered()) && f.pending == before.Plus(UsageRows(f.req, w.Answered()))
    requires !StopsOpening(f.req, w.setting) && !w.Fails(UsageRecord) && !w.Fails(ReplyMessage)
    ensures Leaves(Run(Alone(s, f), [StoreReply(0)] + KeepScript(f.req, w)), s, f.req, w, before)
  {
    var f1 := Advance(f, StoreReply(0));
    StepAlone(s, f, StoreReply(0));
    RunCons(Alone(s, f), StoreReply(0), KeepScript(f.req, w));
    RowsComplete(before, f.req, w.Answered());
    KeepAlone(s, f1, w);
  }

  /** One that is not served from the cache, whatever fails on its way. */
  lemma MissAlone(s: State, req: Request, w: World)
    requires s.flights == map[] && Hit(s.cache, req, w.setting.asked).None? && !StopsAtDoor(req, w.setting)
    ensures
      var t := Run(s, Script(req, w));
      var ok := Fresh(req, w).Success?;
      && t.cache == (if ok && Keeps(req, w.reply.value) then Stored(s.cache, req, w.Answered(), w.setting.stored) else s.cache)
      && t.tables == (if ok && !w.Fails(AtCommit) then s.tables.Plus(RowsOf(req, w.Answered())) else s.tables)
  {
    var n, f := w.setting.newConversation, Flight(req, Missed, NO_ROWS);
    RunCons(s, Ask(0, req, w.setting.asked), OpenScript(req, w));
    assert map[][0 := f] == map[0 := f];
    assert Step(s, Ask(0, req, w.setting.asked)) == Alone(s, f);
    if w.Fails(ConversationRow) {
      AbortAlone(s, f);
    } else {
      var rest := if req.messages != [] && w.Fails(ClientMessage) then [Abort(0)] else [StoreClient(0)] + ReplyScript(req, w);
      var f1 := Advance(f, Begin(0, n));
      StepAlone(s, f, Begin(0, n));
      RunCons(Alone(s, f), Begin(0, n), rest);
      if req.messages != [] && w.Fails(ClientMessage) {
        AbortAlone(s, f1);
      } else {
        OpensAlone(s, f1, w);
      }
    }
  }

  lemma OpensAlone(s: State, f: Flight, w: World)
    requires f.stage == Begun(w.setting.newConversation) && !StopsOpening(f.req, w.setting)
    requires f.pending == NO_ROWS.Plus(ConversationRows(f.req, w.setting.newConversation))
    ensures
      var t := Run(Alone(s, f), [StoreClient(0)] + ReplyScript(f.req, w));
      Leaves(t, s, f.req, w, OpeningRows(f.req, ConversationFor(f.req, w.setting.newConversation)))
  {
    var n := w.setting.newConversation;
    var f1 := Advance(f, StoreClient(0));
    StepAlone(s, f, StoreClient(0));
    RunCons(Alone(s, f), StoreClient(0), ReplyScript(f.req, w));
    PlusNothing(ConversationRows(f.req, n));
    OpeningParts(f.req, n);
    ReplyAlone(s, f1, w);
  }

  lemma NoneAsksCons(a: Action, rest: seq<Action>)
    requires !a.Ask? && NoneAsks(rest)
    ensures NoneAsks([a] + rest)
  {
  }

  lemma ReplyAsksNot(req: Request, w: World)
    ensures NoneAsks(ReplyScript(req, w))
  {
    if w.reply.Success? && !w.Fails(UsageRecord) {
      var rest := if w.Fails(ReplyMessage) then [Abort(0)] else [StoreReply(0)] + KeepScript(req, w);
      if !w.Fails(ReplyMessage) {
        NoneAsksCons(StoreReply(0), KeepScript(req, w));
      }
      NoneAsksCons(StoreUsage(0), rest);
    }
  }

  lemma ScriptAsksOnce(req: Request, w: World)
    ensures NoneAsks(OpenScript(req, w))
  {
    if !StopsOpening(req, w.setting) {
      ReplyAsksNot(req, w);
      NoneAsksCons(StoreClient(0), ReplyScript(req, w));
      NoneAsksCons(Begin(0, w.setting.newConversation), [StoreClient(0)] + ReplyScript(req, w));
    }
  }

  /** One that is served from the cache, or stops before it looks there. */
  lemma HitAlone(s: State, req: Request, w: World)
    requires s.flights == map[] && (Hit(s.cache, req, w.setting.asked).Some? || StopsAtDoor(req, w.setting))
    ensures
      var t := Run(s, Script(req, w));
      t.tables == s.tables && t.cache == s.cache
  {
    if !StopsAtDoor(req, w.setting) {
      RunCons(s, Ask(0, req, w.setting.asked), OpenScript(req, w));
      ScriptAsksOnce(req, w);
      NothingOpen(Step(s, Ask(0, req, w.setting.asked)), OpenScript(req, w));
    }
  }

  /** The service and the session it is given; the session's rows are pending until it commits. */
  class ChatService {
    const router: Router.ModalityRouter
    var tables: Tables
    var pending: Tables
    var cache: Cache

    constructor (router: Router.ModalityRouter)
      ensures this.router == router && tables == NO_ROWS && pending == NO_ROWS && cache == map[]
    {
      this.router := router;
      tables, pending, cache := NO_ROWS, NO_ROWS, map[];
    }

    /** The world of a request: what the router replies depends on the index and the statistics. */
    ghost function WorldOf(req: Request, g: Setting): World
      reads if router.ranker == null then {} else {router.ranker.redis}
    {
      World(g, ReplyOf(Routed(Listed(router.capabilityMap, CHAT), router.StatsView(), req, g)))
    }

    method Add(rows: Tables)
      modifies `pending
      ensures pending == old(pending).Plus(rows)
    {
      pending := pending.Plus(rows);
    }

    /** Get or create the conversation, then store the client's last message in it. */
    method Open(req: Request, g: Setting) returns (conversation: Option<string>)
      requires pending == NO_ROWS
      modifies `pending
      ensures conversation.None? <==> ConversationRow in g.fails || (req.messages != [] && ClientMessage in g.fails)
      ensures conversation.Some? ==>
        && conversation.value == ConversationFor(req, g.newConversation)
        && pending == OpeningRows(req, conversation.value)
    {
      if ConversationRow in g.fails {
        return None;
      }
      var id := req.conversation.GetOr("");
      if id == "" {
        id := g.newConversation;
        Add(Tables([(id, req.user)], [], []));
      }
      if req.messages != [] {
        if ClientMessage in g.fails {
          return None;
        }
        Add(Tables([], [ClientRow(id, req.messages[|req.messages| - 1])], []));
      }
      return Some(id);
    }

    /** Record the usage, store the reply, build the response, and keep the answer in the cache if it may be kept. */
    method StoreReply(req: Request, a: Answer, g: Setting, isCacheable: bool) returns (error: Option<ChatError>)
      requires isCacheable == IsCacheable(req)
      modifies `pending, `cache
      ensures error == StoringError(req, a.reply, g)
      ensures cache == if error.None? && Keeps(req, a.reply) then Stored(old(cache), req, a, g.stored) else old(cache)
      ensures error.None? ==> pending == old(pending).Plus(ReplyRows(req, a))
    {
      if UsageRecord in g.fails {
        return Some(StoreFailed);
      }
      Add(Tables([], [], [UsageOf(req, a)]));
      if ReplyMessage in g.fails {
        return Some(StoreFailed);
      }
      Add(Tables([], [ReplyRow(ConversationOf(req, a), a.reply)], []));
      assert pending == old(pending).Plus(ReplyRows(req, a)) by {
        assert old(pending).conversations + [] + [] == old(pending).conversations + [];
      }
      if !Presentable(a.reply) {
        return Some(InvalidResponse);
      }
      if isCacheable && a.reply.content.GetOr("") != "" {
        if CacheSet in g.fails {
          return Some(StoreFailed);
        }
        cache := cache[AnsweredKey(req, a.reply) := Held(CachedOf(req, a), At(g.stored + CACHE_TTL))];
      }
      return None;
    }

    /** Ask the router, then store its reply: everything after the conversation is open. */
    method Generate(req: Request, g: Setting, isCacheable: bool) returns (r: Result<Response, ChatError>)
      requires isCacheable == IsCacheable(req) && !StopsOpening(req, g)
      modifies `pending, `cache, if router.ranker == null then {} else {router.ranker.redis}
      ensures router.StatsView() == Rated(Listed(router.capabilityMap, CHAT), old(router.StatsView()), req, g, true)
      ensures
        var w := old(WorldOf(req, g));
        && r == Fresh(req, w)
        && cache == (if r.Success? && Keeps(req, w.reply.value) then Stored(old(cache), req, w.Answered(), g.stored) else old(cache))
        && (r.Success? ==> pending == old(pending).Plus(ReplyRows(req, w.Answered())))
    {
      var f := router.RouteRequest(g.routing, RoutedAs(req, g));
      var reply := ReplyOf(f);
      if reply.Failure? {
        return Failure(RouteFailed(reply.error));
      }
      var a := Answer(reply.value, g.newConversation, g.latencyMs, g.createdAt);
      var error := StoreReply(req, a, g, isCacheable);
      if error.Some? {
        return Failure(error.value);
      }
      r := Success(FreshResponse(req, a));
    }

    /** The guard, and the cached answer if there is one. */
    method Guarded(req: Request, g: Setting) returns (r: Option<Result<Response, ChatError>>)
      ensures r.Some? <==> StopsAtDoor(req, g) || Hit(cache, req, g.asked).Some?
      ensures r.Some? ==> forall w: World | w.setting == g :: r.value == Outcome(cache, req, w)
    {
      if req.messages != [] && req.messages[|req.messages| - 1].content != "" {
        if g.blocked {
          return Some(Failure(Blocked));
        }
      }
      var isCacheable := !req.stream && req.temperature == 0.0 && !req.bypassCache;
      if isCacheable {
        if CacheGet in g.fails {
          return Some(Failure(StoreFailed));
        }
        var cached := CacheCell(cache, AskedKey(req)).Get(g.asked);
        if cached.Some? {
          return Some(CachedResponse(cached.value));
        }
      }
      return None;
    }

    /** A request that is not served from the cache. */
    method Uncached(req: Request, g: Setting) returns (r: Result<Response, ChatError>)
      requires pending == NO_ROWS
      modifies `pending, `cache, if router.ranker == null then {} else {router.ranker.redis}
      ensures router.StatsView() == Rated(Listed(router.capabilityMap, CHAT), old(router.StatsView()), req, g, !StopsOpening(req, g))
      ensures
        var w := old(WorldOf(req, g));
        && r == Fresh(req, w)
        && cache == (if r.Success? && Keeps(req, w.reply.value) then Stored(old(cache), req, w.Answered(), g.stored) else old(cache))
        && (r.Success? ==> pending == RowsOf(req, w.Answered()))
    {
      var conversation := Open(req, g);
      if conversation.None? {
        return Failure(StoreFailed);
      }
      r := Generate(req, g, IsCacheable(req));
    }

    /** Everything from the guard to the response; the transaction is the caller's. */
    method Chat(req: Request, g: Setting) returns (r: Result<Response, ChatError>)
      requires pending == NO_ROWS
      modifies `pending, `cache, if router.ranker == null then {} else {router.ranker.redis}
      ensures router.StatsView() ==
              Rated(Listed(router.capabilityMap, CHAT), old(router.StatsView()), req, g, AsksRouter(old(cache), req, g))
      ensures r == Outcome(old(cache), req, old(WorldOf(req, g)))
      ensures
        var w := old(WorldOf(req, g));
        && cache == (if r.Success? && !r.value.cached && Keeps(req, w.reply.value)
                     then Stored(old(cache), req, w.Answered(), g.stored) else old(cache))
        && (r.Success? ==> pending == if r.value.cached then NO_ROWS else RowsOf(req, w.Answered()))
    {
      var early := Guarded(req, g);
      if early.Some? {
        return early.value;
      }
      r := Uncached(req, g);
    }

    /** One request through `get_session`: commit what the service wrote, or roll it back. */
    method Handle(req: Request, g: Setting) returns (r: Result<Response, ChatError>)
      requires pending == NO_ROWS
      modifies this, if router.ranker == null then {} else {router.ranker.redis}
      ensures pending == NO_ROWS
      ensures router.StatsView() ==
              Rated(Listed(router.capabilityMap, CHAT), old(router.StatsView()), req, g, AsksRouter(old(cache), req, g))
      ensures
        var w := old(WorldOf(req, g));
        && r == (if Outcome(old(cache), req, w).Success? && w.Fails(AtCommit) then Failure(StoreFailed)
                 else Outcome(old(cache), req, w))
        && var s := Run(State(old(tables), old(cache), map[], []), Script(req, w));
           tables == s.tables && cache == s.cache
    {
      ghost var w := WorldOf(req, g);
      ghost var before := State(tables, cache, map[], []);
      if StopsAtDoor(req, g) || Hit(cache, req, g.asked).Some? {
        HitAlone(before, req, w);
      } else {
        MissAlone(before, req, w);
      }
      r := Chat(req, g);
      if r.Success? && AtCommit in g.fails {
        r := Failure(StoreFailed);
      } else if r.Success? {
        tables := tables.Plus(pending);
        PlusNothing(old(tables));
      }
      pending := NO_ROWS;
    }
  }
}

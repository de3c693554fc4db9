/** The provider keys of all users and the in-process cache of decrypted ones. */
module KeyService {
  import opened Wrappers

  /** The text of a UUID, which has no colon. */
  type UserId = s: string | ':' !in s witness ""

  /** Authenticated encryption as an inverse pair: a fresh nonce for every encryption. */
  datatype Cipher = Cipher(plain: string, nonce: int)

  function Encrypt(plain: string, nonce: int): Cipher { Cipher(plain, nonce) }
  function Decrypt(c: Cipher): string { c.plain }

  datatype ApiKey = ApiKey(id: int, user: UserId, provider: string, encrypted: Cipher, isValid: bool)

  datatype KeyError = ProviderKeyMissing | MultipleResults

  /** A plaintext and when it was cached. */
  datatype Entry = Entry(value: string, inserted: real) {
    predicate Live(now: real) { now < inserted + CACHE_SECONDS }
  }

  const CACHE_SECONDS := 60.0
  const CACHE_SIZE := 2000

  function CacheKey(user: UserId, provider: string): string {
    user + ":" + provider
  }

  predicate HasPrefix(key: string, prefix: string) {
    |prefix| <= |key| && key[..|prefix|] == prefix
  }

  /** The colon ends the user's part: keys are injective and a prefix names one user. */
  lemma CacheKeysInjective(u: UserId, p: string, v: UserId, q: string)
    ensures CacheKey(u, p) == CacheKey(v, q) <==> u == v && p == q
    ensures HasPrefix(CacheKey(u, p), v + ":") <==> u == v
  {
    var k, l, prefix := CacheKey(u, p), CacheKey(v, q), v + ":";
    FirstColon(u, p);
    FirstColon(v, q);
    if HasPrefix(k, prefix) {
      assert k[|v|] == prefix[|v|] == ':' && k[..|v|] == prefix[..|v|] == v;
      assert forall i | 0 <= i < |v| :: k[i] == k[..|v|][i] == v[i];
      assert forall i | 0 <= i < |v| :: v[i] != ':';
    }
    if k == l {
      assert HasPrefix(k, prefix);
      assert p == k[|u| + 1..] && q == l[|v| + 1..];
    }
  }

  lemma FirstColon(u: UserId, p: string)
    ensures CacheKey(u, p)[|u|] == ':' && CacheKey(u, p)[..|u|] == u && CacheKey(u, p)[|u| + 1..] == p
    ensures forall i | 0 <= i < |u| :: CacheKey(u, p)[i] != ':'
  {
    forall i | 0 <= i < |u| ensures CacheKey(u, p)[i] != ':' {
      assert u[i] in u;
    }
  }

  // ---- The key table ----

  function Matching(rows: seq<ApiKey>, user: UserId, provider: string): seq<ApiKey> {
    if rows == [] then []
    else if rows[0].user == user && rows[0].provider == provider && rows[0].isValid then
      [rows[0]] + Matching(rows[1..], user, provider)
    else Matching(rows[1..], user, provider)
  }

  /** What the table alone answers: the one valid row of the user and provider, decrypted. */
  function Direct(rows: seq<ApiKey>, user: UserId, provider: string): Result<string, KeyError> {
    var found := Matching(rows, user, provider);
    if found == [] then Failure(ProviderKeyMissing)
    else if |found| > 1 then Failure(MultipleResults)
    else Success(Decrypt(found[0].encrypted))
  }

  /** `DELETE ... WHERE id = :id AND user_id = :user`. */
  function Deleted(rows: seq<ApiKey>, id: int, user: UserId): seq<ApiKey> {
    if rows == [] then []
    else if rows[0].id == id && rows[0].user == user then Deleted(rows[1..], id, user)
    else [rows[0]] + Deleted(rows[1..], id, user)
  }

  // ---- Cache operations ----

  function LiveKeys(cache: map<string, Entry>, now: real): set<string> {
    set k | k in cache && cache[k].Live(now)
  }

  /** The other keys that are live when `key` is set. */
  function LiveOthers(cache: map<string, Entry>, key: string, now: real): set<string> {
    LiveKeys(cache, now) - {key}
  }

  /**
   Setting an item drops expired entries and, when those left fill the cache, evicts one;
   the choice is the cache library's.
   */
  ghost predicate ItemSet(cache: map<string, Entry>, key: string, value: string, now: real, cache': map<string, Entry>) {
    && key in cache' && cache'[key] == Entry(value, now)
    && (forall k | k in cache' && k != key :: k in cache && cache[k].Live(now) && cache'[k] == cache[k])
    && (|cache| <= CACHE_SIZE ==>
          |cache'| == if |LiveOthers(cache, key, now)| < CACHE_SIZE then |LiveOthers(cache, key, now)| + 1 else CACHE_SIZE)
  }

  // ---- What the operations do ----

  datatype State = State(rows: seq<ApiKey>, cache: map<string, Entry>)

  datatype Action =
    | Add(key: ApiKey)
    | Delete(id: int, user: UserId)
    | Get(who: UserId, provider: string, answer: Result<string, KeyError>)
    | Evict

  /** One operation of the service at a time, or an eviction by the cache itself. */
  ghost predicate Next(s: State, a: Action, at: real, s': State) {
    match a
    case Add(key) =>
      s' == State(s.rows + [key], s.cache - {CacheKey(key.user, key.provider)})
    case Delete(id, user) =>
      s' == State(Deleted(s.rows, id, user),
                  s.cache - (set k | k in LiveKeys(s.cache, at) && HasPrefix(k, user + ":")))
    case Get(user, provider, answer) =>
      var key := CacheKey(user, provider);
      && s'.rows == s.rows
      && if key in s.cache && s.cache[key].Live(at) then
           answer == Success(s.cache[key].value) && s'.cache == s.cache
         else
           && answer == Direct(s.rows, user, provider)
           && (if answer.Success? then ItemSet(s.cache, key, answer.value, at, s'.cache) else s'.cache == s.cache)
    case Evict =>
      s'.rows == s.rows && forall k | k in s'.cache :: k in s.cache && s'.cache[k] == s.cache[k]
  }

  class Service {
    var rows: seq<ApiKey>
    var cache: map<string, Entry>

    constructor ()
      ensures View() == State([], map[])
    {
      rows, cache := [], map[];
    }

    ghost function View(): State
      reads this
    {
      State(rows, cache)
    }

    method AddKey(user: UserId, provider: string, apiKey: string, id: int, nonce: int, now: real)
      modifies this
      ensures Next(old(View()), Add(ApiKey(id, user, provider, Encrypt(apiKey, nonce), true)), now, View())
    {
      rows := rows + [ApiKey(id, user, provider, Encrypt(apiKey, nonce), true)];
      cache := cache - {CacheKey(user, provider)};
    }

    /** Drops every live entry of the user and no other. */
    method InvalidateUserCache(user: UserId, now: real)
      modifies this`cache
      ensures cache == old(cache) - (set k | k in LiveKeys(old(cache), now) && HasPrefix(k, user + ":"))
    {
      var prefix := user + ":";
      var toRemove := set k | k in LiveKeys(cache, now) && HasPrefix(k, prefix);
      ghost var all := toRemove;
      while toRemove != {}
        invariant toRemove <= all
        invariant cache == old(cache) - (all - toRemove)
        decreases toRemove
      {
        var k :| k in toRemove;
        cache := cache - {k};
        toRemove := toRemove - {k};
      }
    }

    method DeleteKey(id: int, user: UserId, now: real) returns (deleted: bool)
      modifies this
      ensures Next(old(View()), Delete(id, user), now, View())
      ensures deleted <==> exists r <- old(rows) :: Names(id, user, r)
    {
      InvalidateUserCache(user, now);
      var before := |rows|;
      rows := Deleted(rows, id, user);
      DeletedFewer(old(rows), id, user);
      deleted := |rows| < before;
    }

    method SetItem(key: string, value: string, now: real)
      modifies this`cache
      ensures ItemSet(old(cache), key, value, now, cache)
    {
      var kept := map k | k in LiveKeys(cache, now) && k != key :: cache[k];
      assert kept.Keys <= cache.Keys;
      SubsetSize(kept.Keys, cache.Keys);
      assert kept.Keys == LiveOthers(cache, key, now);
      if |kept| >= CACHE_SIZE {
        var victim :| victim in kept;
        kept := kept - {victim};
      }
      cache := kept[key := Entry(value, now)];
    }

    method GetDecryptedKey(user: UserId, provider: string, now: real) returns (r: Result<string, KeyError>)
      modifies this`cache
      ensures Next(old(View()), Get(user, provider, r), now, View())
    {
      var key := CacheKey(user, provider);
      if key in cache && cache[key].Live(now) {
        return Success(cache[key].value);
      }
      var found := Matching(rows, user, provider);
      if found == [] {
        return Failure(ProviderKeyMissing);
      }
      if |found| > 1 {
        return Failure(MultipleResults);
      }
      var decrypted := Decrypt(found[0].encrypted);
      SetItem(key, decrypted, now);
      return Success(decrypted);
    }
  }

  /** The rows that a deletion names. */
  predicate Names(id: int, user: UserId, r: ApiKey) {
    r.id == id && r.user == user
  }

  /** Those go, every other row stays as often as it was there. */
  lemma {:induction false} DeletedRows(rows: seq<ApiKey>, id: int, user: UserId, r: ApiKey)
    ensures multiset(Deleted(rows, id, user))[r] == if Names(id, user, r) then 0 else multiset(rows)[r]
    decreases rows
  {
    if rows != [] {
      DeletedRows(rows[1..], id, user, r);
      assert rows == [rows[0]] + rows[1..];
    }
  }

  /** The rest keep their order. */
  lemma {:induction false} DeletedJoins(a: seq<ApiKey>, b: seq<ApiKey>, id: int, user: UserId)
    ensures Deleted(a + b, id, user) == Deleted(a, id, user) + Deleted(b, id, user)
    decreases a
  {
    if a == [] {
      assert a + b == b;
    } else {
      assert (a + b)[1..] == a[1..] + b;
      DeletedJoins(a[1..], b, id, user);
    }
  }

  /** Fewer rows are left exactly if some row is named. */
  lemma {:induction false} DeletedFewer(rows: seq<ApiKey>, id: int, user: UserId)
    ensures |Deleted(rows, id, user)| <= |rows|
    ensures |Deleted(rows, id, user)| < |rows| <==> exists r <- rows :: Names(id, user, r)
    decreases rows
  {
    if rows != [] {
      DeletedFewer(rows[1..], id, user);
      assert rows[0] in rows && forall r :: r in rows <==> r == rows[0] || r in rows[1..];
    }
  }
}

/** The cache is invisible when operations are atomic, and how stale it can be when not. */
module KeyCoherence {
  import opened Wrappers
  import opened KeyService

  // ---- Atomic operations ----

  /** Every live entry decrypts the single valid row of its user and provider. */
  ghost predicate Coherent(s: State, now: real) {
    forall k | k in s.cache && s.cache[k].Live(now) ::
      exists u: UserId, p :: k == CacheKey(u, p) && Direct(s.rows, u, p) == Success(s.cache[k].value)
  }

  lemma {:induction false} MatchingAppend(rows: seq<ApiKey>, key: ApiKey, u: UserId, p: string)
    requires key.user != u || key.provider != p
    ensures Matching(rows + [key], u, p) == Matching(rows, u, p)
    decreases rows
  {
    if rows == [] {
      assert ([] + [key])[1..] == [];
    } else {
      assert (rows + [key])[1..] == rows[1..] + [key];
      MatchingAppend(rows[1..], key, u, p);
    }
  }

  lemma {:induction false} MatchingAdded(rows: seq<ApiKey>, key: ApiKey)
    requires key.isValid
    ensures Matching(rows + [key], key.user, key.provider) == Matching(rows, key.user, key.provider) + [key]
    decreases rows
  {
    if rows == [] {
      assert [] + [key] == [key] && [key][1..] == [];
    } else {
      assert (rows + [key])[1..] == rows[1..] + [key];
      MatchingAdded(rows[1..], key);
    }
  }

  /**
   A key that is added can be used if and only if the user had no valid one for the
   provider: a second one, which the table admits, makes every lookup fail instead.
   */
  lemma AddedKeyUsableIff(rows: seq<ApiKey>, key: ApiKey)
    requires key.isValid
    ensures Direct(rows + [key], key.user, key.provider).Success? <==> Matching(rows, key.user, key.provider) == []
    ensures Matching(rows, key.user, key.provider) == [] ==>
      Direct(rows + [key], key.user, key.provider) == Success(Decrypt(key.encrypted))
    ensures Matching(rows, key.user, key.provider) != [] ==>
      Direct(rows + [key], key.user, key.provider) == Failure(MultipleResults)
  {
    MatchingAdded(rows, key);
  }

  lemma {:induction false} MatchingDeleted(rows: seq<ApiKey>, id: int, user: UserId, u: UserId, p: string)
    requires user != u
    ensures Matching(Deleted(rows, id, user), u, p) == Matching(rows, u, p)
    decreases rows
  {
    if rows != [] {
      MatchingDeleted(rows[1..], id, user, u, p);
      var rest := Deleted(rows[1..], id, user);
      assert ([rows[0]] + rest)[1..] == rest;
    }
  }

  /** A live entry found under the key of `u` and `p` belongs to `u` and `p`. */
  lemma CoherentEntry(s: State, now: real, u: UserId, p: string)
    requires Coherent(s, now) && CacheKey(u, p) in s.cache && s.cache[CacheKey(u, p)].Live(now)
    ensures Direct(s.rows, u, p) == Success(s.cache[CacheKey(u, p)].value)
  {
    var k := CacheKey(u, p);
    var v: UserId, q :| k == CacheKey(v, q) && Direct(s.rows, v, q) == Success(s.cache[k].value);
    CacheKeysInjective(u, p, v, q);
  }

  lemma NextCoherent(s: State, from: real, a: Action, at: real, s': State)
    requires Coherent(s, from) && from <= at && Next(s, a, at, s')
    ensures Coherent(s', at)
    ensures a.Get? ==> a.answer == Direct(s.rows, a.who, a.provider)
  {
    if a.Get? && CacheKey(a.who, a.provider) in s.cache && s.cache[CacheKey(a.who, a.provider)].Live(at) {
      CoherentEntry(s, from, a.who, a.provider);
    }
    forall k | k in s'.cache && s'.cache[k].Live(at)
      ensures exists u: UserId, p :: k == CacheKey(u, p) && Direct(s'.rows, u, p) == Success(s'.cache[k].value)
    {
      if a.Get? && k == CacheKey(a.who, a.provider) {
        assert Direct(s'.rows, a.who, a.provider) == Success(s'.cache[k].value);
      } else {
        assert k in s.cache && s.cache[k].Live(from) && s'.cache[k] == s.cache[k];
        var u: UserId, p :| k == CacheKey(u, p) && Direct(s.rows, u, p) == Success(s.cache[k].value);
        match a {
          case Add(key) =>
            CacheKeysInjective(u, p, key.user, key.provider);
            MatchingAppend(s.rows, key, u, p);
          case Delete(id, user) =>
            CacheKeysInjective(u, p, user, p);
            assert k in LiveKeys(s.cache, at);
            MatchingDeleted(s.rows, id, user, u, p);
          case _ =>
        }
        assert Direct(s'.rows, u, p) == Success(s'.cache[k].value);
      }
    }
  }

  /** A run: each transition, when it happened, and the state it led to. */
  datatype Transition = Transition(action: Action, at: real, after: State)

  ghost predicate Run(s: State, from: real, run: seq<Transition>)
    decreases run
  {
    run != [] ==>
      && from <= run[0].at
      && Next(s, run[0].action, run[0].at, run[0].after)
      && Run(run[0].after, run[0].at, run[1..])
  }

  function RowsBefore(s: State, run: seq<Transition>, n: nat): seq<ApiKey>
    requires n < |run|
  {
    if n == 0 then s.rows else run[n - 1].after.rows
  }

  /**
   In every run of atomic operations the cached service answers each get exactly as the
   table alone would at that moment, missing and ambiguous keys included.
   */
  lemma {:induction false} CacheIsInvisible(s: State, from: real, run: seq<Transition>, n: nat)
    requires Coherent(s, from) && Run(s, from, run) && n < |run| && run[n].action.Get?
    ensures
      var get := run[n].action;
      get.answer == Direct(RowsBefore(s, run, n), get.who, get.provider)
    ensures Coherent(run[n].after, run[n].at)
    decreases n
  {
    NextCoherent(s, from, run[0].action, run[0].at, run[0].after);
    if n > 0 {
      assert RowsBefore(run[0].after, run[1..], n - 1) == RowsBefore(s, run, n);
      CacheIsInvisible(run[0].after, run[0].at, run[1..], n - 1);
    }
  }

  /** So it is from every start of the process, when the cache is empty, whatever the table holds. */
  lemma FreshServiceIsTransparent(rows: seq<ApiKey>, from: real, run: seq<Transition>, n: nat)
    requires Run(State(rows, map[]), from, run) && n < |run| && run[n].action.Get?
    ensures
      var get := run[n].action;
      get.answer == Direct(RowsBefore(State(rows, map[]), run, n), get.who, get.provider)
  {
    assert Coherent(State(rows, map[]), from);
    CacheIsInvisible(State(rows, map[]), from, run, n);
  }

  // ---- What the cache holds ----

  /** Setting an item evicts nothing live while fewer than 2000 others are. */
  lemma NothingEvicted(cache: map<string, Entry>, key: string, value: string, now: real, cache': map<string, Entry>)
    requires ItemSet(cache, key, value, now, cache') && |cache| <= 2000
    ensures |cache'| <= 2000
    ensures |LiveOthers(cache, key, now)| < 2000 ==>
      forall k | k in cache && k != key && cache[k].Live(now) :: k in cache' && cache'[k] == cache[k]
  {
    var others, kept := LiveOthers(cache, key, now), cache'.Keys - {key};
    if |others| < 2000 {
      assert kept <= others && |kept| == |others|;
      SameSize(kept, others);
      forall k | k in cache && k != key && cache[k].Live(now) ensures k in cache' && cache'[k] == cache[k] {
        assert k in others && k in kept;
      }
    }
  }

  lemma SameSize<T>(a: set<T>, b: set<T>)
    requires a <= b && |a| == |b|
    ensures a == b
  {
    SubsetSize(b - a, b);
    assert b == a + (b - a);
    assert |b - a| == 0;
  }

  lemma NextWithinSize(s: State, a: Action, at: real, s': State)
    requires |s.cache| <= 2000 && Next(s, a, at, s')
    ensures |s'.cache| <= 2000
  {
    match a {
      case Get(u, p, answer) =>
        if s'.cache != s.cache {
          NothingEvicted(s.cache, CacheKey(u, p), answer.value, at, s'.cache);
        }
      case _ =>
        assert s'.cache.Keys <= s.cache.Keys;
        SubsetSize(s'.cache.Keys, s.cache.Keys);
    }
  }

  /** In every run the cache holds at most 2000 entries. */
  lemma {:induction false} CacheWithinSize(s: State, from: real, run: seq<Transition>, n: nat)
    requires |s.cache| <= 2000 && Run(s, from, run) && n < |run|
    ensures |run[n].after.cache| <= 2000
    decreases n
  {
    NextWithinSize(s, run[0].action, run[0].at, run[0].after);
    if n > 0 {
      CacheWithinSize(run[0].after, run[0].at, run[1..], n - 1);
    }
  }

  /**
   What a get has read from the table it caches: for 60 seconds the next get of the pair is
   served that, whatever the table then holds, and from then on it reads the table again.
   */
  lemma CachedForAMinute(s: State, u: UserId, p: string, v: string, at: real, s': State,
                         rows: seq<ApiKey>, answer: Result<string, KeyError>, later: real, s'': State)
    requires Next(s, Get(u, p, Success(v)), at, s') && Next(State(rows, s'.cache), Get(u, p, answer), later, s'')
    requires CacheKey(u, p) in s.cache ==> !s.cache[CacheKey(u, p)].Live(at)
    ensures answer == if later < at + 60.0 then Success(v) else Direct(rows, u, p)
  {
  }

  /** Adding a key drops the cached one of its pair, deleting one drops all live ones of its user, and neither touches any other. */
  lemma InvalidatesExactly(s: State, a: Action, at: real, s': State, u: UserId, p: string)
    requires (a.Add? || a.Delete?) && Next(s, a, at, s') && CacheKey(u, p) in s.cache
    ensures CacheKey(u, p) !in s'.cache <==>
      match a
      case Add(key) => key.user == u && key.provider == p
      case Delete(_, user) => user == u && s.cache[CacheKey(u, p)].Live(at)
      case _ => false
    ensures CacheKey(u, p) in s'.cache ==> s'.cache[CacheKey(u, p)] == s.cache[CacheKey(u, p)]
  {
    match a {
      case Add(key) => CacheKeysInjective(u, p, key.user, key.provider);
      case Delete(_, user) => CacheKeysInjective(u, p, user, p);
      case _ =>
    }
  }

  // ---- After a key is deleted ----

  /** The user has no valid key for the provider. */
  predicate Keyless(rows: seq<ApiKey>, u: UserId, p: string) {
    forall r <- rows :: !(r.user == u && r.provider == p && r.isValid)
  }

  lemma {:induction false} KeylessMatches(rows: seq<ApiKey>, u: UserId, p: string)
    ensures Keyless(rows, u, p) <==> Matching(rows, u, p) == []
    decreases rows
  {
    if rows != [] {
      KeylessMatches(rows[1..], u, p);
      assert rows == [rows[0]] + rows[1..];
    }
  }

  /** Deleting the one valid key leaves none. */
  lemma DeletedKeyIsGone(rows: seq<ApiKey>, id: int, u: UserId, p: string)
    requires forall r <- rows :: r.user == u && r.provider == p && r.isValid ==> r.id == id
    ensures Keyless(Deleted(rows, id, u), u, p)
  {
    forall r <- Deleted(rows, id, u) ensures !(r.user == u && r.provider == p && r.isValid) {
      DeletedRows(rows, id, u, r);
      assert multiset(Deleted(rows, id, u))[r] > 0;
      assert r in multiset(rows);
    }
  }

  lemma DeletedKeepsKeyless(rows: seq<ApiKey>, id: int, user: UserId, u: UserId, p: string)
    requires Keyless(rows, u, p)
    ensures Keyless(Deleted(rows, id, user), u, p)
  {
    forall r <- Deleted(rows, id, user) ensures !(r.user == u && r.provider == p && r.isValid) {
      DeletedRows(rows, id, user, r);
      assert multiset(Deleted(rows, id, user))[r] > 0;
      assert r in multiset(rows);
    }
  }

  /** No key is added for the pair before transition `n`. */
  predicate NoneAdded(run: seq<Transition>, n: nat, u: UserId, p: string)
    requires n <= |run|
  {
    forall i | 0 <= i < n && run[i].action.Add? :: !(run[i].action.key.user == u && run[i].action.key.provider == p)
  }

  lemma {:induction false} StaysKeyless(s: State, from: real, run: seq<Transition>, n: nat, u: UserId, p: string)
    requires Run(s, from, run) && n < |run| && NoneAdded(run, n, u, p) && Keyless(s.rows, u, p)
    ensures Keyless(RowsBefore(s, run, n), u, p)
    decreases n
  {
    if n > 0 {
      var t := run[0];
      match t.action {
        case Delete(id, user) => DeletedKeepsKeyless(s.rows, id, user, u, p);
        case _ =>
      }
      assert forall i | 0 <= i < n - 1 :: run[1..][i] == run[i + 1];
      StaysKeyless(t.after, t.at, run[1..], n - 1, u, p);
      assert RowsBefore(t.after, run[1..], n - 1) == RowsBefore(s, run, n);
    }
  }

  /**
   Once the only valid key of a user and provider is deleted, every get of theirs answers
   that it is missing, until another is added.
   */
  lemma DeletedKeyIsMissing(s: State, from: real, run: seq<Transition>, n: nat, u: UserId, p: string)
    requires Coherent(s, from) && Run(s, from, run) && 0 < n < |run|
    requires run[0].action.Delete? && run[0].action.user == u
    requires forall r <- s.rows :: r.user == u && r.provider == p && r.isValid ==> r.id == run[0].action.id
    requires NoneAdded(run, n, u, p) && run[n].action.Get? && run[n].action.who == u && run[n].action.provider == p
    ensures run[n].action.answer == Failure(ProviderKeyMissing)
  {
    var t := run[0];
    DeletedKeyIsGone(s.rows, t.action.id, u, p);
    assert forall i | 0 <= i < n - 1 :: run[1..][i] == run[i + 1];
    StaysKeyless(t.after, t.at, run[1..], n - 1, u, p);
    assert RowsBefore(t.after, run[1..], n - 1) == RowsBefore(s, run, n);
    KeylessMatches(RowsBefore(s, run, n), u, p);
    CacheIsInvisible(s, from, run, n);
  }

  // ---- Operations split at their suspension points ----

  /** A cached value with the position in the run of the table read it came from. */
  datatype Sourced = Sourced(entry: Entry, source: nat)

  /** The visible table, the cache, and the reads whose results are not cached yet. */
  datatype Split = Split(rows: seq<ApiKey>, cache: map<string, Sourced>, pending: map<int, nat>)

  datatype Event =
    | Commit(rows: seq<ApiKey>)                      // the visible table changes in any way
    | Drop(keys: set<string>)                        // invalidation, eviction or expiry
    | Read(call: int, user: UserId, provider: string)  // a get misses and reads the table
    | Store(call: int)                               // that get caches and serves what it read
    | Hit(user: UserId, provider: string)            // a get is served from the cache

  datatype Timed = Timed(event: Event, at: real)

  /** Event number `k` of a run. */
  ghost predicate SplitNext(states: seq<Split>, events: seq<Timed>, k: nat)
    requires k < |events| && |states| == |events| + 1
  {
    var s, s', at := states[k], states[k + 1], events[k].at;
    match events[k].event
    case Commit(rows) => s' == s.(rows := rows)
    case Drop(keys) => s' == s.(cache := s.cache - keys)
    case Read(call, user, provider) =>
      Direct(s.rows, user, provider).Success? && s' == s.(pending := s.pending[call := k])
    case Store(call) =>
      && call in s.pending && s.pending[call] < k && events[s.pending[call]].event.Read?
      && var source := s.pending[call];
         var read := events[source].event;
         var answer := Direct(states[source].rows, read.user, read.provider);
         && answer.Success?
         && s' == Split(s.rows, s.cache[CacheKey(read.user, read.provider) := Sourced(Entry(answer.value, at), source)],
                        s.pending - {call})
    case Hit(user, provider) =>
      && CacheKey(user, provider) in s.cache
      && s.cache[CacheKey(user, provider)].entry.Live(at)
      && s' == s
  }

  ghost predicate SplitRun(states: seq<Split>, events: seq<Timed>) {
    && |states| == |events| + 1
    && states[0].cache == map[] && states[0].pending == map[]
    && (forall j, k | 0 <= j <= k < |events| :: events[j].at <= events[k].at)
    && forall k | 0 <= k < |events| :: SplitNext(states, events, k)
  }

  /** The value under `key` was read by event `source`, before it was cached. */
  ghost predicate SourcedFrom(states: seq<Split>, events: seq<Timed>, k: nat, key: string, e: Sourced)
    requires |states| == |events| + 1 && k <= |events|
  {
    && e.source < k && events[e.source].event.Read?
    && var read := events[e.source].event;
       && key == CacheKey(read.user, read.provider)
       && Direct(states[e.source].rows, read.user, read.provider) == Success(e.entry.value)
       && events[e.source].at <= e.entry.inserted
  }

  lemma {:induction false} CacheIsSourced(states: seq<Split>, events: seq<Timed>, k: nat)
    requires SplitRun(states, events) && k <= |events|
    ensures forall key | key in states[k].cache :: SourcedFrom(states, events, k, key, states[k].cache[key])
  {
    if k > 0 {
      CacheIsSourced(states, events, k - 1);
      assert SplitNext(states, events, k - 1);
      forall key | key in states[k].cache ensures SourcedFrom(states, events, k, key, states[k].cache[key]) {
        var e := states[k].cache[key];
        if key in states[k - 1].cache && e == states[k - 1].cache[key] {
          assert SourcedFrom(states, events, k - 1, key, e);
        }
      }
    }
  }

  /**
   Under any interleaving of split operations, a value served from the cache was inserted
   less than 60 seconds before, from a read of the single valid row that the same user
   had for the same provider when the read was made.
   */
  lemma ServedValueIsRecent(states: seq<Split>, events: seq<Timed>, k: nat) returns (source: nat)
    requires SplitRun(states, events) && k < |events| && events[k].event.Hit?
    ensures
      var hit := events[k].event;
      CacheKey(hit.user, hit.provider) in states[k].cache &&
      var served := states[k].cache[CacheKey(hit.user, hit.provider)].entry;
      && source < k
      && events[source].event.Read?
      && events[source].event.user == hit.user && events[source].event.provider == hit.provider
      && Direct(states[source].rows, hit.user, hit.provider) == Success(served.value)
      && events[source].at <= served.inserted
      && events[k].at < served.inserted + 60.0
  {
    var hit := events[k].event;
    assert SplitNext(states, events, k);
    CacheIsSourced(states, events, k);
    var e := states[k].cache[CacheKey(hit.user, hit.provider)];
    source := e.source;
    var read := events[source].event;
    CacheKeysInjective(hit.user, hit.provider, read.user, read.provider);
  }

  /** Every get caches what it read within `delay` of the read. */
  ghost predicate Prompt(states: seq<Split>, events: seq<Timed>, delay: real)
    requires SplitRun(states, events)
  {
    forall k | 0 <= k < |events| && events[k].event.Store? ::
      assert SplitNext(states, events, k);
      events[k].at <= events[states[k].pending[events[k].event.call]].at + delay
  }

  lemma {:induction false} CachedPromptly(states: seq<Split>, events: seq<Timed>, k: nat, delay: real)
    requires SplitRun(states, events) && Prompt(states, events, delay) && k <= |events|
    ensures forall key | key in states[k].cache ::
      var e := states[k].cache[key];
      e.source < k && e.entry.inserted <= events[e.source].at + delay
  {
    if k > 0 {
      CachedPromptly(states, events, k - 1, delay);
      assert SplitNext(states, events, k - 1);
    }
  }

  /**
   A value the table has not answered with for 60 seconds and the delay of a get is not
   served: a deleted or replaced key dies out of the cache by then.
   */
  lemma StaleValueDies(states: seq<Split>, events: seq<Timed>, j: nat, k: nat, delay: real, stale: string)
    requires SplitRun(states, events) && Prompt(states, events, delay)
    requires j <= k < |events| && events[k].event.Hit? && events[j].at + 60.0 + delay <= events[k].at
    requires
      var hit := events[k].event;
      forall i | j <= i <= k :: Direct(states[i].rows, hit.user, hit.provider) != Success(stale)
    ensures
      var hit := events[k].event;
      CacheKey(hit.user, hit.provider) in states[k].cache
      && states[k].cache[CacheKey(hit.user, hit.provider)].entry.value != stale
  {
    var source := ServedValueIsRecent(states, events, k);
    var hit := events[k].event;
    CachedPromptly(states, events, k, delay);
    CacheIsSourced(states, events, k);
    var e := states[k].cache[CacheKey(hit.user, hit.provider)];
    var read := events[e.source].event;
    CacheKeysInjective(hit.user, hit.provider, read.user, read.provider);
    assert events[e.source].at > events[j].at;
  }

  // ---- When an old answer can still be served ----

  predicate ReadsPair(events: seq<Timed>, k: nat, u: UserId, p: string) {
    k < |events| && events[k].event.Read? && events[k].event.user == u && events[k].event.provider == p
  }

  /** Whatever is cached or about to be cached for the pair was read at `c` or after. */
  ghost predicate ReadSince(s: Split, events: seq<Timed>, c: nat, u: UserId, p: string) {
    && (CacheKey(u, p) in s.cache ==> c <= s.cache[CacheKey(u, p)].source)
    && (forall call | call in s.pending && ReadsPair(events, s.pending[call], u, p) :: c <= s.pending[call])
  }

  lemma {:induction false} StaysReadSince(states: seq<Split>, events: seq<Timed>, c: nat, j: nat, k: nat, u: UserId, p: string)
    requires SplitRun(states, events) && c <= j <= k <= |events| && ReadSince(states[j], events, c, u, p)
    ensures ReadSince(states[k], events, c, u, p)
    decreases k
  {
    if j < k {
      StaysReadSince(states, events, c, j, k - 1, u, p);
      assert SplitNext(states, events, k - 1);
      if events[k - 1].event.Store? {
        var read := events[states[k - 1].pending[events[k - 1].event.call]].event;
        CacheKeysInjective(u, p, read.user, read.provider);
      }
    }
  }

  /** Nothing the table answered for the pair is cached, and no get is about to cache it. */
  ghost predicate Settled(s: Split, events: seq<Timed>, u: UserId, p: string) {
    CacheKey(u, p) !in s.cache && forall call | call in s.pending :: !ReadsPair(events, s.pending[call], u, p)
  }

  /** From a settled state on, every answer served from the cache was read after it. */
  lemma SettledServesNew(states: seq<Split>, events: seq<Timed>, c: nat, k: nat)
    requires SplitRun(states, events) && c <= k < |events| && events[k].event.Hit?
    requires Settled(states[c], events, events[k].event.user, events[k].event.provider)
    ensures CacheKey(events[k].event.user, events[k].event.provider) in states[k].cache
    ensures c <= states[k].cache[CacheKey(events[k].event.user, events[k].event.provider)].source
  {
    assert SplitNext(states, events, k);
    StaysReadSince(states, events, c, c, k, events[k].event.user, events[k].event.provider);
  }

  /** The run goes on to serve the pair an answer read before it got this far. */
  ghost predicate GoesOnToServeOld(states: seq<Split>, events: seq<Timed>, u: UserId, p: string,
                                   states': seq<Split>, events': seq<Timed>) {
    && SplitRun(states', events') && states <= states' && events < events'
    && var k := |events'| - 1;
       && events'[k].event == Hit(u, p)
       && CacheKey(u, p) in states'[k].cache && states'[k].cache[CacheKey(u, p)].source < |events|
  }

  /** A live entry of the pair, or a get that has read its row and not yet cached it. */
  ghost predicate Unsettled(s: Split, events: seq<Timed>, u: UserId, p: string) {
    || (CacheKey(u, p) in s.cache && events != [] && s.cache[CacheKey(u, p)].entry.Live(events[|events| - 1].at))
    || exists call :: call in s.pending && ReadsPair(events, s.pending[call], u, p)
  }

  lemma {:induction false} PendingRead(states: seq<Split>, events: seq<Timed>, k: nat)
    requires SplitRun(states, events) && k <= |events|
    ensures forall call | call in states[k].pending :: PendingFrom(states, events, k, states[k].pending[call])
  {
    if k > 0 {
      PendingRead(states, events, k - 1);
      assert SplitNext(states, events, k - 1);
      forall call | call in states[k].pending ensures PendingFrom(states, events, k, states[k].pending[call]) {
        var source := states[k].pending[call];
        assert source == k - 1 || PendingFrom(states, events, k - 1, source);
      }
    }
  }

  ghost predicate PendingFrom(states: seq<Split>, events: seq<Timed>, k: nat, source: nat)
    requires |states| == |events| + 1 && k <= |events|
  {
    && source < k && events[source].event.Read?
    && Direct(states[source].rows, events[source].event.user, events[source].event.provider).Success?
  }

  /** One more event at the end of a run. */
  lemma Extended(states: seq<Split>, events: seq<Timed>, s: Split, e: Timed)
    requires SplitRun(states, events) && (events != [] ==> events[|events| - 1].at <= e.at)
    requires SplitNext(states + [s], events + [e], |events|)
    ensures SplitRun(states + [s], events + [e])
  {
    forall k | 0 <= k < |events| ensures SplitNext(states + [s], events + [e], k) {
      assert SplitNext(states, events, k);
    }
  }

  lemma HitFollows(states: seq<Split>, events: seq<Timed>, u: UserId, p: string)
    returns (states': seq<Split>, events': seq<Timed>)
    requires SplitRun(states, events) && events != []
    requires CacheKey(u, p) in states[|events|].cache
    requires states[|events|].cache[CacheKey(u, p)].entry.Live(events[|events| - 1].at)
    ensures SplitRun(states', events') && states' == states + [states[|events|]]
    ensures events' == events + [Timed(Hit(u, p), events[|events| - 1].at)]
  {
    states', events' := states + [states[|events|]], events + [Timed(Hit(u, p), events[|events| - 1].at)];
    Extended(states, events, states[|events|], events'[|events|]);
  }

  lemma StoreFollows(states: seq<Split>, events: seq<Timed>, call: int)
    returns (states': seq<Split>, events': seq<Timed>)
    requires SplitRun(states, events) && events != [] && call in states[|events|].pending
    ensures SplitRun(states', events') && states <= states'
    ensures events' == events + [Timed(Store(call), events[|events| - 1].at)]
    ensures
      var source := states[|events|].pending[call];
      && source < |events| && events[source].event.Read?
      && var key := CacheKey(events[source].event.user, events[source].event.provider);
         && key in states'[|events'|].cache
         && states'[|events'|].cache[key].source == source
         && states'[|events'|].cache[key].entry.inserted == events[|events| - 1].at
  {
    PendingRead(states, events, |events|);
    var s, at := states[|events|], events[|events| - 1].at;
    var source := s.pending[call];
    assert PendingFrom(states, events, |events|, source);
    var read := events[source].event;
    var value := Direct(states[source].rows, read.user, read.provider).value;
    var s' := Split(s.rows, s.cache[CacheKey(read.user, read.provider) := Sourced(Entry(value, at), source)], s.pending - {call});
    states', events' := states + [s'], events + [Timed(Store(call), at)];
    Extended(states, events, s', events'[|events|]);
  }

  lemma UnsettledServesOld(states: seq<Split>, events: seq<Timed>, u: UserId, p: string)
    returns (states': seq<Split>, events': seq<Timed>)
    requires SplitRun(states, events) && Unsettled(states[|events|], events, u, p)
    ensures GoesOnToServeOld(states, events, u, p, states', events')
  {
    var s, n := states[|events|], |events|;
    if CacheKey(u, p) in s.cache && events != [] && s.cache[CacheKey(u, p)].entry.Live(events[n - 1].at) {
      CacheIsSourced(states, events, n);
      states', events' := HitFollows(states, events, u, p);
    } else {
      var call :| call in s.pending && ReadsPair(events, s.pending[call], u, p);
      var states1, events1 := StoreFollows(states, events, call);
      states', events' := HitFollows(states1, events1, u, p);
    }
  }

  lemma OldNeedsUnsettled(states: seq<Split>, events: seq<Timed>, u: UserId, p: string, states': seq<Split>, events': seq<Timed>)
    requires SplitRun(states, events) && GoesOnToServeOld(states, events, u, p, states', events')
    ensures Unsettled(states[|events|], events, u, p)
  {
    var c, k := |events|, |events'| - 1;
    var key := CacheKey(u, p);
    assert SplitNext(states', events', k);
    if !Unsettled(states[c], events, u, p) {
      PendingRead(states, events, c);
      assert forall call | call in states[c].pending :: !ReadsPair(events', states'[c].pending[call], u, p);
      ExpiredStays(states', events', c, k, u, p);
    }
  }

  /** With no read of the pair pending, an entry read before `c` can only be the one cached at `c`. */
  lemma {:induction false} ExpiredStays(states: seq<Split>, events: seq<Timed>, c: nat, k: nat, u: UserId, p: string)
    requires SplitRun(states, events) && c <= k <= |events|
    requires forall call | call in states[c].pending :: !ReadsPair(events, states[c].pending[call], u, p)
    ensures
      var key := CacheKey(u, p);
      && (key in states[k].cache && states[k].cache[key].source < c ==>
            key in states[c].cache && states[k].cache[key] == states[c].cache[key])
      && forall call | call in states[k].pending && ReadsPair(events, states[k].pending[call], u, p) :: c <= states[k].pending[call]
    decreases k
  {
    if c < k {
      ExpiredStays(states, events, c, k - 1, u, p);
      assert SplitNext(states, events, k - 1);
      if events[k - 1].event.Store? {
        var read := events[states[k - 1].pending[events[k - 1].event.call]].event;
        CacheKeysInjective(u, p, read.user, read.provider);
      }
    }
  }

  /**
   At any point of any run, such as a committed deletion, the cache can go on to serve the
   pair an answer read before that point if and only if a live entry of the pair or a get
   in the middle of reading it is left over.
   */
  lemma OldAnswerServedIff(states: seq<Split>, events: seq<Timed>, u: UserId, p: string)
    requires SplitRun(states, events)
    ensures (exists states', events' :: GoesOnToServeOld(states, events, u, p, states', events'))
            <==> Unsettled(states[|events|], events, u, p)
  {
    if Unsettled(states[|events|], events, u, p) {
      var states', events' := UnsettledServesOld(states, events, u, p);
    }
    if exists states', events' :: GoesOnToServeOld(states, events, u, p, states', events') {
      var states', events' :| GoesOnToServeOld(states, events, u, p, states', events');
      OldNeedsUnsettled(states, events, u, p, states', events');
    }
  }

  /**
   Deleting a key invalidates the cache first and commits the row's removal later, so a
   get that comes in between, with nothing cached or pending before it, caches the row
   again: whatever the key, it can be served after it is gone.
   */
  lemma DeletedKeyCanBeServed(key: ApiKey) returns (states: seq<Split>, events: seq<Timed>)
    requires key.isValid
    ensures SplitRun(states, events) && |events| == 5 && states[0].rows == [key]
    ensures events[0].event == Drop({CacheKey(key.user, key.provider)}) && Settled(states[1], events, key.user, key.provider)
    ensures events[3].event == Commit([]) && events[4].event == Hit(key.user, key.provider)
    ensures
      && Direct(states[4].rows, key.user, key.provider) == Failure(ProviderKeyMissing)
      && CacheKey(key.user, key.provider) in states[4].cache
      && states[4].cache[CacheKey(key.user, key.provider)].entry.value == Decrypt(key.encrypted)
  {
    var k := CacheKey(key.user, key.provider);
    var cached := map[k := Sourced(Entry(Decrypt(key.encrypted), 0.0), 1)];
    assert [key][1..] == [];
    assert Matching([key], key.user, key.provider) == [key] + Matching([key][1..], key.user, key.provider);
    assert Direct([key], key.user, key.provider) == Success(Decrypt(key.encrypted));
    events := [
      Timed(Drop({k}), 0.0),
      Timed(Read(0, key.user, key.provider), 0.0),
      Timed(Store(0), 0.0),
      Timed(Commit([]), 0.0),
      Timed(Hit(key.user, key.provider), 0.0)];
    states := [
      Split([key], map[], map[]),
      Split([key], map[], map[]),
      Split([key], map[], map[0 := 1]),
      Split([key], cached, map[]),
      Split([], cached, map[]),
      Split([], cached, map[])];
    assert map[0 := 1] - {0} == map[];
    assert SplitNext(states, events, 0) && SplitNext(states, events, 1) && SplitNext(states, events, 2);
    assert SplitNext(states, events, 3) && SplitNext(states, events, 4);
  }

  /**
   With the two steps swapped it could not: when the table changes at `c`, no get of the
   pair is in the middle, and the pair is invalidated at a later `d`, then whatever comes
   in between, every answer served after `d` was read from the changed table.
   */
  lemma InvalidatingLastIsSafe(states: seq<Split>, events: seq<Timed>, c: nat, d: nat, k: nat)
    requires SplitRun(states, events) && c < d < k < |events| && events[k].event.Hit?
    requires events[c].event.Commit? && events[d].event.Drop?
    requires CacheKey(events[k].event.user, events[k].event.provider) in events[d].event.keys
    requires
      var hit := events[k].event;
      forall call | call in states[c].pending :: !ReadsPair(events, states[c].pending[call], hit.user, hit.provider)
    ensures CacheKey(events[k].event.user, events[k].event.provider) in states[k].cache
    ensures c < states[k].cache[CacheKey(events[k].event.user, events[k].event.provider)].source
  {
    var u, p := events[k].event.user, events[k].event.provider;
    assert SplitNext(states, events, c) && SplitNext(states, events, d) && SplitNext(states, events, k);
    ExpiredStays(states, events, c + 1, d + 1, u, p);
    StaysReadSince(states, events, c + 1, d + 1, k, u, p);
  }
}

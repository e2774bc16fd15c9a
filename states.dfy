/**
 * The client's shared store of statuses (src/utils/states.js): cache keys,
 * lookup, `saveStatus`, and the thread traverser that walks a same-author
 * reply chain backwards and numbers its posts.
 */
module States {
  import opened Optional

  datatype Visibility = Public | Unlisted | Private | Direct

  /** A post as the client keeps it; `deleted` and `pinned` are the client-side `_deleted` and `_pinned`. */
  datatype Status = Status(
    id: string,
    accountId: string,
    createdAt: int,
    inReplyToId: Option<string>,
    inReplyToAccountId: Option<string>,
    reblog: Option<Status>,
    visibility: Visibility,
    reblogged: bool,
    reblogsCount: int,
    favourited: bool,
    favouritesCount: int,
    bookmarked: bool,
    mediaDescriptions: seq<Option<string>>,
    deleted: bool,
    pinned: bool)

  // ---------------------------------------------------------------------------
  // keys

  /**
   * The cache key of a status: `<instance>/<id>`, or the bare id when no
   * instance is given. A JavaScript `null`, `undefined` or empty instance are
   * all falsy and are all written "" here.
   */
  function StatusKey(id: string, instance: string): string {
    if instance != "" then instance + "/" + id else id
  }

  predicate NoSlash(id: string) {
    forall i :: 0 <= i < |id| ==> id[i] != '/'
  }

  /** For one instance, distinct ids get distinct keys. */
  lemma StatusKeyIdInjective(id1: string, id2: string, instance: string)
    ensures StatusKey(id1, instance) == StatusKey(id2, instance) <==> id1 == id2
  {
    if instance != "" && StatusKey(id1, instance) == StatusKey(id2, instance) {
      var n := |instance| + 1;
      assert StatusKey(id1, instance)[n..] == id1;
      assert StatusKey(id2, instance)[n..] == id2;
    }
  }

  /** The index of the last '/' in a key, if any. */
  function LastSlash(k: string): (r: Option<nat>)
    ensures r.Some? ==> r.value < |k| && k[r.value] == '/' && NoSlash(k[r.value + 1..])
    ensures r.None? ==> NoSlash(k)
  {
    if k == [] then None
    else if k[|k| - 1] == '/' then Some(|k| - 1)
    else
      var r := LastSlash(k[..|k| - 1]);
      assert r.Some? ==> k[..|k| - 1][r.value + 1..] + [k[|k| - 1]] == k[r.value + 1..];
      r
  }

  /** Reads a key back as (id, instance): the instance is what precedes the last slash. */
  function SplitKey(k: string): (string, string) {
    match LastSlash(k)
    case None => (k, "")
    case Some(i) => (k[i + 1..], k[..i])
  }

  lemma {:induction false} LastSlashOfJoin(a: string, b: string)
    requires NoSlash(b)
    ensures LastSlash(a + "/" + b) == Some(|a|)
    decreases |b|
  {
    var k := a + "/" + b;
    if b != [] {
      assert k[..|k| - 1] == a + "/" + b[..|b| - 1];
      LastSlashOfJoin(a, b[..|b| - 1]);
    }
  }

  /** `SplitKey` inverts `StatusKey` for ids without a slash. */
  lemma StatusKeyRoundTrip(id: string, instance: string)
    requires NoSlash(id)
    ensures SplitKey(StatusKey(id, instance)) == (id, instance)
  {
    if instance != "" {
      var k := StatusKey(id, instance);
      LastSlashOfJoin(instance, id);
      assert k[|instance| + 1..] == id && k[..|instance|] == instance;
    }
  }

  /**
   * Ids without a slash make the key scheme injective over (id, instance)
   * pairs.
   */
  lemma StatusKeyInjective(id1: string, instance1: string, id2: string, instance2: string)
    requires NoSlash(id1) && NoSlash(id2)
    ensures StatusKey(id1, instance1) == StatusKey(id2, instance2) <==> id1 == id2 && instance1 == instance2
  {
    StatusKeyRoundTrip(id1, instance1);
    StatusKeyRoundTrip(id2, instance2);
  }

  /** Without that restriction two different (id, instance) pairs can share a key. */
  lemma StatusKeyCollision()
    ensures StatusKey("b", "a") == StatusKey("a/b", "")
  {
  }

  // ---------------------------------------------------------------------------
  // saveStatus

  /** The options object of `saveStatus`; a missing property is `None`. */
  datatype SaveOptions = SaveOptions(override: Option<bool>, skipThreading: Option<bool>)

  /**
   * The second argument of `saveStatus`. `typeof null` is 'object', so a
   * `null` instance is taken for the options object, like a real one.
   */
  datatype InstanceArg = Undefined | Null | Name(name: string) | OptionsObject(options: SaveOptions)

  /** The instance and options `saveStatus` ends up using. */
  datatype SaveCall = SaveCall(instance: string, override: bool, skipThreading: bool)

  function ResolveSaveArgs(arg: InstanceArg, opts: Option<SaveOptions>): (c: SaveCall)
    ensures arg.Name? ==> c.instance == arg.name
    ensures !arg.Name? ==> c.instance == ""
    ensures arg.Null? ==> c == SaveCall("", true, false)
    ensures arg.OptionsObject? ==>
      c.override == arg.options.override.GetOr(true) && c.skipThreading == arg.options.skipThreading.GetOr(false)
    ensures (arg.Name? || arg.Undefined?) && opts.None? ==> c.override && !c.skipThreading
    ensures (arg.Name? || arg.Undefined?) && opts.Some? ==>
      c.override == opts.value.override.GetOr(true) && c.skipThreading == opts.value.skipThreading.GetOr(false)
  {
    var instance := if arg.Name? then arg.name else "";
    var o := match arg
      case OptionsObject(options) => Some(options)
      case Null => None
      case _ => opts;
    match o
    case None => SaveCall(instance, true, false)
    case Some(options) => SaveCall(instance, options.override.GetOr(true), options.skipThreading.GetOr(false))
  }

  /**
   * Whether a save writes anything: a status is present, and either overriding
   * is allowed or nothing is cached under the status's BARE id (the guard
   * ignores the instance).
   */
  predicate Writes(statuses: map<string, Status>, status: Option<Status>, override: bool) {
    status.Some? && (override || status.value.id !in statuses)
  }

  /** The keys a save of `s` writes: its own, and its embedded reblog's. */
  function WrittenKeys(s: Status, instance: string): set<string> {
    {StatusKey(s.id, instance)} + if s.reblog.Some? then {StatusKey(s.reblog.value.id, instance)} else {}
  }

  /** The cache after `saveStatus(status, instance, {override})`. */
  function SaveInto(statuses: map<string, Status>, status: Option<Status>, instance: string, override: bool)
    : (m: map<string, Status>)
    ensures !Writes(statuses, status, override) ==> m == statuses
    ensures Writes(statuses, status, override) ==>
      var s := status.value;
      && m.Keys == statuses.Keys + WrittenKeys(s, instance)
      && (s.reblog.Some? ==> m[StatusKey(s.reblog.value.id, instance)] == s.reblog.value)
      && (s.reblog.None? || s.reblog.value.id != s.id ==> m[StatusKey(s.id, instance)] == s)
      && forall k :: k in statuses && k !in WrittenKeys(s, instance) ==> m[k] == statuses[k]
  {
    if !Writes(statuses, status, override) then statuses
    else
      var s := status.value;
      var m1 := statuses[StatusKey(s.id, instance) := s];
      if s.reblog.Some? then
        StatusKeyIdInjective(s.id, s.reblog.value.id, instance);
        m1[StatusKey(s.reblog.value.id, instance) := s.reblog.value]
      else m1
  }

  /** A thread traversal deferred to the next frame: `saveStatus` schedules one per written status. */
  datatype ThreadJob = ThreadJob(status: Status, instance: string)

  /** What a timeline iterator's `next()` yields: the posts and `done`. */
  datatype Page = Page(value: seq<Status>, done: bool)

  /** `list.map((x) => x.id)`: the ids of a list, each read by `idOf`. */
  function Ids<T>(vs: seq<T>, idOf: T -> string): (r: seq<string>)
    ensures |r| == |vs| && forall i :: 0 <= i < |vs| ==> r[i] == idOf(vs[i])
  {
    seq(|vs|, i requires 0 <= i < |vs| => idOf(vs[i]))
  }

  // ---------------------------------------------------------------------------
  // the thread traverser

  /** `fetchIndex++ > 3`: the guard lets four parent fetches through and stops the fifth. */
  const FetchGuard: nat := 3

  /** The result of `traverse`; `Thread` is the resolved chain, the rest are the thrown aborts. */
  datatype Traversal = Thread(chain: seq<Status>) | NotAThread | TooManyFetches | FetchFailed | StackExhausted

  /** A traversal's result, the cache it leaves behind and the final fetch counter. */
  datatype TraverseState = TraverseState(result: Traversal, statuses: map<string, Status>, fetchIndex: nat)

  /** Whether a status continues its author's own thread (it replies to its own account). */
  predicate RepliesToSelf(s: Status) {
    s.inReplyToId.Some? && s.inReplyToId.value != "" && s.inReplyToAccountId == Some(s.accountId)
  }

  /** The key under which the parent of a self-reply is looked up. */
  function ParentKey(s: Status, instance: string): string
    requires RepliesToSelf(s)
  {
    StatusKey(s.inReplyToId.value, instance)
  }

  function Extend(t: TraverseState, s: Status): TraverseState {
    if t.result.Thread? then t.(result := Thread(t.result.chain + [s])) else t
  }

  /**
   * `traverse(status)`: a status that does not reply to its own author is the
   * head of the chain; otherwise its parent is taken from the cache, or
   * fetched (`fetch` returns `None` when the request fails) and saved with
   * `skipThreading`, and the chain is the parent's chain followed by the
   * status. `fuel` bounds the recursion depth, as the engine's call stack does.
   */
  function TraverseSpec(statuses: map<string, Status>, s: Status, instance: string,
                        fetch: string -> Option<Status>, fetchIndex: nat, fuel: nat): TraverseState
    decreases fuel
  {
    if !RepliesToSelf(s) then TraverseState(Thread([s]), statuses, fetchIndex)
    else if s.inReplyToId.Some? && s.inReplyToId.value != "" && s.inReplyToAccountId != Some(s.accountId) then
      TraverseState(NotAThread, statuses, fetchIndex)
    else if fuel == 0 then TraverseState(StackExhausted, statuses, fetchIndex)
    else
      var key := ParentKey(s, instance);
      if key in statuses then
        Extend(TraverseSpec(statuses, statuses[key], instance, fetch, fetchIndex, fuel - 1), s)
      else if fetchIndex > FetchGuard then TraverseState(TooManyFetches, statuses, fetchIndex + 1)
      else match fetch(s.inReplyToId.value)
        case None => TraverseState(FetchFailed, statuses, fetchIndex + 1)
        case Some(p) =>
          Extend(TraverseSpec(SaveInto(statuses, Some(p), instance, true), p, instance, fetch, fetchIndex + 1, fuel - 1), s)
  }

  /** The thread-number table after numbering `chain` 1, 2, ... in order (later writes win). */
  function WriteNumbers(numbers: map<string, nat>, chain: seq<Status>, instance: string): map<string, nat>
    decreases |chain|
  {
    if chain == [] then numbers
    else WriteNumbers(numbers, chain[..|chain| - 1], instance)[StatusKey(chain[|chain| - 1].id, instance) := |chain|]
  }

  /** The keys a chain's numbers are written under. */
  function ChainKeys(chain: seq<Status>, instance: string): set<string> {
    set i | 0 <= i < |chain| :: StatusKey(chain[i].id, instance)
  }

  /** The cache and thread-number table after `threadifyStatus(status)`. */
  function ThreadifySpec(statuses: map<string, Status>, numbers: map<string, nat>, s: Status, instance: string,
                         fetch: string -> Option<Status>, stackLimit: nat): (map<string, Status>, map<string, nat>)
  {
    var t := TraverseSpec(statuses, s, instance, fetch, 0, stackLimit);
    (t.statuses,
     if t.result.Thread? && |t.result.chain| > 1 then WriteNumbers(numbers, t.result.chain, instance) else numbers)
  }

  // ---------------------------------------------------------------------------
  // properties of the traverser

  /** The "Not a thread" abort cannot happen: the first check already returned for every such status. */
  lemma {:induction false} TraverseNeverNotAThread(statuses: map<string, Status>, s: Status, instance: string,
                                                   fetch: string -> Option<Status>, fetchIndex: nat, fuel: nat)
    ensures !TraverseSpec(statuses, s, instance, fetch, fetchIndex, fuel).result.NotAThread?
    decreases fuel
  {
    if RepliesToSelf(s) && fuel > 0 {
      var key := ParentKey(s, instance);
      if key in statuses {
        TraverseNeverNotAThread(statuses, statuses[key], instance, fetch, fetchIndex, fuel - 1);
      } else if fetchIndex <= FetchGuard && fetch(s.inReplyToId.value).Some? {
        var p := fetch(s.inReplyToId.value).value;
        TraverseNeverNotAThread(SaveInto(statuses, Some(p), instance, true), p, instance, fetch, fetchIndex + 1, fuel - 1);
      }
    }
  }

  /**
   * The fetch budget: starting from a counter of at most 4, the counter only
   * grows, a resolved chain used at most 4 fetches in all, and the abort for
   * too many fetches comes exactly when a fifth fetch was needed.
   */
  lemma {:induction false} TraverseFetchBudget(statuses: map<string, Status>, s: Status, instance: string,
                                               fetch: string -> Option<Status>, fetchIndex: nat, fuel: nat)
    requires fetchIndex <= FetchGuard + 1
    ensures var t := TraverseSpec(statuses, s, instance, fetch, fetchIndex, fuel);
      && fetchIndex <= t.fetchIndex <= FetchGuard + 2
      && (t.result.Thread? || t.result.FetchFailed? ==> t.fetchIndex <= FetchGuard + 1)
      && (t.result.TooManyFetches? <==> t.fetchIndex == FetchGuard + 2)
    decreases fuel
  {
    if RepliesToSelf(s) && fuel > 0 {
      var key := ParentKey(s, instance);
      if key in statuses {
        TraverseFetchBudget(statuses, statuses[key], instance, fetch, fetchIndex, fuel - 1);
      } else if fetchIndex <= FetchGuard && fetch(s.inReplyToId.value).Some? {
        var p := fetch(s.inReplyToId.value).value;
        TraverseFetchBudget(SaveInto(statuses, Some(p), instance, true), p, instance, fetch, fetchIndex + 1, fuel - 1);
      }
    }
  }

  /**
   * A same-author thread ending in `leaf`: its first status does not reply to
   * its own author (the root), every later one does, and it has at most
   * `bound` statuses.
   */
  predicate SelfThread(c: seq<Status>, leaf: Status, bound: nat) {
    && 1 <= |c| <= bound
    && c[|c| - 1] == leaf
    && !RepliesToSelf(c[0])
    && forall i :: 0 < i < |c| ==> RepliesToSelf(c[i])
  }

  lemma SelfThreadExtend(c: seq<Status>, parent: Status, s: Status, bound: nat)
    requires SelfThread(c, parent, bound) && RepliesToSelf(s)
    ensures SelfThread(c + [s], s, bound + 1)
  {
    var c' := c + [s];
    assert forall i :: 0 < i < |c| ==> c'[i] == c[i];
  }

  /** A resolved chain is the same-author thread ending in the status traversed from, root first. */
  lemma {:induction false} TraverseChainShape(statuses: map<string, Status>, s: Status, instance: string,
                                              fetch: string -> Option<Status>, fetchIndex: nat, fuel: nat)
    ensures var t := TraverseSpec(statuses, s, instance, fetch, fetchIndex, fuel);
      t.result.Thread? ==> SelfThread(t.result.chain, s, fuel + 1)
    decreases fuel
  {
    if RepliesToSelf(s) && fuel > 0 {
      var key := ParentKey(s, instance);
      var parent: Status, cache: map<string, Status>, index: nat;
      if key in statuses {
        parent, cache, index := statuses[key], statuses, fetchIndex;
      } else if fetchIndex <= FetchGuard && fetch(s.inReplyToId.value).Some? {
        parent := fetch(s.inReplyToId.value).value;
        cache, index := SaveInto(statuses, Some(parent), instance, true), fetchIndex + 1;
      } else {
        return;
      }
      var sub := TraverseSpec(cache, parent, instance, fetch, index, fuel - 1);
      assert TraverseSpec(statuses, s, instance, fetch, fetchIndex, fuel) == Extend(sub, s);
      TraverseChainShape(cache, parent, instance, fetch, index, fuel - 1);
      if sub.result.Thread? {
        SelfThreadExtend(sub.result.chain, parent, s, fuel);
      }
    } else if !RepliesToSelf(s) {
      assert SelfThread([s], s, fuel + 1);
    }
  }

  /** A traversal only adds entries to the cache. */
  lemma {:induction false} TraverseGrowsCache(statuses: map<string, Status>, s: Status, instance: string,
                                              fetch: string -> Option<Status>, fetchIndex: nat, fuel: nat)
    ensures statuses.Keys <= TraverseSpec(statuses, s, instance, fetch, fetchIndex, fuel).statuses.Keys
    decreases fuel
  {
    if RepliesToSelf(s) && fuel > 0 {
      var key := ParentKey(s, instance);
      if key in statuses {
        TraverseGrowsCache(statuses, statuses[key], instance, fetch, fetchIndex, fuel - 1);
      } else if fetchIndex <= FetchGuard && fetch(s.inReplyToId.value).Some? {
        var p := fetch(s.inReplyToId.value).value;
        TraverseGrowsCache(SaveInto(statuses, Some(p), instance, true), p, instance, fetch, fetchIndex + 1, fuel - 1);
      }
    }
  }

  /** Each status of `c` after the first replies to its own author, whose post is cached as the status before it. */
  predicate CachedParents(c: seq<Status>, statuses: map<string, Status>, instance: string) {
    forall i :: 0 < i < |c| ==>
      RepliesToSelf(c[i]) && ParentKey(c[i], instance) in statuses && statuses[ParentKey(c[i], instance)] == c[i - 1]
  }

  lemma CachedParentsExtend(c: seq<Status>, s: Status, statuses: map<string, Status>, instance: string)
    requires |c| >= 1 && CachedParents(c, statuses, instance)
    requires RepliesToSelf(s) && ParentKey(s, instance) in statuses && statuses[ParentKey(s, instance)] == c[|c| - 1]
    ensures CachedParents(c + [s], statuses, instance)
  {
    var c' := c + [s];
    forall i | 0 < i < |c'|
      ensures RepliesToSelf(c'[i]) && ParentKey(c'[i], instance) in statuses && statuses[ParentKey(c'[i], instance)] == c'[i - 1]
    {
      if i < |c| {
        assert c'[i] == c[i] && c'[i - 1] == c[i - 1];
      }
    }
  }

  /**
   * When the traversal fetches nothing, the cache is left as it was and each
   * status of the chain is the cached parent of the next.
   */
  lemma {:induction false} TraverseCachedChain(statuses: map<string, Status>, s: Status, instance: string,
                                               fetch: string -> Option<Status>, fetchIndex: nat, fuel: nat)
    ensures var t := TraverseSpec(statuses, s, instance, fetch, fetchIndex, fuel);
      t.fetchIndex == fetchIndex ==>
        && t.statuses == statuses
        && (t.result.Thread? ==> CachedParents(t.result.chain, statuses, instance))
    decreases fuel, 1
  {
    if RepliesToSelf(s) && fuel > 0 {
      if ParentKey(s, instance) in statuses {
        CachedChainStep(statuses, s, instance, fetch, fetchIndex, fuel);
      } else {
        UncachedParentFetches(statuses, s, instance, fetch, fetchIndex, fuel);
      }
    }
  }

  /** `TraverseCachedChain` when the parent is in the cache. */
  lemma {:induction false} CachedChainStep(statuses: map<string, Status>, s: Status, instance: string,
                                           fetch: string -> Option<Status>, fetchIndex: nat, fuel: nat)
    requires RepliesToSelf(s) && fuel > 0 && ParentKey(s, instance) in statuses
    ensures var t := TraverseSpec(statuses, s, instance, fetch, fetchIndex, fuel);
      t.fetchIndex == fetchIndex ==>
        && t.statuses == statuses
        && (t.result.Thread? ==> CachedParents(t.result.chain, statuses, instance))
    decreases fuel, 0
  {
    var key := ParentKey(s, instance);
    var sub := TraverseSpec(statuses, statuses[key], instance, fetch, fetchIndex, fuel - 1);
    assert TraverseSpec(statuses, s, instance, fetch, fetchIndex, fuel) == Extend(sub, s);
    TraverseCachedChain(statuses, statuses[key], instance, fetch, fetchIndex, fuel - 1);
    TraverseChainShape(statuses, statuses[key], instance, fetch, fetchIndex, fuel - 1);
    if sub.fetchIndex == fetchIndex && sub.result.Thread? {
      CachedParentsExtend(sub.result.chain, s, statuses, instance);
    }
  }

  /** A parent missing from the cache costs a fetch (or an abort that counts as one). */
  lemma UncachedParentFetches(statuses: map<string, Status>, s: Status, instance: string,
                              fetch: string -> Option<Status>, fetchIndex: nat, fuel: nat)
    requires RepliesToSelf(s) && fuel > 0 && ParentKey(s, instance) !in statuses
    ensures TraverseSpec(statuses, s, instance, fetch, fetchIndex, fuel).fetchIndex > fetchIndex
  {
    if fetchIndex <= FetchGuard && fetch(s.inReplyToId.value).Some? {
      var p := fetch(s.inReplyToId.value).value;
      var sub := TraverseSpec(SaveInto(statuses, Some(p), instance, true), p, instance, fetch, fetchIndex + 1, fuel - 1);
      assert TraverseSpec(statuses, s, instance, fetch, fetchIndex, fuel) == Extend(sub, s);
      TraverseFetchMonotone(SaveInto(statuses, Some(p), instance, true), p, instance, fetch, fetchIndex + 1, fuel - 1);
    }
  }

  /** The fetch counter never decreases. */
  lemma {:induction false} TraverseFetchMonotone(statuses: map<string, Status>, s: Status, instance: string,
                                                 fetch: string -> Option<Status>, fetchIndex: nat, fuel: nat)
    ensures TraverseSpec(statuses, s, instance, fetch, fetchIndex, fuel).fetchIndex >= fetchIndex
    decreases fuel
  {
    if RepliesToSelf(s) && fuel > 0 {
      var key := ParentKey(s, instance);
      if key in statuses {
        TraverseFetchMonotone(statuses, statuses[key], instance, fetch, fetchIndex, fuel - 1);
      } else if fetchIndex <= FetchGuard && fetch(s.inReplyToId.value).Some? {
        var p := fetch(s.inReplyToId.value).value;
        TraverseFetchMonotone(SaveInto(statuses, Some(p), instance, true), p, instance, fetch, fetchIndex + 1, fuel - 1);
      }
    }
  }

  /**
   * Numbering a chain whose statuses have distinct keys gives the i-th status
   * (from the root) the number i + 1 and leaves every other key as it was.
   */
  lemma {:induction false} WriteNumbersPositions(numbers: map<string, nat>, chain: seq<Status>, instance: string)
    requires forall i, j :: 0 <= i < j < |chain| ==> chain[i].id != chain[j].id
    ensures var w := WriteNumbers(numbers, chain, instance);
      && (forall i :: 0 <= i < |chain| ==> StatusKey(chain[i].id, instance) in w && w[StatusKey(chain[i].id, instance)] == i + 1)
      && (forall k :: k !in ChainKeys(chain, instance) ==> (k in w <==> k in numbers) && (k in numbers ==> w[k] == numbers[k]))
    decreases |chain|
  {
    if chain != [] {
      var n := |chain| - 1;
      var front := chain[..n];
      var last := StatusKey(chain[n].id, instance);
      WriteNumbersPositions(numbers, front, instance);
      var wf := WriteNumbers(numbers, front, instance);
      var w := WriteNumbers(numbers, chain, instance);
      assert w == wf[last := n + 1];
      forall i | 0 <= i < |chain|
        ensures StatusKey(chain[i].id, instance) in w && w[StatusKey(chain[i].id, instance)] == i + 1
      {
        if i < n {
          assert front[i] == chain[i];
          StatusKeyIdInjective(chain[i].id, chain[n].id, instance);
        }
      }
      assert ChainKeys(chain, instance) == ChainKeys(front, instance) + {last};
    }
  }

  // ---------------------------------------------------------------------------
  // the store

  /** `states.statuses`, `states.statusThreadNumber`, and the frames waiting to run a traversal. */
  class StatusCache {
    var statuses: map<string, Status>
    var threadNumbers: map<string, nat>
    var scheduled: seq<ThreadJob>

    constructor()
      ensures statuses == map[] && threadNumbers == map[] && scheduled == []
    {
      statuses := map[];
      threadNumbers := map[];
      scheduled := [];
    }

    /** `getStatus(id, instance)`: reads the key `StatusKey` builds, and never fetches. */
    function GetStatus(id: string, instance: string): (r: Option<Status>)
      reads this
      ensures r.Some? <==> StatusKey(id, instance) in statuses
      ensures r.Some? ==> r.value == statuses[StatusKey(id, instance)]
    {
      if instance != "" then
        var key := StatusKey(id, instance);
        if key in statuses then Some(statuses[key]) else None
      else if id in statuses then Some(statuses[id]) else None
    }

    /**
     * `saveStatus(status, instance, opts)`: writes the status and its embedded
     * reblog, and unless `skipThreading` schedules a traversal of both.
     */
    method SaveStatus(status: Option<Status>, arg: InstanceArg, opts: Option<SaveOptions>)
      modifies this
      ensures var c := ResolveSaveArgs(arg, opts);
        && statuses == SaveInto(old(statuses), status, c.instance, c.override)
        && threadNumbers == old(threadNumbers)
        && scheduled == old(scheduled) +
             if Writes(old(statuses), status, c.override) && !c.skipThreading
             then [ThreadJob(status.value, c.instance)] else []
    {
      var c := ResolveSaveArgs(arg, opts);
      if status.None? {
        return;
      }
      var s := status.value;
      if !c.override && GetStatus(s.id, "").Some? {
        return;
      }
      statuses := statuses[StatusKey(s.id, c.instance) := s];
      if s.reblog.Some? {
        statuses := statuses[StatusKey(s.reblog.value.id, c.instance) := s.reblog.value];
      }
      if !c.skipThreading {
        scheduled := scheduled + [ThreadJob(s, c.instance)];
      }
    }

    /** The inner `traverse` of `threadifyStatus`, with its shared `fetchIndex` counter passed in and out. */
    method Traverse(s: Status, instance: string, fetch: string -> Option<Status>, fetchIndex: nat, fuel: nat)
      returns (result: Traversal, fetchCount: nat)
      modifies this
      ensures TraverseState(result, statuses, fetchCount) == TraverseSpec(old(statuses), s, instance, fetch, fetchIndex, fuel)
      ensures threadNumbers == old(threadNumbers) && scheduled == old(scheduled)
      decreases fuel
    {
      fetchCount := fetchIndex;
      if !RepliesToSelf(s) {
        return Thread([s]), fetchCount;
      }
      if s.inReplyToId.Some? && s.inReplyToId.value != "" && s.inReplyToAccountId != Some(s.accountId) {
        return NotAThread, fetchCount;
      }
      if fuel == 0 {
        return StackExhausted, fetchCount;
      }
      var key := StatusKey(s.inReplyToId.value, instance);
      var parent: Status;
      if key in statuses {
        parent := statuses[key];
      } else {
        if fetchCount > FetchGuard {
          return TooManyFetches, fetchCount + 1;
        }
        fetchCount := fetchCount + 1;
        var fetched := fetch(s.inReplyToId.value);
        if fetched.None? {
          return FetchFailed, fetchCount;
        }
        parent := fetched.value;
        SaveStatus(Some(parent), Name(instance), Some(SaveOptions(None, Some(true))));
      }
      var sub;
      sub, fetchCount := Traverse(parent, instance, fetch, fetchCount, fuel - 1);
      result := if sub.Thread? then Thread(sub.chain + [s]) else sub;
    }

    /**
     * `threadifyStatus(status, instance)`: traverses, then numbers a chain of
     * two or more statuses 1..n from the root. Every abort is caught: it
     * writes no numbers, though parents fetched before it stay cached.
     */
    method Threadify(s: Status, instance: string, fetch: string -> Option<Status>, stackLimit: nat)
      modifies this
      ensures (statuses, threadNumbers) == ThreadifySpec(old(statuses), old(threadNumbers), s, instance, fetch, stackLimit)
      ensures scheduled == old(scheduled)
    {
      var result, _ := Traverse(s, instance, fetch, 0, stackLimit);
      if result.Thread? && |result.chain| > 1 {
        var chain := result.chain;
        ghost var cached := statuses;
        var i := 0;
        while i < |chain|
          invariant 0 <= i <= |chain|
          invariant threadNumbers == WriteNumbers(old(threadNumbers), chain[..i], instance)
          invariant statuses == cached && scheduled == old(scheduled)
        {
          assert chain[..i + 1][..i] == chain[..i];
          threadNumbers := threadNumbers[StatusKey(chain[i].id, instance) := i + 1];
          i := i + 1;
        }
        assert chain[..|chain|] == chain;
      }
    }

    /**
     * Runs the oldest scheduled frame: traverses the saved status, then its
     * reblog. `resolve` is the instance the API client settles on for the
     * instance given to `saveStatus`.
     */
    method RunScheduledJob(fetch: string -> Option<Status>, resolve: string -> string, stackLimit: nat)
      requires scheduled != []
      modifies this
      ensures var job := old(scheduled[0]);
        var (st1, tn1) := ThreadifySpec(old(statuses), old(threadNumbers), job.status, resolve(job.instance), fetch, stackLimit);
        (statuses, threadNumbers) ==
          if job.status.reblog.Some?
          then ThreadifySpec(st1, tn1, job.status.reblog.value, resolve(job.instance), fetch, stackLimit)
          else (st1, tn1)
      ensures scheduled == old(scheduled[1..])
    {
      var job := scheduled[0];
      scheduled := scheduled[1..];
      Threadify(job.status, resolve(job.instance), fetch, stackLimit);
      if job.status.reblog.Some? {
        Threadify(job.status.reblog.value, resolve(job.instance), fetch, stackLimit);
      }
    }
  }
}

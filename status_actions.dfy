/**
 * The interaction logic of a rendered post (src/components/status.jsx): who
 * may boost, the optimistic boost/favourite/bookmark protocol over the status
 * cache, the delete tombstone, media durations, and the list of accounts that
 * boosted or favourited a post.
 */
module StatusActions {
  import opened Optional
  import opened Text
  import opened States

  // ---------------------------------------------------------------------------
  // who may boost

  /** `currentAccount && currentAccount === accountId`; no signed-in account is "". */
  predicate IsSelf(currentAccount: string, accountId: string) {
    currentAccount != "" && currentAccount == accountId
  }

  /**
   * `canBoost`: signed in and the post is neither direct nor followers-only,
   * or the post is followers-only and the viewer wrote it (that second case
   * does not look at whether anyone is signed in).
   */
  function CanBoost(authenticated: bool, visibility: Visibility, isSelf: bool): (r: bool)
    ensures visibility == Direct ==> !r
    ensures visibility == Public || visibility == Unlisted ==> (r <==> authenticated)
    ensures visibility == Private ==> (r <==> isSelf)
  {
    var canBoost := authenticated && visibility != Direct && visibility != Private;
    if visibility == Private && isSelf then true else canBoost
  }

  // ---------------------------------------------------------------------------
  // the boost confirmation

  const BoostQuestion: string := "Boost this post?"
  const NoDescriptionsWarning: string := "\n\n\U{26A0}\U{FE0F} Some media have no descriptions."

  /** An attachment counts as undescribed when its description is missing or blank after trimming. */
  predicate Undescribed(description: Option<string>) {
    description.None? || Trim(description.value) == ""
  }

  predicate HasNoDescriptions(descriptions: seq<Option<string>>) {
    exists i :: 0 <= i < |descriptions| && Undescribed(descriptions[i])
  }

  /** The text of the confirm shown before boosting. */
  function ConfirmText(s: Status): (r: string)
    ensures |BoostQuestion| <= |r| && r[..|BoostQuestion|] == BoostQuestion
  {
    BoostQuestion + if HasNoDescriptions(s.mediaDescriptions) then NoDescriptionsWarning else ""
  }

  /**
   * The confirm carries the warning exactly when some attachment has no
   * description or one made only of whitespace.
   */
  lemma ConfirmWarnsIffUndescribed(s: Status)
    ensures ConfirmText(s) != BoostQuestion <==>
      exists i :: 0 <= i < |s.mediaDescriptions| &&
        (s.mediaDescriptions[i].None? || forall c :: c in s.mediaDescriptions[i].value ==> IsSpace(c))
  {
    var ds := s.mediaDescriptions;
    forall i | 0 <= i < |ds| && ds[i].Some?
      ensures Undescribed(ds[i]) <==> forall c :: c in ds[i].value ==> IsSpace(c)
    {
      TrimEmptyIffBlank(ds[i].value);
    }
    if HasNoDescriptions(ds) {
      assert ConfirmText(s) == BoostQuestion + NoDescriptionsWarning;
      assert |ConfirmText(s)| > |BoostQuestion|;
    }
  }

  lemma TrimEmptyIffBlank(t: string)
    ensures Trim(t) == "" <==> forall c :: c in t ==> IsSpace(c)
  {
    TrimBlank(t);
    if !forall c :: c in t ==> IsSpace(c) {
      var c :| c in t && !IsSpace(c);
      var i :| 0 <= i < |t| && t[i] == c;
    }
  }

  // ---------------------------------------------------------------------------
  // optimistic interactions

  datatype Interaction = Boost | Favourite | Bookmark

  /** The server request an interaction makes; `undo` for unreblog, unfavourite, unbookmark. */
  datatype RemoteCall = RemoteCall(interaction: Interaction, undo: bool)

  /** Whether the viewer has already done `action` to `s`. */
  function Done(s: Status, action: Interaction): bool {
    match action
    case Boost => s.reblogged
    case Favourite => s.favourited
    case Bookmark => s.bookmarked
  }

  /**
   * The optimistic copy written before the request: the action's flag
   * flipped and, for boosts and favourites, its count moved one step toward
   * the new flag; every other field as it was.
   */
  function Toggle(s: Status, action: Interaction): (t: Status)
    ensures Done(t, action) == !Done(s, action)
    ensures action == Boost ==> t.reblogsCount - s.reblogsCount == (if t.reblogged then 1 else -1)
    ensures action == Favourite ==> t.favouritesCount - s.favouritesCount == (if t.favourited then 1 else -1)
    ensures forall other :: other != action ==> Done(t, other) == Done(s, other)
    ensures t.(reblogged := s.reblogged, reblogsCount := s.reblogsCount,
               favourited := s.favourited, favouritesCount := s.favouritesCount,
               bookmarked := s.bookmarked) == s
  {
    match action
    case Boost => s.(reblogged := !s.reblogged, reblogsCount := s.reblogsCount + if s.reblogged then -1 else 1)
    case Favourite => s.(favourited := !s.favourited, favouritesCount := s.favouritesCount + if s.favourited then -1 else 1)
    case Bookmark => s.(bookmarked := !s.bookmarked)
  }

  /** Toggling twice gives back the original status: the optimistic change is exactly undoable. */
  lemma ToggleTwice(s: Status, action: Interaction)
    ensures Toggle(Toggle(s, action), action) == s
  {
  }

  /**
   * The post as a component renders it: the status object, the cache key
   * built from the `statusID` prop and the resolved instance, and whether the
   * viewer is signed in on that same instance.
   */
  datatype Shown = Shown(status: Status, statusId: string, instance: string, sameInstance: bool, authenticated: bool) {
    function Key(): string {
      StatusKey(statusId, instance)
    }
    predicate MayInteract() {
      sameInstance && authenticated
    }
  }

  /**
   * The shared protocol: write the optimistic copy under the post's key, make
   * the request, then save the server's status (`response`) or, when the
   * request fails (`None`), put the rendered status object back.
   */
  method Interact(cache: StatusCache, v: Shown, action: Interaction, response: Option<Status>)
    returns (call: RemoteCall, ghost optimistic: map<string, Status>)
    modifies cache
    ensures call == RemoteCall(action, Done(v.status, action))
    ensures optimistic == old(cache.statuses)[v.Key() := Toggle(v.status, action)]
    ensures response.Some? ==>
      && cache.statuses == SaveInto(optimistic, response, v.instance, true)
      && cache.scheduled == old(cache.scheduled) + [ThreadJob(response.value, v.instance)]
    ensures response.None? ==>
      cache.statuses == old(cache.statuses)[v.Key() := v.status] && cache.scheduled == old(cache.scheduled)
    ensures cache.threadNumbers == old(cache.threadNumbers)
  {
    cache.statuses := cache.statuses[v.Key() := Toggle(v.status, action)];
    optimistic := cache.statuses;
    call := RemoteCall(action, Done(v.status, action));
    if response.Some? {
      cache.SaveStatus(response, Name(v.instance), None);
    } else {
      cache.statuses := cache.statuses[v.Key() := v.status];
    }
  }

  /**
   * `boostStatus`: refused (with an alert) off-instance or signed out; a new
   * boost first asks `ConfirmText` and stops on a "no" (`confirmed` is the
   * answer); an unboost never asks. Returns whether the boost went through.
   */
  method BoostStatus(cache: StatusCache, v: Shown, confirmed: bool, response: Option<Status>)
    returns (ok: bool, alerted: bool, prompt: Option<string>, call: Option<RemoteCall>)
    modifies cache
    ensures alerted <==> !v.MayInteract()
    ensures prompt == if v.MayInteract() && !v.status.reblogged then Some(ConfirmText(v.status)) else None
    ensures call.Some? <==> v.MayInteract() && (v.status.reblogged || confirmed)
    ensures call.None? ==> !ok && unchanged(cache)
    ensures call.Some? ==>
      && call.value == RemoteCall(Boost, v.status.reblogged)
      && ok == response.Some?
      && (response.Some? ==> cache.statuses == SaveInto(old(cache.statuses)[v.Key() := Toggle(v.status, Boost)], response, v.instance, true))
      && (response.Some? ==> cache.scheduled == old(cache.scheduled) + [ThreadJob(response.value, v.instance)])
      && (response.None? ==> cache.statuses == old(cache.statuses)[v.Key() := v.status] && cache.scheduled == old(cache.scheduled))
    ensures cache.threadNumbers == old(cache.threadNumbers)
  {
    ok, alerted, prompt, call := false, false, None, None;
    if !v.sameInstance || !v.authenticated {
      alerted := true;
      return;
    }
    if !v.status.reblogged {
      prompt := Some(ConfirmText(v.status));
      if !confirmed {
        return;
      }
    }
    var c, _ := Interact(cache, v, Boost, response);
    call := Some(c);
    ok := response.Some?;
  }

  /** `favouriteStatus`: the same protocol without a confirm. */
  method FavouriteStatus(cache: StatusCache, v: Shown, response: Option<Status>)
    returns (alerted: bool, call: Option<RemoteCall>)
    modifies cache
    ensures alerted <==> !v.MayInteract()
    ensures call.Some? <==> v.MayInteract()
    ensures call.None? ==> unchanged(cache)
    ensures call.Some? ==>
      && call.value == RemoteCall(Favourite, v.status.favourited)
      && (response.Some? ==> cache.statuses == SaveInto(old(cache.statuses)[v.Key() := Toggle(v.status, Favourite)], response, v.instance, true))
      && (response.Some? ==> cache.scheduled == old(cache.scheduled) + [ThreadJob(response.value, v.instance)])
      && (response.None? ==> cache.statuses == old(cache.statuses)[v.Key() := v.status] && cache.scheduled == old(cache.scheduled))
    ensures cache.threadNumbers == old(cache.threadNumbers)
  {
    alerted, call := false, None;
    if !v.sameInstance || !v.authenticated {
      alerted := true;
      return;
    }
    var c, _ := Interact(cache, v, Favourite, response);
    call := Some(c);
  }

  /** `bookmarkStatus`: the same protocol; bookmarks have no counter. */
  method BookmarkStatus(cache: StatusCache, v: Shown, response: Option<Status>)
    returns (alerted: bool, call: Option<RemoteCall>)
    modifies cache
    ensures alerted <==> !v.MayInteract()
    ensures call.Some? <==> v.MayInteract()
    ensures call.None? ==> unchanged(cache)
    ensures call.Some? ==>
      && call.value == RemoteCall(Bookmark, v.status.bookmarked)
      && (response.Some? ==> cache.statuses == SaveInto(old(cache.statuses)[v.Key() := Toggle(v.status, Bookmark)], response, v.instance, true))
      && (response.Some? ==> cache.scheduled == old(cache.scheduled) + [ThreadJob(response.value, v.instance)])
      && (response.None? ==> cache.statuses == old(cache.statuses)[v.Key() := v.status] && cache.scheduled == old(cache.scheduled))
    ensures cache.threadNumbers == old(cache.threadNumbers)
  {
    alerted, call := false, None;
    if !v.sameInstance || !v.authenticated {
      alerted := true;
      return;
    }
    var c, _ := Interact(cache, v, Bookmark, response);
    call := Some(c);
  }

  /**
   * The failure path restores exactly the object that was rendered, so after
   * a failed request the entry under the post's key is that object whatever
   * the optimistic copy was.
   */
  lemma FailedInteractionRestores(statuses: map<string, Status>, v: Shown, action: Interaction)
    ensures var restored := statuses[v.Key() := Toggle(v.status, action)][v.Key() := v.status];
      && restored[v.Key()] == v.status
      && forall k :: k in statuses && k != v.Key() ==> k in restored && restored[k] == statuses[k]
  {
  }

  // ---------------------------------------------------------------------------
  // delete

  /**
   * "Delete…": after a confirmed delete succeeds on the server (`removed`),
   * the cached entry is marked deleted; the toast says "Unable to delete"
   * when the request fails, and also when the post is not cached under
   * `StatusKey(id, instance)` (marking it then throws).
   */
  method DeleteStatus(cache: StatusCache, id: string, instance: string, confirmed: bool, removed: bool)
    returns (requested: bool, toast: Option<string>)
    modifies cache
    ensures requested == confirmed
    ensures var key := StatusKey(id, instance);
      && (confirmed && removed && key in old(cache.statuses) ==>
            toast == Some("Deleted") && cache.statuses == old(cache.statuses)[key := old(cache.statuses)[key].(deleted := true)])
      && (confirmed && (!removed || key !in old(cache.statuses)) ==>
            toast == Some("Unable to delete") && cache.statuses == old(cache.statuses))
    ensures !confirmed ==> toast.None? && cache.statuses == old(cache.statuses)
    ensures cache.threadNumbers == old(cache.threadNumbers) && cache.scheduled == old(cache.scheduled)
  {
    requested, toast := false, None;
    if !confirmed {
      return;
    }
    requested := true;
    if !removed {
      toast := Some("Unable to delete");
      return;
    }
    var cached := cache.GetStatus(id, instance);
    if cached.None? {
      toast := Some("Unable to delete");
      return;
    }
    cache.statuses := cache.statuses[StatusKey(id, instance) := cached.value.(deleted := true)];
    toast := Some("Deleted");
  }

  // ---------------------------------------------------------------------------
  // media durations

  /**
   * `formatDuration(time)` for a whole number of seconds: nothing for 0,
   * `m:ss` under an hour, `h:mm:ss` otherwise.
   */
  function FormatDuration(time: nat): (r: Option<string>)
    ensures r.None? <==> time == 0
  {
    if time == 0 then None
    else Some(Clock(time / 3600, (time % 3600) / 60, time % 60))
  }

  /** The `m:ss` or `h:mm:ss` text of a time split into hours, minutes and seconds. */
  function Clock(hours: nat, minutes: nat, seconds: nat): string {
    Join(ClockFields(hours, minutes, seconds), ':')
  }

  /** The fields of the clock text: no hours field for under an hour; minutes padded after hours, seconds always. */
  function ClockFields(hours: nat, minutes: nat, seconds: nat): seq<string> {
    if hours == 0 then [DecimalString(minutes), Pad2(seconds)]
    else [DecimalString(hours), Pad2(minutes), Pad2(seconds)]
  }

  /** Reads `m:ss` or `h:mm:ss` back into seconds. */
  function ParseDuration(text: string): Option<nat> {
    ParseFields(SplitRuns(text, {':'}))
  }

  /** Two fields are minutes and seconds, three are hours, minutes and seconds. */
  function ParseFields(parts: seq<string>): Option<nat> {
    if |parts| == 2 && ParseDecimal(parts[0]).Some? && ParseDecimal(parts[1]).Some? then
      Some(ParseDecimal(parts[0]).value * 60 + ParseDecimal(parts[1]).value)
    else if |parts| == 3 && ParseDecimal(parts[0]).Some? && ParseDecimal(parts[1]).Some? && ParseDecimal(parts[2]).Some? then
      Some(ParseDecimal(parts[0]).value * 3600 + ParseDecimal(parts[1]).value * 60 + ParseDecimal(parts[2]).value)
    else None
  }

  /** A field of digits is a piece `SplitRuns` gives back unchanged. */
  lemma DigitsAreField(d: string)
    requires |d| > 0 && AllDigits(d)
    ensures Free(d, {':'})
  {
  }

  lemma DecimalStringParses(n: nat)
    ensures ParseDecimal(DecimalString(n)) == Some(n)
  {
    DecimalStringValue(n);
  }

  /** How a time splits into hours, minutes under 60 and seconds under 60. */
  lemma DurationFields(time: nat)
    ensures (time % 3600) / 60 < 60 && time % 60 < 60
    ensures (time / 3600) * 3600 + ((time % 3600) / 60) * 60 + time % 60 == time
    ensures time < 3600 <==> time / 3600 == 0
  {
    var q, r := time / 3600, time % 3600;
    var mm, ss := r / 60, r % 60;
    assert r == mm * 60 + ss;
    SecondsOfMinutes(q * 60 + mm, ss);
  }

  lemma SecondsOfMinutes(k: nat, ss: nat)
    requires ss < 60
    ensures (k * 60 + ss) % 60 == ss
  {
  }

  /** Joining digit fields with ':' and splitting again gives the fields back. */
  lemma SplitDigitFields(fields: seq<string>)
    requires |fields| >= 1 && forall i :: 0 <= i < |fields| ==> |fields[i]| > 0 && AllDigits(fields[i])
    ensures SplitRuns(Join(fields, ':'), {':'}) == fields
  {
    forall i | 0 <= i < |fields|
      ensures Free(fields[i], {':'})
    {
      DigitsAreField(fields[i]);
    }
    SplitJoin(fields, ':', {':'});
  }

  /**
   * The clock text has two fields without hours and three with, every field
   * after the first has exactly two digits, and it reads back as the time.
   */
  lemma ClockRoundTrip(hours: nat, minutes: nat, seconds: nat)
    requires minutes < 60 && seconds < 60
    ensures var parts := SplitRuns(Clock(hours, minutes, seconds), {':'});
      && |parts| == (if hours == 0 then 2 else 3)
      && (forall i :: 0 < i < |parts| ==> |parts[i]| == 2 && AllDigits(parts[i]))
      && ParseDuration(Clock(hours, minutes, seconds)) == Some(hours * 3600 + minutes * 60 + seconds)
  {
    ClockSplits(hours, minutes, seconds);
    ClockFieldsShape(hours, minutes, seconds);
    ClockFieldsParse(hours, minutes, seconds);
  }

  lemma ClockSplits(hours: nat, minutes: nat, seconds: nat)
    ensures SplitRuns(Clock(hours, minutes, seconds), {':'}) == ClockFields(hours, minutes, seconds)
  {
    SplitDigitFields(ClockFields(hours, minutes, seconds));
  }

  lemma ClockFieldsShape(hours: nat, minutes: nat, seconds: nat)
    requires minutes < 60 && seconds < 60
    ensures var f := ClockFields(hours, minutes, seconds);
      && |f| == (if hours == 0 then 2 else 3)
      && forall i :: 0 < i < |f| ==> |f[i]| == 2 && AllDigits(f[i])
  {
  }

  lemma ClockFieldsParse(hours: nat, minutes: nat, seconds: nat)
    ensures ParseFields(ClockFields(hours, minutes, seconds)) == Some(hours * 3600 + minutes * 60 + seconds)
  {
    var sec := Pad2(seconds);
    if hours == 0 {
      DecimalStringParses(minutes);
      ParseTwoFields(DecimalString(minutes), sec, minutes, seconds);
    } else {
      DecimalStringParses(hours);
      ParseThreeFields(DecimalString(hours), Pad2(minutes), sec, hours, minutes, seconds);
    }
  }

  lemma ParseTwoFields(a: string, b: string, x: nat, y: nat)
    requires ParseDecimal(a) == Some(x) && ParseDecimal(b) == Some(y)
    ensures ParseFields([a, b]) == Some(x * 60 + y)
  {
  }

  lemma ParseThreeFields(a: string, b: string, c: string, x: nat, y: nat, z: nat)
    requires ParseDecimal(a) == Some(x) && ParseDecimal(b) == Some(y) && ParseDecimal(c) == Some(z)
    ensures ParseFields([a, b, c]) == Some(x * 3600 + y * 60 + z)
  {
  }

  /**
   * The formatted text has two fields under an hour and three from an hour
   * on, every field after the first has exactly two digits, and it reads back
   * as the same number of seconds.
   */
  lemma FormatDurationRoundTrip(time: nat)
    requires time > 0
    ensures var text := FormatDuration(time).value;
      var parts := SplitRuns(text, {':'});
      && |parts| == (if time < 3600 then 2 else 3)
      && (forall i :: 0 < i < |parts| ==> |parts[i]| == 2 && AllDigits(parts[i]))
      && ParseDuration(text) == Some(time)
  {
    var hours, minutes, seconds := time / 3600, (time % 3600) / 60, time % 60;
    DurationFields(time);
    assert FormatDuration(time).value == Clock(hours, minutes, seconds);
    assert hours * 3600 + minutes * 60 + seconds == time;
    assert time < 3600 <==> hours == 0;
    ClockRoundTrip(hours, minutes, seconds);
  }

  // ---------------------------------------------------------------------------
  // who boosted and favourited

  datatype ReactionType = Reblog | Favourited

  /** An account in the reactions list with its `_types`. */
  datatype Reaction = Reaction(accountId: string, types: seq<ReactionType>)

  /** One page of an account iterator: the account ids and `done`. */
  datatype AccountPage = AccountPage(accountIds: seq<string>, done: bool)

  datatype UIState = Default | Loading | Failed

  /** `accounts.find((a) => a.id === id)`, as the index of the first match. */
  function FindAccount(accounts: seq<Reaction>, id: string): (r: Option<nat>)
    ensures r.Some? ==> r.value < |accounts| && accounts[r.value].accountId == id
    ensures r.Some? ==> forall j :: 0 <= j < r.value ==> accounts[j].accountId != id
    ensures r.None? ==> forall j :: 0 <= j < |accounts| ==> accounts[j].accountId != id
  {
    if accounts == [] then None
    else if accounts[0].accountId == id then Some(0)
    else match FindAccount(accounts[1..], id)
      case None => None
      case Some(j) => Some(j + 1)
  }

  /** One account of a page merged in: a new id is appended with `[t]`, a known one gets `t` appended. */
  function MergeOne(accounts: seq<Reaction>, id: string, t: ReactionType): seq<Reaction> {
    match FindAccount(accounts, id)
    case None => accounts + [Reaction(id, [t])]
    case Some(j) => accounts[j := accounts[j].(types := accounts[j].types + [t])]
  }

  /** A whole page merged in, in order. */
  function MergeAll(accounts: seq<Reaction>, ids: seq<string>, t: ReactionType): seq<Reaction>
    decreases |ids|
  {
    if ids == [] then accounts else MergeOne(MergeAll(accounts, ids[..|ids| - 1], t), ids[|ids| - 1], t)
  }

  predicate UniqueAccounts(accounts: seq<Reaction>) {
    forall i, j :: 0 <= i < j < |accounts| ==> accounts[i].accountId != accounts[j].accountId
  }

  /** The `_types` recorded for an account id; none when it is not listed. */
  function TypesOf(accounts: seq<Reaction>, id: string): seq<ReactionType> {
    match FindAccount(accounts, id)
    case None => []
    case Some(j) => accounts[j].types
  }

  function Repeat(t: ReactionType, n: nat): (r: seq<ReactionType>)
    ensures |r| == n && forall i :: 0 <= i < n ==> r[i] == t
  {
    seq(n, _ => t)
  }

  lemma MergeOneEffect(accounts: seq<Reaction>, id: string, t: ReactionType)
    requires UniqueAccounts(accounts)
    ensures var m := MergeOne(accounts, id, t);
      && UniqueAccounts(m)
      && TypesOf(m, id) == TypesOf(accounts, id) + [t]
      && (forall x :: x != id ==> TypesOf(m, x) == TypesOf(accounts, x))
  {
    var m := MergeOne(accounts, id, t);
    match FindAccount(accounts, id)
    case None =>
      forall x
        ensures TypesOf(m, x) == if x == id then [t] else TypesOf(accounts, x)
      {
        var fm, fa := FindAccount(m, x), FindAccount(accounts, x);
        if fa.Some? {
          assert m[fa.value] == accounts[fa.value];
        } else if x == id {
          assert m[|accounts|].accountId == id;
        }
      }
    case Some(j) =>
      forall x
        ensures TypesOf(m, x) == if x == id then accounts[j].types + [t] else TypesOf(accounts, x)
      {
        var fm, fa := FindAccount(m, x), FindAccount(accounts, x);
        assert forall i :: 0 <= i < |m| ==> m[i].accountId == accounts[i].accountId;
        if fa.Some? {
          assert fm == fa;
        }
      }
  }

  /** Merging a page keeps one entry per account. */
  lemma {:induction false} MergeAllUnique(accounts: seq<Reaction>, ids: seq<string>, t: ReactionType)
    requires UniqueAccounts(accounts)
    ensures UniqueAccounts(MergeAll(accounts, ids, t))
    decreases |ids|
  {
    if ids != [] {
      MergeAllUnique(accounts, ids[..|ids| - 1], t);
      MergeOneEffect(MergeAll(accounts, ids[..|ids| - 1], t), ids[|ids| - 1], t);
    }
  }

  /** Merging a page appends the page's type to an account once per occurrence of it in the page. */
  lemma {:induction false} MergeAllTypesOf(accounts: seq<Reaction>, ids: seq<string>, t: ReactionType, x: string)
    requires UniqueAccounts(accounts)
    ensures TypesOf(MergeAll(accounts, ids, t), x) == TypesOf(accounts, x) + Repeat(t, multiset(ids)[x])
    decreases |ids|
  {
    if ids != [] {
      var front, last := ids[..|ids| - 1], ids[|ids| - 1];
      var mf := MergeAll(accounts, front, t);
      var m := MergeOne(mf, last, t);
      assert MergeAll(accounts, ids, t) == m;
      assert TypesOf(mf, x) == TypesOf(accounts, x) + Repeat(t, multiset(front)[x]) by {
        MergeAllTypesOf(accounts, front, t, x);
      }
      assert TypesOf(m, x) == if x == last then TypesOf(mf, x) + [t] else TypesOf(mf, x) by {
        MergeAllUnique(accounts, front, t);
        MergeOneEffect(mf, last, t);
      }
      MultisetSnoc(ids);
      MergeStepTypes(TypesOf(accounts, x), TypesOf(mf, x), TypesOf(m, x), multiset(front)[x], multiset(ids)[x], x == last, t);
    }
  }

  /**
   * Merging a page keeps one entry per account and appends the page's type
   * to each account once per occurrence in the page.
   */
  lemma MergeAllTypes(accounts: seq<Reaction>, ids: seq<string>, t: ReactionType)
    requires UniqueAccounts(accounts)
    ensures var m := MergeAll(accounts, ids, t);
      && UniqueAccounts(m)
      && forall x :: TypesOf(m, x) == TypesOf(accounts, x) + Repeat(t, multiset(ids)[x])
  {
    MergeAllUnique(accounts, ids, t);
    forall x
      ensures TypesOf(MergeAll(accounts, ids, t), x) == TypesOf(accounts, x) + Repeat(t, multiset(ids)[x])
    {
      MergeAllTypesOf(accounts, ids, t, x);
    }
  }

  /** One more occurrence of the account adds one more `t` to its types, another id adds nothing. */
  lemma MergeStepTypes(before: seq<ReactionType>, mid: seq<ReactionType>, after: seq<ReactionType>,
                       n: nat, total: nat, hit: bool, t: ReactionType)
    requires mid == before + Repeat(t, n)
    requires after == if hit then mid + [t] else mid
    requires total == if hit then n + 1 else n
    ensures after == before + Repeat(t, total)
  {
    if hit {
      RepeatSnoc(t, n);
    }
  }

  /** The multiset of a nonempty list is its front's plus its last element. */
  lemma MultisetSnoc<T>(s: seq<T>)
    requires s != []
    ensures multiset(s) == multiset(s[..|s| - 1]) + multiset{s[|s| - 1]}
  {
    assert s == s[..|s| - 1] + [s[|s| - 1]];
  }

  lemma RepeatSnoc(t: ReactionType, n: nat)
    ensures Repeat(t, n) + [t] == Repeat(t, n + 1)
  {
  }

  /**
   * From an empty list, one page of boosters then one of favouriters gives
   * every account its boosts first, then its favourites, one per occurrence.
   */
  lemma ReactionTypesFromEmpty(reblogIds: seq<string>, favouriteIds: seq<string>)
    ensures var m := MergeAll(MergeAll([], reblogIds, Reblog), favouriteIds, Favourited);
      && UniqueAccounts(m)
      && forall x :: TypesOf(m, x) == Repeat(Reblog, multiset(reblogIds)[x]) + Repeat(Favourited, multiset(favouriteIds)[x])
  {
    MergeAllTypes([], reblogIds, Reblog);
    MergeAllTypes(MergeAll([], reblogIds, Reblog), favouriteIds, Favourited);
    assert forall x :: TypesOf([], x) == [];
  }

  /** `ReactionsModal`: the merged account list, the "show more" flag, the UI state and the two iterators. */
  class ReactionsList {
    var accounts: seq<Reaction>
    var showMore: bool
    var uiState: UIState
    var reblogCursor: nat
    var favouriteCursor: nat

    constructor()
      ensures accounts == [] && !showMore && uiState == Default && reblogCursor == 0 && favouriteCursor == 0
    {
      accounts, showMore, uiState := [], false, Default;
      reblogCursor, favouriteCursor := 0, 0;
    }

    /** The `for … of` loop over one page. */
    method MergePage(ids: seq<string>, t: ReactionType)
      modifies this
      ensures accounts == MergeAll(old(accounts), ids, t)
      ensures showMore == old(showMore) && uiState == old(uiState)
      ensures reblogCursor == old(reblogCursor) && favouriteCursor == old(favouriteCursor)
    {
      var i := 0;
      while i < |ids|
        invariant 0 <= i <= |ids|
        invariant accounts == MergeAll(old(accounts), ids[..i], t)
        invariant showMore == old(showMore) && uiState == old(uiState)
        invariant reblogCursor == old(reblogCursor) && favouriteCursor == old(favouriteCursor)
      {
        assert ids[..i + 1][..i] == ids[..i];
        var found := FindAccount(accounts, ids[i]);
        if found.None? {
          accounts := accounts + [Reaction(ids[i], [t])];
        } else {
          var j := found.value;
          accounts := accounts[j := accounts[j].(types := accounts[j].types + [t])];
        }
        i := i + 1;
      }
      assert ids[..i] == ids;
    }

    /**
     * `fetchAccounts(firstLoad)`. `reblogPages(n)` and `favouritePages(n)` are
     * the n-th pages of the two iterators, `None` when that request is
     * rejected. Both are awaited with `allSettled`; reading a rejected one
     * throws, so boosters already merged stay merged when only the
     * favouriters failed, and the state becomes `Failed`.
     */
    method FetchAccounts(firstLoad: bool, reblogPages: nat -> Option<AccountPage>, favouritePages: nat -> Option<AccountPage>)
      modifies this
      ensures var rc := if firstLoad then 0 else old(reblogCursor);
        var fc := if firstLoad then 0 else old(favouriteCursor);
        var r, f := reblogPages(rc), favouritePages(fc);
        && reblogCursor == (if r.Some? then rc + 1 else rc)
        && favouriteCursor == (if f.Some? then fc + 1 else fc)
        && (r.None? ==> uiState == Failed && accounts == old(accounts) && !showMore)
        && (r.Some? && f.None? ==>
              uiState == Failed && !showMore && accounts == MergeAll(old(accounts), r.value.accountIds, Reblog))
        && (r.Some? && f.Some? ==>
              && uiState == Default
              && accounts == MergeAll(MergeAll(old(accounts), r.value.accountIds, Reblog), f.value.accountIds, Favourited)
              && showMore == ((|r.value.accountIds| > 0 || |f.value.accountIds| > 0) && (!r.value.done || !f.value.done)))
    {
      showMore := false;
      uiState := Loading;
      if firstLoad {
        reblogCursor, favouriteCursor := 0, 0;
      }
      var r, f := reblogPages(reblogCursor), favouritePages(favouriteCursor);
      if r.Some? {
        reblogCursor := reblogCursor + 1;
      }
      if f.Some? {
        favouriteCursor := favouriteCursor + 1;
      }
      if r.None? {
        uiState := Failed;
        return;
      }
      if |r.value.accountIds| > 0 {
        MergePage(r.value.accountIds, Reblog);
        if f.None? {
          uiState := Failed;
          return;
        }
        MergePage(f.value.accountIds, Favourited);
        showMore := !r.value.done || !f.value.done;
      } else {
        if f.None? {
          uiState := Failed;
          return;
        }
        assert MergeAll(accounts, r.value.accountIds, Reblog) == accounts;
        if |f.value.accountIds| > 0 {
          MergePage(f.value.accountIds, Favourited);
          showMore := !r.value.done || !f.value.done;
        } else {
          assert MergeAll(accounts, f.value.accountIds, Favourited) == accounts;
          showMore := false;
        }
      }
      uiState := Default;
    }
  }
}

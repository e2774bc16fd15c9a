/**
 * The account posts page (src/pages/account-statuses.jsx): a first load puts
 * the account's pinned posts in front of the first page, flagged as pinned
 * and grouped when there are several; later loads read on from the same
 * page iterator.
 */
module AccountStatuses {
  import opened Optional
  import opened States

  /** An item of the page's results: a post, or the `{id, items, type: 'pinned'}` group. */
  datatype Entry = Post(status: Status) | PinnedGroup(ids: seq<string>, items: seq<Status>)

  /** What `fetchAccountStatuses` resolves to. */
  datatype Fetched = Fetched(value: seq<Entry>, done: bool)

  /** The posts with `_pinned = true` set. */
  function PinAll(ss: seq<Status>): (r: seq<Status>)
    ensures |r| == |ss|
    ensures forall i :: 0 <= i < |ss| ==> r[i] == ss[i].(pinned := true)
  {
    seq(|ss|, i requires 0 <= i < |ss| => ss[i].(pinned := true))
  }

  /** `(status) => status.id` of `pinnedStatuses.map`: a post's id. */
  function StatusId(s: Status): string {
    s.id
  }

  /** `results.push(...value)`: each post as its own entry. */
  function Posts(ss: seq<Status>): (r: seq<Entry>)
    ensures |r| == |ss| && forall i :: 0 <= i < |ss| ==> r[i] == Post(ss[i])
  {
    seq(|ss|, i requires 0 <= i < |ss| => Post(ss[i]))
  }

  /** What the pinned posts contribute: nothing, the single post, or one group of all of them. */
  function PinnedPart(pinned: seq<Status>): seq<Entry> {
    var flagged := PinAll(pinned);
    if |pinned| > 1 then [PinnedGroup(Ids(flagged, StatusId), flagged)] else Posts(flagged)
  }

  /** The posts an entry shows, in order. */
  function EntryStatuses(e: Entry): seq<Status> {
    match e
    case Post(s) => [s]
    case PinnedGroup(_, items) => items
  }

  function AllStatuses(es: seq<Entry>): seq<Status>
    decreases |es|
  {
    if es == [] then [] else AllStatuses(es[..|es| - 1]) + EntryStatuses(es[|es| - 1])
  }

  lemma {:induction false} AllStatusesAppend(a: seq<Entry>, b: seq<Entry>)
    ensures AllStatuses(a + b) == AllStatuses(a) + AllStatuses(b)
    decreases |b|
  {
    if b == [] {
      assert a + b == a;
    } else {
      assert (a + b)[..|a + b| - 1] == a + b[..|b| - 1];
      AllStatusesAppend(a, b[..|b| - 1]);
    }
  }

  lemma {:induction false} AllStatusesOfPosts(ss: seq<Status>)
    ensures AllStatuses(Posts(ss)) == ss
    decreases |ss|
  {
    if ss != [] {
      assert Posts(ss)[..|ss| - 1] == Posts(ss[..|ss| - 1]);
      AllStatusesOfPosts(ss[..|ss| - 1]);
    }
  }

  /**
   * The results of a load show every pinned post (flagged) once, in order,
   * then the page's posts in order; pinning changes no id; the pinned part
   * takes at most one entry.
   */
  lemma FirstLoadShows(pinned: seq<Status>, value: seq<Status>)
    ensures var es := PinnedPart(pinned) + Posts(value);
      && AllStatuses(es) == PinAll(pinned) + value
      && |es| == |value| + (if pinned == [] then 0 else 1)
      && Ids(PinAll(pinned), StatusId) == Ids(pinned, StatusId)
      && forall s :: s in AllStatuses(PinnedPart(pinned)) ==> s.pinned
  {
    PinnedPartShows(pinned);
    assert AllStatuses(PinnedPart(pinned) + Posts(value)) == PinAll(pinned) + value by {
      AllStatusesAppend(PinnedPart(pinned), Posts(value));
      AllStatusesOfPosts(value);
    }
    assert Ids(PinAll(pinned), StatusId) == Ids(pinned, StatusId);
  }

  /** The pinned part shows exactly the flagged pinned posts, in one entry at most. */
  lemma PinnedPartShows(pinned: seq<Status>)
    ensures AllStatuses(PinnedPart(pinned)) == PinAll(pinned)
    ensures |PinnedPart(pinned)| == if pinned == [] then 0 else 1
  {
    var flagged := PinAll(pinned);
    if |pinned| > 1 {
      assert AllStatuses(PinnedPart(pinned)) == AllStatuses([]) + flagged;
    } else {
      AllStatusesOfPosts(flagged);
    }
  }

  /** With several pinned posts, the group comes first and carries their ids in order. */
  lemma PinnedGroupFirst(pinned: seq<Status>, value: seq<Status>)
    requires |pinned| > 1
    ensures var es := PinnedPart(pinned) + Posts(value);
      && es[0].PinnedGroup? && es[0].ids == Ids(pinned, StatusId) && es[0].items == PinAll(pinned)
      && forall i :: 1 <= i < |es| ==> es[i] == Post(value[i - 1])
  {
    assert Ids(PinAll(pinned), StatusId) == Ids(pinned, StatusId);
  }

  /** The page state: the account and `accountStatusesIterator.current` as the next page to read. */
  class AccountTimeline {
    const accountId: string
    var pager: Option<nat>

    constructor(accountId: string)
      ensures this.accountId == accountId && pager == None
    {
      this.accountId := accountId;
      pager := None;
    }

    /** The `forEach` that sets `_pinned` on every pinned post. */
    static method FlagPinned(ss: seq<Status>) returns (r: seq<Status>)
      ensures r == PinAll(ss)
    {
      r := ss;
      var i := 0;
      while i < |r|
        invariant 0 <= i <= |r| == |ss|
        invariant forall k :: 0 <= k < i ==> r[k] == ss[k].(pinned := true)
        invariant forall k :: i <= k < |r| ==> r[k] == ss[k]
      {
        r := r[i := r[i].(pinned := true)];
        i := i + 1;
      }
    }

    /**
     * `fetchAccountStatuses(firstLoad)`. `pinned` is the first page of the
     * account's pinned posts and `pages(n)` the n-th page of its posts; None
     * is a failed request, whose error reaches the caller. Pinned posts are
     * requested on a first load only, before the iterator is opened afresh;
     * a later load reuses the iterator when there is one.
     */
    method FetchAccountStatuses(firstLoad: bool, pinned: Option<seq<Status>>, pages: nat -> Option<Page>)
      returns (result: Option<Fetched>)
      modifies this
      ensures firstLoad && pinned.None? ==> result.None? && pager == old(pager)
      ensures !(firstLoad && pinned.None?) ==>
        var start := if firstLoad || old(pager).None? then 0 else old(pager).value;
        && (pages(start).None? ==> result.None? && pager == Some(start))
        && (pages(start).Some? ==>
              && pager == Some(start + 1)
              && result == Some(Fetched(
                   (if firstLoad then PinnedPart(pinned.value) else []) + Posts(pages(start).value.value),
                   pages(start).value.done)))
    {
      var results: seq<Entry> := [];
      if firstLoad {
        if pinned.None? {
          return None;
        }
        var pinnedStatuses := pinned.value;
        if |pinnedStatuses| > 0 {
          var flagged := FlagPinned(pinnedStatuses);
          if |pinnedStatuses| > 1 {
            results := results + [PinnedGroup(Ids(flagged, StatusId), flagged)];
          } else {
            results := results + Posts(flagged);
          }
        }
        assert results == PinnedPart(pinnedStatuses);
      }
      if firstLoad || pager.None? {
        pager := Some(0);
      }
      var start := pager.value;
      var page := pages(start);
      if page.None? {
        return None;
      }
      pager := Some(start + 1);
      results := results + Posts(page.value.value);
      result := Some(Fetched(results, page.value.done));
    }
  }
}

/**
 * The home timeline (src/pages/home-v1.jsx): one page of `fetchStatuses`
 * sorted newest first, projected to view entries, optionally regrouped into a
 * boosts carousel, then replacing or extending `states.home`; and the
 * "New posts" button that prepends unseen streamed entries.
 */
module Home {
  import opened Optional
  import opened States

  /** The view entry `{id, reblog, reply}` kept for each status. */
  datatype HomeItem = HomeItem(id: string, reblog: Option<string>, reply: bool)

  /** An entry of `states.home`: a single item, or a carousel group `{id: [ids], boosts}`. */
  datatype HomeEntry = Item(item: HomeItem) | Group(ids: seq<string>, boosts: seq<HomeItem>)

  /** `{id, reblog: status.reblog?.id, reply: !!status.inReplyToAccountId}` */
  function Project(s: Status): HomeItem {
    HomeItem(s.id,
             if s.reblog.Some? then Some(s.reblog.value.id) else None,
             s.inReplyToAccountId.Some? && s.inReplyToAccountId.value != "")
  }

  function ProjectAll(ss: seq<Status>): (r: seq<HomeItem>)
    ensures |r| == |ss| && forall i :: 0 <= i < |ss| ==> r[i] == Project(ss[i])
  {
    seq(|ss|, i requires 0 <= i < |ss| => Project(ss[i]))
  }

  // ---------------------------------------------------------------------------
  // sorting a page

  /** Latest first: `createdAt` never increases along the page. */
  predicate NewestFirst(ss: seq<Status>) {
    forall i, j :: 0 <= i < j < |ss| ==> ss[i].createdAt >= ss[j].createdAt
  }

  /** The first `n` statuses are latest first. */
  predicate NewestFirstUpTo(ss: seq<Status>, n: int) {
    forall k, l :: 0 <= k < l < n && l < |ss| ==> ss[k].createdAt >= ss[l].createdAt
  }

  /** The in-place `sort` of the page by `createdAt`, latest first. */
  method SortPage(a: array<Status>)
    modifies a
    ensures NewestFirst(a[..])
    ensures multiset(a[..]) == multiset(old(a[..]))
  {
    var i := 0;
    while i < a.Length
      invariant 0 <= i <= a.Length
      invariant NewestFirstUpTo(a[..], i)
      invariant multiset(a[..]) == multiset(old(a[..]))
    {
      InsertNewest(a, i);
      i := i + 1;
    }
  }

  /** Up to `i`, every pair is in order except those whose later member sits at `j`. */
  predicate InOrderBut(ss: seq<Status>, i: int, j: int) {
    forall k, l :: 0 <= k < l <= i && l < |ss| && l != j ==> ss[k].createdAt >= ss[l].createdAt
  }

  /** Moves `a[i]` left past the statuses older than it, extending the sorted prefix by one. */
  method InsertNewest(a: array<Status>, i: nat)
    requires i < a.Length
    requires NewestFirstUpTo(a[..], i)
    modifies a
    ensures NewestFirstUpTo(a[..], i + 1)
    ensures multiset(a[..]) == multiset(old(a[..]))
  {
    var j := i;
    while j > 0 && a[j - 1].createdAt < a[j].createdAt
      invariant 0 <= j <= i
      invariant InOrderBut(a[..], i, j)
      invariant multiset(a[..]) == multiset(old(a[..]))
    {
      ghost var before := a[..];
      a[j - 1], a[j] := a[j], a[j - 1];
      assert a[..] == before[j - 1 := before[j]][j := before[j - 1]];
      InsertStep(before, i, j);
      SwapMultiset(before, j - 1, j);
      j := j - 1;
    }
    InsertDone(a[..], i, j);
  }

  /** Swapping the out-of-order pair at `j - 1`, `j` moves the gap one place left. */
  lemma InsertStep(ss: seq<Status>, i: nat, j: nat)
    requires 0 < j <= i < |ss|
    requires InOrderBut(ss, i, j)
    requires ss[j - 1].createdAt < ss[j].createdAt
    ensures InOrderBut(ss[j - 1 := ss[j]][j := ss[j - 1]], i, j - 1)
  {
  }

  /** Once the item at the gap is no newer than its left neighbour, the prefix through `i` is in order. */
  lemma InsertDone(ss: seq<Status>, i: nat, j: nat)
    requires j <= i < |ss|
    requires InOrderBut(ss, i, j)
    requires j == 0 || ss[j - 1].createdAt >= ss[j].createdAt
    ensures NewestFirstUpTo(ss, i + 1)
  {
  }

  lemma SwapMultiset<T>(s: seq<T>, i: nat, j: nat)
    requires i < j < |s|
    ensures multiset(s[i := s[j]][j := s[i]]) == multiset(s)
  {
  }

  // ---------------------------------------------------------------------------
  // the boosts carousel

  /** A boost: `status.reblog` is a (non-empty) id. */
  predicate IsBoost(v: HomeItem) {
    v.reblog.Some? && v.reblog.value != ""
  }

  /** The boosts of `vs`, in order (`boostStash`). */
  function Boosts(vs: seq<HomeItem>): (r: seq<HomeItem>)
    ensures forall i :: 0 <= i < |r| ==> IsBoost(r[i])
  {
    if vs == [] then []
    else Boosts(vs[..|vs| - 1]) + if IsBoost(vs[|vs| - 1]) then [vs[|vs| - 1]] else []
  }

  /** The other entries of `vs`, in order (`specialHome` before grouping). */
  function NonBoosts(vs: seq<HomeItem>): (r: seq<HomeItem>)
    ensures forall i :: 0 <= i < |r| ==> !IsBoost(r[i])
  {
    if vs == [] then []
    else NonBoosts(vs[..|vs| - 1]) + if IsBoost(vs[|vs| - 1]) then [] else [vs[|vs| - 1]]
  }

  /** The number of boosts that end `vs`. */
  function TrailingBoosts(vs: seq<HomeItem>): (n: nat)
    ensures n <= |vs|
  {
    if vs == [] || !IsBoost(vs[|vs| - 1]) then 0 else 1 + TrailingBoosts(vs[..|vs| - 1])
  }

  /** Three boosts in a row start at index `k`. */
  predicate RunOf3At(vs: seq<HomeItem>, k: int) {
    0 <= k && k + 3 <= |vs| && IsBoost(vs[k]) && IsBoost(vs[k + 1]) && IsBoost(vs[k + 2])
  }

  predicate HasBoostRun(vs: seq<HomeItem>) {
    exists k :: 0 <= k < |vs| && RunOf3At(vs, k)
  }

  /** `(status) => status.id` of `boostStash.map`: a timeline item's id. */
  function ItemId(v: HomeItem): string {
    v.id
  }

  function Items(vs: seq<HomeItem>): (r: seq<HomeEntry>)
    ensures |r| == |vs| && forall i :: 0 <= i < |vs| ==> r[i] == Item(vs[i])
  {
    seq(|vs|, i requires 0 <= i < |vs| => Item(vs[i]))
  }

  /** Whether the page is regrouped: more than a quarter boosts, or a run of three boosts. */
  predicate Grouped(vs: seq<HomeItem>) {
    4 * |Boosts(vs)| > |vs| || HasBoostRun(vs)
  }

  /**
   * The page after the carousel rule: one group of all boosts, at the end
   * when more than three quarters are boosts, otherwise in the middle of the
   * remaining entries; a page that is not grouped is left as it is.
   */
  function Carousel(vs: seq<HomeItem>): seq<HomeEntry> {
    var b, nb := Boosts(vs), NonBoosts(vs);
    if !Grouped(vs) then Items(vs)
    else
      var g := Group(Ids(b, ItemId), b);
      if 4 * |b| > 3 * |vs| then Items(nb) + [g]
      else Items(nb)[..|nb| / 2] + [g] + Items(nb)[|nb| / 2..]
  }

  /** The items an entry stands for. */
  function EntryItems(e: HomeEntry): seq<HomeItem> {
    match e
    case Item(v) => [v]
    case Group(_, boosts) => boosts
  }

  function Flatten(es: seq<HomeEntry>): seq<HomeItem> {
    if es == [] then [] else EntryItems(es[0]) + Flatten(es[1..])
  }

  lemma {:induction false} FlattenAppend(a: seq<HomeEntry>, b: seq<HomeEntry>)
    ensures Flatten(a + b) == Flatten(a) + Flatten(b)
    decreases |a|
  {
    if a != [] {
      assert (a + b)[0] == a[0] && (a + b)[1..] == a[1..] + b;
      FlattenAppend(a[1..], b);
      calc {
        Flatten(a + b);
        EntryItems(a[0]) + Flatten(a[1..] + b);
        EntryItems(a[0]) + (Flatten(a[1..]) + Flatten(b));
        (EntryItems(a[0]) + Flatten(a[1..])) + Flatten(b);
      }
    } else {
      assert a + b == b;
    }
  }

  lemma {:induction false} FlattenItems(vs: seq<HomeItem>)
    ensures Flatten(Items(vs)) == vs
    decreases |vs|
  {
    if vs != [] {
      assert Items(vs)[1..] == Items(vs[1..]);
      FlattenItems(vs[1..]);
    }
  }

  /** The split into boosts and the rest loses and invents nothing. */
  lemma {:induction false} BoostsPartition(vs: seq<HomeItem>)
    ensures multiset(Boosts(vs)) + multiset(NonBoosts(vs)) == multiset(vs)
    ensures |Boosts(vs)| + |NonBoosts(vs)| == |vs|
    decreases |vs|
  {
    if vs != [] {
      var front, x := vs[..|vs| - 1], vs[|vs| - 1];
      BoostsPartition(front);
      assert vs == front + [x];
      if IsBoost(x) {
        assert Boosts(vs) == Boosts(front) + [x] && NonBoosts(vs) == NonBoosts(front);
      } else {
        assert Boosts(vs) == Boosts(front) && NonBoosts(vs) == NonBoosts(front) + [x];
      }
    }
  }

  /** Every item of the page appears exactly once in the carousel's output, as an item or inside the group. */
  lemma CarouselKeepsEveryItem(vs: seq<HomeItem>)
    ensures multiset(Flatten(Carousel(vs))) == multiset(vs)
  {
    var b, nb := Boosts(vs), NonBoosts(vs);
    BoostsPartition(vs);
    if !Grouped(vs) {
      FlattenItems(vs);
    } else {
      var h := if 4 * |b| > 3 * |vs| then |nb| else |nb| / 2;
      CarouselAsSplice(vs);
      FlattenInserted(nb, h, Group(Ids(b, ItemId), b));
      SpliceMultiset(nb, b, h);
    }
  }

  /** A grouped page is its non-boosts with the group spliced in at the placement index. */
  lemma CarouselAsSplice(vs: seq<HomeItem>)
    requires Grouped(vs)
    ensures var b, nb := Boosts(vs), NonBoosts(vs);
      var h := if 4 * |b| > 3 * |vs| then |nb| else |nb| / 2;
      Carousel(vs) == Items(nb)[..h] + [Group(Ids(b, ItemId), b)] + Items(nb)[h..]
  {
    var nb := NonBoosts(vs);
    assert Items(nb)[..|nb|] == Items(nb) && Items(nb)[|nb|..] == [];
  }

  lemma SpliceMultiset(nb: seq<HomeItem>, b: seq<HomeItem>, h: nat)
    requires h <= |nb|
    ensures multiset(nb[..h] + b + nb[h..]) == multiset(nb) + multiset(b)
  {
    assert nb[..h] + nb[h..] == nb;
  }

  /** Inserting a group into a run of single items flattens to the items with the group's boosts spliced in. */
  lemma FlattenInserted(nb: seq<HomeItem>, h: nat, g: HomeEntry)
    requires h <= |nb|
    ensures Flatten(Items(nb)[..h] + [g] + Items(nb)[h..]) == nb[..h] + EntryItems(g) + nb[h..]
  {
    assert Items(nb)[..h] == Items(nb[..h]) && Items(nb)[h..] == Items(nb[h..]);
    assert Flatten([g]) == EntryItems(g);
    FlattenAppend(Items(nb)[..h] + [g], Items(nb)[h..]);
    FlattenAppend(Items(nb)[..h], [g]);
    FlattenItems(nb[..h]);
    FlattenItems(nb[h..]);
  }

  /**
   * A grouped page holds the non-boosts in order with exactly one group
   * entry, placed last when boosts are more than three quarters of the page
   * and at index half the non-boosts otherwise.
   */
  lemma CarouselPlacement(vs: seq<HomeItem>)
    requires Grouped(vs)
    ensures var r, nb := Carousel(vs), NonBoosts(vs);
      var at := if 4 * |Boosts(vs)| > 3 * |vs| then |nb| else |nb| / 2;
      && |r| == |nb| + 1
      && r[at] == Group(Ids(Boosts(vs), ItemId), Boosts(vs))
      && (forall i :: 0 <= i < at ==> r[i] == Item(nb[i]))
      && (forall i :: at < i < |r| ==> r[i] == Item(nb[i - 1]))
  {
    var b, nb := Boosts(vs), NonBoosts(vs);
    var h := if 4 * |b| > 3 * |vs| then |nb| else |nb| / 2;
    CarouselAsSplice(vs);
    SpliceAt(Items(nb), Group(Ids(b, ItemId), b), h);
  }

  /** Where everything sits after splicing `g` in at index `h`. */
  lemma SpliceAt<T>(xs: seq<T>, g: T, h: nat)
    requires h <= |xs|
    ensures var r := xs[..h] + [g] + xs[h..];
      && |r| == |xs| + 1
      && r[h] == g
      && (forall i :: 0 <= i < h ==> r[i] == xs[i])
      && (forall i :: h < i < |r| ==> r[i] == xs[i - 1])
  {
  }

  /** A page that ends in three (or two) boosts has them as its last three (or two) items. */
  lemma {:induction false} TrailingRun(vs: seq<HomeItem>)
    ensures TrailingBoosts(vs) >= 3 ==> RunOf3At(vs, |vs| - 3)
    ensures TrailingBoosts(vs) >= 2 ==> IsBoost(vs[|vs| - 1]) && IsBoost(vs[|vs| - 2])
  {
    if TrailingBoosts(vs) >= 2 {
      var f := vs[..|vs| - 1];
      assert TrailingBoosts(f) >= 1;
      assert f[|f| - 1] == vs[|vs| - 2];
      if TrailingBoosts(vs) >= 3 {
        var ff := f[..|f| - 1];
        assert TrailingBoosts(ff) >= 1;
        assert ff[|ff| - 1] == vs[|vs| - 3];
      }
    }
  }

  /** How one more item changes whether the page holds a run of three boosts. */
  lemma RunStep(s: seq<HomeItem>, x: HomeItem)
    ensures HasBoostRun(s + [x]) <==> HasBoostRun(s) || (IsBoost(x) && TrailingBoosts(s) >= 2)
  {
    var t := s + [x];
    if HasBoostRun(s) {
      var k :| 0 <= k < |s| && RunOf3At(s, k);
      assert t[k] == s[k] && t[k + 1] == s[k + 1] && t[k + 2] == s[k + 2];
      assert RunOf3At(t, k);
    } else if IsBoost(x) && TrailingBoosts(s) >= 2 {
      TrailingRun(s);
      assert RunOf3At(t, |s| - 2);
    }
    if HasBoostRun(t) {
      var k :| 0 <= k < |t| && RunOf3At(t, k);
      if k + 3 <= |s| {
        assert t[k] == s[k] && t[k + 1] == s[k + 1] && t[k + 2] == s[k + 2];
        assert RunOf3At(s, k);
      } else {
        assert k == |s| - 2;
        assert TrailingBoosts(s[..|s| - 1]) >= 1 by {
          assert s[..|s| - 1][|s| - 2] == s[|s| - 2];
        }
      }
    }
  }

  /** One more entry extends the boost stash or the other list, and the trailing run. */
  lemma SplitStep(s: seq<HomeItem>, v: HomeItem)
    ensures Boosts(s + [v]) == Boosts(s) + if IsBoost(v) then [v] else []
    ensures NonBoosts(s + [v]) == NonBoosts(s) + if IsBoost(v) then [] else [v]
    ensures TrailingBoosts(s + [v]) == if IsBoost(v) then TrailingBoosts(s) + 1 else 0
  {
    var t := s + [v];
    assert t[..|t| - 1] == s && t[|t| - 1] == v;
  }

  /**
   * The carousel pass: one loop splitting boosts from the rest while counting
   * consecutive boosts (the count stops resetting once it reaches 3), then
   * the threshold rule.
   */
  method BoostsCarousel(values: seq<HomeItem>) returns (r: seq<HomeEntry>)
    ensures r == Carousel(values)
  {
    var special: seq<HomeItem> := [];
    var stash: seq<HomeItem> := [];
    var serialBoosts := 0;
    var i := 0;
    while i < |values|
      invariant 0 <= i <= |values|
      invariant stash == Boosts(values[..i]) && special == NonBoosts(values[..i])
      invariant serialBoosts >= 3 <==> HasBoostRun(values[..i])
      invariant serialBoosts < 3 ==> serialBoosts == TrailingBoosts(values[..i])
    {
      var v := values[i];
      assert values[..i + 1] == values[..i] + [v];
      RunStep(values[..i], v);
      SplitStep(values[..i], v);
      if IsBoost(v) {
        stash := stash + [v];
        serialBoosts := serialBoosts + 1;
      } else {
        special := special + [v];
        if serialBoosts < 3 {
          serialBoosts := 0;
        }
      }
      i := i + 1;
    }
    assert values[..i] == values;
    if 4 * |stash| > |values| || serialBoosts >= 3 {
      var g := Group(Ids(stash, ItemId), stash);
      if 4 * |stash| > 3 * |values| {
        r := Items(special) + [g];
      } else {
        var half := |special| / 2;
        r := Items(special)[..half] + [g] + Items(special)[half..];
      }
    } else {
      r := Items(values);
    }
  }

  // ---------------------------------------------------------------------------
  // saving a page

  /** The cache after saving every status of the page in order. */
  function SaveAll(statuses: map<string, Status>, ss: seq<Status>, instance: string): map<string, Status>
    decreases |ss|
  {
    if ss == [] then statuses
    else SaveInto(SaveAll(statuses, ss[..|ss| - 1], instance), Some(ss[|ss| - 1]), instance, true)
  }

  /** After saving a page, every status and every embedded reblog of it is cached, and older keys stay. */
  lemma {:induction false} SaveAllCaches(statuses: map<string, Status>, ss: seq<Status>, instance: string)
    ensures var m := SaveAll(statuses, ss, instance);
      && statuses.Keys <= m.Keys
      && forall i :: 0 <= i < |ss| ==> WrittenKeys(ss[i], instance) <= m.Keys
    decreases |ss|
  {
    if ss != [] {
      var front, last := ss[..|ss| - 1], ss[|ss| - 1];
      var mf := SaveAll(statuses, front, instance);
      var m := SaveInto(mf, Some(last), instance, true);
      SaveAllCaches(statuses, front, instance);
      assert mf.Keys <= m.Keys && WrittenKeys(last, instance) <= m.Keys;
      forall i | 0 <= i < |ss| ensures WrittenKeys(ss[i], instance) <= m.Keys {
        if i < |ss| - 1 {
          assert ss[i] == front[i];
        }
      }
    }
  }

  /** The threading jobs a page's saves schedule, one per status. */
  function JobsFor(ss: seq<Status>, instance: string): (r: seq<ThreadJob>)
    ensures |r| == |ss| && forall i :: 0 <= i < |ss| ==> r[i] == ThreadJob(ss[i], instance)
  {
    seq(|ss|, i requires 0 <= i < |ss| => ThreadJob(ss[i], instance))
  }

  /** The entries a sorted page contributes, with or without the carousel. */
  function PageEntries(sorted: seq<Status>, boostsCarousel: bool): seq<HomeEntry> {
    var values := ProjectAll(sorted);
    if boostsCarousel then Carousel(values) else Items(values)
  }

  /** Some single entry of the timeline has the id `id` (a carousel group does not count). */
  predicate Seen(id: string, home: seq<HomeEntry>) {
    exists e :: e in home && e.Item? && e.item.id == id
  }

  /** The streamed entries "New posts" keeps: those whose id no single entry of `home` has. */
  function Unseen(homeNew: seq<HomeItem>, home: seq<HomeEntry>): (r: seq<HomeItem>)
    ensures forall v {:trigger v in r} :: v in r <==> v in homeNew && !Seen(v.id, home)
  {
    if homeNew == [] then []
    else
      var rest := Unseen(homeNew[1..], home);
      var v := homeNew[0];
      if Seen(v.id, home) then rest else [v] + rest
  }

  /** One step of the filter: the first entry is kept or dropped by its id. */
  lemma UnseenCons(s: seq<HomeItem>, home: seq<HomeEntry>)
    requires s != []
    ensures Unseen(s, home) == (if Seen(s[0].id, home) then [] else [s[0]]) + Unseen(s[1..], home)
  {
  }

  /**
   * `Unseen` is the `filter`: it distributes over concatenation and keeps or
   * drops each single entry by its id, so the kept entries stay in their
   * streamed order, duplicates included.
   */
  lemma {:induction false} UnseenIsFilter(a: seq<HomeItem>, b: seq<HomeItem>, home: seq<HomeEntry>)
    ensures Unseen(a + b, home) == Unseen(a, home) + Unseen(b, home)
    ensures |a| == 1 ==> Unseen(a, home) == if Seen(a[0].id, home) then [] else a
    decreases |a|
  {
    if a == [] {
      assert a + b == b;
    } else {
      var ab := a + b;
      assert ab != [] && ab[0] == a[0] && ab[1..] == a[1..] + b;
      UnseenCons(ab, home);
      UnseenCons(a, home);
      UnseenIsFilter(a[1..], b, home);
      if |a| == 1 {
        assert a[1..] == [] && a == [a[0]];
      }
    }
  }

  /** The page's array, sorted in place and read back. */
  method SortedCopy(all: seq<Status>) returns (sorted: seq<Status>)
    ensures multiset(sorted) == multiset(all) && NewestFirst(sorted)
    ensures |sorted| == |all|
  {
    var a := new Status[|all|](i requires 0 <= i < |all| => all[i]);
    assert a[..] == all;
    SortPage(a);
    sorted := a[..];
    assert |sorted| == |multiset(sorted)| == |multiset(all)| == |all|;
  }

  /** The `saveStatus(status, instance)` made for each status of the page as it is projected. */
  method SavePage(cache: StatusCache, sorted: seq<Status>, instance: string)
    modifies cache
    ensures cache.statuses == SaveAll(old(cache.statuses), sorted, instance)
    ensures cache.scheduled == old(cache.scheduled) + JobsFor(sorted, instance)
    ensures cache.threadNumbers == old(cache.threadNumbers)
  {
    var i := 0;
    while i < |sorted|
      invariant 0 <= i <= |sorted|
      invariant cache.statuses == SaveAll(old(cache.statuses), sorted[..i], instance)
      invariant cache.scheduled == old(cache.scheduled) + JobsFor(sorted[..i], instance)
      invariant cache.threadNumbers == old(cache.threadNumbers)
    {
      SaveAllStep(old(cache.statuses), sorted, i, instance);
      JobsForStep(sorted, i, instance);
      cache.SaveStatus(Some(sorted[i]), Name(instance), None);
      i := i + 1;
    }
    assert sorted[..i] == sorted;
  }

  lemma SaveAllStep(statuses: map<string, Status>, ss: seq<Status>, i: nat, instance: string)
    requires i < |ss|
    ensures SaveAll(statuses, ss[..i + 1], instance)
         == SaveInto(SaveAll(statuses, ss[..i], instance), Some(ss[i]), instance, true)
  {
    assert ss[..i + 1][..i] == ss[..i];
  }

  lemma JobsForStep(ss: seq<Status>, i: nat, instance: string)
    requires i < |ss|
    ensures JobsFor(ss[..i + 1], instance) == JobsFor(ss[..i], instance) + [ThreadJob(ss[i], instance)]
  {
  }

  /** The entries a non-empty sorted page contributes; there is at least one. */
  method PageEntriesOf(sorted: seq<Status>, boostsCarousel: bool) returns (entries: seq<HomeEntry>)
    requires |sorted| > 0
    ensures entries == PageEntries(sorted, boostsCarousel) && |entries| > 0
  {
    var values := ProjectAll(sorted);
    if boostsCarousel {
      entries := BoostsCarousel(values);
      CarouselKeepsEveryItem(values);
      assert values[0] in multiset(Flatten(entries));
    } else {
      entries := Items(values);
    }
  }

  /** `states.home`, `states.homeNew`, `states.homeLast`, `states.homeLastFetchTime` and the page iterator. */
  class HomeTimeline {
    var home: seq<HomeEntry>
    var homeNew: seq<HomeItem>
    var homeLast: Option<HomeEntry>
    var homeLastFetchTime: Option<int>
    var boostsCarousel: bool
    /** The position of `homeIterator` in the server's pages. */
    var cursor: nat
    const cache: StatusCache

    constructor(cache: StatusCache, boostsCarousel: bool)
      ensures this.cache == cache && this.boostsCarousel == boostsCarousel
      ensures home == [] && homeNew == [] && homeLast == None && homeLastFetchTime == None && cursor == 0
    {
      this.cache := cache;
      this.boostsCarousel := boostsCarousel;
      home := [];
      homeNew := [];
      homeLast := None;
      homeLastFetchTime := None;
      cursor := 0;
    }

    /**
     * `fetchStatuses(firstLoad)`. `pages(n)` is the server's n-th page of the
     * home timeline, `None` when that request fails (the error reaches the
     * caller, after the first-load reset). `now` is `Date.now()`. A non-empty
     * page is sorted, saved, projected and carousel-grouped, then replaces
     * `home` on a first load or is appended to it. The page is returned,
     * sorted, with the iterator's `done`, which decides "show more".
     */
    method FetchStatuses(firstLoad: bool, pages: nat -> Option<Page>, instance: string, now: int)
      returns (page: Option<Page>)
      modifies this, cache
      ensures var start := if firstLoad then 0 else old(cursor);
        && (pages(start).None? ==> page.None? && cursor == start && homeLastFetchTime == old(homeLastFetchTime))
        && (pages(start).Some? ==>
              && page.Some? && cursor == start + 1 && homeLastFetchTime == Some(now)
              && page.value.done == pages(start).value.done
              && multiset(page.value.value) == multiset(pages(start).value.value) && NewestFirst(page.value.value))
      ensures homeNew == if firstLoad then [] else old(homeNew)
      ensures boostsCarousel == old(boostsCarousel)
      ensures page.None? || page.value.value == [] ==>
        home == old(home) && homeLast == old(homeLast)
        && cache.statuses == old(cache.statuses) && cache.scheduled == old(cache.scheduled)
      ensures page.Some? && page.value.value != [] ==>
        var entries := PageEntries(page.value.value, boostsCarousel);
        && |entries| > 0
        && (firstLoad ==> home == entries && homeLast == Some(entries[0]))
        && (!firstLoad ==> home == old(home) + entries && homeLast == old(homeLast))
        && cache.statuses == SaveAll(old(cache.statuses), page.value.value, instance)
        && cache.scheduled == old(cache.scheduled) + JobsFor(page.value.value, instance)
      ensures cache.threadNumbers == old(cache.threadNumbers)
    {
      if firstLoad {
        cursor := 0;
        homeNew := [];
      }
      var fetched := pages(cursor);
      if fetched.None? {
        return None;
      }
      cursor := cursor + 1;
      var all := fetched.value.value;
      page := fetched;
      if |all| > 0 {
        var sorted := TakePage(firstLoad, all, instance);
        page := Some(Page(sorted, fetched.value.done));
      }
      homeLastFetchTime := Some(now);
    }

    /** A non-empty page sorted, saved to the cache, and put on the timeline. */
    method TakePage(firstLoad: bool, all: seq<Status>, instance: string) returns (sorted: seq<Status>)
      requires |all| > 0
      modifies this, cache
      ensures multiset(sorted) == multiset(all) && NewestFirst(sorted) && |sorted| > 0
      ensures var entries := PageEntries(sorted, boostsCarousel);
        && |entries| > 0
        && (firstLoad ==> home == entries && homeLast == Some(entries[0]))
        && (!firstLoad ==> home == old(home) + entries && homeLast == old(homeLast))
      ensures cache.statuses == SaveAll(old(cache.statuses), sorted, instance)
      ensures cache.scheduled == old(cache.scheduled) + JobsFor(sorted, instance)
      ensures cache.threadNumbers == old(cache.threadNumbers)
      ensures homeNew == old(homeNew) && boostsCarousel == old(boostsCarousel)
      ensures cursor == old(cursor) && homeLastFetchTime == old(homeLastFetchTime)
    {
      sorted := SortedCopy(all);
      SavePage(cache, sorted, instance);
      var entries := PageEntriesOf(sorted, boostsCarousel);
      if firstLoad {
        homeLast := Some(entries[0]);
        home := entries;
      } else {
        home := home + entries;
      }
    }

    /**
     * The "New posts" button: without the carousel, the streamed entries not
     * already on the timeline are put in front; the buffer is then emptied
     * (a first-load fetch follows).
     */
    method ShowNewPosts()
      modifies this
      ensures home == if boostsCarousel then old(home) else Items(Unseen(old(homeNew), old(home))) + old(home)
      ensures homeNew == []
      ensures homeLast == old(homeLast) && boostsCarousel == old(boostsCarousel) && cursor == old(cursor)
      ensures homeLastFetchTime == old(homeLastFetchTime)
    {
      if !boostsCarousel {
        var unique := Unseen(homeNew, home);
        home := Items(unique) + home;
      }
      homeNew := [];
    }
  }
}

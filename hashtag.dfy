/**
 * The hashtag timeline page (src/pages/hashtag.jsx): the tag list read from
 * the route, the add-tag field and its limit, the per-tag remove items, the
 * "Add to Shortcuts" de-duplication, the "Go to another instance" prompt, and
 * the page fetch that saves every post it receives.
 */
module Hashtags {
  import opened Optional
  import opened Text
  import opened States
  import opened Shortcuts
  import Home

  /** The server combines at most this many tags per mode (`any`, `all`, `none`). */
  const TagsLimitPerMode: nat := 4
  /** The primary tag plus one full mode. */
  const TotalTagsLimit: nat := TagsLimitPerMode + 1

  /** The characters the route parameter is split on: white space and `+`. */
  const TagSeparators: set<char> := Whitespace + {'+'}

  /** A tag that reads back unchanged from a route: non-empty and free of separators. */
  predicate RouteSafe(tags: seq<string>) {
    forall k :: 0 <= k < |tags| ==> tags[k] != [] && Free(tags[k], TagSeparators)
  }

  // ---------------------------------------------------------------------------
  // the tag list of a route

  /** `hashtag.trim().split(/[\s+]+/)`, then `sort()`. */
  function ParseTags(param: string): (r: seq<string>)
    ensures |r| >= 1 && SortedLex(r)
    ensures multiset(r) == multiset(SplitRuns(Trim(param), TagSeparators))
  {
    var pieces := SplitRuns(Trim(param), TagSeparators);
    SortStringsSorted(pieces);
    SortStrings(pieces)
  }

  /** No parsed tag holds a separator; the primary tag is the least of them. */
  lemma ParsedTags(param: string)
    ensures var r := ParseTags(param);
      && (forall k :: 0 <= k < |r| ==> Free(r[k], TagSeparators))
      && (forall k :: 0 <= k < |r| ==> LexLe(r[0], r[k]))
  {
    var pieces := SplitRuns(Trim(param), TagSeparators);
    var r := ParseTags(param);
    forall k | 0 <= k < |r| ensures Free(r[k], TagSeparators) && LexLe(r[0], r[k]) {
      assert r[k] in multiset(pieces);
      SortedHeadLeast(r, r[k]);
    }
  }

  /**
   * A sorted list of route-safe tags joined with any separator (`+` in a
   * route, a space in a shortcut) parses back to itself.
   */
  lemma TagsRoundTrip(tags: seq<string>, sep: char)
    requires |tags| >= 1 && SortedLex(tags) && RouteSafe(tags)
    requires sep in TagSeparators
    ensures ParseTags(Join(tags, sep)) == tags
  {
    var j := Join(tags, sep);
    JoinStartsWithFirst(tags, sep);
    JoinEndsWithLast(tags, sep);
    assert Trim(j) == j;
    SplitJoin(tags, sep, TagSeparators);
    SortStringsOfSorted(tags);
  }

  /** The page's route for `tags`, with the instance segment when one is set. */
  function Route(instance: string, tags: seq<string>): string {
    if instance != "" then "/" + instance + "/t/" + Join(tags, '+') else "/t/" + Join(tags, '+')
  }

  // ---------------------------------------------------------------------------
  // adding and removing tags

  /** `reachLimit`: the add field is disabled. */
  predicate ReachLimit(tags: seq<string>) {
    |tags| >= TotalTagsLimit
  }

  /** The add field's `pattern="[^#][^\s#]+[^#]"`, which must match the whole value. */
  predicate MatchesTagPattern(v: string) {
    && |v| >= 3 && v[0] != '#' && v[|v| - 1] != '#'
    && forall i :: 1 <= i < |v| - 1 ==> !IsSpace(v[i]) && v[i] != '#'
  }

  /** Some tag equals `t` once both are lower-cased. */
  predicate HasTagIgnoringCase(tags: seq<string>, t: string) {
    exists k :: 0 <= k < |tags| && Lower(tags[k]) == Lower(t)
  }

  /** A value the pattern accepts trims to a non-empty tag without white space or `#`. */
  lemma PatternTag(v: string)
    requires MatchesTagPattern(v)
    ensures var t := Trim(v); t != [] && forall k :: 0 <= k < |t| ==> !IsSpace(t[k]) && t[k] != '#'
  {
    PatternNotBlank(v);
    var a := TrimOffset(v);
    PatternSlice(v, Trim(v), a);
  }

  /** A slice of a pattern-matching value that is not white space at either end holds no white space and no `#`. */
  lemma PatternSlice(v: string, t: string, a: nat)
    requires MatchesTagPattern(v)
    requires a + |t| <= |v| && t == v[a..a + |t|]
    requires t != [] && !IsSpace(t[0]) && !IsSpace(t[|t| - 1])
    ensures forall k :: 0 <= k < |t| ==> !IsSpace(t[k]) && t[k] != '#'
  {
    forall k | 0 <= k < |t| ensures !IsSpace(t[k]) && t[k] != '#' {
      PatternSliceAt(v, t, a, k);
    }
  }

  lemma PatternNotBlank(v: string)
    requires MatchesTagPattern(v)
    ensures Trim(v) != []
  {
    assert !IsSpace(v[1]);
  }

  /** A character of a slice of a pattern-matching value that is not white space at either end. */
  lemma PatternSliceAt(v: string, t: string, a: nat, k: nat)
    requires MatchesTagPattern(v)
    requires a + |t| <= |v| && t == v[a..a + |t|] && k < |t|
    requires !IsSpace(t[0]) && !IsSpace(t[|t| - 1])
    ensures !IsSpace(t[k]) && t[k] != '#'
  {
    assert t[k] == v[a + k];
    if a + k == 0 {
      assert k == 0;
    } else if a + k == |v| - 1 {
      assert k == |t| - 1;
    }
  }

  /**
   * The tag list after the add field submits `input`, or None when nothing
   * changes: a disabled field or a value off the pattern does not submit, and
   * a tag already present up to case is not added.
   */
  function AddedTags(tags: seq<string>, input: string): (r: Option<seq<string>>)
    ensures r.Some? <==> !ReachLimit(tags) && MatchesTagPattern(input) && !HasTagIgnoringCase(tags, Trim(input))
    ensures r.Some? ==> SortedLex(r.value) && multiset(r.value) == multiset(tags) + multiset{Trim(input)}
  {
    if ReachLimit(tags) || !MatchesTagPattern(input) then None
    else
      var t := Trim(input);
      PatternTag(input);
      if t == "" || HasTagIgnoringCase(tags, t) then None
      else
        SortStringsSorted(tags + [t]);
        Some(SortStrings(tags + [t]))
  }

  /**
   * An added tag without `+` keeps the list route-safe, so the route the
   * page navigates to parses back to exactly the new list. (A typed `+`
   * passes the pattern and splits into two tags when the route is read.)
   */
  lemma AddedTagsRoundTrip(tags: seq<string>, input: string)
    requires RouteSafe(tags) && AddedTags(tags, input).Some? && '+' !in Trim(input)
    ensures var n := AddedTags(tags, input).value;
      && |n| == |tags| + 1 && RouteSafe(n) && ParseTags(Join(n, '+')) == n
  {
    var n := AddedTags(tags, input).value;
    var t := Trim(input);
    PatternTag(input);
    assert |n| == |multiset(n)| == |multiset(tags)| + 1 == |tags| + 1;
    forall k | 0 <= k < |n| ensures n[k] != [] && Free(n[k], TagSeparators) {
      assert n[k] in multiset(tags) + multiset{t};
      if n[k] != t {
        assert n[k] in tags;
      }
    }
    TagsRoundTrip(n, '+');
  }

  /** No two tags are equal up to case, and none is listed twice. */
  predicate CaseDistinct(tags: multiset<string>) {
    forall a, b :: a in tags && b in tags && Lower(a) == Lower(b) ==> a == b && tags[a] == 1
  }

  /** The case-insensitive check keeps a case-distinct list case-distinct. */
  lemma AddedTagsCaseDistinct(tags: seq<string>, input: string)
    requires CaseDistinct(multiset(tags)) && AddedTags(tags, input).Some?
    ensures CaseDistinct(multiset(AddedTags(tags, input).value))
  {
    var t := Trim(input);
    assert multiset(AddedTags(tags, input).value) == multiset(tags) + multiset{t};
    assert forall a :: a in multiset(tags) ==> Lower(a) != Lower(t) by {
      assert !HasTagIgnoringCase(tags, t);
      forall a | a in multiset(tags) ensures Lower(a) != Lower(t) {
        var k :| 0 <= k < |tags| && tags[k] == a;
      }
    }
    CaseDistinctAdd(multiset(tags), t);
  }

  /** A tag unlike every listed one up to case keeps the list case-distinct. */
  lemma CaseDistinctAdd(tags: multiset<string>, t: string)
    requires CaseDistinct(tags)
    requires forall a :: a in tags ==> Lower(a) != Lower(t)
    ensures CaseDistinct(tags + multiset{t})
  {
    assert t !in tags;
  }

  /**
   * The tag list after the remove item of tag `i`, or None when it is the
   * only tag (the item is disabled).
   */
  function RemovedTags(tags: seq<string>, i: nat): (r: Option<seq<string>>)
    requires i < |tags|
    ensures r.Some? <==> |tags| > 1
    ensures r.Some? ==> SortedLex(r.value) && multiset(r.value) + multiset{tags[i]} == multiset(tags)
  {
    if |tags| == 1 then None
    else
      var rest := tags[..i] + tags[i + 1..];
      assert tags == tags[..i] + [tags[i]] + tags[i + 1..];
      SortStringsSorted(rest);
      Some(SortStrings(rest))
  }

  /** On a sorted list the re-sort after the splice changes nothing: the other tags keep their order. */
  lemma RemovedTagsKeepOrder(tags: seq<string>, i: nat)
    requires i < |tags| && |tags| > 1 && SortedLex(tags)
    ensures RemovedTags(tags, i) == Some(tags[..i] + tags[i + 1..])
  {
    var rest := tags[..i] + tags[i + 1..];
    forall x, y | 0 <= x < y < |rest| ensures LexLe(rest[x], rest[y]) {
      var px := if x < i then x else x + 1;
      var py := if y < i then y else y + 1;
      assert rest[x] == tags[px] && rest[y] == tags[py];
    }
    SortStringsOfSorted(rest);
  }

  /** Removing keeps a case-distinct list case-distinct. */
  lemma RemovedTagsCaseDistinct(tags: seq<string>, i: nat)
    requires i < |tags| && |tags| > 1 && CaseDistinct(multiset(tags))
    ensures CaseDistinct(multiset(RemovedTags(tags, i).value))
  {
    var m := multiset(RemovedTags(tags, i).value);
    assert m <= multiset(tags);
    forall a | a in m ensures m[a] <= multiset(tags)[a] {
    }
  }

  // ---------------------------------------------------------------------------
  // the shortcut for the page

  /** A tag string split on separators, sorted and joined with spaces. */
  function NormalizedTags(h: string): string {
    Join(SortStrings(SplitRuns(h, TagSeparators)), ' ')
  }

  /** The shortcut "Add to Shortcuts" creates. */
  function HashtagShortcut(tags: seq<string>, instance: string): Shortcut {
    Shortcut("hashtag", "", false, instance, Join(tags, ' '), "")
  }

  /**
   * `s` duplicates a hashtag shortcut for `hashtag` on `instance`: it is a
   * hashtag shortcut with the same tags in any order, and it has no instance
   * or the same one.
   */
  predicate Duplicates(s: Shortcut, hashtag: string, instance: string) {
    && s.kind == "hashtag"
    && NormalizedTags(s.hashtag) == NormalizedTags(hashtag)
    && (s.instance != "" ==> s.instance == instance)
  }

  predicate ShortcutExists(list: seq<Shortcut>, hashtag: string, instance: string) {
    exists k :: 0 <= k < |list| && Duplicates(list[k], hashtag, instance)
  }

  /** The shortcut list after "Add to Shortcuts": the new shortcut is appended unless it exists. */
  function WithHashtagShortcut(list: seq<Shortcut>, tags: seq<string>, instance: string): seq<Shortcut> {
    if ShortcutExists(list, Join(tags, ' '), instance) then list else list + [HashtagShortcut(tags, instance)]
  }

  /** Adding the page's shortcut twice adds it once. */
  lemma WithHashtagShortcutIdempotent(list: seq<Shortcut>, tags: seq<string>, instance: string)
    ensures var once := WithHashtagShortcut(list, tags, instance);
      && WithHashtagShortcut(once, tags, instance) == once
      && |list| <= |once| <= |list| + 1
  {
    var once := WithHashtagShortcut(list, tags, instance);
    if !ShortcutExists(list, Join(tags, ' '), instance) {
      assert Duplicates(once[|list|], Join(tags, ' '), instance);
    }
  }

  /** The duplicate check ignores the order of the tags. */
  lemma DuplicateIgnoresOrder(p: seq<string>, q: seq<string>, instance: string)
    requires |p| >= 1 && RouteSafe(p) && RouteSafe(q) && multiset(p) == multiset(q)
    ensures Duplicates(HashtagShortcut(p, instance), Join(q, ' '), instance)
  {
    assert |q| == |multiset(q)| == |multiset(p)| == |p|;
    SplitJoin(p, ' ', TagSeparators);
    SplitJoin(q, ' ', TagSeparators);
    SortStringsOrderFree(p, q);
  }

  /** The outcome of "Add to Shortcuts". */
  datatype ShortcutOutcome = Disabled | AlreadyExists | Added

  /**
   * "Add to Shortcuts" (disabled when signed out): alerts when a duplicate
   * exists, otherwise appends the shortcut; the shortcuts limit is not
   * consulted here.
   */
  method AddHashtagShortcut(store: ShortcutsStore, tags: seq<string>, instance: string, authenticated: bool)
    returns (outcome: ShortcutOutcome)
    modifies store
    ensures outcome == Disabled <==> !authenticated
    ensures outcome == AlreadyExists <==> authenticated && ShortcutExists(old(store.shortcuts), Join(tags, ' '), instance)
    ensures store.shortcuts == if authenticated then WithHashtagShortcut(old(store.shortcuts), tags, instance) else old(store.shortcuts)
  {
    if !authenticated {
      return Disabled;
    }
    var shortcut := HashtagShortcut(tags, instance);
    if ShortcutExists(store.shortcuts, shortcut.hashtag, instance) {
      outcome := AlreadyExists;
    } else {
      store.shortcuts := store.shortcuts + [shortcut];
      outcome := Added;
    }
  }

  // ---------------------------------------------------------------------------
  // going to another instance

  /** What "Go to another instance…" does with the prompt's answer (None when cancelled). */
  datatype GoOutcome = Stay | InvalidInstance | Navigate(path: string)

  function GoToInstance(answer: Option<string>, tags: seq<string>): (r: GoOutcome)
    ensures r.Navigate? <==> answer.Some? && '.' in answer.value
    ensures r == InvalidInstance <==> answer.Some? && answer.value != "" && '.' !in answer.value
  {
    match answer
    case None => Stay
    case Some(v) =>
      if '.' !in v then (if v != "" then InvalidInstance else Stay)
      else Navigate("/" + Trim(Lower(v)) + "/t/" + Join(tags, '+'))
  }

  /**
   * The instance the prompt navigates to is the answer lower-cased and
   * trimmed; it keeps its dot and is already in that normal form.
   */
  lemma NavigatedInstance(v: string, tags: seq<string>)
    requires '.' in v
    ensures var w := Trim(Lower(v));
      && GoToInstance(Some(v), tags) == Navigate("/" + w + "/t/" + Join(tags, '+'))
      && '.' in w && Lower(w) == w && Trim(w) == w
  {
    DotKept(v);
    LoweredTrimFixed(v);
    TrimTwice(Lower(v));
  }

  lemma DotKept(v: string)
    requires '.' in v
    ensures '.' in Trim(Lower(v))
  {
    var i :| 0 <= i < |v| && v[i] == '.';
    TrimKeeps(Lower(v), i);
  }

  lemma LoweredTrimFixed(v: string)
    ensures Lower(Trim(Lower(v))) == Trim(Lower(v))
  {
    var a := TrimOffset(Lower(v));
    LowerSliceFixed(v, a, |Trim(Lower(v))|);
  }

  lemma TrimTwice(s: string)
    ensures Trim(Trim(s)) == Trim(s)
  {
  }

  /** A slice of a lower-cased string is unchanged by lower-casing. */
  lemma LowerSliceFixed(v: string, a: nat, n: nat)
    requires a + n <= |v|
    ensures Lower(Lower(v)[a..a + n]) == Lower(v)[a..a + n]
  {
    var w := Lower(v)[a..a + n];
    forall k | 0 <= k < n ensures Lower(w)[k] == w[k] {
      assert w[k] == LowerChar(v[a + k]);
    }
  }

  // ---------------------------------------------------------------------------
  // the timeline

  /** `slice(1)`: every tag but the first; nothing for an empty list. */
  function SliceFrom1(tags: seq<string>): seq<string> {
    if tags == [] then [] else tags[1..]
  }

  /** `hashtagsIterator.current`: the `any` tags it was opened with and the next page to read. */
  datatype HashtagIterator = HashtagIterator(any: seq<string>, position: nat)

  /** One render of the page: its tag array, the primary tag, the instance and the refs. */
  class HashtagPage {
    /** `hashtags`, sorted. The add and remove handlers push, splice and re-sort it. */
    var hashtags: seq<string>
    /** `hashtag`: the least tag, the one the timeline is requested for. */
    const primary: string
    const instance: string
    var pager: Option<HashtagIterator>
    /** `latestItem.current`: the newest id of the first page. */
    var latestItem: Option<string>

    constructor(param: string, instance: string)
      ensures hashtags == ParseTags(param) && primary == hashtags[0] && this.instance == instance
      ensures pager == None && latestItem == None
    {
      hashtags := ParseTags(param);
      primary := ParseTags(param)[0];
      this.instance := instance;
      pager := None;
      latestItem := None;
    }

    /** Submitting the add field with `input`; returns the route navigated to, if any. */
    method AddTag(input: string) returns (route: Option<string>)
      modifies this
      ensures var n := AddedTags(old(hashtags), input);
        && (n.None? ==> hashtags == old(hashtags) && route == None)
        && (n.Some? ==> hashtags == n.value && route == Some(Route(instance, hashtags)))
      ensures pager == old(pager) && latestItem == old(latestItem)
    {
      route := None;
      if !ReachLimit(hashtags) && MatchesTagPattern(input) {
        var newHashtag := Trim(input);
        if newHashtag != "" && !HasTagIgnoringCase(hashtags, newHashtag) {
          hashtags := SortStrings(hashtags + [newHashtag]);
          route := Some(Route(instance, hashtags));
        }
      }
    }

    /** Clicking the remove item of tag `i`; returns the route navigated to, if any. */
    method RemoveTag(i: nat) returns (route: Option<string>)
      requires i < |hashtags|
      modifies this
      ensures var n := RemovedTags(old(hashtags), i);
        && (n.None? ==> hashtags == old(hashtags) && route == None)
        && (n.Some? ==> hashtags == n.value && route == Some(Route(instance, hashtags)))
      ensures pager == old(pager) && latestItem == old(latestItem)
    {
      route := None;
      if |hashtags| == 1 {
        return;
      }
      hashtags := hashtags[..i] + hashtags[i + 1..];
      hashtags := SortStrings(hashtags);
      route := Some(Route(instance, hashtags));
    }

    /**
     * `fetchHashtags(firstLoad)`. `pages(tag, any, n)` is the n-th page of
     * `listHashtag(tag, {any})` with the iterator's `done`, None when the
     * request fails (the error reaches the caller). The pager is opened afresh on a first load or
     * when there is none; the newest id of a first non-empty page is kept, and
     * every post of a page is saved with the page's instance.
     */
    method FetchHashtags(firstLoad: bool, pages: (string, seq<string>, nat) -> Option<Page>, cache: StatusCache)
      returns (results: Option<Page>)
      modifies this, cache
      ensures hashtags == old(hashtags)
      ensures var it := if firstLoad || old(pager).None? then HashtagIterator(SliceFrom1(old(hashtags)), 0) else old(pager).value;
        && results == pages(primary, it.any, it.position)
        && (results.None? ==> pager == Some(it))
        && (results.Some? ==> pager == Some(it.(position := it.position + 1)))
      ensures results.Some? && firstLoad && results.value.value != [] ==> latestItem == Some(results.value.value[0].id)
      ensures results.None? || !firstLoad || results.value.value == [] ==> latestItem == old(latestItem)
      ensures results.Some? ==>
        && cache.statuses == Home.SaveAll(old(cache.statuses), results.value.value, instance)
        && cache.scheduled == old(cache.scheduled) + Home.JobsFor(results.value.value, instance)
      ensures results.None? ==> cache.statuses == old(cache.statuses) && cache.scheduled == old(cache.scheduled)
      ensures cache.threadNumbers == old(cache.threadNumbers)
    {
      if firstLoad || pager.None? {
        pager := Some(HashtagIterator(SliceFrom1(hashtags), 0));
      }
      var it := pager.value;
      results := pages(primary, it.any, it.position);
      if results.None? {
        return;
      }
      pager := Some(it.(position := it.position + 1));
      var value := results.value.value;
      if |value| > 0 {
        if firstLoad {
          latestItem := Some(value[0].id);
        }
        Home.SavePage(cache, value, instance);
      }
    }
  }
}

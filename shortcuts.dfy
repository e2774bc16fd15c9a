/**
 * The shortcuts settings (src/components/shortcuts-settings.jsx): the list
 * of saved timeline shortcuts with its move-up, move-down and remove buttons,
 * the add form and its limit, and the path and title of each kind of shortcut.
 */
module Shortcuts {
  import opened Optional

  /** The add form is disabled once this many shortcuts exist. */
  const ShortcutsLimit: nat := 9

  /**
   * A saved shortcut: its `type` and the form fields it may carry. A field
   * the shortcut lacks is "" (for `local`, an unchecked box: false).
   */
  datatype Shortcut = Shortcut(kind: string, id: string, local: bool, instance: string, hashtag: string, query: string)

  // ---------------------------------------------------------------------------
  // list edits

  /** The list with the shortcuts at `i` and `j` exchanged. */
  function Swap(s: seq<Shortcut>, i: nat, j: nat): (r: seq<Shortcut>)
    requires i < |s| && j < |s|
    ensures |r| == |s| && r[i] == s[j] && r[j] == s[i]
    ensures forall k :: 0 <= k < |s| && k != i && k != j ==> r[k] == s[k]
  {
    s[i := s[j]][j := s[i]]
  }

  /** A swap only reorders: the same shortcuts, each as often as before. */
  lemma SwapIsPermutation(s: seq<Shortcut>, i: nat, j: nat)
    requires i < |s| && j < |s|
    ensures multiset(Swap(s, i, j)) == multiset(s)
  {
    var r := Swap(s, i, j);
    if i != j {
      assert r == s[i := s[j]][j := s[i]];
      assert multiset(s[i := s[j]]) == multiset(s) - multiset{s[i]} + multiset{s[j]};
    }
  }

  /** Swapping the same two slots again restores the list. */
  lemma SwapTwice(s: seq<Shortcut>, i: nat, j: nat)
    requires i < |s| && j < |s|
    ensures Swap(Swap(s, i, j), i, j) == s
  {
    var r := Swap(Swap(s, i, j), i, j);
    assert forall k :: 0 <= k < |s| ==> r[k] == s[k];
  }

  /** The list with the shortcut at `i` cut out (`splice(i, 1)`). */
  function Remove(s: seq<Shortcut>, i: nat): (r: seq<Shortcut>)
    requires i < |s|
    ensures |r| == |s| - 1
    ensures forall k :: 0 <= k < i ==> r[k] == s[k]
    ensures forall k :: i <= k < |r| ==> r[k] == s[k + 1]
  {
    s[..i] + s[i + 1..]
  }

  /** Removing loses exactly the removed shortcut. */
  lemma RemoveLosesOnlyThat(s: seq<Shortcut>, i: nat)
    requires i < |s|
    ensures multiset(Remove(s, i)) + multiset{s[i]} == multiset(s)
  {
    assert s == s[..i] + [s[i]] + s[i + 1..];
  }

  /** `states.shortcuts` */
  class ShortcutsStore {
    var shortcuts: seq<Shortcut>

    constructor(initial: seq<Shortcut>)
      ensures shortcuts == initial
    {
      shortcuts := initial;
    }

    /** Whether the add form is disabled. */
    function FormDisabled(): (r: bool)
      reads this
      ensures r <==> |shortcuts| >= ShortcutsLimit
    {
      |shortcuts| >= ShortcutsLimit
    }

    /**
     * The move-up button of row `i` (rendered for every row, disabled on the
     * first): swaps the row with the one above.
     */
    method MoveUp(i: nat)
      requires i < |shortcuts|
      modifies this
      ensures i > 0 ==> shortcuts == Swap(old(shortcuts), i - 1, i)
      ensures i == 0 ==> shortcuts == old(shortcuts)
    {
      var arr := shortcuts;
      if i > 0 {
        var temp := shortcuts[i - 1];
        arr := arr[i - 1 := shortcuts[i]];
        arr := arr[i := temp];
        shortcuts := arr;
      }
    }

    /** The move-down button of row `i` (disabled on the last): swaps the row with the one below. */
    method MoveDown(i: nat)
      requires i < |shortcuts|
      modifies this
      ensures i < |old(shortcuts)| - 1 ==> shortcuts == Swap(old(shortcuts), i, i + 1)
      ensures i == |old(shortcuts)| - 1 ==> shortcuts == old(shortcuts)
    {
      var arr := shortcuts;
      if i < |shortcuts| - 1 {
        var temp := shortcuts[i + 1];
        arr := arr[i + 1 := shortcuts[i]];
        arr := arr[i := temp];
        shortcuts := arr;
      }
    }

    /** The remove button of row `i`. */
    method RemoveAt(i: nat)
      requires i < |shortcuts|
      modifies this
      ensures shortcuts == Remove(old(shortcuts), i)
    {
      shortcuts := shortcuts[..i] + shortcuts[i + 1..];
    }

    /**
     * Submitting the add form with the fields `form`: a disabled form submits
     * nothing (its controls are disabled too), and a form without a type adds
     * nothing; otherwise the shortcut goes to the end.
     */
    method Submit(form: Shortcut)
      modifies this
      ensures old(FormDisabled()) || form.kind == "" ==> shortcuts == old(shortcuts)
      ensures !old(FormDisabled()) && form.kind != "" ==> shortcuts == old(shortcuts) + [form]
    {
      if FormDisabled() {
        return;
      }
      if form.kind == "" {
        return;
      }
      shortcuts := shortcuts + [form];
    }
  }

  /** Moving row `i + 1` up and moving row `i` down make the same list. */
  lemma MoveUpDownAgree(s: seq<Shortcut>, i: nat)
    requires i + 1 < |s|
    ensures Swap(s, i, i + 1) == Swap(s, i + 1, i)
  {
  }

  /** The list after a series of form submissions. */
  function Submitted(s: seq<Shortcut>, forms: seq<Shortcut>): seq<Shortcut>
    decreases |forms|
  {
    if forms == [] then s
    else
      var next := if |s| >= ShortcutsLimit || forms[0].kind == "" then s else s + [forms[0]];
      Submitted(next, forms[1..])
  }

  /**
   * Through the form alone a list within the limit stays within it, and
   * submissions never drop a shortcut.
   */
  lemma {:induction false} SubmittedBound(s: seq<Shortcut>, forms: seq<Shortcut>)
    requires |s| <= ShortcutsLimit
    ensures |Submitted(s, forms)| <= ShortcutsLimit
    ensures multiset(s) <= multiset(Submitted(s, forms))
    decreases |forms|
  {
    if forms != [] {
      var next := if |s| >= ShortcutsLimit || forms[0].kind == "" then s else s + [forms[0]];
      SubmittedBound(next, forms[1..]);
    }
  }

  // ---------------------------------------------------------------------------
  // paths and titles

  /** The kinds the form offers. */
  const Types: seq<string> := ["following", "notifications", "list", "public", "bookmarks", "favourites", "hashtag"]

  /** The kinds `SHORTCUTS_META` describes; a shortcut of any other kind is not rendered. */
  const MetaTypes: set<string> :=
    {"following", "notifications", "list", "public", "search", "account-statuses", "bookmarks", "favourites", "hashtag"}

  /** The route a shortcut opens; `index` is its position in the list. */
  function ShortcutPath(s: Shortcut, index: nat): (r: Option<string>)
    ensures r.Some? <==> s.kind in MetaTypes
    ensures r.Some? ==> |r.value| >= 1 && r.value[0] == '/'
  {
    match s.kind
    case "following" => Some(if index == 0 then "/" else "/following")
    case "notifications" => Some("/notifications")
    case "list" => Some("/l/" + s.id)
    case "public" => Some("/" + s.instance + "/p" + (if s.local then "/l" else ""))
    case "search" => Some("/search?q=" + s.query)
    case "account-statuses" => Some("/a/" + s.id)
    case "bookmarks" => Some("/b")
    case "favourites" => Some("/f")
    case "hashtag" => Some("/t/" + s.hashtag)
    case _ => None
  }

  /** A title, either fixed text or one fetched for a list or an account id. */
  datatype Title = Text(text: string) | ListTitle(listId: string) | AccountName(accountId: string)

  function ShortcutTitle(s: Shortcut): (r: Option<Title>)
    ensures r.Some? <==> s.kind in MetaTypes
    ensures r.Some? && r.value.ListTitle? ==> s.kind == "list" && r.value.listId == s.id
    ensures r.Some? && r.value.AccountName? ==> s.kind == "account-statuses" && r.value.accountId == s.id
  {
    match s.kind
    case "following" => Some(Text("Home / Following"))
    case "notifications" => Some(Text("Notifications"))
    case "list" => Some(ListTitle(s.id))
    case "public" => Some(Text((if s.local then "Local" else "Federated") + " (" + s.instance + ")"))
    case "search" => Some(Text(s.query))
    case "account-statuses" => Some(AccountName(s.id))
    case "bookmarks" => Some(Text("Bookmarks"))
    case "favourites" => Some(Text("Favourites"))
    case "hashtag" => Some(Text(s.hashtag))
    case _ => None
  }

  /**
   * For the kinds whose route ends in one field, the field can be read back
   * from the route, so two such shortcuts of one kind share a route only
   * when they share that field.
   */
  lemma PathFieldReadsBack(a: Shortcut, b: Shortcut, i: nat, j: nat)
    requires a.kind == b.kind && a.kind in {"list", "account-statuses", "hashtag", "search"}
    ensures ShortcutPath(a, i) == ShortcutPath(b, j) <==>
      match a.kind
      case "list" => a.id == b.id
      case "account-statuses" => a.id == b.id
      case "hashtag" => a.hashtag == b.hashtag
      case _ => a.query == b.query
  {
    var pa, pb := ShortcutPath(a, i).value, ShortcutPath(b, j).value;
    if pa == pb {
      var n := if a.kind == "search" then 10 else 3;
      assert pa[n..] == pb[n..];
    }
  }
}

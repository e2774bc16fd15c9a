/**
 * The poll of a post (src/components/poll.jsx): the vote total and the
 * rounding precision chosen from it, when results are shown instead of the
 * voting form, which options lead, the share each option gets, the choices
 * a vote sends, and the vote and voter counts shown under the poll.
 */
module Polls {
  import opened Optional
  import opened Text

  /** An option: its title and its `votesCount`, None when the server hides it. */
  datatype PollOption = PollOption(title: string, votesCount: Option<nat>)

  /** A poll; `votersCount` is None when the server sends null. */
  datatype Poll = Poll(
    expired: bool,
    multiple: bool,
    options: seq<PollOption>,
    voted: bool,
    votersCount: Option<nat>,
    votesCount: nat)

  /** `votersCount || votesCount`: the voter count unless it is null or zero. */
  function PollVotesCount(p: Poll): (n: nat)
    ensures p.votersCount.Some? && p.votersCount.value > 0 ==> n == p.votersCount.value
    ensures p.votersCount.None? || p.votersCount.value == 0 ==> n == p.votesCount
  {
    if p.votersCount.Some? && p.votersCount.value != 0 then p.votersCount.value else p.votesCount
  }

  function Pow10(p: nat): (r: nat)
    ensures r >= 1
  {
    if p == 0 then 1 else 10 * Pow10(p - 1)
  }

  /**
   * `roundPrecision`: the fewest decimals (at most two) that keep a total up
   * to 1000 times a power of ten, and none above 100000.
   */
  function RoundPrecision(total: nat): (p: nat)
    ensures p <= 2
    ensures total <= 100000 ==> total <= 1000 * Pow10(p) && (p == 0 || 1000 * Pow10(p - 1) < total)
    ensures total > 100000 ==> p == 0
  {
    if total <= 1000 then 0
    else if total <= 10000 then 1
    else if total <= 100000 then 2
    else 0
  }

  /** `options.every((o) => o.votesCount !== null)` */
  predicate OptionsHaveVoteCounts(options: seq<PollOption>) {
    forall k :: 0 <= k < |options| ==> options[k].votesCount.Some?
  }

  /** Whether the results pane replaces the voting form. */
  predicate ShowsResults(p: Poll, showResults: bool) {
    (showResults && OptionsHaveVoteCounts(p.options)) || p.voted || p.expired
  }

  /** An option's count as `Math.max` reads it: null counts as 0. */
  function CountOf(o: PollOption): nat {
    if o.votesCount.Some? then o.votesCount.value else 0
  }

  /** `Math.max(...options.map((o) => o.votesCount))` over a non-empty option list. */
  function MaxVotes(options: seq<PollOption>): (m: nat)
    requires |options| > 0
    ensures forall k :: 0 <= k < |options| ==> CountOf(options[k]) <= m
    ensures exists k :: 0 <= k < |options| && CountOf(options[k]) == m
    decreases |options|
  {
    if |options| == 1 then CountOf(options[0])
    else
      var rest := MaxVotes(options[1..]);
      assert forall k :: 1 <= k < |options| ==> options[k] == options[1..][k - 1];
      if CountOf(options[0]) >= rest then CountOf(options[0]) else rest
  }

  /** `isLeading` of option `i`: a positive count equal to the maximum. */
  predicate IsLeading(options: seq<PollOption>, i: nat)
    requires i < |options|
  {
    && options[i].votesCount.Some?
    && options[i].votesCount.value > 0
    && options[i].votesCount.value == MaxVotes(options)
  }

  /** An option leads exactly when it has a known, positive count no other option exceeds. */
  lemma LeadingIff(options: seq<PollOption>, i: nat)
    requires i < |options|
    ensures IsLeading(options, i) <==>
      && options[i].votesCount.Some? && CountOf(options[i]) > 0
      && forall k :: 0 <= k < |options| ==> CountOf(options[k]) <= CountOf(options[i])
  {
    var m := MaxVotes(options);
    var j :| 0 <= j < |options| && CountOf(options[j]) == m;
  }

  /** As soon as some option has a vote, some option leads; tied maxima all lead. */
  lemma SomeOptionLeads(options: seq<PollOption>)
    requires exists k :: 0 <= k < |options| && CountOf(options[k]) > 0
    ensures exists i :: 0 <= i < |options| && IsLeading(options, i)
  {
    var m := MaxVotes(options);
    var j :| 0 <= j < |options| && CountOf(options[j]) == m;
    var k :| 0 <= k < |options| && CountOf(options[k]) > 0;
    assert CountOf(options[j]) >= CountOf(options[k]) > 0;
    assert IsLeading(options, j);
  }

  /**
   * The share of an option in percent, before `toFixed` rounds it: 0 when the
   * total is 0 (a null count divides as 0).
   */
  function Percentage(o: PollOption, total: nat): (r: real)
    ensures total == 0 ==> r == 0.0
    ensures r >= 0.0
  {
    if total == 0 then 0.0 else (CountOf(o) as real / total as real) * 100.0
  }

  /**
   * Shares follow counts, so a leading option has the largest share, and a
   * count within the total gives a share of at most 100.
   */
  lemma PercentageOrder(a: PollOption, b: PollOption, total: nat)
    ensures CountOf(a) <= CountOf(b) ==> Percentage(a, total) <= Percentage(b, total)
    ensures CountOf(a) <= total ==> Percentage(a, total) <= 100.0
  {
    if total > 0 {
      var t := total as real;
      if CountOf(a) <= CountOf(b) {
        DivideKeepsOrder(CountOf(a) as real, CountOf(b) as real, t);
      }
      if CountOf(a) <= total {
        DivideKeepsOrder(CountOf(a) as real, t, t);
      }
    }
  }

  lemma DivideKeepsOrder(x: real, y: real, t: real)
    requires x <= y && t > 0.0
    ensures x / t <= y / t
  {
    var d := (y - x) / t;
    assert d * t == y - x;
    assert y / t - x / t == d;
  }

  // ---------------------------------------------------------------------------
  // voting

  /** The `poll` values of a form's entries, in order. */
  function PollChoices(entries: seq<(string, string)>): (r: seq<string>)
    ensures |r| <= |entries|
    decreases |entries|
  {
    if entries == [] then []
    else
      var rest := PollChoices(entries[..|entries| - 1]);
      var (key, value) := entries[|entries| - 1];
      if key == "poll" then rest + [value] else rest
  }

  /** The `formData.forEach` that pushes every `poll` value. */
  method CollectChoices(entries: seq<(string, string)>) returns (choices: seq<string>)
    ensures choices == PollChoices(entries)
  {
    choices := [];
    for i := 0 to |entries|
      invariant choices == PollChoices(entries[..i])
    {
      assert entries[..i + 1][..i] == entries[..i];
      var (key, value) := entries[i];
      if key == "poll" {
        choices := choices + [value];
      }
    }
    assert entries[..|entries|] == entries;
  }

  /**
   * The entries of the voting form: one `poll` entry per checked option,
   * whose value is the option's index; unchecked inputs send nothing.
   */
  function FormEntries(checked: seq<bool>): (r: seq<(string, string)>)
    decreases |checked|
  {
    if checked == [] then []
    else
      var i := |checked| - 1;
      FormEntries(checked[..i]) + (if checked[i] then [("poll", DecimalString(i))] else [])
  }

  function CountChecked(checked: seq<bool>): nat
    decreases |checked|
  {
    if checked == [] then 0 else CountChecked(checked[..|checked| - 1]) + (if checked[|checked| - 1] then 1 else 0)
  }

  /**
   * The form's choices are exactly the checked options, once each, as
   * indices in increasing order.
   */
  lemma {:induction false} ChoicesOfForm(checked: seq<bool>)
    ensures var c := PollChoices(FormEntries(checked));
      && |c| == CountChecked(checked)
      && (forall j :: 0 <= j < |c| ==> AllDigits(c[j]) && c[j] != [] && DigitsValue(c[j]) < |checked| && checked[DigitsValue(c[j])])
      && (forall j, k :: 0 <= j < k < |c| ==> DigitsValue(c[j]) < DigitsValue(c[k]))
    decreases |checked|
  {
    if checked != [] {
      var i := |checked| - 1;
      var front := checked[..i];
      ChoicesOfForm(front);
      var e := FormEntries(front);
      if checked[i] {
        var last := ("poll", DecimalString(i));
        assert FormEntries(checked) == e + [last];
        assert (e + [last])[..|e|] == e;
        DecimalStringValue(i);
      } else {
        assert FormEntries(checked) == e;
      }
      forall j | 0 <= j < |PollChoices(e)| ensures checked[DigitsValue(PollChoices(e)[j])] {
        assert checked[DigitsValue(PollChoices(e)[j])] == front[DigitsValue(PollChoices(e)[j])];
      }
    }
  }

  /** A vote is sent exactly when some option is checked. */
  lemma VoteIffChecked(checked: seq<bool>)
    ensures PollChoices(FormEntries(checked)) != [] <==> exists i :: 0 <= i < |checked| && checked[i]
  {
    ChoicesOfForm(checked);
    var c := PollChoices(FormEntries(checked));
    if c != [] {
      assert checked[DigitsValue(c[0])];
    } else {
      CountCheckedZero(checked);
    }
  }

  lemma {:induction false} CountCheckedZero(checked: seq<bool>)
    requires CountChecked(checked) == 0
    ensures forall i :: 0 <= i < |checked| ==> !checked[i]
    decreases |checked|
  {
    if checked != [] {
      CountCheckedZero(checked[..|checked| - 1]);
      assert forall i :: 0 <= i < |checked| - 1 ==> checked[i] == checked[..|checked| - 1][i];
    }
  }

  datatype UIState = Default | Loading

  /** The poll's view state: `uiState` and the `showResults` toggle. */
  class PollView {
    var uiState: UIState
    var showResults: bool

    constructor()
      ensures uiState == Default && !showResults
    {
      uiState := Default;
      showResults := false;
    }

    /** A double-click or a left swipe flips the toggle. */
    method ToggleResults()
      modifies this
      ensures showResults == !old(showResults) && uiState == old(uiState)
    {
      showResults := !showResults;
    }

    /**
     * "Hide results": the button sits in the results pane, so it exists only
     * while results are shown for a poll that is open and not voted on, and it
     * is disabled while a vote is loading.
     */
    method HideResults(p: Poll)
      modifies this
      ensures showResults ==
        (if ShowsResults(p, old(showResults)) && !p.expired && !p.voted && old(uiState) == Default
         then false else old(showResults))
      ensures uiState == old(uiState)
    {
      if ShowsResults(p, showResults) && !p.expired && !p.voted && uiState == Default {
        showResults := false;
      }
    }

    /**
     * Submitting the voting form with its `entries`: no choice, no vote;
     * otherwise the choices are sent (`voteSettles` is whether `votePoll`
     * resolves; when it rejects the view stays loading).
     */
    method Submit(entries: seq<(string, string)>, voteSettles: bool) returns (vote: Option<seq<string>>)
      modifies this
      ensures PollChoices(entries) == [] ==> vote == None && uiState == old(uiState)
      ensures PollChoices(entries) != [] ==>
        vote == Some(PollChoices(entries)) && uiState == (if voteSettles then Default else Loading)
      ensures showResults == old(showResults)
    {
      var choices := CollectChoices(entries);
      if |choices| == 0 {
        return None;
      }
      uiState := Loading;
      vote := Some(choices);
      if voteSettles {
        uiState := Default;
      }
    }
  }

  /** Once voted on or expired, a poll shows its results whatever the toggle says. */
  lemma ResultsAfterVoting(p: Poll, showResults: bool)
    requires p.voted || p.expired
    ensures ShowsResults(p, showResults)
  {
  }

  // ---------------------------------------------------------------------------
  // the line under the poll

  /** `${word}${n === 1 ? '' : 's'}` */
  function Plural(n: nat, word: string): (r: string)
    ensures r == word <==> n == 1
    ensures n != 1 ==> r == word + "s"
  {
    if n == 1 then word else assert (word + "s")[|word|] == 's'; word + "s"
  }

  /** The vote label, and the voter label when the line shows one. */
  function VoteLine(p: Poll): (r: (string, Option<string>))
    ensures r.0 == Plural(p.votesCount, "vote")
    ensures r.1.Some? <==> p.votersCount.Some? && p.votersCount.value != 0 && p.votersCount.value != p.votesCount
    ensures r.1.Some? ==> r.1.value == Plural(p.votersCount.value, "voter")
  {
    var voters :=
      if p.votersCount.Some? && p.votersCount.value != 0 && p.votersCount.value != p.votesCount
      then Some(Plural(p.votersCount.value, "voter"))
      else None;
    (Plural(p.votesCount, "vote"), voters)
  }

  /** A voter line appears only when it says something the vote count does not. */
  lemma VoterLineDiffers(p: Poll)
    ensures VoteLine(p).1.Some? ==> PollVotesCount(p) != p.votesCount
    ensures VoteLine(p).1.None? ==> PollVotesCount(p) == p.votesCount
  {
  }
}

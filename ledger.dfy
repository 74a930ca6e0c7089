/**
 * The round ledger of src/logic/state.js: the options on offer, the votes cast on them, the
 * vote-cleared copies `resetRound` and `updateStrategy` install, the `getVotes` view and the
 * winner `resolveRound` picks from it.
 */
module Ledger {
  import opened Wrappers
  import opened Text
  import Ai

  /**
   * A stored vote. `vote` only ever stores the object form `Cast`; the bare-string form is the
   * legacy shape the removal, `getVotes` and the rename pass still look for.
   */
  datatype VoteEntry = Bare(userId: string) | Cast(userId: string, displayName: string)

  /** One entry of `options`; `alignment` is None for a null score. */
  datatype RoundOption = RoundOption(id: string, text: string, alignment: Option<int>, explanation: string, votes: seq<VoteEntry>)

  /** Every stored vote is in the object form. */
  predicate AllCast(opts: seq<RoundOption>) {
    forall i, j :: 0 <= i < |opts| && 0 <= j < |opts[i].votes| ==> opts[i].votes[j].Cast?
  }

  // ----- fresh options: resetRound and the replacement in updateStrategy -----

  /** The id `${Date.now()}_${i}`. */
  function GeneratedId(now: nat, i: nat): string {
    NatToString(now) + "_" + NatToString(i)
  }

  /** Ids generated in one pass differ by position. */
  lemma GeneratedIdsDistinct(now: nat, i: nat, j: nat)
    requires i != j
    ensures GeneratedId(now, i) != GeneratedId(now, j)
  {
    var prefix := NatToString(now) + "_";
    if GeneratedId(now, i) == GeneratedId(now, j) {
      assert NatToString(i) == GeneratedId(now, i)[|prefix|..];
      assert NatToString(j) == GeneratedId(now, j)[|prefix|..];
      DigitsValueOfNatToString(i);
      DigitsValueOfNatToString(j);
    }
  }

  /**
   * `list.map((opt, i) => ({id: generated, ...opt, votes: []}))`: the spread comes after the
   * generated id, so an id the input carries wins; the votes come last and are always empty.
   */
  function Fresh(cands: seq<Ai.Candidate>, now: nat): (r: seq<RoundOption>)
    ensures |r| == |cands|
    ensures forall i :: 0 <= i < |r| ==>
              && r[i].text == cands[i].text
              && r[i].alignment == cands[i].alignment
              && r[i].explanation == cands[i].explanation
              && r[i].votes == []
    ensures forall i :: 0 <= i < |r| && cands[i].id.Some? ==> r[i].id == cands[i].id.value
    ensures forall i :: 0 <= i < |r| && cands[i].id.None? ==> r[i].id == GeneratedId(now, i)
    ensures AllCast(r)
  {
    seq(|cands|, i requires 0 <= i < |cands| =>
      RoundOption(
        if cands[i].id.Some? then cands[i].id.value else GeneratedId(now, i),
        cands[i].text, cands[i].alignment, cands[i].explanation, []))
  }

  /** Options freshly made from records that carry no id have pairwise distinct ids. */
  lemma FreshIdsDistinct(cands: seq<Ai.Candidate>, now: nat)
    requires forall i :: 0 <= i < |cands| ==> cands[i].id.None?
    ensures forall i, j :: 0 <= i < j < |cands| ==> Fresh(cands, now)[i].id != Fresh(cands, now)[j].id
  {
    forall i, j | 0 <= i < j < |cands| ensures Fresh(cands, now)[i].id != Fresh(cands, now)[j].id {
      GeneratedIdsDistinct(now, i, j);
    }
  }

  /** The current options as the records `updateStrategy` falls back to: every field, id included. */
  function AsCandidates(opts: seq<RoundOption>): (r: seq<Ai.Candidate>)
    ensures |r| == |opts|
    ensures forall i :: 0 <= i < |r| ==> r[i].id == Some(opts[i].id) && r[i].text == opts[i].text
  {
    seq(|opts|, i requires 0 <= i < |opts| =>
      Ai.Candidate(Some(opts[i].id), opts[i].text, opts[i].alignment, opts[i].explanation))
  }

  /** Re-installing the current options keeps every id, text and score and only clears the votes. */
  lemma FreshFromCurrentClearsVotes(opts: seq<RoundOption>, now: nat)
    ensures Fresh(AsCandidates(opts), now) == seq(|opts|, i requires 0 <= i < |opts| => opts[i].(votes := []))
  {
  }

  // ----- vote -----

  /** `indexOf`: the first position of `x`. */
  function IndexOf<T(==)>(s: seq<T>, x: T): (k: Option<nat>)
    ensures k.Some? ==> k.value < |s| && s[k.value] == x && x !in s[..k.value]
    ensures k.None? ==> x !in s
  {
    if s == [] then None
    else if s[0] == x then Some(0)
    else match IndexOf(s[1..], x)
      case None => None
      case Some(k) =>
        assert s[1..][..k] == s[1..k + 1];
        Some(k + 1)
  }

  /**
   * `indexOf(userId)` followed by `splice(index, 1)`: strict equality only matches a bare
   * string, so the first bare vote of that user goes and nothing else changes.
   */
  function RemoveFirst(votes: seq<VoteEntry>, userId: string): (r: seq<VoteEntry>)
    ensures multiset(r) == multiset(votes) - multiset{Bare(userId)}
    ensures Bare(userId) !in votes ==> r == votes
  {
    match IndexOf(votes, Bare(userId))
    case None => votes
    case Some(k) =>
      assert votes == votes[..k] + [votes[k]] + votes[k + 1..];
      votes[..k] + votes[k + 1..]
  }

  /** The removal pass of `vote` over every option. */
  function ClearBare(opts: seq<RoundOption>, userId: string): (r: seq<RoundOption>)
    ensures |r| == |opts|
    ensures forall i :: 0 <= i < |r| ==> r[i] == opts[i].(votes := RemoveFirst(opts[i].votes, userId))
  {
    seq(|opts|, i requires 0 <= i < |opts| => opts[i].(votes := RemoveFirst(opts[i].votes, userId)))
  }

  /** When every vote is an object the removal pass removes nothing. */
  lemma ClearBareRemovesNothing(opts: seq<RoundOption>, userId: string)
    requires AllCast(opts)
    ensures ClearBare(opts, userId) == opts
  {
    forall i | 0 <= i < |opts| ensures Bare(userId) !in opts[i].votes {
      assert forall j :: 0 <= j < |opts[i].votes| ==> opts[i].votes[j] != Bare(userId);
    }
  }

  /** `options.find(o => o.id === optionId)`: the first option with that id. */
  function FindOption(opts: seq<RoundOption>, optionId: string): (k: Option<nat>)
    ensures k.Some? ==> k.value < |opts| && opts[k.value].id == optionId
    ensures k.Some? ==> forall j :: 0 <= j < k.value ==> opts[j].id != optionId
    ensures k.None? ==> forall j :: 0 <= j < |opts| ==> opts[j].id != optionId
  {
    if opts == [] then None
    else if opts[0].id == optionId then Some(0)
    else match FindOption(opts[1..], optionId)
      case None => None
      case Some(k) => Some(k + 1)
  }

  /** The vote lands: the option exists and does not `includes` the raw user id. */
  predicate Lands(opts: seq<RoundOption>, optionId: string, userId: string) {
    FindOption(opts, optionId).Some? && Bare(userId) !in opts[FindOption(opts, optionId).value].votes
  }

  /** The push part of `vote`: one object vote appended to the selected option. */
  function CastOn(opts: seq<RoundOption>, optionId: string, userId: string, displayName: string): (r: seq<RoundOption>)
    ensures |r| == |opts|
    ensures !Lands(opts, optionId, userId) ==> r == opts
    ensures Lands(opts, optionId, userId) ==>
              var k := FindOption(opts, optionId).value;
              && r[k].votes == opts[k].votes + [Cast(userId, displayName)]
              && r[k] == opts[k].(votes := r[k].votes)
              && forall j :: 0 <= j < |opts| && j != k ==> r[j] == opts[j]
  {
    if Lands(opts, optionId, userId) then
      var k := FindOption(opts, optionId).value;
      opts[k := opts[k].(votes := opts[k].votes + [Cast(userId, displayName)])]
    else opts
  }

  /** `vote` on the options: the removal pass, then the push. */
  function VoteOutcome(opts: seq<RoundOption>, optionId: string, userId: string, displayName: string): (r: seq<RoundOption>)
    ensures |r| == |opts|
    ensures AllCast(opts) ==> r == CastOn(opts, optionId, userId, displayName)
  {
    var cleared := ClearBare(opts, userId);
    assert AllCast(opts) ==> cleared == opts by {
      if AllCast(opts) { ClearBareRemovesNothing(opts, userId); }
    }
    CastOn(cleared, optionId, userId, displayName)
  }

  /** A vote changes no option's id or text, and neither adds nor removes an option. */
  lemma VoteKeepsOptions(opts: seq<RoundOption>, optionId: string, userId: string, displayName: string)
    ensures var r := VoteOutcome(opts, optionId, userId, displayName);
            && |r| == |opts|
            && forall i :: 0 <= i < |r| ==> r[i].id == opts[i].id && r[i].text == opts[i].text
  {
  }

  /** A vote keeps every stored vote in the object form. */
  lemma VoteKeepsAllCast(opts: seq<RoundOption>, optionId: string, userId: string, displayName: string)
    requires AllCast(opts)
    ensures ClearBare(opts, userId) == opts
    ensures AllCast(VoteOutcome(opts, optionId, userId, displayName))
  {
    ClearBareRemovesNothing(opts, userId);
  }

  /** A vote for an id no option has changes no option. */
  lemma VoteForUnknownOption(opts: seq<RoundOption>, optionId: string, userId: string, displayName: string)
    requires AllCast(opts)
    requires FindOption(opts, optionId).None?
    ensures VoteOutcome(opts, optionId, userId, displayName) == opts
  {
    ClearBareRemovesNothing(opts, userId);
  }

  /**
   * A vote for an existing option appends exactly one object vote, with the given display name,
   * to the first option with that id; every other option is untouched, and every vote stays an
   * object.
   */
  lemma VoteForKnownOption(opts: seq<RoundOption>, optionId: string, userId: string, displayName: string)
    requires AllCast(opts)
    requires FindOption(opts, optionId).Some?
    ensures var k := FindOption(opts, optionId).value;
            var r := VoteOutcome(opts, optionId, userId, displayName);
            && |r| == |opts|
            && r[k] == opts[k].(votes := opts[k].votes + [Cast(userId, displayName)])
            && (forall j :: 0 <= j < |opts| && j != k ==> r[j] == opts[j])
            && AllCast(r)
  {
    ClearBareRemovesNothing(opts, userId);
    var k := FindOption(opts, optionId).value;
    assert forall j :: 0 <= j < |opts[k].votes| ==> opts[k].votes[j] != Bare(userId);
  }

  /** The number of votes a user has on one option. */
  function VotesBy(votes: seq<VoteEntry>, userId: string): (n: nat)
    ensures n <= |votes|
  {
    if votes == [] then 0
    else (if votes[|votes| - 1].userId == userId then 1 else 0) + VotesBy(votes[..|votes| - 1], userId)
  }

  /**
   * A second vote by the same user for the same option is not replaced: the user then holds
   * one more vote on it than after the first.
   */
  lemma RepeatVoteAppendsAgain(opts: seq<RoundOption>, optionId: string, userId: string, displayName: string)
    requires AllCast(opts)
    requires FindOption(opts, optionId).Some?
    ensures var k := FindOption(opts, optionId).value;
            var once := VoteOutcome(opts, optionId, userId, displayName);
            var twice := VoteOutcome(once, optionId, userId, displayName);
            && VotesBy(once[k].votes, userId) == VotesBy(opts[k].votes, userId) + 1
            && VotesBy(twice[k].votes, userId) == VotesBy(opts[k].votes, userId) + 2
  {
    var k := FindOption(opts, optionId).value;
    VoteForKnownOption(opts, optionId, userId, displayName);
    var once := VoteOutcome(opts, optionId, userId, displayName);
    assert FindOption(once, optionId) == Some(k) by {
      FindOptionIgnoresVotes(opts, once, optionId);
    }
    VoteForKnownOption(once, optionId, userId, displayName);
    var twice := VoteOutcome(once, optionId, userId, displayName);
    assert once[k].votes[..|once[k].votes| - 1] == opts[k].votes;
    assert twice[k].votes[..|twice[k].votes| - 1] == once[k].votes;
  }

  /** Finding an option looks at ids only. */
  lemma {:induction false} FindOptionIgnoresVotes(a: seq<RoundOption>, b: seq<RoundOption>, optionId: string)
    requires |a| == |b| && forall i :: 0 <= i < |a| ==> a[i].id == b[i].id
    ensures FindOption(a, optionId) == FindOption(b, optionId)
  {
    if a != [] && a[0].id != optionId {
      FindOptionIgnoresVotes(a[1..], b[1..], optionId);
    }
  }

  // ----- getVotes -----

  /** A vote as `getVotes` reports it. */
  datatype Ballot = Ballot(userId: string, displayName: string)

  /** One option as `getVotes` reports it. */
  datatype VoteView = VoteView(id: string, text: string, votes: seq<Ballot>, alignment: Option<int>)

  /** A bare vote reads as an anonymous one; an object vote as itself. */
  function Normalise(e: VoteEntry): (b: Ballot)
    ensures b.userId == e.userId
    ensures e.Bare? ==> b.displayName == "Anonymous"
    ensures e.Cast? ==> b.displayName == e.displayName
  {
    match e
    case Bare(v) => Ballot(v, "Anonymous")
    case Cast(u, name) => Ballot(u, name)
  }

  /** One option as `getVotes` returns it: id, text and score kept, every vote normalised. */
  function ViewOf(o: RoundOption): (v: VoteView)
    ensures v.id == o.id && v.text == o.text && v.alignment == o.alignment
    ensures |v.votes| == |o.votes|
    ensures forall j :: 0 <= j < |o.votes| ==> v.votes[j].userId == o.votes[j].userId
    ensures forall j :: 0 <= j < |o.votes| && o.votes[j].Bare? ==> v.votes[j].displayName == "Anonymous"
    ensures forall j :: 0 <= j < |o.votes| && o.votes[j].Cast? ==> v.votes[j].displayName == o.votes[j].displayName
  {
    VoteView(o.id, o.text, seq(|o.votes|, j requires 0 <= j < |o.votes| => Normalise(o.votes[j])), o.alignment)
  }

  /**
   * `getVotes`: one view per option, in order, with the id, text and score kept and every vote
   * normalised.
   */
  function GetVotes(opts: seq<RoundOption>): (r: seq<VoteView>)
    ensures |r| == |opts|
    ensures forall i :: 0 <= i < |r| ==>
              && r[i].id == opts[i].id && r[i].text == opts[i].text && r[i].alignment == opts[i].alignment
              && |r[i].votes| == |opts[i].votes|
              && (forall j :: 0 <= j < |r[i].votes| ==> r[i].votes[j] == Normalise(opts[i].votes[j]))
  {
    seq(|opts|, i requires 0 <= i < |opts| => ViewOf(opts[i]))
  }

  // ----- the winner -----

  /** A JavaScript number as far as the comparator needs it. */
  datatype JsNumber = Num(value: int) | NaN

  /**
   * `ToNumber` of a vote array: an empty array joins to "" and reads as 0; a non-empty one
   * holds objects, whose text "[object Object]" reads as NaN.
   */
  function ArrayToNumber(votes: seq<Ballot>): (n: JsNumber)
    ensures n.Num? <==> votes == []
    ensures n.Num? ==> n.value == 0
  {
    if votes == [] then Num(0) else NaN
  }

  /** `a - b`. */
  function Minus(a: JsNumber, b: JsNumber): (d: JsNumber)
    ensures d.NaN? <==> a.NaN? || b.NaN?
  {
    if a.Num? && b.Num? then Num(a.value - b.value) else NaN
  }

  /** The comparator `(a, b) => b.votes - a.votes`. */
  function CompareByVotes(a: VoteView, b: VoteView): (c: JsNumber)
    ensures c.NaN? <==> a.votes != [] || b.votes != []
    ensures c.Num? ==> c.value == 0
  {
    Minus(ArrayToNumber(b.votes), ArrayToNumber(a.votes))
  }

  /** How `Array.prototype.sort` reads a comparator result: NaN counts as +0. */
  function Order(c: JsNumber): int {
    if c.NaN? then 0 else c.value
  }

  /** The comparator never orders two views: it is 0 or NaN. */
  lemma ComparatorNeverOrders(a: VoteView, b: VoteView)
    ensures Order(CompareByVotes(a, b)) == 0
  {
  }

  /** The comparator as `Array.prototype.sort` reads it. */
  function ByVotes(a: VoteView, b: VoteView): int {
    Order(CompareByVotes(a, b))
  }

  /**
   * One step of a stable insertion sort under `cmp`: `x` goes after every element of
   * `sorted` that `cmp` does not put after it.
   */
  function Insert(sorted: seq<VoteView>, x: VoteView, cmp: (VoteView, VoteView) -> int): (r: seq<VoteView>)
    ensures |r| == |sorted| + 1
    ensures multiset(r) == multiset(sorted) + multiset{x}
  {
    if sorted == [] then [x]
    else if cmp(sorted[|sorted| - 1], x) > 0 then
      assert sorted == sorted[..|sorted| - 1] + [sorted[|sorted| - 1]];
      Insert(sorted[..|sorted| - 1], x, cmp) + [sorted[|sorted| - 1]]
    else sorted + [x]
  }

  /** A stable sort under `cmp`: a permutation of its input. */
  function SortBy(views: seq<VoteView>, cmp: (VoteView, VoteView) -> int): (r: seq<VoteView>)
    ensures |r| == |views|
    ensures multiset(r) == multiset(views)
  {
    if views == [] then []
    else
      assert views == views[..|views| - 1] + [views[|views| - 1]];
      Insert(SortBy(views[..|views| - 1], cmp), views[|views| - 1], cmp)
  }

  /** `votes.sort((a, b) => b.votes - a.votes)`: a permutation of the views. */
  function SortByVotes(views: seq<VoteView>): (r: seq<VoteView>)
    ensures |r| == |views|
    ensures multiset(r) == multiset(views)
  {
    SortBy(views, ByVotes)
  }

  /** The sort leaves the views in their original order, whatever the vote counts. */
  lemma {:induction false} SortKeepsOrder(views: seq<VoteView>)
    ensures SortByVotes(views) == views
  {
    if views != [] {
      var init := views[..|views| - 1];
      SortKeepsOrder(init);
      if init != [] {
        ComparatorNeverOrders(init[|init| - 1], views[|views| - 1]);
      }
      assert init + [views[|views| - 1]] == views;
    }
  }

  /** `votes.sort(...)[0]`: None stands for `undefined`. */
  function Winner(views: seq<VoteView>): (w: Option<VoteView>)
    ensures w.None? <==> views == []
    ensures w.Some? ==> w.value in views
  {
    var sorted := SortByVotes(views);
    if sorted == [] then None
    else
      assert sorted[0] in multiset(views);
      Some(sorted[0])
  }

  /**
   * The winner is always the first option, and there is none exactly when there are no
   * options, whatever the votes.
   */
  lemma WinnerIsFirstOption(opts: seq<RoundOption>)
    ensures Winner(GetVotes(opts)).None? <==> opts == []
    ensures opts != [] ==> Winner(GetVotes(opts)) == Some(GetVotes(opts)[0])
  {
    SortKeepsOrder(GetVotes(opts));
  }

  // ----- renaming in registerUser -----

  /** The rewrite `registerUser` applies to one vote. */
  function Renamed(e: VoteEntry, id: string, name: string): (r: VoteEntry)
    ensures e.userId == id ==> r == Cast(id, name)
    ensures e.userId != id ==> r == e
  {
    match e
    case Bare(v) => if v == id then Cast(id, name) else e
    case Cast(u, _) => if u == id then Cast(u, name) else e
  }

  /**
   * A user's votes, object or bare, all become object votes under the new name; other users'
   * votes are untouched; the count and order of votes stay.
   */
  function RenameVotes(votes: seq<VoteEntry>, id: string, name: string): (r: seq<VoteEntry>)
    ensures |r| == |votes|
    ensures forall j :: 0 <= j < |r| && votes[j].userId == id ==> r[j] == Cast(id, name)
    ensures forall j :: 0 <= j < |r| && votes[j].userId != id ==> r[j] == votes[j]
  {
    seq(|votes|, j requires 0 <= j < |votes| => Renamed(votes[j], id, name))
  }

  /** The rename pass of `registerUser` over every option: only the votes change. */
  function RenameAll(opts: seq<RoundOption>, id: string, name: string): (r: seq<RoundOption>)
    ensures |r| == |opts|
    ensures forall i :: 0 <= i < |r| ==> r[i] == opts[i].(votes := RenameVotes(opts[i].votes, id, name))
  {
    seq(|opts|, i requires 0 <= i < |opts| => opts[i].(votes := RenameVotes(opts[i].votes, id, name)))
  }

  /**
   * Renaming keeps every stored vote in the object form, leaves every user's vote counts as
   * they were, and gives all of the renamed user's votes the new name.
   */
  lemma RenameAllKeepsVotes(opts: seq<RoundOption>, id: string, name: string)
    requires AllCast(opts)
    ensures var r := RenameAll(opts, id, name);
            && AllCast(r)
            && (forall i, u :: 0 <= i < |r| ==> VotesBy(r[i].votes, u) == VotesBy(opts[i].votes, u))
            && (forall i, j :: 0 <= i < |r| && 0 <= j < |r[i].votes| && r[i].votes[j].userId == id ==>
                  r[i].votes[j].displayName == name)
  {
    var r := RenameAll(opts, id, name);
    forall i, u | 0 <= i < |r| ensures VotesBy(r[i].votes, u) == VotesBy(opts[i].votes, u) {
      RenameKeepsCounts(opts[i].votes, id, name, u);
    }
  }

  /** Renaming changes no vote's user. */
  lemma {:induction false} RenameKeepsCounts(votes: seq<VoteEntry>, id: string, name: string, u: string)
    ensures VotesBy(RenameVotes(votes, id, name), u) == VotesBy(votes, u)
  {
    if votes != [] {
      var init := votes[..|votes| - 1];
      RenameKeepsCounts(init, id, name, u);
      assert RenameVotes(votes, id, name)[..|votes| - 1] == RenameVotes(init, id, name);
    }
  }
}

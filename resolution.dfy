/**
 * The resolution step of src/logic/state.js, `updateStrategy`: after the voting analysis and the
 * round content arrive, missing fields are repaired one at a time, the options are replaced by
 * vote-cleared copies, a history record is appended and the strategy timer restarts.
 */
module Resolution {
  import opened Wrappers
  import Ai
  import Config
  import Ledger
  import Logs

  /** The part of the game state `updateStrategy` may change. */
  datatype Board = Board(
    strategy: string,
    profile: string,
    scenario: string,
    options: seq<Ledger.RoundOption>,
    history: seq<Logs.HistoryRecord>,
    analysis: Option<Ai.Analysis>,
    startedAt: nat)

  /**
   * The round content as `updateStrategy` inspects it: a field is None when it is missing or
   * falsy, and `options` is None when it is not an array.
   */
  datatype Content = Content(
    newStrategy: Option<string>,
    newProfile: Option<string>,
    newScenario: Option<string>,
    options: Option<seq<Ai.Candidate>>)

  function Field(v: string): (f: Option<string>)
    ensures Ai.Truthy(f) <==> v != ""
    ensures Ai.Truthy(f) ==> f.value == v
  {
    if v == "" then None else Some(v)
  }

  /** What `processRound` returns, seen as round content. */
  function FromProcessRound(r: Ai.RoundResult): Content {
    Content(Field(r.newStrategy), Field(r.newProfile), Field(r.newScenario), Some(r.options))
  }

  /** The inputs `updateStrategy` hands to `processRound`. */
  function RoundInputsOf(b: Board): Ai.RoundInputs {
    Ai.RoundInputs(b.strategy, b.profile, b.scenario)
  }

  /**
   * The record `updateStrategy` appends once the board is updated: the caller's strategy,
   * commentary and selection (None stands for `null`), the resulting scenario and profile, and
   * the ticker split into its votes and its wildcards, which together account for every entry.
   */
  function RecordOf(
    ticker: seq<Logs.TickerEntry>, newStrategy: string, commentary: string, selected: Option<Ledger.VoteView>,
    analysis: Ai.Analysis, scenario: string, profile: string, now: nat
  ): (rec: Logs.HistoryRecord)
    ensures rec.time == now && rec.scenario == scenario && rec.selected == selected
    ensures rec.commentary == commentary && rec.strategy == newStrategy && rec.companyProfile == profile
    ensures rec.analysis == analysis
    ensures forall a :: a in rec.votes <==>
              exists j :: 0 <= j < |ticker| && ticker[j].kind == Logs.VoteCast
                          && a == Logs.Activity(ticker[j].user, ticker[j].option)
    ensures forall a :: a in rec.wildcards <==>
              exists j :: 0 <= j < |ticker| && ticker[j].kind == Logs.Wildcard
                          && a == Logs.Activity(ticker[j].user, ticker[j].option)
    ensures |rec.votes| + |rec.wildcards| == |ticker|
  {
    Logs.ActivitiesPartition(ticker);
    Logs.HistoryRecord(
      now, scenario, selected, commentary, newStrategy, profile,
      Logs.Activities(ticker, Logs.VoteCast), Logs.Activities(ticker, Logs.Wildcard), analysis)
  }

  /**
   * `updateStrategy` after its calls return. `content` None stands for a thrown error. The
   * analysis is stored first, whatever follows. Without content nothing else changes. With
   * content, each missing field keeps the current value, options that are not an array are
   * replaced by vote-cleared copies of the current ones, one record naming the strategy the
   * caller passed is appended, and the timer restarts at `now`.
   */
  function Resolve(
    b: Board, ticker: seq<Logs.TickerEntry>, newStrategy: string, commentary: string,
    selected: Option<Ledger.VoteView>, analysis: Ai.Analysis, content: Option<Content>, now: nat
  ): (r: Board)
    ensures r.analysis == Some(analysis)
    ensures content.None? ==> r == b.(analysis := Some(analysis))
    ensures content.Some? ==>
              var c := content.value;
              && (Ai.Truthy(c.newStrategy) ==> r.strategy == c.newStrategy.value)
              && (!Ai.Truthy(c.newStrategy) ==> r.strategy == b.strategy)
              && (Ai.Truthy(c.newProfile) ==> r.profile == c.newProfile.value)
              && (!Ai.Truthy(c.newProfile) ==> r.profile == b.profile)
              && (Ai.Truthy(c.newScenario) ==> r.scenario == c.newScenario.value)
              && (!Ai.Truthy(c.newScenario) ==> r.scenario == b.scenario)
              && (c.options.Some? ==> r.options == Ledger.Fresh(c.options.value, now))
              && (c.options.None? ==> r.options == Ledger.Fresh(Ledger.AsCandidates(b.options), now))
              && r.history == Logs.Record(b.history,
                   RecordOf(ticker, newStrategy, commentary, selected, analysis, r.scenario, r.profile, now))
              && r.startedAt == now
  {
    match content
    case None => b.(analysis := Some(analysis))
    case Some(c) =>
      var strategy := Ai.Or(c.newStrategy, b.strategy);
      var profile := Ai.Or(c.newProfile, b.profile);
      var scenario := Ai.Or(c.newScenario, b.scenario);
      var candidates := if c.options.Some? then c.options.value else Ledger.AsCandidates(b.options);
      Board(
        strategy, profile, scenario, Ledger.Fresh(candidates, now),
        Logs.Record(b.history, RecordOf(ticker, newStrategy, commentary, selected, analysis, scenario, profile, now)),
        Some(analysis), now)
  }

  /**
   * Whatever the content, the history stays within its cap with the newest record last, and
   * the options hold no votes.
   */
  lemma ResolveKeepsBounds(
    b: Board, ticker: seq<Logs.TickerEntry>, newStrategy: string, commentary: string,
    selected: Option<Ledger.VoteView>, analysis: Ai.Analysis, content: Option<Content>, now: nat)
    requires |b.history| <= Config.MaxHistoryEntries && Ledger.AllCast(b.options)
    ensures var r := Resolve(b, ticker, newStrategy, commentary, selected, analysis, content, now);
            && |r.history| <= Config.MaxHistoryEntries
            && Ledger.AllCast(r.options)
            && (content.Some? ==> |r.history| == Logs.Min(|b.history| + 1, Config.MaxHistoryEntries))
            && (content.Some? ==> forall i :: 0 <= i < |r.options| ==> r.options[i].votes == [])
  {
  }

  /**
   * Options that are not an array are replaced by the current options under their own ids,
   * texts and scores, with the votes cleared.
   */
  lemma NonArrayOptionsKeepCurrent(
    b: Board, ticker: seq<Logs.TickerEntry>, newStrategy: string, commentary: string,
    selected: Option<Ledger.VoteView>, analysis: Ai.Analysis, c: Content, now: nat)
    requires c.options.None?
    ensures Resolve(b, ticker, newStrategy, commentary, selected, analysis, Some(c), now).options
            == seq(|b.options|, i requires 0 <= i < |b.options| => b.options[i].(votes := []))
  {
    Ledger.FreshFromCurrentClearsVotes(b.options, now);
  }

  /**
   * Fed with what `processRound` returns, the resolution never leaves the scenario empty and
   * never loses a current strategy or profile.
   */
  lemma ProcessedRoundKeepsState(
    b: Board, ticker: seq<Logs.TickerEntry>, newStrategy: string, commentary: string,
    selected: Option<Ledger.VoteView>, analysis: Ai.Analysis, reply: Ai.Reply,
    parse: string -> Result<Ai.RawRound, string>, profile: Result<string, string>, now: nat)
    ensures var content := FromProcessRound(Ai.ProcessRound(RoundInputsOf(b), reply, parse, profile));
            var r := Resolve(b, ticker, newStrategy, commentary, selected, analysis, Some(content), now);
            && r.scenario != ""
            && (b.strategy != "" ==> r.strategy != "")
            && (b.profile != "" ==> r.profile != "")
  {
  }

  /**
   * When the content step fails (no usable reply, or a failing profile call), the round keeps
   * the current strategy and profile and offers a single fresh "Option 1" with alignment 0 and
   * no votes.
   */
  lemma FailedContentKeepsStrategy(
    b: Board, ticker: seq<Logs.TickerEntry>, newStrategy: string, commentary: string,
    selected: Option<Ledger.VoteView>, analysis: Ai.Analysis, reply: Ai.Reply,
    parse: string -> Result<Ai.RawRound, string>, profile: Result<string, string>, now: nat)
    requires Ai.ParsedReply(reply, parse).None? || profile.Failure?
    ensures var content := FromProcessRound(Ai.ProcessRound(RoundInputsOf(b), reply, parse, profile));
            var r := Resolve(b, ticker, newStrategy, commentary, selected, analysis, Some(content), now);
            && r.strategy == b.strategy
            && r.profile == b.profile
            && |r.options| == 1
            && r.options[0].text == "Option 1"
            && r.options[0].alignment == Some(0)
            && r.options[0].votes == []
            && r.options[0].id == Ledger.GeneratedId(now, 0)
  {
    var round := Ai.ProcessRound(RoundInputsOf(b), reply, parse, profile);
    assert Ai.IsFallback(round, RoundInputsOf(b));
    assert round.options[0].id.None?;
  }
}

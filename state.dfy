/**
 * The game state of src/logic/state.js as one object: its module-level variables become the
 * fields of `GameState`, its exported operations become methods that update them, and its
 * readers become functions. The clock is the parameter `now` (milliseconds); every reply of the
 * content generator is a parameter too.
 */
module State {
  import opened Wrappers
  import opened Text
  import Ai
  import Config
  import Ledger
  import Logs
  import Registry
  import Resolution
  import Timing

  /** What a pending `setTimeout` will run. */
  datatype TimerAction = StartRoundAction | ResolveRoundAction

  /** The one pending timer: its action and delay in milliseconds. */
  datatype Timer = Timer(action: TimerAction, delay: nat)

  /** The scheduler's flags and counters. */
  datatype Scheduler = Scheduler(
    running: bool,
    pending: Option<Timer>,
    roundInProgress: bool,
    month: nat,
    lastRoundTime: nat)

  /** A raw option from the option generator with the reply that scored it. */
  datatype Draft = Draft(text: string, scoreReply: string)

  /** What `getState` returns; `scenario` stands for both `scenario` and `currentScenario`. */
  datatype StateView = StateView(
    strategy: string,
    companyProfile: string,
    scenario: string,
    options: seq<Ledger.RoundOption>,
    users: seq<Registry.User>,
    roundHistory: seq<Logs.HistoryRecord>,
    strategyTimeRemaining: nat,
    userName: Option<string>,
    votingAnalysis: Option<Ai.Analysis>,
    currentMonth: nat)

  const Initializing: string := "Initializing..."

  /** `value || "Initializing..."`. */
  function OrInitializing(value: string): (r: string)
    ensures r != ""
    ensures value != "" ==> r == value
    ensures value == "" ==> r == Initializing
  {
    if value != "" then value else Initializing
  }

  /** `{text, alignment, explanation}` for one draft, scored as `scoreAlignment` reads its reply. */
  function Scored(d: Draft): (c: Ai.Candidate)
    ensures c.id.None? && c.text == d.text
    ensures c.alignment == Ai.ScoreAlignment(d.scoreReply).alignment
    ensures c.explanation == Trim(d.scoreReply)
  {
    var s := Ai.ScoreAlignment(d.scoreReply);
    Ai.Candidate(None, d.text, s.alignment, s.explanation)
  }

  /** `Promise.all` over the drafts: every option scored, in order. */
  function ScoredAll(drafts: seq<Draft>): (r: seq<Ai.Candidate>)
    ensures |r| == |drafts|
    ensures forall i :: 0 <= i < |r| ==> r[i] == Scored(drafts[i])
  {
    seq(|drafts|, i requires 0 <= i < |drafts| => Scored(drafts[i]))
  }

  /** The `forEach` pass of `vote` that splices the user's first bare vote out of each option. */
  method RemoveBareVotes(options: seq<Ledger.RoundOption>, userId: string) returns (opts: seq<Ledger.RoundOption>)
    ensures opts == Ledger.ClearBare(options, userId)
  {
    opts := options;
    var i := 0;
    while i < |opts|
      invariant 0 <= i <= |opts| == |options|
      invariant forall j :: 0 <= j < i ==> opts[j] == options[j].(votes := Ledger.RemoveFirst(options[j].votes, userId))
      invariant forall j :: i <= j < |opts| ==> opts[j] == options[j]
    {
      opts := opts[i := opts[i].(votes := Ledger.RemoveFirst(opts[i].votes, userId))];
      i := i + 1;
    }
  }

  /** The `forEach` pass of `registerUser` that rewrites the user's votes in each option. */
  method RenameVotesOf(options: seq<Ledger.RoundOption>, id: string, name: string) returns (opts: seq<Ledger.RoundOption>)
    ensures opts == Ledger.RenameAll(options, id, name)
  {
    opts := options;
    var i := 0;
    while i < |opts|
      invariant 0 <= i <= |opts| == |options|
      invariant forall j :: 0 <= j < i ==> opts[j] == options[j].(votes := Ledger.RenameVotes(options[j].votes, id, name))
      invariant forall j :: i <= j < |opts| ==> opts[j] == options[j]
    {
      opts := opts[i := opts[i].(votes := Ledger.RenameVotes(opts[i].votes, id, name))];
      i := i + 1;
    }
  }

  class GameState {
    var strategy: string
    var companyProfile: string
    /** "" stands for null. */
    var currentScenario: string
    var options: seq<Ledger.RoundOption>
    var roundHistory: seq<Logs.HistoryRecord>
    var users: seq<Registry.User>
    var tickerLog: seq<Logs.TickerEntry>
    var votingAnalysis: Option<Ai.Analysis>
    var isInitialized: bool
    var currentMonth: nat
    var strategyStartTime: nat
    var schedulerRunning: bool
    var schedulerTimeout: Option<Timer>
    var roundInProgress: bool
    var lastRoundTime: nat

    /** The bounds the logs keep, and every stored vote in the object form. */
    ghost predicate Valid()
      reads this
    {
      && |tickerLog| <= Config.MaxTickerEntries
      && |roundHistory| <= Config.MaxHistoryEntries
      && Ledger.AllCast(options)
    }

    /** The fields `updateStrategy` may change. */
    function Board(): Resolution.Board
      reads this
    {
      Resolution.Board(strategy, companyProfile, currentScenario, options, roundHistory, votingAnalysis, strategyStartTime)
    }

    function Flags(): Scheduler
      reads this
    {
      Scheduler(schedulerRunning, schedulerTimeout, roundInProgress, currentMonth, lastRoundTime)
    }

    /**
     * The state once start-up has settled: the users read from disk, and the strategy,
     * profile, scenario and vote-free options start-up installed. Start-up itself is not part
     * of this model.
     */
    constructor(
      now: nat, loaded: seq<Registry.User>, initialized: bool,
      strategy0: string, profile0: string, scenario0: string, options0: seq<Ledger.RoundOption>)
      requires forall i :: 0 <= i < |options0| ==> options0[i].votes == []
      ensures Valid()
      ensures Board() == Resolution.Board(strategy0, profile0, scenario0, options0, [], None, now)
      ensures Flags() == Scheduler(false, None, false, 0, now)
      ensures users == loaded && tickerLog == [] && isInitialized == initialized
    {
      strategy := strategy0;
      companyProfile := profile0;
      currentScenario := scenario0;
      options := options0;
      roundHistory := [];
      users := loaded;
      tickerLog := [];
      votingAnalysis := None;
      isInitialized := initialized;
      currentMonth := 0;
      strategyStartTime := now;
      schedulerRunning := false;
      schedulerTimeout := None;
      roundInProgress := false;
      lastRoundTime := now;
    }

    /** `resetRound`: the scenario and a vote-free copy of the given options. */
    method ResetRound(now: nat, scenario: string, drafts: seq<Ai.Candidate>)
      requires Valid()
      modifies this
      ensures Valid()
      ensures Board() == old(Board()).(scenario := scenario, options := Ledger.Fresh(drafts, now))
      ensures Flags() == old(Flags())
      ensures users == old(users) && tickerLog == old(tickerLog) && isInitialized == old(isInitialized)
    {
      currentScenario := scenario;
      options := Ledger.Fresh(drafts, now);
    }

    /**
     * `vote`: the removal pass over every option, then, when the option exists and does not
     * hold the raw user id, one object vote under the user's display name and one ticker entry.
     */
    method Vote(now: nat, userId: string, optionId: string)
      requires Valid()
      modifies this
      ensures Valid()
      ensures options == Ledger.VoteOutcome(old(options), optionId, userId, Registry.DisplayName(users, userId))
      ensures var cleared := Ledger.ClearBare(old(options), userId);
              if Ledger.Lands(cleared, optionId, userId) then
                tickerLog == Logs.Append(old(tickerLog), Logs.TickerEntry(
                  Logs.VoteCast, Registry.DisplayName(users, userId),
                  cleared[Ledger.FindOption(cleared, optionId).value].text, now))
              else tickerLog == old(tickerLog)
      ensures Board() == old(Board()).(options := options)
      ensures Flags() == old(Flags())
      ensures users == old(users) && isInitialized == old(isInitialized)
    {
      var opts := RemoveBareVotes(options, userId);
      var displayName := Registry.DisplayName(users, userId);
      Ledger.VoteKeepsAllCast(old(options), optionId, userId, displayName);
      ghost var cleared := opts;
      if Ledger.Lands(opts, optionId, userId) {
        var k := Ledger.FindOption(opts, optionId).value;
        var text := opts[k].text;
        opts := opts[k := opts[k].(votes := opts[k].votes + [Ledger.Cast(userId, displayName)])];
        tickerLog := Logs.Append(tickerLog, Logs.TickerEntry(Logs.VoteCast, displayName, text, now));
        assert opts == Ledger.CastOn(cleared, optionId, userId, displayName);
      }
      options := opts;
    }

    /** `logWildcard`: one ticker entry under the user's display name; the options stay. */
    method LogWildcard(now: nat, userId: string, text: string)
      requires Valid()
      modifies this
      ensures Valid()
      ensures tickerLog == Logs.Append(old(tickerLog),
                Logs.TickerEntry(Logs.Wildcard, Registry.DisplayName(users, userId), text, now))
      ensures Board() == old(Board())
      ensures Flags() == old(Flags())
      ensures users == old(users) && isInitialized == old(isInitialized)
    {
      var displayName := Registry.DisplayName(users, userId);
      tickerLog := Logs.Append(tickerLog, Logs.TickerEntry(Logs.Wildcard, displayName, text, now));
    }

    /** `getVotes`. */
    function GetVotes(): (r: seq<Ledger.VoteView>)
      reads this
      ensures |r| == |options|
      ensures forall i :: 0 <= i < |r| ==>
                && r[i].id == options[i].id && r[i].text == options[i].text
                && r[i].alignment == options[i].alignment && |r[i].votes| == |options[i].votes|
    {
      Ledger.GetVotes(options)
    }

    /** `getTickerLog`. */
    function GetTickerLog(): (r: seq<Logs.TickerEntry>)
      reads this
      ensures |r| == Logs.Min(10, |tickerLog|)
      ensures forall i :: 0 <= i < |r| ==> r[i] == tickerLog[|tickerLog| - 1 - i]
    {
      Logs.NewestFirst(tickerLog)
    }

    /** `getStrategyTimeRemaining`. */
    function TimeRemaining(now: nat): (r: nat)
      reads this
      ensures !schedulerRunning ==> r == 0
      ensures schedulerRunning ==> (r == 0 <==> now - strategyStartTime >= Config.StrategyDuration)
      ensures now >= strategyStartTime ==> r <= Config.StrategyDuration / 1000
    {
      Timing.Countdown(schedulerRunning, strategyStartTime, now)
    }

    /** `isSchedulerRunning`. */
    function IsSchedulerRunning(): (r: bool)
      reads this
      ensures r <==> schedulerRunning
    {
      schedulerRunning
    }

    /**
     * `getState(userId)`: before start-up completes, fixed placeholders; afterwards the full
     * state, the same options for every caller, with the caller's registered name when an id
     * is given and known.
     */
    function View(userId: string, now: nat): (r: StateView)
      reads this
      ensures r.strategy != "" && r.companyProfile != "" && r.scenario != ""
      ensures r.strategy == OrInitializing(strategy) && r.companyProfile == OrInitializing(companyProfile)
      ensures r.scenario == OrInitializing(currentScenario)
      ensures !isInitialized ==>
                r.options == [] && r.users == [] && r.roundHistory == [] && r.strategyTimeRemaining == 60
                && r.userName.None? && r.votingAnalysis.None? && r.currentMonth == 0
      ensures isInitialized ==>
                r.options == options && r.users == users && r.roundHistory == roundHistory
                && r.strategyTimeRemaining == TimeRemaining(now) && r.votingAnalysis == votingAnalysis
                && r.currentMonth == currentMonth
      ensures userId == "" ==> r.userName.None?
      ensures isInitialized && userId != "" && Registry.FindUser(users, userId).Some? ==>
                r.userName == Some(users[Registry.FindUser(users, userId).value].name)
      ensures Registry.FindUser(users, userId).None? ==> r.userName.None?
    {
      var strategyText := OrInitializing(strategy);
      var profileText := OrInitializing(companyProfile);
      var scenarioText := OrInitializing(currentScenario);
      if !isInitialized then
        StateView(strategyText, profileText, scenarioText, [], [], [], 60, None, None, 0)
      else
        var user := if userId != "" then Registry.FindUser(users, userId) else None;
        var userName := if user.Some? then Some(users[user.value].name) else None;
        StateView(strategyText, profileText, scenarioText, options, users, roundHistory,
                  TimeRemaining(now), userName, votingAnalysis, currentMonth)
    }

    /** Two callers see the same state except for their own name: no option is hidden from anyone. */
    lemma ViewSameForEveryone(a: string, b: string, now: nat)
      ensures View(a, now).(userName := None) == View(b, now).(userName := None)
    {
    }

    /**
     * `updateStrategy` after its calls return: the analysis parsed from `analysisReply` is
     * stored, then the board is resolved with `content` (None for a thrown error).
     */
    method UpdateStrategy(
      now: nat, newStrategy: string, commentary: string, selected: Option<Ledger.VoteView>,
      analysisReply: Option<string>, content: Option<Resolution.Content>)
      requires Valid()
      modifies this
      ensures Valid()
      ensures Board() == Resolution.Resolve(old(Board()), old(tickerLog), newStrategy, commentary, selected,
                                            Ai.AnalyzeVotingPatterns(analysisReply), content, now)
      ensures Flags() == old(Flags())
      ensures users == old(users) && tickerLog == old(tickerLog) && isInitialized == old(isInitialized)
    {
      var before := Board();
      var analysis := Ai.AnalyzeVotingPatterns(analysisReply);
      var b := Resolution.Resolve(before, tickerLog, newStrategy, commentary, selected, analysis, content, now);
      Resolution.ResolveKeepsBounds(before, tickerLog, newStrategy, commentary, selected, analysis, content, now);
      Install(b);
    }

    /** Writes a board and the scheduler's flags into the fields they stand for. */
    method Store(b: Resolution.Board, f: Scheduler)
      modifies this
      ensures Board() == b && Flags() == f
      ensures users == old(users) && tickerLog == old(tickerLog) && isInitialized == old(isInitialized)
    {
      Install(b);
      schedulerRunning := f.running;
      schedulerTimeout := f.pending;
      roundInProgress := f.roundInProgress;
      currentMonth := f.month;
      lastRoundTime := f.lastRoundTime;
    }

    /** Writes a board into the fields it stands for. */
    method Install(b: Resolution.Board)
      modifies this
      ensures Board() == b
      ensures Flags() == old(Flags())
      ensures users == old(users) && tickerLog == old(tickerLog) && isInitialized == old(isInitialized)
    {
      strategy := b.strategy;
      companyProfile := b.profile;
      currentScenario := b.scenario;
      options := b.options;
      roundHistory := b.history;
      votingAnalysis := b.analysis;
      strategyStartTime := b.startedAt;
    }

    /**
     * `registerUser`, without the file write: the name is normalised; a known user is renamed
     * and so are all of that user's votes; an unknown one is appended. The ticker is rewritten
     * against the already-updated name, so it never changes.
     */
    method RegisterUser(id: string, name: string) returns (registered: bool)
      requires Valid()
      modifies this
      ensures Valid()
      ensures registered
      ensures users == Registry.Upsert(old(users), id, Registry.NormaliseName(name))
      ensures Registry.FindUser(old(users), id).Some? ==>
                options == Ledger.RenameAll(old(options), id, Registry.NormaliseName(name))
      ensures Registry.FindUser(old(users), id).None? ==> options == old(options)
      ensures tickerLog == old(tickerLog)
      ensures Board() == old(Board()).(options := options)
      ensures Flags() == old(Flags())
      ensures isInitialized == old(isInitialized)
    {
      var normalised := Registry.NormaliseName(name);
      var existing := Registry.FindUser(users, id);
      if existing.Some? {
        var k := existing.value;
        users := users[k := users[k].(name := normalised)];
        var opts := RenameVotesOf(options, id, normalised);
        Ledger.RenameAllKeepsVotes(old(options), id, normalised);
        options := opts;
        Logs.RelabelToSameName(tickerLog, users[k].name);
        tickerLog := Logs.Relabel(tickerLog, users[k].name, normalised);
      } else {
        users := users + [Registry.User(id, normalised)];
      }
      registered := true;
    }

    /** `beginScheduler`: when running, restart the timer and arm the first round after 3 seconds. */
    method BeginScheduler(now: nat)
      requires Valid()
      modifies this
      ensures Valid()
      ensures !old(schedulerRunning) ==> Board() == old(Board()) && Flags() == old(Flags())
      ensures old(schedulerRunning) ==>
                Board() == old(Board()).(startedAt := now)
                && Flags() == old(Flags()).(pending := Some(Timer(StartRoundAction, 3000)))
      ensures users == old(users) && tickerLog == old(tickerLog) && isInitialized == old(isInitialized)
    {
      if !schedulerRunning {
        return;
      }
      strategyStartTime := now;
      schedulerTimeout := Some(Timer(StartRoundAction, 3000));
    }

    /** `startScheduler`: nothing when already running; otherwise set running and begin. */
    method StartScheduler(now: nat)
      requires Valid()
      modifies this
      ensures Valid()
      ensures old(schedulerRunning) ==> Board() == old(Board()) && Flags() == old(Flags())
      ensures !old(schedulerRunning) ==>
                Board() == old(Board()).(startedAt := now)
                && Flags() == old(Flags()).(running := true, pending := Some(Timer(StartRoundAction, 3000)))
      ensures users == old(users) && tickerLog == old(tickerLog) && isInitialized == old(isInitialized)
    {
      if schedulerRunning {
        return;
      }
      schedulerRunning := true;
      strategyStartTime := now;
      BeginScheduler(now);
    }

    /** `stopScheduler`: both flags down, no pending timer, the strategy timer restarted. */
    method StopScheduler(now: nat)
      requires Valid()
      modifies this
      ensures Valid()
      ensures Board() == old(Board()).(startedAt := now)
      ensures Flags() == old(Flags()).(running := false, pending := None, roundInProgress := false)
      ensures users == old(users) && tickerLog == old(tickerLog) && isInitialized == old(isInitialized)
    {
      schedulerRunning := false;
      if schedulerTimeout.Some? {
        schedulerTimeout := None;
      }
      roundInProgress := false;
      strategyStartTime := now;
    }

    /**
     * `startRound`. Stopped, or with a round in progress, it does nothing. Otherwise the month
     * advances by one and the round is marked in progress; then the content step runs.
     * `scenarioReply` is the scenario generator's reply and `drafts` the generated options with
     * their scoring replies, None for a call that throws. A thrown error clears the
     * in-progress flag and arms a retry after 5 seconds (a scenario that did arrive stays);
     * otherwise the round is reset and resolution is armed after the strategy duration.
     */
    method StartRound(now: nat, scenarioReply: Option<string>, drafts: Option<seq<Draft>>)
      requires Valid()
      modifies this
      ensures Valid()
      ensures !old(schedulerRunning) || old(roundInProgress) ==> Board() == old(Board()) && Flags() == old(Flags())
      ensures old(schedulerRunning) && !old(roundInProgress) && (scenarioReply.None? || drafts.None?) ==>
                && Board() == old(Board()).(
                     scenario := if scenarioReply.Some? then Trim(scenarioReply.value) else old(currentScenario),
                     startedAt := now)
                && Flags() == old(Flags()).(
                     month := old(currentMonth) + 1, lastRoundTime := now,
                     roundInProgress := false, pending := Some(Timer(StartRoundAction, 5000)))
      ensures old(schedulerRunning) && !old(roundInProgress) && scenarioReply.Some? && drafts.Some? ==>
                && Board() == old(Board()).(
                     scenario := Trim(scenarioReply.value),
                     options := Ledger.Fresh(ScoredAll(drafts.value), now),
                     startedAt := now)
                && Flags() == old(Flags()).(
                     month := old(currentMonth) + 1, lastRoundTime := now,
                     roundInProgress := true, pending := Some(Timer(ResolveRoundAction, Config.StrategyDuration)))
      ensures users == old(users) && tickerLog == old(tickerLog) && isInitialized == old(isInitialized)
    {
      if !schedulerRunning {
        return;
      }
      if roundInProgress {
        return;
      }
      var board := Board().(startedAt := now);
      var flags := Flags().(month := currentMonth + 1, roundInProgress := true, lastRoundTime := now);
      if scenarioReply.None? {
        Store(board, flags.(roundInProgress := false, pending := Some(Timer(StartRoundAction, 5000))));
        return;
      }
      var scenario := Trim(scenarioReply.value);
      board := board.(scenario := scenario);
      if drafts.None? {
        Store(board, flags.(roundInProgress := false, pending := Some(Timer(StartRoundAction, 5000))));
        return;
      }
      board := board.(options := Ledger.Fresh(ScoredAll(drafts.value), now));
      Store(board, flags.(pending := Some(Timer(ResolveRoundAction, Config.StrategyDuration))));
    }

    /**
     * `resolveRound`. The winner is the first entry of the sorted `getVotes` view; with no
     * options there is none and nothing is resolved. Otherwise `strategyReply` (None when the
     * call throws) is split into strategy and commentary, and the board is resolved with the
     * winner and what `processRound` makes of the round replies. Either way the round ends and,
     * while running, the next one is armed after 1 second.
     */
    method ResolveRound(
      now: nat, strategyReply: Option<string>, analysisReply: Option<string>, roundReply: Ai.Reply,
      parse: string -> Result<Ai.RawRound, string>, profileReply: Result<string, string>)
      requires Valid()
      modifies this
      ensures Valid()
      ensures !roundInProgress
      ensures schedulerTimeout == (if schedulerRunning then Some(Timer(StartRoundAction, 1000)) else old(schedulerTimeout))
      ensures schedulerRunning == old(schedulerRunning) && currentMonth == old(currentMonth)
      ensures lastRoundTime == old(lastRoundTime)
      ensures old(options) == [] || strategyReply.None? ==> Board() == old(Board())
      ensures old(options) != [] && strategyReply.Some? ==>
                var update := Ai.SplitStrategy(strategyReply.value);
                var round := Ai.ProcessRound(Resolution.RoundInputsOf(old(Board())), roundReply, parse, profileReply);
                Board() == Resolution.Resolve(
                  old(Board()), old(tickerLog), update.newStrategy, update.commentary,
                  Some(Ledger.GetVotes(old(options))[0]), Ai.AnalyzeVotingPatterns(analysisReply),
                  Some(Resolution.FromProcessRound(round)), now)
      ensures users == old(users) && tickerLog == old(tickerLog) && isInitialized == old(isInitialized)
    {
      Ledger.WinnerIsFirstOption(options);
      var winning := Ledger.Winner(Ledger.GetVotes(options));
      if winning.None? {
        var retry := if schedulerRunning then Some(Timer(StartRoundAction, 1000)) else schedulerTimeout;
        Store(Board(), Flags().(roundInProgress := false, pending := retry));
      } else if strategyReply.Some? {
        var update := Ai.SplitStrategy(strategyReply.value);
        var round := Ai.ProcessRound(Resolution.RoundInputsOf(Board()), roundReply, parse, profileReply);
        UpdateStrategy(now, update.newStrategy, update.commentary, Some(winning.value), analysisReply,
                       Some(Resolution.FromProcessRound(round)));
      }
      // finally
      var next := if schedulerRunning then Some(Timer(StartRoundAction, 1000)) else schedulerTimeout;
      Store(Board(), Flags().(roundInProgress := false, pending := next));
    }
  }
}

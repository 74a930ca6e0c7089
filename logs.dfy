/**
 * The bounded logs of src/logic/state.js: the ticker of votes and wildcards, capped by
 * push-then-shift and read newest first, and the round history, trimmed to its newest records.
 */
module Logs {
  import opened Wrappers
  import Config
  import Ledger
  import Ai

  datatype EntryKind = VoteCast | Wildcard

  /** A ticker entry; `time` is the clock reading in milliseconds. */
  datatype TickerEntry = TickerEntry(kind: EntryKind, user: string, option: string, time: nat)

  function Min(a: nat, b: nat): nat {
    if a < b then a else b
  }

  /**
   * `s.slice(-n)` for a positive `n`: the last `n` elements of `s`, or all of them when there
   * are fewer.
   */
  function Newest<T>(s: seq<T>, n: nat): (r: seq<T>)
    requires n > 0
    ensures |r| == Min(n, |s|)
    ensures r == s[|s| - |r|..]
  {
    s[|s| - Min(n, |s|)..]
  }

  /**
   * `tickerLog.push(e)` and then one `shift()` when the log is over the cap: the new entry is
   * last, and the oldest entry goes only when the cap is exceeded.
   */
  function Append(log: seq<TickerEntry>, e: TickerEntry): (r: seq<TickerEntry>)
    ensures |r| >= 1 && r[|r| - 1] == e
    ensures |log| < Config.MaxTickerEntries ==> r == log + [e]
    ensures |log| >= Config.MaxTickerEntries ==> r == log[1..] + [e]
    ensures |log| <= Config.MaxTickerEntries ==> |r| <= Config.MaxTickerEntries
  {
    var pushed := log + [e];
    if |pushed| > Config.MaxTickerEntries then pushed[1..] else pushed
  }

  /** Entries appended one at a time. */
  function AppendAll(log: seq<TickerEntry>, es: seq<TickerEntry>): seq<TickerEntry>
    decreases |es|
  {
    if es == [] then log else AppendAll(Append(log, es[0]), es[1..])
  }

  /**
   * However many entries arrive, a log within the cap holds exactly the newest
   * `maxTickerEntries` of everything appended to it, in order.
   */
  lemma {:induction false} AppendAllKeepsNewest(log: seq<TickerEntry>, es: seq<TickerEntry>)
    requires |log| <= Config.MaxTickerEntries
    ensures AppendAll(log, es) == Newest(log + es, Config.MaxTickerEntries)
    decreases |es|
  {
    if es == [] {
      assert log + es == log;
    } else {
      var next := Append(log, es[0]);
      AppendAllKeepsNewest(next, es[1..]);
      var all := log + es;
      assert next + es[1..] == (if |log| < Config.MaxTickerEntries then all else all[1..]);
    }
  }

  /** The elements of `s` in the opposite order. */
  function Reverse<T>(s: seq<T>): (r: seq<T>)
    ensures |r| == |s|
    ensures forall i :: 0 <= i < |s| ==> r[i] == s[|s| - 1 - i]
  {
    if s == [] then [] else [s[|s| - 1]] + Reverse(s[..|s| - 1])
  }

  /** `getTickerLog`: `slice(-10).reverse()`, the ten newest entries, newest first. */
  function NewestFirst(log: seq<TickerEntry>): (r: seq<TickerEntry>)
    ensures |r| == Min(10, |log|)
    ensures forall i :: 0 <= i < |r| ==> r[i] == log[|log| - 1 - i]
  {
    Reverse(Newest(log, 10))
  }

  /** A ticker entry as `updateStrategy` passes it on: `{user, option}`. */
  datatype Activity = Activity(user: string, option: string)

  /** `tickerLog.filter(entry => entry.type === kind).map(...)`. */
  function Activities(log: seq<TickerEntry>, kind: EntryKind): (r: seq<Activity>)
    ensures |r| <= |log|
    ensures forall a :: a in r <==>
              exists j :: 0 <= j < |log| && log[j].kind == kind && a == Activity(log[j].user, log[j].option)
  {
    if log == [] then []
    else
      var rest := Activities(log[1..], kind);
      assert forall j :: 1 <= j < |log| ==> log[j] == log[1..][j - 1];
      assert forall j :: 0 <= j < |log| - 1 ==> log[1..][j] == log[j + 1];
      (if log[0].kind == kind then [Activity(log[0].user, log[0].option)] else []) + rest
  }

  /** Filtering distributes over appending one entry. */
  lemma {:induction false} ActivitiesOfAppended(log: seq<TickerEntry>, e: TickerEntry, kind: EntryKind)
    ensures Activities(log + [e], kind)
            == Activities(log, kind) + (if e.kind == kind then [Activity(e.user, e.option)] else [])
  {
    if log != [] {
      assert (log + [e])[1..] == log[1..] + [e];
      ActivitiesOfAppended(log[1..], e, kind);
    } else {
      assert [e][1..] == [];
    }
  }

  /** Every ticker entry is either a vote or a wildcard. */
  lemma {:induction false} ActivitiesPartition(log: seq<TickerEntry>)
    ensures |Activities(log, VoteCast)| + |Activities(log, Wildcard)| == |log|
  {
    if log != [] {
      ActivitiesPartition(log[1..]);
    }
  }

  /**
   * A ticker rewrite of `registerUser`: entries by `from` are attributed to `to`, every other
   * field and every other entry stays.
   */
  function Relabel(log: seq<TickerEntry>, from: string, to: string): (r: seq<TickerEntry>)
    ensures |r| == |log|
    ensures forall i :: 0 <= i < |r| ==> r[i] == (if log[i].user == from then log[i].(user := to) else log[i])
  {
    seq(|log|, i requires 0 <= i < |log| => if log[i].user == from then log[i].(user := to) else log[i])
  }

  /** Relabelling to the name compared against changes nothing. */
  lemma RelabelToSameName(log: seq<TickerEntry>, name: string)
    ensures Relabel(log, name, name) == log
  {
  }

  /** One record of `roundHistory`. */
  datatype HistoryRecord = HistoryRecord(
    time: nat,
    scenario: string,
    selected: Option<Ledger.VoteView>,
    commentary: string,
    strategy: string,
    companyProfile: string,
    votes: seq<Activity>,
    wildcards: seq<Activity>,
    analysis: Ai.Analysis)

  /**
   * `roundHistory.push(rec)` and then `slice(-maxHistoryEntries)` when over the cap: the new
   * record is last, the history never exceeds the cap, and only the oldest records are dropped.
   */
  function Record(history: seq<HistoryRecord>, rec: HistoryRecord): (r: seq<HistoryRecord>)
    ensures |r| >= 1 && r[|r| - 1] == rec
    ensures |r| <= Config.MaxHistoryEntries
    ensures |history| < Config.MaxHistoryEntries ==> r == history + [rec]
    ensures r == (history + [rec])[|history| + 1 - |r|..]
    ensures |r| == Min(|history| + 1, Config.MaxHistoryEntries)
  {
    var pushed := history + [rec];
    if |pushed| > Config.MaxHistoryEntries then pushed[|pushed| - Config.MaxHistoryEntries..] else pushed
  }
}

/** Backup schedules of one storage: the cron per pgBackRest backup type, and the retention
    options they put into the repo's configuration. */
module Retention {
  import opened Wrappers
  import opened Text

  datatype RetentionRule = Count(count: int) | Time(duration: string) | UnknownRule

  datatype Schedule = Schedule(name: string, enabled: bool, cron: string, retention: Option<RetentionRule>)

  /** What a schedule's name selects; every unrecognised name means a full backup. */
  datatype Kind = Full | Diff | Incr

  function KindOf(name: string): Kind {
    if Lower(name) == "diff" then Diff
    else if Lower(name) == "incr" then Incr
    else Full
  }

  // ---------------------------------------------------------------- one rule

  const MAX_INT64: int := 0x7fff_ffff_ffff_ffff

  /** The 64-bit integer that unbounded `n` becomes in Go's `int`. */
  function Wrap64(n: int): int {
    (n + 0x8000_0000_0000_0000) % 0x1_0000_0000_0000_0000 - 0x8000_0000_0000_0000
  }

  /** Days per unit; a month counts as 31 days. */
  function DaysPer(unit: char): Option<nat> {
    if unit == 'd' then Some(1) else if unit == 'w' then Some(7) else if unit == 'm' then Some(31) else None
  }

  datatype Limit = Limit(value: string, kind: string)

  /** A duration is a positive decimal without leading zeros and one unit letter. */
  predicate WellFormed(duration: string) {
    && |duration| >= 2
    && Digits(duration[..|duration| - 1])
    && duration[0] != '0'
    && DaysPer(duration[|duration| - 1]).Some?
  }

  /** `repo-retention` value and type of a rule, or None for an error. */
  function LimitOf(rule: RetentionRule): Option<Limit> {
    match rule
    case Count(count) => Some(Limit(Itoa(count), "count"))
    case Time(duration) =>
      if !WellFormed(duration) then None
      else
        var n := Value(duration[..|duration| - 1]);
        if n > MAX_INT64 then None
        else Some(Limit(Itoa(Wrap64(n * DaysPer(duration[|duration| - 1]).value)), "time"))
    case UnknownRule => None
  }

  lemma LeadingDigit(n: nat)
    requires n > 0
    ensures NatText(n)[0] != '0'
  {
    if n >= 10 { LeadingDigit(n / 10); }
  }

  lemma LimitOfUnits(n: nat, unit: char)
    requires n > 0 && DaysPer(unit).Some?
    ensures LimitOf(Time(NatText(n) + [unit])) ==
            if n > MAX_INT64 then None else Some(Limit(Itoa(Wrap64(n * DaysPer(unit).value)), "time"))
  {
    var d := NatText(n) + [unit];
    assert d[..|d| - 1] == NatText(n);
    LeadingDigit(n);
    ValueOfNatText(n);
  }

  /** A duration of `n` units becomes exactly `n` times the unit's days as long as that number
      fits 64 bits, and only then: beyond it the value wraps around or the rule is refused. */
  lemma DurationInDays(n: nat, unit: char)
    requires n > 0 && DaysPer(unit).Some?
    ensures LimitOf(Time(NatText(n) + [unit])) == Some(Limit(Itoa(n * DaysPer(unit).value), "time"))
       <==> n * DaysPer(unit).value <= MAX_INT64
  {
    LimitOfUnits(n, unit);
    NoFewer(n, DaysPer(unit).value);
    InDaysIff(LimitOf(Time(NatText(n) + [unit])), n, n * DaysPer(unit).value);
  }

  lemma NoFewer(n: nat, days: nat)
    requires days >= 1
    ensures n <= n * days
  {
  }

  lemma InDaysIff(l: Option<Limit>, n: nat, days: nat)
    requires n <= days && l == if n > MAX_INT64 then None else Some(Limit(Itoa(Wrap64(days)), "time"))
    ensures l == Some(Limit(Itoa(days), "time")) <==> days <= MAX_INT64
  {
    DaysText(days);
  }

  lemma DaysText(days: nat)
    ensures Itoa(Wrap64(days)) == Itoa(days) <==> days <= MAX_INT64
  {
    assert Wrap64(days) == days <==> days <= MAX_INT64;
    if Itoa(Wrap64(days)) == Itoa(days) {
      ItoaInjective(Wrap64(days), days);
    }
  }

  /** A month count just past the 64-bit range turns into a negative number of days. */
  lemma MonthsOverflow(n: nat)
    requires MAX_INT64 < 31 * n <= 2 * MAX_INT64 + 1
    ensures LimitOf(Time(NatText(n) + ['m'])) == Some(Limit("-" + NatText(2 * MAX_INT64 + 2 - 31 * n), "time"))
  {
    LimitOfUnits(n, 'm');
    assert Wrap64(n * 31) == 31 * n - (2 * MAX_INT64 + 2);
  }

  predicate Leap(year: nat) { year % 4 == 0 && (year % 100 != 0 || year % 400 == 0) }

  /** Days of the month that is `month` months after January of year 0. */
  function MonthLength(month: nat): nat {
    var m := month % 12;
    if m == 1 then (if Leap(month / 12) then 29 else 28)
    else if m in {3, 5, 8, 10} then 30
    else 31
  }

  function MonthsLength(first: nat, count: nat): nat
    decreases count
  {
    if count == 0 then 0 else MonthLength(first) + MonthsLength(first + 1, count - 1)
  }

  /** A retention of `n` months is never shorter than any `n` consecutive calendar months. */
  lemma {:induction false} MonthsNeverShort(first: nat, n: nat)
    ensures MonthsLength(first, n) <= n * DaysPer('m').value
    decreases n
  {
    if n > 0 { MonthsNeverShort(first + 1, n - 1); }
  }

  // ---------------------------------------------------------------- the retention loop

  /** What the loop does on one schedule. */
  datatype Effect = Nothing | SetFull(limit: Limit) | SetDiff(limit: Limit) | Refuse

  /** A disabled schedule or one without a rule does nothing; a rule that cannot be expressed, or
      a time limit on "diff", is refused. */
  function EffectOf(s: Schedule): Effect {
    if !s.enabled || s.retention.None? then Nothing
    else
      match LimitOf(s.retention.value)
      case None => Refuse
      case Some(limit) =>
        if KindOf(s.name) != Diff then SetFull(limit)
        else if limit.kind != "count" then Refuse
        else SetDiff(limit)
  }

  function Effects(schedules: seq<Schedule>): seq<Effect> {
    seq(|schedules|, i requires 0 <= i < |schedules| => EffectOf(schedules[i]))
  }

  function LastFull(effects: seq<Effect>): Option<Limit> {
    if effects == [] then None
    else
      var e := effects[|effects| - 1];
      if e.SetFull? then Some(e.limit) else LastFull(effects[..|effects| - 1])
  }

  function LastDiff(effects: seq<Effect>): Option<Limit> {
    if effects == [] then None
    else
      var e := effects[|effects| - 1];
      if e.SetDiff? then Some(e.limit) else LastDiff(effects[..|effects| - 1])
  }

  function LimitKeys(repo: string, full: Option<Limit>, diff: Option<Limit>): map<string, string> {
    (if full.Some?
     then map[RepoKey(repo, "retention-full") := full.value.value,
         RepoKey(repo, "retention-full-type") := full.value.kind]
     else map[])
    + (if diff.Some? then map[RepoKey(repo, "retention-diff") := diff.value.value] else map[])
  }

  function RetentionKeys(repo: string, effects: seq<Effect>): map<string, string> {
    LimitKeys(repo, LastFull(effects), LastDiff(effects))
  }

  /** Writes the retention options into `config` until a schedule is refused; `done` is how many
      schedules it got through. */
  method ApplyRetentionConfig(config: map<string, string>, repo: string, schedules: seq<Schedule>)
    returns (out: map<string, string>, done: nat)
    ensures done <= |schedules|
    ensures Refuse !in Effects(schedules)[..done]
    ensures done < |schedules| ==> EffectOf(schedules[done]) == Refuse
    ensures out == config + RetentionKeys(repo, Effects(schedules)[..done])
  {
    out := config;
    done := 0;
    ghost var effects := Effects(schedules);
    while done < |schedules|
      invariant done <= |schedules|
      invariant Refuse !in effects[..done]
      invariant out == config + RetentionKeys(repo, effects[..done])
    {
      var schedule := schedules[done];
      ghost var effect := EffectOf(schedule);
      assert effects[..done + 1] == effects[..done] + [effect];
      ghost var before := out;
      if schedule.enabled && schedule.retention.Some? {
        var limit := LimitOf(schedule.retention.value);
        if limit.None? { return; }
        if KindOf(schedule.name) == Diff {
          if limit.value.kind != "count" { return; }
          out := out[RepoKey(repo, "retention-diff") := limit.value.value];
        } else {
          out := out[RepoKey(repo, "retention-full") := limit.value.value];
          out := out[RepoKey(repo, "retention-full-type") := limit.value.kind];
        }
      }
      assert out == WriteEffect(before, repo, effect);
      OneMoreEffect(config, repo, effects[..done], effect);
      done := done + 1;
    }
  }

  function WriteEffect(config: map<string, string>, repo: string, effect: Effect): map<string, string> {
    match effect
    case SetFull(limit) =>
      config[RepoKey(repo, "retention-full") := limit.value][RepoKey(repo, "retention-full-type") := limit.kind]
    case SetDiff(limit) => config[RepoKey(repo, "retention-diff") := limit.value]
    case _ => config
  }

  lemma OneMoreEffect(config: map<string, string>, repo: string, effects: seq<Effect>, effect: Effect)
    ensures config + RetentionKeys(repo, effects + [effect]) ==
              WriteEffect(config + RetentionKeys(repo, effects), repo, effect)
  {
    OptionsApart(repo);
    assert (effects + [effect])[..|effects|] == effects;
  }

  /** The options of one repo are different keys. */
  lemma OptionsApart(repo: string)
    ensures RepoKey(repo, "retention-full") != RepoKey(repo, "retention-full-type")
    ensures RepoKey(repo, "retention-full") != RepoKey(repo, "retention-diff")
    ensures RepoKey(repo, "retention-full-type") != RepoKey(repo, "retention-diff")
  {
    OptionKeysApart(repo, "retention-full", "retention-full-type");
    OptionKeysApart(repo, "retention-full", "retention-diff");
    OptionKeysApart(repo, "retention-full-type", "retention-diff");
  }

  lemma OptionKeysApart(repo: string, x: string, y: string)
    ensures RepoKey(repo, x) == RepoKey(repo, y) <==> x == y
  {
    assert RepoKey(repo, x)[|repo| + 1..] == x && RepoKey(repo, y)[|repo| + 1..] == y;
  }

  /** The full limit, value and type together, is that of the last schedule that sets it. */
  lemma {:induction false} LastFullWins(effects: seq<Effect>)
    ensures LastFull(effects).None? <==> forall i :: 0 <= i < |effects| ==> !effects[i].SetFull?
    ensures LastFull(effects).Some? ==>
              exists i :: 0 <= i < |effects| && effects[i] == SetFull(LastFull(effects).value)
                       && forall j :: i < j < |effects| ==> !effects[j].SetFull?
  {
    if effects != [] {
      var init, last := effects[..|effects| - 1], |effects| - 1;
      LastFullWins(init);
      assert effects == init + [effects[last]];
      if effects[last].SetFull? { assert effects[last] == SetFull(LastFull(effects).value); }
      if !effects[last].SetFull? && LastFull(init).Some? {
        var i :| 0 <= i < last && init[i] == SetFull(LastFull(init).value) && forall j :: i < j < last ==>
            !init[j].SetFull?;
        assert effects[i] == SetFull(LastFull(effects).value);
      }
    }
  }

  /** The diff limit is that of the last "diff" that sets it. */
  lemma {:induction false} LastDiffWins(effects: seq<Effect>)
    ensures LastDiff(effects).None? <==> forall i :: 0 <= i < |effects| ==> !effects[i].SetDiff?
    ensures LastDiff(effects).Some? ==>
              exists i :: 0 <= i < |effects| && effects[i] == SetDiff(LastDiff(effects).value)
                       && forall j :: i < j < |effects| ==> !effects[j].SetDiff?
  {
    if effects != [] {
      var init, last := effects[..|effects| - 1], |effects| - 1;
      LastDiffWins(init);
      assert effects == init + [effects[last]];
      if effects[last].SetDiff? { assert effects[last] == SetDiff(LastDiff(effects).value); }
      if !effects[last].SetDiff? && LastDiff(init).Some? {
        var i :| 0 <= i < last && init[i] == SetDiff(LastDiff(init).value) && forall j :: i < j < last ==>
            !init[j].SetDiff?;
        assert effects[i] == SetDiff(LastDiff(effects).value);
      }
    }
  }

  // ---------------------------------------------------------------- crons

  datatype Crons = Crons(full: Option<string>, differential: Option<string>, incremental: Option<string>)

  /** The cron of the last enabled schedule of that kind. */
  function LastCron(schedules: seq<Schedule>, kind: Kind): Option<string> {
    if schedules == [] then None
    else
      var last := schedules[|schedules| - 1];
      if last.enabled && KindOf(last.name) == kind then Some(last.cron)
      else LastCron(schedules[..|schedules| - 1], kind)
  }

  function CronsOf(schedules: seq<Schedule>): Crons {
    Crons(LastCron(schedules, Full), LastCron(schedules, Diff), LastCron(schedules, Incr))
  }

  method BuildPGBackRestSchedules(schedules: seq<Schedule>) returns (crons: Crons)
    ensures crons == CronsOf(schedules)
  {
    crons := Crons(None, None, None);
    for i := 0 to |schedules|
      invariant crons == CronsOf(schedules[..i])
    {
      assert schedules[..i + 1][..i] == schedules[..i];
      var schedule := schedules[i];
      if schedule.enabled {
        match KindOf(schedule.name) {
          case Full => crons := crons.(full := Some(schedule.cron));
          case Diff => crons := crons.(differential := Some(schedule.cron));
          case Incr => crons := crons.(incremental := Some(schedule.cron));
        }
      }
    }
    assert schedules[..|schedules|] == schedules;
  }

  /** Schedule `i` is the last enabled one of its kind. */
  ghost predicate LastOfKind(schedules: seq<Schedule>, i: nat) {
    && i < |schedules| && schedules[i].enabled
    && forall j :: i < j < |schedules| && schedules[j].enabled ==>
         KindOf(schedules[j].name) != KindOf(schedules[i].name)
  }

  lemma {:induction false} LastCronIs(schedules: seq<Schedule>, i: nat)
    requires LastOfKind(schedules, i)
    ensures LastCron(schedules, KindOf(schedules[i].name)) == Some(schedules[i].cron)
  {
    if i < |schedules| - 1 {
      LastCronIs(schedules[..|schedules| - 1], i);
    }
  }

  lemma {:induction false} NoCron(schedules: seq<Schedule>, kind: Kind)
    requires forall i :: 0 <= i < |schedules| && schedules[i].enabled ==> KindOf(schedules[i].name) != kind
    ensures LastCron(schedules, kind) == None
  {
    if schedules != [] { NoCron(schedules[..|schedules| - 1], kind); }
  }

  /** Each backup type has the cron of the last enabled schedule of that type, and none without one. */
  lemma CronsAre(schedules: seq<Schedule>, i: nat)
    requires LastOfKind(schedules, i)
    ensures match KindOf(schedules[i].name)
            case Full => CronsOf(schedules).full == Some(schedules[i].cron)
            case Diff => CronsOf(schedules).differential == Some(schedules[i].cron)
            case Incr => CronsOf(schedules).incremental == Some(schedules[i].cron)
  {
    LastCronIs(schedules, i);
  }

  lemma NoCrons(schedules: seq<Schedule>, kind: Kind)
    requires forall i :: 0 <= i < |schedules| && schedules[i].enabled ==> KindOf(schedules[i].name) != kind
    ensures match kind
            case Full => CronsOf(schedules).full == None
            case Diff => CronsOf(schedules).differential == None
            case Incr => CronsOf(schedules).incremental == None
  {
    NoCron(schedules, kind);
  }

  lemma {:induction false} EnabledHasCron(schedules: seq<Schedule>, i: nat)
    requires i < |schedules| && schedules[i].enabled
    ensures LastCron(schedules, KindOf(schedules[i].name)).Some?
  {
    if i < |schedules| - 1 {
      EnabledHasCron(schedules[..|schedules| - 1], i);
    }
  }

  /** No retention option without a schedule to retain: a full limit comes with a full or an
      incremental cron, a diff limit with a differential one. */
  lemma EveryLimitHasACron(repo: string, schedules: seq<Schedule>)
    ensures RepoKey(repo, "retention-full") in RetentionKeys(repo, Effects(schedules)) ==>
              CronsOf(schedules).full.Some? || CronsOf(schedules).incremental.Some?
    ensures RepoKey(repo, "retention-diff") in RetentionKeys(repo, Effects(schedules)) ==>
              CronsOf(schedules).differential.Some?
  {
    var effects := Effects(schedules);
    OptionsApart(repo);
    LastFullWins(effects);
    LastDiffWins(effects);
    if LastFull(effects).Some? {
      var i :| 0 <= i < |effects| && effects[i] == SetFull(LastFull(effects).value);
      EnabledHasCron(schedules, i);
    }
    if LastDiff(effects).Some? {
      var i :| 0 <= i < |effects| && effects[i] == SetDiff(LastDiff(effects).value);
      EnabledHasCron(schedules, i);
    }
  }

  // ---------------------------------------------------------------- what names and rules mean

  /** The name is "diff", in any case; the dotted capital I counts as an i. */
  predicate SaysDiff(name: string) {
    |name| == 4 && name[0] in "dD" && name[1] in "iI\U{130}" && name[2] in "fF" && name[3] in "fF"
  }

  predicate SaysIncr(name: string) {
    |name| == 4 && name[0] in "iI\U{130}" && name[1] in "nN" && name[2] in "cC" && name[3] in "rR"
  }

  lemma LowersTo(c: char)
    ensures LowerChar(c) == 'd' <==> c in "dD"
    ensures LowerChar(c) == 'i' <==> c in "iI\U{130}"
    ensures LowerChar(c) == 'f' <==> c in "fF"
    ensures LowerChar(c) == 'n' <==> c in "nN"
    ensures LowerChar(c) == 'c' <==> c in "cC"
    ensures LowerChar(c) == 'r' <==> c in "rR"
  {
    if 'A' <= c <= 'Z' { assert LowerChar(c) as int == c as int + 32; }
  }

  lemma LoweredIs(name: string, word: string)
    requires |word| == 4
    ensures Lower(name) == word <==>
              |name| == 4 && LowerChar(name[0]) == word[0] && LowerChar(name[1]) == word[1]
              && LowerChar(name[2]) == word[2] && LowerChar(name[3]) == word[3]
  {
    if |name| == 4 {
      assert forall i :: 0 <= i < 4 ==> Lower(name)[i] == LowerChar(name[i]);
    }
  }

  /** Which names select which backup type; every other one selects a full backup. */
  lemma KindOfIs(name: string)
    ensures KindOf(name) == Diff <==> SaysDiff(name)
    ensures KindOf(name) == Incr <==> SaysIncr(name)
  {
    LoweredIs(name, "diff");
    LoweredIs(name, "incr");
    if |name| == 4 {
      LowersTo(name[0]);
      LowersTo(name[1]);
      LowersTo(name[2]);
      LowersTo(name[3]);
    }
  }

  /** A duration of `n` units that denotes `days` days: a positive number without leading zeros, and a
      unit of one, seven or thirty-one days. */
  ghost predicate Denotes(duration: string, n: nat, unit: char, days: nat) {
    && 0 < n <= MAX_INT64 && duration == NatText(n) + [unit]
    && ((unit == 'd' && days == n) || (unit == 'w' && days == 7 * n) || (unit == 'm' && days == 31 * n))
  }

  /** What a rule asks for: a count, or a number of days as far as 64 bits go. */
  ghost predicate Asks(rule: RetentionRule, limit: Limit) {
    match rule
    case Count(count) => limit == Limit(Itoa(count), "count")
    case Time(duration) =>
      exists n: nat, unit: char, days: nat ::
        Denotes(duration, n, unit, days) && limit == Limit(Itoa(Wrap64(days)), "time")
    case UnknownRule => false
  }

  lemma DenotedLimit(duration: string, n: nat, unit: char, days: nat)
    requires Denotes(duration, n, unit, days)
    ensures LimitOf(Time(duration)) == Some(Limit(Itoa(Wrap64(days)), "time"))
  {
    LimitOfUnits(n, unit);
    assert n * DaysPer(unit).value == days;
  }

  /** Exactly the rules that ask for something are accepted, with what they ask for. */
  lemma LimitIs(rule: RetentionRule, limit: Limit)
    ensures LimitOf(rule) == Some(limit) <==> Asks(rule, limit)
  {
    if rule.Time? {
      if Asks(rule, limit) {
        var n: nat, unit: char, days: nat :|
          Denotes(rule.duration, n, unit, days) && limit == Limit(Itoa(Wrap64(days)), "time");
        DenotedLimit(rule.duration, n, unit, days);
      } else if LimitOf(rule).Some? {
        var n, unit, days := AcceptedDenotes(rule.duration);
        DenotedLimit(rule.duration, n, unit, days);
      }
    }
  }

  lemma AcceptedDenotes(duration: string) returns (n: nat, unit: char, days: nat)
    requires LimitOf(Time(duration)).Some?
    ensures Denotes(duration, n, unit, days)
  {
    n, unit := Value(duration[..|duration| - 1]), duration[|duration| - 1];
    days := if unit == 'd' then n else if unit == 'w' then 7 * n else 31 * n;
    TextOfValue(duration[..|duration| - 1]);
    assert duration == duration[..|duration| - 1] + [unit];
  }

  /** A schedule for which there is no pgBackRest option: a rule that asks for nothing, or a time limit
      on differential backups. */
  ghost predicate Unfit(s: Schedule) {
    && s.enabled && s.retention.Some?
    && ((SaysDiff(s.name) && !s.retention.value.Count?) || forall limit :: !Asks(s.retention.value, limit))
  }

  lemma UnfitIff(s: Schedule)
    ensures EffectOf(s) == Refuse <==> Unfit(s)
  {
    KindOfIs(s.name);
    if s.retention.Some? {
      var rule := s.retention.value;
      match LimitOf(rule) {
        case Some(limit) => LimitIs(rule, limit);
        case None => forall limit ensures !Asks(rule, limit) { LimitIs(rule, limit); }
      }
    }
  }

  /** The loop succeeds exactly if no schedule is unfit. */
  lemma RetentionSucceedsIff(schedules: seq<Schedule>)
    ensures Refuse !in Effects(schedules) <==> forall i :: 0 <= i < |schedules| ==> !Unfit(schedules[i])
  {
    forall i | 0 <= i < |schedules| ensures Effects(schedules)[i] == Refuse <==> Unfit(schedules[i]) {
      UnfitIff(schedules[i]);
    }
  }

  /** Schedule `i` has a rule and no later one with a rule sets the same option. */
  ghost predicate Decides(schedules: seq<Schedule>, i: nat, differential: bool) {
    && i < |schedules| && schedules[i].enabled && schedules[i].retention.Some?
    && SaysDiff(schedules[i].name) == differential
    && forall j :: i < j < |schedules| && schedules[j].enabled && schedules[j].retention.Some? ==>
         SaysDiff(schedules[j].name) != differential
  }

  lemma {:induction false} LastFullAt(effects: seq<Effect>, i: nat, limit: Limit)
    requires i < |effects| && effects[i] == SetFull(limit) && forall j :: i < j < |effects| ==> !effects[j].SetFull?
    ensures LastFull(effects) == Some(limit)
  {
    if i < |effects| - 1 { LastFullAt(effects[..|effects| - 1], i, limit); }
  }

  lemma {:induction false} LastDiffAt(effects: seq<Effect>, i: nat, limit: Limit)
    requires i < |effects| && effects[i] == SetDiff(limit) && forall j :: i < j < |effects| ==> !effects[j].SetDiff?
    ensures LastDiff(effects) == Some(limit)
  {
    if i < |effects| - 1 { LastDiffAt(effects[..|effects| - 1], i, limit); }
  }

  /** The options a fit list of schedules leaves behind, by name and value: the full limit with its type
      is what the last rule on a schedule that is not differential asks for, the diff limit what the
      last rule on a differential one asks for. */
  lemma FullOption(repo: string, schedules: seq<Schedule>, i: nat, limit: Limit)
    requires Decides(schedules, i, false) && Asks(schedules[i].retention.value, limit)
    ensures var keys := RetentionKeys(repo, Effects(schedules));
            && Get(keys, RepoKey(repo, "retention-full")) == Some(limit.value)
            && Get(keys, RepoKey(repo, "retention-full-type")) == Some(limit.kind)
  {
    var effects := Effects(schedules);
    KindOfIs(schedules[i].name);
    LimitIs(schedules[i].retention.value, limit);
    forall j | i < j < |effects| ensures !effects[j].SetFull? { KindOfIs(schedules[j].name); }
    LastFullAt(effects, i, limit);
    OptionsApart(repo);
  }

  lemma DiffOption(repo: string, schedules: seq<Schedule>, i: nat, limit: Limit)
    requires Decides(schedules, i, true) && schedules[i].retention.value.Count?
    requires Asks(schedules[i].retention.value, limit)
    ensures Get(RetentionKeys(repo, Effects(schedules)), RepoKey(repo, "retention-diff")) == Some(limit.value)
  {
    var effects := Effects(schedules);
    KindOfIs(schedules[i].name);
    LimitIs(schedules[i].retention.value, limit);
    forall j | i < j < |effects| ensures !effects[j].SetDiff? { KindOfIs(schedules[j].name); }
    LastDiffAt(effects, i, limit);
    OptionsApart(repo);
  }

  /** And no option without a rule for it. */
  lemma NoOption(repo: string, schedules: seq<Schedule>, differential: bool)
    requires forall i :: 0 <= i < |schedules| && schedules[i].enabled && schedules[i].retention.Some? ==>
               SaysDiff(schedules[i].name) != differential
    ensures var keys := RetentionKeys(repo, Effects(schedules));
            if differential then Get(keys, RepoKey(repo, "retention-diff")) == None
            else Get(keys, RepoKey(repo, "retention-full")) == Get(keys, RepoKey(repo, "retention-full-type")) == None
  {
    var effects := Effects(schedules);
    forall i | 0 <= i < |effects| ensures if differential then !effects[i].SetDiff? else !effects[i].SetFull? {
      KindOfIs(schedules[i].name);
    }
    LastFullWins(effects);
    LastDiffWins(effects);
    OptionsApart(repo);
  }
}

/**
 * The watchdog over a run's silence (`watchTick` and its loop in scripts/deadline.ts): it tells
 * a silent run at three quarters of its bound, and kills it once the bound has passed and the
 * run has had the rest of it since it was told, however late the ticks come.
 */
module Deadline {

  const NOTICE_AT := 0.75

  datatype Watch = Watch(silentFrom: real, noticed: real, noticedAt: real)

  datatype Verdict = Verdict(notice: bool, kill: bool)

  /** What one tick does. */
  function WatchTick(w: Watch, now: real, bound: real): Verdict {
    var silent := now - w.silentFrom;
    var notice := w.noticed != w.silentFrom && silent >= bound * NOTICE_AT;
    var toldAt := if notice then now else w.noticedAt;
    Verdict(notice, silent >= bound && now - toldAt >= bound * (1.0 - NOTICE_AT))
  }

  // ------------------------------------------------------------------ the loop

  datatype State = State(lastOutput: real, searching: bool, searchedAt: real, noticed: real, noticedAt: real, killed: bool)

  datatype Event = Output(at: real) | Tick(at: real) | SearchBegan(at: real) | SearchEnded(at: real)

  function Later(a: real, b: real): real { if a > b then a else b }

  function SilentFrom(s: State): real { Later(s.lastOutput, s.searchedAt) }

  function Started(at: real): State { State(at, false, 0.0, -1.0, 0.0, false) }

  predicate Watching(s: State) { !s.killed && !s.searching }

  function Says(s: State, now: real, bound: real): Verdict {
    WatchTick(Watch(SilentFrom(s), s.noticed, s.noticedAt), now, bound)
  }

  function Step(s: State, e: Event, bound: real): State {
    match e
    case Output(now) => s.(lastOutput := now)
    case SearchBegan(_) => s.(searching := true)
    case SearchEnded(now) => s.(searching := false, searchedAt := now)
    case Tick(now) =>
      if !Watching(s) then s
      else
        var v := Says(s, now, bound);
        var told := if v.notice then s.(noticed := SilentFrom(s), noticedAt := now) else s;
        told.(killed := v.kill)
  }

  class Watchdog {
    const bound: real
    var lastOutput: real
    var searching: bool
    var searchedAt: real
    var noticed: real
    var noticedAt: real
    var killed: bool

    ghost function Contents(): State
      reads this
    {
      State(lastOutput, searching, searchedAt, noticed, noticedAt, killed)
    }

    constructor (started: real, bound: real)
      ensures this.bound == bound && Contents() == Started(started)
    {
      this.bound := bound;
      lastOutput, searching, searchedAt := started, false, 0.0;
      noticed, noticedAt, killed := -1.0, 0.0, false;
    }

    method Heard(now: real)
      modifies this
      ensures Contents() == Step(old(Contents()), Output(now), bound)
    {
      lastOutput := now;
    }

    method BeginSearch(now: real)
      modifies this
      ensures Contents() == Step(old(Contents()), SearchBegan(now), bound)
    {
      searching := true;
    }

    method EndSearch(now: real)
      modifies this
      ensures Contents() == Step(old(Contents()), SearchEnded(now), bound)
    {
      searching := false;
      searchedAt := now;
    }

    /** One watchdog tick: whether the run is told, and whether it is killed. */
    method OnTick(now: real) returns (told: bool, kills: bool)
      modifies this
      ensures Contents() == Step(old(Contents()), Tick(now), bound)
      ensures told == (Watching(old(Contents())) && Says(old(Contents()), now, bound).notice)
      ensures kills == (Watching(old(Contents())) && Says(old(Contents()), now, bound).kill)
      ensures var from := if old(lastOutput) > old(searchedAt) then old(lastOutput) else old(searchedAt);
        && (told <==> !old(killed) && !old(searching) && old(noticed) != from && now - from >= bound * 0.75)
        && noticed == (if told then from else old(noticed)) && noticedAt == (if told then now else old(noticedAt))
        && (kills <==> !old(killed) && !old(searching) && now - from >= bound && now - noticedAt >= bound * 0.25)
        && killed == (old(killed) || kills)
      ensures lastOutput == old(lastOutput) && searching == old(searching) && searchedAt == old(searchedAt)
    {
      told, kills := false, false;
      if killed || searching {
        return;
      }
      var silentFrom := Later(lastOutput, searchedAt);
      var tick := WatchTick(Watch(silentFrom, noticed, noticedAt), now, bound);
      told, kills := tick.notice, tick.kill;
      if told {
        noticed := silentFrom;
        noticedAt := now;
      }
      if kills {
        killed := true;
      }
    }
  }

  // ---------------------------------------------------------------- whole runs

  function Run(start: real, bound: real, es: seq<Event>): State {
    if es == [] then Started(start) else Step(Run(start, bound, es[..|es| - 1]), es[|es| - 1], bound)
  }

  /** The clock never goes back. */
  ghost predicate Clocked(start: real, es: seq<Event>) {
    && start >= 0.0
    && (forall i :: 0 <= i < |es| ==> es[i].at >= start)
    && (forall i, j :: 0 <= i < j < |es| ==> es[i].at <= es[j].at)
  }

  /** What ends a silent stretch: output, or the end of the search for leftovers. */
  predicate Stirs(e: Event) { e.Output? || e.SearchEnded? }

  ghost predicate Tells(start: real, bound: real, es: seq<Event>, i: nat) {
    && i < |es| && es[i].Tick?
    && Watching(Run(start, bound, es[..i])) && Says(Run(start, bound, es[..i]), es[i].at, bound).notice
  }

  ghost predicate Kills(start: real, bound: real, es: seq<Event>, i: nat) {
    && i < |es| && es[i].Tick?
    && Watching(Run(start, bound, es[..i])) && Says(Run(start, bound, es[..i]), es[i].at, bound).kill
  }

  /** No stretch ended after event `n`. */
  ghost predicate SilentAfter(es: seq<Event>, n: nat) {
    forall j :: n < j < |es| ==> !Stirs(es[j])
  }

  // ------------------------------------------------- the fields, as history

  /** When the current stretch began. */
  function StretchFrom(start: real, es: seq<Event>): real {
    if es == [] then start
    else if Stirs(es[|es| - 1]) then es[|es| - 1].at
    else StretchFrom(start, es[..|es| - 1])
  }

  /** The tick that told the run in the current stretch, or -1. */
  ghost function ToldIn(start: real, bound: real, es: seq<Event>): int {
    if es == [] || Stirs(es[|es| - 1]) then -1
    else if Tells(start, bound, es, |es| - 1) then |es| - 1
    else ToldIn(start, bound, es[..|es| - 1])
  }

  lemma ClockedPrefix(start: real, es: seq<Event>, n: nat)
    requires Clocked(start, es) && n <= |es|
    ensures Clocked(start, es[..n])
  {
  }

  lemma {:induction false} StretchBounds(start: real, es: seq<Event>)
    requires Clocked(start, es)
    ensures start <= StretchFrom(start, es)
    ensures es != [] ==> StretchFrom(start, es) <= es[|es| - 1].at
    ensures forall j :: 0 <= j < |es| && Stirs(es[j]) ==> es[j].at <= StretchFrom(start, es)
    decreases |es|
  {
    if es != [] {
      var init := es[..|es| - 1];
      ClockedPrefix(start, es, |es| - 1);
      StretchBounds(start, init);
      if init != [] { assert init[|init| - 1] == es[|init| - 1]; }
      forall j | 0 <= j < |es| && Stirs(es[j]) ensures es[j].at <= StretchFrom(start, es) {
        if j < |init| { assert init[j] == es[j]; }
      }
    }
  }

  /** The run was told in this stretch exactly when the watchdog's mark says so. */
  lemma {:induction false} FieldsAreHistory(start: real, bound: real, es: seq<Event>)
    requires bound > 0.0 && Clocked(start, es)
    ensures var s, told := Run(start, bound, es), ToldIn(start, bound, es);
      && SilentFrom(s) == StretchFrom(start, es)
      && s.noticed <= SilentFrom(s)
      && (s.noticed == SilentFrom(s) <==> told >= 0)
      && (told >= 0 ==> told < |es| && s.noticedAt == es[told].at && s.noticedAt >= SilentFrom(s) + bound * NOTICE_AT)
    decreases |es|
  {
    if es != [] {
      var init, e := es[..|es| - 1], es[|es| - 1];
      ClockedPrefix(start, es, |es| - 1);
      FieldsAreHistory(start, bound, init);
      StretchBounds(start, es);
      StretchBounds(start, init);
      var s := Run(start, bound, init);
      assert Run(start, bound, es) == Step(s, e, bound);
      var told := ToldIn(start, bound, init);
      if told >= 0 { assert init[told] == es[told] && es[told].at <= e.at; }
      assert SilentFrom(s) <= e.at by {
        if init != [] { assert init[|init| - 1] == es[|init| - 1]; }
      }
    }
  }

  /** The told tick of a stretch is the one that told it, and there is no other. */
  lemma {:induction false} ToldTells(start: real, bound: real, es: seq<Event>, n: nat)
    requires bound > 0.0 && Clocked(start, es) && n < |es|
    ensures Tells(start, bound, es, n) && SilentAfter(es, n) <==> n == ToldIn(start, bound, es)
    decreases |es|
  {
    var init, e := es[..|es| - 1], es[|es| - 1];
    assert es == init + [e];
    ClockedPrefix(start, es, |es| - 1);
    FieldsAreHistory(start, bound, init);
    if n < |init| {
      TellsPrefix(start, bound, init, e, n);
      ToldTells(start, bound, init, n);
    }
  }

  lemma TellsPrefix(start: real, bound: real, es: seq<Event>, e: Event, n: nat)
    requires n < |es|
    ensures Tells(start, bound, es + [e], n) <==> Tells(start, bound, es, n)
    ensures SilentAfter(es + [e], n) <==> SilentAfter(es, n) && !Stirs(e)
  {
    var all := es + [e];
    assert all[..n] == es[..n] && all[n] == es[n];
    if SilentAfter(all, n) {
      assert all[|es|] == e;
      forall j | n < j < |es| ensures !Stirs(es[j]) { assert all[j] == es[j]; }
    }
  }

  // ------------------------------------------------------------- main results

  /** A kill follows the whole bound of silence, and at least a quarter of the bound after a
      notice in that same stretch. */
  lemma KillIsFair(start: real, bound: real, es: seq<Event>, i: nat)
    requires bound > 0.0 && Clocked(start, es) && Kills(start, bound, es, i)
    ensures start <= es[i].at - bound
    ensures forall j :: 0 <= j < i && Stirs(es[j]) ==> es[j].at <= es[i].at - bound
    ensures exists n: nat :: n < i && Tells(start, bound, es, n) && es[n].at <= es[i].at - bound * (1.0 - NOTICE_AT)
                              && forall j :: n < j < i ==> !Stirs(es[j])
  {
    var before := es[..i];
    ClockedPrefix(start, es, i);
    FieldsAreHistory(start, bound, before);
    StretchBounds(start, before);
    forall j | 0 <= j < i && Stirs(es[j]) ensures es[j].at <= es[i].at - bound {
      assert before[j] == es[j];
    }
    var n := ToldIn(start, bound, before);
    assert n >= 0;
    ToldTells(start, bound, before, n);
    assert before[..n] == es[..n] && before[n] == es[n];
    assert Tells(start, bound, es, n);
    forall j | n < j < i ensures !Stirs(es[j]) { assert before[j] == es[j]; }
  }

  /** Two notices are never given in one stretch. */
  lemma OneNoticePerStretch(start: real, bound: real, es: seq<Event>, i: nat, j: nat)
    requires bound > 0.0 && Clocked(start, es) && i < j
    requires Tells(start, bound, es, i) && Tells(start, bound, es, j)
    ensures exists k :: i < k < j && Stirs(es[k])
  {
    var before := es[..j];
    ClockedPrefix(start, es, j);
    FieldsAreHistory(start, bound, before);
    assert before[..i] == es[..i] && before[i] == es[i];
    assert Tells(start, bound, before, i);
    ToldTells(start, bound, before, i);
    assert !SilentAfter(before, i);
    var k :| i < k < |before| && Stirs(before[k]);
    assert Stirs(es[k]);
  }

  /** Ticks that keep coming, each within `d` of the one before. */
  ghost predicate Steady(prev: real, ticks: seq<real>, d: real) {
    forall k: nat :: k < |ticks| ==> InTime(prev, ticks, k, d)
  }

  /** Tick `k` comes after the one before it, by at most `d`. */
  predicate InTime(prev: real, ticks: seq<real>, k: nat, d: real)
    requires k < |ticks|
  {
    var last := if k == 0 then prev else ticks[k - 1];
    last <= ticks[k] <= last + d
  }

  function AfterTicks(s: State, ticks: seq<real>, bound: real): State
    decreases |ticks|
  {
    if ticks == [] then s else AfterTicks(Step(s, Tick(ticks[0]), bound), ticks[1..], bound)
  }

  /** When the kill is due, once the run was told. */
  function KillDue(s: State, bound: real): real {
    Later(SilentFrom(s) + bound, s.noticedAt + bound * (1.0 - NOTICE_AT))
  }

  /** A silence under watch, ticked last at `prev` and not yet due for what it has not had. */
  ghost predicate Waiting(s: State, prev: real, d: real, bound: real) {
    && Watching(s) && SilentFrom(s) <= prev
    && (if s.noticed == SilentFrom(s) then s.noticedAt <= SilentFrom(s) + bound * NOTICE_AT + d && prev < KillDue(s, bound)
        else prev < SilentFrom(s) + bound * NOTICE_AT)
  }

  lemma {:induction false} SteadyTicksKill(s: State, prev: real, ticks: seq<real>, d: real, bound: real) returns (k: nat)
    requires bound > 0.0 && d >= 0.0 && Waiting(s, prev, d, bound) && Steady(prev, ticks, d)
    requires ticks != [] && ticks[|ticks| - 1] >= SilentFrom(s) + bound + d
    ensures k < |ticks| && ticks[k] <= SilentFrom(s) + bound + 2.0 * d
    ensures !AfterTicks(s, ticks[..k], bound).killed && AfterTicks(s, ticks[..k + 1], bound).killed
    decreases |ticks|
  {
    var now := ticks[0];
    var t := Step(s, Tick(now), bound);
    assert InTime(prev, ticks, 0, d);
    if t.killed {
      k := 0;
      assert ticks[..1] == [now] && [now][1..] == [];
      assert AfterTicks(t, [], bound) == t;
    } else {
      assert |ticks| > 1;
      assert Steady(now, ticks[1..], d) by {
        forall j: nat | j < |ticks| - 1 ensures InTime(now, ticks[1..], j, d) {
          assert InTime(prev, ticks, j + 1, d);
        }
      }
      assert Waiting(t, now, d, bound);
      var m := SteadyTicksKill(t, now, ticks[1..], d, bound);
      k := m + 1;
      assert ticks[..k][1..] == ticks[1..][..m] && ticks[..k + 1][1..] == ticks[1..][..m + 1];
    }
  }

  /** An unbroken silence whose ticks come at most `d` apart is killed no later than the bound
      and two such gaps after it began. */
  lemma SilenceIsKilled(start: real, bound: real, es: seq<Event>, ticks: seq<real>, d: real)
    requires bound > 0.0 && d >= 0.0 && Clocked(start, es)
    requires es == [] || Stirs(es[|es| - 1])
    requires Watching(Run(start, bound, es))
    requires Steady(StretchFrom(start, es), ticks, d)
    requires ticks != [] && ticks[|ticks| - 1] >= StretchFrom(start, es) + bound + d
    ensures exists k: nat :: k < |ticks| && ticks[k] <= StretchFrom(start, es) + bound + 2.0 * d
              && !AfterTicks(Run(start, bound, es), ticks[..k], bound).killed
              && AfterTicks(Run(start, bound, es), ticks[..k + 1], bound).killed
  {
    FieldsAreHistory(start, bound, es);
    var s := Run(start, bound, es);
    assert Waiting(s, StretchFrom(start, es), d, bound);
    var k := SteadyTicksKill(s, StretchFrom(start, es), ticks, d, bound);
  }
}

// The fixed-window rate limiter: one counter per key, one reset time for all of them.
module RateLimiter {
  const MINUTE := 60_000_000_000

  // A request reads the clock once to compare it with the reset time and, if it resets the
  // counters, once more to set the next one.
  datatype Request = Request(key: string, now: int, later: int)

  datatype State = State(visitors: map<string, nat>, resetAt: int)

  function Seen(s: State, key: string): nat {
    if key in s.visitors then s.visitors[key] else 0
  }

  predicate Resets(s: State, r: Request) {
    r.now > s.resetAt
  }

  function Count(s: State, r: Request): State {
    var open := if Resets(s, r) then State(map[], r.later + MINUTE) else s;
    open.(visitors := open.visitors[r.key := Seen(open, r.key) + 1])
  }

  class Limiter {
    var visitors: map<string, nat>
    var resetAt: int
    const limit: int

    ghost function View(): State
      reads this
    {
      State(visitors, resetAt)
    }

    constructor (limitPerMinute: int, now: int)
      ensures View() == State(map[], now + MINUTE) && limit == limitPerMinute
    {
      visitors, resetAt, limit := map[], now + MINUTE, limitPerMinute;
    }

    method Limit(r: Request) returns (admitted: bool)
      modifies this
      ensures View() == Count(old(View()), r)
      ensures admitted <==> Seen(View(), r.key) <= limit
    {
      if r.now > resetAt {
        visitors := map[];
        resetAt := r.later + MINUTE;
      }
      visitors := visitors[r.key := (if r.key in visitors then visitors[r.key] else 0) + 1];
      var count := visitors[r.key];
      admitted := count <= limit;
    }
  }

  // ------------------------------------------------------------------ traces

  /** The clock never runs backwards; requests are handled one at a time. */
  predicate Monotone(created: int, trace: seq<Request>) {
    && (forall i | 0 <= i < |trace| :: created <= trace[i].now <= trace[i].later)
    && (forall i, j | 0 <= i < j < |trace| :: trace[i].later <= trace[j].now)
  }

  /** The limiter after a trace. */
  function After(created: int, trace: seq<Request>): State {
    if trace == [] then State(map[], created + MINUTE)
    else Count(After(created, trace[..|trace| - 1]), trace[|trace| - 1])
  }

  /** How often the counters were reset: the number of the window the last request is in. */
  function Window(created: int, trace: seq<Request>): nat {
    if trace == [] then 0
    else
      var init := trace[..|trace| - 1];
      Window(created, init) + if Resets(After(created, init), trace[|trace| - 1]) then 1 else 0
  }

  /** Whether the last request of a trace is let through. */
  predicate Admitted(created: int, trace: seq<Request>, limit: int)
    requires trace != []
  {
    Seen(After(created, trace), trace[|trace| - 1].key) <= limit
  }

  /** How many requests of a key fall into window w. */
  function Arrivals(created: int, trace: seq<Request>, key: string, w: nat): nat {
    if trace == [] then 0
    else
      Arrivals(created, trace[..|trace| - 1], key, w)
      + if trace[|trace| - 1].key == key && Window(created, trace) == w then 1 else 0
  }

  /** How many of them are let through. */
  function Admissions(created: int, trace: seq<Request>, key: string, w: nat, limit: int): nat {
    if trace == [] then 0
    else
      Admissions(created, trace[..|trace| - 1], key, w, limit)
      + if trace[|trace| - 1].key == key && Window(created, trace) == w && Admitted(created, trace, limit) then 1 else 0
  }

  /** How many requests of a key are let through between two times. */
  function AdmittedBetween(created: int, trace: seq<Request>, key: string, from: int, to: int, limit: int): nat {
    if trace == [] then 0
    else
      var last := trace[|trace| - 1];
      AdmittedBetween(created, trace[..|trace| - 1], key, from, to, limit)
      + if last.key == key && from <= last.now <= to && Admitted(created, trace, limit) then 1 else 0
  }

  // ------------------------------------------------------------------ windows

  lemma {:induction false} NoArrivalsYet(created: int, trace: seq<Request>, key: string, w: nat)
    requires w > Window(created, trace)
    ensures Arrivals(created, trace, key, w) == 0
  {
    if trace != [] {
      NoArrivalsYet(created, trace[..|trace| - 1], key, w);
    }
  }

  /** A key's counter is the number of its requests in the current window. */
  lemma {:induction false} CounterIsArrivals(created: int, trace: seq<Request>, key: string)
    ensures Seen(After(created, trace), key) == Arrivals(created, trace, key, Window(created, trace))
  {
    if trace != [] {
      var init := trace[..|trace| - 1];
      CounterIsArrivals(created, init, key);
      NoArrivalsYet(created, init, key, Window(created, init) + 1);
    }
  }

  /** Each window lets exactly the first `limit` requests of each key through: a request is
      admitted exactly when it is among them, and so many are admitted in all. */
  lemma {:induction false} FirstOfEachWindow(created: int, trace: seq<Request>, key: string, w: nat, limit: int)
    ensures trace != [] ==>
              var last := trace[|trace| - 1];
              Admitted(created, trace, limit) <==> Arrivals(created, trace, last.key, Window(created, trace)) <= limit
    ensures var n := Arrivals(created, trace, key, w);
            Admissions(created, trace, key, w, limit) == if limit <= 0 then 0 else if n <= limit then n else limit
  {
    if trace != [] {
      CounterIsArrivals(created, trace, trace[|trace| - 1].key);
      FirstOfEachWindow(created, trace[..|trace| - 1], key, w, limit);
    }
  }

  // ------------------------------------------------------------------ any minute

  lemma MonotonePrefix(created: int, trace: seq<Request>, n: nat)
    requires Monotone(created, trace) && n <= |trace|
    ensures Monotone(created, trace[..n])
  {
  }

  lemma {:induction false} WindowsGrow(created: int, trace: seq<Request>, i: nat, j: nat)
    requires i <= j <= |trace|
    ensures Window(created, trace[..i]) <= Window(created, trace[..j])
    decreases j
  {
    if i < j {
      assert trace[..j][..j - 1] == trace[..j - 1];
      WindowsGrow(created, trace, i, j - 1);
    }
  }

  /** A request of an earlier window came a minute or more before the next reset. */
  lemma {:induction false} EarlierWindow(created: int, trace: seq<Request>, i: nat)
    requires Monotone(created, trace) && i < |trace|
    requires Window(created, trace[..i + 1]) < Window(created, trace)
    ensures trace[i].now + MINUTE <= After(created, trace).resetAt
  {
    var init, last := trace[..|trace| - 1], trace[|trace| - 1];
    assert trace[..|trace|] == trace;
    if !Resets(After(created, init), last) {
      assert init[..i + 1] == trace[..i + 1];
      MonotonePrefix(created, trace, |trace| - 1);
      EarlierWindow(created, init, i);
    }
  }

  /** Consecutive resets are more than a minute apart: requests two windows apart are, too. */
  lemma {:induction false} TwoWindowsApart(created: int, trace: seq<Request>, i: nat, j: nat)
    requires Monotone(created, trace) && i < j < |trace|
    requires Window(created, trace[..i + 1]) + 2 <= Window(created, trace[..j + 1])
    ensures trace[j].now > trace[i].now + 60_000_000_000
    decreases j
  {
    assert trace[..j + 1][..j] == trace[..j];
    if Resets(After(created, trace[..j]), trace[j]) {
      MonotonePrefix(created, trace, j);
      assert trace[..j][..i + 1] == trace[..i + 1];
      EarlierWindow(created, trace[..j], i);
    } else {
      TwoWindowsApart(created, trace, i, j - 1);
    }
  }

  ghost predicate InTwoWindows(created: int, trace: seq<Request>, from: int, to: int, w: nat) {
    forall i | 0 <= i < |trace| && from <= trace[i].now <= to :: w <= Window(created, trace[..i + 1]) <= w + 1
  }

  lemma {:induction false} CountTwoWindows(created: int, trace: seq<Request>, key: string, from: int, to: int, w: nat, limit: int)
    requires InTwoWindows(created, trace, from, to, w)
    ensures AdmittedBetween(created, trace, key, from, to, limit)
            <= Admissions(created, trace, key, w, limit) + Admissions(created, trace, key, w + 1, limit)
  {
    if trace != [] {
      var init := trace[..|trace| - 1];
      assert trace[..|trace|] == trace;
      forall i | 0 <= i < |init| && from <= init[i].now <= to ensures w <= Window(created, init[..i + 1]) <= w + 1 {
        assert init[..i + 1] == trace[..i + 1];
      }
      CountTwoWindows(created, init, key, from, to, w, limit);
    }
  }

  /** The first request of a time span, if there is one. */
  lemma FirstIn(trace: seq<Request>, from: int, to: int) returns (f: nat)
    ensures f <= |trace|
    ensures f < |trace| ==> from <= trace[f].now <= to
    ensures forall i | 0 <= i < f :: !(from <= trace[i].now <= to)
  {
    f := 0;
    while f < |trace| && !(from <= trace[f].now <= to)
      invariant f <= |trace|
      invariant forall i | 0 <= i < f :: !(from <= trace[i].now <= to)
    {
      f := f + 1;
    }
  }

  lemma MinuteSpansTwoWindows(created: int, trace: seq<Request>, from: int, to: int, f: nat)
    requires Monotone(created, trace) && to <= from + MINUTE
    requires f < |trace| && from <= trace[f].now <= to
    requires forall i | 0 <= i < f :: !(from <= trace[i].now <= to)
    ensures InTwoWindows(created, trace, from, to, Window(created, trace[..f + 1]))
  {
    var w := Window(created, trace[..f + 1]);
    forall i | 0 <= i < |trace| && from <= trace[i].now <= to ensures w <= Window(created, trace[..i + 1]) <= w + 1 {
      WindowsGrow(created, trace, f + 1, i + 1);
      if w + 2 <= Window(created, trace[..i + 1]) {
        TwoWindowsApart(created, trace, f, i);
      }
    }
  }

  /** Any span of at most a minute, wherever it lies relative to the windows, lets at most
      twice the limit through for each key. */
  lemma AtMostTwiceTheLimit(created: int, trace: seq<Request>, key: string, from: int, to: int, limit: int)
    requires Monotone(created, trace) && to <= from + 60_000_000_000
    ensures AdmittedBetween(created, trace, key, from, to, limit) <= if limit <= 0 then 0 else 2 * limit
  {
    var f := FirstIn(trace, from, to);
    var w := if f < |trace| then Window(created, trace[..f + 1]) else 0;
    if f < |trace| {
      MinuteSpansTwoWindows(created, trace, from, to, f);
    }
    CountTwoWindows(created, trace, key, from, to, w, limit);
    FirstOfEachWindow(created, trace, key, w, limit);
    FirstOfEachWindow(created, trace, key, w + 1, limit);
  }

  /** The requests of one key. */
  function Only(trace: seq<Request>, key: string): seq<Request> {
    if trace == [] then []
    else
      var last := trace[|trace| - 1];
      Only(trace[..|trace| - 1], key) + if last.key == key then [last] else []
  }

  /** Every reset is brought about by a request of this key. */
  predicate OwnResets(created: int, trace: seq<Request>, key: string) {
    trace == []
    || (OwnResets(created, trace[..|trace| - 1], key)
        && (Resets(After(created, trace[..|trace| - 1]), trace[|trace| - 1]) ==> trace[|trace| - 1].key == key))
  }

  /** After the trace, the limiter looks to this key as if the other keys' requests had not
      been made. */
  predicate LooksAlone(created: int, trace: seq<Request>, key: string) {
    var s, alone := After(created, trace), After(created, Only(trace, key));
    s.resetAt == alone.resetAt && Seen(s, key) == Seen(alone, key)
  }

  /** Other keys have no influence as long as they do not reset the counters: the limiter
      then treats a key as if the other requests had not been made. */
  lemma {:induction false} OtherKeysDoNotCount(created: int, trace: seq<Request>, key: string, limit: int)
    requires OwnResets(created, trace, key)
    ensures LooksAlone(created, trace, key)
    ensures trace != [] && trace[|trace| - 1].key == key ==>
              Only(trace, key) != [] && (Admitted(created, trace, limit) <==> Admitted(created, Only(trace, key), limit))
  {
    if trace != [] {
      var init, last := trace[..|trace| - 1], trace[|trace| - 1];
      OtherKeysDoNotCount(created, init, key, limit);
      if last.key == key {
        AfterSnoc(created, Only(init, key), last);
      } else {
        assert Only(trace, key) == Only(init, key);
      }
    }
  }

  /** And it does so after every prefix of it. */
  predicate AlwaysAlone(created: int, trace: seq<Request>, key: string) {
    LooksAlone(created, trace, key) && (trace == [] || AlwaysAlone(created, trace[..|trace| - 1], key))
  }

  /** Other keys are invisible to a key throughout a trace exactly when none of them resets
      the counters. */
  lemma {:induction false} KeysIndependentIff(created: int, trace: seq<Request>, key: string)
    requires Monotone(created, trace)
    ensures AlwaysAlone(created, trace, key) <==> OwnResets(created, trace, key)
  {
    if trace != [] {
      var init, last := trace[..|trace| - 1], trace[|trace| - 1];
      MonotonePrefix(created, trace, |trace| - 1);
      KeysIndependentIff(created, init, key);
      if OwnResets(created, trace, key) {
        OtherKeysDoNotCount(created, trace, key, 0);
      } else if AlwaysAlone(created, init, key) {
        assert Only(trace, key) == Only(init, key);
        assert After(created, trace).resetAt == last.later + MINUTE > After(created, init).resetAt;
      }
    }
  }

  // ------------------------------------------------------------------ decisions, with and without others

  /** Every request of the key in the trace is decided as if the others were absent, under
      any limit. */
  ghost predicate DecidedAlone(created: int, trace: seq<Request>, key: string) {
    trace == []
    || (DecidedAlone(created, trace[..|trace| - 1], key)
        && (trace[|trace| - 1].key == key ==>
              forall limit: int :: Admitted(created, trace, limit) <==> AdmittedAlone(created, trace, key, limit)))
  }

  predicate AdmittedAlone(created: int, trace: seq<Request>, key: string, limit: int) {
    Seen(After(created, Only(trace, key)), key) <= limit
  }

  /** The counters were reset after the key's last request, or it has made none. */
  predicate Cleared(created: int, trace: seq<Request>, key: string) {
    trace == []
    || (trace[|trace| - 1].key != key
        && (Resets(After(created, trace[..|trace| - 1]), trace[|trace| - 1]) || Cleared(created, trace[..|trace| - 1], key)))
  }

  /** The key's request r opens a new count for the key: the counters were reset since its
      previous one, by whomever. */
  predicate OpensCount(created: int, before: seq<Request>, r: Request) {
    Cleared(created, before, r.key) || Resets(After(created, before), r)
  }

  /** The requests of the key open new counts exactly where they would without the others. */
  predicate SameCounts(created: int, trace: seq<Request>, key: string) {
    trace == []
    || (SameCounts(created, trace[..|trace| - 1], key)
        && (trace[|trace| - 1].key == key ==>
              (OpensCount(created, trace[..|trace| - 1], trace[|trace| - 1]) <==>
               OpensCount(created, Only(trace[..|trace| - 1], key), trace[|trace| - 1]))))
  }

  /** The key's counter right after its last request, 0 if it has made none. */
  function LastCount(created: int, trace: seq<Request>, key: string): nat {
    if trace == [] then 0
    else if trace[|trace| - 1].key == key then Seen(After(created, trace), key)
    else LastCount(created, trace[..|trace| - 1], key)
  }

  lemma {:induction false} CountSince(created: int, trace: seq<Request>, key: string)
    ensures Seen(After(created, trace), key) == if Cleared(created, trace, key) then 0 else LastCount(created, trace, key)
    ensures LastCount(created, trace, key) == 0 ==> Cleared(created, trace, key)
  {
    if trace != [] {
      CountSince(created, trace[..|trace| - 1], key);
    }
  }

  lemma NextCount(created: int, before: seq<Request>, r: Request)
    ensures Seen(After(created, before + [r]), r.key) ==
              if OpensCount(created, before, r) then 1 else LastCount(created, before, r.key) + 1
  {
    CountSince(created, before, r.key);
    AfterSnoc(created, before, r);
  }

  lemma {:induction false} OnlyEndsWithKey(created: int, trace: seq<Request>, key: string)
    ensures Only(trace, key) != [] ==> Only(trace, key)[|Only(trace, key)| - 1].key == key
    ensures LastCount(created, Only(trace, key), key) == Seen(After(created, Only(trace, key)), key)
  {
    if trace != [] {
      OnlyEndsWithKey(created, trace[..|trace| - 1], key);
      if trace[|trace| - 1].key != key {
        assert Only(trace, key) == Only(trace[..|trace| - 1], key);
      }
    }
  }

  /** A count of 0 means that the key has made no request, with the others or without. */
  lemma {:induction false} NoRequests(created: int, trace: seq<Request>, key: string)
    ensures LastCount(created, trace, key) == 0 <==> Only(trace, key) == []
    ensures LastCount(created, Only(trace, key), key) == 0 <==> Only(trace, key) == []
  {
    OnlyEndsWithKey(created, trace, key);
    if trace != [] {
      NoRequests(created, trace[..|trace| - 1], key);
      if trace[|trace| - 1].key != key {
        assert Only(trace, key) == Only(trace[..|trace| - 1], key);
      } else {
        AfterSnoc(created, Only(trace[..|trace| - 1], key), trace[|trace| - 1]);
      }
    }
  }

  /** Other keys have no influence on a key's decisions, under any limit, if and only if they
      do not change where its counts begin. So a reset that another key brings about is harmless
      if the key's own next request would have reset the counters anyway. */
  lemma {:induction false} DecidedAloneIff(created: int, trace: seq<Request>, key: string)
    ensures DecidedAlone(created, trace, key) <==> SameCounts(created, trace, key)
    ensures SameCounts(created, trace, key) ==> LastCount(created, trace, key) == LastCount(created, Only(trace, key), key)
  {
    if trace != [] {
      var init, last := trace[..|trace| - 1], trace[|trace| - 1];
      DecidedAloneIff(created, init, key);
      if last.key != key {
        assert Only(trace, key) == Only(init, key);
      } else {
        var own := Only(init, key);
        NextDecision(created, init, own, last);
        assert trace == init + [last] && Only(trace, key) == own + [last];
        assert LastCount(created, trace, key) == Seen(After(created, trace), key);
        assert LastCount(created, own + [last], key) == Seen(After(created, own + [last]), key);
        NoRequests(created, init, key);
        var a, b := Seen(After(created, trace), key), Seen(After(created, own + [last]), key);
        var least := if a < b then a else b;
        assert a != b ==> Admitted(created, trace, least) != AdmittedAlone(created, trace, key, least);
        assert own + [last] != [] && (own + [last])[|own|] == last;
        hide After, Cleared, OpensCount, Only, Resets, Seen;
      }
    }
  }

  lemma NextDecision(created: int, before: seq<Request>, own: seq<Request>, r: Request)
    ensures Seen(After(created, before + [r]), r.key) == if OpensCount(created, before, r) then 1 else LastCount(created, before, r.key) + 1
    ensures Seen(After(created, own + [r]), r.key) == if OpensCount(created, own, r) then 1 else LastCount(created, own, r.key) + 1
    ensures LastCount(created, before, r.key) == 0 ==> OpensCount(created, before, r)
    ensures LastCount(created, own, r.key) == 0 ==> OpensCount(created, own, r)
  {
    NextCount(created, before, r);
    NextCount(created, own, r);
    CountSince(created, before, r.key);
    CountSince(created, own, r.key);
  }

  lemma AfterSnoc(created: int, trace: seq<Request>, r: Request)
    ensures After(created, trace + [r]) == Count(After(created, trace), r)
  {
  }

  /** Keys do share their windows: whether a request is let through can depend on requests of
      another key, through the reset that those bring forward. Here the limit is one, and
      the last request passes only because another key reset the counters early. */
  lemma KeysShareWindows(created: int, limit: int, a: string, b: string)
    requires a != b && limit == 1
    ensures var early := Request(b, created + MINUTE + 1, created + MINUTE + 1);
            var first := Request(a, created + MINUTE + 2, created + MINUTE + 2);
            var last := Request(a, created + 2 * MINUTE + 2, created + 2 * MINUTE + 2);
            && Monotone(created, [early, first, last])
            && Admitted(created, [early, first, last], limit)
            && !Admitted(created, [first, last], limit)
  {
    var early := Request(b, created + MINUTE + 1, created + MINUTE + 1);
    var first := Request(a, created + MINUTE + 2, created + MINUTE + 2);
    var last := Request(a, created + 2 * MINUTE + 2, created + 2 * MINUTE + 2);
    AfterSnoc(created, [], early);
    AfterSnoc(created, [early], first);
    AfterSnoc(created, [early, first], last);
    assert [] + [early] == [early] && [early] + [first] == [early, first] && [early, first] + [last] == [early, first, last];
    AfterSnoc(created, [], first);
    AfterSnoc(created, [first], last);
    assert [] + [first] == [first] && [first] + [last] == [first, last];
  }
}

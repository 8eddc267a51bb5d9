/** The per-node health state machine with hysteresis (nodehealth.go). */
module NodeHealth {
  import opened Text

  datatype NodeState = Healthy | Suspect | Down | Unreachable | Blocked | Unknown | Unset

  /** One probe tick: sing-box runs, the unit is down, or SSH did not get through. */
  datatype Probe = Good | NotRunning(reason: string) | NoSsh(reason: string)

  datatype Metrics = Metrics(state: NodeState, reason: string, fails: nat, oks: nat)

  const COUNTER_CAP := 1000

  function Threshold(configured: int, fallback: nat): (t: nat)
    requires fallback > 0
    ensures t > 0
  {
    if configured <= 0 then fallback else configured
  }

  function Cap(n: nat): nat {
    if n > COUNTER_CAP then COUNTER_CAP else n
  }

  function Capped(m: Metrics): Metrics {
    m.(fails := Cap(m.fails), oks := Cap(m.oks))
  }

  predicate Flags(s: NodeState) {
    s == Down || s == Unreachable
  }

  /** The verdict a failing probe speaks for. */
  function Verdict(p: Probe): NodeState {
    if p.NoSsh? then Unreachable else Down
  }

  function AfterGood(m: Metrics, r: nat): Metrics {
    var n := m.(fails := 0, oks := m.oks + 1);
    if (m.state == Suspect || Flags(m.state)) && n.oks < r then n
    else Capped(n.(state := Healthy, reason := ""))
  }

  function AfterFail(m: Metrics, p: Probe, d: nat): Metrics
    requires !p.Good?
  {
    var n := m.(fails := m.fails + 1, oks := 0);
    if m.state == Verdict(p) then n
    else if Flags(m.state) then n.(state := Verdict(p), reason := p.reason)
    else if n.fails < d then
      if m.state == Unknown || m.state == Suspect then n else n.(state := Suspect, reason := p.reason)
    else Capped(n.(state := Verdict(p), reason := p.reason))
  }

  function Next(m: Metrics, p: Probe, d: nat, r: nat): Metrics {
    if m.state == Blocked then m else if p.Good? then AfterGood(m, r) else AfterFail(m, p, d)
  }

  class NodeMetrics {
    var state: NodeState
    var reason: string
    var consecutiveFails: nat
    var consecutiveOks: nat

    function Now(): Metrics
      reads this
    {
      Metrics(state, reason, consecutiveFails, consecutiveOks)
    }

    method Transition(s: NodeState, why: string)
      modifies this`state, this`reason
      ensures state == s && reason == why
    {
      state, reason := s, why;
    }

    /** NextState: advances the machine by one probe. */
    method NextState(probe: Probe, downThreshold: int, recoverThreshold: int) returns (changed: bool)
      modifies this
      ensures Now() == Next(old(Now()), probe, Threshold(downThreshold, 3), Threshold(recoverThreshold, 2))
      ensures changed == (state != old(state))
    {
      var d, r := Threshold(downThreshold, 3), Threshold(recoverThreshold, 2);
      var prev := state;
      if prev == Blocked {
        return false;
      }
      if probe.Good? {
        consecutiveFails := 0;
        consecutiveOks := consecutiveOks + 1;
        if prev == Suspect || prev == Down || prev == Unreachable {
          if consecutiveOks < r {
            return false;
          }
        }
        Transition(Healthy, "");
      } else {
        consecutiveOks := 0;
        consecutiveFails := consecutiveFails + 1;
        if prev == Verdict(probe) {
          return false;
        }
        if prev == Down || prev == Unreachable {
          Transition(Verdict(probe), probe.reason);
          return true;
        }
        if consecutiveFails < d {
          if prev != Unknown && prev != Suspect {
            Transition(Suspect, probe.reason);
          }
          return prev != state;
        }
        Transition(Verdict(probe), probe.reason);
      }
      if consecutiveFails > COUNTER_CAP {
        consecutiveFails := COUNTER_CAP;
      }
      if consecutiveOks > COUNTER_CAP {
        consecutiveOks := COUNTER_CAP;
      }
      return prev != state;
    }

    /** SetNodeState: the operator's mark, with fresh counters. */
    method SetNodeState(s: NodeState, why: string)
      modifies this
      ensures Now() == Metrics(s, why, 0, 0)
    {
      Transition(s, why);
      consecutiveFails, consecutiveOks := 0, 0;
    }
  }

  // ---- Runs ----

  const FRESH := Metrics(Healthy, "", 0, 0)

  function Run(m: Metrics, h: seq<Probe>, d: nat, r: nat): Metrics {
    if h == [] then m else Next(Run(m, h[..|h| - 1], d, r), h[|h| - 1], d, r)
  }

  function State(h: seq<Probe>, d: nat, r: nat): NodeState {
    Run(FRESH, h, d, r).state
  }

  // ---- Reading the history directly ----

  predicate AllFail(h: seq<Probe>) {
    forall i :: 0 <= i < |h| ==> !h[i].Good?
  }

  predicate AllGood(h: seq<Probe>) {
    forall i :: 0 <= i < |h| ==> h[i].Good?
  }

  /** The last n probes exist and all failed (all were good). */
  predicate TrailingFails(h: seq<Probe>, n: nat) {
    n <= |h| && AllFail(h[|h| - n..])
  }

  predicate TrailingOks(h: seq<Probe>, n: nat) {
    n <= |h| && AllGood(h[|h| - n..])
  }

  /** At some point the last d probes had failed, and r good ones in a row never followed. */
  ghost predicate Flagged(h: seq<Probe>, d: nat, r: nat) {
    exists j: nat :: FlaggedAt(h, d, r, j)
  }

  ghost predicate FlaggedAt(h: seq<Probe>, d: nat, r: nat, j: nat) {
    j <= |h| && TrailingFails(h[..j], d) && forall k :: j + r <= k <= |h| ==> !TrailingOks(h[..k], r)
  }

  /** The last failing probe. */
  function LastFail(h: seq<Probe>): Probe {
    if h == [] then Good else if !h[|h| - 1].Good? then h[|h| - 1] else LastFail(h[..|h| - 1])
  }

  lemma {:induction false} TrailSnoc(h: seq<Probe>, p: Probe, n: nat)
    ensures TrailingFails(h + [p], n + 1) <==> !p.Good? && TrailingFails(h, n)
    ensures TrailingOks(h + [p], n + 1) <==> p.Good? && TrailingOks(h, n)
  {
    var g := h + [p];
    if n <= |h| {
      var a, b := h[|h| - n..], g[|g| - (n + 1)..];
      assert b == a + [p];
      assert b[n] == p && forall i :: 0 <= i < n ==> b[i] == a[i];
    }
  }

  lemma {:induction false} TrailShorter(h: seq<Probe>, m: nat, n: nat)
    requires m <= n
    ensures TrailingFails(h, n) ==> TrailingFails(h, m)
    ensures TrailingOks(h, n) ==> TrailingOks(h, m)
  {
    if n <= |h| {
      var a, b := h[|h| - n..], h[|h| - m..];
      assert forall i :: 0 <= i < m ==> b[i] == a[i + n - m];
    }
  }

  lemma {:induction false} NoTrailAfter(h: seq<Probe>, p: Probe, n: nat)
    requires n > 0
    ensures p.Good? ==> !TrailingFails(h + [p], n)
    ensures !p.Good? ==> !TrailingOks(h + [p], n)
  {
    TrailSnoc(h, p, n - 1);
  }

  lemma {:induction false} FlaggedKept(h: seq<Probe>, p: Probe, d: nat, r: nat, j: nat)
    requires d > 0 && r > 0 && FlaggedAt(h, d, r, j) && !TrailingOks(h + [p], r)
    ensures FlaggedAt(h + [p], d, r, j)
  {
    var g := h + [p];
    assert g[..j] == h[..j];
    forall k | j + r <= k <= |g|
      ensures !TrailingOks(g[..k], r)
    {
      if k <= |h| {
        assert g[..k] == h[..k];
      } else {
        assert g[..k] == g;
      }
    }
  }

  lemma {:induction false} FlaggedBefore(h: seq<Probe>, p: Probe, d: nat, r: nat, j: nat)
    requires d > 0 && r > 0 && FlaggedAt(h + [p], d, r, j) && j <= |h|
    ensures FlaggedAt(h, d, r, j)
  {
    var g := h + [p];
    assert g[..j] == h[..j];
    forall k | j + r <= k <= |h|
      ensures !TrailingOks(h[..k], r)
    {
      assert g[..k] == h[..k];
    }
  }

  /** r good probes in a row end any flag raised before them. */
  lemma {:induction false} RecoveryClears(h: seq<Probe>, d: nat, r: nat)
    requires d > 0 && r > 0 && TrailingOks(h, r)
    ensures !Flagged(h, d, r)
  {
    assert h[..|h|] == h;
    forall j: nat
      ensures !FlaggedAt(h, d, r, j)
    {
      assert 0 < d <= j <= |h| ==> h[..j][j - d..][d - 1] == h[j - 1];
      assert |h| - r < j <= |h| ==> h[|h| - r..][j - 1 - (|h| - r)] == h[j - 1];
    }
  }

  /** How the flag moves with one more probe. */
  lemma {:induction false} FlaggedSnoc(h: seq<Probe>, p: Probe, d: nat, r: nat)
    requires d > 0 && r > 0
    ensures Flagged(h + [p], d, r) <==> !TrailingOks(h + [p], r) && (Flagged(h, d, r) || TrailingFails(h + [p], d))
  {
    var g := h + [p];
    assert g[..|g|] == g;
    if TrailingOks(g, r) {
      RecoveryClears(g, d, r);
    } else {
      if j: nat :| FlaggedAt(h, d, r, j) {
        FlaggedKept(h, p, d, r, j);
      }
      if TrailingFails(g, d) {
        assert FlaggedAt(g, d, r, |g|);
      }
      if j: nat :| FlaggedAt(g, d, r, j) {
        if j <= |h| {
          FlaggedBefore(h, p, d, r, j);
        } else {
          assert g[..j] == g;
        }
      }
    }
  }

  lemma {:induction false} NothingFlagged(d: nat, r: nat)
    requires d > 0 && r > 0
    ensures !Flagged([], d, r)
  {
  }

  // ---- The closed form ----

  /** What the run knows about its history. */
  ghost predicate Mirrors(m: Metrics, h: seq<Probe>, d: nat, r: nat) {
    && m.state in {Healthy, Suspect, Down, Unreachable}
    && (m.state == Healthy <==> AllGood(h) || TrailingOks(h, r))
    && (Flags(m.state) <==> Flagged(h, d, r))
    && (Flags(m.state) ==> m.state == Verdict(LastFail(h)))
    && (!Flags(m.state) ==> m.fails < d && forall n: nat :: TrailingFails(h, n) <==> n <= m.fails)
    && (m.state != Healthy ==> m.oks < r && forall n: nat :: TrailingOks(h, n) <==> n <= m.oks)
  }

  lemma {:induction false} FreshMirrors(d: nat, r: nat)
    requires d > 0 && r > 0
    ensures Mirrors(FRESH, [], d, r)
  {
    NothingFlagged(d, r);
  }

  lemma {:induction false} CountsAfterGood(h: seq<Probe>, p: Probe)
    requires p.Good?
    ensures forall n: nat :: TrailingFails(h + [p], n) <==> n == 0
    ensures forall n: nat :: n > 0 ==> (TrailingOks(h + [p], n) <==> TrailingOks(h, n - 1))
    ensures AllGood(h + [p]) <==> AllGood(h)
  {
    forall n: nat
      ensures TrailingFails(h + [p], n) <==> n == 0
      ensures n > 0 ==> (TrailingOks(h + [p], n) <==> TrailingOks(h, n - 1))
    {
      if n > 0 {
        TrailSnoc(h, p, n - 1);
      }
    }
    var g := h + [p];
    assert g[|h|] == p && forall i :: 0 <= i < |h| ==> g[i] == h[i];
  }

  lemma {:induction false} CountsAfterFail(h: seq<Probe>, p: Probe)
    requires !p.Good?
    ensures forall n: nat :: TrailingOks(h + [p], n) <==> n == 0
    ensures forall n: nat :: n > 0 ==> (TrailingFails(h + [p], n) <==> TrailingFails(h, n - 1))
    ensures !AllGood(h + [p])
  {
    forall n: nat
      ensures TrailingOks(h + [p], n) <==> n == 0
      ensures n > 0 ==> (TrailingFails(h + [p], n) <==> TrailingFails(h, n - 1))
    {
      if n > 0 {
        TrailSnoc(h, p, n - 1);
      }
    }
    assert (h + [p])[|h|] == p;
  }

  lemma {:induction false} GoodMirrors(m: Metrics, h: seq<Probe>, p: Probe, d: nat, r: nat)
    requires d > 0 && r > 0 && Mirrors(m, h, d, r) && p.Good?
    ensures Mirrors(Next(m, p, d, r), h + [p], d, r)
  {
    var g := h + [p];
    CountsAfterGood(h, p);
    FlaggedSnoc(h, p, d, r);
    assert g[..|h|] == h;
    assert TrailingFails(h, 0) && TrailingOks(h, 0);
    assert LastFail(g) == LastFail(h);
    if m.state == Healthy {
      if TrailingOks(h, r) {
        TrailShorter(h, r - 1, r);
      }
    }
    hide TrailingOks, TrailingFails, AllGood, Flagged;
  }

  lemma {:induction false} FailMirrors(m: Metrics, h: seq<Probe>, p: Probe, d: nat, r: nat)
    requires d > 0 && r > 0 && Mirrors(m, h, d, r) && !p.Good?
    ensures Mirrors(Next(m, p, d, r), h + [p], d, r)
  {
    CountsAfterFail(h, p);
    FlaggedSnoc(h, p, d, r);
    assert (h + [p])[..|h|] == h;
    assert LastFail(h + [p]) == p;
    hide TrailingOks, TrailingFails, AllGood, Flagged, LastFail;
  }

  lemma {:induction false} RunMirrors(h: seq<Probe>, d: nat, r: nat)
    requires d > 0 && r > 0
    ensures Mirrors(Run(FRESH, h, d, r), h, d, r)
  {
    if h == [] {
      FreshMirrors(d, r);
    } else {
      var front, p := h[..|h| - 1], h[|h| - 1];
      assert h == front + [p];
      RunMirrors(front, d, r);
      hide Mirrors, Next;
      if p.Good? {
        GoodMirrors(Run(FRESH, front, d, r), front, p, d, r);
      } else {
        FailMirrors(Run(FRESH, front, d, r), front, p, d, r);
      }
    }
  }

  /** The state after any probe history of a fresh healthy node, read off the history alone. */
  lemma {:induction false} ClosedForm(h: seq<Probe>, d: nat, r: nat)
    requires d > 0 && r > 0
    ensures State(h, d, r)
         == if AllGood(h) || TrailingOks(h, r) then Healthy
            else if !Flagged(h, d, r) then Suspect
            else if LastFail(h).NoSsh? then Unreachable
            else Down
  {
    RunMirrors(h, d, r);
  }

  /** d failures in a row always flag the node, with the kind of the last probe; r good probes in
      a row always clear it. */
  lemma {:induction false} TrailsDecide(h: seq<Probe>, d: nat, r: nat)
    requires d > 0 && r > 0
    ensures TrailingFails(h, d) ==> State(h, d, r) == if h[|h| - 1].NoSsh? then Unreachable else Down
    ensures TrailingOks(h, r) ==> State(h, d, r) == Healthy
  {
    ClosedForm(h, d, r);
    if TrailingFails(h, d) {
      assert h == h[..|h| - 1] + [h[|h| - 1]];
      assert h[|h| - d..][d - 1] == h[|h| - 1];
      CountsAfterFail(h[..|h| - 1], h[|h| - 1]);
      FlaggedSnoc(h[..|h| - 1], h[|h| - 1], d, r);
    }
  }

  /** Down and unreachable are entered only by the d-th failure in a row and left only by the
      r-th good probe in a row, to healthy. */
  lemma {:induction false} FlagMoves(h: seq<Probe>, p: Probe, d: nat, r: nat)
    requires d > 0 && r > 0
    ensures !Flags(State(h, d, r)) && Flags(State(h + [p], d, r)) ==> TrailingFails(h + [p], d)
    ensures Flags(State(h, d, r)) && !Flags(State(h + [p], d, r)) ==> TrailingOks(h + [p], r) && State(h + [p], d, r) == Healthy
  {
    RunMirrors(h, d, r);
    RunMirrors(h + [p], d, r);
    ClosedForm(h + [p], d, r);
    FlaggedSnoc(h, p, d, r);
    hide Flagged, TrailingFails, TrailingOks, Run;
  }

  /** A blocked node ignores every probe. */
  lemma {:induction false} BlockedSticks(m: Metrics, h: seq<Probe>, d: nat, r: nat)
    requires m.state == Blocked
    ensures Run(m, h, d, r) == m
  {
    if h != [] {
      BlockedSticks(m, h[..|h| - 1], d, r);
    }
  }

  // ---- How often a node can be flagged ----

  function Entries(h: seq<Probe>, d: nat, r: nat): nat {
    if h == [] then 0
    else
      var front := h[..|h| - 1];
      Entries(front, d, r) + if !Flags(State(front, d, r)) && Flags(State(h, d, r)) then 1 else 0
  }

  /** Each entry has used up its d failures and, before the next one, r good probes. */
  lemma {:induction false} EntriesPaid(h: seq<Probe>, d: nat, r: nat)
    requires d > 0 && r > 0
    ensures var m := Run(FRESH, h, d, r);
            Entries(h, d, r) * (d + r) + (if Flags(m.state) then m.oks else m.fails) <= |h| + (if Flags(m.state) then r else 0)
  {
    if h != [] {
      var front, p := h[..|h| - 1], h[|h| - 1];
      EntriesPaid(front, d, r);
      RunMirrors(front, d, r);
      PaidStep(Run(FRESH, front, d, r), p, d, r, Entries(front, d, r), |front|);
    }
  }

  lemma {:induction false} PaidStep(m: Metrics, p: Probe, d: nat, r: nat, e: nat, n: nat)
    requires d > 0 && r > 0 && m.state in {Healthy, Suspect, Down, Unreachable}
    requires (!Flags(m.state) ==> m.fails < d) && (m.state != Healthy ==> m.oks < r)
    requires e * (d + r) + (if Flags(m.state) then m.oks else m.fails) <= n + (if Flags(m.state) then r else 0)
    ensures var m' := Next(m, p, d, r);
            var e' := e + if !Flags(m.state) && Flags(m'.state) then 1 else 0;
            e' * (d + r) + (if Flags(m'.state) then m'.oks else m'.fails) <= n + 1 + (if Flags(m'.state) then r else 0)
  {
    assert (e + 1) * (d + r) == e * (d + r) + d + r;
  }

  /** n probes cause at most (n + r) / (d + r) entries into down or unreachable. */
  lemma {:induction false} EntriesBounded(h: seq<Probe>, d: nat, r: nat)
    requires d > 0 && r > 0
    ensures Entries(h, d, r) * (d + r) <= |h| + r
  {
    EntriesPaid(h, d, r);
  }

  function Rep(p: Probe, k: nat): seq<Probe> {
    if k == 0 then [] else Rep(p, k - 1) + [p]
  }

  lemma {:induction false} RepSnoc(h: seq<Probe>, p: Probe, k: nat)
    requires k > 0
    ensures h + Rep(p, k) == (h + Rep(p, k - 1)) + [p]
  {
  }

  lemma {:induction false} RepNone(h: seq<Probe>, p: Probe)
    ensures h + Rep(p, 0) == h
  {
  }

  lemma {:induction false} RunSnoc(h: seq<Probe>, p: Probe, d: nat, r: nat)
    ensures Run(FRESH, h + [p], d, r) == Next(Run(FRESH, h, d, r), p, d, r)
    ensures Entries(h + [p], d, r)
         == Entries(h, d, r) + if !Flags(State(h, d, r)) && Flags(State(h + [p], d, r)) then 1 else 0
  {
    assert (h + [p])[..|h|] == h;
  }

  /** An outage of d failing probes followed by r good ones, n times over. */
  function Outages(bad: Probe, good: Probe, n: nat, d: nat, r: nat): seq<Probe> {
    if n == 0 then [] else Outages(bad, good, n - 1, d, r) + Rep(bad, d) + Rep(good, r)
  }

  /** A healthy node k failures into an outage. */
  predicate Failing(m: Metrics, k: nat, d: nat) {
    && m.state == (if k == 0 then Healthy else if k < d then Suspect else Unreachable)
    && (k < d ==> m.fails == k) && (k > 0 ==> m.oks == 0)
  }

  /** A flagged node k good probes into its recovery. */
  predicate Recovering(m: Metrics, k: nat, r: nat) {
    (if k < r then Flags(m.state) && m.oks == k else m.state == Healthy) && (k > 0 ==> m.fails == 0)
  }

  lemma {:induction false} FailingNext(m: Metrics, bad: Probe, k: nat, d: nat, r: nat)
    requires bad.NoSsh? && k < d && Failing(m, k, d)
    ensures Failing(Next(m, bad, d, r), k + 1, d)
    ensures Flags(Next(m, bad, d, r).state) <==> k + 1 == d
    ensures !Flags(m.state)
  {
  }

  lemma {:induction false} RecoveringNext(m: Metrics, good: Probe, k: nat, d: nat, r: nat)
    requires good.Good? && k < r && Recovering(m, k, r)
    ensures Recovering(Next(m, good, d, r), k + 1, r) && Flags(m.state)
  {
  }

  lemma {:induction false} FailPrefix(h: seq<Probe>, bad: Probe, k: nat, d: nat, r: nat)
    requires bad.NoSsh? && 0 < r && k <= d && 0 < d && Failing(Run(FRESH, h, d, r), 0, d)
    ensures Failing(Run(FRESH, h + Rep(bad, k), d, r), k, d)
    ensures Entries(h + Rep(bad, k), d, r) == Entries(h, d, r) + if k < d then 0 else 1
  {
    hide Run, Rep, Entries, Failing, Next, Flags;
    RepNone(h, bad);
    if k > 0 {
      FailPrefix(h, bad, k - 1, d, r);
      RepSnoc(h, bad, k);
      RunSnoc(h + Rep(bad, k - 1), bad, d, r);
      FailingNext(Run(FRESH, h + Rep(bad, k - 1), d, r), bad, k - 1, d, r);
    }
  }

  lemma {:induction false} GoodPrefix(h: seq<Probe>, good: Probe, k: nat, d: nat, r: nat)
    requires good.Good? && 0 < d && k <= r && 0 < r && Recovering(Run(FRESH, h, d, r), 0, r)
    ensures Recovering(Run(FRESH, h + Rep(good, k), d, r), k, r)
    ensures Entries(h + Rep(good, k), d, r) == Entries(h, d, r)
  {
    hide Run, Rep, Entries, Recovering, Next, Flags;
    RepNone(h, good);
    if k > 0 {
      GoodPrefix(h, good, k - 1, d, r);
      RepSnoc(h, good, k);
      RunSnoc(h + Rep(good, k - 1), good, d, r);
      RecoveringNext(Run(FRESH, h + Rep(good, k - 1), d, r), good, k - 1, d, r);
    }
  }

  lemma {:induction false} RepLength(p: Probe, k: nat)
    ensures |Rep(p, k)| == k
  {
    if k > 0 {
      RepLength(p, k - 1);
    }
  }

  lemma {:induction false} NoOutages(d: nat, r: nat)
    ensures Failing(Run(FRESH, [], d, r), 0, d) && Entries([], d, r) == 0
  {
  }

  lemma {:induction false} OutagesRun(bad: Probe, good: Probe, n: nat, d: nat, r: nat)
    requires bad.NoSsh? && good.Good? && d > 0 && r > 0
    ensures Failing(Run(FRESH, Outages(bad, good, n, d, r), d, r), 0, d)
    ensures Entries(Outages(bad, good, n, d, r), d, r) == n && |Outages(bad, good, n, d, r)| == n * (d + r)
  {
    hide Run, Rep, Entries;
    if n == 0 {
      NoOutages(d, r);
    } else {
      OutagesRun(bad, good, n - 1, d, r);
      FailPrefix(Outages(bad, good, n - 1, d, r), bad, d, d, r);
      GoodPrefix(Outages(bad, good, n - 1, d, r) + Rep(bad, d), good, r, d, r);
      RepLength(bad, d);
      RepLength(good, r);
      Distribute(n, d + r);
    }
  }

  lemma {:induction false} Distribute(n: nat, k: nat)
    requires n > 0
    ensures n * k == (n - 1) * k + k
  {
  }

  lemma {:induction false} OutagesTight(bad: Probe, good: Probe, n: nat, d: nat, r: nat) returns (h: seq<Probe>)
    requires bad.NoSsh? && good.Good? && d > 0 && r > 0 && n > 0
    ensures Entries(h, d, r) == n && n * (d + r) == |h| + r
  {
    hide *;
    OutagesRun(bad, good, n - 1, d, r);
    FailPrefix(Outages(bad, good, n - 1, d, r), bad, d, d, r);
    RepLength(bad, d);
    Distribute(n, d + r);
    h := Outages(bad, good, n - 1, d, r) + Rep(bad, d);
  }

  /** The bound is reached: a history with exactly n entries and n * (d + r) - r probes. */
  lemma {:induction false} EntriesBoundTight(n: nat, d: nat, r: nat)
    requires d > 0 && r > 0 && n > 0
    ensures exists h :: Entries(h, d, r) == n && n * (d + r) == |h| + r
  {
    var h := OutagesTight(NoSsh(""), Good, n, d, r);
  }

  // ---- Nodes that start unknown ----

  /** A node without metrics, and an unblocked one. */
  predicate Undecided(m: Metrics) {
    m.state == Unknown && m.fails == 0 && m.oks == 0
  }

  function FirstGood(h: seq<Probe>): (g: nat)
    ensures g <= |h| && (forall i :: 0 <= i < g ==> !h[i].Good?) && (g < |h| ==> h[g].Good?)
  {
    if h == [] || h[0].Good? then 0 else 1 + FirstGood(h[1..])
  }

  /** The part of the history that counts: from the first good probe if it comes before the d-th
      failing one, all of it from the d-th failing probe on, nothing before either. */
  function Decided(h: seq<Probe>, d: nat): Option<seq<Probe>> {
    if FirstGood(h) < |h| && FirstGood(h) < d then Some(h[FirstGood(h)..])
    else if |h| >= d then Some(h)
    else None
  }

  lemma {:induction false} FirstGoodSnoc(h: seq<Probe>, p: Probe)
    ensures FirstGood(h + [p]) == if FirstGood(h) < |h| || p.Good? then FirstGood(h) else |h| + 1
  {
    var g := h + [p];
    var a, b := FirstGood(h), FirstGood(g);
    assert forall i :: 0 <= i < |h| ==> g[i] == h[i];
    assert g[|h|] == p;
  }

  lemma {:induction false} DecidedSnoc(h: seq<Probe>, p: Probe, d: nat)
    requires d > 0
    ensures match Decided(h, d)
            case Some(e) => Decided(h + [p], d) == Some(e + [p])
            case None =>
              && FirstGood(h) == |h| < d && AllFail(h)
              && Decided(h + [p], d) == if p.Good? then Some([p]) else if |h| + 1 >= d then Some(h + [p]) else None
  {
    FirstGoodSnoc(h, p);
    assert (h + [p])[|h|..] == [p];
    if FirstGood(h) < |h| {
      assert (h + [p])[FirstGood(h)..] == h[FirstGood(h)..] + [p];
    }
  }

  lemma {:induction false} RunOne(m: Metrics, h: seq<Probe>, p: Probe, d: nat, r: nat)
    ensures Run(m, h + [p], d, r) == Next(Run(m, h, d, r), p, d, r)
  {
    assert (h + [p])[..|h|] == h;
  }

  /** A failing history shorter than d, from a healthy node. */
  lemma {:induction false} FailingFresh(h: seq<Probe>, d: nat, r: nat)
    requires AllFail(h) && |h| < d
    ensures Run(FRESH, h, d, r).fails == |h| && Run(FRESH, h, d, r).oks == 0
    ensures Run(FRESH, h, d, r).state == if h == [] then Healthy else Suspect
  {
    if h != [] {
      var front := h[..|h| - 1];
      assert forall i :: 0 <= i < |front| ==> front[i] == h[i];
      FailingFresh(front, d, r);
    }
  }

  /** An unknown node stays unknown until its history is decided; from then on it is where a fresh
      healthy node would be after the part that counts. */
  lemma {:induction false} UnknownRun(m: Metrics, h: seq<Probe>, d: nat, r: nat)
    requires Undecided(m) && d > 0 && r > 0
    ensures Run(m, h, d, r) == match Decided(h, d) case None => m.(fails := |h|) case Some(e) => Run(FRESH, e, d, r)
  {
    if h != [] {
      var front, p := h[..|h| - 1], h[|h| - 1];
      assert h == front + [p];
      UnknownRun(m, front, d, r);
      DecidedSnoc(front, p, d);
      RunOne(m, front, p, d, r);
      UnknownStep(m, front, p, d, r);
    }
  }

  /** One probe of an unknown node that has failed n times, against a healthy one that has. */
  lemma {:induction false} UndecidedNext(m: Metrics, n: nat, f: Metrics, p: Probe, d: nat, r: nat)
    requires Undecided(m) && n < d && f.fails == n && f.oks == 0 && f.state == if n == 0 then Healthy else Suspect
    ensures p.Good? ==> Next(m.(fails := n), p, d, r) == Next(FRESH, p, d, r)
    ensures !p.Good? && n + 1 >= d ==> Next(m.(fails := n), p, d, r) == Next(f, p, d, r)
    ensures !p.Good? && n + 1 < d ==> Next(m.(fails := n), p, d, r) == m.(fails := n + 1)
  {
  }

  lemma {:induction false} NothingRun(m: Metrics, d: nat, r: nat)
    ensures Run(m, [], d, r) == m
  {
  }

  lemma {:induction false} RunFirst(m: Metrics, p: Probe, d: nat, r: nat)
    ensures Run(m, [p], d, r) == Next(m, p, d, r)
  {
    NothingRun(m, d, r);
    RunOne(m, [], p, d, r);
    assert [] + [p] == [p];
  }

  lemma {:induction false} UnknownStep(m: Metrics, front: seq<Probe>, p: Probe, d: nat, r: nat)
    requires Undecided(m) && d > 0 && r > 0
    requires Run(m, front, d, r) == match Decided(front, d) case None => m.(fails := |front|) case Some(e) => Run(FRESH, e, d, r)
    ensures Next(Run(m, front, d, r), p, d, r)
         == match Decided(front + [p], d) case None => m.(fails := |front| + 1) case Some(e) => Run(FRESH, e, d, r)
  {
    hide Run, Next, Decided, AllFail;
    DecidedSnoc(front, p, d);
    match Decided(front, d)
    case Some(e) =>
      RunOne(FRESH, e, p, d, r);
    case None =>
      RunFirst(FRESH, p, d, r);
      RunOne(FRESH, front, p, d, r);
      FailingFresh(front, d, r);
      UndecidedNext(m, |front|, Run(FRESH, front, d, r), p, d, r);
  }

  /** The state of a node that starts unknown, read off its history. */
  lemma {:induction false} UnknownClosedForm(m: Metrics, h: seq<Probe>, d: nat, r: nat)
    requires Undecided(m) && d > 0 && r > 0
    ensures Run(m, h, d, r).state
         == match Decided(h, d)
            case None => Unknown
            case Some(e) =>
              if AllGood(e) || TrailingOks(e, r) then Healthy
              else if !Flagged(e, d, r) then Suspect
              else if LastFail(e).NoSsh? then Unreachable
              else Down
  {
    UnknownRun(m, h, d, r);
    if Decided(h, d).Some? {
      ClosedForm(Decided(h, d).value, d, r);
    }
    hide Run, Decided, Flagged, AllGood, TrailingOks;
  }

  lemma {:induction false} TrailsOfSuffix(h: seq<Probe>, g: nat, n: nat)
    requires g <= |h|
    ensures TrailingFails(h[g..], n) <==> TrailingFails(h, n) && n <= |h| - g
    ensures TrailingOks(h[g..], n) <==> TrailingOks(h, n) && n <= |h| - g
  {
    if n <= |h| - g {
      assert h[g..][|h| - g - n..] == h[|h| - n..];
    }
  }

  /** The trailing probes by their place. */
  lemma {:induction false} TrailPlaces(h: seq<Probe>, n: nat)
    ensures TrailingFails(h, n) <==> n <= |h| && forall i :: |h| - n <= i < |h| ==> !h[i].Good?
    ensures TrailingOks(h, n) <==> n <= |h| && forall i :: |h| - n <= i < |h| ==> h[i].Good?
  {
    if n <= |h| {
      var t := h[|h| - n..];
      assert forall i :: 0 <= i < n ==> t[i] == h[|h| - n + i];
      assert forall i :: |h| - n <= i < |h| ==> h[i] == t[i - (|h| - n)];
    }
  }

  /** What counts keeps the last d failing and the last r good probes. */
  lemma {:induction false} DecidedTrails(h: seq<Probe>, d: nat, r: nat)
    requires d > 0 && r > 0 && Decided(h, d).Some?
    ensures TrailingFails(Decided(h, d).value, d) <==> TrailingFails(h, d)
    ensures TrailingOks(Decided(h, d).value, r) <==> TrailingOks(h, r)
  {
    var g := FirstGood(h);
    TrailPlaces(h, d);
    TrailPlaces(h, r);
    hide TrailingFails, TrailingOks;
    if g < |h| && g < d {
      TrailsOfSuffix(h, g, d);
      TrailsOfSuffix(h, g, r);
      assert TrailingFails(h, d) ==> g < |h| - d;
      assert 0 < g ==> !h[g - 1].Good?;
      assert TrailingOks(h, r) && 0 < g ==> g - 1 < |h| - r;
    }
  }

  lemma {:induction false} TrailsMeanDecided(h: seq<Probe>, d: nat, r: nat)
    requires d > 0 && r > 0 && (TrailingFails(h, d) || TrailingOks(h, r))
    ensures Decided(h, d).Some?
  {
    TrailPlaces(h, d);
    TrailPlaces(h, r);
    hide TrailingFails, TrailingOks;
    assert TrailingOks(h, r) ==> h[|h| - 1].Good?;
  }

  /** From unknown as well, d failures in a row flag the node and r good probes clear it. */
  lemma {:induction false} UnknownTrailsDecide(m: Metrics, h: seq<Probe>, d: nat, r: nat)
    requires Undecided(m) && d > 0 && r > 0
    ensures TrailingFails(h, d) ==> Run(m, h, d, r).state == if h[|h| - 1].NoSsh? then Unreachable else Down
    ensures TrailingOks(h, r) ==> Run(m, h, d, r).state == Healthy
  {
    UnknownRun(m, h, d, r);
    if TrailingFails(h, d) || TrailingOks(h, r) {
      TrailsMeanDecided(h, d, r);
      DecidedTrails(h, d, r);
      var e := Decided(h, d).value;
      TrailsDecide(e, d, r);
      assert e != [] ==> e[|e| - 1] == h[|h| - 1];
    }
    hide Run;
  }

  /** From unknown as well, down and unreachable are entered only by the d-th failure in a row and
      left only by the r-th good probe in a row. */
  lemma {:induction false} UnknownFlagMoves(m: Metrics, h: seq<Probe>, p: Probe, d: nat, r: nat)
    requires Undecided(m) && d > 0 && r > 0
    ensures var s, t := Run(m, h, d, r).state, Run(m, h + [p], d, r).state;
            && (!Flags(s) && Flags(t) ==> TrailingFails(h + [p], d))
            && (Flags(s) && !Flags(t) ==> TrailingOks(h + [p], r) && t == Healthy)
  {
    hide Run, TrailingFails, TrailingOks, Decided, AllFail, Next;
    UnknownRun(m, h, d, r);
    UnknownRun(m, h + [p], d, r);
    DecidedSnoc(h, p, d);
    match Decided(h, d)
    case Some(e) =>
      FlagMoves(e, p, d, r);
      DecidedTrails(h + [p], d, r);
    case None =>
      UnknownFirstMove(h, p, d, r);
  }

  lemma {:induction false} UnknownFirstMove(h: seq<Probe>, p: Probe, d: nat, r: nat)
    requires d > 0 && r > 0 && Decided(h, d) == None
    ensures p.Good? ==> !Flags(Run(FRESH, [p], d, r).state)
    ensures !p.Good? && |h| + 1 >= d ==> TrailingFails(h + [p], d)
  {
    DecidedSnoc(h, p, d);
    RunFirst(FRESH, p, d, r);
    if !p.Good? && |h| + 1 >= d {
      TrailPlaces(h + [p], d);
    }
  }

  function EntriesFrom(m: Metrics, h: seq<Probe>, d: nat, r: nat): nat {
    if h == [] then 0
    else
      var front := h[..|h| - 1];
      EntriesFrom(m, front, d, r) + if !Flags(Run(m, front, d, r).state) && Flags(Run(m, h, d, r).state) then 1 else 0
  }

  lemma {:induction false} EntriesFromSnoc(m: Metrics, h: seq<Probe>, p: Probe, d: nat, r: nat)
    ensures EntriesFrom(m, h + [p], d, r)
         == EntriesFrom(m, h, d, r) + if !Flags(Run(m, h, d, r).state) && Flags(Run(m, h + [p], d, r).state) then 1 else 0
  {
    assert (h + [p])[..|h|] == h;
  }

  /** Short failing histories flag nobody. */
  lemma {:induction false} FreshUnflagged(h: seq<Probe>, d: nat, r: nat)
    requires AllFail(h) && |h| < d
    ensures Entries(h, d, r) == 0 && !Flags(Run(FRESH, h, d, r).state)
  {
    FailingFresh(h, d, r);
    if h != [] {
      var front := h[..|h| - 1];
      assert forall i :: 0 <= i < |front| ==> front[i] == h[i];
      FreshUnflagged(front, d, r);
    }
  }

  lemma {:induction false} UnknownEntries(m: Metrics, h: seq<Probe>, d: nat, r: nat)
    requires Undecided(m) && d > 0 && r > 0
    ensures EntriesFrom(m, h, d, r) == match Decided(h, d) case None => 0 case Some(e) => Entries(e, d, r)
  {
    if h != [] {
      var front, p := h[..|h| - 1], h[|h| - 1];
      assert h == front + [p];
      UnknownEntries(m, front, d, r);
      UnknownEntriesStep(m, front, p, d, r);
    }
  }

  lemma {:induction false} FirstEntry(p: Probe, d: nat, r: nat)
    ensures p.Good? ==> Entries([p], d, r) == 0 && !Flags(Run(FRESH, [p], d, r).state)
  {
    RunFirst(FRESH, p, d, r);
    assert [p][..0] == [] && Entries([], d, r) == 0;
  }

  lemma {:induction false} UnknownEntriesStep(m: Metrics, front: seq<Probe>, p: Probe, d: nat, r: nat)
    requires Undecided(m) && d > 0 && r > 0
    requires EntriesFrom(m, front, d, r) == match Decided(front, d) case None => 0 case Some(e) => Entries(e, d, r)
    ensures EntriesFrom(m, front + [p], d, r) == match Decided(front + [p], d) case None => 0 case Some(e) => Entries(e, d, r)
  {
    hide Run, Entries, EntriesFrom, Decided, AllFail, Next;
    UnknownRun(m, front, d, r);
    UnknownRun(m, front + [p], d, r);
    DecidedSnoc(front, p, d);
    EntriesFromSnoc(m, front, p, d, r);
    match Decided(front, d)
    case Some(e) =>
      RunSnoc(e, p, d, r);
    case None =>
      FirstEntry(p, d, r);
      RunSnoc(front, p, d, r);
      FreshUnflagged(front, d, r);
  }

  /** So n probes of a node that starts unknown cause no more entries than of a healthy one. */
  lemma {:induction false} UnknownEntriesBounded(m: Metrics, h: seq<Probe>, d: nat, r: nat)
    requires Undecided(m) && d > 0 && r > 0
    ensures EntriesFrom(m, h, d, r) * (d + r) <= |h| + r
  {
    UnknownEntries(m, h, d, r);
    if Decided(h, d).Some? {
      EntriesBounded(Decided(h, d).value, d, r);
    }
    hide EntriesFrom, Entries;
  }

  // ---- The counter cap ----

  /** The early returns skip the cap: exactly when a step pushes a counter past it. */
  lemma {:induction false} CapSkippedIff(m: Metrics, p: Probe, d: nat, r: nat)
    requires m.fails <= COUNTER_CAP && m.oks <= COUNTER_CAP
    ensures Next(m, p, d, r).fails > COUNTER_CAP || Next(m, p, d, r).oks > COUNTER_CAP <==>
            m.state != Blocked &&
            if p.Good? then m.oks == COUNTER_CAP && (m.state == Suspect || Flags(m.state)) && COUNTER_CAP + 1 < r
            else m.fails == COUNTER_CAP && (Flags(m.state) || COUNTER_CAP + 1 < d)
  {
  }
}

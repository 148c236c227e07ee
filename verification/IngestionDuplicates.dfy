/** How many duplicates crashes can cause: one per restart. */
module IngestionDuplicates {
  import opened Events
  import opened Ingestion
  import opened IngestionOrder

  /** The raw messages that have reached the clean topic or the dead-letter topic. */
  ghost function Seen(s: State): set<Pos> {
    (set i | 0 <= i < |s.clean| :: s.clean[i].from)
    + (set i | 0 <= i < |s.dlq| :: Pos(s.dlq[i].partition, s.dlq[i].offset))
  }

  /** This process has yet to publish the message at `x`. */
  ghost predicate Ahead(s: State, x: Pos) {
    || (x.p < |s.pos| ==> x.o >= s.pos[x.p])
    || (s.pc.InFlight? && s.pc.at == x && (s.pc.stage.Fetched? || s.pc.stage.Inserted?))
  }

  /** Already published, and about to be published again by this process. */
  ghost function Exposed(s: State): set<Pos> {
    set x | x in Seen(s) && Ahead(s, x)
  }

  /** Fetched by this process and not committed. */
  ghost function Window(s: State): set<Pos>
    requires |s.pos| == |s.committed|
  {
    set p: nat, o: nat | p < |s.pos| && s.committed[p] <= o < s.pos[p] :: Pos(p, o)
  }

  ghost function Duplicates(s: State): int {
    |s.clean| + |s.dlq| - |Seen(s)|
  }

  ghost predicate Budgeted(s: State)
    requires Shaped(s)
  {
    && Duplicates(s) + |Exposed(s)| + s.lap <= s.restarts + s.overruns
    && Windowed(s)
  }

  ghost predicate Windowed(s: State)
    requires Shaped(s)
  {
    && |Window(s)| <= 1 + s.lap
    && (!s.cancelled ==> s.lap == 0)
    && (s.pc.Idle? && !s.cancelled ==> Window(s) == {})
  }

  lemma SubsetSize<T>(a: set<T>, b: set<T>)
    requires a <= b
    ensures |a| <= |b|
  {
    assert b == a + (b - a);
  }

  /** Publishing the message in hand uses up its exposure or makes it newly seen. */
  lemma PublishBudget(s: State, t: State, x: Pos)
    requires Ahead(s, x) && !Ahead(t, x) && Seen(t) == Seen(s) + {x}
    requires forall y :: y != x && Ahead(t, y) ==> Ahead(s, y)
    ensures |Exposed(t)| + 1 <= |Exposed(s)| + |Seen(t)| - |Seen(s)|
  {
    if x in Seen(s) {
      assert Seen(t) == Seen(s);
      assert x in Exposed(s);
      SubsetSize(Exposed(t), Exposed(s) - {x});
    } else {
      SubsetSize(Exposed(t), Exposed(s));
    }
  }

  lemma SeenAfterClean(s: State, t: State, c: CleanRecord)
    requires t.clean == s.clean + [c] && t.dlq == s.dlq
    ensures Seen(t) == Seen(s) + {c.from}
  {
    var a, b := set i | 0 <= i < |s.clean| :: s.clean[i].from, set i | 0 <= i < |t.clean| :: t.clean[i].from;
    assert b == a + {c.from} by {
      assert t.clean[|s.clean|] == c;
      forall x | x in a ensures x in b {
        var i :| 0 <= i < |s.clean| && s.clean[i].from == x;
        assert t.clean[i] == s.clean[i];
      }
    }
  }

  lemma SeenAfterDlq(s: State, t: State, d: DeadLetter)
    requires t.dlq == s.dlq + [d] && t.clean == s.clean
    ensures Seen(t) == Seen(s) + {Pos(d.partition, d.offset)}
  {
    var a := set i | 0 <= i < |s.dlq| :: Pos(s.dlq[i].partition, s.dlq[i].offset);
    var b := set i | 0 <= i < |t.dlq| :: Pos(t.dlq[i].partition, t.dlq[i].offset);
    assert b == a + {Pos(d.partition, d.offset)} by {
      assert t.dlq[|s.dlq|] == d;
      forall x | x in a ensures x in b {
        var i :| 0 <= i < |s.dlq| && Pos(s.dlq[i].partition, s.dlq[i].offset) == x;
        assert t.dlq[i] == s.dlq[i];
      }
    }
  }

  lemma FetchWindow(s: State, p: nat)
    requires Shaped(s) && Windowed(s) && s.pc.Idle? && p < |s.raw| && s.pos[p] < |s.raw[p]|
    ensures Windowed(StepFetch(s, p))
  {
    var t := StepFetch(s, p);
    assert Window(t) <= Window(s) + {t.pc.at};
    SubsetSize(Window(t), Window(s) + {t.pc.at});
  }

  /** With no overrun in this process the window holds at most the message in hand. */
  lemma LastOne(s: State)
    requires Shaped(s) && Windowed(s) && s.pc.InFlight? && s.lap == 0
    ensures Window(s) == {s.pc.at}
  {
    assert s.pc.at in Window(s);
    if exists y :: y in Window(s) && y != s.pc.at {
      var y :| y in Window(s) && y != s.pc.at;
      SubsetSize({s.pc.at, y}, Window(s));
    }
  }

  lemma CommitWindow(s: State, fate: Fate, canceled: bool)
    requires Shaped(s) && Windowed(s) && s.pc.InFlight?
    ensures Windowed(StepCommit(s, fate, canceled))
  {
    var t := StepCommit(s, fate, canceled);
    assert Window(t) <= Window(s);
    SubsetSize(Window(t), Window(s));
    if t.pc.Idle? && !t.cancelled {
      LastOne(s);
    }
  }

  /** Other steps move neither positions nor commits, and make nobody idle. */
  lemma WindowFrame(cfg: Config, s: State, l: Label)
    requires Shaped(s) && !l.Fetch? && !l.Commit? && !l.Restart?
    ensures var t := Step(cfg, s, l);
            (t.pos, t.committed, t.lap) == (s.pos, s.committed, s.lap)
            && (s.cancelled ==> t.cancelled) && (t.pc.Idle? ==> s.pc.Idle?)
  {
  }

  lemma WindowStep(cfg: Config, s: State, l: Label)
    requires Shaped(s) && Windowed(s)
    ensures Windowed(Step(cfg, s, l))
  {
    var t := Step(cfg, s, l);
    match l
    case Fetch(p) =>
      if t != s { FetchWindow(s, p); }
      hide Windowed;
    case Commit(fate, canceled) =>
      if t != s { CommitWindow(s, fate, canceled); }
      hide Windowed;
    case Restart =>
      if t != s { assert Window(t) == {}; }
    case _ =>
      WindowFrame(cfg, s, l);
      hide Step;
      assert Window(t) == Window(s);
  }

  lemma RestartBudget(s: State, t: State)
    requires Shaped(s) && Shaped(t) && s.clean == t.clean && s.dlq == t.dlq
    requires s.committed == t.committed == t.pos && t.pc.Idle?
    ensures |Exposed(t)| <= |Exposed(s)| + |Window(s)|
  {
    assert Seen(t) == Seen(s);
    assert Exposed(t) <= Exposed(s) + Window(s);
    SubsetSize(Exposed(t), Exposed(s) + Window(s));
  }

  /** Anything but a publication or a restart leaves the budget alone. */
  lemma QuietBudget(cfg: Config, s: State, l: Label)
    requires Shaped(s) && Step(cfg, s, l).clean == s.clean && Step(cfg, s, l).dlq == s.dlq && !l.Restart?
    ensures Duplicates(Step(cfg, s, l)) == Duplicates(s) && |Exposed(Step(cfg, s, l))| <= |Exposed(s)|
  {
    var t := Step(cfg, s, l);
    assert Seen(t) == Seen(s);
    forall x | Ahead(t, x) ensures Ahead(s, x) {
      AheadShrinks(cfg, s, l, x);
    }
    SubsetSize(Exposed(t), Exposed(s));
  }

  lemma AheadShrinks(cfg: Config, s: State, l: Label, x: Pos)
    requires Shaped(s) && !l.Restart? && Ahead(Step(cfg, s, l), x)
    ensures Ahead(s, x)
  {
  }

  lemma PublishedIsBehind(cfg: Config, s: State, l: Label)
    requires Shaped(s) && (Step(cfg, s, l).clean != s.clean || Step(cfg, s, l).dlq != s.dlq)
    ensures var t := Step(cfg, s, l);
            && s.pc.InFlight? && Ahead(s, s.pc.at) && !Ahead(t, s.pc.at)
            && (t.restarts, t.overruns, t.lap) == (s.restarts, s.overruns, s.lap)
            && !l.Restart?
            && ((t.dlq == s.dlq && exists c :: t.clean == s.clean + [c] && c.from == s.pc.at)
                || (t.clean == s.clean && exists d :: t.dlq == s.dlq + [d] && Pos(d.partition, d.offset) == s.pc.at))
  {
    var t := Step(cfg, s, l);
    if l.PublishClean? {
      assert t.clean == s.clean + [t.clean[|s.clean|]];
    } else {
      assert t.dlq == s.dlq + [t.dlq[|s.dlq|]];
    }
  }

  lemma PublishBudgetStep(cfg: Config, s: State, l: Label)
    requires Shaped(s) && Budgeted(s) && (Step(cfg, s, l).clean != s.clean || Step(cfg, s, l).dlq != s.dlq)
    ensures var t := Step(cfg, s, l); Duplicates(t) + |Exposed(t)| + t.lap <= t.restarts + t.overruns
  {
    PublishedIsBehind(cfg, s, l);
    hide Step, Ahead, Seen, Exposed, Windowed;
    var t := Step(cfg, s, l);
    if t.dlq == s.dlq {
      var c :| t.clean == s.clean + [c] && c.from == s.pc.at;
      SeenAfterClean(s, t, c);
    } else {
      var d :| t.dlq == s.dlq + [d] && Pos(d.partition, d.offset) == s.pc.at;
      SeenAfterDlq(s, t, d);
    }
    forall y | Ahead(t, y) ensures Ahead(s, y) { AheadShrinks(cfg, s, l, y); }
    PublishBudget(s, t, s.pc.at);
  }

  lemma RestartBudgetStep(cfg: Config, s: State)
    requires Shaped(s) && Budgeted(s)
    ensures var t := Step(cfg, s, Restart); Duplicates(t) + |Exposed(t)| + t.lap <= t.restarts + t.overruns
  {
    if s.pc.Down? {
      hide Seen, Exposed, Window;
      var t := Step(cfg, s, Restart);
      RestartBudget(s, t);
      SeenSame(s, t);
    }
  }

  lemma SeenSame(s: State, t: State)
    requires s.clean == t.clean && s.dlq == t.dlq
    ensures Seen(s) == Seen(t)
  {
  }

  lemma BudgetStep(cfg: Config, s: State, l: Label)
    requires Shaped(s) && Budgeted(s)
    ensures Budgeted(Step(cfg, s, l))
  {
    var t := Step(cfg, s, l);
    WindowStep(cfg, s, l);
    if !l.Restart? { CountersStep(cfg, s, l); }
    hide Step, Windowed, Exposed, Seen, Duplicates;
    if t.clean != s.clean || t.dlq != s.dlq {
      PublishBudgetStep(cfg, s, l);
    } else if l.Restart? {
      RestartBudgetStep(cfg, s);
    } else {
      QuietBudget(cfg, s, l);
    }
  }

  /** Without a restart an overrun of the process is an overrun. */
  lemma CountersStep(cfg: Config, s: State, l: Label)
    requires Shaped(s) && !l.Restart?
    ensures var t := Step(cfg, s, l); t.restarts == s.restarts && t.lap - s.lap == t.overruns - s.overruns
  {
  }

  lemma {:induction false} BudgetAlways(cfg: Config, raw: seq<seq<Bytes>>, ls: seq<Label>)
    ensures Budgeted(Run(cfg, Init(raw), ls))
  {
    if ls == [] {
      assert Seen(Init(raw)) == {} && Exposed(Init(raw)) == {} && Window(Init(raw)) == {};
    } else {
      BudgetAlways(cfg, raw, ls[..|ls| - 1]);
      BudgetStep(cfg, Run(cfg, Init(raw), ls[..|ls| - 1]), ls[|ls| - 1]);
    }
  }

  /** THE DUPLICATE BOUND. Clean records and dead letters together outnumber the distinct raw
      messages behind them by at most one per restart, plus one per fetch that outran a
      cancellation in an earlier process. */
  lemma {:induction false} DuplicatesAreBounded(cfg: Config, raw: seq<seq<Bytes>>, ls: seq<Label>)
    ensures var s := Run(cfg, Init(raw), ls);
            |s.clean| + |s.dlq| + s.lap <= |Seen(s)| + s.restarts + s.overruns
  {
    BudgetAlways(cfg, raw, ls);
  }

  // ----- The bound is attained -----

  /** The first message has been published `n` times, each time followed by a crash. */
  ghost predicate Rounds(s: State, raw: seq<seq<Bytes>>, n: nat) {
    && Shaped(s) && s.pc.Idle? && !s.cancelled && s.raw == raw && s.pos == s.committed == [0]
    && s.restarts == n == |s.clean| && s.overruns == 0 && s.dlq == []
    && (forall i :: 0 <= i < n ==> s.clean[i].from == Pos(0, 0))
  }

  lemma {:induction false} CrashingRounds(raw: seq<seq<Bytes>>, n: nat) returns (ls: seq<Label>)
    requires |raw| == 1 && raw[0] != []
    ensures Rounds(Run(OneReadingConfig(), Init(raw), ls), raw, n)
  {
    var cfg := OneReadingConfig();
    ls := [];
    if n > 0 {
      ls := CrashingRounds(raw, n - 1);
      var s := Run(cfg, Init(raw), ls);
      Delivers(cfg, Init(raw), s, ls);
      ls := ls + [Fetch(0), Insert(Done), PublishClean(Done)];
      ComesBack(cfg, Init(raw), Delivered(s), ls);
      ls := ls + [Crash, Restart];
    }
  }

  /** THE BOUND IS ATTAINED, for every number of restarts. */
  lemma {:induction false} DuplicateBoundIsAttained(raw: seq<seq<Bytes>>, n: nat) returns (ls: seq<Label>)
    requires |raw| == 1 && raw[0] != []
    ensures var s := Run(OneReadingConfig(), Init(raw), ls);
            s.restarts == n && s.overruns == 0 && |s.clean| + |s.dlq| == |Seen(s)| + n
  {
    var cfg := OneReadingConfig();
    ls := CrashingRounds(raw, n);
    var s := Run(cfg, Init(raw), ls);
    Delivers(cfg, Init(raw), s, ls);
    ls := ls + [Fetch(0), Insert(Done), PublishClean(Done)];
    OneSeen(Delivered(s));
  }

  lemma OneSeen(s: State)
    requires s.clean != [] && s.dlq == [] && forall i :: 0 <= i < |s.clean| ==> s.clean[i].from == Pos(0, 0)
    ensures |Seen(s)| == 1
  {
    assert s.clean[0].from in Seen(s);
    assert Seen(s) == {Pos(0, 0)};
  }
}

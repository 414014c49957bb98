/**
 * The slot machine (src/entities/SlotMachine.ts): five reels, a game state and
 * the spin sequence.
 *
 * `startSpin` is asynchronous: it runs until its first `await`, and each timer
 * that fires later resumes it. The model keeps the point where it will resume
 * as `phase`. `StartSpin` runs the part before the first timer, and `Step` runs
 * the part between one timer and the next. The durations of the timers
 * (100 ms, the spin duration, the delay between stops) are not modelled, only
 * their order. Frames (`Update`) and `Destroy` may come between any two steps.
 */
module Machine {
  import opened Wrappers
  import opened Constants
  import opened Assets
  import opened ReelBuffer
  import opened Reel
  import opened WinCheck

  /** Where a pending `startSpin` resumes: nowhere; after the 100 ms settle delay;
      after the spin duration; or after the delay that follows stopping reel `last`. */
  datatype Phase = NoSpin | Settling | Holding | Cascading(last: nat)

  /** The game state each phase shows. */
  function PhaseState(p: Phase): GameState {
    match p
    case NoSpin => Idle
    case Settling => Spinning
    case Holding => Spinning
    case Cascading(_) => Stopping
  }

  /** Whether reel j is spinning in phase p. */
  predicate ReelSpins(p: Phase, j: nat) {
    p == Holding || (p.Cascading? && j > p.last)
  }

  /** 0, 1, ..., n - 1. */
  function Upto(n: nat): seq<nat> {
    seq(n, i requires 0 <= i < n => i)
  }

  /** The game states assigned so far in the current spin, and the reels stopped so
      far, in order, fit the phase. */
  predicate HistoryFits(p: Phase, trace: seq<GameState>, stopLog: seq<nat>) {
    match p
    case NoSpin =>
      (trace == [] && stopLog == []) || (trace == [Spinning, Stopping, Idle] && stopLog == Upto(|stopLog|))
    case Settling => trace == [Spinning] && stopLog == []
    case Holding => trace == [Spinning] && stopLog == []
    case Cascading(i) => trace == [Spinning, Stopping] && stopLog == Upto(i + 1)
  }

  /** The phase after the next timer of a machine with n reels. The game state only
      moves forward (SPINNING, then STOPPING, then IDLE), and the stops go up one
      reel at a time. */
  function NextPhase(p: Phase, n: nat): (q: Phase)
    ensures PhaseState(q) != PhaseState(p) ==>
              (PhaseState(p) == Spinning && PhaseState(q) != Spinning)
              || (PhaseState(p) == Stopping && PhaseState(q) == Idle)
    ensures p.Cascading? && q.Cascading? ==> q.last == p.last + 1
    ensures p == NoSpin ==> q == NoSpin
  {
    match p
    case NoSpin => NoSpin
    case Settling => Holding
    case Holding => if 1 < n then Cascading(0) else NoSpin
    case Cascading(i) => if i + 2 < n then Cascading(i + 1) else NoSpin
  }

  /** The reel the next timer stops, if any. */
  function NextStop(p: Phase): int {
    match p
    case NoSpin => -1
    case Settling => -1
    case Holding => 0
    case Cascading(i) => i + 1
  }

  /** The number of timers still to fire. */
  function Pending(p: Phase, n: nat): nat {
    match p
    case NoSpin => 0
    case Settling => n + 3
    case Holding => n + 2
    case Cascading(i) => (if i + 1 < n then n - i - 1 else 0) + 1
  }

  /** Each timer brings the spin one step nearer its end. */
  lemma NextPhaseProgresses(p: Phase, n: nat)
    requires p.Cascading? ==> n == 0 || p.last + 1 < n
    ensures p != NoSpin ==> Pending(NextPhase(p, n), n) < Pending(p, n)
    ensures NextPhase(p, n).Cascading? ==> NextPhase(p, n).last + 1 < n
    ensures p == NoSpin <==> NextPhase(p, n) == NoSpin && Pending(p, n) == 0
  {
  }

  /** The state of reel j in phase p of a spin that began from the refreshed state s
      with no frame in between. */
  function Stage(p: Phase, j: nat, s: ReelState): ReelState {
    match p
    case Settling => s
    case Holding => Started(s)
    case Cascading(i) => if j <= i then Stopped(Started(s)) else Started(s)
    case NoSpin => Stopped(Started(s))
  }

  /** One timer moves each reel on by one stage: all of them start after the settle
      delay, and the reel the timer stops comes to rest. */
  lemma StageAdvances(p: Phase, n: nat, j: nat, s: ReelState)
    requires j < n && p != NoSpin && (p.Cascading? ==> p.last + 1 < n)
    ensures Stage(NextPhase(p, n), j, s)
         == if p == Settling then Started(Stage(p, j, s))
            else if j == NextStop(p) then Stopped(Stage(p, j, s))
            else Stage(p, j, s)
  {
  }

  /** What a timer step reports. */
  datatype StepResult =
    | NoPending                   // no spin was pending
    | InProgress                  // the spin goes on
    | Evaluated(totalWins: nat)   // the spin ended and `checkForWins` counted the wins
    | EvaluationThrew             // the spin ended and `checkForWins` threw

  /** The step result of a finished spin. */
  function Outcome(e: Option<nat>): StepResult {
    match e
    case None => EvaluationThrew
    case Some(n) => Evaluated(n)
  }

  /** The columns `checkForWins` reads: each reel's visible symbol types. */
  function ColumnsOf(rs: seq<SlotReel>): (cols: seq<seq<SymbolType>>)
    reads rs
    ensures |cols| == |rs|
  {
    if |rs| == 0 then []
    else ColumnsOf(rs[..|rs| - 1]) + [Types(Visible(rs[|rs| - 1].symbols))]
  }

  /** Column j is what reel j shows. */
  lemma {:induction false} ColumnsOfAt(rs: seq<SlotReel>, j: nat)
    requires j < |rs|
    ensures ColumnsOf(rs)[j] == Types(Visible(rs[j].symbols))
    decreases |rs|
  {
    if j < |rs| - 1 {
      assert rs[..|rs| - 1][j] == rs[j];
      ColumnsOfAt(rs[..|rs| - 1], j);
    }
  }

  class SlotMachine {
    var reels: seq<SlotReel>
    var gameState: GameState
    var phase: Phase
    /** The game states assigned during the current spin. */
    ghost var trace: seq<GameState>
    /** The reels stopped during the current spin, in order. */
    ghost var stopLog: seq<nat>

    ghost predicate Distinct()
      reads this`reels
    {
      forall i, j :: 0 <= i < j < |reels| ==> reels[i] != reels[j]
    }

    /** Reel j is valid and knows its index. */
    ghost predicate ReelOk(j: nat)
      requires j < |reels|
      reads this`reels, reels
    {
      reels[j].Valid() && reels[j].reelIndex == j
    }

    ghost predicate Valid()
      reads this, reels
    {
      && (|reels| == ReelCount || |reels| == 0)
      && Distinct()
      && (forall j :: 0 <= j < |reels| ==> ReelOk(j))
      && (forall j :: 0 <= j < |reels| ==> (reels[j].isSpinning <==> ReelSpins(phase, j)))
      && gameState == PhaseState(phase)
      && (phase.Cascading? ==> |reels| == 0 || phase.last + 1 < |reels|)
      && HistoryFits(phase, trace, stopLog)
    }

    function Columns(): seq<seq<SymbolType>>
      reads this`reels, reels
    {
      ColumnsOf(reels)
    }

    /** `constructor` with `createReels`: five fresh reels, numbered 0 to 4, idle. */
    constructor ()
      ensures Valid() && |reels| == ReelCount && phase == NoSpin && trace == []
      ensures forall j :: 0 <= j < |reels| ==>
                fresh(reels[j]) && reels[j].State() == ReelState([], [], 0, 0, false, false)
    {
      var rs: seq<SlotReel> := [];
      var i := 0;
      while i < ReelCount
        invariant 0 <= i <= ReelCount && |rs| == i
        invariant forall j :: 0 <= j < i ==>
                    fresh(rs[j]) && rs[j].Valid() && rs[j].reelIndex == j
                    && rs[j].State() == ReelState([], [], 0, 0, false, false)
        invariant forall j, k :: 0 <= j < k < i ==> rs[j] != rs[k]
      {
        var reel := new SlotReel(i);
        rs := rs + [reel];
        i := i + 1;
      }
      reels := rs;
      gameState, phase := Idle, NoSpin;
      trace, stopLog := [], [];
    }

    /** `startSpin` up to its first `await`: ignored unless idle; otherwise the game
        state becomes SPINNING and every reel prepares its next buffer from its own
        draws. */
    method StartSpin(res: Resources, draws: seq<seq<SymbolType>>)
      requires Valid()
      requires |draws| == |reels| && forall j :: 0 <= j < |draws| ==> |draws[j]| == SymbolsNeeded
      modifies this, reels
      ensures Valid() && reels == old(reels)
      ensures old(phase) != NoSpin ==>
                phase == old(phase) && trace == old(trace) && stopLog == old(stopLog)
                && forall j :: 0 <= j < |reels| ==> reels[j].State() == old(reels[j].State())
      ensures old(phase) == NoSpin ==>
                phase == Settling && gameState == Spinning && trace == [Spinning] && stopLog == []
                && forall j :: 0 <= j < |reels| ==>
                     reels[j].State() == Refreshed(old(reels[j].State()), res, draws[j])
    {
      if gameState != Idle {
        return;
      }
      gameState, phase := Spinning, Settling;
      trace, stopLog := [Spinning], [];
      RefreshReels(res, draws);
    }

    /** The `forEach` of `startSpin`: every reel prepares its next buffer. */
    method RefreshReels(res: Resources, draws: seq<seq<SymbolType>>)
      requires Distinct() && forall j :: 0 <= j < |reels| ==> ReelOk(j) && !reels[j].isSpinning
      requires |draws| == |reels| && forall j :: 0 <= j < |draws| ==> |draws[j]| == SymbolsNeeded
      modifies reels
      ensures forall j :: 0 <= j < |reels| ==>
                ReelOk(j) && !reels[j].isSpinning
                && reels[j].State() == Refreshed(old(reels[j].State()), res, draws[j])
    {
      var i := 0;
      while i < |reels|
        invariant 0 <= i <= |reels|
        invariant forall j :: 0 <= j < |reels| ==>
                    ReelOk(j) && !reels[j].isSpinning
                    && reels[j].State()
                       == (if j < i then Refreshed(old(reels[j].State()), res, draws[j]) else old(reels[j].State()))
      {
        reels[i].RefreshSymbols(res, draws[i]);
        i := i + 1;
      }
    }

    /** The timer that resumes a pending `startSpin`:
        after the settle delay every reel starts spinning;
        after the spin duration the game state becomes STOPPING and reel 0 stops;
        after each stop delay the next reel stops;
        once the last reel has stopped the game state becomes IDLE and the wins are
        evaluated. */
    method Step() returns (result: StepResult)
      requires Valid()
      modifies this, reels
      ensures Valid() && reels == old(reels)
      ensures phase == NextPhase(old(phase), |reels|)
      ensures old(phase) == Settling ==>
                forall j :: 0 <= j < |reels| ==> reels[j].State() == Started(old(reels[j].State()))
      ensures old(phase) != Settling ==>
                forall j :: 0 <= j < |reels| ==>
                  reels[j].State()
                  == if j == NextStop(old(phase)) then Stopped(old(reels[j].State())) else old(reels[j].State())
      ensures old(phase) != NoSpin ==>
                stopLog == old(stopLog) + (if 0 <= NextStop(old(phase)) < |reels| then [NextStop(old(phase))] else [])
      ensures old(phase) != NoSpin && phase == NoSpin ==>
                trace == [Spinning, Stopping, Idle]
                && (NextStop(old(phase)) <= |reels| ==> stopLog == Upto(|reels|))
      ensures result == if old(phase) == NoSpin then NoPending
                        else if phase == NoSpin then Outcome(Evaluation(Columns()))
                        else InProgress
    {
      match phase
      case NoSpin =>
        result := NoPending;
      case Settling =>
        StartReels();
        phase := Holding;
        result := InProgress;
      case Holding =>
        result := BeginStopping();
      case Cascading(i) =>
        result := StopNext(i);
    }

    /** The `forEach` after the settle delay: every reel starts spinning, all at once. */
    method StartReels()
      requires Distinct() && forall j :: 0 <= j < |reels| ==> ReelOk(j)
      modifies reels
      ensures forall j :: 0 <= j < |reels| ==>
                ReelOk(j) && reels[j].isSpinning && reels[j].State() == Started(old(reels[j].State()))
    {
      var i := 0;
      while i < |reels|
        invariant 0 <= i <= |reels|
        invariant forall j :: 0 <= j < |reels| ==>
                    ReelOk(j)
                    && reels[j].State() == (if j < i then Started(old(reels[j].State())) else old(reels[j].State()))
      {
        reels[i].StartSpin();
        i := i + 1;
      }
    }

    /** After the spin duration: the game state becomes STOPPING and the stop loop
        stops reel 0. */
    method BeginStopping() returns (result: StepResult)
      requires Valid() && phase == Holding
      modifies this, reels
      ensures Valid() && reels == old(reels)
      ensures phase == (if 1 < |reels| then Cascading(0) else NoSpin)
      ensures forall j :: 0 <= j < |reels| ==>
                reels[j].State() == if j == 0 then Stopped(old(reels[j].State())) else old(reels[j].State())
      ensures stopLog == old(stopLog) + (if 0 < |reels| then [0] else [])
      ensures phase == NoSpin ==> trace == [Spinning, Stopping, Idle] && stopLog == Upto(|reels|)
      ensures result == if phase == NoSpin then Outcome(Evaluation(Columns())) else InProgress
    {
      assert forall j :: 0 <= j < |reels| ==> ReelOk(j) && reels[j].isSpinning;
      gameState := Stopping;
      trace := trace + [Stopping];
      result := StopReel(0);
    }

    /** After the delay that follows stopping reel i: the stop loop stops reel i + 1. */
    method StopNext(i: nat) returns (result: StepResult)
      requires Valid() && phase == Cascading(i)
      modifies this, reels
      ensures Valid() && reels == old(reels)
      ensures phase == (if i + 2 < |reels| then Cascading(i + 1) else NoSpin)
      ensures forall j :: 0 <= j < |reels| ==>
                reels[j].State() == if j == i + 1 then Stopped(old(reels[j].State())) else old(reels[j].State())
      ensures stopLog == old(stopLog) + (if i + 1 < |reels| then [i + 1] else [])
      ensures phase == NoSpin ==> trace == [Spinning, Stopping, Idle] && (i + 1 <= |reels| ==> stopLog == Upto(|reels|))
      ensures result == if phase == NoSpin then Outcome(Evaluation(Columns())) else InProgress
    {
      assert forall j :: 0 <= j < |reels| ==> ReelOk(j) && (reels[j].isSpinning <==> j >= i + 1);
      result := StopReel(i + 1);
    }

    /** What holds when the stop loop is about to stop reel k: reels 0 to k - 1 have
        stopped, in order, and the others still spin. */
    ghost predicate StoppingFrom(k: nat)
      reads this, reels
    {
      && (|reels| == ReelCount || |reels| == 0)
      && Distinct()
      && gameState == Stopping && trace == [Spinning, Stopping] && stopLog == Upto(k)
      && (k <= |reels| || |reels| == 0)
      && forall j :: 0 <= j < |reels| ==>
           ReelOk(j) && (reels[j].isSpinning <==> j >= k)
    }

    /** One turn of the stop loop: stop reel k if it exists, then wait for the next
        stop delay, or finish when k was the last reel. */
    method StopReel(k: nat) returns (result: StepResult)
      requires StoppingFrom(k)
      modifies this, reels
      ensures Valid() && reels == old(reels)
      ensures phase == (if k + 1 < |reels| then Cascading(k) else NoSpin)
      ensures forall j :: 0 <= j < |reels| ==>
                reels[j].State() == if j == k then Stopped(old(reels[j].State())) else old(reels[j].State())
      ensures stopLog == old(stopLog) + (if k < |reels| then [k] else [])
      ensures phase == NoSpin ==> trace == [Spinning, Stopping, Idle] && (k <= |reels| ==> stopLog == Upto(|reels|))
      ensures result == if phase == NoSpin then Outcome(Evaluation(Columns())) else InProgress
    {
      if k < |reels| {
        reels[k].RequestStop();
        stopLog := stopLog + [k];
        assert stopLog == Upto(k + 1);
        if k < |reels| - 1 {
          phase := Cascading(k);
          return InProgress;
        }
      }
      result := Finish();
    }

    /** After the stop loop: the game state becomes IDLE, then the wins are evaluated. */
    method Finish() returns (result: StepResult)
      requires |reels| == ReelCount || |reels| == 0
      requires Distinct() && gameState == Stopping && trace == [Spinning, Stopping]
      requires stopLog == Upto(|stopLog|)
      requires forall j :: 0 <= j < |reels| ==>
                 ReelOk(j) && !reels[j].isSpinning
      modifies this
      ensures Valid() && reels == old(reels) && stopLog == old(stopLog)
      ensures phase == NoSpin && trace == [Spinning, Stopping, Idle]
      ensures result == Outcome(Evaluation(Columns()))
    {
      gameState, phase := Idle, NoSpin;
      trace := trace + [Idle];
      var e := CheckForWins();
      result := Outcome(e);
    }

    /** `checkForWins`: build the grid row by row from each reel's visible symbols,
        then count the rows whose leading run reaches three. `None` stands for the
        exception thrown when a reel is missing. */
    method CheckForWins() returns (e: Option<nat>)
      ensures e == Evaluation(Columns())
    {
      ghost var cols := Columns();
      var grid: seq<seq<Cell>> := [];
      var row := 0;
      while row < RowCount
        invariant 0 <= row <= RowCount
        invariant row > 0 ==> |cols| >= ReelCount
        invariant |cols| >= ReelCount ==> grid == Grid(cols)[..row]
      {
        var cells := FillGridRow(row);
        if cells.None? {
          return None;
        }
        GridPrefixGrows(cols, row);
        grid := grid + [cells.value];
        row := row + 1;
      }
      assert grid == Grid(cols);
      var totalWins := CountWins(grid);
      return Some(totalWins);
    }

    /** The second loop of `checkForWins`: one win per row whose leading run reaches
        three. */
    method CountWins(grid: seq<seq<Cell>>) returns (totalWins: nat)
      ensures totalWins == WinCount(grid)
    {
      totalWins := 0;
      var row := 0;
      while row < |grid|
        invariant 0 <= row <= |grid|
        invariant totalWins == WinCount(grid[..row])
      {
        var winLength := CheckRowForWin(grid[row]);
        if winLength >= WinThreshold {
          totalWins := totalWins + 1;
        }
        assert grid[..row + 1][..row] == grid[..row];
        row := row + 1;
      }
      assert grid[..row] == grid;
    }

    /** The inner loop of `checkForWins`: for reel 0 to 4, assign cell `[row][reel]`
        when the reel shows a symbol in that row. `None` when reel `reel` is missing,
        where the call on `this.reels[reel]` throws. */
    method FillGridRow(row: nat) returns (cells: Option<seq<Cell>>)
      requires row < RowCount
      ensures cells.None? <==> |reels| < ReelCount
      ensures cells.Some? ==> cells.value == Grid(Columns())[row]
    {
      ghost var cols := Columns();
      var filled: seq<Cell> := [];
      var reel := 0;
      while reel < ReelCount
        invariant 0 <= reel <= ReelCount && reel <= |reels|
        invariant cols == Columns()
        invariant filled == Trim(RowCells(cols, row, reel))
      {
        if reel >= |reels| {
          return None;
        }
        filled := AssignCell(row, reel, cols, filled);
        reel := reel + 1;
      }
      GridRowCells(cols, row);
      return Some(filled);
    }

    /** One turn of the inner loop of `checkForWins`: cell `[row][reel]` is assigned
        when reel `reel` shows a symbol in that row. */
    method AssignCell(row: nat, reel: nat, ghost cols: seq<seq<SymbolType>>, filled: seq<Cell>)
      returns (next: seq<Cell>)
      requires reel < |reels| && cols == Columns() && filled == Trim(RowCells(cols, row, reel))
      ensures next == Trim(RowCells(cols, row, reel + 1))
    {
      ColumnsOfAt(reels, reel);
      var visible := reels[reel].GetVisibleSymbols();
      FillCell(cols, row, reel, Types(visible), filled);
      next := filled;
      if row < |visible| {
        next := AssignBeyond(filled, reel, Some(visible[row].symbolType));
      }
    }

    /** `checkRowForWin`: count the cells equal to the first one, from the left,
        stopping at the first that differs. */
    method CheckRowForWin(row: seq<Cell>) returns (count: nat)
      ensures count == RunLength(row)
    {
      var first: Cell := if 0 < |row| then row[0] else None;
      count := 1;
      var i := 1;
      while i < |row|
        invariant 1 <= i && (i == 1 || i <= |row|)
        invariant count == i
        invariant forall k :: 0 <= k < i && k < |row| ==> row[k] == first
      {
        if row[i] == first {
          count := count + 1;
        } else {
          break;
        }
        i := i + 1;
      }
      if 0 < |row| {
        LeadingRunUnique(row, row[0], count);
      }
    }

    /** `update`: one frame for every reel. */
    method Update()
      requires Valid()
      modifies reels
      ensures Valid()
      ensures forall j :: 0 <= j < |reels| ==> reels[j].State() == Ticked(old(reels[j].State()))
    {
      var i := 0;
      while i < |reels|
        invariant 0 <= i <= |reels|
        invariant forall j :: 0 <= j < |reels| ==>
                    ReelOk(j)
                    && reels[j].State() == (if j < i then Ticked(old(reels[j].State())) else old(reels[j].State()))
      {
        reels[i].Update();
        i := i + 1;
      }
    }

    /** `isSpinning`: true while a spin is pending, from the first `await` to the last stop. */
    function IsSpinning(): (r: bool)
      reads this, reels
      requires Valid()
      ensures r <==> phase != NoSpin
    {
      gameState == Spinning || gameState == Stopping
    }

    /** `getGameState`. */
    function GetGameState(): (r: GameState)
      reads this, reels
      requires Valid()
      ensures r == Idle <==> phase == NoSpin
      ensures r == Stopping <==> phase.Cascading?
    {
      gameState
    }

    /** `destroy`: every reel releases its buffer, then the machine forgets its reels. A
        pending spin is not cancelled. */
    method Destroy()
      requires Valid()
      modifies this, reels
      ensures Valid() && reels == [] && phase == old(phase) && gameState == old(gameState)
      ensures forall j :: 0 <= j < |old(reels)| ==>
                old(reels)[j].State() == Destroyed(old(reels[j].State()))
    {
      var i := 0;
      while i < |reels|
        modifies reels
        invariant 0 <= i <= |reels|
        invariant forall j :: 0 <= j < |reels| ==>
                    ReelOk(j)
                    && reels[j].State() == (if j < i then Destroyed(old(reels[j].State())) else old(reels[j].State()))
      {
        reels[i].Destroy();
        i := i + 1;
      }
      reels := [];
    }

    /** The timer set by reel i's `init`: fill reel i once resources are loaded. */
    method ReelInitTimerFired(i: nat, res: Resources, draws: seq<SymbolType>)
      requires Valid() && i < |reels| && |draws| == SymbolsNeeded
      modifies reels[i]
      ensures Valid()
      ensures reels[i].State() == Filled(old(reels[i].State()), res, draws)
    {
      assert ReelOk(i);
      reels[i].InitTimerFired(res, draws);
      forall j | 0 <= j < |reels|
        ensures ReelOk(j)
      {
        assert old(ReelOk(j));
        if j != i {
          assert reels[j] != reels[i];
        }
      }
    }

    /** `startSpin` run to its end with no frame in between: every timer fires in turn.
        From idle, the states go SPINNING, STOPPING, IDLE; the reels stop in order; each
        reel ends at rest on its refreshed buffer; and the result is the evaluation of
        the final grid. */
    method RunSpin(res: Resources, draws: seq<seq<SymbolType>>) returns (result: StepResult)
      requires Valid()
      requires |draws| == |reels| && forall j :: 0 <= j < |draws| ==> |draws[j]| == SymbolsNeeded
      modifies this, reels
      ensures Valid() && reels == old(reels) && phase == NoSpin && gameState == Idle
      ensures result == Outcome(Evaluation(Columns()))
      ensures forall j :: 0 <= j < |reels| ==> !reels[j].isSpinning
      ensures old(phase) == NoSpin ==>
                trace == [Spinning, Stopping, Idle] && stopLog == Upto(|reels|)
                && forall j :: 0 <= j < |reels| ==>
                     reels[j].State() == Stopped(Started(Refreshed(old(reels[j].State()), res, draws[j])))
    {
      ghost var idle := phase == NoSpin;
      StartSpin(res, draws);
      result := InProgress;
      while phase != NoSpin
        invariant Valid() && reels == old(reels)
        invariant phase == NoSpin ==> result == Outcome(Evaluation(Columns()))
        invariant idle ==> phase.Cascading? ==> phase.last + 1 < |reels|
        invariant idle ==> phase == NoSpin ==> trace == [Spinning, Stopping, Idle] && stopLog == Upto(|reels|)
        invariant idle ==> forall j :: 0 <= j < |reels| ==>
                    reels[j].State() == Stage(phase, j, Refreshed(old(reels[j].State()), res, draws[j]))
        decreases Pending(phase, |reels|)
      {
        ghost var p := phase;
        NextPhaseProgresses(p, |reels|);
        result := Step();
        if idle {
          forall j | 0 <= j < |reels|
            ensures reels[j].State() == Stage(phase, j, Refreshed(old(reels[j].State()), res, draws[j]))
          {
            StageAdvances(p, |reels|, j, Refreshed(old(reels[j].State()), res, draws[j]));
          }
        }
      }
    }
  }
}

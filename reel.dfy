/**
 * One reel (src/entities/SlotReel.ts): an active symbol buffer, a buffer
 * prepared for the next spin, a scroll offset, a speed and a spinning flag.
 *
 * `ReelState` and the functions on it say what each operation does to the
 * whole reel; the class `SlotReel` performs the operations step by step on
 * its fields and is proved to agree with them.
 */
module Reel {
  import opened Constants
  import opened Assets
  import opened ReelBuffer

  /** Scroll speed set by `startSpin`, in pixels per tick. */
  const BaseSpinSpeed: int := 20
  /** The offset at which a recycle fires, and what it adds back: five pitches (425). */
  const RecycleSpan: int := 5 * Pitch

  datatype ReelState = ReelState(
    symbols: seq<Symbol>,
    newSymbols: seq<Symbol>,
    offset: int,
    speed: int,
    spinning: bool,
    stopRequested: bool)

  /** What holds of a reel between operations: it moves at the base speed exactly
      while it spins, and the offset lies in (-425, 0]. */
  predicate Coherent(s: ReelState) {
    && s.speed == (if s.spinning then BaseSpinSpeed else 0)
    && -RecycleSpan < s.offset <= 0
  }

  /** The initial-fill timer (`init`): `createSymbols` runs only once resources are
      loaded. Only the active buffer changes, and it holds at most eight symbols,
      each with a texture. */
  function Filled(s: ReelState, res: Resources, draws: seq<SymbolType>): (r: ReelState)
    requires |draws| == SymbolsNeeded
    ensures r.(symbols := s.symbols) == s
    ensures r != s ==> res.isLoaded
    ensures res.isLoaded ==> |r.symbols| <= SymbolsNeeded
    ensures res.isLoaded ==> forall k :: 0 <= k < |r.symbols| ==> r.symbols[k].symbolType in res.textures
  {
    if res.isLoaded then s.(symbols := Generated(draws, res.textures, SymbolsNeeded)) else s
  }

  /** `refreshSymbols`: prepares the next buffer, once resources are loaded. Only the
      prepared buffer changes, and it holds at most eight symbols, each with a texture. */
  function Refreshed(s: ReelState, res: Resources, draws: seq<SymbolType>): (r: ReelState)
    requires |draws| == SymbolsNeeded
    ensures r.(newSymbols := s.newSymbols) == s
    ensures r != s ==> res.isLoaded
    ensures res.isLoaded ==> |r.newSymbols| <= SymbolsNeeded
    ensures res.isLoaded ==> forall k :: 0 <= k < |r.newSymbols| ==> r.newSymbols[k].symbolType in res.textures
  {
    if res.isLoaded then s.(newSymbols := Generated(draws, res.textures, SymbolsNeeded)) else s
  }

  /** `startSpin`, including `switchToNewSymbols`: the reel spins at the base speed,
      nothing is left prepared, and the active buffer holds the prepared types when
      there were any, its own otherwise. */
  function Started(s: ReelState): (r: ReelState)
    ensures r.spinning && !r.stopRequested && r.speed == BaseSpinSpeed && r.newSymbols == []
    ensures Types(r.symbols) == if |s.newSymbols| > 0 then Types(s.newSymbols) else Types(s.symbols)
  {
    var moving := s.(spinning := true, stopRequested := false, speed := BaseSpinSpeed);
    if |s.newSymbols| == 0 then moving
    else moving.(symbols := Positioned(s.newSymbols, 0), newSymbols := [], offset := 0)
  }

  /** `requestStop`: a hard stop at offset 0. The reel is at rest afterwards, with the
      same buffer types and the same prepared buffer. */
  function Stopped(s: ReelState): (r: ReelState)
    ensures !r.spinning && r.newSymbols == s.newSymbols && r.stopRequested == s.stopRequested
    ensures Types(r.symbols) == Types(s.symbols)
  {
    if !s.spinning then s
    else s.(spinning := false, speed := 0, offset := 0, symbols := Positioned(s.symbols, 0))
  }

  /** Whether the next tick of `s` recycles the buffer. */
  predicate Recycles(s: ReelState) {
    s.spinning && s.offset - s.speed <= -RecycleSpan
  }

  /** The first part of a tick: scroll by the speed, and recycle once the offset
      reaches -425. */
  function Scrolled(s: ReelState): (r: ReelState)
    ensures r.(symbols := s.symbols, offset := s.offset) == s
    ensures Types(r.symbols)
         == Rotate(Types(s.symbols), if s.offset - s.speed <= -RecycleSpan then RecycleCount else 0)
    ensures r.offset == s.offset - s.speed + (if s.offset - s.speed <= -RecycleSpan then RecycleSpan else 0)
  {
    TypesRotate(s.symbols, RecycleCount);
    var moved := s.offset - s.speed;
    if moved <= -RecycleSpan then s.(symbols := Rotate(s.symbols, RecycleCount), offset := moved + RecycleSpan)
    else s.(offset := moved)
  }

  /** The last part of a tick: every slot placed for the current offset. */
  function LaidOut(s: ReelState): (r: ReelState)
    ensures r.(symbols := s.symbols) == s && Types(r.symbols) == Types(s.symbols)
    ensures forall i :: 0 <= i < |r.symbols| ==> r.symbols[i].y == (i - SlotsAbove) * Pitch - s.offset
  {
    s.(symbols := Positioned(s.symbols, s.offset))
  }

  /** `update`: one frame tick. It does nothing to a reel at rest, and otherwise
      changes only the active buffer and the offset. */
  function Ticked(s: ReelState): (r: ReelState)
    ensures !s.spinning ==> r == s
    ensures r.(symbols := s.symbols, offset := s.offset) == s
    ensures |r.symbols| == |s.symbols|
  {
    if !s.spinning then s else LaidOut(Scrolled(s))
  }

  /** `destroy`: only the active buffer is released; the prepared buffer, the offset
      and the motion are kept, so a coherent reel stays coherent. */
  function Destroyed(s: ReelState): (r: ReelState)
    ensures |r.symbols| == 0 && r.newSymbols == s.newSymbols
    ensures Coherent(r) <==> Coherent(s)
  {
    s.(symbols := [])
  }

  /** k ticks in a row. */
  function Ticks(s: ReelState, k: nat): ReelState {
    if k == 0 then s else Ticked(Ticks(s, k - 1))
  }

  /** The number of recycles during k ticks from s. */
  function RecyclesDuring(s: ReelState, k: nat): nat {
    if k == 0 then 0 else RecyclesDuring(s, k - 1) + (if Recycles(Ticks(s, k - 1)) then 1 else 0)
  }

  // ---------------------------------------------------------------------
  // Properties of the operations
  // ---------------------------------------------------------------------

  /** A tick of a spinning reel moves the offset down by 20 and recycles exactly when
      the offset would reach -425, adding 425 back; the offset stays in (-425, 0]. */
  lemma TickKeepsOffsetInRange(s: ReelState)
    requires Coherent(s) && s.spinning
    ensures Recycles(s) <==> s.offset - BaseSpinSpeed <= -RecycleSpan
    ensures Ticked(s).offset == if Recycles(s) then s.offset - BaseSpinSpeed + RecycleSpan
                                else s.offset - BaseSpinSpeed
    ensures Coherent(Ticked(s)) && Ticked(s).spinning
  {
  }

  /** A tick reorders the active buffer by one recycle or not at all. */
  lemma TickTypes(s: ReelState)
    ensures Types(Ticked(s).symbols)
         == Rotate(Types(s.symbols), if Recycles(s) then RecycleCount else 0)
  {
    if Recycles(s) {
      TypesRotate(s.symbols, RecycleCount);
    }
  }

  /** A tick changes nothing while the reel is not spinning, and otherwise keeps the
      prepared buffer; the active buffer is reordered by one recycle or not at all, so
      its length and its multiset of types stay. */
  lemma TickRotatesBuffer(s: ReelState)
    ensures !s.spinning ==> Ticked(s) == s
    ensures Ticked(s).newSymbols == s.newSymbols && Ticked(s).spinning == s.spinning
    ensures Types(Ticked(s).symbols)
         == Rotate(Types(s.symbols), if Recycles(s) then RecycleCount else 0)
    ensures |Ticked(s).symbols| == |s.symbols|
    ensures multiset(Types(Ticked(s).symbols)) == multiset(Types(s.symbols))
  {
    TickTypes(s);
    RotatePreserves(Types(s.symbols), if Recycles(s) then RecycleCount else 0);
  }

  lemma TickKeepsCoherent(s: ReelState)
    requires Coherent(s)
    ensures Coherent(Ticked(s))
  {
    if s.spinning {
      TickKeepsOffsetInRange(s);
    }
  }

  lemma {:induction false} TicksKeepCoherent(s: ReelState, k: nat)
    requires Coherent(s)
    ensures Coherent(Ticks(s, k)) && Ticks(s, k).spinning == s.spinning
  {
    if k > 0 {
      TicksKeepCoherent(s, k - 1);
      TickKeepsCoherent(Ticks(s, k - 1));
    }
  }

  /** Five more pop/unshift steps add one recycle to a rotation by five per recycle. */
  lemma OneMoreRecycle(s: seq<SymbolType>, n: nat)
    ensures Rotate(Rotate(s, RecycleCount * n), RecycleCount) == Rotate(s, RecycleCount * (n + 1))
  {
    RotateAdd(s, RecycleCount * n, RecycleCount);
  }

  /** Ticking keeps the active buffer a rotation of the installed one by a multiple of
      five slots; the multiple grows by one exactly when the tick recycles. */
  lemma TickKeepsRotation(s: ReelState, installed: seq<SymbolType>, n: nat, m: nat)
    requires Types(s.symbols) == Rotate(installed, RecycleCount * n)
    requires m == n + if Recycles(s) then 1 else 0
    ensures Types(Ticked(s).symbols) == Rotate(installed, RecycleCount * m)
  {
    TickTypes(s);
    if Recycles(s) {
      OneMoreRecycle(installed, n);
    }
  }

  /** After k ticks the active buffer is the starting one rotated by 5 per recycle. */
  lemma {:induction false} TicksRotateBuffer(s: ReelState, k: nat)
    ensures Types(Ticks(s, k).symbols) == Rotate(Types(s.symbols), RecycleCount * RecyclesDuring(s, k))
  {
    if k > 0 {
      TicksRotateBuffer(s, k - 1);
      TickKeepsRotation(Ticks(s, k - 1), Types(s.symbols), RecyclesDuring(s, k - 1), RecyclesDuring(s, k));
    }
  }

  /** `startSpin` sets the reel spinning at the base speed; a prepared buffer, if any,
      becomes the active one at offset 0 and the prepared buffer is emptied; without
      one the active buffer and the offset are kept. */
  lemma StartSwapsBuffers(s: ReelState)
    requires Coherent(s)
    ensures Coherent(Started(s)) && Started(s).spinning && Started(s).speed == BaseSpinSpeed
    ensures |s.newSymbols| > 0 ==>
              Types(Started(s).symbols) == Types(s.newSymbols) && Started(s).newSymbols == []
              && Started(s).offset == 0
    ensures |s.newSymbols| == 0 ==>
              Started(s).symbols == s.symbols && Started(s).offset == s.offset
              && Started(s).newSymbols == []
  {
  }

  /** `requestStop` does nothing to a reel at rest; a spinning reel comes to rest at
      offset 0 with speed 0, its buffer in the same order and laid out from offset 0. */
  lemma StopRests(s: ReelState)
    requires Coherent(s)
    ensures !s.spinning ==> Stopped(s) == s
    ensures Coherent(Stopped(s)) && !Stopped(s).spinning && Stopped(s).speed == 0
    ensures s.spinning ==> Stopped(s).offset == 0 && Types(Stopped(s).symbols) == Types(s.symbols)
    ensures s.spinning ==> forall i :: 0 <= i < |Stopped(s).symbols| ==>
              Stopped(s).symbols[i].y == (i - SlotsAbove) * Pitch
  {
  }

  /** Filling and refreshing keep the reel coherent; with resources not loaded they do
      nothing, otherwise the buffer they fill holds the resolvable draws in order. */
  lemma FillsKeepCoherent(s: ReelState, res: Resources, draws: seq<SymbolType>)
    requires Coherent(s) && |draws| == SymbolsNeeded
    ensures Coherent(Filled(s, res, draws)) && Coherent(Refreshed(s, res, draws))
    ensures !res.isLoaded ==> Filled(s, res, draws) == s && Refreshed(s, res, draws) == s
    ensures res.isLoaded ==>
              Types(Refreshed(s, res, draws).newSymbols) == Resolvable(draws, res.textures)
              && Types(Filled(s, res, draws).symbols) == Resolvable(draws, res.textures)
              && |Refreshed(s, res, draws).newSymbols| <= SymbolsNeeded
  {
    GeneratedKeepsResolvable(draws, res.textures, SymbolsNeeded);
    GeneratedSize(draws, res.textures, SymbolsNeeded);
    assert draws[..SymbolsNeeded] == draws;
  }

  /** A reel-level spin: `startSpin`, k ticks, `requestStop`. */
  function SpinOf(s: ReelState, k: nat): ReelState {
    Stopped(Ticks(Started(s), k))
  }

  /** Pop/unshift steps performed during that spin. */
  function SpinSteps(s: ReelState, k: nat): nat {
    RecycleCount * RecyclesDuring(Started(s), k)
  }

  /** A whole reel-level spin ends at rest and shows the buffer installed at the
      start rotated by five slots per recycle; nothing stages a chosen outcome. */
  lemma SpinEndsOnRotation(s: ReelState, k: nat)
    requires Coherent(s)
    ensures Coherent(SpinOf(s, k)) && !SpinOf(s, k).spinning
    ensures SpinOf(s, k).speed == 0 && SpinOf(s, k).offset == 0
    ensures Types(SpinOf(s, k).symbols) == Rotate(Types(Started(s).symbols), SpinSteps(s, k))
  {
    StartSwapsBuffers(s);
    TicksKeepCoherent(Started(s), k);
    TicksRotateBuffer(Started(s), k);
    StopRests(Ticks(Started(s), k));
  }

  /** On an 8-slot buffer the rows visible at rest are slots 5..7 of the installed
      buffer after no recycle, slots 0..2 after one, and in general the slots at
      (5 + j - 5 * recycles) mod 8. */
  lemma RestingRowsAfterSpin(s: ReelState, k: nat)
    requires Coherent(s) && |Started(s).symbols| == SymbolsNeeded
    ensures |Visible(Types(SpinOf(s, k).symbols))| == RowCount
    ensures forall j :: 0 <= j < RowCount ==>
              Visible(Types(SpinOf(s, k).symbols))[j]
              == Types(Started(s).symbols)[(VisibleStart + j + SymbolsNeeded - SpinSteps(s, k) % SymbolsNeeded) % SymbolsNeeded]
  {
    SpinEndsOnRotation(s, k);
    RestingRows(Types(Started(s).symbols), SpinSteps(s, k));
  }

  /** Refreshed, started and stopped with no frame in between, a reel whose draws
      resolved to at least one texture shows slots 5..7 of the fresh buffer; when none
      resolved, the prepared buffer is empty and the old buffer stays in place. */
  lemma FreshBufferShown(s: ReelState, res: Resources, draws: seq<SymbolType>)
    requires Coherent(s) && |draws| == SymbolsNeeded && res.isLoaded
    ensures |Resolvable(draws, res.textures)| > 0 ==>
              Types(Visible(Stopped(Started(Refreshed(s, res, draws))).symbols))
              == Visible(Resolvable(draws, res.textures))
    ensures |Resolvable(draws, res.textures)| == 0 ==>
              Types(Stopped(Started(Refreshed(s, res, draws))).symbols) == Types(s.symbols)
  {
    FillsKeepCoherent(s, res, draws);
    var r := Refreshed(s, res, draws);
    StartSwapsBuffers(r);
    StopRests(Started(r));
    TypesVisible(Stopped(Started(r)).symbols);
  }

  // ---------------------------------------------------------------------
  // The reel object
  // ---------------------------------------------------------------------

  class SlotReel {
    const reelIndex: nat
    var symbols: seq<Symbol>
    var newSymbols: seq<Symbol>
    var spinSpeed: int
    var isSpinning: bool
    var isStopRequested: bool
    var currentOffset: int

    /** Types of the buffer installed by the last `startSpin` (or fill, or destroy)
        and the number of recycles since. */
    ghost var installed: seq<SymbolType>
    ghost var recycles: nat

    function State(): ReelState
      reads this
    {
      ReelState(symbols, newSymbols, currentOffset, spinSpeed, isSpinning, isStopRequested)
    }

    /** The reel is coherent, and its buffer is the installed one rotated by a
        multiple of five slots. */
    ghost predicate Valid()
      reads this
    {
      && Coherent(State())
      && Types(symbols) == Rotate(installed, RecycleCount * recycles)
    }

    constructor (reelIndex: nat)
      ensures Valid() && this.reelIndex == reelIndex
      ensures State() == ReelState([], [], 0, 0, false, false)
    {
      this.reelIndex := reelIndex;
      symbols, newSymbols := [], [];
      spinSpeed, isSpinning, isStopRequested, currentOffset := 0, false, false, 0;
      installed, recycles := [], 0;
    }

    /** The timer set by `init`: fill the buffer once resources are loaded. */
    method InitTimerFired(res: Resources, draws: seq<SymbolType>)
      requires Valid() && |draws| == SymbolsNeeded
      modifies this
      ensures Valid() && State() == Filled(old(State()), res, draws)
    {
      if res.isLoaded {
        CreateSymbols(res.textures, draws);
      }
    }

    /** `createSymbols`: discard the buffer, then push one symbol per draw whose
        texture resolves. */
    method CreateSymbols(textures: set<SymbolType>, draws: seq<SymbolType>)
      requires Valid() && |draws| == SymbolsNeeded
      modifies this
      ensures Valid() && State() == old(State()).(symbols := Generated(draws, textures, SymbolsNeeded))
      ensures installed == Types(symbols) && recycles == 0
    {
      symbols := [];
      var i := 0;
      while i < SymbolsNeeded
        modifies this`symbols
        invariant 0 <= i <= SymbolsNeeded
        invariant symbols == Generated(draws, textures, i)
      {
        var symbolType := draws[i];
        if symbolType in textures {
          symbols := symbols + [Symbol(symbolType, i * Pitch - SymbolHeight)];
        }
        i := i + 1;
      }
      installed, recycles := Types(symbols), 0;
    }

    /** `generateNewSymbols`: discard the prepared buffer, then push one symbol per
        draw whose texture resolves. */
    method GenerateNewSymbols(textures: set<SymbolType>, draws: seq<SymbolType>)
      requires |draws| == SymbolsNeeded
      modifies this`newSymbols
      ensures newSymbols == Generated(draws, textures, SymbolsNeeded)
    {
      newSymbols := [];
      var i := 0;
      while i < SymbolsNeeded
        invariant 0 <= i <= SymbolsNeeded
        invariant newSymbols == Generated(draws, textures, i)
      {
        var symbolType := draws[i];
        if symbolType in textures {
          newSymbols := newSymbols + [Symbol(symbolType, i * Pitch - SymbolHeight)];
        }
        i := i + 1;
      }
    }

    /** `refreshSymbols`: a no-op until resources are loaded. */
    method RefreshSymbols(res: Resources, draws: seq<SymbolType>)
      requires Valid() && |draws| == SymbolsNeeded
      modifies this
      ensures Valid() && State() == Refreshed(old(State()), res, draws)
      ensures isSpinning == old(isSpinning)
      ensures installed == old(installed) && recycles == old(recycles)
    {
      if res.isLoaded {
        GenerateNewSymbols(res.textures, draws);
      }
    }

    /** `startSpin`: spin at the base speed and install the prepared buffer. */
    method StartSpin()
      requires Valid()
      modifies this
      ensures Valid() && State() == Started(old(State())) && isSpinning
      ensures installed == Types(symbols) && recycles == 0
    {
      isSpinning := true;
      isStopRequested := false;
      spinSpeed := BaseSpinSpeed;
      SwitchToNewSymbols();
      installed, recycles := Types(symbols), 0;
    }

    /** `switchToNewSymbols`: keep the current buffer when nothing was prepared,
        otherwise make the prepared buffer active at offset 0 and lay it out. */
    method SwitchToNewSymbols()
      modifies this`symbols, this`newSymbols, this`currentOffset
      ensures |old(newSymbols)| == 0 ==>
                symbols == old(symbols) && newSymbols == old(newSymbols)
                && currentOffset == old(currentOffset)
      ensures |old(newSymbols)| > 0 ==>
                symbols == Positioned(old(newSymbols), 0) && newSymbols == [] && currentOffset == 0
    {
      if |newSymbols| == 0 {
        return;
      }
      symbols := newSymbols;
      newSymbols := [];
      currentOffset := 0;
      UpdateSymbolPositions();
    }

    /** `requestStop`: ignored unless spinning; otherwise a hard stop at offset 0. */
    method RequestStop()
      requires Valid()
      modifies this
      ensures Valid() && State() == Stopped(old(State()))
      ensures installed == old(installed) && recycles == old(recycles)
    {
      if !isSpinning {
        return;
      }
      isSpinning := false;
      spinSpeed := 0;
      currentOffset := 0;
      UpdateSymbolPositions();
    }

    /** `update`: one frame tick; it advances, recycles and lays out a spinning reel. */
    method Update()
      requires Valid()
      modifies this
      ensures State() == Ticked(old(State()))
      ensures Valid()
      ensures installed == old(installed)
      ensures recycles == old(recycles) + (if Recycles(old(State())) then 1 else 0)
    {
      if isSpinning {
        ghost var before, n := State(), recycles;
        TickKeepsCoherent(before);
        currentOffset := currentOffset - spinSpeed;
        if currentOffset <= -RecycleSpan {
          RecycleSymbols();
          assert symbols == Rotate(before.symbols, RecycleCount);
          currentOffset := currentOffset + RecycleSpan;
          recycles := recycles + 1;
          assert currentOffset == before.offset - before.speed + RecycleSpan;
          assert State() == before.(symbols := Rotate(before.symbols, RecycleCount), offset := currentOffset);
        } else {
          assert State() == before.(offset := currentOffset);
        }
        assert State() == Scrolled(before);
        ghost var scrolled := State();
        UpdateSymbolPositions();
        assert State() == LaidOut(scrolled);
        TickKeepsRotation(before, installed, n, recycles);
      }
    }

    /** `recycleSymbols`: five times, pop the last symbol and unshift it to the front. */
    method RecycleSymbols()
      modifies this`symbols
      ensures symbols == Rotate(old(symbols), RecycleCount)
    {
      var i := 0;
      while i < RecycleCount
        invariant 0 <= i <= RecycleCount
        invariant symbols == Rotate(old(symbols), i)
      {
        if |symbols| > 0 {
          var last := symbols[|symbols| - 1];
          symbols := symbols[..|symbols| - 1];
          symbols := [last] + symbols;
        }
        i := i + 1;
      }
    }

    /** `updateSymbolPositions`: slot i is placed at (i - 5) * 85 - offset. */
    method UpdateSymbolPositions()
      modifies this`symbols
      ensures symbols == Positioned(old(symbols), currentOffset)
    {
      var i := 0;
      while i < |symbols|
        invariant 0 <= i <= |symbols| == |old(symbols)|
        invariant forall k :: 0 <= k < i ==>
                    symbols[k] == Symbol(old(symbols)[k].symbolType, (k - SlotsAbove) * Pitch - currentOffset)
        invariant forall k :: i <= k < |symbols| ==> symbols[k] == old(symbols)[k]
      {
        symbols := symbols[i := symbols[i].(y := (i - SlotsAbove) * Pitch - currentOffset)];
        i := i + 1;
      }
    }

    /** `getVisibleSymbols`: nothing for an empty buffer, otherwise the symbols at
        indices 5, 6 and 7 that exist, in order. */
    method GetVisibleSymbols() returns (visible: seq<Symbol>)
      ensures |symbols| == 0 ==> visible == []
      ensures |visible| == Min(RowCount, Max(0, |symbols| - VisibleStart))
      ensures forall i :: 0 <= i < |visible| ==> visible[i] == symbols[VisibleStart + i]
      ensures visible == Visible(symbols)
    {
      visible := [];
      if |symbols| == 0 {
        return;
      }
      var i := 0;
      while i < RowCount
        invariant 0 <= i <= RowCount
        invariant |visible| == Min(i, Max(0, |symbols| - VisibleStart))
        invariant forall k :: 0 <= k < |visible| ==> visible[k] == symbols[VisibleStart + k]
      {
        var symbolIndex := VisibleStart + i;
        if symbolIndex < |symbols| {
          visible := visible + [symbols[symbolIndex]];
        }
        i := i + 1;
      }
    }

    /** `isReelSpinning`: a reel reports spinning exactly when it moves. */
    function IsReelSpinning(): (r: bool)
      reads this
      requires Valid()
      ensures r <==> spinSpeed != 0
    {
      isSpinning
    }

    /** `getSymbolCount`: the length of the buffer installed last; recycles never change it. */
    function GetSymbolCount(): (r: nat)
      reads this
      requires Valid()
      ensures r == |installed|
    {
      RotatePreserves(installed, RecycleCount * recycles);
      |symbols|
    }

    /** `getVisibleSymbolCount`. */
    method GetVisibleSymbolCount() returns (count: nat)
      ensures count == Min(RowCount, Max(0, |symbols| - VisibleStart))
    {
      var visible := GetVisibleSymbols();
      count := |visible|;
    }

    /** `destroy`: the active buffer is released; the prepared one is left as it is. */
    method Destroy()
      requires Valid()
      modifies this
      ensures Valid() && State() == Destroyed(old(State()))
    {
      symbols := [];
      installed, recycles := [], 0;
    }
  }
}

/**
 * The symbol buffer of one reel as a value: how it is filled, how the recycle
 * step reorders it, where each slot is drawn and which slots are visible
 * (src/entities/SlotReel.ts).
 */
module ReelBuffer {
  import opened Constants

  /** A symbol of a reel: its type and the vertical position of its sprite. */
  datatype Symbol = Symbol(symbolType: SymbolType, y: int)

  /** Draws made by one fill of a buffer (3 visible + 5 spare slots). */
  const SymbolsNeeded: nat := 8
  /** Symbols moved from the tail to the head by one recycle. */
  const RecycleCount: nat := 5
  /** Slots laid out above the first visible row. */
  const SlotsAbove: int := 5
  /** Index of the first visible slot. */
  const VisibleStart: nat := 5

  function Min(a: int, b: int): int { if a < b then a else b }
  function Max(a: int, b: int): int { if a < b then b else a }

  /** The symbol types of a buffer, in buffer order. */
  function Types(s: seq<Symbol>): seq<SymbolType> {
    seq(|s|, i requires 0 <= i < |s| => s[i].symbolType)
  }

  // ---------------------------------------------------------------------
  // Recycling: repeated pop/unshift
  // ---------------------------------------------------------------------

  /** One `pop` followed by `unshift`: the last element moves to the front;
      an empty buffer is left as it is. */
  function RotateOne<T>(s: seq<T>): seq<T> {
    if |s| == 0 then s else [s[|s| - 1]] + s[..|s| - 1]
  }

  /** `k` pop/unshift steps; they never change the buffer's length. */
  function Rotate<T>(s: seq<T>, k: nat): (r: seq<T>)
    ensures |r| == |s|
    decreases k
  {
    if k == 0 then s else RotateOne(Rotate(s, k - 1))
  }

  /** Up to a full turn, k steps move the last k elements, in order, to the front. */
  lemma {:induction false} RotateSplit<T>(s: seq<T>, k: nat)
    requires k <= |s|
    ensures Rotate(s, k) == s[|s| - k..] + s[..|s| - k]
  {
    var n := |s|;
    if k == 0 {
      assert s[n..] + s[..n] == s;
    } else {
      RotateSplit(s, k - 1);
      var r := s[n - k + 1..] + s[..n - k + 1];
      assert Rotate(s, k - 1) == r;
      assert |r| == n;
      assert r[n - 1] == s[n - k];
      assert r[..n - 1] == s[n - k + 1..] + s[..n - k];
      calc {
        Rotate(s, k);
        RotateOne(r);
        [s[n - k]] + (s[n - k + 1..] + s[..n - k]);
        ([s[n - k]] + s[n - k + 1..]) + s[..n - k];
        { assert [s[n - k]] + s[n - k + 1..] == s[n - k..]; }
        s[n - k..] + s[..n - k];
      }
    }
  }

  /** Rotations compose by adding their step counts. */
  lemma {:induction false} RotateAdd<T>(s: seq<T>, a: nat, b: nat)
    ensures Rotate(Rotate(s, a), b) == Rotate(s, a + b)
    decreases b
  {
    if b > 0 {
      RotateAdd(s, a, b - 1);
    }
  }

  /** Length and multiset of the buffer never change. */
  lemma {:induction false} RotatePreserves<T>(s: seq<T>, k: nat)
    ensures |Rotate(s, k)| == |s|
    ensures multiset(Rotate(s, k)) == multiset(s)
    decreases k
  {
    if k > 0 {
      RotatePreserves(s, k - 1);
      RotateOnePreserves(Rotate(s, k - 1));
    }
  }

  lemma RotateOnePreserves<T>(s: seq<T>)
    ensures |RotateOne(s)| == |s|
    ensures multiset(RotateOne(s)) == multiset(s)
  {
    if |s| > 0 {
      assert s == s[..|s| - 1] + [s[|s| - 1]];
    }
  }

  /** A full turn gives the buffer back. */
  lemma RotateFullTurn<T>(s: seq<T>)
    ensures Rotate(s, |s|) == s
  {
    RotateSplit(s, |s|);
    assert s[0..] == s;
  }

  /** A full turn more changes nothing. */
  lemma RotateTurn<T>(s: seq<T>, k: nat)
    ensures Rotate(s, |s| + k) == Rotate(s, k)
  {
    RotateAdd(s, |s|, k);
    RotateFullTurn(s);
  }

  /** Only the step count modulo the length matters. */
  lemma {:induction false} RotateMod<T>(s: seq<T>, k: nat)
    requires |s| > 0
    ensures Rotate(s, k) == Rotate(s, k % |s|)
    decreases k
  {
    if k >= |s| {
      RotateTurn(s, k - |s|);
      RotateMod(s, k - |s|);
      ModSub(k, |s|);
    } else {
      assert k % |s| == k;
    }
  }

  lemma ModSub(k: nat, n: nat)
    requires 0 < n <= k
    ensures (k - n) % n == k % n
  {
    var a, b := (k - n) / n, (k - n) % n;
    var c, d := k / n, k % n;
    assert k - n == a * n + b;
    assert k == c * n + d;
    assert (c - a - 1) * n == b - d;
    SmallMultiple(n, c - a - 1);
  }

  /** A multiple of n strictly between -n and n is zero. */
  lemma SmallMultiple(n: int, x: int)
    requires n > 0 && -n < x * n < n
    ensures x == 0
  {
    if x >= 1 {
      MulAtLeast(n, x);
    } else if x <= -1 {
      MulAtLeast(n, -x);
    }
  }

  lemma {:induction false} MulAtLeast(n: int, x: int)
    requires n > 0 && x >= 1
    ensures x * n >= n
    decreases x
  {
    if x > 1 {
      MulAtLeast(n, x - 1);
      assert x * n == (x - 1) * n + n;
    }
  }

  /** On a non-empty buffer of length n, k steps are a right rotation by k mod n;
      the empty buffer is unchanged. */
  lemma RotateRight<T>(s: seq<T>, k: nat)
    ensures |s| == 0 ==> Rotate(s, k) == s
    ensures |s| > 0 ==> Rotate(s, k) == s[|s| - k % |s|..] + s[..|s| - k % |s|]
  {
    if |s| == 0 {
      RotatePreserves(s, k);
    } else {
      RotateMod(s, k);
      RotateSplit(s, k % |s|);
    }
  }

  /** Element j after m <= n steps. */
  lemma RotateAt<T>(s: seq<T>, m: nat, j: nat)
    requires m <= |s| && j < |s|
    ensures |Rotate(s, m)| == |s|
    ensures Rotate(s, m)[j] == if j < m then s[|s| - m + j] else s[j - m]
  {
    RotateSplit(s, m);
  }

  /** One recycle of the 8-slot buffer: the last five symbols, in order,
      followed by the first three. */
  lemma RecycleEightSlots<T>(s: seq<T>)
    requires |s| == SymbolsNeeded
    ensures Rotate(s, RecycleCount) == s[3..] + s[..3]
  {
    RotateSplit(s, RecycleCount);
  }

  lemma TypesRotateOne(s: seq<Symbol>)
    ensures Types(RotateOne(s)) == RotateOne(Types(s))
  {
    if |s| > 0 {
      forall i | 0 <= i < |s|
        ensures Types(RotateOne(s))[i] == RotateOne(Types(s))[i]
      {
        RotateOneAt(s, i);
        RotateOneAt(Types(s), i);
      }
    }
  }

  /** Element i after one pop/unshift step. */
  lemma RotateOneAt<T>(s: seq<T>, i: nat)
    requires i < |s|
    ensures |RotateOne(s)| == |s|
    ensures RotateOne(s)[i] == if i == 0 then s[|s| - 1] else s[i - 1]
  {
  }

  /** Rotating symbols rotates their types the same way. */
  lemma {:induction false} TypesRotate(s: seq<Symbol>, k: nat)
    ensures Types(Rotate(s, k)) == Rotate(Types(s), k)
    decreases k
  {
    if k > 0 {
      TypesRotate(s, k - 1);
      TypesRotateOne(Rotate(s, k - 1));
    }
  }

  // ---------------------------------------------------------------------
  // Filling a buffer
  // ---------------------------------------------------------------------

  /** The buffer built by the first n iterations of the fill loop: draw i is
      kept, at height i * Pitch - SymbolHeight, only when its texture resolves. */
  function Generated(draws: seq<SymbolType>, textures: set<SymbolType>, n: nat): (r: seq<Symbol>)
    requires n <= |draws|
    ensures |r| <= n
    ensures forall k :: 0 <= k < |r| ==> r[k].symbolType in textures
  {
    if n == 0 then []
    else
      Generated(draws, textures, n - 1)
      + (if draws[n - 1] in textures
         then [Symbol(draws[n - 1], (n - 1) * Pitch - SymbolHeight)]
         else [])
  }

  /** Reference definition: the draws whose texture resolves, in draw order. */
  function Resolvable(draws: seq<SymbolType>, textures: set<SymbolType>): seq<SymbolType> {
    if |draws| == 0 then []
    else (if draws[0] in textures then [draws[0]] else []) + Resolvable(draws[1..], textures)
  }

  lemma {:induction false} ResolvableAppend(a: seq<SymbolType>, b: seq<SymbolType>, textures: set<SymbolType>)
    ensures Resolvable(a + b, textures) == Resolvable(a, textures) + Resolvable(b, textures)
    decreases |a|
  {
    if |a| > 0 {
      assert (a + b)[1..] == a[1..] + b;
      ResolvableAppend(a[1..], b, textures);
    } else {
      assert a + b == b;
    }
  }

  /** The filled buffer holds exactly the resolvable draws, in draw order. */
  lemma {:induction false} GeneratedKeepsResolvable(draws: seq<SymbolType>, textures: set<SymbolType>, n: nat)
    requires n <= |draws|
    ensures Types(Generated(draws, textures, n)) == Resolvable(draws[..n], textures)
    decreases n
  {
    if n > 0 {
      GeneratedKeepsResolvable(draws, textures, n - 1);
      assert draws[..n] == draws[..n - 1] + [draws[n - 1]];
      ResolvableAppend(draws[..n - 1], [draws[n - 1]], textures);
      assert Resolvable([draws[n - 1]], textures)
          == (if draws[n - 1] in textures then [draws[n - 1]] else []);
      var g := Generated(draws, textures, n - 1);
      var tail := if draws[n - 1] in textures
                  then [Symbol(draws[n - 1], (n - 1) * Pitch - SymbolHeight)] else [];
      assert Types(g + tail) == Types(g) + Types(tail);
    }
  }

  /** At most n symbols, all with a texture; exactly n precisely when every draw resolves. */
  lemma {:induction false} GeneratedSize(draws: seq<SymbolType>, textures: set<SymbolType>, n: nat)
    requires n <= |draws|
    ensures |Generated(draws, textures, n)| <= n
    ensures forall k :: 0 <= k < |Generated(draws, textures, n)| ==>
              Generated(draws, textures, n)[k].symbolType in textures
    ensures |Generated(draws, textures, n)| == n <==> forall i :: 0 <= i < n ==> draws[i] in textures
    decreases n
  {
    if n > 0 {
      GeneratedSize(draws, textures, n - 1);
      if draws[n - 1] !in textures {
        assert |Generated(draws, textures, n)| < n;
      }
    }
  }

  /** When every draw resolves, slot i holds draw i at height i * Pitch - SymbolHeight. */
  lemma {:induction false} GeneratedAllResolved(draws: seq<SymbolType>, textures: set<SymbolType>, n: nat)
    requires n <= |draws|
    requires forall i :: 0 <= i < n ==> draws[i] in textures
    ensures |Generated(draws, textures, n)| == n
    ensures forall i :: 0 <= i < n ==>
              Generated(draws, textures, n)[i] == Symbol(draws[i], i * Pitch - SymbolHeight)
    decreases n
  {
    if n > 0 {
      GeneratedAllResolved(draws, textures, n - 1);
    }
  }

  // ---------------------------------------------------------------------
  // Layout and the visible window
  // ---------------------------------------------------------------------

  /** Every slot i placed at height (i - 5) * Pitch - offset; the types stay. */
  function Positioned(s: seq<Symbol>, offset: int): (r: seq<Symbol>)
    ensures |r| == |s| && Types(r) == Types(s)
  {
    seq(|s|, i requires 0 <= i < |s| => Symbol(s[i].symbolType, (i - SlotsAbove) * Pitch - offset))
  }

  /** Slots 5, 6 and 7, as far as the buffer reaches. */
  function Visible<T>(s: seq<T>): (r: seq<T>)
    ensures |r| == Min(RowCount, Max(0, |s| - VisibleStart))
    ensures forall i :: 0 <= i < |r| ==> r[i] == s[VisibleStart + i]
  {
    if |s| <= VisibleStart then [] else s[VisibleStart..Min(VisibleStart + RowCount, |s|)]
  }

  lemma TypesVisible(s: seq<Symbol>)
    ensures Types(Visible(s)) == Visible(Types(s))
  {
  }

  /** On an 8-slot buffer after k pop/unshift steps, visible row j holds the
      element that was at index (5 + j - k) mod 8: with no recycle rows 5..7,
      after one recycle rows 0..2, and so on. */
  lemma RestingRows<T>(s: seq<T>, k: nat)
    requires |s| == SymbolsNeeded
    ensures |Visible(Rotate(s, k))| == RowCount
    ensures forall j :: 0 <= j < RowCount ==>
              Visible(Rotate(s, k))[j] == s[(VisibleStart + j + SymbolsNeeded - k % SymbolsNeeded) % SymbolsNeeded]
  {
    RotateMod(s, k);
    RestingWindow(s, k % SymbolsNeeded);
  }

  /** The visible window of an 8-slot buffer after m < 8 steps. */
  lemma RestingWindow<T>(s: seq<T>, m: nat)
    requires |s| == SymbolsNeeded && m < SymbolsNeeded
    ensures |Visible(Rotate(s, m))| == RowCount
    ensures forall j :: 0 <= j < RowCount ==>
              Visible(Rotate(s, m))[j] == s[(VisibleStart + j + SymbolsNeeded - m) % SymbolsNeeded]
  {
    RotateAt(s, m, 0);
    forall j | 0 <= j < RowCount
      ensures Visible(Rotate(s, m))[j] == s[(VisibleStart + j + SymbolsNeeded - m) % SymbolsNeeded]
    {
      RestingSlot(s, m, VisibleStart + j);
    }
  }

  /** Slot i of an 8-slot buffer after m < 8 steps. */
  lemma RestingSlot<T>(s: seq<T>, m: nat, i: nat)
    requires |s| == SymbolsNeeded && m < SymbolsNeeded && i < SymbolsNeeded
    ensures |Rotate(s, m)| == SymbolsNeeded
    ensures Rotate(s, m)[i] == s[(i + SymbolsNeeded - m) % SymbolsNeeded]
  {
    RotateAt(s, m, i);
    EightSlotIndex(i, m);
  }

  lemma EightSlotIndex(i: int, m: int)
    requires 0 <= i < SymbolsNeeded && 0 <= m < SymbolsNeeded
    ensures (i + SymbolsNeeded - m) % SymbolsNeeded == if i < m then SymbolsNeeded - m + i else i - m
  {
  }
}

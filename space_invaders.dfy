/**
 * `SpaceInvadersAnimation` (public/animations.js:302-399): a 3x5 grid of
 * invaders that steps down every thirtieth update and starts over at the top
 * once it is too low, and a player ship that hops 16 pixels right every
 * forty-fifth update, wrapping within [8, 56) (28, 44, 12, 28, ...).
 */
module SpaceInvaders {
  /** One invader; `kind` is the source's `type` field (its row, which picks the colour). */
  datatype Invader = Invader(x: int, y: int, alive: bool, kind: nat)

  datatype Player = Player(x: int, y: int)

  /** The fields `update` reads and writes. */
  datatype State = State(frameCount: nat, invaders: seq<Invader>, player: Player)

  const Rows: nat := 3
  const Columns: nat := 5
  const InvaderCount: nat := 15
  const TopY: int := 8
  const BottomY: int := 50

  /** The invader the constructor pushes for grid cell (row, col). */
  function InitialInvader(row: nat, col: nat): Invader {
    Invader(col * 12 + 4, row * 10 + 8, true, row)
  }

  /** Position `k` of the array holds cell (k / 5, k % 5): the loops push row by row. */
  function InitialAt(k: nat): Invader {
    InitialInvader(k / Columns, k % Columns)
  }

  /** The constructor's state: the invariant holds and no update has run. */
  function Initial(): (s: State)
    ensures Inv(s) && s.frameCount == 0
  {
    State(0, seq(InvaderCount, k requires 0 <= k < InvaderCount => InitialAt(k)), Player(28, 54))
  }

  /** `Math.trunc(a / n)`: the quotient rounded toward zero, so it has the sign of `a` (or is 0). */
  function JsQuot(a: int, n: int): (q: int)
    requires n > 0
    ensures a >= 0 ==> q >= 0
    ensures a <= 0 ==> q <= 0
  {
    if a >= 0 then a / n else -((-a) / n)
  }

  /**
   * The JavaScript `%` operator on integers: the remainder truncated toward
   * zero, so it takes the sign of the dividend.
   */
  function JsRem(a: int, n: int): (r: int)
    requires n > 0
    ensures r == a - n * JsQuot(a, n)
    ensures a >= 0 ==> r == a % n
    ensures a < 0 ==> r <= 0
    ensures -n < r < n
  {
    if a >= 0 then a % n else -((-a) % n)
  }

  /** What the thirtieth-frame `forEach` does to one invader. */
  function Descend(v: Invader): Invader {
    if !v.alive then v
    else if v.y + 2 > BottomY then v.(y := TopY)
    else v.(y := v.y + 2)
  }

  function DescendAll(invaders: seq<Invader>): (r: seq<Invader>)
    ensures |r| == |invaders|
  {
    seq(|invaders|, i requires 0 <= i < |invaders| => Descend(invaders[i]))
  }

  /** `this.player.x = ((this.player.x + 8) % 48) + 8`. */
  function Hop(x: int): int {
    JsRem(x + 8, 48) + 8
  }

  /** One `update()`. */
  function Step(s: State): (r: State)
    ensures r.frameCount == s.frameCount + 1
    ensures |r.invaders| == |s.invaders| && r.player.y == s.player.y
  {
    var frameCount := s.frameCount + 1;
    var invaders := if frameCount % 30 == 0 then DescendAll(s.invaders) else s.invaders;
    var player := if frameCount % 45 == 0 then s.player.(x := Hop(s.player.x)) else s.player;
    State(frameCount, invaders, player)
  }

  /**
   * Invaders move only on frames divisible by 30, only vertically, and only
   * while alive; the player moves only on frames divisible by 45, only
   * horizontally.
   */
  lemma StepMovesOnSchedule(s: State)
    ensures Step(s).frameCount % 30 != 0 ==> Step(s).invaders == s.invaders
    ensures forall i :: 0 <= i < |s.invaders| ==>
      Step(s).invaders[i].x == s.invaders[i].x && Step(s).invaders[i].alive == s.invaders[i].alive
      && Step(s).invaders[i].kind == s.invaders[i].kind
    ensures forall i :: 0 <= i < |s.invaders| && !s.invaders[i].alive ==> Step(s).invaders[i] == s.invaders[i]
    ensures Step(s).frameCount % 45 != 0 ==> Step(s).player == s.player
    ensures Step(s).player.y == s.player.y
  {
  }

  /** The configuration every reachable state keeps. */
  predicate Inv(s: State) {
    && |s.invaders| == InvaderCount
    && (forall k :: 0 <= k < InvaderCount ==>
         s.invaders[k].x == InitialAt(k).x && s.invaders[k].alive && TopY <= s.invaders[k].y <= BottomY)
    && 8 <= s.player.x <= 55 && s.player.y == 54
  }

  /** Invader y stays in [8, 50] and player x in [8, 55]. */
  lemma StepInv(s: State)
    requires Inv(s)
    ensures Inv(Step(s))
  {
    var x := s.player.x;
    assert 0 <= JsRem(x + 8, 48) < 48;
  }

  function Steps(s: State, n: nat): State {
    if n == 0 then s else Step(Steps(s, n - 1))
  }

  class SpaceInvadersAnimation {
    var frameCount: nat
    var player: Player
    var hueShift: int
    /** Whether the `engine` back-reference is set. */
    var attached: bool
    /** The array is created once; `update` changes its elements in place. */
    const invaders: array<Invader>

    function Current(): State
      reads this, invaders
    {
      State(frameCount, invaders[..], player)
    }

    constructor ()
      ensures Current() == Initial() && fresh(invaders)
      ensures hueShift == 0 && !attached
    {
      var a := new Invader[InvaderCount];
      var row := 0;
      while row < Rows
        invariant row <= Rows
        invariant forall k :: 0 <= k < row * Columns ==> a[k] == InitialAt(k)
      {
        var col := 0;
        while col < Columns
          invariant col <= Columns
          invariant forall k :: 0 <= k < row * Columns + col ==> a[k] == InitialAt(k)
        {
          var k := row * Columns + col;
          assert k / Columns == row && k % Columns == col;
          a[k] := Invader(col * 12 + 4, row * 10 + 8, true, row);
          col := col + 1;
        }
        row := row + 1;
      }
      frameCount, player, hueShift, attached := 0, Player(28, 54), 0, false;
      invaders := a;
      new;
      assert invaders[..] == Initial().invaders;
    }

    method Update()
      modifies this, invaders
      ensures Current() == Step(old(Current()))
      ensures hueShift == old(hueShift) && attached == old(attached)
    {
      frameCount := frameCount + 1;
      if frameCount % 30 == 0 {
        var i := 0;
        while i < invaders.Length
          modifies invaders
          invariant 0 <= i <= invaders.Length
          invariant forall j :: 0 <= j < i ==> invaders[j] == Descend(old(invaders[j]))
          invariant forall j :: i <= j < invaders.Length ==> invaders[j] == old(invaders[j])
        {
          var invader := invaders[i];
          if invader.alive {
            invader := invader.(y := invader.y + 2);
            if invader.y > BottomY {
              invader := invader.(y := TopY);
            }
            invaders[i] := invader;
          }
          i := i + 1;
        }
        assert invaders[..] == DescendAll(old(invaders[..]));
      }
      if frameCount % 45 == 0 {
        player := player.(x := JsRem(player.x + 8, 48) + 8);
      }
    }
  }
}

/** The state of script.js and how it changes: a move (`moveTiles`), a new
    game (`initGame`) and one camera frame (`onHandResults`), each first as a
    function on a snapshot of the module-level variables, then as a method of
    `Game`, whose fields are those variables, proved to follow the function. */
module Game {
  import opened Optional
  import opened Lines
  import opened Grid
  import opened Bounds
  import opened Gesture

  /** Minimum time, in milliseconds, between two moves that change the board. */
  const MOVE_COOLDOWN: int := 300

  /** The module-level variables of script.js that the model keeps. The swipe
      origin joins `swipeStartPos` and `swipeStartTime`. */
  datatype World = World(
    grid: Board,
    score: int,
    bestScore: int,
    gameOver: bool,
    lastMoveTime: int,
    isHandDetected: bool,
    currentHandPos: Point,
    constrainedCursorPos: Point,
    isPinching: bool,
    wasPinching: bool,
    isCursorInsideGame: bool,
    isControlModeActive: bool,
    controlModeLocked: bool,
    swipeStart: Option<Anchor>)

  /** What holds of the variables between any two events: a 4x4 board of
      tiles, a score that the best score covers, `gameOver` exactly when the
      board is stuck, and control active only while pinching unlocked. */
  predicate Consistent(w: World) {
    IsBoard(w.grid) && AllTilesBoard(w.grid) &&
    0 <= w.score <= w.bestScore &&
    (w.gameOver <==> IsStuck(w.grid)) &&
    (w.isControlModeActive ==> w.isPinching && !w.controlModeLocked)
  }

  /** The values the variables have when the script is loaded, before its
      closing `initGame()`. */
  function Initial(storedBest: nat): World {
    World([], 0, storedBest, false, 0, false, Point(0.0, 0.0), Point(0.0, 0.0),
          false, false, false, false, false, None)
  }

  /** `updateScore`: the best score follows the score upwards. */
  function NewBest(bestScore: int, score: int): (r: int)
    ensures r >= bestScore && r >= score
    ensures r == bestScore || r == score
  {
    if score > bestScore then score else bestScore
  }

  /** `initGame`: an empty board with two new tiles, score 0, not over. */
  function InitGameSpec(w: World, first: Draw, second: Draw): World
    requires ValidDraw(first) && ValidDraw(second)
  {
    var board := Spawn(Spawn(EmptyBoard(), first), second);
    w.(grid := board, score := 0, gameOver := false, bestScore := NewBest(w.bestScore, 0))
  }

  /** The first tile of a new game is its board's only tile. */
  lemma FirstTile(first: Draw)
    requires ValidDraw(first)
    ensures var b := Spawn(EmptyBoard(), first);
            IsBoard(b) && TileCount(b) == 1 && BoardSum(b) == NewTileValue(first.value)
  {
    EmptyBoardHasNoTiles();
    SpawnEffect(EmptyBoard(), first);
    SpawnAddsValue(EmptyBoard(), first);
  }

  /** The board of a new game holds exactly two tiles, whose sum is the
      sum of the two drawn tile values (so 4, 6 or 8), and is not stuck. */
  lemma NewBoard(first: Draw, second: Draw)
    requires ValidDraw(first) && ValidDraw(second)
    ensures var b := Spawn(Spawn(EmptyBoard(), first), second);
            IsBoard(b) && TileCount(b) == 2 && !IsStuck(b) &&
            BoardSum(b) == NewTileValue(first.value) + NewTileValue(second.value) &&
            4 <= BoardSum(b) <= 8
  {
    var one := Spawn(EmptyBoard(), first);
    FirstTile(first);
    SpawnEffect(one, second);
    SpawnAddsValue(one, second);
    var two := Spawn(one, second);
    if IsStuck(two) {
      StuckByCells(two);
      FullBoardHasNoEmptyCell(two);
      assert false;
    }
  }

  /** Every cell of a new game's board is empty, a 2 or a 4. */
  lemma NewBoardCells(first: Draw, second: Draw)
    requires ValidDraw(first) && ValidDraw(second)
    ensures var b := Spawn(Spawn(EmptyBoard(), first), second);
            IsBoard(b) && SmallTilesBoard(b)
  {
    var e := EmptyBoard();
    SpawnKeepsSmallTiles(e, first);
    SpawnKeepsSmallTiles(Spawn(e, first), second);
  }

  /** A new game holds exactly two tiles, each a 2 or a 4, scores 0, is not
      over, and leaves the best score and the gesture state alone. */
  lemma InitGameEffect(w: World, first: Draw, second: Draw)
    requires ValidDraw(first) && ValidDraw(second)
    requires w.bestScore >= 0
    ensures var n := InitGameSpec(w, first, second);
            IsBoard(n.grid) && TileCount(n.grid) == 2 && !IsStuck(n.grid) &&
            SmallTilesBoard(n.grid) &&
            BoardSum(n.grid) == NewTileValue(first.value) + NewTileValue(second.value) &&
            n.score == 0 && !n.gameOver && n.bestScore == w.bestScore &&
            n.(grid := w.grid, score := w.score, gameOver := w.gameOver) == w
  {
    NewBoard(first, second);
    NewBoardCells(first, second);
  }

  /** A new tile adds its value to the board's sum; a full board is kept. */
  lemma SpawnAddsValue(g: Board, draw: Draw)
    requires IsBoard(g) && ValidDraw(draw)
    ensures BoardSum(Spawn(g, draw)) ==
              BoardSum(g) + (if TileCount(g) < SIZE * SIZE then NewTileValue(draw.value) else 0)
  {
    SpawnEffect(g, draw);
    EmptyCellsLength(g);
    if TileCount(g) < SIZE * SIZE {
      var cell := SpawnCell(g, draw).value;
      var h := Spawn(g, draw);
      Rows4(g);
      Rows4(h);
      Sum4(g[cell.r]);
      Sum4(h[cell.r]);
      forall r | 0 <= r < SIZE && r != cell.r
        ensures Sum(h[r]) == Sum(g[r])
      {
        assert h[r] == g[r];
      }
    }
  }

  lemma InitGameConsistent(w: World, first: Draw, second: Draw)
    requires ValidDraw(first) && ValidDraw(second)
    requires w.bestScore >= 0
    requires w.isControlModeActive ==> w.isPinching && !w.controlModeLocked
    ensures Consistent(InitGameSpec(w, first, second))
  {
    InitGameEffect(w, first, second);
    var e := EmptyBoard();
    assert AllTilesBoard(e);
    SpawnKeepsTiles(e, first);
    SpawnKeepsTiles(Spawn(e, first), second);
  }

  /** The variables after a move that changed the board, from those just
      after the slide: time, lock and control mode, best score, new tile and
      the end check, in the order of script.js. */
  function MovedWorld(slid: World, now: int, draw: Draw): World
    requires IsBoard(slid.grid) && ValidDraw(draw)
  {
    var board := Spawn(slid.grid, draw);
    slid.(grid := board, lastMoveTime := now, controlModeLocked := true,
          isControlModeActive := false, bestScore := NewBest(slid.bestScore, slid.score),
          gameOver := slid.gameOver || IsStuck(board))
  }

  /** `moveTiles(direction)` at time `now`, with the draw its tile spawn uses;
      the second component is its return value `moved`. */
  function MoveSpec(w: World, d: Direction, now: int, draw: Draw): (r: (World, bool))
    requires IsBoard(w.grid) && ValidDraw(draw)
    ensures IsBoard(r.0.grid)
  {
    if w.gameOver || now - w.lastMoveTime < MOVE_COOLDOWN then (w, false)
    else
      var slid := w.(grid := Slide(w.grid, d), score := w.score + SlideGain(w.grid, d));
      if slid.grid == w.grid then (slid, false) else (MovedWorld(slid, now, draw), true)
  }

  /** A move that passes the guard, in terms of the variables after the slide. */
  lemma MoveSpecAfterSlide(w: World, d: Direction, now: int, draw: Draw, slid: World)
    requires IsBoard(w.grid) && ValidDraw(draw)
    requires !w.gameOver && now - w.lastMoveTime >= MOVE_COOLDOWN
    requires slid == w.(grid := Slide(w.grid, d), score := w.score + SlideGain(w.grid, d))
    ensures MoveSpec(w, d, now, draw) ==
              if slid.grid == w.grid then (slid, false) else (MovedWorld(slid, now, draw), true)
  {
    assert slid.grid == Slide(w.grid, d);
  }

  /** A move is refused, changing nothing, while the game is over or within
      300 ms of the last move. Otherwise it happens exactly when the slide
      changes some cell, and a move that does not happen changes nothing,
      not even the score. */
  lemma MoveGuard(w: World, d: Direction, now: int, draw: Draw)
    requires IsBoard(w.grid) && ValidDraw(draw)
    ensures var r := MoveSpec(w, d, now, draw);
            (r.1 <==> !w.gameOver && now - w.lastMoveTime >= MOVE_COOLDOWN && Slide(w.grid, d) != w.grid) &&
            (!r.1 ==> r.0 == w)
  {
    if !w.gameOver && now - w.lastMoveTime >= MOVE_COOLDOWN {
      var slid := w.(grid := Slide(w.grid, d), score := w.score + SlideGain(w.grid, d));
      MoveSpecAfterSlide(w, d, now, draw, slid);
      if Slide(w.grid, d) == w.grid {
        UnmovedScoresNothing(w.grid, d);
        assert slid == w;
      }
    }
  }


  /** A move that happens records its time, sets the lock and ends control
      mode, and touches no gesture variable besides. */
  lemma MoveLocks(w: World, d: Direction, now: int, draw: Draw)
    requires IsBoard(w.grid) && ValidDraw(draw)
    ensures var r := MoveSpec(w, d, now, draw);
            (r.1 ==> r.0.lastMoveTime == now && r.0.controlModeLocked && !r.0.isControlModeActive) &&
            (r.1 ==> r.0.(grid := w.grid, score := w.score, bestScore := w.bestScore, gameOver := w.gameOver,
                          lastMoveTime := w.lastMoveTime, controlModeLocked := w.controlModeLocked,
                          isControlModeActive := w.isControlModeActive) == w)
  {
  }

  /** A move that happens ends control mode but leaves a pending swipe
      origin in place, so after a keyboard move the origin can outlive
      control mode until the next frame clears it. */
  lemma MoveKeepsOrigin(w: World, d: Direction, now: int, draw: Draw)
    requires IsBoard(w.grid) && ValidDraw(draw)
    requires w.swipeStart.Some? && MoveSpec(w, d, now, draw).1
    ensures MoveSpec(w, d, now, draw).0.swipeStart == w.swipeStart
    ensures !MoveSpec(w, d, now, draw).0.isControlModeActive
  {
    MoveLocks(w, d, now, draw);
  }

  /** A move keeps the variables consistent and never lowers the score or
      the best score; a move that happens raises the board's sum by the new
      tile alone, at most 4. */
  lemma MoveKeepsConsistent(w: World, d: Direction, now: int, draw: Draw)
    requires Consistent(w) && ValidDraw(draw)
    ensures var r := MoveSpec(w, d, now, draw);
            Consistent(r.0) && r.0.score >= w.score && r.0.bestScore >= w.bestScore &&
            BoardSum(w.grid) <= BoardSum(r.0.grid) <= BoardSum(w.grid) + 4
  {
    var r := MoveSpec(w, d, now, draw);
    MoveGuard(w, d, now, draw);
    if r.1 {
      SlideThenSpawn(w.grid, d, draw);
      SlideGainNonNegative(w.grid, d);
      var score := w.score + SlideGain(w.grid, d);
      assert r.0.score == score && r.0.bestScore == NewBest(w.bestScore, score);
      assert r.0.gameOver == IsStuck(r.0.grid);
    }
  }

  /** The board after a move: still all tiles, its sum raised by at most 4. */
  lemma SlideThenSpawn(g: Board, d: Direction, draw: Draw)
    requires IsBoard(g) && AllTilesBoard(g) && ValidDraw(draw)
    ensures var h := Spawn(Slide(g, d), draw);
            AllTilesBoard(h) && BoardSum(g) <= BoardSum(h) <= BoardSum(g) + 4
  {
    var slid := Slide(g, d);
    SlideKeepsTiles(g, d);
    SpawnKeepsTiles(slid, draw);
    SlideConserves(g, d);
    assert BoardSum(slid) == BoardSum(g);
    SpawnAddsValue(slid, draw);
    var v := NewTileValue(draw.value);
    assert BoardSum(Spawn(slid, draw)) == BoardSum(slid) + (if TileCount(slid) < SIZE * SIZE then v else 0);
  }

  /** After a move that happened, another one within 300 ms changes nothing. */
  lemma CooldownBlocksSecondMove(w: World, d1: Direction, t1: int, draw1: Draw, d2: Direction, t2: int, draw2: Draw)
    requires IsBoard(w.grid) && ValidDraw(draw1) && ValidDraw(draw2)
    requires MoveSpec(w, d1, t1, draw1).1 && t2 - t1 < MOVE_COOLDOWN
    ensures var w1 := MoveSpec(w, d1, t1, draw1).0;
            MoveSpec(w1, d2, t2, draw2) == (w1, false)
  {
  }

  /** On a stuck board no move changes anything, whatever `gameOver` says. */
  lemma StuckBoardNeverMoves(w: World, d: Direction, now: int, draw: Draw)
    requires IsBoard(w.grid) && ValidDraw(draw) && IsStuck(w.grid)
    ensures MoveSpec(w, d, now, draw) == (w, false)
  {
    StuckIsFixed(w.grid, d);
    MoveGuard(w, d, now, draw);
  }

  // ---------------------------------------------------------------------------
  // One camera frame

  /** What the hand tracker reports for one frame: no hand, or a hand with
      its pinch state and palm position, together with the container's box
      at that moment, the frame's `Date.now()` and the draw a move would use. */
  datatype Frame =
    | Absent
    | Present(pinch: bool, pos: Point, container: Rect, now: int, draw: Draw)

  predicate ValidFrame(f: Frame) {
    f.Present? ==> ValidDraw(f.draw)
  }

  /** The new variables, the status category shown, the direction the swipe
      fired (if any) and whether that move changed the board. */
  datatype Outcome = Outcome(world: World, status: Status, command: Option<Direction>, moved: bool)

  /** The no-hand branch of `onHandResults`: every hand flag, the lock and
      the swipe origin are cleared. */
  function HandLost(w: World): World
  {
    w.(isHandDetected := false, isPinching := false, wasPinching := false,
       isCursorInsideGame := false, isControlModeActive := false,
       controlModeLocked := false, swipeStart := None)
  }

  /** The pinch bookkeeping of `onHandResults` on a frame with a hand: the
      previous pinch state is kept and a release unlocks control mode. */
  function Pinched(w: World, pinch: bool): World
  {
    w.(isHandDetected := true, wasPinching := w.isPinching, isPinching := pinch,
       controlModeLocked := if w.isPinching && !pinch then false else w.controlModeLocked)
  }

  /** The cursor bookkeeping that follows: the container test, control mode
      and the clamped cursor, against the bounds `b`. */
  function Placed(w: World, pos: Point, b: GameBounds): World
  {
    var inner := IsInsideInnerBounds(b, pos);
    w.(currentHandPos := pos, isCursorInsideGame := inner,
       isControlModeActive := w.isPinching && inner && !w.controlModeLocked,
       constrainedCursorPos :=
         if IsInsideGameBounds(b, pos) then ConstrainToGameBounds(b, pos) else w.constrainedCursorPos)
  }

  /** The hand bookkeeping of `onHandResults` on a frame with a hand, up to
      the status update. */
  function Tracked(w: World, pinch: bool, pos: Point, b: GameBounds): World
  {
    Placed(Pinched(w, pinch), pos, b)
  }

  /** `updateStatusIndicators`: the category it shows for the variables `t`. */
  function Indicator(t: World, b: GameBounds): (s: Status)
    ensures s != NoHand
    ensures s == ControlActive <==> t.isControlModeActive
  {
    StatusOf(t.isControlModeActive, t.controlModeLocked, t.isPinching, t.isCursorInsideGame,
             IsInsideGameBounds(b, t.currentHandPos))
  }

  /** The variables after the swipe tracking of a frame, the direction it
      fired (if any) and whether that move changed the board. */
  datatype SwipeOutcome = SwipeOutcome(world: World, command: Option<Direction>, moved: bool)

  /** The swipe tracking of `onHandResults`, on the variables `Tracked` left:
      outside control mode the origin is dropped; inside it `SwipeTrack`
      decides, and a swipe that fires calls `moveTiles` and drops the origin. */
  function SwipeSpec(t: World, pos: Point, now: int, draw: Draw): (o: SwipeOutcome)
    requires IsBoard(t.grid) && ValidDraw(draw)
    ensures IsBoard(o.world.grid)
    ensures o.moved ==> o.command.Some?
    ensures o.command.Some? ==> o.world.swipeStart.None? && t.isControlModeActive
    ensures o.world.swipeStart.Some? ==> t.isControlModeActive && o.world.isControlModeActive
  {
    if !t.isControlModeActive then SwipeOutcome(t.(swipeStart := None), None, false)
    else
      var s := SwipeTrack(t.swipeStart, pos, now);
      match s.fire
      case None => SwipeOutcome(t.(swipeStart := s.origin), None, false)
      case Some(d) =>
        var r := MoveSpec(t, d, now, draw);
        SwipeOutcome(r.0.(swipeStart := None), Some(d), r.1)
  }

  /** A swipe that fires, in terms of the move it makes. */
  lemma SwipeSpecFires(t: World, pos: Point, now: int, draw: Draw, d: Direction)
    requires IsBoard(t.grid) && ValidDraw(draw)
    requires t.isControlModeActive && SwipeTrack(t.swipeStart, pos, now).fire == Some(d)
    ensures SwipeSpec(t, pos, now, draw).world == MoveSpec(t, d, now, draw).0.(swipeStart := None)
  {
  }

  /** `onHandResults` without its drawing. */
  function FrameSpec(w: World, f: Frame): (o: Outcome)
    requires IsBoard(w.grid) && ValidFrame(f)
    ensures IsBoard(o.world.grid)
    ensures o.moved ==> o.command.Some?
    ensures o.command.Some? ==> o.world.swipeStart.None?
    ensures o.world.swipeStart.Some? ==> o.world.isControlModeActive
  {
    match f
    case Absent => Outcome(HandLost(w), NoHand, None, false)
    case Present(pinch, pos, container, now, draw) =>
      var b := UpdateGameBounds(container);
      var t := Tracked(w, pinch, pos, b);
      var s := SwipeSpec(t, pos, now, draw);
      Outcome(s.world, Indicator(t, b), s.command, s.moved)
  }

  /** A frame keeps the variables consistent and never lowers the score or
      the best score. */
  lemma FrameKeepsConsistent(w: World, f: Frame)
    requires Consistent(w) && ValidFrame(f)
    ensures Consistent(FrameSpec(w, f).world)
    ensures FrameSpec(w, f).world.score >= w.score && FrameSpec(w, f).world.bestScore >= w.bestScore
  {
    match f
    case Absent =>
    case Present(pinch, pos, container, now, draw) =>
      var t := Tracked(w, pinch, pos, UpdateGameBounds(container));
      if t.isControlModeActive {
        var s := SwipeTrack(t.swipeStart, pos, now);
        if s.fire.Some? {
          MoveKeepsConsistent(t, s.fire.value, now, draw);
        }
      }
  }

  /** The move lock after a frame: set exactly when the frame's swipe moved
      the board, or when it was set and the frame is neither a release of the
      pinch nor a frame without a hand. */
  lemma LockProtocol(w: World, f: Frame)
    requires IsBoard(w.grid) && ValidFrame(f)
    ensures var o := FrameSpec(w, f);
            o.world.controlModeLocked <==>
              o.moved || (w.controlModeLocked && f.Present? && !(w.isPinching && !f.pinch))
  {
    if f.Present? {
      var t := Tracked(w, f.pinch, f.pos, UpdateGameBounds(f.container));
      if t.isControlModeActive {
        var s := SwipeTrack(t.swipeStart, f.pos, f.now);
        if s.fire.Some? {
          MoveLocks(t, s.fire.value, f.now, f.draw);
          MoveGuard(t, s.fire.value, f.now, f.draw);
        }
      }
    }
  }

  /** While the lock is set and the pinch is held, a frame issues no move,
      keeps the board and the score, and leaves the lock set. */
  lemma LockedPinchIsInert(w: World, f: Frame)
    requires IsBoard(w.grid) && ValidFrame(f)
    requires w.controlModeLocked && f.Present? && f.pinch
    ensures var o := FrameSpec(w, f);
            o.command.None? && !o.moved && o.world.controlModeLocked &&
            o.world.grid == w.grid && o.world.score == w.score
  {
  }

  /** The frame after one that issued a swipe issues none. */
  lemma NoBackToBackCommands(w: World, f1: Frame, f2: Frame)
    requires IsBoard(w.grid) && ValidFrame(f1) && ValidFrame(f2)
    requires FrameSpec(w, f1).command.Some?
    ensures FrameSpec(FrameSpec(w, f1).world, f2).command.None?
  {
  }

  /** A hand that comes back after a frame without one must start a new swipe. */
  lemma ReturningHandStartsOver(w: World, f: Frame)
    requires IsBoard(w.grid) && ValidFrame(f)
    ensures var o := FrameSpec(FrameSpec(w, Absent).world, f);
            o.command.None? && !o.world.controlModeLocked
  {
  }

  /** The outcome of a sequence of frames: the last variables and how many of
      the frames moved the board. */
  datatype Replay = Replay(last: World, moves: nat)

  function Run(w: World, frames: seq<Frame>): (r: Replay)
    requires IsBoard(w.grid)
    requires forall i :: 0 <= i < |frames| ==> ValidFrame(frames[i])
    ensures IsBoard(r.last.grid)
    ensures r.moves <= |frames|
    decreases |frames|
  {
    if frames == [] then Replay(w, 0)
    else
      var o := FrameSpec(w, frames[0]);
      var rest := Run(o.world, frames[1..]);
      Replay(rest.last, rest.moves + (if o.moved then 1 else 0))
  }

  /** One move per pinch: over frames that all show a held pinch, the board
      moves at most once, and not at all if the lock was already set. */
  lemma {:induction false} OneMovePerPinch(w: World, frames: seq<Frame>)
    requires IsBoard(w.grid)
    requires forall i :: 0 <= i < |frames| ==> ValidFrame(frames[i]) && frames[i].Present? && frames[i].pinch
    ensures Run(w, frames).moves <= 1
    ensures w.controlModeLocked ==> Run(w, frames).moves == 0 && Run(w, frames).last.grid == w.grid
    decreases |frames|
  {
    if frames != [] {
      var o := FrameSpec(w, frames[0]);
      LockProtocol(w, frames[0]);
      if w.controlModeLocked {
        LockedPinchIsInert(w, frames[0]);
      }
      OneMovePerPinch(o.world, frames[1..]);
    }
  }

  /** While the game is over a frame changes neither the board nor the score. */
  lemma OverFrameIsInert(w: World, f: Frame)
    requires IsBoard(w.grid) && ValidFrame(f) && w.gameOver
    ensures var o := FrameSpec(w, f);
            !o.moved && o.world.grid == w.grid && o.world.score == w.score && o.world.gameOver
  {
    if f.Present? {
      var t := Tracked(w, f.pinch, f.pos, UpdateGameBounds(f.container));
      if t.isControlModeActive {
        var s := SwipeTrack(t.swipeStart, f.pos, f.now);
        if s.fire.Some? {
          assert MoveSpec(t, s.fire.value, f.now, f.draw) == (t, false);
        }
      }
    }
  }

  /** A game that is over stays over: no frame changes the board or the score. */
  lemma {:induction false} GameOverIsFinal(w: World, frames: seq<Frame>)
    requires IsBoard(w.grid) && w.gameOver
    requires forall i :: 0 <= i < |frames| ==> ValidFrame(frames[i])
    ensures Run(w, frames).moves == 0
    ensures Run(w, frames).last.grid == w.grid && Run(w, frames).last.score == w.score
    ensures Run(w, frames).last.gameOver
    decreases |frames|
  {
    if frames != [] {
      OverFrameIsInert(w, frames[0]);
      GameOverIsFinal(FrameSpec(w, frames[0]).world, frames[1..]);
    }
  }

  // ---------------------------------------------------------------------------
  // The script's variables and functions

  /** The module-level variables of script.js and the functions that update them. */
  class Game {
    var grid: Board
    var score: int
    var bestScore: int
    var gameOver: bool
    var lastMoveTime: int
    var isHandDetected: bool
    var currentHandPos: Point
    var constrainedCursorPos: Point
    var isPinching: bool
    var wasPinching: bool
    var isCursorInsideGame: bool
    var isControlModeActive: bool
    var controlModeLocked: bool
    var swipeStart: Option<Anchor>

    ghost function Snapshot(): World
      reads this
    {
      World(grid, score, bestScore, gameOver, lastMoveTime, isHandDetected, currentHandPos,
            constrainedCursorPos, isPinching, wasPinching, isCursorInsideGame,
            isControlModeActive, controlModeLocked, swipeStart)
    }

    ghost predicate Valid()
      reads this
    {
      Consistent(Snapshot())
    }

    /** Loading the script: the initial values, with the best score read from
        storage, then `initGame()`. */
    constructor (storedBest: nat, first: Draw, second: Draw)
      requires ValidDraw(first) && ValidDraw(second)
      ensures Snapshot() == InitGameSpec(Initial(storedBest), first, second)
      ensures Valid()
    {
      grid := [];
      score := 0;
      bestScore := storedBest;
      gameOver := false;
      lastMoveTime := 0;
      isHandDetected := false;
      currentHandPos := Point(0.0, 0.0);
      constrainedCursorPos := Point(0.0, 0.0);
      isPinching := false;
      wasPinching := false;
      isCursorInsideGame := false;
      isControlModeActive := false;
      controlModeLocked := false;
      swipeStart := None;
      new;
      InitGame(first, second);
    }

    method InitGame(first: Draw, second: Draw)
      requires ValidDraw(first) && ValidDraw(second)
      modifies this`grid, this`score, this`gameOver, this`bestScore
      ensures Snapshot() == InitGameSpec(old(Snapshot()), first, second)
      // The board, score and end flag are rebuilt, so only the best score and
      // the control variables need to be consistent beforehand.
      ensures (old(bestScore) >= 0 &&
               (old(isControlModeActive) ==> old(isPinching) && !old(controlModeLocked))) ==> Valid()
    {
      ghost var w := Snapshot();
      ClearBoard();
      var _ := AddRandomTile(first);
      var _ := AddRandomTile(second);
      if w.bestScore >= 0 && (w.isControlModeActive ==> w.isPinching && !w.controlModeLocked) {
        InitGameConsistent(w, first, second);
      }
    }

    /** The first half of `initGame`: an empty board, a zero score, and the
        best score brought up to date. */
    method ClearBoard()
      modifies this`grid, this`score, this`gameOver, this`bestScore
      ensures Snapshot() == old(Snapshot()).(grid := EmptyBoard(), score := 0, gameOver := false,
                                            bestScore := NewBest(old(bestScore), 0))
    {
      grid := EmptyBoard();
      score := 0;
      gameOver := false;
      UpdateScore();
    }

    method UpdateScore()
      modifies this`bestScore
      ensures Snapshot() == old(Snapshot()).(bestScore := NewBest(old(bestScore), score))
    {
      if score > bestScore {
        bestScore := score;
      }
    }

    /** Lists the empty cells row by row, then fills the one the draw picks;
        returns it with its new value, or `None` on a full board. */
    method AddRandomTile(draw: Draw) returns (placed: Option<(Cell, int)>)
      requires IsBoard(grid) && ValidDraw(draw)
      modifies this`grid
      ensures Snapshot() == old(Snapshot()).(grid := Spawn(old(grid), draw))
      ensures placed.None? <==> SpawnCell(old(grid), draw).None?
      ensures placed.Some? ==>
                placed.value.0 == SpawnCell(old(grid), draw).value &&
                placed.value.1 == NewTileValue(draw.value)
    {
      var emptyCells: seq<Cell> := [];
      for r := 0 to SIZE
        invariant emptyCells == EmptyCellsBefore(grid, r)
      {
        for c := 0 to SIZE
          invariant emptyCells == EmptyCellsBefore(grid, r) + RowEmptyCells(grid[r], r, c)
        {
          if grid[r][c] == 0 {
            emptyCells := emptyCells + [Cell(r, c)];
          }
        }
      }
      if |emptyCells| > 0 {
        var cell := emptyCells[Pick(draw.cell, |emptyCells|)];
        var value := NewTileValue(draw.value);
        grid := grid[cell.r := grid[cell.r][cell.c := value]];
        return Some((cell, value));
      }
      return None;
    }

    /** Sets `gameOver` and answers true exactly when no cell is empty and no
        two neighbours are equal; never clears `gameOver`. */
    method CheckGameOver() returns (over: bool)
      requires IsBoard(grid)
      modifies this`gameOver
      ensures Snapshot() == old(Snapshot()).(gameOver := old(gameOver) || over)
      ensures over <==> IsStuck(grid)
    {
      StuckByCells(grid);
      for r := 0 to SIZE
        invariant forall i, c :: 0 <= i < r && 0 <= c < SIZE ==> grid[i][c] != 0
      {
        for c := 0 to SIZE
          invariant forall i, k :: 0 <= i < r && 0 <= k < SIZE ==> grid[i][k] != 0
          invariant forall k :: 0 <= k < c ==> grid[r][k] != 0
        {
          if grid[r][c] == 0 {
            return false;
          }
        }
      }
      for r := 0 to SIZE
        invariant forall i, c :: 0 <= i < r && 0 <= c < SIZE ==> NoMergeAt(grid, i, c)
      {
        for c := 0 to SIZE
          invariant forall i, k :: 0 <= i < r && 0 <= k < SIZE ==> NoMergeAt(grid, i, k)
          invariant forall k :: 0 <= k < c ==> NoMergeAt(grid, r, k)
        {
          if c < SIZE - 1 && grid[r][c] == grid[r][c + 1] {
            assert !NoMergeAt(grid, r, c);
            return false;
          }
          if r < SIZE - 1 && grid[r][c] == grid[r + 1][c] {
            assert !NoMergeAt(grid, r, c);
            return false;
          }
        }
      }
      gameOver := true;
      return true;
    }

    /** The `left` and `right` branches: every row through the line collapse. */
    method SlideRows(toStart: bool)
      requires IsBoard(grid)
      modifies this`grid, this`score
      ensures grid == CollapseRows(old(grid), toStart)
      ensures score == old(score) + GainOf(old(grid), toStart)
    {
      ghost var start := grid;
      ghost var target := CollapseRows(start, toStart);
      for r := 0 to SIZE
        invariant |grid| == SIZE
        invariant forall k :: 0 <= k < r ==> grid[k] == target[k]
        invariant forall k :: r <= k < SIZE ==> grid[k] == start[k]
        invariant score == old(score) + GainOf(start[..r], toStart)
      {
        var row, gain;
        if toStart {
          row, gain := CollapseLineLeft(grid[r]);
        } else {
          row, gain := CollapseLineRight(grid[r]);
        }
        GainOfSnoc(start, r, toStart);
        score := score + gain;
        grid := grid[r := row];
      }
      assert start[..SIZE] == start;
      assert grid == target;
    }

    /** `for (let r = 0; r < 4; r++) col.push(grid[r][c])` */
    method ReadColumn(c: int) returns (col: seq<int>)
      requires IsBoard(grid) && 0 <= c < SIZE
      ensures col == Column(grid, c)
    {
      col := [];
      for r := 0 to SIZE
        invariant |col| == r && forall i :: 0 <= i < r ==> col[i] == grid[i][c]
      {
        col := col + [grid[r][c]];
      }
    }

    /** `for (let r = 0; r < 4; r++) grid[r][c] = col[r]` */
    method WriteColumn(c: int, col: seq<int>)
      requires IsBoard(grid) && 0 <= c < SIZE && |col| == SIZE
      modifies this`grid
      ensures grid == SetColumn(old(grid), c, col)
    {
      ghost var start := grid;
      for r := 0 to SIZE
        invariant IsBoard(grid)
        invariant forall i :: 0 <= i < r ==> grid[i] == start[i][c := col[i]]
        invariant forall i :: r <= i < SIZE ==> grid[i] == start[i]
      {
        grid := grid[r := grid[r][c := col[r]]];
      }
      ghost var target := SetColumn(start, c, col);
      forall r | 0 <= r < SIZE
        ensures grid[r] == target[r]
      {
      }
    }

    /** One column of the `up` and `down` branches: read it, collapse it,
        write it back. */
    method SlideColumn(c: int, toStart: bool)
      requires IsBoard(grid) && 0 <= c < SIZE
      modifies this`grid, this`score
      ensures grid == SetColumn(old(grid), c, CollapseLine(Column(old(grid), c), toStart))
      ensures score == old(score) + (if toStart then LeftGain(Column(old(grid), c)) else RightGain(Column(old(grid), c)))
    {
      var col := ReadColumn(c);
      var gain;
      if toStart {
        col, gain := CollapseLineLeft(col);
      } else {
        col, gain := CollapseLineRight(col);
      }
      score := score + gain;
      WriteColumn(c, col);
    }

    /** The `up` and `down` branches: every column through the line collapse. */
    method SlideColumns(toStart: bool)
      requires IsBoard(grid)
      modifies this`grid, this`score
      ensures grid == Transpose(CollapseRows(Transpose(old(grid)), toStart))
      ensures score == old(score) + GainOf(Transpose(old(grid)), toStart)
    {
      ghost var start := grid;
      ghost var lines := Transpose(start);
      PartlySlidStart(start, toStart);
      for c := 0 to SIZE
        invariant grid == PartlySlid(start, toStart, c)
        invariant score == old(score) + GainOf(lines[..c], toStart)
      {
        PartlySlidNext(start, toStart, c);
        PartlySlidStep(start, toStart, c);
        GainOfSnoc(lines, c, toStart);
        SlideColumn(c, toStart);
      }
      assert lines[..SIZE] == lines;
      PartlySlidAll(start, toStart);
    }

    /** The comparison with the copy taken before the move, cell by cell. */
    method Differs(before: Board, after: Board) returns (moved: bool)
      requires IsBoard(before) && IsBoard(after)
      ensures moved <==> before != after
    {
      moved := false;
      for r := 0 to SIZE
        invariant moved <==> exists i, c :: 0 <= i < r && 0 <= c < SIZE && before[i][c] != after[i][c]
      {
        for c := 0 to SIZE
          invariant moved <==>
                      (exists i, k :: 0 <= i < r && 0 <= k < SIZE && before[i][k] != after[i][k]) ||
                      (exists k :: 0 <= k < c && before[r][k] != after[r][k])
        {
          if before[r][c] != after[r][c] {
            moved := true;
          }
        }
      }
      if !moved {
        forall r | 0 <= r < SIZE
          ensures before[r] == after[r]
        {
        }
      }
    }

    /** The four direction branches of `moveTiles`. */
    method SlideBoard(direction: Direction)
      requires IsBoard(grid)
      modifies this`grid, this`score
      ensures grid == Slide(old(grid), direction)
      ensures score == old(score) + SlideGain(old(grid), direction)
    {
      match direction {
        case Left => SlideRows(true);
        case Right => SlideRows(false);
        case Up => SlideColumns(true);
        case Down => SlideColumns(false);
      }
    }

    /** `moveTiles(direction)`, with the frame's clock reading and the draw
        of the tile spawn that follows a move. */
    method MoveTiles(direction: Direction, now: int, draw: Draw) returns (moved: bool)
      requires IsBoard(grid) && ValidDraw(draw)
      modifies this`grid, this`score, this`bestScore, this`gameOver, this`lastMoveTime,
               this`controlModeLocked, this`isControlModeActive
      ensures (Snapshot(), moved) == MoveSpec(old(Snapshot()), direction, now, draw)
      ensures old(Valid()) ==> Valid()
    {
      if gameOver || now - lastMoveTime < MOVE_COOLDOWN {
        return false;
      }
      ghost var w := Snapshot();
      moved := PlayMove(direction, now, draw);
      if Consistent(w) {
        MoveKeepsConsistent(w, direction, now, draw);
      }
    }

    /** `moveTiles` past its guard: slide, and if the board changed, finish
        the move. */
    method PlayMove(direction: Direction, now: int, draw: Draw) returns (moved: bool)
      requires IsBoard(grid) && ValidDraw(draw)
      requires !gameOver && now - lastMoveTime >= MOVE_COOLDOWN
      modifies this`grid, this`score, this`bestScore, this`gameOver, this`lastMoveTime,
               this`controlModeLocked, this`isControlModeActive
      ensures (Snapshot(), moved) == MoveSpec(old(Snapshot()), direction, now, draw)
    {
      ghost var w := Snapshot();
      var oldGrid := grid;
      SlideBoard(direction);
      moved := Differs(oldGrid, grid);
      ghost var slid := Snapshot();
      MoveSpecAfterSlide(w, direction, now, draw, slid);
      if moved {
        AfterMove(now, draw);
      }
    }

    /** What `moveTiles` does once the board has changed: record the time,
        lock control mode, then (after the slide animation) update the best
        score, add a tile and check for the end. */
    method AfterMove(now: int, draw: Draw)
      requires IsBoard(grid) && ValidDraw(draw)
      modifies this`grid, this`bestScore, this`gameOver, this`lastMoveTime,
               this`controlModeLocked, this`isControlModeActive
      ensures Snapshot() == MovedWorld(old(Snapshot()), now, draw)
    {
      lastMoveTime := now;
      controlModeLocked := true;
      isControlModeActive := false;
      UpdateScore();
      var _ := AddRandomTile(draw);
      var _ := CheckGameOver();
    }

    /** The no-hand branch of `onHandResults`. */
    method ClearHand()
      modifies this`isHandDetected, this`isPinching, this`wasPinching, this`isCursorInsideGame,
               this`isControlModeActive, this`controlModeLocked, this`swipeStart
      ensures Snapshot() == HandLost(old(Snapshot()))
    {
      isHandDetected := false;
      isPinching := false;
      wasPinching := false;
      isCursorInsideGame := false;
      isControlModeActive := false;
      controlModeLocked := false;
      swipeStart := None;
    }

    /** The pinch bookkeeping of `onHandResults`. */
    method TrackPinch(pinch: bool)
      modifies this`isHandDetected, this`wasPinching, this`isPinching, this`controlModeLocked
      ensures Snapshot() == Pinched(old(Snapshot()), pinch)
    {
      isHandDetected := true;
      wasPinching := isPinching;
      isPinching := pinch;
      if wasPinching && !isPinching {
        controlModeLocked := false;
      }
    }

    /** The cursor bookkeeping of `onHandResults` for a hand at `pos`. */
    method PlaceCursor(pos: Point, bounds: GameBounds)
      modifies this`currentHandPos, this`isCursorInsideGame, this`isControlModeActive,
               this`constrainedCursorPos
      ensures Snapshot() == Placed(old(Snapshot()), pos, bounds)
    {
      currentHandPos := pos;
      var isInExpandedBounds := IsInsideGameBounds(bounds, pos);
      var isInInnerBounds := IsInsideInnerBounds(bounds, pos);
      isCursorInsideGame := isInInnerBounds;
      isControlModeActive := isPinching && isInInnerBounds && !controlModeLocked;
      if isInExpandedBounds {
        constrainedCursorPos := ConstrainToGameBounds(bounds, pos);
      }
    }

    /** The swipe tracking of `onHandResults` while control mode is active,
        for a hand at `pos`: answers the direction of the swipe that fires,
        if one does, and otherwise starts or renews the origin as needed. The
        origin of a swipe that fires is dropped by the caller, after the move. */
    method TrackSwipe(pos: Point, now: int) returns (fire: Option<Direction>)
      modifies this`swipeStart
      ensures fire == SwipeTrack(old(swipeStart), pos, now).fire
      ensures swipeStart == if fire.None? then SwipeTrack(old(swipeStart), pos, now).origin else old(swipeStart)
    {
      fire := None;
      match swipeStart {
        case None =>
          swipeStart := Some(Anchor(pos, now));
        case Some(start) =>
          var dx := pos.x - start.pos.x;
          var dy := pos.y - start.pos.y;
          var elapsed := now - start.time;
          if dx * dx + dy * dy > SWIPE_THRESHOLD * SWIPE_THRESHOLD && elapsed < SWIPE_TIME_LIMIT {
            fire := Some(SwipeDirection(dx, dy));
          } else if elapsed > SWIPE_TIME_LIMIT {
            swipeStart := Some(Anchor(pos, now));
          }
      }
    }

    /** The swipe handling of `onHandResults` after the hand bookkeeping:
        track the swipe while control mode is active and move the tiles when
        it fires; drop the origin otherwise. */
    method HandleSwipe(pos: Point, now: int, draw: Draw)
      requires IsBoard(grid) && ValidDraw(draw)
      modifies this`swipeStart, this`grid, this`score, this`bestScore, this`gameOver,
               this`lastMoveTime, this`controlModeLocked, this`isControlModeActive
      ensures Snapshot() == SwipeSpec(old(Snapshot()), pos, now, draw).world
    {
      if isControlModeActive {
        ghost var t := Snapshot();
        var fire := TrackSwipe(pos, now);
        if fire.Some? {
          SwipeSpecFires(t, pos, now, draw, fire.value);
          assert Snapshot() == t;
          var _ := MoveTiles(fire.value, now, draw);
          swipeStart := None;
        }
      } else {
        swipeStart := None;
      }
    }

    /** `onHandResults` for one frame; answers the status category shown. */
    method OnHandResults(frame: Frame) returns (status: Status)
      requires IsBoard(grid) && ValidFrame(frame)
      modifies this
      ensures Snapshot() == FrameSpec(old(Snapshot()), frame).world
      ensures status == FrameSpec(old(Snapshot()), frame).status
      ensures old(Valid()) ==> Valid()
    {
      ghost var w := Snapshot();
      match frame {
        case Absent =>
          ClearHand();
          status := NoHand;
        case Present(pinch, pos, container, now, draw) =>
          var bounds := UpdateGameBounds(container);
          TrackPinch(pinch);
          PlaceCursor(pos, bounds);
          status := StatusOf(isControlModeActive, controlModeLocked, isPinching, isCursorInsideGame,
                             IsInsideGameBounds(bounds, currentHandPos));
          HandleSwipe(pos, now, draw);
      }
      if Consistent(w) {
        FrameKeepsConsistent(w, frame);
      }
    }
  }
}

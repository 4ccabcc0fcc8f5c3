/**
 * The Snake game loop: a snake of grid cells moving one cell per tick on a
 * 20 x 20 board, eating food, speeding up, and resetting on collision.
 *
 * `GameState` is the value of the page's game globals; the pure functions
 * below say what each operation does to it, and class `Game` holds the
 * globals as fields and updates them in place, each method proved against
 * the matching function.
 */
module SnakeGame {

  const GridSize: int := 20
  const InitialDelay: int := 300
  const MinDelay: int := 50

  /** A board cell; columns `x` and rows `y` run from 1 to GridSize on the board. */
  datatype Cell = Cell(x: int, y: int)

  const StartCell: Cell := Cell(10, 10)

  /** Rows grow downwards, so Up decreases `y`. */
  datatype Direction = Up | Down | Left | Right

  /** A keydown event: the physical key `code` and the produced `key` value. */
  datatype KeyEvent = KeyEvent(code: string, key: string)

  /** The page's game globals: snake (head first), food, direction, tick delay, high score, running flag. */
  datatype GameState = GameState(
    snake: seq<Cell>,
    food: Cell,
    direction: Direction,
    gameSpeedDelay: int,
    highScore: int,
    gameStarted: bool)

  predicate InGrid(c: Cell) {
    1 <= c.x <= GridSize && 1 <= c.y <= GridSize
  }

  function Abs(n: int): nat { if n < 0 then -n else n }

  function Opposite(d: Direction): Direction {
    match d
    case Up => Down
    case Down => Up
    case Left => Right
    case Right => Left
  }

  /** The cell one unit from `c` in direction `d`: exactly one coordinate changes, by one. */
  function Shift(c: Cell, d: Direction): (r: Cell)
    ensures Abs(r.x - c.x) + Abs(r.y - c.y) == 1
    ensures (d == Up || d == Down) <==> r.x == c.x
  {
    match d
    case Up => Cell(c.x, c.y - 1)
    case Down => Cell(c.x, c.y + 1)
    case Left => Cell(c.x - 1, c.y)
    case Right => Cell(c.x + 1, c.y)
  }

  /** Moving back the opposite way undoes a move. */
  lemma ShiftOpposite(c: Cell, d: Direction)
    ensures Shift(Shift(c, d), Opposite(d)) == c
  {
  }

  // ---------------------------------------------------------------------------
  // Speed

  /**
   * `increaseSpeed`: the tick delay drops by 5, 3, 2 or 1 ms depending on its
   * band, and stops dropping at MinDelay.
   */
  function NextDelay(delay: int): (r: int)
    ensures r <= delay
    ensures r < delay <==> delay > MinDelay
    ensures delay >= MinDelay ==> r >= MinDelay
    ensures delay - r in {0, 1, 2, 3, 5}
    ensures delay - r == 5 <==> delay > 200
  {
    if delay > 200 then delay - 5
    else if delay > 150 then delay - 3
    else if delay > 100 then delay - 2
    else if delay > MinDelay then delay - 1
    else delay
  }

  lemma NextDelayFromInitial()
    ensures NextDelay(InitialDelay) == 295
  {
  }

  /** The delay after `n` speed-ups. */
  function DelayAfter(delay: int, n: nat): int {
    if n == 0 then delay else DelayAfter(NextDelay(delay), n - 1)
  }

  /** Repeated speed-ups never raise the delay and never take it below the floor. */
  lemma {:induction false} DelayAfterBounds(delay: int, n: nat)
    requires delay >= MinDelay
    ensures MinDelay <= DelayAfter(delay, n) <= delay
  {
    if n > 0 {
      DelayAfterBounds(NextDelay(delay), n - 1);
    }
  }

  // ---------------------------------------------------------------------------
  // One tick

  /** The page's starting globals; `food` is the first food draw. */
  function Initial(food: Cell): (t: GameState)
    ensures |t.snake| == 1 && InGrid(t.snake[0]) && Score(t) == 0
    ensures t.food == food && t.direction == Right && t.gameSpeedDelay == InitialDelay
    ensures t.highScore == 0 && !t.gameStarted
  {
    GameState([StartCell], food, Right, InitialDelay, 0, false)
  }

  /** The cell the head moves to on the next tick. */
  function NextHead(s: GameState): Cell
    requires |s.snake| > 0
  {
    Shift(s.snake[0], s.direction)
  }

  predicate Eats(s: GameState)
    requires |s.snake| > 0
  {
    NextHead(s) == s.food
  }

  /**
   * `move`: the head advances one cell; on food the snake keeps its tail
   * (grows by one), the food is replaced by `newFood` and the game speeds up;
   * otherwise the tail cell is dropped.
   */
  function Moved(s: GameState, newFood: Cell): (t: GameState)
    requires |s.snake| > 0
    ensures |t.snake| == |s.snake| + (if Eats(s) then 1 else 0)
    ensures t.snake[0] == Shift(s.snake[0], s.direction)
    ensures t.snake[1..] <= s.snake
    ensures Eats(s) ==> t.food == newFood && t.gameSpeedDelay == NextDelay(s.gameSpeedDelay)
    ensures !Eats(s) ==> t.food == s.food && t.gameSpeedDelay == s.gameSpeedDelay
    ensures t.direction == s.direction && t.highScore == s.highScore && t.gameStarted == s.gameStarted
  {
    var head := NextHead(s);
    if head == s.food then
      s.(snake := [head] + s.snake, food := newFood, gameSpeedDelay := NextDelay(s.gameSpeedDelay))
    else
      s.(snake := [head] + s.snake[..|s.snake| - 1])
  }

  /** The head lies on some later cell of the snake. */
  predicate HitsBody(snake: seq<Cell>)
    requires |snake| > 0
  {
    exists i :: 1 <= i < |snake| && snake[i] == snake[0]
  }

  /** What `checkCollision` tests: the head is off the board or on the body. */
  predicate Collides(s: GameState)
    requires |s.snake| > 0
  {
    !InGrid(s.snake[0]) || HitsBody(s.snake)
  }

  /** The score shown for a snake: its length minus one. */
  function Score(s: GameState): int {
    |s.snake| - 1
  }

  /**
   * `resetGame`: the high score keeps the running maximum, the game stops, and
   * snake, food, direction and delay go back to their initial values.
   */
  function Reset(s: GameState, newFood: Cell): (t: GameState)
    ensures t.snake == [StartCell] && t.food == newFood && t.direction == Right
    ensures t.gameSpeedDelay == InitialDelay && !t.gameStarted
    ensures t.highScore >= s.highScore && t.highScore >= Score(s)
    ensures t.highScore == s.highScore || t.highScore == Score(s)
  {
    var hs := if Score(s) > s.highScore then Score(s) else s.highScore;
    GameState([StartCell], newFood, Right, InitialDelay, hs, false)
  }

  /** `checkCollision`: a collision resets the game, anything else leaves it alone. */
  function Checked(s: GameState, resetFood: Cell): (t: GameState)
    requires |s.snake| > 0
    ensures !Collides(s) ==> t == s
    ensures Collides(s) ==> t.snake == [StartCell] && t.food == resetFood && !t.gameStarted
                            && t.highScore >= Score(s)
    ensures t.highScore >= s.highScore
  {
    if Collides(s) then Reset(s, resetFood) else s
  }

  /** One timer tick: `move` then `checkCollision`. */
  function Ticked(s: GameState, newFood: Cell, resetFood: Cell): (t: GameState)
    requires |s.snake| > 0
    ensures |t.snake| > 0
    ensures t.highScore >= s.highScore
  {
    Checked(Moved(s, newFood), resetFood)
  }

  /** `startGame`: only the running flag changes. */
  function Started(s: GameState): (t: GameState)
    ensures t.gameStarted
    ensures t.snake == s.snake && t.food == s.food && t.direction == s.direction
    ensures t.gameSpeedDelay == s.gameSpeedDelay && t.highScore == s.highScore
  {
    s.(gameStarted := true)
  }

  predicate IsSpace(e: KeyEvent) {
    e.code == "Space" || e.code == " "
  }

  predicate IsArrow(key: string) {
    key == "ArrowUp" || key == "ArrowDown" || key == "ArrowLeft" || key == "ArrowRight"
  }

  function ArrowDirection(key: string): Direction
    requires IsArrow(key)
  {
    if key == "ArrowUp" then Up
    else if key == "ArrowDown" then Down
    else if key == "ArrowLeft" then Left
    else Right
  }

  /**
   * `handleKeyPress`: space starts an idle game; otherwise an arrow key sets
   * the direction, a reversal included, and any other key does nothing.
   */
  function KeyPressed(s: GameState, e: KeyEvent): (t: GameState)
    ensures t.snake == s.snake && t.food == s.food
    ensures t.gameSpeedDelay == s.gameSpeedDelay && t.highScore == s.highScore
    ensures t.gameStarted <==> s.gameStarted || IsSpace(e)
    ensures !s.gameStarted && IsSpace(e) ==> t.direction == s.direction
    ensures (s.gameStarted || !IsSpace(e)) && IsArrow(e.key) ==> t.direction == ArrowDirection(e.key)
    ensures (s.gameStarted || !IsSpace(e)) && !IsArrow(e.key) ==> t == s
  {
    if !s.gameStarted && IsSpace(e) then Started(s)
    else match e.key
      case "ArrowUp" => s.(direction := Up)
      case "ArrowDown" => s.(direction := Down)
      case "ArrowLeft" => s.(direction := Left)
      case "ArrowRight" => s.(direction := Right)
      case _ => s
  }

  // ---------------------------------------------------------------------------
  // The state invariant

  predicate Distinct(cells: seq<Cell>) {
    forall i, j :: 0 <= i < j < |cells| ==> cells[i] != cells[j]
  }

  /**
   * What holds between ticks: a non-empty snake on the board with no cell
   * twice, food on the board, a delay between the floor and the start value,
   * and a high score no larger than the number of cells on the board.
   */
  predicate Consistent(s: GameState) {
    && |s.snake| > 0
    && (forall i :: 0 <= i < |s.snake| ==> InGrid(s.snake[i]))
    && Distinct(s.snake)
    && InGrid(s.food)
    && MinDelay <= s.gameSpeedDelay <= InitialDelay
    && 0 <= s.highScore <= GridSize * GridSize
  }

  /** Numbers the board's cells 0 .. GridSize * GridSize - 1. */
  function CellIndex(c: Cell): int {
    (c.x - 1) * GridSize + (c.y - 1)
  }

  lemma CellIndexInjective(a: Cell, b: Cell)
    requires InGrid(a) && InGrid(b) && a != b
    ensures CellIndex(a) != CellIndex(b)
  {
  }

  /** The numbers 0 .. n - 1, as a set of exactly n elements. */
  function Slots(n: nat): (r: set<int>)
    ensures forall i :: i in r <==> 0 <= i < n
    ensures |r| == n
  {
    if n == 0 then {} else Slots(n - 1) + {n - 1}
  }

  /** Distinct board cells whose numbers all lie in `slots` are at most `|slots|` many. */
  lemma {:induction false} DistinctCellsFit(cells: seq<Cell>, slots: set<int>)
    requires Distinct(cells)
    requires forall i :: 0 <= i < |cells| ==> InGrid(cells[i]) && CellIndex(cells[i]) in slots
    ensures |cells| <= |slots|
  {
    if cells != [] {
      var rest := cells[1..];
      forall i | 0 <= i < |rest|
        ensures InGrid(rest[i]) && CellIndex(rest[i]) in slots - {CellIndex(cells[0])}
      {
        assert rest[i] == cells[i + 1] && cells[i + 1] != cells[0];
        CellIndexInjective(rest[i], cells[0]);
      }
      DistinctCellsFit(rest, slots - {CellIndex(cells[0])});
    }
  }

  /** A consistent snake never holds more cells than the board has. */
  lemma SnakeFitsOnBoard(s: GameState)
    requires Consistent(s)
    ensures |s.snake| <= GridSize * GridSize
  {
    DistinctCellsFit(s.snake, Slots(GridSize * GridSize));
  }

  /** The starting globals satisfy the invariant. */
  lemma InitialIsConsistent(food: Cell)
    requires InGrid(food)
    ensures Consistent(Initial(food))
  {
  }

  /** A tick from a consistent state with food drawn on the board ends in a consistent state. */
  lemma TickKeepsConsistent(s: GameState, newFood: Cell, resetFood: Cell)
    requires Consistent(s) && InGrid(newFood) && InGrid(resetFood)
    ensures Consistent(Ticked(s, newFood, resetFood))
  {
    var m := Moved(s, newFood);
    SnakeFitsOnBoard(s);
    if !Collides(m) {
      assert forall i :: 1 <= i < |m.snake| ==> m.snake[i] == s.snake[i - 1];
    }
  }

  /** Pressing a key keeps a consistent state consistent. */
  lemma KeyPressKeepsConsistent(s: GameState, e: KeyEvent)
    requires Consistent(s)
    ensures Consistent(KeyPressed(s, e))
  {
  }

  // ---------------------------------------------------------------------------
  // Runs of ticks

  /** The state after a run of ticks, each with its two food draws (on eating, on reset). */
  function Play(s: GameState, draws: seq<(Cell, Cell)>): (t: GameState)
    requires |s.snake| > 0
    ensures |t.snake| > 0
    decreases |draws|
  {
    if draws == [] then s else Play(Ticked(s, draws[0].0, draws[0].1), draws[1..])
  }

  /** Every tick of the run lands on the food and none collides. */
  predicate EatsThroughout(s: GameState, draws: seq<(Cell, Cell)>)
    requires |s.snake| > 0
    decreases |draws|
  {
    draws == [] ||
      (Eats(s) && !Collides(Moved(s, draws[0].0))
       && EatsThroughout(Ticked(s, draws[0].0, draws[0].1), draws[1..]))
  }

  /**
   * After N ticks that each eat and none collides, the snake is N cells
   * longer and the delay is the N-fold speed-up, between the floor and where it started.
   */
  lemma {:induction false} EatingRun(s: GameState, draws: seq<(Cell, Cell)>)
    requires |s.snake| > 0 && s.gameSpeedDelay >= MinDelay
    requires EatsThroughout(s, draws)
    ensures |Play(s, draws).snake| == |s.snake| + |draws|
    ensures Play(s, draws).gameSpeedDelay == DelayAfter(s.gameSpeedDelay, |draws|)
    ensures MinDelay <= Play(s, draws).gameSpeedDelay <= s.gameSpeedDelay
    ensures Play(s, draws).highScore == s.highScore
    decreases |draws|
  {
    DelayAfterBounds(s.gameSpeedDelay, |draws|);
    if draws != [] {
      var t := Ticked(s, draws[0].0, draws[0].1);
      assert t == Moved(s, draws[0].0);
      EatingRun(t, draws[1..]);
    }
  }

  /** The high score never goes down over any run of ticks. */
  lemma {:induction false} HighScoreNeverDecreases(s: GameState, draws: seq<(Cell, Cell)>)
    requires |s.snake| > 0
    ensures Play(s, draws).highScore >= s.highScore
    decreases |draws|
  {
    if draws != [] {
      HighScoreNeverDecreases(Ticked(s, draws[0].0, draws[0].1), draws[1..]);
    }
  }

  /** Food drawn on the board keeps every state of a run consistent. */
  lemma {:induction false} PlayKeepsConsistent(s: GameState, draws: seq<(Cell, Cell)>)
    requires Consistent(s)
    requires forall k :: 0 <= k < |draws| ==> InGrid(draws[k].0) && InGrid(draws[k].1)
    ensures Consistent(Play(s, draws))
    decreases |draws|
  {
    if draws != [] {
      TickKeepsConsistent(s, draws[0].0, draws[0].1);
      PlayKeepsConsistent(Ticked(s, draws[0].0, draws[0].1), draws[1..]);
    }
  }

  // ---------------------------------------------------------------------------
  // Reversal: arrow keys are not checked against the current heading

  /** Turning back onto the neck of a snake of three or more cells ends the run. */
  lemma ReversalIntoNeckCollides(s: GameState, newFood: Cell)
    requires |s.snake| >= 3 && NextHead(s) == s.snake[1]
    ensures Collides(Moved(s, newFood))
  {
  }

  /** A two-cell snake can turn back on itself: head and tail swap and nothing collides. */
  lemma ReversalOfTwoCellsSurvives(s: GameState, newFood: Cell)
    requires Consistent(s) && |s.snake| == 2 && NextHead(s) == s.snake[1] && !Eats(s)
    ensures Moved(s, newFood).snake == [s.snake[1], s.snake[0]]
    ensures !Collides(Moved(s, newFood))
  {
  }

  // ---------------------------------------------------------------------------
  // Worked examples

  /** From the start, a tick that misses the food moves the single cell right. */
  lemma FirstTickMovesRight(food: Cell, newFood: Cell, resetFood: Cell)
    requires food != Cell(11, 10)
    ensures Ticked(Initial(food), newFood, resetFood).snake == [Cell(11, 10)]
  {
  }

  /** From the start, food right of the head is eaten: two cells, delay 295. */
  lemma FirstMealGrowsAndSpeedsUp(newFood: Cell, resetFood: Cell)
    ensures Ticked(Initial(Cell(11, 10)), newFood, resetFood).snake == [Cell(11, 10), StartCell]
    ensures Ticked(Initial(Cell(11, 10)), newFood, resetFood).gameSpeedDelay == 295
  {
  }

  // ---------------------------------------------------------------------------
  // The page's game globals, updated in place

  class Game {
    var snake: seq<Cell>
    var food: Cell
    var direction: Direction
    var gameSpeedDelay: int
    var highScore: int
    var gameStarted: bool

    function State(): GameState
      reads this
    {
      GameState(snake, food, direction, gameSpeedDelay, highScore, gameStarted)
    }

    ghost predicate Valid()
      reads this
    {
      Consistent(State())
    }

    /** The globals as the page loads them; `firstFood` is the first food draw. */
    constructor (firstFood: Cell)
      requires InGrid(firstFood)
      ensures State() == Initial(firstFood) && Valid()
    {
      snake := [StartCell];
      food := firstFood;
      highScore := 0;
      direction := Right;
      gameSpeedDelay := InitialDelay;
      gameStarted := false;
    }

    method IncreaseSpeed()
      modifies this`gameSpeedDelay
      ensures gameSpeedDelay == NextDelay(old(gameSpeedDelay))
    {
      if gameSpeedDelay > 200 {
        gameSpeedDelay := gameSpeedDelay - 5;
      } else if gameSpeedDelay > 150 {
        gameSpeedDelay := gameSpeedDelay - 3;
      } else if gameSpeedDelay > 100 {
        gameSpeedDelay := gameSpeedDelay - 2;
      } else if gameSpeedDelay > MinDelay {
        gameSpeedDelay := gameSpeedDelay - 1;
      }
    }

    /** Puts the new head in front; eats and speeds up, or drops the tail. */
    method Move(newFood: Cell)
      requires |snake| > 0
      modifies this`snake, this`food, this`gameSpeedDelay
      ensures State() == Moved(old(State()), newFood)
    {
      var head := Shift(snake[0], direction);
      snake := [head] + snake;
      if head == food {
        food := newFood;
        IncreaseSpeed();
      } else {
        snake := snake[..|snake| - 1];
      }
    }

    method StartGame()
      modifies this`gameStarted
      ensures State() == Started(old(State()))
      ensures old(Valid()) ==> Valid()
    {
      gameStarted := true;
    }

    method StopGame()
      modifies this`gameStarted
      ensures State() == old(State()).(gameStarted := false)
    {
      gameStarted := false;
    }

    /** Raises the high score to the current score when that is larger. */
    method UpdateHighScore()
      modifies this`highScore
      ensures highScore >= old(highScore) && highScore >= |snake| - 1
      ensures highScore == old(highScore) || highScore == |snake| - 1
    {
      var currentScore := |snake| - 1;
      if currentScore > highScore {
        highScore := currentScore;
      }
    }

    method ResetGame(newFood: Cell)
      modifies this
      ensures State() == Reset(old(State()), newFood)
    {
      UpdateHighScore();
      StopGame();
      snake := [StartCell];
      food := newFood;
      direction := Right;
      gameSpeedDelay := InitialDelay;
    }

    /**
     * Resets when the head is off the board or on a later cell. The loop reads
     * the length after any reset, so at most one reset happens (`resets`).
     */
    method CheckCollision(resetFood: Cell) returns (ghost resets: nat)
      requires |snake| > 0
      modifies this
      ensures State() == Checked(old(State()), resetFood)
      ensures resets == if Collides(old(State())) then 1 else 0
    {
      var head := snake[0];
      resets := 0;
      if !InGrid(head) {
        ResetGame(resetFood);
        resets := resets + 1;
      }
      var i := 1;
      while i < |snake|
        invariant 1 <= i && resets <= 1
        invariant resets == 0 ==> State() == old(State()) && InGrid(head) && i <= |snake|
        invariant resets == 0 ==> forall j :: 1 <= j < i ==> snake[j] != head
        invariant resets == 1 ==> State() == Reset(old(State()), resetFood) && Collides(old(State()))
      {
        if head == snake[i] {
          ResetGame(resetFood);
          resets := resets + 1;
        }
        i := i + 1;
      }
    }

    /** One timer tick: `move` then `checkCollision`. */
    method Tick(newFood: Cell, resetFood: Cell)
      requires Valid() && InGrid(newFood) && InGrid(resetFood)
      modifies this
      ensures Valid()
      ensures State() == Ticked(old(State()), newFood, resetFood)
    {
      TickKeepsConsistent(State(), newFood, resetFood);
      Move(newFood);
      var _ := CheckCollision(resetFood);
    }

    /** Space starts an idle game; otherwise an arrow key sets the direction. */
    method HandleKeyPress(e: KeyEvent)
      modifies this`gameStarted, this`direction
      ensures State() == KeyPressed(old(State()), e)
      ensures old(Valid()) ==> Valid()
    {
      if Valid() {
        KeyPressKeepsConsistent(State(), e);
      }
      if !gameStarted && (e.code == "Space" || e.code == " ") {
        StartGame();
      } else {
        match e.key {
          case "ArrowUp" => direction := Up;
          case "ArrowDown" => direction := Down;
          case "ArrowLeft" => direction := Left;
          case "ArrowRight" => direction := Right;
          case _ =>
        }
      }
    }
  }
}

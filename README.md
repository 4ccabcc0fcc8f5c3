# Snake game with a local account gate — a Dafny model

This project models the logic of `scripts/script.js`, a browser Snake game
with a register/login form in front of it. The DOM, the timers and the
browser storage are taken away. Two pieces remain:

- **Accounts** (`accounts.dfy`, module `Accounts`). The stored users are a
  `seq<User>`. `AccountStore` holds that list and the current user.
  `addUser` appends a record whose id is one more than the last record's id.
  `registerUser` checks its fields in a fixed order and adds a user only when
  every check passes. `validateLogin` checks in a fixed order and makes the
  first record with exactly matching name and password current.
  `setCurrentUser` looks a record up by id. The searches that the page does
  with `find`, `filter(...)[0]` and `some` are one function, `FirstWhere`.
- **The game** (`snake_game.dfy`, module `SnakeGame`). `GameState` is the
  value of the page's game globals: `snake` (head first), `food`,
  `direction`, `gameSpeedDelay`, `highScore` and `gameStarted`. Pure
  functions say what `move`, `checkCollision`, `resetGame`, `startGame` and
  `handleKeyPress` do to that value. Class `Game` keeps the globals as
  fields and updates them in place. Each method's ensures give the whole
  new state, most of them as the matching function.
- **The page** (`app.dfy`, module `App`) joins the two. A successful login
  makes the user current and starts the game.

Main results:

- `Consistent` is the state invariant between ticks. It requires a
  non-empty snake on the board with no cell twice, food on the board, a
  delay in [50, 300], and a high score between 0 and 400. Every tick and
  every key press keeps it (`TickKeepsConsistent`, `PlayKeepsConsistent`).
  A snake therefore never holds more cells than the board
  (`SnakeFitsOnBoard`).
- A run of ticks that each eat grows the snake by one cell per tick. The
  delay over such a run never rises and never goes below 50 (`EatingRun`).
  The high score never decreases over any run (`HighScoreNeverDecreases`).
- The collision check resets exactly when the head is off the board or on
  a later cell, and it resets at most once. The loop bound is read after a
  reset, and a reset leaves one cell (`Game.CheckCollision`).
- Arrow keys are not checked against the current heading. A reversal into
  the neck of a snake of three or more cells is a collision. A two-cell
  snake can reverse without colliding.
- Registration never stores a second record under an existing name. When
  the stored ids increase, new ids keep them increasing. This treats ids
  as exact integers, while the page's ids are exact only below 2^53 (see
  "## Left out"). Every id then belongs to exactly one user, so a lookup
  by id finds that user.

Two details of the code:

- `addUser` gives the **last** record's id + 1. That equals the largest
  id + 1 only when ids increase along the list (`NextIdIsMaxPlusOne`,
  `NextIdCanRepeatAnId`). JavaScript's `|| 1` also turns a sum of 0 into 1.
- `startGame` only sets the running flag. It does not reset the snake,
  direction or delay. Only `resetGame` does that.

## Model

| member | source | states |
|---|---|---|
| `Accounts.FirstWhere` | scripts/script.js:133 | the result is the index of the first record satisfying the predicate; it is None exactly when no record does |
| `Accounts.NextId` | scripts/script.js:51 | the new id is never 0; it is 1 for an empty store; it is greater than the last record's id, equal to that id + 1 unless that sum is 0, and 1 when the last id is −1 |
| `Accounts.MaxId` | scripts/script.js:51 | the largest id: at least every id, and equal to one of them |
| `Accounts.NextIdIsMaxPlusOne` | scripts/script.js:51 | when ids increase along the list, last id + 1 equals largest id + 1 |
| `Accounts.NextIdCanRepeatAnId` | scripts/script.js:51 | with an out-of-order seed list, the new id repeats an existing id and differs from largest id + 1 |
| `Accounts.NameTaken` | scripts/script.js:83 | true exactly when some record has that exact name |
| `Accounts.FindCredentials` | scripts/script.js:133 | None exactly when no record matches name and password; otherwise the first matching record |
| `Accounts.FindById` | scripts/script.js:57-60 | None (the page's `{}`) exactly when no record has the id; otherwise the first record with it |
| `Accounts.FindByIdFindsTheOwner` | scripts/script.js:57-60 | with unique ids, looking up a record's id returns that record |
| `Accounts.RegisterCheck` | scripts/script.js:78-93 | the four outcomes in the source's order, each with its exact condition: an empty field; else a taken name; else a password mismatch; else success |
| `Accounts.Added` | scripts/script.js:43-55 | one record is appended at the end with id `NextId`, and the earlier records are unchanged |
| `Accounts.AfterRegister` | scripts/script.js:83-93 | the list grows by exactly one record on success and is unchanged otherwise; earlier records are kept; the added record has a name not taken before and id `NextId` |
| `Accounts.AddedKeepsIdsIncreasing` | scripts/script.js:43-55 | appending keeps the ids strictly increasing along the list |
| `Accounts.RegisterKeepsNamesUnique` | scripts/script.js:83-88 | if names were unique before a registration, they are unique after it |
| `Accounts.LoginCheck` | scripts/script.js:113-139 | in the source's order: empty username, empty password, unchecked box; success exactly when some record matches name and password, and then the user is the first match |
| `Accounts.AccountStore.constructor` | scripts/script.js:34-39 | the store starts as the seed list, with no current user |
| `Accounts.AccountStore.AddUser` | scripts/script.js:43-55 | the list becomes the old list plus one record with the next id |
| `Accounts.AccountStore.RegisterUser` | scripts/script.js:70-95 | reports `RegisterCheck`; adds the user exactly on success; a failure leaves the list unchanged |
| `Accounts.AccountStore.Authenticate` | scripts/script.js:132-140 | reports `LoginCheck`; the matched record becomes current on success; a failure leaves the current user unchanged |
| `Accounts.AccountStore.SetCurrentUser` | scripts/script.js:57-60 | the current user becomes the first record with the id, or none; a found user is in the list and has that id |
| `App.Page.constructor` | scripts/script.js:19-29 | the page starts with the seed accounts, no current user and the initial game state |
| `App.Page.ValidateLogin` | scripts/script.js:101-149 | reports `LoginCheck`; on success the matched user becomes current and the game starts; on failure neither changes; the records are never changed; the game's state invariant is kept |
| `SnakeGame.Shift` | scripts/script.js:194-208 | the new head differs from the old head by one unit in exactly one coordinate; `x` stays the same exactly for up and down |
| `SnakeGame.ShiftOpposite` | scripts/script.js:194-208 | a move in the opposite direction undoes a move |
| `SnakeGame.NextDelay` | scripts/script.js:273-283 | the delay never rises; it falls exactly when it is above 50; it never falls below 50 from 50 or more; the step is 0, 1, 2, 3 or 5, and it is 5 exactly above 200 |
| `SnakeGame.NextDelayFromInitial` | scripts/script.js:274-275 | the first speed-up takes 300 to 295 |
| `SnakeGame.DelayAfterBounds` | scripts/script.js:273-283 | any number of speed-ups from at least 50 stays between 50 and the start value |
| `SnakeGame.Moved` | scripts/script.js:193-226 | the length grows by one on food and is unchanged otherwise; the head is the old head shifted in the direction; the rest is an in-order prefix of the old snake; on food the food is replaced and the delay sped up, otherwise both are kept |
| `SnakeGame.Reset` | scripts/script.js:299-307 | snake [{10,10}], new food, direction right, delay 300, stopped; high score = max(old high score, length − 1) |
| `SnakeGame.Checked` | scripts/script.js:285-297 | no collision leaves the state unchanged; a collision gives the one-cell start snake, the new food, a stopped game and a high score at least the current score; the high score never drops |
| `SnakeGame.Ticked` | scripts/script.js:240-244 | a tick (move, then collision check) leaves a non-empty snake and never lowers the high score |
| `SnakeGame.Started` | scripts/script.js:233-245 | the game is running and every other global is unchanged |
| `SnakeGame.KeyPressed` | scripts/script.js:247-268 | space starts an idle game and changes nothing else; otherwise an arrow key sets that direction whatever the heading; any other key, and space while running, change nothing |
| `SnakeGame.Initial` | scripts/script.js:22-29 | a single on-board cell with score 0, the given food, direction right, delay 300, high score 0, not started |
| `SnakeGame.InitialIsConsistent` | scripts/script.js:22-29 | the page's initial globals satisfy the state invariant |
| `SnakeGame.TickKeepsConsistent` | scripts/script.js:285-297 | a tick keeps the invariant: the snake stays on the board with distinct cells and the high score stays within the board size |
| `SnakeGame.KeyPressKeepsConsistent` | scripts/script.js:247-268 | a key press keeps the state invariant |
| `SnakeGame.CellIndexInjective` | scripts/script.js:288 | distinct board cells get distinct numbers |
| `SnakeGame.DistinctCellsFit` | scripts/script.js:288 | distinct board cells numbered within a set number at most its size |
| `SnakeGame.SnakeFitsOnBoard` | scripts/script.js:285-297 | a consistent snake has at most 20 × 20 cells (counted by numbering the board's cells into `Slots`, the set 0 .. 399) |
| `SnakeGame.Play` | scripts/script.js:218-222 | a run of ticks always leaves a non-empty snake |
| `SnakeGame.EatingRun` | scripts/script.js:210-222 | after N ticks that each eat without colliding, the snake is N longer, the delay is the N-fold speed-up between 50 and its start value, and the high score is unchanged |
| `SnakeGame.HighScoreNeverDecreases` | scripts/script.js:338-345 | the high score after any run of ticks is at least the one before |
| `SnakeGame.PlayKeepsConsistent` | scripts/script.js:240-244 | with food drawn on the board, every run of ticks keeps the state invariant |
| `SnakeGame.ReversalIntoNeckCollides` | scripts/script.js:253-266 | turning back onto the neck of a snake of three or more cells is a collision, whether or not food is there |
| `SnakeGame.ReversalOfTwoCellsSurvives` | scripts/script.js:292-296 | a two-cell snake turning back without food swaps head and tail and does not collide |
| `SnakeGame.FirstTickMovesRight` | scripts/script.js:193-225 | from the start, a tick without food gives the snake [{11,10}] |
| `SnakeGame.FirstMealGrowsAndSpeedsUp` | scripts/script.js:210-222 | from the start with food at {11,10}, a tick gives [{11,10},{10,10}] and delay 295 |
| `SnakeGame.Game.constructor` | scripts/script.js:22-29 | the globals start at snake [{10,10}], direction right, delay 300, high score 0, not started; the invariant holds |
| `SnakeGame.Game.IncreaseSpeed` | scripts/script.js:273-283 | the delay becomes `NextDelay` of the old delay |
| `SnakeGame.Game.Move` | scripts/script.js:193-226 | the in-place update leaves exactly the state `Moved` describes |
| `SnakeGame.Game.StartGame` | scripts/script.js:233-245 | only the running flag changes, and it becomes true; the state invariant is kept |
| `SnakeGame.Game.StopGame` | scripts/script.js:315-321 | only the running flag changes, and it becomes false |
| `SnakeGame.Game.UpdateHighScore` | scripts/script.js:338-345 | the high score becomes the larger of itself and the current score |
| `SnakeGame.Game.ResetGame` | scripts/script.js:299-307 | the state becomes `Reset` of the old state |
| `SnakeGame.Game.CheckCollision` | scripts/script.js:285-297 | the state becomes `Reset` of the old state exactly when the head is off the board or on a later cell, and is unchanged otherwise; at most one reset happens |
| `SnakeGame.Game.Tick` | scripts/script.js:240-244 | a tick leaves the state `Ticked` describes and keeps the invariant |
| `SnakeGame.Game.HandleKeyPress` | scripts/script.js:247-268 | the state becomes what `KeyPressed` describes; the state invariant is kept |

## Left out

- Rendering (`draw`, `drawSnake`, `drawFood`, `createGameElement`, `setPosition`, `clearGameBoard`, `updateScore`), form toggling (`toggleForms`, `toggleFormDivs`) and every `style.display` / `textContent` write. These are display side effects with no logic. The messages that the validators write are kept as `Message()` on the outcome types.
- `validateLogin` shows the game area before its checks run. That is a display effect and is not modelled.
- `localStorage` and JSON encoding in `getUsers` and `addUser`. The store is a `seq<User>` that starts as an arbitrary seed list. `users.js`, which supplies that list, is not part of this model.
- The `setInterval` / `clearInterval` timers. One tick is one call of `Tick`. Restarting the timer after a meal matters only through the new `gameSpeedDelay`. A second `startGame` would add a second timer; this is not modelled. The `draw` that follows each tick is not modelled.
- `Math.random` in `generateFood` is floating point. Each food draw is a cell that the caller supplies. It is required to lie on the board, as `generateFood` guarantees. Nothing keeps it off the snake.
- `padStart` formatting of the score and high score. The score is `Score`, which is length − 1.
- JavaScript's loose typing. Ids are integers and names and passwords are strings. The source does not check this for records that come from the seed list.
- `Accounts.NextId`: ids are JavaScript numbers (doubles), so the page's `id + 1` is exact only below 2^53. The model's unbounded `int` ignores the rounding above that. For example, a last id of 2^53 makes the page reissue that same id, while `NextId` gives 2^53 + 1.
- `Accounts.AddedKeepsIdsIncreasing`: holds for exact integer ids only. On the page it fails once the last id reaches 2^53, because `id + 1` rounds back to that id.

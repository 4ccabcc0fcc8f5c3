/**
 * The page that ties the account gate to the game: a successful login makes
 * the matched user current and starts the game.
 */
module App {
  import Accounts
  import SnakeGame

  class Page {
    const store: Accounts.AccountStore
    const game: SnakeGame.Game

    /** The page as loaded: the seed accounts, nobody logged in, the game idle. */
    constructor (seed: seq<Accounts.User>, firstFood: SnakeGame.Cell)
      requires SnakeGame.InGrid(firstFood)
      ensures store.users == seed && store.currentUser == Accounts.None
      ensures game.State() == SnakeGame.Initial(firstFood) && game.Valid()
    {
      store := new Accounts.AccountStore(seed);
      game := new SnakeGame.Game(firstFood);
    }

    /**
     * `validateLogin`: reports the first failing check, or makes the matched
     * record current and starts the game. The record list is not changed.
     */
    method ValidateLogin(userName: string, passWord: string, question: bool) returns (r: Accounts.LoginResult)
      modifies store, game
      ensures r == Accounts.LoginCheck(store.users, userName, passWord, question)
      ensures store.users == old(store.users)
      ensures r.LoggedIn? ==> store.currentUser == Accounts.Some(r.user)
                              && game.State() == SnakeGame.Started(old(game.State()))
      ensures !r.LoggedIn? ==> store.currentUser == old(store.currentUser)
                               && game.State() == old(game.State())
      ensures old(game.Valid()) ==> game.Valid()
    {
      r := store.Authenticate(userName, passWord, question);
      if r.LoggedIn? {
        game.StartGame();
      }
    }
  }
}

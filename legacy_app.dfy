/**
 * The earlier application of r2048/src/app.rs: the same menu as EventsApp,
 * but the board is a plain 4x4 array owned by the application, there is no
 * playing screen of its own (every screen but the menu only reacts to the
 * quit keys) and key events are handled whatever their kind.
 */
module LegacyApp {
  import opened GridSpec
  import GameLogic
  import opened Keys

  /** The screens of this application. */
  datatype State = Menu | Playing | Done

  /** The reaction to a key event: the menu's, or else only the quit keys'. */
  function KeyReaction(state: State, selected: nat, e: KeyEvent): Reaction
  {
    match state
    case Menu => MenuReaction(e, selected)
    case _ => QuitKeysReaction(e)
  }

  /**
   * Unlike the newer application, a key repeat or release acts like a
   * press, and no key moves the board or returns to the menu.
   */
  lemma ReactsToEveryKind(state: State, selected: nat, e: KeyEvent, kind: KeyEventKind)
    ensures KeyReaction(state, selected, e) == KeyReaction(state, selected, e.(kind := kind))
    ensures !KeyReaction(state, selected, e).Play?
    ensures KeyReaction(state, selected, e) != BackToMenu
  {
  }

  /** A game starts only from the menu, on e or E with the first button highlighted. */
  lemma StartsOnlyFromMenu(state: State, selected: nat, e: KeyEvent)
    ensures KeyReaction(state, selected, e) == StartGame <==>
      state == Menu && IsEnterKey(e.code) && selected == 0
  {
  }

  class App {
    /** Whether the main loop goes on. */
    var running: bool
    var state: State
    /** The highlighted menu button: 0 plays, 1 quits. */
    var selectedButton: nat
    /** The board, row by row. */
    const board: array2<nat>
    /** The events queued on the event handler, oldest first. */
    var sent: seq<AppEvent>

    /**
     * The board has four rows of four cells, and while the menu is shown
     * it is still empty: the board is only written when the menu is left.
     */
    ghost predicate Valid()
      reads this, board
    {
      board.Length0 == 4 && board.Length1 == 4 &&
      (state == Menu ==> GameLogic.GridOf(board) == EmptyGrid())
    }

    ghost function Grid(): Grid
      reads this, board
      requires Valid()
    {
      GameLogic.GridOf(board)
    }

    /** App::default: running, on the menu, first button, an all-zero board, nothing queued. */
    constructor ()
      ensures Valid() && fresh(board)
      ensures running && state == Menu && selectedButton == 0 && sent == []
      ensures Grid() == EmptyGrid()
    {
      running := true;
      state := Menu;
      selectedButton := 0;
      board := new nat[4, 4]((r, c) => 0);
      sent := [];
      new;
      assert forall r :: 0 <= r < 4 ==> GameLogic.GridOf(board)[r] == EmptyGrid()[r];
    }

    /**
     * App::init_board: writes 2 into the two sampled positions first and
     * second without clearing the rest of the board.
     */
    method InitBoard(first: Pos, second: Pos)
      requires board.Length0 == 4 && board.Length1 == 4
      requires OnBoard(first) && OnBoard(second) && first != second
      modifies board
      ensures GameLogic.GridOf(board) == SeedOnto(old(GameLogic.GridOf(board)), first, second)
    {
      ghost var g0 := GameLogic.GridOf(board);
      var chosen := [first, second];
      ghost var g1 := SetCell(g0, first.0, first.1, 2);
      for t := 0 to 2
        invariant GameLogic.GridOf(board) == (if t == 0 then g0 else if t == 1 then g1 else SeedOnto(g0, first, second))
      {
        var (row, col) := chosen[t];
        board[row, col] := 2;
        CellwiseEqual(GameLogic.GridOf(board), if t == 0 then g1 else SeedOnto(g0, first, second));
      }
    }

    /**
     * App::handle_key_event. The random choice of init_board (the two
     * sampled positions first and second) is a parameter. Because the board is
     * empty while the menu is shown, a started game holds exactly the two
     * seeded tiles, as in the newer application, which clears explicitly.
     */
    method HandleKeyEvent(e: KeyEvent, first: Pos, second: Pos)
      requires Valid() && OnBoard(first) && OnBoard(second) && first != second
      modifies this, board
      ensures Valid() && running == old(running)
      ensures old(selectedButton) <= 1 ==> selectedButton <= 1
      ensures var r := KeyReaction(old(state), old(selectedButton), e);
        && sent == old(sent) + (if r == SendQuit then [AppEvent.Quit] else [])
        && selectedButton == (if r.Select? then r.button else old(selectedButton))
        && state == (if r == StartGame then Playing else old(state))
        && Grid() == (if r == StartGame then Seeded(first, second) else old(Grid()))
    {
      match state {
        case Menu =>
          if e.code == Esc || e.code == Char('q') {
            sent := sent + [AppEvent.Quit];
          } else if e.code == Char('c') && e.controlOnly {
            sent := sent + [AppEvent.Quit];
          } else if e.code == KeyCode.Left || e.code == Char('h') {
            if selectedButton > 0 {
              selectedButton := selectedButton - 1;
            }
          } else if e.code == KeyCode.Right || e.code == Char('l') {
            if selectedButton < 1 {
              selectedButton := selectedButton + 1;
            }
          } else if e.code == Char('e') || e.code == Char('E') {
            if selectedButton == 0 {
              state := Playing;
              InitBoard(first, second);
            } else if selectedButton == 1 {
              sent := sent + [AppEvent.Quit];
            }
          }
        case _ =>
          if e.code == Esc || e.code == Char('q') {
            sent := sent + [AppEvent.Quit];
          } else if e.code == Char('c') && e.controlOnly {
            sent := sent + [AppEvent.Quit];
          }
      }
    }

    /** App::quit: the main loop stops; nothing else changes. */
    method Quit()
      modifies this
      ensures !running
      ensures state == old(state) && selectedButton == old(selectedButton) && sent == old(sent)
    {
      running := false;
    }
  }
}

/**
 * The application of src/events/app.rs: a menu with two buttons (play and
 * quit), a playing screen driving a GameLogic.Board, and the end screens.
 * Quit requests are queued on the event handler, modelled by the sequence
 * of events sent so far.
 */
module EventsApp {
  import opened GridSpec
  import opened GameLogic
  import opened Keys

  /**
   * The reaction of the application to a key event: only presses count,
   * and the screen decides which keys mean what.
   */
  function KeyReaction(state: State, selected: nat, e: KeyEvent): Reaction
  {
    if e.kind != Press then Ignore
    else match state
      case Menu => MenuReaction(e, selected)
      case Playing => PlayingReaction(e)
      case _ => QuitKeysReaction(e)
  }

  /** A game starts exactly from the menu, on a press of e or E with the first button highlighted. */
  lemma StartsOnlyFromFirstButton(state: State, selected: nat, e: KeyEvent)
    ensures KeyReaction(state, selected, e) == StartGame <==>
      state == Menu && e.kind == Press && IsEnterKey(e.code) && selected == 0
  {
  }

  /** The board moves exactly on a press of an arrow key while playing. */
  lemma MovesOnlyWhilePlaying(state: State, selected: nat, e: KeyEvent, d: Direction)
    ensures KeyReaction(state, selected, e) == Play(d) <==>
      state == Playing && e.kind == Press && e.code == ArrowOf(d)
  {
    if state == Playing && e.kind == Press {
      PlayingArrowsMove(e, d);
    }
  }

  /**
   * A quit request is sent exactly on a press of Esc, q or Ctrl+C outside
   * the playing screen, or of e/E on the second menu button.
   */
  lemma QuitRequests(state: State, selected: nat, e: KeyEvent)
    ensures KeyReaction(state, selected, e) == SendQuit <==>
      e.kind == Press && state != Playing &&
      (IsQuitKey(e.code) || IsCtrlC(e) || (state == Menu && IsEnterKey(e.code) && selected == 1))
  {
  }

  class App {
    /** Whether the main loop goes on. */
    var running: bool
    var state: State
    /** The highlighted menu button: 0 plays, 1 quits. */
    var selectedButton: nat
    const board: Board
    /** The events queued on the event handler, oldest first. */
    var sent: seq<AppEvent>

    ghost predicate Valid()
    {
      board.Valid()
    }

    /** App::default: running, on the menu, first button, an empty board, nothing queued. */
    constructor ()
      ensures Valid() && fresh(board) && fresh(board.cells)
      ensures running && state == Menu && selectedButton == 0 && sent == []
      ensures board.Grid() == EmptyGrid() && board.highScore == 0
      ensures GridTiles(board.Grid())
    {
      running := true;
      state := Menu;
      selectedButton := 0;
      board := new Board();
      sent := [];
    }

    /**
     * App::handle_key_event. The random choices of init_board (the two
     * sampled positions first and second) and of spawn_one_random (pick
     * and four) are parameters. Each arm of the match on the screen is a
     * method of its own.
     */
    method HandleKeyEvent(e: KeyEvent, first: Pos, second: Pos, pick: nat, four: bool)
      requires Valid() && OnBoard(first) && OnBoard(second) && first != second
      modifies this, board.cells
      ensures Valid() && running == old(running)
      ensures old(selectedButton) <= 1 ==> selectedButton <= 1
      ensures var r := KeyReaction(old(state), old(selectedButton), e);
        && sent == old(sent) + (if r == SendQuit then [AppEvent.Quit] else [])
        && selectedButton == (if r.Select? then r.button else old(selectedButton))
        && state == (if r == StartGame then Playing else if r == BackToMenu then Menu else old(state))
      ensures var r := KeyReaction(old(state), old(selectedButton), e);
        r == StartGame ==> board.Grid() == Seeded(first, second)
      ensures var r := KeyReaction(old(state), old(selectedButton), e);
        r.Play? ==> board.Grid() == Spawned(Move(old(board.Grid()), r.d), pick, four)
      ensures var r := KeyReaction(old(state), old(selectedButton), e);
        r != StartGame && !r.Play? ==> board.Grid() == old(board.Grid())
      ensures GridTiles(old(board.Grid())) ==> GridTiles(board.Grid())
    {
      if e.kind != Press {
        return;
      }
      match state {
        case Menu =>
          HandleMenuKey(e, first, second);
          assert KeyReaction(old(state), old(selectedButton), e) == MenuReaction(e, old(selectedButton));
          MenuNeverMoves(e, old(selectedButton));
          if MenuReaction(e, old(selectedButton)) == StartGame {
            SeededHasTwoTiles(first, second);
          }
        case Playing =>
          HandlePlayingKey(e, pick, four);
          assert KeyReaction(old(state), old(selectedButton), e) == PlayingReaction(e);
        case _ =>
          HandleQuitKeys(e);
          assert KeyReaction(old(state), old(selectedButton), e) == QuitKeysReaction(e);
      }
    }

    /** The menu arm of App::handle_key_event. */
    method HandleMenuKey(e: KeyEvent, first: Pos, second: Pos)
      requires Valid() && state == Menu && OnBoard(first) && OnBoard(second) && first != second
      modifies this, board.cells
      ensures running == old(running)
      ensures var r := MenuReaction(e, old(selectedButton));
        && sent == old(sent) + (if r == SendQuit then [AppEvent.Quit] else [])
        && selectedButton == (if r.Select? then r.button else old(selectedButton))
        && state == (if r == StartGame then Playing else Menu)
        && board.Grid() == (if r == StartGame then Seeded(first, second) else old(board.Grid()))
    {
      if e.code == Esc || e.code == Char('q') {
        sent := sent + [AppEvent.Quit];
      } else if e.code == Char('c') && e.controlOnly {
        sent := sent + [AppEvent.Quit];
      } else if e.code == KeyCode.Left || e.code == Char('h') {
        if selectedButton > 0 {
          selectedButton := selectedButton - 1;
        }
      } else if e.code == KeyCode.Right || e.code == Char('l') {
        if selectedButton < 1 {
          selectedButton := selectedButton + 1;
        }
      } else if e.code == Char('e') || e.code == Char('E') {
        if selectedButton == 0 {
          state := Playing;
          board.InitBoard(first, second);
        } else if selectedButton == 1 {
          sent := sent + [AppEvent.Quit];
        }
      }
    }

    /** The playing arm of App::handle_key_event. */
    method HandlePlayingKey(e: KeyEvent, pick: nat, four: bool)
      requires Valid() && state == Playing
      modifies this, board.cells
      ensures running == old(running) && sent == old(sent) && selectedButton == old(selectedButton)
      ensures state == (if PlayingReaction(e) == BackToMenu then Menu else Playing)
      ensures PlayingReaction(e).Play? ==>
        board.Grid() == Spawned(Move(old(board.Grid()), PlayingReaction(e).d), pick, four)
      ensures !PlayingReaction(e).Play? ==> board.Grid() == old(board.Grid())
      ensures GridTiles(old(board.Grid())) ==> GridTiles(board.Grid())
    {
      if e.code == KeyCode.Down {
        assert PlayingReaction(e) == Play(Direction.Down);
        PlayTurn(Direction.Down, pick, four);
      } else if e.code == KeyCode.Up {
        assert PlayingReaction(e) == Play(Direction.Up);
        PlayTurn(Direction.Up, pick, four);
      } else if e.code == KeyCode.Right {
        assert PlayingReaction(e) == Play(Direction.Right);
        PlayTurn(Direction.Right, pick, four);
      } else if e.code == KeyCode.Left {
        assert PlayingReaction(e) == Play(Direction.Left);
        PlayTurn(Direction.Left, pick, four);
      } else if e.code == Esc || e.code == Char('q') {
        state := Menu;
      }
    }

    /** The arm of App::handle_key_event for every other screen: only the quit keys act. */
    method HandleQuitKeys(e: KeyEvent)
      modifies this
      ensures running == old(running) && state == old(state) && selectedButton == old(selectedButton)
      ensures sent == old(sent) + (if QuitKeysReaction(e) == SendQuit then [AppEvent.Quit] else [])
    {
      if e.code == Esc || e.code == Char('q') {
        sent := sent + [AppEvent.Quit];
      } else if e.code == Char('c') && e.controlOnly {
        sent := sent + [AppEvent.Quit];
      }
    }

    /**
     * The body shared by the four arrow arms of the playing screen: the
     * move of direction d, then spawn_one_random, whether or not the move
     * changed anything.
     */
    method PlayTurn(d: Direction, pick: nat, four: bool)
      requires Valid()
      modifies board.cells
      ensures board.Grid() == Spawned(Move(old(board.Grid()), d), pick, four)
      ensures GridTiles(old(board.Grid())) ==> GridTiles(board.Grid())
    {
      ghost var g0 := board.Grid();
      match d {
        case Down => board.MoveAllDown();
        case Up => board.MoveAllUp();
        case Right => board.MoveAllRight();
        case Left => board.MoveAllLeft();
      }
      board.SpawnOneRandom(pick, four);
      if GridTiles(g0) {
        TurnKeepsTilesAndScore(g0, d, pick, four);
      }
    }

    /** App::quit: the main loop stops; nothing else changes. */
    method Quit()
      modifies this
      ensures !running
      ensures state == old(state) && selectedButton == old(selectedButton) && sent == old(sent)
    {
      running := false;
    }
  }
}

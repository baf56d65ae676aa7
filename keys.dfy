/**
 * Key events as both applications receive them from the terminal, and the
 * reaction each screen has to a key. The two applications share the menu
 * screen and the quit keys; only the newer one has a playing screen that
 * moves the board.
 */
module Keys {
  import GridSpec

  /** The key codes the applications tell apart; every other code is Other. */
  datatype KeyCode = Esc | Left | Right | Up | Down | Char(c: char) | Other

  /** Whether the key went down, repeats or went up. */
  datatype KeyEventKind = Press | Repeat | Release

  /** A key event; controlOnly holds when the modifiers are exactly CONTROL. */
  datatype KeyEvent = KeyEvent(code: KeyCode, controlOnly: bool, kind: KeyEventKind)

  /** The events an application sends to its own event handler. */
  datatype AppEvent = Quit

  /** What a key asks the application to do. */
  datatype Reaction =
    | SendQuit                          // queue AppEvent::Quit
    | Select(button: nat)               // highlight this menu button
    | StartGame                         // switch to Playing and seed the board
    | Play(d: GridSpec.Direction)       // move the board, then spawn a tile
    | BackToMenu                        // switch to Menu
    | Ignore

  predicate IsQuitKey(code: KeyCode)
  {
    code == Esc || code == Char('q')
  }

  predicate IsCtrlC(e: KeyEvent)
  {
    e.code == Char('c') && e.controlOnly
  }

  predicate IsEnterKey(code: KeyCode)
  {
    code == Char('e') || code == Char('E')
  }

  /** The arrow key that moves the board in direction d. */
  function ArrowOf(d: GridSpec.Direction): KeyCode
  {
    match d
    case Up => Up
    case Down => Down
    case Left => Left
    case Right => Right
  }

  /**
   * The menu screen: Esc, q and Ctrl+C quit; Left/h and Right/l move the
   * highlight between buttons 0 and 1 without leaving that range; e/E
   * starts a game on button 0 and quits on button 1.
   */
  function MenuReaction(e: KeyEvent, selected: nat): Reaction
  {
    if IsQuitKey(e.code) || IsCtrlC(e) then SendQuit
    else if e.code == Left || e.code == Char('h') then
      Select(if selected > 0 then selected - 1 else selected)
    else if e.code == Right || e.code == Char('l') then
      Select(if selected < 1 then selected + 1 else selected)
    else if IsEnterKey(e.code) then
      (if selected == 0 then StartGame else if selected == 1 then SendQuit else Ignore)
    else Ignore
  }

  /** The playing screen: an arrow moves the board; Esc and q go back to the menu. */
  function PlayingReaction(e: KeyEvent): Reaction
  {
    match e.code
    case Down => Play(GridSpec.Down)
    case Up => Play(GridSpec.Up)
    case Right => Play(GridSpec.Right)
    case Left => Play(GridSpec.Left)
    case _ => if IsQuitKey(e.code) then BackToMenu else Ignore
  }

  /** Every other screen: only Esc, q and Ctrl+C do something, and they quit. */
  function QuitKeysReaction(e: KeyEvent): Reaction
  {
    if IsQuitKey(e.code) || IsCtrlC(e) then SendQuit else Ignore
  }

  /**
   * The menu keeps the highlight on one of its two buttons, and each key
   * moves it by at most one.
   */
  lemma MenuSelectionStaysOnButtons(e: KeyEvent, selected: nat)
    requires selected <= 1
    ensures MenuReaction(e, selected).Select? ==>
      MenuReaction(e, selected).button <= 1 &&
      -1 <= MenuReaction(e, selected).button - selected <= 1
  {
  }

  /** In the menu, exactly the arrows and h/l change the highlight, each in its own direction. */
  lemma MenuArrowsSelect(e: KeyEvent, selected: nat)
    requires selected <= 1
    ensures (e.code == Left || e.code == Char('h')) <==> MenuReaction(e, selected) == Select(0)
    ensures (e.code == Right || e.code == Char('l')) <==> MenuReaction(e, selected) == Select(1)
  {
  }

  /** The menu never moves the board and never goes back to itself. */
  lemma MenuNeverMoves(e: KeyEvent, selected: nat)
    ensures !MenuReaction(e, selected).Play? && MenuReaction(e, selected) != BackToMenu
  {
  }

  /** On the playing screen exactly the arrow key of direction d moves the board in direction d. */
  lemma PlayingArrowsMove(e: KeyEvent, d: GridSpec.Direction)
    ensures PlayingReaction(e) == Play(d) <==> e.code == ArrowOf(d)
  {
  }

  /** The playing screen never quits: Ctrl+C is ignored there, and Esc or q only leave the game. */
  lemma PlayingNeverQuits(e: KeyEvent)
    ensures PlayingReaction(e) != SendQuit
    ensures IsCtrlC(e) ==> PlayingReaction(e) == Ignore
    ensures PlayingReaction(e) == BackToMenu <==> IsQuitKey(e.code)
  {
  }
}

/** Files one pass over the shipped keymap is not enough for. */
module KeymapTable {
  import opened Options
  import opened KeymapModel
  import opened KeymapSafety
  import opened KeymapShipped

  /** {"sidebar.new_session": ["d"], "sidebar.delete": ["e"]} */
  const TWO_MOVES: User := map[Action(Sidebar, NewSession) := [Char('d')], Action(Sidebar, Delete) := [Char('e')]]

  lemma OneMoveClashes()
    ensures var o := Overlay(SidebarRows(), TWO_MOVES);
            HoldsKey(o, 1, Char('d')) && !Restored(o, 1) && Restored(o, 6) && SidebarRows()[6] == Row(Sidebar, Delete, [Char('d')])
  {
    var o := Overlay(SidebarRows(), TWO_MOVES);
    assert HoldsKey(o, 5, Char('e')) && HoldsKey(o, 6, Char('e'));
    assert InClash(o, 6);
    forall i | HoldsKey(o, i, Char('d')) ensures i == 1 {
      assert o[i].keys == [o[i].keys[0]];
    }
  }

  /** Delete goes back to d, which new_session kept. */
  lemma ARevertCanClash()
    ensures var m := AppliedRows(SidebarRows(), SidebarRows(), TWO_MOVES);
            HoldsKey(m, 1, Char('d')) && HoldsKey(m, 6, Char('d')) && !ClashFree(m)
  {
    SidebarIsSound();
    OneMoveClashes();
    BroughtBackOnto(SidebarRows(), TWO_MOVES, Sidebar, 6, 1, Char('d'));
  }

  /** {"session.escape": [], "session.scroll_up": ["ctrl+b"]} */
  const ESCAPE_GIVEN_AWAY: User := map[Action(Session, Escape) := [], Action(Session, ScrollUp) := [Ctrl('b')]]

  lemma EscapeEmptied()
    ensures var o := Overlay(SessionRows(), ESCAPE_GIVEN_AWAY);
            HoldsKey(o, 1, Ctrl('b')) && Restored(o, 0) && !Restored(o, 1) && SessionRows()[0] == Row(Session, Escape, [Ctrl('b')])
  {
    var o := Overlay(SessionRows(), ESCAPE_GIVEN_AWAY);
    forall i | HoldsKey(o, i, Ctrl('b')) ensures i == 1 {
      assert o[i].keys == [o[i].keys[0]];
    }
  }

  /** Escape gets ctrl+b back after clashes were resolved, and scroll_up, declared later, takes the key. */
  lemma TheEscapeCanBeLost()
    ensures var m := AppliedRows(SessionRows(), SessionRows(), ESCAPE_GIVEN_AWAY);
            && HoldsKey(m, 0, Ctrl('b')) && !ClashFree(m)
            && forall key :: Lookup(m, key) != Some(Action(Session, Escape))
  {
    var d := SessionRows();
    ShippedRowsAreSound(Session);
    EscapeEmptied();
    BroughtBackOnto(d, ESCAPE_GIVEN_AWAY, Session, 0, 1, Ctrl('b'));
    LaterRowWins(AppliedRows(d, d, ESCAPE_GIVEN_AWAY), 0, 1, Ctrl('b'));
  }

  /** {"session.escape": ["r"], "session.reconnect": ["x"], "session.scroll_up": ["x"]} */
  const ESCAPE_ON_R: User :=
    map[Action(Session, Escape) := [Char('r')], Action(Session, Reconnect) := [Char('x')], Action(Session, ScrollUp) := [Char('x')]]

  lemma ReconnectGoesBack()
    ensures var o := Overlay(SessionRows(), ESCAPE_ON_R);
            !Restored(o, 0) && o[0].keys == [Char('r')] && Restored(o, 5)
    ensures !SessionRows()[5].doc && SessionRows()[5].keys == [Char('r')] && SessionRows()[0].action == Action(Session, Escape)
  {
    var o := Overlay(SessionRows(), ESCAPE_ON_R);
    assert HoldsKey(o, 1, Char('x')) && HoldsKey(o, 5, Char('x'));
    assert InClash(o, 5);
    forall i | HoldsKey(o, i, Char('r')) ensures i == 0 {
      assert o[i].keys == [o[i].keys[0]];
    }
  }

  /** Escape was given r and keeps it; reconnect, declared later, goes back to r when its own key clashes. */
  lemma TheEscapeCanBeShadowed()
    ensures forall key :: Lookup(AppliedRows(SessionRows(), SessionRows(), ESCAPE_ON_R), key) != Some(Action(Session, Escape))
  {
    var d := SessionRows();
    ShippedRowsAreSound(Session);
    ReconnectGoesBack();
    assert EndsWith(d, ESCAPE_ON_R, 5, Char('r'));
    ReachableWhen(d, ESCAPE_ON_R, Session, 0);
  }

  /** {"global.help": ["q"], "global.quit": ["x", "x"]} */
  const HELP_ON_Q: User := map[Action(Global, ShowHelp) := [Char('q')], Action(Global, Quit) := [Char('x'), Char('x')]]

  lemma QuitGoesBack()
    ensures var o := Overlay(GlobalRows(), HELP_ON_Q);
            !Restored(o, 0) && o[0].keys == [Char('q')] && Restored(o, 1)
    ensures !GlobalRows()[1].doc && Char('q') in GlobalRows()[1].keys && GlobalRows()[0].action == Action(Global, ShowHelp)
  {
    var o := Overlay(GlobalRows(), HELP_ON_Q);
    assert o[1].keys == [Char('x'), Char('x')];
    assert HoldsTwice(o, 1, Char('x'));
    assert InClash(o, 1);
    assert GlobalRows()[1].keys[0] == Char('q');
  }

  /** Quit lists one key twice and goes back to q, which help had been given. */
  lemma TheHelpCanBeShadowed()
    ensures forall key :: Lookup(AppliedRows(GlobalRows(), GlobalRows(), HELP_ON_Q), key) != Some(Action(Global, ShowHelp))
  {
    var d := GlobalRows();
    ShippedRowsAreSound(Global);
    QuitGoesBack();
    assert EndsWith(d, HELP_ON_Q, 1, Char('q'));
    ReachableWhen(d, HELP_ON_Q, Global, 0);
  }
}

/** The shipped keymap, and that it is one the theorems are about. */
module KeymapShipped {
  import opened KeymapModel
  import opened KeymapRows

  function Row(c: Context, v: Verb, keys: seq<Key>): Binding {
    Binding(Action(c, v), keys, false)
  }

  /** Described here, dispatched elsewhere. */
  function Doc(c: Context, v: Verb, keys: seq<Key>): Binding {
    Binding(Action(c, v), keys, true)
  }

  function GlobalRows(): Rows {
    [ Row(Global, ShowHelp, [Char('?')]),
      Row(Global, Quit, [Char('q'), Ctrl('c')])]
  }

  function SidebarHosts(): Rows {
    [ Row(Sidebar, FocusPanel, [TabKey]),
      Row(Sidebar, NewSession, [Char('n')]),
      Row(Sidebar, Files, [Char('f')]),
      Row(Sidebar, Connect, [EnterKey]),
      Doc(Sidebar, Move, [UpKey, DownKey])]
  }

  function SidebarEdits(): Rows {
    [ Row(Sidebar, Edit, [Char('e')]),
      Row(Sidebar, Delete, [Char('d')]),
      Doc(Sidebar, Filter, [Char('/')]),
      Row(Sidebar, ToggleGroup, [Char(' ')]),
      Row(Sidebar, FoldGroup, [LeftKey]),
      Row(Sidebar, UnfoldGroup, [RightKey])]
  }

  function SidebarSync(): Rows {
    [ Row(Sidebar, SortRecent, [Char('s')]),
      Row(Sidebar, ImportConfig, [Char('i')]),
      Row(Sidebar, SyncSetup, [Char('Y')]),
      Row(Sidebar, SyncPush, [Char('S')]),
      Row(Sidebar, SyncPull, [Char('P')])]
  }

  function SidebarRows(): Rows { SidebarHosts() + SidebarEdits() + SidebarSync() }

  function SessionRows(): Rows {
    [ Row(Session, Escape, [Ctrl('b')]),
      Row(Session, ScrollUp, [Shift(UpKey)]),
      Row(Session, ScrollDown, [Shift(DownKey)]),
      Row(Session, ScrollPageUp, [Shift(PgUp)]),
      Row(Session, ScrollPageDown, [Shift(PgDown)]),
      Row(Session, Reconnect, [Char('r')]),
      Doc(Session, Copy, [])]
  }

  function TabsRows(): Rows {
    [ Row(Tabs, Select, [Alt(Char('1')), Alt(Char('2')), Alt(Char('3')), Alt(Char('4')), Alt(Char('5')),
                           Alt(Char('6')), Alt(Char('7')), Alt(Char('8')), Alt(Char('9'))]),
      Row(Tabs, Next, [Alt(RightKey), Alt(Char('l'))]),
      Row(Tabs, Prev, [Alt(LeftKey), Alt(Char('h'))]),
      Row(Tabs, Close, [Alt(Char('w'))])]
  }

  function SftpFiles(): Rows {
    [ Row(Sftp, SwitchPane, [TabKey, LeftKey, RightKey, Char('h'), Char('l')]),
      Row(Sftp, Mark, [Char(' ')]),
      Row(Sftp, Transfer, [Char('t')]),
      Row(Sftp, Delete, [Char('d')]),
      Row(Sftp, Rename, [Char('R')])]
  }

  function SftpPlaces(): Rows {
    [ Row(Sftp, Refresh, [Char('r')]),
      Doc(Sftp, Drag, []),
      Row(Sftp, Back, [Ctrl('b'), EscKey]),
      Row(Sftp, ClearMarks, [Char('a')]),
      Row(Sftp, Open, [EnterKey]),
      Row(Sftp, Parent, [Backspace])]
  }

  function SftpCursor(): Rows {
    [ Row(Sftp, Up, [UpKey, Char('k')]),
      Row(Sftp, Down, [DownKey, Char('j')]),
      Row(Sftp, PageUp, [PgUp]),
      Row(Sftp, PageDown, [PgDown]),
      Row(Sftp, Home, [HomeKey]),
      Row(Sftp, End, [EndKey])]
  }

  function SftpRows(): Rows { SftpFiles() + SftpPlaces() + SftpCursor() }

  function FormRows(): Rows {
    [ Doc(Form, Save, [EnterKey, Ctrl('s')]),
      Doc(Form, Move, [TabKey, Shift(TabKey)]),
      Doc(Form, Auth, [LeftKey, RightKey]),
      Doc(Form, Cancel, [EscKey])]
  }

  function ImportRows(): Rows {
    [ Row(Import, Toggle, [Char(' ')]),
      Row(Import, ToggleAll, [Char('a')]),
      Row(Import, Accept, [EnterKey]),
      Row(Import, Cancel, [EscKey, Char('q'), Ctrl('c')]),
      Row(Import, Up, [UpKey, Char('k')]),
      Row(Import, Down, [DownKey, Char('j')])]
  }

  function SyncRows(): Rows {
    [ Row(Sync, NextField, [TabKey, DownKey]),
      Row(Sync, Submit, [EnterKey]),
      Row(Sync, Cancel, [EscKey]),
      Row(Sync, PrevField, [Shift(TabKey), UpKey])]
  }

  function ConfirmRows(): Rows {
    [ Row(Confirm, Yes, [EnterKey, Char('y'), Char('Y')]),
      Row(Confirm, No, [EscKey, Char('n'), Char('N'), Char('q'), Ctrl('c')])]
  }

  function ErrorRows(): Rows {
    [ Row(Error, Retry, [Char('r')]),
      Row(Error, Edit, [Char('e')]),
      Row(Error, Dismiss, [EscKey])]
  }

  function UnlockRows(): Rows {
    [ Row(Unlock, Submit, [EnterKey]),
      Row(Unlock, SwitchField, [TabKey, Shift(TabKey), UpKey, DownKey]),
      Row(Unlock, Cancel, [EscKey]),
      Row(Unlock, Quit, [Ctrl('c')])]
  }

  function PromptRows(): Rows {
    [ Doc(Prompt, Accept, [EnterKey]),
      Doc(Prompt, Cancel, [EscKey])]
  }

  function HelpRows(): Rows {
    [ Row(Help, Close, [EscKey, Char('q')]),
      Row(Help, Search, [Char('/')]),
      Row(Help, ScrollUp, [UpKey]),
      Row(Help, ScrollDown, [DownKey]),
      Row(Help, PageUp, [PgUp]),
      Row(Help, PageDown, [PgDown])]
  }

  function Shipped(c: Context): Rows {
    match c
    case Global => GlobalRows()
    case Sidebar => SidebarRows()
    case Session => SessionRows()
    case Tabs => TabsRows()
    case Sftp => SftpRows()
    case Form => FormRows()
    case Import => ImportRows()
    case Sync => SyncRows()
    case Confirm => ConfirmRows()
    case Error => ErrorRows()
    case Unlock => UnlockRows()
    case Prompt => PromptRows()
    case Help => HelpRows()
  }

  function ShippedTable(): Table { map c: Context :: Shipped(c) }

  // ---------------------------------------------------------------- each table is sound

  lemma NineKeys()
    ensures NoRepeats(TabsRows()[0].keys)
  {
  }

  lemma GlobalRowsAreNew()
    ensures EachNew(Global, GlobalRows(), 2)
  {
  }

  lemma SessionRowsAreNew()
    ensures EachNew(Session, SessionRows(), 7)
  {
  }

  lemma TabsRowsAreNew()
    ensures EachNew(Tabs, TabsRows(), 4)
  {
    NineKeys();
  }

  lemma FormRowsAreNew()
    ensures EachNew(Form, FormRows(), 4)
  {
  }

  lemma ImportRowsAreNew()
    ensures EachNew(Import, ImportRows(), 6)
  {
  }

  lemma SyncRowsAreNew()
    ensures EachNew(Sync, SyncRows(), 4)
  {
  }

  lemma ConfirmRowsAreNew()
    ensures EachNew(Confirm, ConfirmRows(), 2)
  {
  }

  lemma ErrorRowsAreNew()
    ensures EachNew(Error, ErrorRows(), 3)
  {
  }

  lemma UnlockRowsAreNew()
    ensures EachNew(Unlock, UnlockRows(), 4)
  {
  }

  lemma PromptRowsAreNew()
    ensures EachNew(Prompt, PromptRows(), 2)
  {
  }

  lemma HelpRowsAreNew()
    ensures EachNew(Help, HelpRows(), 6)
  {
  }

  lemma SidebarHostsAreNew()
    ensures EachNew(Sidebar, SidebarHosts(), 5)
  {
  }

  lemma SidebarEditsAreNew()
    ensures EachNew(Sidebar, SidebarEdits(), 6)
  {
  }

  lemma SidebarEditsAreNewToHosts()
    ensures EachNewTo(SidebarEdits(), 6, SidebarHosts(), 5)
  {
  }

  lemma SidebarSyncAreNew()
    ensures EachNew(Sidebar, SidebarSync(), 5)
  {
  }

  lemma SidebarSyncAreNewToHosts()
    ensures EachNewTo(SidebarSync(), 5, SidebarHosts(), 5)
  {
  }

  lemma SidebarSyncAreNewToEdits()
    ensures EachNewTo(SidebarSync(), 5, SidebarEdits(), 6)
  {
  }

  lemma SidebarIsSound()
    ensures SoundRows(Sidebar, SidebarRows())
  {
    SidebarHostsAreNew();
    SidebarEditsAreNew();
    SidebarSyncAreNew();
    SidebarEditsAreNewToHosts();
    SidebarSyncAreNewToHosts();
    SidebarSyncAreNewToEdits();
    ThreeParts(Sidebar, SidebarHosts(), 5, SidebarEdits(), 6, SidebarSync(), 5);
  }

  lemma SftpFilesAreNew()
    ensures EachNew(Sftp, SftpFiles(), 5)
  {
  }

  lemma SftpPlacesAreNew()
    ensures EachNew(Sftp, SftpPlaces(), 6)
  {
  }

  lemma SftpPlacesAreNewToFiles()
    ensures EachNewTo(SftpPlaces(), 6, SftpFiles(), 5)
  {
  }

  lemma SftpCursorAreNew()
    ensures EachNew(Sftp, SftpCursor(), 6)
  {
  }

  lemma SftpCursorAreNewToFiles()
    ensures EachNewTo(SftpCursor(), 6, SftpFiles(), 5)
  {
  }

  lemma SftpCursorAreNewToPlaces()
    ensures EachNewTo(SftpCursor(), 6, SftpPlaces(), 6)
  {
  }

  lemma SftpIsSound()
    ensures SoundRows(Sftp, SftpRows())
  {
    SftpFilesAreNew();
    SftpPlacesAreNew();
    SftpCursorAreNew();
    SftpPlacesAreNewToFiles();
    SftpCursorAreNewToFiles();
    SftpCursorAreNewToPlaces();
    ThreeParts(Sftp, SftpFiles(), 5, SftpPlaces(), 6, SftpCursor(), 6);
  }

  /** Each context: every action once, no key twice, what is mandatory with a key. */
  lemma ShippedRowsAreSound(c: Context)
    ensures SoundRows(c, Shipped(c))
  {
    GlobalRowsAreNew();
    AllNewAreSound(Global, GlobalRows(), 2);
    SidebarIsSound();
    SessionRowsAreNew();
    AllNewAreSound(Session, SessionRows(), 7);
    TabsRowsAreNew();
    AllNewAreSound(Tabs, TabsRows(), 4);
    SftpIsSound();
    FormRowsAreNew();
    AllNewAreSound(Form, FormRows(), 4);
    ImportRowsAreNew();
    AllNewAreSound(Import, ImportRows(), 6);
    SyncRowsAreNew();
    AllNewAreSound(Sync, SyncRows(), 4);
    ConfirmRowsAreNew();
    AllNewAreSound(Confirm, ConfirmRows(), 2);
    ErrorRowsAreNew();
    AllNewAreSound(Error, ErrorRows(), 3);
    UnlockRowsAreNew();
    AllNewAreSound(Unlock, UnlockRows(), 4);
    PromptRowsAreNew();
    AllNewAreSound(Prompt, PromptRows(), 2);
    HelpRowsAreNew();
    AllNewAreSound(Help, HelpRows(), 6);
  }

  /** The shipped keymap is sound: every theorem about rebinding holds of it. */
  lemma ShippedIsSound()
    ensures Sound(ShippedTable())
  {
    forall c: Context ensures SoundRows(c, ShippedTable()[c]) {
      ShippedRowsAreSound(c);
    }
    assert SessionRows()[0].action == Action(Session, Escape);
    assert GlobalRows()[0].action == Action(Global, ShowHelp);
  }
}

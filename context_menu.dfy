/**
 * The Treasure Mystery puzzle of src/components/puzzles/ContextMenuPuzzle.tsx: six
 * characters and objects, each with a context menu; getting the key, opening the chest
 * and reading the scroll solves it.
 */
module ContextMenu {
  import opened Common
  import Shuffle

  datatype GameState = GameState(
    talkedToGuard: bool,
    gotKey: bool,
    openedChest: bool,
    foundClue: bool,
    petCat: bool,
    consultedLibrarian: bool)

  const InitialGameState := GameState(false, false, false, false, false, false)

  /** The texts the message line can show, one constructor per distinct text. */
  datatype Message =
    | Welcome
    | GuardMentionsWizard | GuardRepeats
    | WizardGivesKey | WizardAlreadyGaveKey | WizardTalks
    | ChestOpened | ChestLocked | ChestAlreadyOpen | ChestDescribed
    | ScrollSealed | ScrollSolved | ScrollAlreadyRead
    | CatMentionsLibrarian | CatRepeats | CatTalks
    | LibrarianAdvises | LibrarianRepeats | LibrarianTalks

  /** What one menu action does: the new flags, the new message if any, and whether completion is scheduled. */
  datatype Reaction = Reaction(state: GameState, message: Option<Message>, completes: bool)

  /** The six characters and objects that have a context menu. */
  datatype Target = Guard | Wizard | Chest | Cat | Librarian | Scroll

  /** The menu actions the handlers recognise. */
  datatype Action = Talk | AskKey | Open | Examine | Read | Pet | Consult

  /** The targets in their unshuffled order. */
  const Characters: seq<Target> := [Guard, Wizard, Chest, Cat, Librarian, Scroll]

  /** The name the page uses for a target. */
  function TargetName(t: Target): string {
    match t
    case Guard => "guard"
    case Wizard => "wizard"
    case Chest => "chest"
    case Cat => "cat"
    case Librarian => "librarian"
    case Scroll => "scroll"
  }

  /** The `case` labels of `handleMenuSelect`: a target name, or nothing for any other string. */
  function TargetOf(name: string): (t: Option<Target>)
    ensures t.Some? ==> TargetName(t.value) == name
  {
    if name == "guard" then Some(Guard)
    else if name == "wizard" then Some(Wizard)
    else if name == "chest" then Some(Chest)
    else if name == "cat" then Some(Cat)
    else if name == "librarian" then Some(Librarian)
    else if name == "scroll" then Some(Scroll)
    else None
  }

  /** The `action` string a menu item carries. */
  function ActionName(a: Action): string {
    match a
    case Talk => "talk"
    case AskKey => "ask-key"
    case Open => "open"
    case Examine => "examine"
    case Read => "read"
    case Pet => "pet"
    case Consult => "consult"
  }

  /** The action strings the handlers compare against; any other string matches none. */
  function ActionOf(name: string): (a: Option<Action>)
    ensures a.Some? ==> ActionName(a.value) == name
  {
    if name == "talk" then Some(Talk)
    else if name == "ask-key" then Some(AskKey)
    else if name == "open" then Some(Open)
    else if name == "examine" then Some(Examine)
    else if name == "read" then Some(Read)
    else if name == "pet" then Some(Pet)
    else if name == "consult" then Some(Consult)
    else None
  }

  /** Names and recognised strings are inverse to each other. */
  lemma NamesRoundTrip(t: Target, a: Action)
    ensures TargetOf(TargetName(t)) == Some(t)
    ensures ActionOf(ActionName(a)) == Some(a)
  {
  }

  /** No flag clears, and the flags only come in story order. */
  predicate Consistent(s: GameState) {
    (s.openedChest ==> s.gotKey) && (s.foundClue ==> s.openedChest)
  }

  /** Every flag set in `s` is still set in `t`. */
  predicate FlagsKept(s: GameState, t: GameState) {
    (s.talkedToGuard ==> t.talkedToGuard) && (s.gotKey ==> t.gotKey) &&
    (s.openedChest ==> t.openedChest) && (s.foundClue ==> t.foundClue) &&
    (s.petCat ==> t.petCat) && (s.consultedLibrarian ==> t.consultedLibrarian)
  }

  function Quiet(s: GameState, m: Message): Reaction {
    Reaction(s, Some(m), false)
  }

  /** An action string no branch of the handler matches. */
  function Ignored(s: GameState): Reaction {
    Reaction(s, None, false)
  }

  /** `handleGuardAction`. */
  function GuardAction(action: Option<Action>, s: GameState): (r: Reaction)
    ensures r.state == s.(talkedToGuard := s.talkedToGuard || (action == Some(Talk)))
    ensures r.message.Some? <==> action == Some(Talk)
    ensures !r.completes
  {
    if action == Some(Talk) then
      if !s.talkedToGuard then Quiet(s.(talkedToGuard := true), GuardMentionsWizard)
      else Quiet(s, GuardRepeats)
    else Ignored(s)
  }

  /** `handleWizardAction`. */
  function WizardAction(action: Option<Action>, s: GameState): (r: Reaction)
    ensures r.state == s.(gotKey := s.gotKey || (action == Some(AskKey)))
    ensures r.message.Some? <==> action == Some(AskKey) || action == Some(Talk)
    ensures !r.completes
  {
    if action == Some(AskKey) then
      if !s.gotKey then Quiet(s.(gotKey := true), WizardGivesKey)
      else Quiet(s, WizardAlreadyGaveKey)
    else if action == Some(Talk) then Quiet(s, WizardTalks)
    else Ignored(s)
  }

  /** `handleChestAction`. */
  function ChestAction(action: Option<Action>, s: GameState): (r: Reaction)
    ensures r.state == s.(openedChest := s.openedChest || (action == Some(Open) && s.gotKey))
    ensures r.message.Some? <==> action == Some(Open) || action == Some(Examine)
    ensures !r.completes
  {
    if action == Some(Open) then
      if s.gotKey && !s.openedChest then Quiet(s.(openedChest := true), ChestOpened)
      else if !s.gotKey then Quiet(s, ChestLocked)
      else Quiet(s, ChestAlreadyOpen)
    else if action == Some(Examine) then Quiet(s, ChestDescribed)
    else Ignored(s)
  }

  /** `handleScrollAction`: the first read after opening the chest schedules completion. */
  function ScrollAction(action: Option<Action>, s: GameState): (r: Reaction)
    ensures r.state == s.(foundClue := s.foundClue || (action == Some(Read) && s.openedChest))
    ensures r.message.Some? <==> action == Some(Read)
    ensures r.completes <==> action == Some(Read) && s.openedChest && !s.foundClue
  {
    if action == Some(Read) then
      if !s.openedChest then Quiet(s, ScrollSealed)
      else if !s.foundClue then Reaction(s.(foundClue := true), Some(ScrollSolved), true)
      else Quiet(s, ScrollAlreadyRead)
    else Ignored(s)
  }

  /** `handleCatAction`. */
  function CatAction(action: Option<Action>, s: GameState): (r: Reaction)
    ensures r.state == s.(petCat := s.petCat || (action == Some(Pet)))
    ensures r.message.Some? <==> action == Some(Pet) || action == Some(Talk)
    ensures !r.completes
  {
    if action == Some(Pet) then
      if !s.petCat then Quiet(s.(petCat := true), CatMentionsLibrarian)
      else Quiet(s, CatRepeats)
    else if action == Some(Talk) then Quiet(s, CatTalks)
    else Ignored(s)
  }

  /** `handleLibrarianAction`. */
  function LibrarianAction(action: Option<Action>, s: GameState): (r: Reaction)
    ensures r.state == s.(consultedLibrarian := s.consultedLibrarian || (action == Some(Consult)))
    ensures r.message.Some? <==> action == Some(Consult) || action == Some(Talk)
    ensures !r.completes
  {
    if action == Some(Consult) then
      if !s.consultedLibrarian then Quiet(s.(consultedLibrarian := true), LibrarianAdvises)
      else Quiet(s, LibrarianRepeats)
    else if action == Some(Talk) then Quiet(s, LibrarianTalks)
    else Ignored(s)
  }

  /** The `switch (contextMenuTarget)` of `handleMenuSelect`; no known target, no reaction. */
  function Dispatch(target: Option<Target>, action: Option<Action>, s: GameState): (r: Reaction)
    ensures r.message.None? ==> r.state == s && !r.completes
    ensures r.completes ==> target == Some(Scroll) && action == Some(Read)
  {
    match target
    case None => Ignored(s)
    case Some(Guard) => GuardAction(action, s)
    case Some(Wizard) => WizardAction(action, s)
    case Some(Chest) => ChestAction(action, s)
    case Some(Scroll) => ScrollAction(action, s)
    case Some(Cat) => CatAction(action, s)
    case Some(Librarian) => LibrarianAction(action, s)
  }

  /** The one action of each target that can set a flag. */
  function FlagAction(t: Target): (a: Action)
    ensures exists i :: 0 <= i < |GetMenuItems(Some(t))| && GetMenuItems(Some(t))[i].action == a
  {
    var a := (match t
      case Guard => Talk
      case Wizard => AskKey
      case Chest => Open
      case Scroll => Read
      case Cat => Pet
      case Librarian => Consult);
    assert GetMenuItems(Some(t))[if t == Guard || t == Scroll then 0 else 1].action == a;
    a
  }

  datatype MenuItem = MenuItem(text: string, action: Action)

  /** `getMenuItems`: the fixed menu of each target, empty for any other name. */
  function GetMenuItems(target: Option<Target>): (items: seq<MenuItem>)
    ensures items == [] <==> target.None?
  {
    match target
    case None => []
    case Some(Guard) => [MenuItem("Talk to Guard", Talk)]
    case Some(Wizard) => [MenuItem("Talk to Wizard", Talk), MenuItem("Ask for Key", AskKey)]
    case Some(Chest) => [MenuItem("Examine Chest", Examine), MenuItem("Open Chest", Open)]
    case Some(Scroll) => [MenuItem("Read Scroll", Read)]
    case Some(Cat) => [MenuItem("Talk to Cat", Talk), MenuItem("Pet Cat", Pet)]
    case Some(Librarian) => [MenuItem("Talk to Librarian", Talk), MenuItem("Consult about Treasures", Consult)]
  }

  /** An action gets an answer exactly when it is on the target's menu. */
  lemma MenuActionsAreHandled(target: Option<Target>, action: Action, s: GameState)
    ensures Dispatch(target, Some(action), s).message.Some? <==>
      exists i :: 0 <= i < |GetMenuItems(target)| && GetMenuItems(target)[i].action == action
  {
    var items := GetMenuItems(target);
    if Dispatch(target, Some(action), s).message.Some? {
      var t := target.value;
      var k := if t == Guard || t == Scroll || (action == Talk && t != Chest) || (action == Examine) then 0 else 1;
      assert items[k].action == action;
    }
  }

  /** Only a target's flag action can change the flags, and it changes only that flag. */
  lemma OnlyFlagActionsChangeState(target: Option<Target>, action: Option<Action>, s: GameState)
    ensures var t := Dispatch(target, action, s).state;
      && (t != s ==> target.Some? && action == Some(FlagAction(target.value)))
      && (t.talkedToGuard != s.talkedToGuard ==> target == Some(Guard))
      && (t.gotKey != s.gotKey ==> target == Some(Wizard))
      && (t.openedChest != s.openedChest ==> target == Some(Chest))
      && (t.foundClue != s.foundClue ==> target == Some(Scroll))
      && (t.petCat != s.petCat ==> target == Some(Cat))
      && (t.consultedLibrarian != s.consultedLibrarian ==> target == Some(Librarian))
  {
    match target
    case None =>
    case Some(Guard) =>
    case Some(Wizard) =>
    case Some(Chest) =>
    case Some(Scroll) =>
    case Some(Cat) =>
    case Some(Librarian) =>
  }

  /** Opening the chest needs the key; with it, the chest opens the first time only. */
  lemma OpeningNeedsKey(s: GameState)
    ensures var r := Dispatch(Some(Chest), Some(Open), s);
      && (!s.gotKey ==> r.state == s && r.message == Some(ChestLocked))
      && (s.gotKey && !s.openedChest ==> r.state == s.(openedChest := true) && r.message == Some(ChestOpened))
      && (s.gotKey && s.openedChest ==> r.state == s && r.message == Some(ChestAlreadyOpen))
  {
  }

  /** Reading the scroll needs the open chest; the first read after that schedules completion. */
  lemma ReadingNeedsOpenChest(s: GameState)
    ensures var r := Dispatch(Some(Scroll), Some(Read), s);
      && (!s.openedChest ==> r.state == s && r.message == Some(ScrollSealed) && !r.completes)
      && (s.openedChest && !s.foundClue ==> r.state == s.(foundClue := true) && r.completes)
      && (s.foundClue ==> r.state == s && !r.completes)
  {
  }

  /** Every action keeps the story order and never clears a flag. */
  lemma ReactionKeepsStory(target: Option<Target>, action: Option<Action>, s: GameState)
    ensures var r := Dispatch(target, action, s);
      && (Consistent(s) ==> Consistent(r.state))
      && FlagsKept(s, r.state)
  {
    match target
    case None =>
    case Some(Guard) =>
    case Some(Wizard) =>
    case Some(Chest) =>
    case Some(Scroll) =>
    case Some(Cat) =>
    case Some(Librarian) =>
  }

  /** Repeating an action has no further effect on the flags. */
  lemma RepeatChangesNothing(target: Option<Target>, action: Option<Action>, s: GameState)
    ensures var t := Dispatch(target, action, s).state;
      Dispatch(target, action, t).state == t
  {
    match target
    case None =>
    case Some(Guard) =>
    case Some(Wizard) =>
    case Some(Chest) =>
    case Some(Scroll) =>
    case Some(Cat) =>
    case Some(Librarian) =>
  }

  /** An action schedules completion exactly when it finds the clue. */
  lemma CompletesIffClueFound(target: Option<Target>, action: Option<Action>, s: GameState)
    ensures var r := Dispatch(target, action, s);
      r.completes <==> !s.foundClue && r.state.foundClue
  {
    match target
    case None =>
    case Some(Guard) =>
    case Some(Wizard) =>
    case Some(Chest) =>
    case Some(Scroll) =>
    case Some(Cat) =>
    case Some(Librarian) =>
  }

  /** From the start, the key, the chest and the scroll solve the mystery. */
  lemma WinningPath()
    ensures var s1 := Dispatch(Some(Wizard), Some(AskKey), InitialGameState).state;
      var s2 := Dispatch(Some(Chest), Some(Open), s1).state;
      Dispatch(Some(Scroll), Some(Read), s2).completes
  {
  }

  class ContextMenuPuzzle {
    var gameState: GameState
    var message: Message
    var showContextMenu: bool
    var contextMenuTarget: string
    /** The characters in display order, shuffled once on mount. */
    var characterOrder: seq<Target>
    /** Number of `onComplete` timers started. */
    var completionsScheduled: nat

    /** The flags are in story order and completion was scheduled once the clue was found. */
    ghost predicate Valid()
      reads this
    {
      Consistent(gameState) && completionsScheduled == (if gameState.foundClue then 1 else 0)
    }

    /** Mounting: no flags, the welcome text, no menu, and the characters in random order. */
    constructor ()
      ensures Valid()
      ensures gameState == InitialGameState && message == Welcome
      ensures !showContextMenu && contextMenuTarget == ""
      ensures |characterOrder| == |Characters| && multiset(characterOrder) == multiset(Characters)
      ensures completionsScheduled == 0
    {
      gameState := InitialGameState;
      message := Welcome;
      showContextMenu := false;
      contextMenuTarget := "";
      var characters := new Target[|Characters|](i requires 0 <= i < |Characters| => Characters[i]);
      assert characters[..] == Characters;
      Shuffle.FisherYates(characters);
      characterOrder := characters[..];
      completionsScheduled := 0;
    }

    /** `handleContextMenu`: right-clicking a target opens its menu (the position is not modelled). */
    method HandleContextMenu(target: string)
      modifies this
      ensures contextMenuTarget == target && showContextMenu
      ensures gameState == old(gameState) && message == old(message)
      ensures characterOrder == old(characterOrder) && completionsScheduled == old(completionsScheduled)
    {
      contextMenuTarget := target;
      showContextMenu := true;
    }

    /** The menu's `onClose`. */
    method CloseMenu()
      modifies this
      ensures !showContextMenu && contextMenuTarget == old(contextMenuTarget)
      ensures gameState == old(gameState) && message == old(message)
      ensures characterOrder == old(characterOrder) && completionsScheduled == old(completionsScheduled)
    {
      showContextMenu := false;
    }

    /**
     * `handleMenuSelect`: closes the menu; an item without an action (or with an empty
     * one) does nothing more, otherwise the current target reacts to the action.
     */
    method HandleMenuSelect(action: Option<string>)
      requires Valid()
      modifies this
      ensures Valid()
      ensures !showContextMenu && contextMenuTarget == old(contextMenuTarget)
      ensures characterOrder == old(characterOrder)
      ensures action.None? || action.value == "" ==>
        gameState == old(gameState) && message == old(message) &&
        completionsScheduled == old(completionsScheduled)
      ensures action.Some? && action.value != "" ==>
        var r := Dispatch(TargetOf(contextMenuTarget), ActionOf(action.value), old(gameState));
        && gameState == r.state
        && message == (if r.message.Some? then r.message.value else old(message))
        && completionsScheduled == old(completionsScheduled) + (if r.completes then 1 else 0)
    {
      showContextMenu := false;
      if action.None? || action.value == "" {
        return;
      }
      var target := TargetOf(contextMenuTarget);
      var r := Dispatch(target, ActionOf(action.value), gameState);
      ReactionKeepsStory(target, ActionOf(action.value), gameState);
      CompletesIffClueFound(target, ActionOf(action.value), gameState);
      gameState := r.state;
      if r.message.Some? {
        message := r.message.value;
      }
      if r.completes {
        completionsScheduled := completionsScheduled + 1;
      }
    }
  }
}

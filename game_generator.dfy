/**
 * Game authoring: a user turns their content list into a game.  The form needs a
 * title, a type and at least three content items; the game stores a frozen copy of
 * the first ten items and is appended to the `games` store.
 */
module Generator {
  import opened Wrappers
  import opened Lists
  import opened Content

  datatype GameForm = GameForm(title: string, description: string, gameType: string, difficulty: string)

  /** The form as mounted and as reset after a successful generation. */
  const EmptyForm := GameForm("", "", "", "medium")

  /** Fewest content items a game can be generated from. */
  const MinItems := 3
  /** Most content items a generated game keeps. */
  const MaxItems := 10

  /** The generation guard: a title, a type and at least `MinItems` items. */
  predicate CanGenerate(form: GameForm, content: seq<ContentItem>)
  {
    form.title != "" && form.gameType != "" && |content| >= MinItems
  }

  /** `content.slice(0, Math.min(content.length, 10))`. */
  function Snapshot(content: seq<ContentItem>): (r: seq<ContentItem>)
    ensures |r| == Min(|content|, MaxItems)
    ensures forall i :: 0 <= i < |r| ==> r[i] == content[i]
  {
    content[..Min(|content|, MaxItems)]
  }

  /** A game generated from enough content holds between `MinItems` and `MaxItems` items. */
  lemma SnapshotSize(form: GameForm, content: seq<ContentItem>)
    requires CanGenerate(form, content)
    ensures MinItems <= |Snapshot(content)| <= MaxItems
  {
  }

  /** `allGames.filter(g => g.userId === user.id)`. */
  function UserGames(all: seq<Game>, userId: nat): (r: seq<Game>)
    ensures forall i :: 0 <= i < |r| ==> r[i] in all && r[i].userId == userId
    ensures forall i :: 0 <= i < |all| && all[i].userId == userId ==> all[i] in r
  {
    Filter(all, (g: Game) => g.userId == userId)
  }

  /** A game the user just generated shows up at the end of their games list. */
  lemma NewGameListed(all: seq<Game>, g: Game, userId: nat)
    requires g.userId == userId
    ensures UserGames(all + [g], userId) == UserGames(all, userId) + [g]
  {
    FilterConcat(all, [g], (x: Game) => x.userId == userId);
    assert Filter([g], (x: Game) => x.userId == userId) == [g];
  }

  class GameGenerator {
    const userId: nat
    /** The `content` store. */
    var storedContent: seq<ContentItem>
    /** The `games` store. */
    var storedGames: seq<Game>
    /** The user's content and games, as last loaded. */
    var content: seq<ContentItem>
    var games: seq<Game>
    var form: GameForm
    var isGenerating: bool

    /**
     * The shown lists are the user's part of the stores, and the form holds what its
     * controls can produce: no type yet or an offered one, and the fixed difficulty.
     */
    ghost predicate Valid()
      reads this
    {
      && content == UserContent(storedContent, userId) && games == UserGames(storedGames, userId)
      && (form.gameType == "" || OfferedType(form.gameType)) && form.difficulty == EmptyForm.difficulty
    }

    /** Mounting loads the user's content and games. */
    constructor (userId: nat, storedContent: seq<ContentItem>, storedGames: seq<Game>)
      ensures this.userId == userId
      ensures this.storedContent == storedContent && this.storedGames == storedGames
      ensures Valid() && form == EmptyForm && !isGenerating
    {
      this.userId := userId;
      this.storedContent := storedContent;
      this.storedGames := storedGames;
      content := UserContent(storedContent, userId);
      games := UserGames(storedGames, userId);
      form := EmptyForm;
      isGenerating := false;
    }

    /** `loadContent`. */
    method LoadContent()
      modifies this`content
      ensures content == UserContent(storedContent, userId)
    {
      content := UserContent(storedContent, userId);
    }

    /** `loadGames`. */
    method LoadGames()
      modifies this`games
      ensures games == UserGames(storedGames, userId)
    {
      games := UserGames(storedGames, userId);
    }

    /** The game types the form's select offers. */
    static predicate OfferedType(gameType: string)
    {
      gameType == "memory" || gameType == "association" || gameType == "quiz"
    }

    /** Typing into the title field. */
    method SetTitle(title: string)
      requires Valid()
      modifies this`form
      ensures Valid() && form == old(form).(title := title)
    {
      form := form.(title := title);
    }

    /** Typing into the description field. */
    method SetDescription(description: string)
      requires Valid()
      modifies this`form
      ensures Valid() && form == old(form).(description := description)
    {
      form := form.(description := description);
    }

    /** Choosing one of the offered types; the difficulty has no control and stays as it is. */
    method SetType(gameType: string)
      requires Valid() && OfferedType(gameType)
      modifies this`form
      ensures Valid() && form == old(form).(gameType := gameType)
    {
      form := form.(gameType := gameType);
    }

    /**
     * `generateGame`, with its one-second delay collapsed into one step.  `gameId` and
     * `createdAt` are the clock readings.  A rejected form leaves every field as it was;
     * an accepted one appends the new game, resets the form and reloads the games list.
     */
    method GenerateGame(gameId: nat, createdAt: string) returns (created: Option<Game>)
      requires Valid()
      modifies this
      ensures Valid()
      ensures created.None? <==> !old(CanGenerate(form, content))
      ensures created.None? ==>
        && storedGames == old(storedGames) && games == old(games) && form == old(form)
        && isGenerating == old(isGenerating)
      ensures created.Some? ==>
        && created.value == Game(gameId, userId, old(form.title), old(form.description), old(form.gameType),
                                 old(form.difficulty), Snapshot(old(content)), createdAt)
        && storedGames == old(storedGames) + [created.value]
        && games == old(games) + [created.value]
        && form == EmptyForm && !isGenerating
      ensures created.Some? ==> OfferedType(created.value.gameType) && created.value.difficulty == "medium"
      ensures storedContent == old(storedContent) && content == old(content)
    {
      if !CanGenerate(form, content) {
        return None;
      }
      isGenerating := true;
      var g := Game(gameId, userId, form.title, form.description, form.gameType, form.difficulty,
                    Snapshot(content), createdAt);
      storedGames := storedGames + [g];
      form := EmptyForm;
      isGenerating := false;
      LoadGames();
      NewGameListed(old(storedGames), g, userId);
      created := Some(g);
    }
  }
}

/** The quiz session (`QuizApp`): which screen is showing, and the effect on the
    current user and on storage of each button the screens offer. Each handler is one
    method, run as one atomic step; a handler is only called while the screen that
    holds its button is showing. */
module Quiz {
  import opened JsText
  import opened Trivia
  import opened Users

  /** The screens of the quiz. `Stuck` is where drawing a question card fails because
      the trivia service sent fewer questions than the quiz walks through: the source
      then throws, and the model takes no further events. */
  datatype Screen = StartScreen | QuestionScreen | WarningScreen | ResultScreen | ReviewScreen | Stuck

  /** The entered name and identifier select a saved user to resume: one is stored
      under the identifier's key and its name is the entered name. */
  ghost predicate Resumes(items: map<string, UserRecord>, name: string, id: string) {
    StorageKey(id) in items && items[StorageKey(id)].name == name
  }

  /** What a question card drawn for `u` turns into: the card of its current question,
      or `Stuck` when there is no such question. */
  ghost function QuestionCard(u: UserRecord): Screen {
    if u.currentIndex < |u.questions| then QuestionScreen else Stuck
  }

  class QuizApp {
    const store: Store
    var user: User?
    var screen: Screen
    /** Whether the bookmark icon of the shown card is drawn as active. */
    var bookmarkActive: bool
    /** The buttons of the warning screen, as last drawn. */
    var summary: seq<SummaryButton>
    /** The navigation buttons of the shown card, as last drawn. */
    var controls: Controls

    /** The user's entry in storage is the user as it is now. */
    ghost predicate Saved()
      reads this, user, store
      requires user != null
    {
      StorageKey(user.id) in store.items && store.items[StorageKey(user.id)] == user.Snapshot()
    }

    /** The user's entry in storage differs from the user at most in its index. */
    ghost predicate SavedButIndex()
      reads this, user, store
      requires user != null
    {
      StorageKey(user.id) in store.items &&
      store.items[StorageKey(user.id)] == user.Snapshot().(currentIndex := store.items[StorageKey(user.id)].currentIndex)
    }

    ghost predicate Valid()
      reads this, user, store
    {
      store.Valid() &&
      (screen != StartScreen ==> user != null && user.Valid() && user.name != [] && user.id != []) &&
      (screen == QuestionScreen ==>
        !user.submitted && user.currentIndex < |user.questions| &&
        bookmarkActive == user.marked[user.currentIndex] &&
        controls == ControlsFor(user.currentIndex, false) && Saved()) &&
      (screen == WarningScreen ==>
        !user.submitted && user.currentIndex == LastIndex && user.currentIndex < |user.questions| &&
        summary == Summary(user.questions, user.marked) && Saved()) &&
      (screen == ResultScreen ==> user.submitted && Saved()) &&
      (screen == ReviewScreen ==>
        user.submitted && user.currentIndex < |user.questions| &&
        controls == ControlsFor(user.currentIndex, true) && SavedButIndex())
    }

    /** The page loads on the start screen, over whatever storage already holds. */
    constructor (store: Store)
      requires store.Valid()
      ensures Valid() && this.store == store && user == null && screen == StartScreen
    {
      this.store := store;
      user := null;
      screen := StartScreen;
      bookmarkActive := false;
      summary := [];
      controls := ControlsFor(0, false);
    }

    /** `renderQuestion`: shows the card of the current question, with the bookmark
        drawn from the stored flag and the navigation buttons for answering. */
    method RenderQuestion()
      requires user != null && user.Valid()
      modifies this`screen, this`bookmarkActive, this`controls
      ensures screen == QuestionCard(user.Snapshot())
      ensures screen == QuestionScreen ==>
        bookmarkActive == user.marked[user.currentIndex] && controls == ControlsFor(user.currentIndex, false)
    {
      if user.currentIndex < |user.questions| {
        screen := QuestionScreen;
        bookmarkActive := user.marked[user.currentIndex];
        controls := ControlsFor(user.currentIndex, false);
      } else {
        screen := Stuck;
      }
    }

    /** `renderAnswers`: shows the current question for review, with the navigation
        buttons for reviewing. */
    method RenderAnswers()
      requires user != null
      modifies this`screen, this`controls
      ensures screen == if user.currentIndex < |user.questions| then ReviewScreen else Stuck
      ensures screen == ReviewScreen ==> controls == ControlsFor(user.currentIndex, true)
    {
      if user.currentIndex < |user.questions| {
        screen := ReviewScreen;
        controls := ControlsFor(user.currentIndex, true);
      } else {
        screen := Stuck;
      }
    }

    /** `renderWarning`: shows one button per question, then the submit button. */
    method RenderWarning()
      requires user != null
      modifies this`screen, this`summary
      ensures screen == WarningScreen && summary == Summary(user.questions, user.marked)
    {
      screen := WarningScreen;
      summary := Summary(user.questions, user.marked);
    }

    /** `showResult`: scores the answers, marks the user submitted and saves. On a user
        that was already submitted the score does not change. */
    method ShowResult()
      requires user != null && user.Valid() && store.Valid()
      modifies this`screen, user, store
      ensures user.Valid() && store.Valid()
      ensures user.Snapshot() == old(user.Snapshot()).(score := Score(user.data, user.answers), submitted := true)
      ensures old(user.submitted) ==> user.score == old(user.score)
      ensures store.items == old(store.items)[StorageKey(user.id) := user.Snapshot()]
      ensures screen == ResultScreen
    {
      user.score := Score(user.data, user.answers);
      user.submitted := true;
      user.Save(store);
      screen := ResultScreen;
    }

    /** The start button. An empty trimmed name or identifier is refused. A saved user
        with the same identifier and name is resumed, straight to the result when it
        was submitted. Otherwise a new user is created over the fetched questions and
        saved, replacing any entry under that key; when the fetch fails, nothing is
        saved and the start screen stays. */
    method StartQuiz(nameInput: string, idInput: string, fetched: Option<seq<RawQuestion>>, order: seq<seq<nat>>)
      requires Valid() && screen == StartScreen
      requires fetched.Some? ==> |fetched.value| <= QuizLength
      modifies this`user, this`screen, this`bookmarkActive, this`controls, store
      ensures Valid()
      ensures (Trim(nameInput) == [] || Trim(idInput) == []) ==>
        user == old(user) && screen == StartScreen && store.items == old(store.items)
      ensures (Trim(nameInput) != [] && Trim(idInput) != [] &&
               Resumes(old(store.items), Trim(nameInput), Trim(idInput))) ==>
        user != null && fresh(user) &&
        user.Snapshot() == old(store.items)[StorageKey(Trim(idInput))] &&
        user.name == Trim(nameInput) && user.id == Trim(idInput) &&
        store.items == old(store.items) &&
        screen == if user.submitted then ResultScreen else QuestionCard(user.Snapshot())
      ensures (Trim(nameInput) != [] && Trim(idInput) != [] &&
               !Resumes(old(store.items), Trim(nameInput), Trim(idInput))) ==>
        user != null && fresh(user) &&
        (fetched.None? ==> screen == StartScreen && store.items == old(store.items)) &&
        (fetched.Some? ==> Created(Trim(nameInput), Trim(idInput), fetched.value, order, old(store.items)))
    {
      var name := Trim(nameInput);
      var id := Trim(idInput);
      if name == [] || id == [] {
        return;
      }
      var existingUser := User.Load(store, id);
      if existingUser != null && existingUser.name == name {
        StoredUnderOwnId(store.items, id);
        Resume(existingUser);
      } else {
        CreateUser(name, id, fetched, order);
      }
    }

    /** The new user's state after a successful start: a fresh user over the fetched
        questions, saved under its key, showing its first question. */
    ghost predicate Created(name: string, id: string, data: seq<RawQuestion>, order: seq<seq<nat>>,
                            before: map<string, UserRecord>)
      reads this, user, store
    {
      user != null &&
      user.Snapshot() == UserRecord(name, id, 0, 0, NoAnswers, data, PrepareQuestions(data, order), NoMarks, false) &&
      store.items == before[StorageKey(id) := user.Snapshot()] &&
      screen == QuestionCard(user.Snapshot())
    }

    /** The resuming branch of the start button: the loaded user becomes the current
        one and shows its question, or its result when it was submitted. */
    method Resume(u: User)
      requires Valid() && screen == StartScreen
      requires u.Valid() && u.name != [] && u.id != []
      requires StorageKey(u.id) in store.items && store.items[StorageKey(u.id)] == u.Snapshot()
      modifies this`user, this`screen, this`bookmarkActive, this`controls, u, store
      ensures Valid() && user == u && u.Snapshot() == old(u.Snapshot())
      ensures store.items == old(store.items)
      ensures screen == if u.submitted then ResultScreen else QuestionCard(u.Snapshot())
    {
      user := u;
      if user.submitted {
        ShowResult();
        assert store.items == old(store.items);
      } else {
        RenderQuestion();
      }
    }

    /** The creating branch of the start button: a new user, given the fetched
        questions, prepared and saved. A failed fetch leaves the questions undefined;
        preparing them then throws, before anything is saved. */
    method CreateUser(name: string, id: string, fetched: Option<seq<RawQuestion>>, order: seq<seq<nat>>)
      requires Valid() && screen == StartScreen && name != [] && id != []
      requires fetched.Some? ==> |fetched.value| <= QuizLength
      modifies this`user, this`screen, this`bookmarkActive, this`controls, store
      ensures Valid() && user != null && fresh(user)
      ensures fetched.None? ==> screen == StartScreen && store.items == old(store.items)
      ensures fetched.Some? ==> Created(name, id, fetched.value, order, old(store.items))
    {
      user := new User(name, id);
      if fetched.None? {
        return;
      }
      user.data := fetched.value;
      user.questions := PrepareQuestions(user.data, order);
      user.Save(store);
      RenderQuestion();
    }

    /** An answer button of the shown card: the chosen answer's text goes into the
        current question's slot, and nothing else changes. */
    method SelectAnswer(k: nat)
      requires Valid() && screen == QuestionScreen
      requires k < |user.questions[user.currentIndex].allAnswers|
      modifies user, store
      ensures Valid() && screen == QuestionScreen
      ensures user.Snapshot() == old(user.Snapshot()).(answers :=
        old(user.answers)[old(user.currentIndex) := old(user.questions[user.currentIndex].allAnswers[k])])
      ensures store.items == old(store.items)[StorageKey(user.id) := user.Snapshot()]
    {
      var selected := user.questions[user.currentIndex].allAnswers[k];
      user.answers := user.answers[user.currentIndex := selected];
      user.Save(store);
    }

    /** The bookmark icon: flips the icon and stores its new state as the current
        question's flag, which therefore flips; nothing else changes. */
    method ToggleBookmark()
      requires Valid() && screen == QuestionScreen
      modifies this`bookmarkActive, user, store
      ensures Valid() && screen == QuestionScreen
      ensures bookmarkActive == !old(bookmarkActive)
      ensures user.Snapshot() == old(user.Snapshot()).(marked :=
        old(user.marked)[old(user.currentIndex) := !old(user.marked[user.currentIndex])])
      ensures store.items == old(store.items)[StorageKey(user.id) := user.Snapshot()]
    {
      bookmarkActive := !bookmarkActive;
      user.marked := user.marked[user.currentIndex := bookmarkActive];
      user.Save(store);
    }

    /** The confirm button of a question card: before the last question it moves one
        question on and saves; on the last question it opens the warning screen and
        leaves the index and storage alone. */
    method Next()
      requires Valid() && screen == QuestionScreen
      modifies this`screen, this`bookmarkActive, this`summary, this`controls, user, store
      ensures Valid()
      ensures old(user.currentIndex) < LastIndex ==>
        user.Snapshot() == old(user.Snapshot()).(currentIndex := old(user.currentIndex) + 1) &&
        store.items == old(store.items)[StorageKey(user.id) := user.Snapshot()] &&
        screen == QuestionCard(user.Snapshot())
      ensures old(user.currentIndex) == LastIndex ==>
        user.Snapshot() == old(user.Snapshot()) && store.items == old(store.items) &&
        screen == WarningScreen && summary == Summary(user.questions, user.marked)
      ensures old(controls.confirmLabel) == "Submit" <==> screen == WarningScreen
    {
      if user.currentIndex < LastIndex {
        user.currentIndex := user.currentIndex + 1;
        user.Save(store);
        RenderQuestion();
      } else {
        RenderWarning();
      }
    }

    /** The back button of a question card: a no-op on the first question, otherwise
        one question back, saved. */
    method Back()
      requires Valid() && screen == QuestionScreen
      modifies this`screen, this`bookmarkActive, this`controls, user, store
      ensures Valid() && screen == QuestionScreen
      ensures old(user.currentIndex) == 0 ==>
        user.Snapshot() == old(user.Snapshot()) && store.items == old(store.items) &&
        bookmarkActive == old(bookmarkActive)
      ensures old(user.currentIndex) > 0 ==>
        user.Snapshot() == old(user.Snapshot()).(currentIndex := old(user.currentIndex) - 1) &&
        store.items == old(store.items)[StorageKey(user.id) := user.Snapshot()]
      ensures old(controls.backHidden) <==> user.Snapshot() == old(user.Snapshot())
    {
      if user.currentIndex > 0 {
        user.currentIndex := user.currentIndex - 1;
        user.Save(store);
        RenderQuestion();
      }
    }

    /** A question button of the warning screen: goes to the question whose position
        the button carries, which is a question index, and saves. */
    method JumpTo(k: nat)
      requires Valid() && screen == WarningScreen
      requires k < |summary|
      modifies this`screen, this`bookmarkActive, this`controls, user, store
      ensures Valid() && screen == QuestionScreen
      ensures user.currentIndex == k && k <= LastIndex
      ensures user.Snapshot() == old(user.Snapshot()).(currentIndex := k)
      ensures store.items == old(store.items)[StorageKey(user.id) := user.Snapshot()]
    {
      user.currentIndex := summary[k].index;
      user.Save(store);
      RenderQuestion();
    }

    /** The submit button of the warning screen: back to the first question, then
        scored, submitted and saved. */
    method Submit()
      requires Valid() && screen == WarningScreen
      modifies this`screen, user, store
      ensures Valid() && screen == ResultScreen
      ensures user.Snapshot() == old(user.Snapshot()).(currentIndex := 0,
        score := Score(old(user.data), old(user.answers)), submitted := true)
      ensures store.items == old(store.items)[StorageKey(user.id) := user.Snapshot()]
    {
      user.currentIndex := 0;
      ShowResult();
    }

    /** The "Show Answers" button of the result screen. */
    method ShowAnswers()
      requires Valid() && screen == ResultScreen
      modifies this`screen, this`controls
      ensures Valid()
      ensures screen == if user.currentIndex < |user.questions| then ReviewScreen else Stuck
    {
      RenderAnswers();
    }

    /** The back button while reviewing: one question back unless on the first;
        storage is never written while reviewing. */
    method ReviewBack()
      requires Valid() && screen == ReviewScreen
      modifies this`screen, this`controls, user
      ensures Valid() && screen == ReviewScreen && store.items == old(store.items)
      ensures user.Snapshot() == old(user.Snapshot()).(currentIndex :=
        if old(user.currentIndex) > 0 then old(user.currentIndex) - 1 else old(user.currentIndex))
      ensures old(controls.backHidden) <==> user.Snapshot() == old(user.Snapshot())
    {
      if user.currentIndex > 0 {
        user.currentIndex := user.currentIndex - 1;
        RenderAnswers();
      }
    }

    /** The next button while reviewing: it is only wired up before the last
        question, and moves one question on without saving. */
    method ReviewNext()
      requires Valid() && screen == ReviewScreen
      modifies this`screen, this`controls, user
      ensures Valid() && store.items == old(store.items)
      ensures user.currentIndex <= LastIndex
      ensures user.Snapshot() == old(user.Snapshot()).(currentIndex :=
        if old(user.currentIndex) < LastIndex then old(user.currentIndex) + 1 else old(user.currentIndex))
      ensures screen == if user.currentIndex < |user.questions| then ReviewScreen else Stuck
      ensures old(controls.confirmHidden) <==> user.Snapshot() == old(user.Snapshot())
    {
      if user.currentIndex < LastIndex {
        user.currentIndex := user.currentIndex + 1;
        RenderAnswers();
      }
    }
  }

  /** Flipping the bookmark twice restores both the user and storage. */
  method ToggleTwice(app: QuizApp)
    requires app.Valid() && app.screen == QuestionScreen
    modifies app`bookmarkActive, app.user, app.store
    ensures app.Valid() && app.screen == QuestionScreen
    ensures app.bookmarkActive == old(app.bookmarkActive)
    ensures app.user.Snapshot() == old(app.user.Snapshot())
    ensures app.store.items == old(app.store.items)
  {
    app.ToggleBookmark();
    app.ToggleBookmark();
  }

  /** Reloading the page and starting again with the same name and identifier resumes
      the user where it was: on the same question, or on the result with the same
      score. Nothing is fetched on resume, so the fetch result does not matter. */
  method ReloadAndResume(app: QuizApp, nameInput: string, idInput: string,
                         fetched: Option<seq<RawQuestion>>, order: seq<seq<nat>>)
    returns (again: QuizApp)
    requires app.Valid()
    requires app.screen == QuestionScreen || app.screen == WarningScreen || app.screen == ResultScreen
    requires Trim(nameInput) == app.user.name && Trim(idInput) == app.user.id
    requires fetched.Some? ==> |fetched.value| <= QuizLength
    modifies app.store
    ensures again.Valid() && again.user != null && fresh(again.user)
    ensures again.user.Snapshot() == app.user.Snapshot()
    ensures again.screen == if app.screen == ResultScreen then ResultScreen else QuestionScreen
    ensures app.store.items == old(app.store.items)
  {
    assert Resumes(app.store.items, Trim(nameInput), Trim(idInput));
    ghost var was := app.user.Snapshot();
    again := new QuizApp(app.store);
    again.StartQuiz(nameInput, idInput, fetched, order);
    assert again.user.Snapshot() == was;
  }

  /** The first visit of a browser that has stored nothing: no saved user can be
      resumed, so a valid start creates the user, and storage then holds that user
      alone, under its key. */
  method FirstVisit(nameInput: string, idInput: string, fetched: Option<seq<RawQuestion>>, order: seq<seq<nat>>)
    returns (app: QuizApp)
    requires fetched.Some? ==> |fetched.value| <= QuizLength
    ensures app.Valid()
    ensures (Trim(nameInput) == [] || Trim(idInput) == [] || fetched.None?) ==>
      app.screen == StartScreen && app.store.items == map[]
    ensures (Trim(nameInput) != [] && Trim(idInput) != [] && fetched.Some?) ==>
      app.user != null &&
      app.user.Snapshot() == UserRecord(Trim(nameInput), Trim(idInput), 0, 0, NoAnswers,
        fetched.value, PrepareQuestions(fetched.value, order), NoMarks, false) &&
      app.store.items == map[StorageKey(Trim(idInput)) := app.user.Snapshot()] &&
      app.screen == QuestionCard(app.user.Snapshot())
  {
    var store := new Store();
    app := new QuizApp(store);
    app.StartQuiz(nameInput, idInput, fetched, order);
  }
}

/** The quiz taker (`User`) and the browser storage it is saved in. Storage is a
    key-value map from `"user_" + id` to the saved form of a user; what
    `JSON.stringify` writes and `JSON.parse` reads back is that saved form itself. */
module Users {
  import opened Trivia

  datatype Option<T> = None | Some(value: T)

  /** Every field of a user, as `save` writes it and `load` reads it back. */
  datatype UserRecord = UserRecord(
    name: string,
    id: string,
    score: nat,
    currentIndex: nat,
    answers: seq<string>,
    data: seq<RawQuestion>,
    questions: seq<Question>,
    marked: seq<bool>,
    submitted: bool)

  /** What holds of every user the quiz creates and keeps: the index is a question
      position, there are ten answer slots and ten bookmark flags, the questions were
      prepared from the (at most ten) fetched ones, and the score is the computed
      score once the quiz is submitted and 0 before. */
  ghost predicate WellFormed(r: UserRecord) {
    r.currentIndex <= LastIndex &&
    |r.answers| == QuizLength && |r.marked| == QuizLength &&
    |r.data| <= QuizLength && PreparedFrom(r.questions, r.data) &&
    r.score == (if r.submitted then Score(r.data, r.answers) else 0)
  }

  /** The ten empty answers and ten cleared bookmarks of a new user. */
  const NoAnswers: seq<string> := seq(QuizLength, _ => "")
  const NoMarks: seq<bool> := seq(QuizLength, _ => false)

  /** The storage key of the user with identifier `id`. */
  function StorageKey(id: string): (key: string) {
    "user_" + id
  }

  /** Different identifiers never share a storage key. */
  lemma StorageKeyInjective(a: string, b: string)
    ensures StorageKey(a) == StorageKey(b) ==> a == b
  {
    assert StorageKey(a)[5..] == a;
    assert StorageKey(b)[5..] == b;
  }

  /** The contents of storage as this quiz writes them: every entry is a well-formed
      user saved under its own key. */
  ghost predicate StoreValid(items: map<string, UserRecord>) {
    forall key :: key in items ==> key == StorageKey(items[key].id) && WellFormed(items[key])
  }

  /** The user found under the key of `id` is the user with identifier `id`. */
  lemma StoredUnderOwnId(items: map<string, UserRecord>, id: string)
    requires StoreValid(items) && StorageKey(id) in items
    ensures items[StorageKey(id)].id == id && WellFormed(items[StorageKey(id)])
  {
    StorageKeyInjective(id, items[StorageKey(id)].id);
  }

  /** Browser storage (`localStorage`), restricted to this quiz's entries. */
  class Store {
    var items: map<string, UserRecord>

    ghost predicate Valid()
      reads this
    {
      StoreValid(items)
    }

    /** A browser that has never stored anything for the quiz. */
    constructor ()
      ensures Valid() && items == map[]
    {
      items := map[];
    }

    /** `localStorage.getItem(key)`: the stored value, or nothing (`null`). */
    function GetItem(key: string): (v: Option<UserRecord>)
      reads this
      ensures v.Some? <==> key in items
      ensures v.Some? ==> v.value == items[key]
    {
      if key in items then Some(items[key]) else None
    }

    /** `localStorage.setItem(key, value)`: replaces the entry under `key` only. */
    method SetItem(key: string, value: UserRecord)
      modifies this
      ensures items == old(items)[key := value]
    {
      items := items[key := value];
    }
  }

  class User {
    var name: string
    var id: string
    var score: nat
    var currentIndex: nat
    var answers: seq<string>
    var data: seq<RawQuestion>
    var questions: seq<Question>
    var marked: seq<bool>
    var submitted: bool

    /** The saved form of this user. */
    function Snapshot(): UserRecord
      reads this
    {
      UserRecord(name, id, score, currentIndex, answers, data, questions, marked, submitted)
    }

    ghost predicate Valid()
      reads this
    {
      WellFormed(Snapshot())
    }

    /** A new user: score 0, at the first question, ten empty answers, ten cleared
        bookmarks, no questions yet and not submitted. */
    constructor (name: string, id: string)
      ensures Valid()
      ensures Snapshot() == UserRecord(name, id, 0, 0, NoAnswers, [], [], NoMarks, false)
    {
      this.name := name;
      this.id := id;
      this.score := 0;
      this.currentIndex := 0;
      this.answers := NoAnswers;
      this.data := [];
      this.questions := [];
      this.marked := NoMarks;
      this.submitted := false;
    }

    /** `Object.assign(new User(), JSON.parse(userData))`: a user whose every field is
        the saved one. */
    constructor FromRecord(r: UserRecord)
      ensures Snapshot() == r
    {
      name := r.name;
      id := r.id;
      score := r.score;
      currentIndex := r.currentIndex;
      answers := r.answers;
      data := r.data;
      questions := r.questions;
      marked := r.marked;
      submitted := r.submitted;
    }

    /** Writes this user under its own key and leaves every other entry as it was. */
    method Save(store: Store)
      requires Valid() && store.Valid()
      modifies store
      ensures store.Valid()
      ensures store.items == old(store.items)[StorageKey(id) := Snapshot()]
    {
      store.SetItem(StorageKey(id), Snapshot());
    }

    /** The saved user with identifier `id`, as a new object, or `null` when nothing
        is stored under its key. */
    static method Load(store: Store, id: string) returns (u: User?)
      ensures u == null <==> StorageKey(id) !in store.items
      ensures u != null ==> fresh(u) && u.Snapshot() == store.items[StorageKey(id)]
    {
      var userData := store.GetItem(StorageKey(id));
      if userData.Some? {
        u := new User.FromRecord(userData.value);
      } else {
        u := null;
      }
    }
  }

  /** Saving a user and loading it back by its identifier gives the same user. */
  method SaveThenLoad(u: User, store: Store) returns (back: User?)
    requires u.Valid() && store.Valid()
    modifies store
    ensures store.Valid()
    ensures back != null && fresh(back) && back.Snapshot() == u.Snapshot()
  {
    u.Save(store);
    back := User.Load(store, u.id);
  }
}

/** The UpdateNote use-case: re-validate the changed note, refuse a title the
    owner already uses, then write the title and the content that were given. */
module UpdateNoteUseCase {
  import opened Shared
  import opened Arrays
  import opened Records
  import opened Errors
  import opened Entities
  import opened NoteRepository
  import opened UserRepository

  function HasTitle(title: string): NoteData -> bool
  {
    (note: NoteData) => note.title == title
  }

  /** The collision check: among the notes of `ownerId` one already carries
      `title`. It does not leave out the note being edited, so a title is
      taken exactly when some stored note of that owner has it. */
  function TitleTaken(notes: seq<NoteData>, ownerId: string, title: string): (taken: bool)
    ensures taken <==> exists j | 0 <= j < |notes| :: notes[j].ownerId == ownerId && notes[j].title == title
  {
    Find(Filter(notes, OwnedBy(ownerId)), HasTitle(title)).Some?
  }

  /** Another owner's note never causes a collision, wherever it sits in the
      store. */
  lemma OtherOwnersIgnored(before: seq<NoteData>, other: NoteData, after: seq<NoteData>, ownerId: string, title: string)
    requires other.ownerId != ownerId
    ensures TitleTaken(before + [other] + after, ownerId, title) == TitleTaken(before + after, ownerId, title)
  {
    var p := OwnedBy(ownerId);
    assert Filter([other], p) == [] by {
      assert [other][1..] == [];
    }
    calc {
      Filter(before + [other] + after, p);
      { FilterAppend(before + [other], after, p); }
      Filter(before + [other], p) + Filter(after, p);
      { FilterAppend(before, [other], p); }
      Filter(before, p) + Filter(after, p);
      { FilterAppend(before, after, p); }
      Filter(before + after, p);
    }
  }

  /** Resubmitting a note's current title collides with the note itself. */
  lemma ResubmittedTitleCollides(notes: seq<NoteData>, changed: NoteData)
    requires exists j | 0 <= j < |notes| ::
      notes[j].id == changed.id && notes[j].ownerId == changed.ownerId && notes[j].title == changed.title
    ensures TitleTaken(notes, changed.ownerId, changed.title)
  {
  }

  /** The store after the conditional writes of a successful update: the
      title when one is given, then the content when one is given. Only the
      first note with the changed id is touched: it gets each given field,
      keeps each omitted one, and every other note stays as it was. */
  function ApplyChanges(notes: seq<NoteData>, changed: NoteData): (r: seq<NoteData>)
    ensures |r| == |notes|
    ensures FindIndex(notes, HasId(changed.id)).None? ==> r == notes
    ensures forall i | 0 <= i < |notes| && FindIndex(notes, HasId(changed.id)) != Some(i) :: r[i] == notes[i]
    ensures FindIndex(notes, HasId(changed.id)).Some? ==>
      var k := FindIndex(notes, HasId(changed.id)).value;
      r[k] == notes[k].(
        title := if changed.title != "" then changed.title else notes[k].title,
        content := if changed.content != "" then changed.content else notes[k].content)
  {
    var afterTitle := if changed.title != "" then WithTitle(notes, changed.id, changed.title) else notes;
    if changed.content != "" then WithContent(afterTitle, changed.id, changed.content) else afterTitle
  }

  /** The stored user behind `email` exists and passes User.create, which the
      source's unchecked cast takes for granted. */
  predicate OwnerOnRecord(rules: Rules, users: seq<UserData>, email: string)
  {
    && UserWithEmail(users, email).Some?
    && CreateUser(rules, UserWithEmail(users, email).value.email, UserWithEmail(users, email).value.password).Right?
  }

  class UpdateNote {
    const noteRepository: InMemoryNoteRepository
    const userRepository: InMemoryUserRepository
    const rules: Rules

    constructor (noteRepository: InMemoryNoteRepository, userRepository: InMemoryUserRepository, rules: Rules)
      ensures this.noteRepository == noteRepository && this.userRepository == userRepository && this.rules == rules
    {
      this.noteRepository := noteRepository;
      this.userRepository := userRepository;
      this.rules := rules;
    }

    method Perform(changed: NoteData) returns (r: Either<Error, NoteData>)
      requires OwnerOnRecord(rules, userRepository.users, changed.ownerEmail)
      modifies noteRepository
      ensures noteRepository.idCounter == old(noteRepository.idCounter)
      ensures !rules.isTitle(changed.title) ==>
        r == Left(InvalidTitleError(changed.title)) && noteRepository.data == old(noteRepository.data)
      ensures rules.isTitle(changed.title) && TitleTaken(old(noteRepository.data), changed.ownerId, changed.title) ==>
        r == Left(ExistingTitleError) && noteRepository.data == old(noteRepository.data)
      ensures rules.isTitle(changed.title) && !TitleTaken(old(noteRepository.data), changed.ownerId, changed.title) ==>
        r == Right(changed) && noteRepository.data == ApplyChanges(old(noteRepository.data), changed)
    {
      var userData := userRepository.FindByEmail(changed.ownerEmail);
      var owner := CreateUser(rules, userData.value.email, userData.value.password).right;
      var noteOrError := CreateNote(rules, owner, changed.title, changed.content);
      if noteOrError.Left? {
        return Left(noteOrError.left);
      }

      var changedNote := noteOrError.right;
      var notesFromUser := noteRepository.FindAllNotesFrom(changed.ownerId);
      var found := Find(notesFromUser, HasTitle(changedNote.title.value));
      if found.Some? {
        return Left(ExistingTitleError);
      }

      if changed.title != "" {
        var _ := noteRepository.UpdateTitle(changed.id, changed.title);
      }
      if changed.content != "" {
        var _ := noteRepository.UpdateContent(changed.id, changed.content);
      }
      return Right(changed);
    }
  }

  /** A title that passes validation is never empty under the tested rules,
      so a successful update always writes the title. */
  lemma ValidTitleIsWritten(rules: Rules, notes: seq<NoteData>, changed: NoteData)
    requires AgreesWithTests(rules) && rules.isTitle(changed.title)
    requires FindIndex(notes, HasId(changed.id)).Some?
    ensures ApplyChanges(notes, changed)[FindIndex(notes, HasId(changed.id)).value].title == changed.title
  {
  }

  /** Two notes of one owner; renaming the second to the first one's title is
      refused and leaves the store as it was. */
  method RenameToSiblingTitle(rules: Rules, owner: UserData)
    returns (r: Either<Error, NoteData>, before: seq<NoteData>, after: seq<NoteData>)
    requires AgreesWithTests(rules)
    requires CreateUser(rules, owner.email, owner.password).Right?
    ensures r == Left(ExistingTitleError)
    ensures after == before && |after| == 2
  {
    var users := new InMemoryUserRepository([owner]);
    var notes := new InMemoryNoteRepository([]);
    var a := notes.Add(NoteData("", "u", owner.email, "my note", "first"));
    var b := notes.Add(NoteData("", "u", owner.email, "other", "second"));
    before := notes.data;
    var useCase := new UpdateNote(notes, users, rules);
    assert TitleTaken(before, "u", "my note") by {
      assert before[0].ownerId == "u" && before[0].title == "my note";
    }
    r := useCase.Perform(b.(title := "my note"));
    after := notes.data;
  }
}

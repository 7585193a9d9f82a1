/** The array-backed note store the use-cases run against: notes kept in
    insertion order and ids handed out by a counter that starts at 0. */
module NoteRepository {
  import opened Shared
  import opened Arrays
  import opened Records

  function HasId(id: string): NoteData -> bool
  {
    (note: NoteData) => note.id == id
  }

  function OwnedBy(userId: string): NoteData -> bool
  {
    (note: NoteData) => note.ownerId == userId
  }

  /** The store after setting the title of the first note with `id`. */
  function WithTitle(notes: seq<NoteData>, id: string, title: string): (r: seq<NoteData>)
    ensures |r| == |notes|
    ensures forall i | 0 <= i < |r| ::
      r[i] == if FindIndex(notes, HasId(id)) == Some(i) then notes[i].(title := title) else notes[i]
  {
    match FindIndex(notes, HasId(id))
    case None => notes
    case Some(k) => notes[k := notes[k].(title := title)]
  }

  /** The store after setting the content of the first note with `id`. */
  function WithContent(notes: seq<NoteData>, id: string, content: string): (r: seq<NoteData>)
    ensures |r| == |notes|
    ensures forall i | 0 <= i < |r| ::
      r[i] == if FindIndex(notes, HasId(id)) == Some(i) then notes[i].(content := content) else notes[i]
  {
    match FindIndex(notes, HasId(id))
    case None => notes
    case Some(k) => notes[k := notes[k].(content := content)]
  }

  /** A field write never moves a note or changes an id, so the note it
      targets is still the first one with that id afterwards. */
  lemma WithTitleKeepsIds(notes: seq<NoteData>, id: string, title: string, other: string)
    ensures FindIndex(WithTitle(notes, id, title), HasId(other)) == FindIndex(notes, HasId(other))
  {
    FindIndexSameMatches(WithTitle(notes, id, title), HasId(other), notes, HasId(other));
  }

  lemma WithContentKeepsIds(notes: seq<NoteData>, id: string, content: string, other: string)
    ensures FindIndex(WithContent(notes, id, content), HasId(other)) == FindIndex(notes, HasId(other))
  {
    FindIndexSameMatches(WithContent(notes, id, content), HasId(other), notes, HasId(other));
  }

  /** The two field writes touch different fields of the same note, so the
      order UpdateNote issues them in does not change the final store. */
  lemma FieldWritesCommute(notes: seq<NoteData>, id: string, title: string, content: string)
    ensures WithContent(WithTitle(notes, id, title), id, content)
         == WithTitle(WithContent(notes, id, content), id, title)
  {
  }

  class InMemoryNoteRepository {
    var data: seq<NoteData>
    var idCounter: nat

    constructor (initial: seq<NoteData>)
      ensures data == initial && idCounter == 0
    {
      data := initial;
      idCounter := 0;
    }

    /** Stamps the note with the counter's decimal string, bumps the counter
        and appends the note. */
    method Add(note: NoteData) returns (added: NoteData)
      modifies this
      ensures added == note.(id := Decimal(old(idCounter)))
      ensures idCounter == old(idCounter) + 1
      ensures data == old(data) + [added]
    {
      added := note.(id := Decimal(idCounter));
      idCounter := idCounter + 1;
      data := data + [added];
    }

    /** The stored notes of `userId`, in stored order. */
    method FindAllNotesFrom(userId: string) returns (notes: seq<NoteData>)
      ensures forall j | 0 <= j < |notes| :: notes[j] in data && notes[j].ownerId == userId
      ensures forall j | 0 <= j < |data| :: data[j].ownerId == userId ==> data[j] in notes
      ensures notes == Filter(data, OwnedBy(userId))
    {
      notes := Filter(data, OwnedBy(userId));
    }

    /** The first stored note with `noteId`, or None for JavaScript's null. */
    method FindById(noteId: string) returns (note: Option<NoteData>)
      ensures note.None? <==> forall j | 0 <= j < |data| :: data[j].id != noteId
      ensures note.Some? ==> note.value == data[FindIndex(data, HasId(noteId)).value]
    {
      note := Find(data, HasId(noteId));
    }

    /** Takes the first note with `noteId` out of the store and returns it;
        an absent id changes nothing. */
    method Remove(noteId: string) returns (removed: Option<NoteData>)
      modifies this
      ensures idCounter == old(idCounter)
      ensures FindIndex(old(data), HasId(noteId)).None? ==> removed.None? && data == old(data)
      ensures FindIndex(old(data), HasId(noteId)).Some? ==>
        var k := FindIndex(old(data), HasId(noteId)).value;
        removed == Some(old(data)[k]) && data == RemoveAt(old(data), k)
    {
      var noteToBeRemoved := Find(data, HasId(noteId));
      if noteToBeRemoved.None? {
        return None;
      }
      data := RemoveAt(data, FindIndex(data, HasId(noteId)).value);
      return noteToBeRemoved;
    }

    /** Sets the title of the first note with `noteId`; false when there is
        none. */
    method UpdateTitle(noteId: string, newTitle: string) returns (updated: bool)
      modifies this
      ensures updated <==> exists j | 0 <= j < |old(data)| :: old(data)[j].id == noteId
      ensures data == WithTitle(old(data), noteId, newTitle)
      ensures idCounter == old(idCounter)
    {
      var originalNote := FindById(noteId);
      if originalNote.None? {
        return false;
      }
      var k := FindIndex(data, HasId(noteId)).value;
      data := data[k := data[k].(title := newTitle)];
      return true;
    }

    /** Sets the content of the first note with `noteId`; false when there is
        none. */
    method UpdateContent(noteId: string, newContent: string) returns (updated: bool)
      modifies this
      ensures updated <==> exists j | 0 <= j < |old(data)| :: old(data)[j].id == noteId
      ensures data == WithContent(old(data), noteId, newContent)
      ensures idCounter == old(idCounter)
    {
      var originalNote := FindById(noteId);
      if originalNote.None? {
        return false;
      }
      var k := FindIndex(data, HasId(noteId)).value;
      data := data[k := data[k].(content := newContent)];
      return true;
    }
  }

  /** Successive adds are numbered "0", "1", "2" whatever the store held
      before, and the stored notes keep their order. */
  method SuccessiveAdds(initial: seq<NoteData>, a: NoteData, b: NoteData, c: NoteData)
    returns (ids: seq<string>, stored: seq<NoteData>)
    ensures ids == ["0", "1", "2"]
    ensures stored == initial + [a.(id := "0"), b.(id := "1"), c.(id := "2")]
  {
    var repository := new InMemoryNoteRepository(initial);
    var first := repository.Add(a);
    var second := repository.Add(b);
    var third := repository.Add(c);
    ids := [first.id, second.id, third.id];
    stored := repository.data;
  }
}

/**
 * Account notifications and the lists of unread and unarchived ids kept beside them.
 */
module Notifications {
  import opened Wrappers
  import opened Lists

  datatype NoteKey = NoteKey(accountId: string, id: string)

  // What of a stored notification the lists depend on.
  datatype Note = Note(isRead: Option<bool>, isArchived: bool, isMuted: Option<bool>)

  datatype Model = Model(accountId: string, id: string, note: Note)

  datatype UpdateDto = UpdateDto(isMuted: Option<bool>, isRead: Option<bool>, isArchived: Option<bool>)

  datatype Ids = Ids(notReadIds: seq<string>, notArchivedIds: seq<string>)

  datatype Books = Books(notes: map<NoteKey, Note>, index: map<string, Ids>)

  const EMPTY := Books(map[], map[])

  function KeyOf(m: Model): NoteKey {
    NoteKey(m.accountId, m.id)
  }

  predicate IsRead(note: Note) {
    note.isRead == Some(true)
  }

  // ---------- one account ----------

  // setAccountNotificationId
  function TrackNote(ids: Ids, id: string, note: Note): Ids {
    Ids(Track(ids.notReadIds, id, IsRead(note)), Track(ids.notArchivedIds, id, note.isArchived))
  }

  function TrackAll(ids: Ids, models: seq<Model>): Ids {
    if models == [] then ids
    else
      var last := models[|models| - 1];
      TrackNote(TrackAll(ids, models[..|models| - 1]), last.id, last.note)
  }

  function IdsOf(index: map<string, Ids>, accountId: string): Ids {
    if accountId in index then index[accountId] else Ids([], [])
  }

  // The models of an account, in order.
  function Of(models: seq<Model>, accountId: string): seq<Model> {
    if models == [] then []
    else
      var last := models[|models| - 1];
      Of(models[..|models| - 1], accountId) + (if last.accountId == accountId then [last] else [])
  }

  function Accounts(models: seq<Model>): set<string> {
    set m | m in models :: m.accountId
  }

  // ---------- the operations ----------

  function PutNotes(notes: map<NoteKey, Note>, models: seq<Model>): map<NoteKey, Note> {
    if models == [] then notes
    else
      var last := models[|models| - 1];
      PutNotes(notes, models[..|models| - 1])[KeyOf(last) := last.note]
  }

  // The lists of these accounts with their models tracked.
  function Indexed(index: map<string, Ids>, models: seq<Model>, accounts: set<string>): map<string, Ids> {
    map a | a in index.Keys + accounts :: if a in accounts then TrackAll(IdsOf(index, a), Of(models, a)) else index[a]
  }

  function Create(b: Books, models: seq<Model>): Books {
    Books(PutNotes(b.notes, models),
          Indexed(b.index, models, Accounts(models)))
  }

  function Merged(note: Note, dto: UpdateDto): Note {
    Note(if dto.isRead.Some? then dto.isRead else note.isRead,
         if dto.isArchived.Some? then dto.isArchived.value else note.isArchived,
         if dto.isMuted.Some? then dto.isMuted else note.isMuted)
  }

  function Update(b: Books, accountId: string, id: string, dto: UpdateDto): Books {
    var key := NoteKey(accountId, id);
    if key in b.notes then
      var note := Merged(b.notes[key], dto);
      Books(b.notes[key := note], b.index[accountId := TrackNote(IdsOf(b.index, accountId), id, note)])
    else b
  }

  // These notifications of an account, each changed the same way.
  function Marked(notes: map<NoteKey, Note>, accountId: string, ids: seq<string>,
                  mark: Note -> Note): map<NoteKey, Note>
  {
    map k | k in notes :: if k.accountId == accountId && k.id in ids then mark(notes[k]) else notes[k]
  }

  function SetRead(note: Note): Note {
    note.(isRead := Some(true))
  }

  function SetArchived(note: Note): Note {
    note.(isArchived := true)
  }

  function ReadAll(b: Books, accountId: string): Books {
    var ids := IdsOf(b.index, accountId);
    if ids.notReadIds == [] then b
    else Books(Marked(b.notes, accountId, ids.notReadIds, SetRead), b.index[accountId := ids.(notReadIds := [])])
  }

  // Archiving walks the unread ids too.
  function ArchiveAll(b: Books, accountId: string): Books {
    var ids := IdsOf(b.index, accountId);
    if ids.notReadIds == [] then b
    else Books(Marked(b.notes, accountId, ids.notReadIds, SetArchived),
               b.index[accountId := ids.(notArchivedIds := [])])
  }

  class AccountNotificationService {
    var notes: map<NoteKey, Note>
    var index: map<string, Ids>

    ghost function Now(): Books
      reads this
    {
      Books(notes, index)
    }

    constructor ()
      ensures Now() == EMPTY
    {
      notes, index := map[], map[];
    }

    method CreateMultiple(models: seq<Model>)
      modifies this
      ensures Now() == Create(old(Now()), models)
    {
      BatchPut(models);
      SetAccountsNotificationIds(models);
    }

    method BatchPut(models: seq<Model>)
      modifies `notes
      ensures notes == PutNotes(old(notes), models)
    {
      for i := 0 to |models|
        invariant notes == PutNotes(old(notes), models[..i])
      {
        assert models[..i + 1][..i] == models[..i];
        notes := notes[KeyOf(models[i]) := models[i].note];
      }
      assert models[..|models|] == models;
    }

    static method GroupByAccount(models: seq<Model>) returns (accountsMap: map<string, seq<Model>>)
      ensures Grouped(accountsMap, models)
    {
      hide Grouped;
      accountsMap := map[];
      NoneGrouped();
      for i := 0 to |models|
        invariant Grouped(accountsMap, models[..i])
      {
        var m := models[i];
        OneMoreGrouped(accountsMap, models[..i], m);
        assert models[..i + 1] == models[..i] + [m];
        if m.accountId in accountsMap {
          accountsMap := accountsMap[m.accountId := accountsMap[m.accountId] + [m]];
        } else {
          accountsMap := accountsMap[m.accountId := [m]];
        }
      }
      assert models[..|models|] == models;
    }

    // One account after another, in any order.
    method SetAccountsNotificationIds(models: seq<Model>)
      modifies `index
      ensures index == Indexed(old(index), models, Accounts(models))
    {
      hide Indexed, TrackAll, Of, IdsOf, Accounts;
      var accountsMap := GroupByAccount(models);
      var left, done := accountsMap.Keys, {};
      IndexedNone(index, models);
      while left != {}
        invariant left + done == accountsMap.Keys && left !! done
        invariant index == Indexed(old(index), models, done)
        decreases |left|
      {
        var a :| a in left;
        IndexedOneMore(old(index), models, done, a);
        SetAccountNotificationIds(a, accountsMap[a]);
        left, done := left - {a}, done + {a};
      }
    }

    method SetAccountNotificationIds(accountId: string, models: seq<Model>)
      modifies `index
      ensures index == old(index)[accountId := TrackAll(IdsOf(old(index), accountId), models)]
    {
      var model := IdsOf(index, accountId);
      for i := 0 to |models|
        invariant model == TrackAll(IdsOf(index, accountId), models[..i]) && index == old(index)
      {
        assert models[..i + 1][..i] == models[..i];
        model := TrackNote(model, models[i].id, models[i].note);
      }
      assert models[..|models|] == models;
      index := index[accountId := model];
    }

    // false: BadRequest
    method UpdateAccountNotification(accountId: string, id: string, dto: UpdateDto) returns (ok: bool)
      modifies this
      ensures ok <==> NoteKey(accountId, id) in old(notes)
      ensures Now() == Update(old(Now()), accountId, id, dto)
    {
      var key := NoteKey(accountId, id);
      if key !in notes {
        return false;
      }
      var updated := Merged(notes[key], dto);
      notes := notes[key := updated];
      var models := [Model(accountId, id, updated)];
      assert models[..0] == [] && TrackAll(IdsOf(index, accountId), models[..0]) == IdsOf(index, accountId);
      SetAccountNotificationIds(accountId, models);
      return true;
    }

    // updateItem with its condition; false: ConditionalCheckFailedException
    method UpdateNote(accountId: string, id: string, mark: Note -> Note) returns (ok: bool)
      modifies `notes
      ensures ok <==> NoteKey(accountId, id) in old(notes)
      ensures notes == Marked(old(notes), accountId, [id], mark)
    {
      var key := NoteKey(accountId, id);
      ok := key in notes;
      if ok {
        notes := notes[key := mark(notes[key])];
      }
    }

    ghost predicate AllStored(accountId: string, ids: seq<string>)
      reads this
    {
      forall id :: id in ids ==> NoteKey(accountId, id) in notes
    }

    // It throws if an unread id has no notification any more.
    method ReadAccountNotifications(accountId: string) returns (ok: bool)
      modifies this
      ensures ok <==> old(AllStored(accountId, IdsOf(index, accountId).notReadIds))
      ensures ok ==> Now() == ReadAll(old(Now()), accountId)
    {
      hide Marked;
      if accountId in index {
        var ids := index[accountId].notReadIds;
        MarkedNone(notes, accountId, SetRead);
        for i := 0 to |ids|
          invariant AllStored(accountId, ids[..i]) && notes.Keys == old(notes.Keys)
          invariant notes == Marked(old(notes), accountId, ids[..i], SetRead)
          invariant index == if i == 0 then old(index)
            else old(index)[accountId := old(index)[accountId].(notReadIds := [])]
        {
          MarkedOneMore(old(notes), accountId, ids[..i], ids[i], SetRead);
          ok := UpdateNote(accountId, ids[i], SetRead);
          if !ok {
            assert ids[i] in ids;
            return;
          }
          assert ids[..i + 1] == ids[..i] + [ids[i]];
          MarkedKeys(old(notes), accountId, ids[..i + 1], SetRead);
          index := index[accountId := index[accountId].(notReadIds := [])];
        }
        assert ids[..|ids|] == ids;
      }
      ok := true;
    }

    method ArchiveAccountNotifications(accountId: string) returns (ok: bool)
      modifies this
      ensures ok <==> old(AllStored(accountId, IdsOf(index, accountId).notReadIds))
      ensures ok ==> Now() == ArchiveAll(old(Now()), accountId)
    {
      hide Marked;
      if accountId in index {
        var ids := index[accountId].notReadIds;
        MarkedNone(notes, accountId, SetArchived);
        for i := 0 to |ids|
          invariant AllStored(accountId, ids[..i]) && notes.Keys == old(notes.Keys)
          invariant notes == Marked(old(notes), accountId, ids[..i], SetArchived)
          invariant index == if i == 0 then old(index)
            else old(index)[accountId := old(index)[accountId].(notArchivedIds := [])]
        {
          MarkedOneMore(old(notes), accountId, ids[..i], ids[i], SetArchived);
          ok := UpdateNote(accountId, ids[i], SetArchived);
          if !ok {
            assert ids[i] in ids;
            return;
          }
          assert ids[..i + 1] == ids[..i] + [ids[i]];
          MarkedKeys(old(notes), accountId, ids[..i + 1], SetArchived);
          index := index[accountId := index[accountId].(notArchivedIds := [])];
        }
        assert ids[..|ids|] == ids;
      }
      ok := true;
    }
  }

  lemma {:induction false} NoneOf(models: seq<Model>, accountId: string)
    ensures accountId !in Accounts(models) ==> Of(models, accountId) == []
  {
    if models != [] {
      assert models[|models| - 1] in models;
      assert Accounts(models[..|models| - 1]) <= Accounts(models);
      NoneOf(models[..|models| - 1], accountId);
    }
  }

  // Every account has its models, in order.
  ghost predicate Grouped(accountsMap: map<string, seq<Model>>, models: seq<Model>) {
    accountsMap.Keys == Accounts(models) && forall a :: a in accountsMap ==> accountsMap[a] == Of(models, a)
  }

  lemma NoneGrouped()
    ensures Grouped(map[], [])
  {}

  lemma OneMoreGrouped(accountsMap: map<string, seq<Model>>, models: seq<Model>, m: Model)
    requires Grouped(accountsMap, models)
    ensures var group := if m.accountId in accountsMap then accountsMap[m.accountId] + [m] else [m];
      Grouped(accountsMap[m.accountId := group], models + [m])
  {
    OfOneMore(models, m);
    hide Of, Accounts;
    var group := if m.accountId in accountsMap then accountsMap[m.accountId] + [m] else [m];
    assert Of(models + [m], m.accountId) == group;
    forall a | a in accountsMap && a != m.accountId ensures Of(models + [m], a) == accountsMap[a] {
      assert Of(models, a) + [] == Of(models, a);
    }
  }

  lemma OfOneMore(models: seq<Model>, m: Model)
    ensures Accounts(models + [m]) == Accounts(models) + {m.accountId}
    ensures forall a :: Of(models + [m], a) == Of(models, a) + if m.accountId == a then [m] else []
    ensures m.accountId !in Accounts(models) ==> Of(models, m.accountId) == []
  {
    assert (models + [m])[..|models|] == models;
    NoneOf(models, m.accountId);
  }

  lemma IndexedNone(index: map<string, Ids>, models: seq<Model>)
    ensures Indexed(index, models, {}) == index
  {}

  lemma IndexedOneMore(index: map<string, Ids>, models: seq<Model>, accounts: set<string>, a: string)
    requires a !in accounts
    ensures var before := Indexed(index, models, accounts);
      before[a := TrackAll(IdsOf(before, a), Of(models, a))] == Indexed(index, models, accounts + {a})
  {}

  // Marking one more.
  lemma MarkedOneMore(notes: map<NoteKey, Note>, accountId: string, ids: seq<string>, id: string, mark: Note -> Note)
    requires forall n :: mark(mark(n)) == mark(n)
    ensures Marked(Marked(notes, accountId, ids, mark), accountId, [id], mark)
      == Marked(notes, accountId, ids + [id], mark)
  {}

  lemma MarkedKeys(notes: map<NoteKey, Note>, accountId: string, ids: seq<string>, mark: Note -> Note)
    ensures Marked(notes, accountId, ids, mark).Keys == notes.Keys
  {}

  lemma MarkedNone(notes: map<NoteKey, Note>, accountId: string, mark: Note -> Note)
    ensures Marked(notes, accountId, [], mark) == notes
  {}

  // ---------- the unread list is exact ----------

  ghost predicate Unread(b: Books, accountId: string, id: string) {
    NoteKey(accountId, id) in b.notes && !IsRead(b.notes[NoteKey(accountId, id)])
  }

  // The list has the ids of the account's unread notifications, each once.
  ghost predicate UnreadExact(b: Books, accountId: string) {
    var ids := IdsOf(b.index, accountId).notReadIds;
    Distinct(ids) && forall id :: id in ids <==> Unread(b, accountId, id)
  }

  ghost predicate Unarchived(b: Books, accountId: string, id: string) {
    NoteKey(accountId, id) in b.notes && !b.notes[NoteKey(accountId, id)].isArchived
  }

  ghost predicate UnarchivedExact(b: Books, accountId: string) {
    var ids := IdsOf(b.index, accountId).notArchivedIds;
    Distinct(ids) && forall id :: id in ids <==> Unarchived(b, accountId, id)
  }

  ghost predicate SameAccount(b: Books, b': Books, accountId: string) {
    && IdsOf(b.index, accountId) == IdsOf(b'.index, accountId)
    && forall id :: (Unread(b, accountId, id) <==> Unread(b', accountId, id))
                    && (Unarchived(b, accountId, id) <==> Unarchived(b', accountId, id))
  }

  // Storing one notification and tracking it keeps every account's lists exact.
  lemma StoreAndTrack(b: Books, b': Books, a: string, id: string, note: Note, c: string)
    requires b'.notes == b.notes[NoteKey(a, id) := note]
    requires IdsOf(b'.index, c) == if c == a then TrackNote(IdsOf(b.index, a), id, note) else IdsOf(b.index, c)
    ensures UnreadExact(b, c) ==> UnreadExact(b', c)
    ensures UnarchivedExact(b, c) ==> UnarchivedExact(b', c)
  {
    hide Track, IdsOf, Distinct;
    if c == a {
      var ids := IdsOf(b.index, a);
      if UnreadExact(b, c) {
        TrackSets(ids.notReadIds, id, IsRead(note));
        assert forall x :: Unread(b', c, x) <==> if x == id then !IsRead(note) else Unread(b, c, x);
      }
      if UnarchivedExact(b, c) {
        TrackSets(ids.notArchivedIds, id, note.isArchived);
        assert forall x :: Unarchived(b', c, x) <==> if x == id then !note.isArchived else Unarchived(b, c, x);
      }
    } else {
      assert SameAccount(b, b', c);
    }
  }

  lemma CreatedIds(b: Books, models: seq<Model>, c: string)
    ensures IdsOf(Create(b, models).index, c) == TrackAll(IdsOf(b.index, c), Of(models, c))
  {
    NoneOf(models, c);
  }

  lemma TrackOneMore(ids: Ids, models: seq<Model>, m: Model)
    ensures TrackAll(ids, models + [m]) == TrackNote(TrackAll(ids, models), m.id, m.note)
  {
    assert (models + [m])[..|models + [m]| - 1] == models;
  }

  lemma {:induction false} CreateKeeps(b: Books, models: seq<Model>, c: string)
    ensures UnreadExact(b, c) ==> UnreadExact(Create(b, models), c)
    ensures UnarchivedExact(b, c) ==> UnarchivedExact(Create(b, models), c)
    decreases |models|
  {
    hide TrackNote, UnreadExact, UnarchivedExact, Indexed;
    if models == [] {
      IndexedNone(b.index, models);
      assert Accounts(models) == {};
    } else {
      var before := models[..|models| - 1];
      var last := models[|models| - 1];
      CreateKeeps(b, before, c);
      CreatedIds(b, before, c);
      CreatedIds(b, models, c);
      TrackOneMore(IdsOf(b.index, c), Of(before, c), last);
      assert models == before + [last];
      OfOneMore(before, last);
      assert Of(before, c) + [] == Of(before, c);
      StoreAndTrack(Create(b, before), Create(b, models), last.accountId, last.id, last.note, c);
    }
  }

  lemma UpdateKeeps(b: Books, a: string, id: string, dto: UpdateDto, c: string)
    ensures UnreadExact(b, c) ==> UnreadExact(Update(b, a, id, dto), c)
    ensures UnarchivedExact(b, c) ==> UnarchivedExact(Update(b, a, id, dto), c)
  {
    hide TrackNote, UnreadExact, UnarchivedExact;
    if NoteKey(a, id) in b.notes {
      StoreAndTrack(b, Update(b, a, id, dto), a, id, Merged(b.notes[NoteKey(a, id)], dto), c);
    }
  }

  lemma ReadKeeps(b: Books, a: string, c: string)
    requires UnreadExact(b, a)
    ensures UnreadExact(b, c) ==> UnreadExact(ReadAll(b, a), c)
    ensures UnarchivedExact(b, c) ==> UnarchivedExact(ReadAll(b, a), c)
  {
    var b' := ReadAll(b, a);
    if c != a {
      assert SameAccount(b, b', c);
    } else if b' != b {
      forall id ensures !Unread(b', a, id) {
        assert NoteKey(a, id) in b'.notes <==> NoteKey(a, id) in b.notes;
        if NoteKey(a, id) in b.notes && id !in IdsOf(b.index, a).notReadIds {
          assert !Unread(b, a, id);
        }
      }
      assert forall id :: Unarchived(b', a, id) <==> Unarchived(b, a, id);
    }
  }

  lemma ArchiveKeepsUnread(b: Books, a: string, c: string)
    ensures UnreadExact(b, c) ==> UnreadExact(ArchiveAll(b, a), c)
  {
    var b' := ArchiveAll(b, a);
    forall id ensures Unread(b', c, id) <==> Unread(b, c, id) {
      assert NoteKey(c, id) in b'.notes <==> NoteKey(c, id) in b.notes;
    }
  }

  datatype Op = CreateOp(models: seq<Model>)
              | UpdateOp(accountId: string, id: string, dto: UpdateDto)
              | ReadOp(accountId: string)
              | ArchiveOp(accountId: string)

  function Perform(b: Books, op: Op): Books {
    match op
    case CreateOp(models) => Create(b, models)
    case UpdateOp(a, id, dto) => Update(b, a, id, dto)
    case ReadOp(a) => ReadAll(b, a)
    case ArchiveOp(a) => ArchiveAll(b, a)
  }

  function PerformAll(b: Books, ops: seq<Op>): Books
    decreases |ops|
  {
    if ops == [] then b else PerformAll(Perform(b, ops[0]), ops[1..])
  }

  lemma PerformKeeps(b: Books, op: Op)
    requires forall c :: UnreadExact(b, c)
    ensures forall c :: UnreadExact(Perform(b, op), c)
  {
    forall c ensures UnreadExact(Perform(b, op), c) {
      match op
      case CreateOp(models) => CreateKeeps(b, models, c);
      case UpdateOp(a, id, dto) => UpdateKeeps(b, a, id, dto, c);
      case ReadOp(a) => ReadKeeps(b, a, c);
      case ArchiveOp(a) => ArchiveKeepsUnread(b, a, c);
    }
  }

  lemma {:induction false} PerformAllKeeps(b: Books, ops: seq<Op>)
    requires forall c :: UnreadExact(b, c)
    ensures forall c :: UnreadExact(PerformAll(b, ops), c)
    decreases |ops|
  {
    if ops != [] {
      PerformKeeps(b, ops[0]);
      PerformAllKeeps(Perform(b, ops[0]), ops[1..]);
    }
  }

  // After any operations, every account's unread list is exact; so read-all and archive-all never throw.
  lemma UnreadListsExact(ops: seq<Op>, accountId: string)
    ensures var b := PerformAll(EMPTY, ops);
      UnreadExact(b, accountId)
      && forall id :: id in IdsOf(b.index, accountId).notReadIds ==> NoteKey(accountId, id) in b.notes
  {
    PerformAllKeeps(EMPTY, ops);
    assert UnreadExact(PerformAll(EMPTY, ops), accountId);
  }

  // Archive-all empties the unarchived list but archives the unread notifications only: it keeps the list exact
  // exactly when nothing is unread, or everything unarchived is.
  lemma ArchiveAllExactly(b: Books, a: string)
    requires UnreadExact(b, a) && UnarchivedExact(b, a)
    ensures var ids := IdsOf(b.index, a);
      UnarchivedExact(ArchiveAll(b, a), a)
      <==> ids.notReadIds == [] || forall id :: id in ids.notArchivedIds ==> id in ids.notReadIds
  {
    var ids := IdsOf(b.index, a);
    var b' := ArchiveAll(b, a);
    if ids.notReadIds != [] {
      forall id ensures Unarchived(b', a, id) <==> id in ids.notArchivedIds && id !in ids.notReadIds {
        assert NoteKey(a, id) in b'.notes <==> NoteKey(a, id) in b.notes;
        assert Unarchived(b, a, id) <==> id in ids.notArchivedIds;
      }
      assert IdsOf(b'.index, a).notArchivedIds == [];
      if UnarchivedExact(b', a) {
        forall id | id in ids.notArchivedIds ensures id in ids.notReadIds {
          assert !Unarchived(b', a, id);
        }
      }
    }
  }

  lemma PutTwo(m: Model, n: Model)
    ensures PutNotes(map[], [m, n]) == map[KeyOf(m) := m.note, KeyOf(n) := n.note]
  {
    assert [m, n][..1] == [m] && [m][..0] == [];
    assert PutNotes(map[], [m]) == map[KeyOf(m) := m.note];
  }

  // One notification unread and one read: archive-all leaves the second unarchived and takes it off the list.
  lemma ArchiveAllForgets(a: string)
    ensures var unread, read := Model(a, "1", Note(None, false, None)), Model(a, "2", Note(Some(true), false, None));
      !UnarchivedExact(PerformAll(EMPTY, [CreateOp([unread, read]), ArchiveOp(a)]), a)
  {
    hide PutNotes, Indexed, ArchiveAll, Distinct;
    var unread, read := Model(a, "1", Note(None, false, None)), Model(a, "2", Note(Some(true), false, None));
    var models := [unread, read];
    var b := Create(EMPTY, models);
    EmptyExact(a);
    CreateKeeps(EMPTY, models, a);
    PutTwo(unread, read);
    assert Unread(b, a, "1") && Unarchived(b, a, "2") && !Unread(b, a, "2");
    ArchiveAllExactly(b, a);
    var ops := [CreateOp(models), ArchiveOp(a)];
    assert ops[1..][1..] == [];
    assert PerformAll(b, ops[1..]) == ArchiveAll(b, a);
  }

  lemma EmptyExact(a: string)
    ensures UnreadExact(EMPTY, a) && UnarchivedExact(EMPTY, a)
  {}

  // ---------- what the flags are ----------

  // The last of the models that has this key.
  ghost function LastOf(models: seq<Model>, key: NoteKey): Option<Note> {
    if models == [] then None
    else
      var last := models[|models| - 1];
      if last.accountId == key.accountId && last.id == key.id then Some(last.note)
      else LastOf(models[..|models| - 1], key)
  }

  // What an operation gives a notification of each flag, if it defines it: a create all of them, an update those in
  // its dto, a read-all and an archive-all their own where the notification was unread.
  datatype Given = Given(isRead: Option<Option<bool>>, isArchived: Option<bool>, isMuted: Option<Option<bool>>)

  const NOTHING := Given(None, None, None)

  ghost function Gives(b: Books, op: Op, key: NoteKey): Given {
    match op
    case CreateOp(models) =>
      if LastOf(models, key).None? then NOTHING
      else
        var note := LastOf(models, key).value;
        Given(Some(note.isRead), Some(note.isArchived), Some(note.isMuted))
    case UpdateOp(a, id, dto) =>
      if key != NoteKey(a, id) || key !in b.notes then NOTHING
      else
        Given(if dto.isRead == None then None else Some(dto.isRead),
              dto.isArchived,
              if dto.isMuted == None then None else Some(dto.isMuted))
    case ReadOp(a) =>
      if key.accountId == a && Unread(b, a, key.id) then NOTHING.(isRead := Some(Some(true))) else NOTHING
    case ArchiveOp(a) =>
      if key.accountId == a && Unread(b, a, key.id) then NOTHING.(isArchived := Some(true)) else NOTHING
  }

  function OrElse<T>(given: Option<T>, kept: T): T {
    if given.Some? then given.value else kept
  }

  lemma {:induction false} PutLast(notes: map<NoteKey, Note>, models: seq<Model>, key: NoteKey)
    ensures key in PutNotes(notes, models) <==> key in notes || LastOf(models, key).Some?
    ensures LastOf(models, key).Some? ==> PutNotes(notes, models)[key] == LastOf(models, key).value
    ensures LastOf(models, key).None? && key in notes ==> PutNotes(notes, models)[key] == notes[key]
  {
    if models != [] {
      PutLast(notes, models[..|models| - 1], key);
    }
  }

  // An operation leaves every flag it does not define.
  lemma StepGives(b: Books, op: Op, key: NoteKey)
    requires forall c :: UnreadExact(b, c)
    ensures var b', given := Perform(b, op), Gives(b, op, key);
      && (key in b'.notes <==> key in b.notes || (op.CreateOp? && LastOf(op.models, key).Some?))
      && (key in b'.notes && key !in b.notes ==>
            given == Given(Some(b'.notes[key].isRead), Some(b'.notes[key].isArchived), Some(b'.notes[key].isMuted)))
      && (key in b.notes ==>
            b'.notes[key] == Note(OrElse(given.isRead, b.notes[key].isRead),
                                  OrElse(given.isArchived, b.notes[key].isArchived),
                                  OrElse(given.isMuted, b.notes[key].isMuted)))
  {
    match op
    case CreateOp(models) => PutLast(b.notes, models, key);
    case UpdateOp(a, id, dto) =>
    case ReadOp(a) =>
      assert UnreadExact(b, a);
      assert key.id in IdsOf(b.index, a).notReadIds <==> Unread(b, a, key.id);
    case ArchiveOp(a) =>
      assert UnreadExact(b, a);
      assert key.id in IdsOf(b.index, a).notReadIds <==> Unread(b, a, key.id);
  }

  ghost function GivenAt(ops: seq<Op>, i: nat, key: NoteKey): Given
    requires i < |ops|
  {
    Gives(PerformAll(EMPTY, ops[..i]), ops[i], key)
  }

  datatype Flag = ReadFlag | ArchivedFlag | MutedFlag

  ghost predicate Defines(given: Given, flag: Flag) {
    match flag
    case ReadFlag => given.isRead.Some?
    case ArchivedFlag => given.isArchived.Some?
    case MutedFlag => given.isMuted.Some?
  }

  // The i-th operation is the last that defined the flag.
  ghost predicate LastDefined(ops: seq<Op>, i: nat, key: NoteKey, flag: Flag)
    requires i < |ops|
  {
    Defines(GivenAt(ops, i, key), flag) && forall j :: i < j < |ops| ==> !Defines(GivenAt(ops, j, key), flag)
  }

  lemma {:induction false} PerformAllSnoc(b: Books, ops: seq<Op>, op: Op)
    ensures PerformAll(b, ops + [op]) == Perform(PerformAll(b, ops), op)
    decreases |ops|
  {
    if ops == [] {
      assert [op][1..] == [] && [] + [op] == [op];
      assert PerformAll(Perform(b, op), []) == Perform(b, op);
    } else {
      assert (ops + [op])[1..] == ops[1..] + [op];
      PerformAllSnoc(Perform(b, ops[0]), ops[1..], op);
    }
  }

  lemma GivenBefore(before: seq<Op>, op: Op, key: NoteKey)
    ensures forall i: nat :: i < |before| ==> GivenAt(before + [op], i, key) == GivenAt(before, i, key)
    ensures GivenAt(before + [op], |before|, key) == Gives(PerformAll(EMPTY, before), op, key)
  {
    forall i: nat | i < |before| ensures GivenAt(before + [op], i, key) == GivenAt(before, i, key) {
      assert (before + [op])[..i] == before[..i];
    }
    assert (before + [op])[..|before|] == before;
  }

  lemma OneMoreGiven(before: seq<Op>, op: Op, key: NoteKey, flag: Flag)
    ensures var ops, defined := before + [op], Defines(Gives(PerformAll(EMPTY, before), op, key), flag);
      && (LastDefined(ops, |before|, key, flag) <==> defined)
      && forall i: nat :: i < |before| ==>
           (LastDefined(ops, i, key, flag) <==> LastDefined(before, i, key, flag) && !defined)
  {
    hide GivenAt, Gives, Defines, PerformAll;
    GivenBefore(before, op, key);
    var ops, n := before + [op], |before|;
    forall i: nat | i < n
      ensures LastDefined(ops, i, key, flag) <==>
        LastDefined(before, i, key, flag) && !Defines(GivenAt(ops, n, key), flag)
    {
      if LastDefined(ops, i, key, flag) {
        forall j: nat | i < j < n ensures !Defines(GivenAt(before, j, key), flag) {
          assert !Defines(GivenAt(ops, j, key), flag);
        }
      }
    }
  }

  // After any operations: a notification is stored exactly if one was created under its key, and each of its flags is
  // what the last operation that defined it gave.
  lemma {:induction false} FlagsAreLastGiven(ops: seq<Op>, key: NoteKey)
    ensures var notes := PerformAll(EMPTY, ops).notes;
      && (key in notes <==> exists i: nat :: i < |ops| && ops[i].CreateOp? && LastOf(ops[i].models, key).Some?)
      && (key in notes ==>
            && (exists i: nat :: i < |ops| && LastDefined(ops, i, key, ReadFlag)
                                 && GivenAt(ops, i, key).isRead == Some(notes[key].isRead))
            && (exists i: nat :: i < |ops| && LastDefined(ops, i, key, ArchivedFlag)
                                 && GivenAt(ops, i, key).isArchived == Some(notes[key].isArchived))
            && (exists i: nat :: i < |ops| && LastDefined(ops, i, key, MutedFlag)
                                 && GivenAt(ops, i, key).isMuted == Some(notes[key].isMuted)))
    decreases |ops|
  {
    if ops != [] {
      var n := |ops| - 1;
      var before, op := ops[..n], ops[n];
      assert ops == before + [op];
      var b := PerformAll(EMPTY, before);
      FlagsAreLastGiven(before, key);
      EmptyAllExact();
      PerformAllKeeps(EMPTY, before);
      PerformAllSnoc(EMPTY, before, op);
      StepGives(b, op, key);
      GivenBefore(before, op, key);
      forall flag: Flag {
        OneMoreGiven(before, op, key, flag);
      }
      hide GivenAt, LastDefined, Perform, PerformAll, Gives, UnreadExact, LastOf;
    }
  }

  lemma EmptyAllExact()
    ensures forall c :: UnreadExact(EMPTY, c)
  {}

  // So after an update that defines isRead, the list has the notification exactly if it is given as unread.
  lemma UpdateTracks(ops: seq<Op>, a: string, id: string, dto: UpdateDto)
    requires NoteKey(a, id) in PerformAll(EMPTY, ops).notes && dto.isRead.Some?
    ensures var b := PerformAll(EMPTY, ops + [UpdateOp(a, id, dto)]);
      id in IdsOf(b.index, a).notReadIds <==> !dto.isRead.value
  {
    var op := UpdateOp(a, id, dto);
    var before, b := PerformAll(EMPTY, ops), PerformAll(EMPTY, ops + [op]);
    EmptyAllExact();
    PerformAllKeeps(EMPTY, ops);
    PerformAllKeeps(EMPTY, ops + [op]);
    PerformAllSnoc(EMPTY, ops, op);
    StepGives(before, op, NoteKey(a, id));
    assert UnreadExact(b, a);
    assert id in IdsOf(b.index, a).notReadIds <==> Unread(b, a, id);
  }
}

/**
 * Draft proposals, kept twice: in Mongo, with the history of edits in a collection of its own, and in Dynamo, as
 * one item with its history inside. The facade calls both services.
 */
module Drafts {
  import opened Wrappers
  import opened Permissions
  import opened Lists

  datatype Content = Content(title: string, description: string, kind: string, draftType: ProposalType)

  datatype State = Open | Closed

  // What both stores hold of a draft.
  datatype Draft = Draft(
    daoId: string,
    proposer: string,
    content: Content,
    state: State,
    proposalId: Option<string>,
    viewAccounts: seq<string>,
    saveAccounts: seq<string>)

  // A version that was edited away, as far as both histories hold it.
  datatype Version = Version(daoId: string, proposer: string, content: Content)

  datatype HistoryRow = HistoryRow(draftProposalId: string, version: Version)

  datatype Mongo = Mongo(drafts: map<string, Draft>, history: seq<HistoryRow>)

  datatype DynamoKey = DynamoKey(daoId: string, id: string)

  // The history keeps the whole old items.
  datatype Item = Item(draft: Draft, isArchived: bool, history: seq<Item>)

  type Dynamo = map<DynamoKey, Item>

  // The DAOs as both services see them.
  type Policies = map<string, seq<Role>>

  datatype Response = Done | NotFound | Forbidden | BadRequest | TypeError

  // ---------- what a call does to a draft ----------

  datatype Call =
    | Creates(daoId: string, id: string, accountId: string, content: Content)
    | Updates(daoId: string, id: string, accountId: string, content: Content)
    | Deletes(daoId: string, id: string, accountId: string)
    | Views(daoId: string, id: string, accountId: string)
    | Saves(daoId: string, id: string, accountId: string)
    | RemovesSave(daoId: string, id: string, accountId: string)
    | Closes(daoId: string, id: string, accountId: string, proposalId: string)
    | ClosesInternally(daoId: string, id: string, proposalId: string)

  function NewDraft(accountId: string, daoId: string, content: Content): Draft {
    Draft(daoId, accountId, content, Open, None, [], [])
  }

  function VersionOf(d: Draft): Version {
    Version(d.daoId, d.proposer, d.content)
  }

  // What the account may do in this DAO; throws if there is no such DAO.
  function Permitted(policies: Policies, daoId: string, t: ProposalType,
                     accountId: string): Outcome<ProposalPermissions>
  {
    if daoId !in policies then Throws else GetAccountPermissions(policies[daoId], t, accountId, None)
  }

  // The guard of a call on a draft, with the DAO whose policy is asked.
  function Guard(policies: Policies, daoId: string, d: Draft, call: Call): Response {
    match call
    case Updates(_, _, a, content) => EditGuard(Permitted(policies, daoId, content.draftType, a), d, a)
    case Deletes(_, _, a) =>
      var r := EditGuard(Permitted(policies, daoId, d.content.draftType, a), d, a);
      if r.Done? && d.state.Closed? then BadRequest else r
    case Closes(_, _, a, _) =>
      var p := Permitted(policies, daoId, d.content.draftType, a);
      if p.Throws? then TypeError else if !p.value.canAdd then Forbidden else Done
    case _ => Done
  }

  function EditGuard(p: Outcome<ProposalPermissions>, d: Draft, accountId: string): Response {
    if p.Throws? then TypeError else if d.proposer != accountId && !p.value.isCouncil then Forbidden else Done
  }

  // The draft after a call that passed its guard.
  function Changed(d: Draft, call: Call): Draft {
    match call
    case Updates(_, _, _, content) => d.(content := content)
    case Views(_, _, a) => if a in d.viewAccounts then d else d.(viewAccounts := d.viewAccounts + [a])
    case Saves(_, _, a) => if a in d.saveAccounts then d else d.(saveAccounts := d.saveAccounts + [a])
    case RemovesSave(_, _, a) => d.(saveAccounts := Without(d.saveAccounts, a))
    case Closes(_, _, _, p) => if d.state.Closed? then d else d.(state := Closed, proposalId := Some(p))
    case ClosesInternally(_, _, p) => d.(state := Closed, proposalId := Some(p))
    case _ => d
  }

  lemma ChangedKeepsDao(d: Draft, call: Call)
    ensures Changed(d, call).daoId == d.daoId && Changed(d, call).proposer == d.proposer
  {}

  // ---------- Mongo ----------

  function Rest(rows: seq<HistoryRow>, id: string): seq<HistoryRow> {
    if rows == [] then [] else (if rows[0].draftProposalId == id then [] else [rows[0]]) + Rest(rows[1..], id)
  }

  // Mongo finds a draft by its id alone, and asks the policy of the draft's DAO.
  function MongoPerform(m: Mongo, policies: Policies, call: Call): (Mongo, Response) {
    if call.Creates? then (m.(drafts := m.drafts[call.id := NewDraft(call.accountId, call.daoId, call.content)]), Done)
    else if call.id !in m.drafts then (m, if call.ClosesInternally? then Done else NotFound)
    else
      var d := m.drafts[call.id];
      var r := Guard(policies, d.daoId, d, call);
      if !r.Done? then (m, r)
      else if call.Deletes? then (Mongo(m.drafts - {call.id}, Rest(m.history, call.id)), Done)
      else (Mongo(m.drafts[call.id := Changed(d, call)],
                  if call.Updates? then m.history + [HistoryRow(call.id, VersionOf(d))] else m.history), Done)
  }

  class MongoDraftProposalService {
    var drafts: map<string, Draft>
    var history: seq<HistoryRow>

    ghost function Now(): Mongo
      reads this
    {
      Mongo(drafts, history)
    }

    constructor ()
      ensures Now() == Mongo(map[], [])
    {
      drafts, history := map[], [];
    }

    // The repository gives a new draft an id of its own.
    method Create(ghost policies: Policies, daoId: string, id: string, accountId: string, content: Content)
      requires id !in drafts
      modifies this
      ensures MongoPerform(old(Now()), policies, Creates(daoId, id, accountId, content)) == (Now(), Done)
    {
      drafts := drafts[id := NewDraft(accountId, daoId, content)];
    }

    method Update(policies: Policies, daoId: string, id: string, accountId: string, content: Content)
      returns (r: Response)
      modifies this
      ensures MongoPerform(old(Now()), policies, Updates(daoId, id, accountId, content)) == (Now(), r)
    {
      if id !in drafts {
        return NotFound;
      }
      var d := drafts[id];
      var permissions := Permitted(policies, d.daoId, content.draftType, accountId);
      if permissions.Throws? {
        return TypeError;
      }
      if d.proposer != accountId && !permissions.value.isCouncil {
        return Forbidden;
      }
      history := history + [HistoryRow(id, VersionOf(d))];
      drafts := drafts[id := d.(content := content)];
      return Done;
    }

    method Delete(policies: Policies, daoId: string, id: string, accountId: string) returns (r: Response)
      modifies this
      ensures MongoPerform(old(Now()), policies, Deletes(daoId, id, accountId)) == (Now(), r)
    {
      if id !in drafts {
        return NotFound;
      }
      var d := drafts[id];
      var permissions := Permitted(policies, d.daoId, d.content.draftType, accountId);
      if permissions.Throws? {
        return TypeError;
      }
      if d.proposer != accountId && !permissions.value.isCouncil {
        return Forbidden;
      }
      if d.state.Closed? {
        return BadRequest;
      }
      history := Rest(history, id);
      drafts := drafts - {id};
      return Done;
    }

    method View(ghost policies: Policies, daoId: string, id: string, accountId: string) returns (r: Response)
      modifies this
      ensures MongoPerform(old(Now()), policies, Views(daoId, id, accountId)) == (Now(), r)
    {
      if id !in drafts {
        return NotFound;
      }
      var d := drafts[id];
      if accountId !in d.viewAccounts {
        drafts := drafts[id := d.(viewAccounts := d.viewAccounts + [accountId])];
      } else {
        assert drafts[id := d] == drafts;
      }
      return Done;
    }

    method Save(ghost policies: Policies, daoId: string, id: string, accountId: string) returns (r: Response)
      modifies this
      ensures MongoPerform(old(Now()), policies, Saves(daoId, id, accountId)) == (Now(), r)
    {
      if id !in drafts {
        return NotFound;
      }
      var d := drafts[id];
      if accountId !in d.saveAccounts {
        drafts := drafts[id := d.(saveAccounts := d.saveAccounts + [accountId])];
      } else {
        assert drafts[id := d] == drafts;
      }
      return Done;
    }

    method RemoveSave(ghost policies: Policies, daoId: string, id: string, accountId: string) returns (r: Response)
      modifies this
      ensures MongoPerform(old(Now()), policies, RemovesSave(daoId, id, accountId)) == (Now(), r)
    {
      if id !in drafts {
        return NotFound;
      }
      var d := drafts[id];
      if accountId in d.saveAccounts {
        drafts := drafts[id := d.(saveAccounts := Without(d.saveAccounts, accountId))];
      } else {
        WithoutAbsent(d.saveAccounts, accountId);
        assert drafts[id := d] == drafts;
      }
      return Done;
    }

    method Close(policies: Policies, daoId: string, id: string, accountId: string, proposalId: string)
      returns (r: Response)
      modifies this
      ensures MongoPerform(old(Now()), policies, Closes(daoId, id, accountId, proposalId)) == (Now(), r)
    {
      if id !in drafts {
        return NotFound;
      }
      var d := drafts[id];
      var permissions := Permitted(policies, d.daoId, d.content.draftType, accountId);
      if permissions.Throws? {
        return TypeError;
      }
      if !permissions.value.canAdd {
        return Forbidden;
      }
      if !d.state.Closed? {
        drafts := drafts[id := d.(state := Closed, proposalId := Some(proposalId))];
      } else {
        assert drafts[id := d] == drafts;
      }
      return Done;
    }

    method CloseInternal(ghost policies: Policies, daoId: string, id: string, proposalId: string)
      modifies this
      ensures MongoPerform(old(Now()), policies, ClosesInternally(daoId, id, proposalId)) == (Now(), Done)
    {
      if id in drafts {
        drafts := drafts[id := drafts[id].(state := Closed, proposalId := Some(proposalId))];
      }
    }
  }

  // ---------- Dynamo ----------

  // Dynamo finds an item by DAO and id, archived or not, and asks the policy of that DAO.
  function DynamoPerform(items: Dynamo, policies: Policies, call: Call): (Dynamo, Response) {
    var key := DynamoKey(call.daoId, call.id);
    if call.Creates? then (items[key := Item(NewDraft(call.accountId, call.daoId, call.content), false, [])], Done)
    else if key !in items then (items, if call.ClosesInternally? then Done else NotFound)
    else
      var item := items[key];
      var r := Guard(policies, call.daoId, item.draft, call);
      if !r.Done? then (items, r)
      else if call.Deletes? then (items[key := item.(isArchived := true)], Done)
      else (items[key := Item(Changed(item.draft, call), item.isArchived,
                              if call.Updates? then item.history + [item] else item.history)], Done)
  }

  class DynamoDraftProposalService {
    var items: Dynamo

    constructor ()
      ensures items == map[]
    {
      items := map[];
    }

    method Create(ghost policies: Policies, daoId: string, id: string, accountId: string, content: Content)
      requires DynamoKey(daoId, id) !in items
      modifies this
      ensures DynamoPerform(old(items), policies, Creates(daoId, id, accountId, content)) == (items, Done)
    {
      items := items[DynamoKey(daoId, id) := Item(NewDraft(accountId, daoId, content), false, [])];
    }

    method Update(policies: Policies, daoId: string, id: string, accountId: string, content: Content)
      returns (r: Response)
      modifies this
      ensures DynamoPerform(old(items), policies, Updates(daoId, id, accountId, content)) == (items, r)
    {
      var key := DynamoKey(daoId, id);
      if key !in items {
        return NotFound;
      }
      var item := items[key];
      var permissions := Permitted(policies, daoId, content.draftType, accountId);
      if permissions.Throws? {
        return TypeError;
      }
      if item.draft.proposer != accountId && !permissions.value.isCouncil {
        return Forbidden;
      }
      items := items[key := item.(draft := item.draft.(content := content), history := item.history + [item])];
      return Done;
    }

    method Delete(policies: Policies, daoId: string, id: string, accountId: string) returns (r: Response)
      modifies this
      ensures DynamoPerform(old(items), policies, Deletes(daoId, id, accountId)) == (items, r)
    {
      var key := DynamoKey(daoId, id);
      if key !in items {
        return NotFound;
      }
      var item := items[key];
      var permissions := Permitted(policies, daoId, item.draft.content.draftType, accountId);
      if permissions.Throws? {
        return TypeError;
      }
      if item.draft.proposer != accountId && !permissions.value.isCouncil {
        return Forbidden;
      }
      if item.draft.state.Closed? {
        return BadRequest;
      }
      items := items[key := item.(isArchived := true)];
      return Done;
    }

    method View(ghost policies: Policies, daoId: string, id: string, accountId: string) returns (r: Response)
      modifies this
      ensures DynamoPerform(old(items), policies, Views(daoId, id, accountId)) == (items, r)
    {
      var key := DynamoKey(daoId, id);
      if key !in items {
        return NotFound;
      }
      var d := items[key].draft;
      if accountId !in d.viewAccounts {
        items := items[key := items[key].(draft := d.(viewAccounts := d.viewAccounts + [accountId]))];
      } else {
        assert items[key := items[key]] == items;
      }
      return Done;
    }

    method Save(ghost policies: Policies, daoId: string, id: string, accountId: string) returns (r: Response)
      modifies this
      ensures DynamoPerform(old(items), policies, Saves(daoId, id, accountId)) == (items, r)
    {
      var key := DynamoKey(daoId, id);
      if key !in items {
        return NotFound;
      }
      var d := items[key].draft;
      if accountId !in d.saveAccounts {
        items := items[key := items[key].(draft := d.(saveAccounts := d.saveAccounts + [accountId]))];
      } else {
        assert items[key := items[key]] == items;
      }
      return Done;
    }

    method RemoveSave(ghost policies: Policies, daoId: string, id: string, accountId: string) returns (r: Response)
      modifies this
      ensures DynamoPerform(old(items), policies, RemovesSave(daoId, id, accountId)) == (items, r)
    {
      var key := DynamoKey(daoId, id);
      if key !in items {
        return NotFound;
      }
      var d := items[key].draft;
      if accountId in d.saveAccounts {
        items := items[key := items[key].(draft := d.(saveAccounts := Without(d.saveAccounts, accountId)))];
      } else {
        WithoutAbsent(d.saveAccounts, accountId);
        assert items[key := items[key]] == items;
      }
      return Done;
    }

    method Close(policies: Policies, daoId: string, id: string, accountId: string, proposalId: string)
      returns (r: Response)
      modifies this
      ensures DynamoPerform(old(items), policies, Closes(daoId, id, accountId, proposalId)) == (items, r)
    {
      var key := DynamoKey(daoId, id);
      if key !in items {
        return NotFound;
      }
      var item := items[key];
      var permissions := Permitted(policies, daoId, item.draft.content.draftType, accountId);
      if permissions.Throws? {
        return TypeError;
      }
      if !permissions.value.canAdd {
        return Forbidden;
      }
      if !item.draft.state.Closed? {
        items := items[key := item.(draft := item.draft.(state := Closed, proposalId := Some(proposalId)))];
      } else {
        assert items[key := item] == items;
      }
      return Done;
    }

    method CloseInternal(ghost policies: Policies, daoId: string, id: string, proposalId: string)
      modifies this
      ensures DynamoPerform(old(items), policies, ClosesInternally(daoId, id, proposalId)) == (items, Done)
    {
      var key := DynamoKey(daoId, id);
      if key in items {
        items := items[key := items[key].(draft := items[key].draft.(state := Closed, proposalId := Some(proposalId)))];
      }
    }
  }

  // ---------- the facade ----------

  datatype Stores = Stores(mongo: Mongo, dynamo: Dynamo)

  // Dynamo first, and Mongo only if that did not throw; a new draft is created in Mongo, which gives its id.
  function Perform(s: Stores, policies: Policies, call: Call): (Stores, Response) {
    var (dynamo, r) := DynamoPerform(s.dynamo, policies, call);
    if !r.Done? then (s.(dynamo := dynamo), r)
    else
      var (mongo, r') := MongoPerform(s.mongo, policies, call);
      (Stores(mongo, dynamo), r')
  }

  ghost predicate FreshId(s: Stores, id: string) {
    id !in s.mongo.drafts && (forall row :: row in s.mongo.history ==> row.draftProposalId != id)
    && forall key :: key in s.dynamo ==> key.id != id
  }

  class DraftProposalServiceFacade {
    const mongo: MongoDraftProposalService
    const dynamo: DynamoDraftProposalService

    ghost function Now(): Stores
      reads mongo, dynamo
    {
      Stores(mongo.Now(), dynamo.items)
    }

    constructor ()
      ensures Now() == Stores(Mongo(map[], []), map[]) && fresh(mongo) && fresh(dynamo)
    {
      mongo := new MongoDraftProposalService();
      dynamo := new DynamoDraftProposalService();
    }

    method Create(ghost policies: Policies, daoId: string, id: string, accountId: string, content: Content)
      requires FreshId(Now(), id)
      modifies mongo, dynamo
      ensures Perform(old(Now()), policies, Creates(daoId, id, accountId, content)) == (Now(), Done)
    {
      mongo.Create(policies, daoId, id, accountId, content);
      dynamo.Create(policies, daoId, id, accountId, content);
    }

    method Update(policies: Policies, daoId: string, id: string, accountId: string, content: Content)
      returns (r: Response)
      modifies mongo, dynamo
      ensures Perform(old(Now()), policies, Updates(daoId, id, accountId, content)) == (Now(), r)
    {
      r := dynamo.Update(policies, daoId, id, accountId, content);
      if r.Done? {
        r := mongo.Update(policies, daoId, id, accountId, content);
      }
    }

    method Delete(policies: Policies, daoId: string, id: string, accountId: string) returns (r: Response)
      modifies mongo, dynamo
      ensures Perform(old(Now()), policies, Deletes(daoId, id, accountId)) == (Now(), r)
    {
      r := dynamo.Delete(policies, daoId, id, accountId);
      if r.Done? {
        r := mongo.Delete(policies, daoId, id, accountId);
      }
    }

    method View(ghost policies: Policies, daoId: string, id: string, accountId: string) returns (r: Response)
      modifies mongo, dynamo
      ensures Perform(old(Now()), policies, Views(daoId, id, accountId)) == (Now(), r)
    {
      r := dynamo.View(policies, daoId, id, accountId);
      if r.Done? {
        r := mongo.View(policies, daoId, id, accountId);
      }
    }

    method Save(ghost policies: Policies, daoId: string, id: string, accountId: string) returns (r: Response)
      modifies mongo, dynamo
      ensures Perform(old(Now()), policies, Saves(daoId, id, accountId)) == (Now(), r)
    {
      r := dynamo.Save(policies, daoId, id, accountId);
      if r.Done? {
        r := mongo.Save(policies, daoId, id, accountId);
      }
    }

    method RemoveSave(ghost policies: Policies, daoId: string, id: string, accountId: string) returns (r: Response)
      modifies mongo, dynamo
      ensures Perform(old(Now()), policies, RemovesSave(daoId, id, accountId)) == (Now(), r)
    {
      r := dynamo.RemoveSave(policies, daoId, id, accountId);
      if r.Done? {
        r := mongo.RemoveSave(policies, daoId, id, accountId);
      }
    }

    method Close(policies: Policies, daoId: string, id: string, accountId: string, proposalId: string)
      returns (r: Response)
      modifies mongo, dynamo
      ensures Perform(old(Now()), policies, Closes(daoId, id, accountId, proposalId)) == (Now(), r)
    {
      r := dynamo.Close(policies, daoId, id, accountId, proposalId);
      if r.Done? {
        r := mongo.Close(policies, daoId, id, accountId, proposalId);
      }
    }

    method CloseInternal(ghost policies: Policies, daoId: string, id: string, proposalId: string)
      modifies mongo, dynamo
      ensures Perform(old(Now()), policies, ClosesInternally(daoId, id, proposalId)) == (Now(), Done)
    {
      dynamo.CloseInternal(policies, daoId, id, proposalId);
      mongo.CloseInternal(policies, daoId, id, proposalId);
    }
  }

  // ---------- agreement ----------

  // The edits of a draft, oldest first, as Mongo has them.
  function MongoHistory(rows: seq<HistoryRow>, id: string): seq<Version> {
    if rows == [] then []
    else
      var last := rows[|rows| - 1];
      MongoHistory(rows[..|rows| - 1], id) + if last.draftProposalId == id then [last.version] else []
  }

  function DynamoHistory(items: seq<Item>): seq<Version> {
    seq(|items|, i requires 0 <= i < |items| => VersionOf(items[i].draft))
  }

  ghost predicate SameDraft(s: Stores, id: string, key: DynamoKey) {
    && key.id == id && id in s.mongo.drafts && key in s.dynamo
    && !s.dynamo[key].isArchived
    && s.dynamo[key].draft == s.mongo.drafts[id]
    && DynamoHistory(s.dynamo[key].history) == MongoHistory(s.mongo.history, id)
  }

  // Every draft in Mongo is an unarchived item in Dynamo, the same in every field and in its edits.
  ghost predicate MongoInDynamo(s: Stores) {
    forall id :: id in s.mongo.drafts ==> SameDraft(s, id, DynamoKey(s.mongo.drafts[id].daoId, id))
  }

  // Every item but the archived ones is a draft in Mongo.
  ghost predicate DynamoInMongo(s: Stores) {
    forall key :: key in s.dynamo && !s.dynamo[key].isArchived ==> SameDraft(s, key.id, key)
  }

  ghost predicate Agree(s: Stores) {
    MongoInDynamo(s) && DynamoInMongo(s)
  }

  // An id belongs to one DAO, and items know theirs.
  ghost predicate TidyItems(items: Dynamo) {
    && (forall key, key' :: key in items && key' in items && key.id == key'.id ==> key == key')
    && (forall key :: key in items ==> items[key].draft.daoId == key.daoId)
  }

  // The history has rows of existing drafts only.
  ghost predicate TidyHistory(m: Mongo) {
    forall row :: row in m.history ==> row.draftProposalId in m.drafts
  }

  ghost predicate Tidy(s: Stores) {
    TidyItems(s.dynamo) && TidyHistory(s.mongo)
  }

  // A new draft has an id of its own, and a close event names the DAO of its draft.
  ghost predicate Legal(s: Stores, call: Call) {
    && (call.Creates? ==> FreshId(s, call.id))
    && (call.ClosesInternally? && call.id in s.mongo.drafts ==> s.mongo.drafts[call.id].daoId == call.daoId)
  }

  lemma {:induction false} NoRows(rows: seq<HistoryRow>, id: string)
    requires forall row :: row in rows ==> row.draftProposalId != id
    ensures MongoHistory(rows, id) == []
  {
    if rows != [] {
      assert rows[|rows| - 1] in rows;
      NoRows(rows[..|rows| - 1], id);
    }
  }

  lemma OneMoreRow(rows: seq<HistoryRow>, row: HistoryRow, id: string)
    ensures MongoHistory(rows + [row], id) ==
      MongoHistory(rows, id) + if row.draftProposalId == id then [row.version] else []
  {
    assert (rows + [row])[..|rows + [row]| - 1] == rows;
  }

  lemma {:induction false} MongoHistoryCons(row: HistoryRow, rows: seq<HistoryRow>, id: string)
    ensures MongoHistory([row] + rows, id)
      == (if row.draftProposalId == id then [row.version] else []) + MongoHistory(rows, id)
    decreases |rows|
  {
    if rows == [] {
      assert [row] + rows == [] + [row];
      OneMoreRow([], row, id);
    } else {
      var n := |rows| - 1;
      assert [row] + rows == ([row] + rows[..n]) + [rows[n]];
      OneMoreRow([row] + rows[..n], rows[n], id);
      MongoHistoryCons(row, rows[..n], id);
    }
  }

  lemma {:induction false} RestMembers(rows: seq<HistoryRow>, gone: string)
    ensures forall row :: row in Rest(rows, gone) <==> row in rows && row.draftProposalId != gone
  {
    if rows != [] {
      RestMembers(rows[1..], gone);
    }
  }

  lemma {:induction false} RestKeepsOthers(rows: seq<HistoryRow>, gone: string, id: string)
    requires id != gone
    ensures MongoHistory(Rest(rows, gone), id) == MongoHistory(rows, id)
  {
    hide MongoHistory;
    if rows != [] {
      RestKeepsOthers(rows[1..], gone, id);
      assert rows == [rows[0]] + rows[1..];
      MongoHistoryCons(rows[0], rows[1..], id);
      MongoHistoryCons(rows[0], Rest(rows[1..], gone), id);
      if rows[0].draftProposalId == gone {
        assert [] + Rest(rows[1..], gone) == Rest(rows[1..], gone);
        assert [] + MongoHistory(rows[1..], id) == MongoHistory(rows[1..], id);
      }
    }
  }

  // ---------- one call ----------

  ghost predicate KeptInMongo(m: Mongo, m': Mongo, id: string) {
    && (id in m.drafts <==> id in m'.drafts)
    && (id in m.drafts ==> m.drafts[id] == m'.drafts[id])
    && MongoHistory(m.history, id) == MongoHistory(m'.history, id)
  }

  ghost predicate KeptInDynamo(items: Dynamo, items': Dynamo, key: DynamoKey) {
    (key in items <==> key in items') && (key in items ==> items[key] == items'[key])
  }

  // Every other draft is as it was, on both sides.
  ghost predicate OthersKept(s: Stores, s': Stores, key: DynamoKey) {
    && (forall id :: id != key.id ==> KeptInMongo(s.mongo, s'.mongo, id))
    && (forall k :: k != key ==> KeptInDynamo(s.dynamo, s'.dynamo, k))
  }

  lemma MongoKeepsOthers(m: Mongo, policies: Policies, call: Call, id: string)
    requires id != call.id
    ensures KeptInMongo(m, MongoPerform(m, policies, call).0, id)
  {
    hide Guard, Changed, MongoHistory;
    RestKeepsOthers(m.history, call.id, id);
    if call.id in m.drafts {
      OneMoreRow(m.history, HistoryRow(call.id, VersionOf(m.drafts[call.id])), id);
    }
  }

  lemma DynamoKeepsOthers(items: Dynamo, policies: Policies, call: Call, key: DynamoKey)
    requires key != DynamoKey(call.daoId, call.id)
    ensures KeptInDynamo(items, DynamoPerform(items, policies, call).0, key)
  {
    hide Guard, Changed;
  }

  lemma PerformKeepsOthers(s: Stores, policies: Policies, call: Call)
    ensures OthersKept(s, Perform(s, policies, call).0, DynamoKey(call.daoId, call.id))
  {
    hide KeptInMongo, KeptInDynamo, MongoPerform, DynamoPerform;
    MongoKept(s.mongo);
    forall id | id != call.id ensures KeptInMongo(s.mongo, MongoPerform(s.mongo, policies, call).0, id) {
      MongoKeepsOthers(s.mongo, policies, call, id);
    }
    forall key | key != DynamoKey(call.daoId, call.id)
      ensures KeptInDynamo(s.dynamo, DynamoPerform(s.dynamo, policies, call).0, key)
    {
      DynamoKeepsOthers(s.dynamo, policies, call, key);
    }
  }

  lemma MongoKept(m: Mongo)
    ensures forall id :: KeptInMongo(m, m, id)
  {}

  // The draft named by key is the same on both sides, or gone from Mongo and archived in Dynamo.
  ghost predicate SameOrGone(s: Stores, key: DynamoKey) {
    SameDraft(s, key.id, key) || (key.id !in s.mongo.drafts && key in s.dynamo && s.dynamo[key].isArchived)
  }

  lemma PerformCreates(s: Stores, policies: Policies, call: Call)
    requires Legal(s, call) && call.Creates?
    ensures SameOrGone(Perform(s, policies, call).0, DynamoKey(call.daoId, call.id))
  {
    NoRows(s.mongo.history, call.id);
  }

  // Both services answer the same, and change the draft in the same way.
  lemma PerformSame(s: Stores, policies: Policies, call: Call)
    requires SameDraft(s, call.id, DynamoKey(call.daoId, call.id)) && Tidy(s) && !call.Creates?
    ensures SameOrGone(Perform(s, policies, call).0, DynamoKey(call.daoId, call.id))
    ensures DynamoPerform(s.dynamo, policies, call).1 == MongoPerform(s.mongo, policies, call).1
  {
    hide Guard, Changed, MongoHistory;
    var d := s.mongo.drafts[call.id];
    var item := s.dynamo[DynamoKey(call.daoId, call.id)];
    assert d.daoId == call.daoId;
    OneMoreRow(s.mongo.history, HistoryRow(call.id, VersionOf(d)), call.id);
    assert DynamoHistory(item.history + [item]) == DynamoHistory(item.history) + [VersionOf(d)];
  }

  lemma PerformGone(s: Stores, policies: Policies, call: Call)
    requires call.id !in s.mongo.drafts && !call.Creates?
    requires var key := DynamoKey(call.daoId, call.id); key in s.dynamo && s.dynamo[key].isArchived
    ensures SameOrGone(Perform(s, policies, call).0, DynamoKey(call.daoId, call.id))
  {}

  lemma DynamoTidy(items: Dynamo, policies: Policies, call: Call)
    requires TidyItems(items)
    requires call.Creates? ==> forall key :: key in items ==> key.id != call.id
    ensures TidyItems(DynamoPerform(items, policies, call).0)
  {
    hide Guard, Changed;
    if DynamoKey(call.daoId, call.id) in items {
      ChangedKeepsDao(items[DynamoKey(call.daoId, call.id)].draft, call);
    }
  }

  lemma MongoTidy(m: Mongo, policies: Policies, call: Call)
    requires TidyHistory(m)
    ensures TidyHistory(MongoPerform(m, policies, call).0)
  {
    hide Guard, Changed;
    RestMembers(m.history, call.id);
  }

  lemma AgreeAfter(s: Stores, s': Stores, key: DynamoKey)
    requires Agree(s) && OthersKept(s, s', key) && SameOrGone(s', key) && Tidy(s')
    ensures Agree(s')
  {
    forall id | id in s'.mongo.drafts ensures SameDraft(s', id, DynamoKey(s'.mongo.drafts[id].daoId, id)) {
      if id != key.id {
        assert KeptInMongo(s.mongo, s'.mongo, id);
        var k := DynamoKey(s.mongo.drafts[id].daoId, id);
        assert SameDraft(s, id, k) && KeptInDynamo(s.dynamo, s'.dynamo, k);
      }
    }
    forall k | k in s'.dynamo && !s'.dynamo[k].isArchived ensures SameDraft(s', k.id, k) {
      if k != key {
        assert k.id != key.id;
        assert KeptInDynamo(s.dynamo, s'.dynamo, k) && KeptInMongo(s.mongo, s'.mongo, k.id);
        assert SameDraft(s, k.id, k);
      }
    }
  }

  lemma PerformKeeps(s: Stores, policies: Policies, call: Call)
    requires Agree(s) && Tidy(s) && Legal(s, call)
    ensures Agree(Perform(s, policies, call).0) && Tidy(Perform(s, policies, call).0)
  {
    hide MongoHistory;
    var key, s' := DynamoKey(call.daoId, call.id), Perform(s, policies, call).0;
    DynamoTidy(s.dynamo, policies, call);
    MongoTidy(s.mongo, policies, call);
    if key !in s.dynamo && !call.Creates? {
      assert s' == s;
    } else {
      PerformKeepsOthers(s, policies, call);
      if call.Creates? {
        PerformCreates(s, policies, call);
      } else if s.dynamo[key].isArchived {
        assert call.id !in s.mongo.drafts;
        PerformGone(s, policies, call);
      } else {
        PerformSame(s, policies, call);
      }
      AgreeAfter(s, s', key);
    }
  }

  // ---------- every run ----------

  datatype Step = Step(policies: Policies, call: Call)

  ghost predicate Runs(s: Stores, steps: seq<Step>, s': Stores)
    decreases |steps|
  {
    if steps == [] then s' == s
    else Legal(s, steps[0].call) && Runs(Perform(s, steps[0].policies, steps[0].call).0, steps[1..], s')
  }

  lemma {:induction false} RunKeeps(s: Stores, steps: seq<Step>, s': Stores)
    requires Agree(s) && Tidy(s) && Runs(s, steps, s')
    ensures Agree(s') && Tidy(s')
    decreases |steps|
  {
    if steps != [] {
      PerformKeeps(s, steps[0].policies, steps[0].call);
      RunKeeps(Perform(s, steps[0].policies, steps[0].call).0, steps[1..], s');
    }
  }

  const EMPTY := Stores(Mongo(map[], []), map[])

  // After any calls, whether they were allowed or refused: the drafts in Mongo are the unarchived items in Dynamo,
  // equal in every field and in their edits.
  lemma DualWriteAgreement(steps: seq<Step>, s: Stores)
    requires Runs(EMPTY, steps, s)
    ensures Agree(s)
  {
    RunKeeps(EMPTY, steps, s);
  }

  // Dynamo refuses whatever Mongo would refuse, with the same answer, so Mongo never refuses a call on a draft that
  // Dynamo has accepted.
  lemma SameAnswers(steps: seq<Step>, s: Stores, policies: Policies, call: Call)
    requires Runs(EMPTY, steps, s) && Legal(s, call)
    requires call.id in s.mongo.drafts && s.mongo.drafts[call.id].daoId == call.daoId
    ensures DynamoPerform(s.dynamo, policies, call).1 == MongoPerform(s.mongo, policies, call).1
  {
    RunKeeps(EMPTY, steps, s);
    PerformSame(s, policies, call);
  }

  // What no call undoes: an item stays, keeps its DAO and proposer, adds to its history, and stays archived or closed.
  ghost predicate ItemGrows(items: Dynamo, items': Dynamo, key: DynamoKey)
    requires key in items
  {
    && key in items'
    && items'[key].draft.daoId == items[key].draft.daoId && items'[key].draft.proposer == items[key].draft.proposer
    && items[key].history <= items'[key].history
    && (items[key].isArchived ==> items'[key].isArchived)
    && (items[key].draft.state.Closed? ==> items'[key].draft.state.Closed?)
  }

  lemma PerformGrows(s: Stores, policies: Policies, call: Call, key: DynamoKey)
    requires key in s.dynamo && Legal(s, call)
    ensures ItemGrows(s.dynamo, Perform(s, policies, call).0.dynamo, key)
  {
    hide Guard;
    if key != DynamoKey(call.daoId, call.id) {
      DynamoKeepsOthers(s.dynamo, policies, call, key);
    }
  }

  lemma {:induction false} ItemsLast(s: Stores, steps: seq<Step>, s': Stores, key: DynamoKey)
    requires Runs(s, steps, s') && key in s.dynamo
    ensures ItemGrows(s.dynamo, s'.dynamo, key)
    decreases |steps|
  {
    if steps != [] {
      PerformGrows(s, steps[0].policies, steps[0].call, key);
      ItemsLast(Perform(s, steps[0].policies, steps[0].call).0, steps[1..], s', key);
    }
  }

  // In every reachable state: who may edit, delete and close a draft, and what becomes of it.
  lemma WhoMayWhat(steps: seq<Step>, s: Stores, policies: Policies, call: Call)
    requires Runs(EMPTY, steps, s) && Legal(s, call)
    requires call.id in s.mongo.drafts && s.mongo.drafts[call.id].daoId == call.daoId
    requires call.daoId in policies && GroupsListed(policies[call.daoId])
    requires (call.Updates? || call.Deletes? || call.Closes?) && call.accountId != ""
    ensures var d, (s', r) := s.mongo.drafts[call.id], Perform(s, policies, call);
      var owns := d.proposer == call.accountId || InCouncil(policies[call.daoId], call.accountId);
      && (call.Updates? ==>
          (r.Done? <==> owns) && (r.Done? ==> s'.mongo.drafts[call.id] == d.(content := call.content)))
      && (call.Deletes? ==> (r.Done? <==> owns && d.state.Open?) && (r.Done? <==> call.id !in s'.mongo.drafts))
      && (call.Closes? ==>
          (r.Done? <==> MayDo(policies[call.daoId], call.accountId, None, d.content.draftType, "AddProposal"))
                           && (r.Done? ==> s'.mongo.drafts[call.id].state.Closed?)
                           && (d.state.Closed? ==> s'.mongo.drafts[call.id] == d))
      && (!r.Done? ==> s' == s)
  {
    hide Agree, Runs, InCouncil, MayDo;
    RunKeeps(EMPTY, steps, s);
    DraftHeldByBoth(s, call);
    PerformSame(s, policies, call);
    var d := s.mongo.drafts[call.id];
    PermissionsMean(policies[call.daoId], if call.Updates? then call.content.draftType else d.content.draftType,
                    call.accountId, None);
  }

  lemma DraftHeldByBoth(s: Stores, call: Call)
    requires Agree(s) && call.id in s.mongo.drafts && s.mongo.drafts[call.id].daoId == call.daoId
    ensures SameDraft(s, call.id, DynamoKey(call.daoId, call.id))
  {}

  // A close event with the wrong DAO closes the draft in Mongo only: the stores go on to agree exactly if there is
  // no such draft, the DAO is right, or the draft was closed by that proposal already.
  lemma CloseEventExactly(s: Stores, policies: Policies, daoId: string, id: string, proposalId: string)
    requires Agree(s) && Tidy(s)
    ensures Agree(Perform(s, policies, ClosesInternally(daoId, id, proposalId)).0)
      <==> (id in s.mongo.drafts ==> var d := s.mongo.drafts[id];
            d.daoId == daoId || (d.state.Closed? && d.proposalId == Some(proposalId)))
  {
    var call := ClosesInternally(daoId, id, proposalId);
    var s' := Perform(s, policies, call).0;
    if Legal(s, call) {
      PerformKeeps(s, policies, call);
    } else {
      var d := s.mongo.drafts[id];
      var key := DynamoKey(d.daoId, id);
      assert SameDraft(s, id, key) && DynamoKey(daoId, id) !in s.dynamo;
      assert s'.dynamo == s.dynamo && s'.mongo.drafts[id] == Changed(d, call);
      if Changed(d, call) == d {
        assert s'.mongo.drafts == s.mongo.drafts;
      } else {
        assert !SameDraft(s', id, key);
      }
    }
  }

  // A draft is created, and a close event names another DAO: Mongo has it closed, Dynamo open.
  lemma WrongDaoClosesMongoOnly(daoId: string, other: string, id: string, accountId: string, content: Content,
                                proposalId: string)
    requires other != daoId
    ensures var s := Perform(EMPTY, map[], Creates(daoId, id, accountId, content)).0;
      Agree(s) && !Agree(Perform(s, map[], ClosesInternally(other, id, proposalId)).0)
  {
    var call := Creates(daoId, id, accountId, content);
    PerformKeeps(EMPTY, map[], call);
    CloseEventExactly(Perform(EMPTY, map[], call).0, map[], other, id, proposalId);
  }

  // ---------- what a draft tells of its calls ----------

  // The calls on a draft that were accepted while it was there, from the one that created it on.
  ghost function Accepted(s: Stores, steps: seq<Step>, id: string): seq<Call>
    decreases |steps|
  {
    if steps == [] then []
    else
      var call := steps[0].call;
      var (s', r) := Perform(s, steps[0].policies, call);
      (if call.id == id && r.Done? && (call.Creates? || id in s.mongo.drafts) then [call] else [])
      + Accepted(s', steps[1..], id)
  }

  // The contents that creating and editing gave it, in order.
  ghost function Contents(calls: seq<Call>): seq<Content> {
    if calls == [] then []
    else
      var last := calls[|calls| - 1];
      Contents(calls[..|calls| - 1]) + if last.Creates? || last.Updates? then [last.content] else []
  }

  ghost predicate TellsContent(d: Draft, history: seq<Version>, calls: seq<Call>) {
    && (forall i :: 0 <= i < |history| ==> history[i].daoId == d.daoId && history[i].proposer == d.proposer)
    && seq(|history|, i requires 0 <= i < |history| => history[i].content) + [d.content] == Contents(calls)
  }

  // An account has viewed it exactly if a call of it says so; it is listed once.
  ghost predicate TellsViews(d: Draft, calls: seq<Call>) {
    && Distinct(d.viewAccounts)
    && forall a :: a in d.viewAccounts <==> exists k :: 0 <= k < |calls| && calls[k] == Views(d.daoId, calls[k].id, a)
  }

  // It is saved for an account exactly if the last call of the account to save it or not to was one to save it.
  ghost predicate TellsSaves(d: Draft, calls: seq<Call>) {
    && Distinct(d.saveAccounts)
    && forall a :: a in d.saveAccounts <==> exists k :: 0 <= k < |calls| && SavedLast(calls, k, a)
  }

  ghost predicate SavedLast(calls: seq<Call>, k: nat, accountId: string)
    requires k < |calls|
  {
    && calls[k].Saves? && calls[k].accountId == accountId
    && forall j :: k < j < |calls| && calls[j].RemovesSave? ==> calls[j].accountId != accountId
  }

  // It is closed exactly if a call or an event closed it, and its proposal is that of the last such event, or else that
  // of the first such call.
  ghost predicate TellsProposal(d: Draft, calls: seq<Call>) {
    && (d.state.Closed? <==> exists k :: 0 <= k < |calls| && (calls[k].Closes? || calls[k].ClosesInternally?))
    && (d.state.Open? ==> d.proposalId == None)
    && (d.state.Closed? ==>
          exists k :: 0 <= k < |calls| && ClosedBy(calls, k) && d.proposalId == Some(calls[k].proposalId))
  }

  ghost predicate ClosedBy(calls: seq<Call>, k: nat)
    requires k < |calls|
  {
    && (calls[k].Closes? || calls[k].ClosesInternally?)
    && (forall j :: k < j < |calls| ==> !calls[j].ClosesInternally?)
    && (calls[k].Closes? ==> forall j :: 0 <= j < k ==> !calls[j].Closes? && !calls[j].ClosesInternally?)
  }

  ghost predicate Tells(d: Draft, history: seq<Version>, calls: seq<Call>) {
    && calls != [] && calls[0].Creates? && calls[0].daoId == d.daoId && calls[0].accountId == d.proposer
    && (forall k :: 1 <= k < |calls| ==> !calls[k].Creates? && !calls[k].Deletes?)
    && (forall k :: 0 <= k < |calls| ==> calls[k].daoId == d.daoId)
    && TellsContent(d, history, calls) && TellsViews(d, calls) && TellsSaves(d, calls) && TellsProposal(d, calls)
  }

  lemma ContentsSnoc(calls: seq<Call>, call: Call)
    ensures Contents(calls + [call]) == Contents(calls) + if call.Creates? || call.Updates? then [call.content] else []
  {
    assert (calls + [call])[..|calls|] == calls;
  }

  lemma NewTells(call: Call)
    requires call.Creates?
    ensures Tells(NewDraft(call.accountId, call.daoId, call.content), [], [call])
  {
    ContentsSnoc([], call);
    assert [] + [call] == [call];
    var d := NewDraft(call.accountId, call.daoId, call.content);
    assert seq(0, i requires 0 <= i < 0 => d.content) + [d.content] == [d.content];
  }

  lemma ChangedTellsContent(d: Draft, history: seq<Version>, calls: seq<Call>, call: Call)
    requires TellsContent(d, history, calls) && !call.Creates?
    ensures TellsContent(Changed(d, call), if call.Updates? then history + [VersionOf(d)] else history, calls + [call])
  {
    ContentsSnoc(calls, call);
  }

  lemma ChangedTellsViews(d: Draft, calls: seq<Call>, call: Call)
    requires TellsViews(d, calls) && call.daoId == d.daoId && !call.Creates?
    ensures TellsViews(Changed(d, call), calls + [call])
  {
    var d', calls' := Changed(d, call), calls + [call];
    var n := |calls|;
    assert calls'[n] == call && forall k :: 0 <= k < n ==> calls'[k] == calls[k];
    forall a
      ensures a in d'.viewAccounts <==> exists k :: 0 <= k < |calls'| && calls'[k] == Views(d.daoId, calls'[k].id, a)
    {
      if call.Views? && call.accountId == a {
        assert calls'[n] == Views(d.daoId, calls'[n].id, a);
      } else if a in d.viewAccounts {
        var k :| 0 <= k < |calls| && calls[k] == Views(d.daoId, calls[k].id, a);
        assert calls'[k] == Views(d.daoId, calls'[k].id, a);
      }
    }
  }

  lemma ChangedTellsSaves(d: Draft, calls: seq<Call>, call: Call)
    requires TellsSaves(d, calls) && !call.Creates?
    ensures TellsSaves(Changed(d, call), calls + [call])
  {
    var d', calls' := Changed(d, call), calls + [call];
    var n := |calls|;
    assert calls'[n] == call && forall k :: 0 <= k < n ==> calls'[k] == calls[k];
    if call.RemovesSave? {
      WithoutDistinct(d.saveAccounts, call.accountId);
    }
    forall a ensures a in d'.saveAccounts <==> exists k :: 0 <= k < |calls'| && SavedLast(calls', k, a) {
      if call.Saves? && call.accountId == a {
        assert SavedLast(calls', n, a);
      } else {
        forall k | 0 <= k < n
          ensures SavedLast(calls', k, a) <==> SavedLast(calls, k, a) && !(call.RemovesSave? && call.accountId == a)
        {
          assert forall j :: k < j < n ==> calls'[j] == calls[j];
        }
        assert !SavedLast(calls', n, a);
      }
    }
  }

  lemma ChangedTellsProposal(d: Draft, calls: seq<Call>, call: Call)
    requires TellsProposal(d, calls) && !call.Creates?
    ensures TellsProposal(Changed(d, call), calls + [call])
  {
    var d', calls' := Changed(d, call), calls + [call];
    var n := |calls|;
    assert calls'[n] == call && forall k :: 0 <= k < n ==> calls'[k] == calls[k];
    if call.ClosesInternally? {
      assert ClosedBy(calls', n);
    } else if d.state.Closed? {
      var k :| 0 <= k < n && ClosedBy(calls, k) && d.proposalId == Some(calls[k].proposalId);
      assert ClosedBy(calls', k);
    } else if call.Closes? {
      assert ClosedBy(calls', n);
    }
  }

  lemma ChangedTells(d: Draft, history: seq<Version>, calls: seq<Call>, call: Call)
    requires Tells(d, history, calls) && call.daoId == d.daoId && !call.Creates? && !call.Deletes?
    ensures Tells(Changed(d, call), if call.Updates? then history + [VersionOf(d)] else history, calls + [call])
  {
    ChangedKeepsDao(d, call);
    ChangedTellsContent(d, history, calls, call);
    ChangedTellsViews(d, calls, call);
    ChangedTellsSaves(d, calls, call);
    ChangedTellsProposal(d, calls, call);
    hide Changed, TellsContent, TellsViews, TellsSaves, TellsProposal;
  }

  ghost predicate Told(s: Stores, id: string, calls: seq<Call>) {
    if id in s.mongo.drafts then Tells(s.mongo.drafts[id], MongoHistory(s.mongo.history, id), calls)
    else calls == [] || exists key :: key in s.dynamo && key.id == id
  }

  // A call on another draft, or one that is refused, tells nothing of this one.
  lemma OthersTold(s: Stores, policies: Policies, call: Call, id: string, calls: seq<Call>)
    requires call.id != id && Told(s, id, calls)
    ensures Told(Perform(s, policies, call).0, id, calls)
  {
    PerformKeepsOthers(s, policies, call);
    var s' := Perform(s, policies, call).0;
    hide MongoPerform, DynamoPerform, Tells, Perform, MongoHistory;
    assert KeptInMongo(s.mongo, s'.mongo, id);
    if key :| key in s.dynamo && key.id == id {
      assert KeptInDynamo(s.dynamo, s'.dynamo, key);
    }
  }

  lemma CreateTold(s: Stores, policies: Policies, call: Call, calls: seq<Call>)
    requires Legal(s, call) && call.Creates? && Told(s, call.id, calls)
    ensures calls == [] && Perform(s, policies, call).1.Done? && Told(Perform(s, policies, call).0, call.id, [call])
  {
    hide Tells, MongoHistory;
    NoRows(s.mongo.history, call.id);
    NewTells(call);
  }

  lemma MissingTold(s: Stores, policies: Policies, call: Call, calls: seq<Call>)
    requires !call.Creates? && call.id !in s.mongo.drafts && Told(s, call.id, calls)
    ensures Told(Perform(s, policies, call).0, call.id, calls)
  {
    hide Guard, Changed;
    var s' := Perform(s, policies, call).0;
    assert s'.mongo == s.mongo;
    if key :| key in s.dynamo && key.id == call.id {
      assert key in s'.dynamo;
    }
  }

  lemma MongoTells(m: Mongo, policies: Policies, call: Call, calls: seq<Call>)
    requires !call.Creates? && call.id in m.drafts && m.drafts[call.id].daoId == call.daoId
    requires Tells(m.drafts[call.id], MongoHistory(m.history, call.id), calls)
    ensures var (m', r) := MongoPerform(m, policies, call);
      && (!r.Done? ==> m' == m)
      && (r.Done? && call.Deletes? ==> call.id !in m'.drafts)
      && (r.Done? && !call.Deletes? ==>
            call.id in m'.drafts
            && Tells(m'.drafts[call.id], MongoHistory(m'.history, call.id), calls + [call]))
  {
    var d := m.drafts[call.id];
    OneMoreRow(m.history, HistoryRow(call.id, VersionOf(d)), call.id);
    hide Guard, Changed, Tells, MongoHistory;
    if !call.Deletes? {
      ChangedTells(d, MongoHistory(m.history, call.id), calls, call);
    }
  }

  // A call that names a draft of this DAO, on both sides.
  lemma OwnCallTold(s: Stores, policies: Policies, call: Call, calls: seq<Call>)
    requires SameDraft(s, call.id, DynamoKey(call.daoId, call.id)) && Tidy(s) && !call.Creates?
    requires Tells(s.mongo.drafts[call.id], MongoHistory(s.mongo.history, call.id), calls)
    ensures var (s', r) := Perform(s, policies, call);
      Told(s', call.id, if r.Done? then calls + [call] else calls)
  {
    PerformSame(s, policies, call);
    MongoTells(s.mongo, policies, call, calls);
    StaysInDynamo(s.dynamo, policies, call);
    hide Guard, Tells, MongoHistory, Tidy, SameDraft, MongoPerform, DynamoPerform, SameOrGone;
    assert DynamoKey(call.daoId, call.id) in Perform(s, policies, call).0.dynamo;
  }

  lemma StaysInDynamo(items: Dynamo, policies: Policies, call: Call)
    requires DynamoKey(call.daoId, call.id) in items
    ensures DynamoKey(call.daoId, call.id) in DynamoPerform(items, policies, call).0
  {
    hide Guard, Changed;
  }

  // A call that names a draft that is there: of this DAO, or it is refused.
  lemma CallTold(s: Stores, policies: Policies, call: Call, calls: seq<Call>)
    requires Agree(s) && Tidy(s) && Legal(s, call) && !call.Creates? && call.id in s.mongo.drafts
    requires Tells(s.mongo.drafts[call.id], MongoHistory(s.mongo.history, call.id), calls)
    ensures var (s', r) := Perform(s, policies, call);
      Told(s', call.id, if r.Done? then calls + [call] else calls)
  {
    hide Guard, Changed, Tells, MongoHistory;
    var d := s.mongo.drafts[call.id];
    assert SameDraft(s, call.id, DynamoKey(d.daoId, call.id));
    if d.daoId == call.daoId {
      OwnCallTold(s, policies, call, calls);
    } else {
      assert DynamoKey(call.daoId, call.id) !in s.dynamo;
    }
  }

  lemma {:induction false} RunTold(s: Stores, steps: seq<Step>, s': Stores, id: string, calls: seq<Call>)
    requires Agree(s) && Tidy(s) && Runs(s, steps, s') && Told(s, id, calls)
    ensures Told(s', id, calls + Accepted(s, steps, id))
    decreases |steps|
  {
    hide Told, Agree, Tidy, Perform;
    if steps == [] {
      assert calls + [] == calls;
    } else {
      var call := steps[0].call;
      var (mid, r) := Perform(s, steps[0].policies, call);
      PerformKeeps(s, steps[0].policies, call);
      var more := StepTold(s, steps[0].policies, call, id, calls);
      RunTold(mid, steps[1..], s', id, calls + more);
      assert (calls + more) + Accepted(mid, steps[1..], id) == calls + Accepted(s, steps, id);
    }
  }

  lemma StepTold(s: Stores, policies: Policies, call: Call, id: string, calls: seq<Call>) returns (more: seq<Call>)
    requires Agree(s) && Tidy(s) && Legal(s, call) && Told(s, id, calls)
    ensures more == if call.id == id && Perform(s, policies, call).1.Done? && (call.Creates? || id in s.mongo.drafts)
                    then [call] else []
    ensures Told(Perform(s, policies, call).0, id, calls + more)
  {
    assert calls + [] == calls;
    if call.id != id {
      more := [];
      OthersTold(s, policies, call, id, calls);
    } else if call.Creates? {
      more := [call];
      CreateTold(s, policies, call, calls);
    } else if id !in s.mongo.drafts {
      more := [];
      MissingTold(s, policies, call, calls);
    } else {
      more := if Perform(s, policies, call).1.Done? then [call] else [];
      CallTold(s, policies, call, calls);
    }
  }

  // After any calls, a draft in Mongo, and so its item in Dynamo, tells of the calls on it that were accepted: who
  // created it, all contents it had, who viewed it, for whom it is saved, and what closed it.
  lemma DraftsTell(steps: seq<Step>, s: Stores, id: string)
    requires Runs(EMPTY, steps, s) && id in s.mongo.drafts
    ensures Tells(s.mongo.drafts[id], MongoHistory(s.mongo.history, id), Accepted(EMPTY, steps, id))
    ensures var key := DynamoKey(s.mongo.drafts[id].daoId, id);
      key in s.dynamo && Tells(s.dynamo[key].draft, DynamoHistory(s.dynamo[key].history), Accepted(EMPTY, steps, id))
  {
    RunTold(EMPTY, steps, s, id, []);
    assert [] + Accepted(EMPTY, steps, id) == Accepted(EMPTY, steps, id);
    RunKeeps(EMPTY, steps, s);
    hide Tells, Runs;
    assert SameDraft(s, id, DynamoKey(s.mongo.drafts[id].daoId, id));
  }

  // Viewing a draft, saving it and not saving it are never refused.
  lemma AnyoneMayView(steps: seq<Step>, s: Stores, policies: Policies, call: Call)
    requires Runs(EMPTY, steps, s) && (call.Views? || call.Saves? || call.RemovesSave?)
    requires call.id in s.mongo.drafts && s.mongo.drafts[call.id].daoId == call.daoId
    ensures Perform(s, policies, call).1.Done?
  {
    hide Changed;
    RunKeeps(EMPTY, steps, s);
    DraftHeldByBoth(s, call);
  }
}
